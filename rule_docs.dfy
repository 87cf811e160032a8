/**
 * `validateRuleDoc` of the plugin's documentation tooling: one pass over the
 * markdown tokens of a rule's documentation page that checks the page's
 * headings, followed by an ordering check and a check that every required
 * section is present. It returns whether any check failed.
 *
 * Reading the file, the markdown lexer and the console output are not part of
 * this model: the page arrives as a token list, and only the `hasErrors`
 * verdict is modelled, not the messages logged beside it.
 */
module RuleDocs {
  import opened Wrappers

  // ---------------------------------------------------------------------
  // Title types and their bit-flag encoding
  // ---------------------------------------------------------------------

  const RequiredTitle: bv32 := 1
  const OptionalTitle: bv32 := 1 << 1

  /** The sections of a rule page, in declaration order. */
  datatype TitleType = RuleTitle | Options | HowToConfigure | Examples | WhenNotToUseIt | RelatedTo

  /** The value of the counter `i` when the enum member is declared. */
  function Ordinal(t: TitleType): bv32
  {
    match t
    case RuleTitle => 1
    case Options => 2
    case HowToConfigure => 3
    case Examples => 4
    case WhenNotToUseIt => 5
    case RelatedTo => 6
  }

  /** The flag each member is declared with. */
  function DeclaredFlag(t: TitleType): bv32
  {
    if t == HowToConfigure || t == RelatedTo then OptionalTitle else RequiredTitle
  }

  /** The enum value: `(i++ << 2) | flag`. */
  function Value(t: TitleType): (v: bv32)
    ensures v & 3 == DeclaredFlag(t)
    ensures v >> 2 == Ordinal(t)
  {
    (Ordinal(t) << 2) | DeclaredFlag(t)
  }

  /** The enum value as a number, as the sort's comparator sees it
      (`RankIsValue` proves the two agree; keeping it apart keeps bit-vector
      reasoning out of the sorting proofs). */
  function Rank(t: TitleType): int
  {
    match t
    case RuleTitle => 5
    case Options => 9
    case HowToConfigure => 14
    case Examples => 17
    case WhenNotToUseIt => 21
    case RelatedTo => 26
  }

  /** The sections a page must have. */
  predicate IsRequired(t: TitleType)
  {
    t == RuleTitle || t == Options || t == Examples || t == WhenNotToUseIt
  }

  /** The numeric members of the enum, in ascending order of value. */
  const ExpectedTitleOrder: seq<TitleType> :=
    [RuleTitle, Options, HowToConfigure, Examples, WhenNotToUseIt, RelatedTo]

  /** The section a heading text names, other than the rule title. */
  /** The heading text that names a section other than the rule title. */
  function SectionHeading(t: TitleType): string
    requires t != RuleTitle
  {
    match t
    case Options => "Options"
    case HowToConfigure => "How to Configure"
    case Examples => "Examples"
    case WhenNotToUseIt => "When Not To Use It"
    case RelatedTo => "RelatedTo"
  }

  /** The section a heading text names: a section's own heading names it,
      and no other text names anything. */
  function TitleOf(text: string): (r: Option<TitleType>)
    ensures r.Some? ==> r.value != RuleTitle && SectionHeading(r.value) == text
  {
    if text == "Options" then Some(Options)
    else if text == "How to Configure" then Some(HowToConfigure)
    else if text == "Examples" then Some(Examples)
    else if text == "When Not To Use It" then Some(WhenNotToUseIt)
    else if text == "RelatedTo" then Some(RelatedTo)
    else None
  }

  /** Every section's own heading names it. */
  lemma TitleOfHeading(t: TitleType)
    requires t != RuleTitle
    ensures TitleOf(SectionHeading(t)) == Some(t)
  {
  }

  // ---------------------------------------------------------------------
  // Tokens and the scanning state
  // ---------------------------------------------------------------------

  /** A markdown token: whether it is a heading, its heading depth and its text. */
  datatype MdToken = MdToken(isHeading: bool, depth: int, text: string)

  /** The rule whose page is checked: its name and its `meta.docs.description`. */
  datatype Rule = Rule(name: string, description: string)

  /** The text the level-1 heading must have. */
  function ExpectedTitleText(rule: Rule): string
  {
    rule.description + " (" + rule.name + ")"
  }

  /** The `TypeError` of pushing a token when no section has been opened yet. */
  datatype DocError = NoSectionForToken(token: MdToken)

  datatype DocState = DocState(
    hasErrors: bool,
    titleOrder: seq<TitleType>,
    sections: map<TitleType, seq<MdToken>>,
    lastSeenTitle: Option<TitleType>)

  const InitialDoc: DocState := DocState(false, [], map[], None)

  predicate Distinct(order: seq<TitleType>)
  {
    forall i, j :: 0 <= i < j < |order| ==> order[i] != order[j]
  }

  /** The sections opened are those in `titleOrder`, each once; the last seen
      title is set exactly when some section is open, and it is open. */
  predicate WellFormedDoc(st: DocState)
  {
    && Distinct(st.titleOrder)
    && (forall t :: t in st.sections <==> t in st.titleOrder)
    && (st.lastSeenTitle.Some? <==> |st.titleOrder| > 0)
    && (st.lastSeenTitle.Some? ==> st.lastSeenTitle.value in st.sections)
  }

  /** Opens the section `t`: recorded in order, made the current section, and
      an error when its heading was not as expected. */
  function OpenSection(st: DocState, t: TitleType, headingOk: bool): DocState
  {
    DocState(st.hasErrors || !headingOk, st.titleOrder + [t], st.sections[t := []], Some(t))
  }

  /** A heading that names a section: any depth-1 heading, or a known text. */
  predicate OpensSection(tok: MdToken)
  {
    tok.isHeading && (tok.depth == 1 || TitleOf(tok.text).Some?)
  }

  /** A token that is pushed into the current section. */
  predicate IsContent(tok: MdToken)
  {
    !tok.isHeading || (tok.depth != 1 && TitleOf(tok.text).None? && tok.depth != 2)
  }

  /** The section an opening heading names: the rule title for any depth-1
      heading, otherwise the section its text names. */
  function SectionNamed(tok: MdToken): TitleType
    requires OpensSection(tok)
  {
    if tok.depth == 1 then RuleTitle else TitleOf(tok.text).value
  }

  /** Whether an opening heading is as expected: the rule title must read
      "<description> (<name>)", the other sections must be at depth 2. */
  predicate HeadingAsExpected(rule: Rule, tok: MdToken)
  {
    if tok.depth == 1 then tok.text == ExpectedTitleText(rule) else tok.depth == 2
  }

  /** One token of the `forEach`. */
  function DocStep(rule: Rule, st: DocState, tok: MdToken): (r: Result<DocState, DocError>)
    requires WellFormedDoc(st)
    ensures r.Ok? ==> WellFormedDoc(r.value)
    // It throws exactly on content before any section is open.
    ensures r.Err? <==> IsContent(tok) && st.titleOrder == []
    ensures r.Err? ==> r.error == NoSectionForToken(tok)
    // A repeated section heading is an error and opens nothing.
    ensures OpensSection(tok) && SectionNamed(tok) in st.titleOrder ==> r == Ok(st.(hasErrors := true))
    // A new section heading is appended to the order and becomes current.
    ensures OpensSection(tok) && SectionNamed(tok) !in st.titleOrder ==>
              && r.Ok?
              && r.value.titleOrder == st.titleOrder + [SectionNamed(tok)]
              && r.value.lastSeenTitle == Some(SectionNamed(tok))
              && (r.value.hasErrors <==> st.hasErrors || !HeadingAsExpected(rule, tok))
    // Any other level-2 heading is an error.
    ensures tok.isHeading && !OpensSection(tok) && !IsContent(tok) ==> r == Ok(st.(hasErrors := true))
    // Content goes into the current section and changes nothing else.
    ensures IsContent(tok) && st.titleOrder != [] ==>
              r == Ok(st.(sections := st.sections[st.lastSeenTitle.value := st.sections[st.lastSeenTitle.value] + [tok]]))
    ensures r.Ok? && st.hasErrors ==> r.value.hasErrors
  {
    if tok.isHeading && tok.depth == 1 then
      if RuleTitle in st.sections then Ok(st.(hasErrors := true))
      else Ok(OpenSection(st, RuleTitle, tok.text == ExpectedTitleText(rule)))
    else if tok.isHeading && TitleOf(tok.text).Some? then
      var t := TitleOf(tok.text).value;
      if t in st.sections then Ok(st.(hasErrors := true))
      else Ok(OpenSection(st, t, tok.depth == 2))
    else if tok.isHeading && tok.depth == 2 then
      Ok(st.(hasErrors := true))
    else
      match st.lastSeenTitle
      case None => Err(NoSectionForToken(tok))
      case Some(t) => Ok(st.(sections := st.sections[t := st.sections[t] + [tok]]))
  }

  /** The `forEach` over all tokens, from the initial state. */
  function Scan(rule: Rule, tokens: seq<MdToken>): (r: Result<DocState, DocError>)
    ensures r.Ok? ==> WellFormedDoc(r.value)
    decreases |tokens|
  {
    if tokens == [] then Ok(InitialDoc)
    else
      match Scan(rule, tokens[..|tokens| - 1])
      case Err(e) => Err(e)
      case Ok(st) => DocStep(rule, st, tokens[|tokens| - 1])
  }

  // ---------------------------------------------------------------------
  // The final checks
  // ---------------------------------------------------------------------

  predicate Ascending(order: seq<TitleType>)
  {
    forall i, j :: 0 <= i < j < |order| ==> Rank(order[i]) <= Rank(order[j])
  }

  /** Inserts `t` into an ascending list before the first element not below it. */
  function Insert(t: TitleType, sorted: seq<TitleType>): (r: seq<TitleType>)
    ensures |r| == |sorted| + 1
  {
    if sorted == [] then [t]
    else if Rank(t) <= Rank(sorted[0]) then [t] + sorted
    else [sorted[0]] + Insert(t, sorted[1..])
  }

  /** Inserting adds `t` and keeps every other element. */
  lemma {:induction false} InsertPermutes(t: TitleType, sorted: seq<TitleType>)
    ensures multiset(Insert(t, sorted)) == multiset(sorted) + multiset{t}
  {
    if sorted != [] && Rank(t) > Rank(sorted[0]) {
      InsertPermutes(t, sorted[1..]);
      assert sorted == [sorted[0]] + sorted[1..];
    }
  }

  /** A lower bound of `t` and of every element of `sorted` bounds the insertion. */
  lemma {:induction false} InsertAbove(bound: int, t: TitleType, sorted: seq<TitleType>)
    requires bound <= Rank(t)
    requires forall k :: 0 <= k < |sorted| ==> bound <= Rank(sorted[k])
    ensures forall k :: 0 <= k < |Insert(t, sorted)| ==> bound <= Rank(Insert(t, sorted)[k])
  {
    if sorted != [] && Rank(t) > Rank(sorted[0]) {
      InsertAbove(bound, t, sorted[1..]);
      var r := Insert(t, sorted);
      forall k | 0 <= k < |r|
        ensures bound <= Rank(r[k])
      {
        if k > 0 {
          assert r[k] == Insert(t, sorted[1..])[k - 1];
        }
      }
    }
  }

  lemma {:induction false} InsertKeepsAscending(t: TitleType, sorted: seq<TitleType>)
    requires Ascending(sorted)
    ensures Ascending(Insert(t, sorted))
  {
    if sorted != [] && Rank(t) > Rank(sorted[0]) {
      var rest := Insert(t, sorted[1..]);
      InsertKeepsAscending(t, sorted[1..]);
      InsertAbove(Rank(sorted[0]), t, sorted[1..]);
      var r := [sorted[0]] + rest;
      assert r == Insert(t, sorted);
      forall i, j | 0 <= i < j < |r|
        ensures Rank(r[i]) <= Rank(r[j])
      {
        assert r[j] == rest[j - 1];
        if i > 0 {
          assert r[i] == rest[i - 1];
        }
      }
    }
  }

  /** `[...titleOrder].sort((a, b) => a - b)`: the ascending permutation. */
  function SortTitles(order: seq<TitleType>): (r: seq<TitleType>)
    ensures |r| == |order| && multiset(r) == multiset(order)
    ensures Ascending(r)
  {
    if order == [] then []
    else
      assert order == [order[0]] + order[1..];
      var rest := SortTitles(order[1..]);
      InsertKeepsAscending(order[0], rest);
      InsertPermutes(order[0], rest);
      Insert(order[0], rest)
  }

  /** `sortedTitles.some((title, i) => titleOrder[i] !== title)` */
  predicate IsIncorrectlySorted(order: seq<TitleType>)
  {
    var sorted := SortTitles(order);
    exists i :: 0 <= i < |sorted| && order[i] != sorted[i]
  }

  /** A title the final loop looks for: one without the optional flag. */
  predicate ExpectedUnlessOptional(t: TitleType)
  {
    Value(t) & OptionalTitle == 0
  }

  /** Some title without the optional flag is missing from `titleOrder`. */
  predicate MissingRequired(order: seq<TitleType>)
  {
    exists m :: 0 <= m < |ExpectedTitleOrder| && ExpectedUnlessOptional(ExpectedTitleOrder[m])
                && ExpectedTitleOrder[m] !in order
  }

  /** `validateRuleDoc`: whether any check failed, or the error it threw. */
  function Validate(rule: Rule, tokens: seq<MdToken>): (r: Result<bool, DocError>)
    ensures r.Err? <==> Scan(rule, tokens).Err?
    ensures r.Ok? && Scan(rule, tokens).value.hasErrors ==> r.value
    // A page that passes has its sections already in sorted order.
    ensures r == Ok(false) ==> SortTitles(Scan(rule, tokens).value.titleOrder) == Scan(rule, tokens).value.titleOrder
  {
    match Scan(rule, tokens)
    case Err(e) => Err(e)
    case Ok(st) => Ok(st.hasErrors || IsIncorrectlySorted(st.titleOrder) || MissingRequired(st.titleOrder))
  }

  // ---------------------------------------------------------------------
  // The validator as the source runs it
  // ---------------------------------------------------------------------

  /** The `forEach` callback: one token against the captured state. */
  method VisitToken(rule: Rule, st: DocState, token: MdToken) returns (r: Result<DocState, DocError>)
    requires WellFormedDoc(st)
    ensures r == DocStep(rule, st, token)
  {
    var hasErrors, titleOrder, sections, lastSeenTitle := st.hasErrors, st.titleOrder, st.sections, st.lastSeenTitle;
    if token.isHeading {
      if token.depth == 1 {
        if RuleTitle in sections {
          return Ok(DocState(true, titleOrder, sections, lastSeenTitle));
        }
        titleOrder := titleOrder + [RuleTitle];
        lastSeenTitle := Some(RuleTitle);
        sections := sections[RuleTitle := []];
        if token.text != ExpectedTitleText(rule) {
          hasErrors := true;
        }
        return Ok(DocState(hasErrors, titleOrder, sections, lastSeenTitle));
      }
      var title := TitleOf(token.text);
      if title.Some? {
        if title.value in sections {
          return Ok(DocState(true, titleOrder, sections, lastSeenTitle));
        }
        titleOrder := titleOrder + [title.value];
        lastSeenTitle := title;
        sections := sections[title.value := []];
        if token.depth != 2 {
          hasErrors := true;
        }
        return Ok(DocState(hasErrors, titleOrder, sections, lastSeenTitle));
      }
      if token.depth == 2 {
        return Ok(DocState(true, titleOrder, sections, lastSeenTitle));
      }
    }
    if lastSeenTitle.None? {
      return Err(NoSectionForToken(token));
    }
    sections := sections[lastSeenTitle.value := sections[lastSeenTitle.value] + [token]];
    return Ok(DocState(hasErrors, titleOrder, sections, lastSeenTitle));
  }

  method ValidateRuleDoc(rule: Rule, ruleDoc: seq<MdToken>) returns (r: Result<bool, DocError>)
    ensures r == Validate(rule, ruleDoc)
  {
    var st := InitialDoc;
    var i := 0;
    while i < |ruleDoc|
      invariant 0 <= i <= |ruleDoc|
      invariant Scan(rule, ruleDoc[..i]) == Ok(st)
    {
      assert ruleDoc[..i + 1][..i] == ruleDoc[..i];
      var next := VisitToken(rule, st, ruleDoc[i]);
      i := i + 1;
      if next.Err? {
        ScanStaysFailed(rule, ruleDoc, i);
        assert ruleDoc[..|ruleDoc|] == ruleDoc;
        return Err(next.error);
      }
      st := next.value;
    }
    assert ruleDoc[..i] == ruleDoc;
    var hasErrors, titleOrder := st.hasErrors, st.titleOrder;
    var isIncorrectlySorted := CheckSectionOrder(titleOrder);
    if isIncorrectlySorted {
      hasErrors := true;
    }
    var missing := CheckRequiredSections(titleOrder);
    if missing {
      hasErrors := true;
    }
    r := Ok(hasErrors);
  }

  /** The ordering check: compares `titleOrder` with its ascending sort. */
  method CheckSectionOrder(titleOrder: seq<TitleType>) returns (isIncorrectlySorted: bool)
    ensures isIncorrectlySorted == IsIncorrectlySorted(titleOrder)
  {
    var sortedTitles := SortTitles(titleOrder);
    isIncorrectlySorted := false;
    var k := 0;
    while k < |sortedTitles| && !isIncorrectlySorted
      invariant 0 <= k <= |sortedTitles|
      invariant isIncorrectlySorted ==> IsIncorrectlySorted(titleOrder)
      invariant !isIncorrectlySorted ==> forall m :: 0 <= m < k ==> titleOrder[m] == sortedTitles[m]
    {
      if titleOrder[k] != sortedTitles[k] {
        isIncorrectlySorted := true;
      }
      k := k + 1;
    }
  }

  /** The presence check: every title without the optional flag must occur. */
  method CheckRequiredSections(titleOrder: seq<TitleType>) returns (missing: bool)
    ensures missing == MissingRequired(titleOrder)
  {
    missing := false;
    var n := 0;
    while n < |ExpectedTitleOrder|
      invariant 0 <= n <= |ExpectedTitleOrder|
      invariant missing == exists m :: 0 <= m < n && ExpectedUnlessOptional(ExpectedTitleOrder[m])
                                       && ExpectedTitleOrder[m] !in titleOrder
    {
      var title := ExpectedTitleOrder[n];
      if Value(title) & OptionalTitle == 0 {
        if title !in titleOrder {
          missing := true;
        }
      }
      n := n + 1;
    }
  }

  /** Once the scan has thrown on a prefix, it throws the same error on the
      whole list. */
  lemma {:induction false} ScanStaysFailed(rule: Rule, tokens: seq<MdToken>, n: nat)
    requires n <= |tokens|
    requires Scan(rule, tokens[..n]).Err?
    ensures Scan(rule, tokens) == Scan(rule, tokens[..n])
    decreases |tokens| - n
  {
    if n < |tokens| {
      assert tokens[..n + 1][..n] == tokens[..n];
      ScanStaysFailed(rule, tokens, n + 1);
    } else {
      assert tokens[..n] == tokens;
    }
  }
}
