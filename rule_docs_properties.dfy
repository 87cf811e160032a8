/**
 * What the documentation validator guarantees: the enum encoding, the
 * meaning of the ordering and presence checks, when the scan throws, and
 * that an error once found is never cleared.
 */
module RuleDocsProperties {
  import opened Wrappers
  import opened RuleDocs

  // ---------------------------------------------------------------------
  // The enum encoding
  // ---------------------------------------------------------------------

  /** The comparator's numbers are the enum values. */
  lemma RankIsValue(t: TitleType)
    ensures Rank(t) == Value(t) as int
  {
    match t
    case RuleTitle => assert Value(t) == 5;
    case Options => assert Value(t) == 9;
    case HowToConfigure => assert Value(t) == 14;
    case Examples => assert Value(t) == 17;
    case WhenNotToUseIt => assert Value(t) == 21;
    case RelatedTo => assert Value(t) == 26;
  }

  /** Declaration order is ascending order of value, and it lists every title once. */
  lemma {:induction false} DeclarationOrderAscends()
    ensures forall i, j :: 0 <= i < j < |ExpectedTitleOrder| ==> Rank(ExpectedTitleOrder[i]) < Rank(ExpectedTitleOrder[j])
    ensures forall t: TitleType :: t in ExpectedTitleOrder
  {
    forall t: TitleType
      ensures t in ExpectedTitleOrder
    {
      match t
      case RuleTitle => assert ExpectedTitleOrder[0] == t;
      case Options => assert ExpectedTitleOrder[1] == t;
      case HowToConfigure => assert ExpectedTitleOrder[2] == t;
      case Examples => assert ExpectedTitleOrder[3] == t;
      case WhenNotToUseIt => assert ExpectedTitleOrder[4] == t;
      case RelatedTo => assert ExpectedTitleOrder[5] == t;
    }
  }

  /** The low two bits of a value are exactly one of the two flags: the
      required flag on the four required sections, the optional flag on the others. */
  lemma FlagsMarkRequiredSections(t: TitleType)
    ensures (Value(t) & RequiredTitle != 0) <==> IsRequired(t)
    ensures (Value(t) & OptionalTitle != 0) <==> !IsRequired(t)
    ensures ExpectedUnlessOptional(t) <==> IsRequired(t)
  {
    match t
    case RuleTitle => assert Value(t) == 5;
    case Options => assert Value(t) == 9;
    case HowToConfigure => assert Value(t) == 14;
    case Examples => assert Value(t) == 17;
    case WhenNotToUseIt => assert Value(t) == 21;
    case RelatedTo => assert Value(t) == 26;
  }

  // ---------------------------------------------------------------------
  // The final checks
  // ---------------------------------------------------------------------

  /** The presence check fails exactly when a required section is absent. */
  lemma {:induction false} MissingRequiredIff(order: seq<TitleType>)
    ensures MissingRequired(order) <==> exists t :: IsRequired(t) && t !in order
  {
    DeclarationOrderAscends();
    if MissingRequired(order) {
      var m :| 0 <= m < |ExpectedTitleOrder| && ExpectedUnlessOptional(ExpectedTitleOrder[m])
               && ExpectedTitleOrder[m] !in order;
      FlagsMarkRequiredSections(ExpectedTitleOrder[m]);
    }
    if t :| IsRequired(t) && t !in order {
      assert t in ExpectedTitleOrder;
      var m :| 0 <= m < |ExpectedTitleOrder| && ExpectedTitleOrder[m] == t;
      FlagsMarkRequiredSections(t);
    }
  }

  /** Sorting an ascending list leaves it as it is. */
  lemma {:induction false} SortKeepsAscending(order: seq<TitleType>)
    requires Ascending(order)
    ensures SortTitles(order) == order
  {
    if order != [] {
      var tail := order[1..];
      assert Ascending(tail) by {
        forall i, j | 0 <= i < j < |tail|
          ensures Rank(tail[i]) <= Rank(tail[j])
        {
          assert tail[i] == order[i + 1] && tail[j] == order[j + 1];
        }
      }
      SortKeepsAscending(tail);
      assert order == [order[0]] + tail;
      if tail != [] {
        assert Rank(order[0]) <= Rank(order[1]);
      }
    }
  }

  /** The ordering check fails exactly when the sections are not in
      ascending order of value. */
  lemma {:induction false} OrderErrorIff(order: seq<TitleType>)
    ensures IsIncorrectlySorted(order) <==> !Ascending(order)
  {
    var sorted := SortTitles(order);
    if Ascending(order) {
      SortKeepsAscending(order);
    } else {
      assert sorted != order;
      var i :| 0 <= i < |sorted| && sorted[i] != order[i];
    }
  }

  // ---------------------------------------------------------------------
  // The scan
  // ---------------------------------------------------------------------

  /** Some token of the list opens a section. */
  predicate SomeSectionOpens(tokens: seq<MdToken>)
  {
    exists j :: 0 <= j < |tokens| && OpensSection(tokens[j])
  }

  /** After a successful scan a section is open exactly when some token opened one. */
  lemma {:induction false} ScanOpensIff(rule: Rule, tokens: seq<MdToken>)
    requires Scan(rule, tokens).Ok?
    ensures Scan(rule, tokens).value.titleOrder != [] <==> SomeSectionOpens(tokens)
  {
    if tokens != [] {
      var init := tokens[..|tokens| - 1];
      ScanOpensIff(rule, init);
      assert forall j :: 0 <= j < |init| ==> init[j] == tokens[j];
      if SomeSectionOpens(tokens) && !OpensSection(tokens[|tokens| - 1]) {
        var j :| 0 <= j < |tokens| && OpensSection(tokens[j]);
        assert j < |init| && OpensSection(init[j]);
      }
    }
  }

  /** The scan throws exactly when a content token comes before every
      section heading, and it throws for the first such token. */
  lemma {:induction false} ScanFailsIff(rule: Rule, tokens: seq<MdToken>)
    ensures Scan(rule, tokens).Err? <==>
              exists i :: 0 <= i < |tokens| && IsContent(tokens[i]) && !SomeSectionOpens(tokens[..i])
    ensures Scan(rule, tokens).Err? ==>
              exists i :: && 0 <= i < |tokens| && IsContent(tokens[i]) && !SomeSectionOpens(tokens[..i])
                          && Scan(rule, tokens).error == NoSectionForToken(tokens[i])
  {
    if tokens != [] {
      var n := |tokens| - 1;
      var init := tokens[..n];
      ScanFailsIff(rule, init);
      assert forall i :: 0 <= i <= n ==> tokens[..i] == init[..i];
      assert forall i :: 0 <= i < n ==> tokens[i] == init[i];
      assert init == tokens[..n];
      if Scan(rule, init).Ok? {
        ScanOpensIff(rule, init);
        var st := Scan(rule, init).value;
        if exists i :: 0 <= i < |tokens| && IsContent(tokens[i]) && !SomeSectionOpens(tokens[..i]) {
          var i :| 0 <= i < |tokens| && IsContent(tokens[i]) && !SomeSectionOpens(tokens[..i]);
          assert i == n;
        }
      }
    }
  }

  /** Once a check has failed, the rest of the scan does not clear it. */
  lemma {:induction false} ErrorsAreFinal(rule: Rule, tokens: seq<MdToken>, n: nat)
    requires n <= |tokens|
    requires Scan(rule, tokens[..n]).Ok? && Scan(rule, tokens[..n]).value.hasErrors
    requires Scan(rule, tokens).Ok?
    ensures Scan(rule, tokens).value.hasErrors
  {
    if n < |tokens| {
      var init := tokens[..|tokens| - 1];
      assert init[..n] == tokens[..n];
      ErrorsAreFinal(rule, init, n);
    } else {
      assert tokens[..n] == tokens;
    }
  }

  // ---------------------------------------------------------------------
  // The verdict
  // ---------------------------------------------------------------------

  /** A page passes exactly when the scan found no error, the sections are in
      ascending order and every required section is present. */
  lemma {:induction false} ValidateMeaning(rule: Rule, tokens: seq<MdToken>)
    requires Scan(rule, tokens).Ok?
    ensures var st := Scan(rule, tokens).value;
            Validate(rule, tokens) ==
              Ok(st.hasErrors || !Ascending(st.titleOrder) || exists t :: IsRequired(t) && t !in st.titleOrder)
  {
    var st := Scan(rule, tokens).value;
    OrderErrorIff(st.titleOrder);
    MissingRequiredIff(st.titleOrder);
  }

  // ---------------------------------------------------------------------
  // Pages
  // ---------------------------------------------------------------------

  function Heading(depth: int, text: string): MdToken
  {
    MdToken(true, depth, text)
  }

  function Paragraph(text: string): MdToken
  {
    MdToken(false, 0, text)
  }

  /** A page of headings only: the correct title, then the headings of
      `titles` at level 2. */
  function SectionPage(rule: Rule, titles: seq<TitleType>): seq<MdToken>
    requires forall i :: 0 <= i < |titles| ==> titles[i] != RuleTitle
  {
    if titles == [] then [Heading(1, ExpectedTitleText(rule))]
    else SectionPage(rule, titles[..|titles| - 1]) + [Heading(2, SectionHeading(titles[|titles| - 1]))]
  }

  function WellOrderedPage(rule: Rule): seq<MdToken>
  {
    SectionPage(rule, [Options, Examples, WhenNotToUseIt])
  }

  /** Scanning one more token is one more step of the scan. */
  lemma ScanSnoc(rule: Rule, tokens: seq<MdToken>, tok: MdToken, st: DocState)
    requires Scan(rule, tokens) == Ok(st)
    ensures WellFormedDoc(st)
    ensures Scan(rule, tokens + [tok]) == DocStep(rule, st, tok)
  {
    assert (tokens + [tok])[..|tokens|] == tokens;
  }

  /** A correct heading for a section not yet seen opens it without error. */
  lemma ScanOpens(rule: Rule, tokens: seq<MdToken>, st: DocState, tok: MdToken, t: TitleType)
    requires Scan(rule, tokens) == Ok(st)
    requires tok.isHeading && t !in st.sections
    requires if tok.depth == 1 then t == RuleTitle && tok.text == ExpectedTitleText(rule)
             else tok.depth == 2 && TitleOf(tok.text) == Some(t)
    ensures Scan(rule, tokens + [tok]) == Ok(OpenSection(st, t, true))
  {
    ScanSnoc(rule, tokens, tok, st);
  }

  lemma PrependSnoc(x: TitleType, s: seq<TitleType>)
    requires s != []
    ensures [x] + s == [x] + s[..|s| - 1] + [s[|s| - 1]]
  {
    assert s == s[..|s| - 1] + [s[|s| - 1]];
  }

  lemma DistinctLast(s: seq<TitleType>)
    requires s != [] && Distinct(s)
    ensures s[|s| - 1] !in s[..|s| - 1]
  {
  }

  /** Correct headings of distinct sections scan without error, and the
      sections are recorded in the order of the page. */
  lemma {:induction false} ScanSectionPage(rule: Rule, titles: seq<TitleType>)
    requires forall i :: 0 <= i < |titles| ==> titles[i] != RuleTitle
    requires Distinct(titles)
    ensures Scan(rule, SectionPage(rule, titles)).Ok?
    ensures Scan(rule, SectionPage(rule, titles)).value.titleOrder == [RuleTitle] + titles
    ensures !Scan(rule, SectionPage(rule, titles)).value.hasErrors
  {
    if titles == [] {
      var title := Heading(1, ExpectedTitleText(rule));
      assert [] + [title] == [title];
      ScanOpens(rule, [], InitialDoc, title, RuleTitle);
    } else {
      var init, last := titles[..|titles| - 1], titles[|titles| - 1];
      ScanSectionPage(rule, init);
      var st := Scan(rule, SectionPage(rule, init)).value;
      DistinctLast(titles);
      TitleOfHeading(last);
      ScanOpens(rule, SectionPage(rule, init), st, Heading(2, SectionHeading(last)), last);
      PrependSnoc(RuleTitle, titles);
    }
  }

  /** Titles whose ranks rise from each one to the next are ascending. */
  lemma {:induction false} AdjacentAscending(order: seq<TitleType>)
    requires forall i :: 0 <= i < |order| - 1 ==> Rank(order[i]) <= Rank(order[i + 1])
    ensures Ascending(order)
  {
    if order != [] {
      var rest := order[1..];
      AdjacentAscending(rest);
      forall j | 0 < j < |order|
        ensures Rank(order[0]) <= Rank(order[j])
      {
        var k := 1;
        while k < j
          invariant 1 <= k <= j && Rank(order[0]) <= Rank(order[k])
        {
          k := k + 1;
        }
      }
      forall i, j | 0 <= i < j < |order|
        ensures Rank(order[i]) <= Rank(order[j])
      {
        if i > 0 {
          assert order[i] == rest[i - 1] && order[j] == rest[j - 1];
        }
      }
    }
  }

  /** The title followed by the three required sections is in ascending
      order and lists every required section. */
  lemma RequiredTitlesInOrder()
    ensures Ascending([RuleTitle] + [Options, Examples, WhenNotToUseIt])
    ensures forall t :: IsRequired(t) ==> t in [RuleTitle] + [Options, Examples, WhenNotToUseIt]
  {
    var order := [RuleTitle] + [Options, Examples, WhenNotToUseIt];
    assert order == [RuleTitle, Options, Examples, WhenNotToUseIt];
    assert Rank(order[0]) <= Rank(order[1]) <= Rank(order[2]) <= Rank(order[3]);
    AdjacentAscending(order);
    forall t | IsRequired(t)
      ensures t in order
    {
      assert t == order[0] || t == order[1] || t == order[2] || t == order[3];
    }
  }

  /** A page with the title, then Options, Examples and When Not To Use It
      at level 2, passes. */
  lemma WellOrderedPagePasses(rule: Rule)
    ensures Validate(rule, WellOrderedPage(rule)) == Ok(false)
  {
    ScanSectionPage(rule, [Options, Examples, WhenNotToUseIt]);
    RequiredTitlesInOrder();
    ValidateMeaning(rule, WellOrderedPage(rule));
  }

  lemma SwappedPage(rule: Rule)
    ensures SectionPage(rule, [Examples, Options, WhenNotToUseIt])
              == [Heading(1, ExpectedTitleText(rule)), Heading(2, "Examples"),
                  Heading(2, "Options"), Heading(2, "When Not To Use It")]
  {
    var titles := [Examples, Options, WhenNotToUseIt];
    var t0 := Heading(1, ExpectedTitleText(rule));
    assert titles[..2] == [Examples, Options] && [Examples, Options][..1] == [Examples] && [Examples][..0] == [];
    assert SectionPage(rule, [Examples]) == [t0, Heading(2, "Examples")];
    assert SectionPage(rule, [Examples, Options]) == [t0, Heading(2, "Examples"), Heading(2, "Options")];
  }

  lemma SwappedTitles()
    ensures !Ascending([RuleTitle] + [Examples, Options, WhenNotToUseIt])
  {
    var order := [RuleTitle] + [Examples, Options, WhenNotToUseIt];
    assert order[1] == Examples && order[2] == Options;
  }

  /** Sections out of order are reported even when each heading is correct. */
  lemma SwappedSectionsFail(rule: Rule)
    ensures Validate(rule, [Heading(1, ExpectedTitleText(rule)), Heading(2, "Examples"),
                            Heading(2, "Options"), Heading(2, "When Not To Use It")]) == Ok(true)
  {
    var page := SectionPage(rule, [Examples, Options, WhenNotToUseIt]);
    SwappedPage(rule);
    ScanSectionPage(rule, [Examples, Options, WhenNotToUseIt]);
    SwappedTitles();
    ValidateMeaning(rule, page);
  }

  /** Text before the first heading makes the check throw. */
  lemma LeadingTextThrows(rule: Rule, text: string)
    ensures Validate(rule, [Paragraph(text), Heading(1, ExpectedTitleText(rule))]).Err?
  {
    var page := [Paragraph(text), Heading(1, ExpectedTitleText(rule))];
    assert page[..1] == [Paragraph(text)] && [Paragraph(text)][..0] == [];
    assert Scan(rule, [Paragraph(text)]).Err?;
  }
}
