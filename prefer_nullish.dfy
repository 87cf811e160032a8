/**
 * The `prefer-nullish-coalescing` rule: a `||` whose left operand may be
 * `null` or `undefined` is reported, with a fix that turns the operator into
 * `??`, unless the option `ignoreConditionalTests` is on and the expression
 * sits in the test of a ternary, `if`, `for`, `while` or `do-while`.
 *
 * The type checker's nullability answer and the lookup of the operator token
 * are inputs. A node is known by its identity (`id`) and reaches its
 * ancestors through the list `ancestors`, nearest first; the last one is the
 * root.
 */
module PreferNullish {
  import opened Wrappers

  // ---------------------------------------------------------------------
  // The syntax tree, as the walk sees it
  // ---------------------------------------------------------------------

  datatype NodeType =
    | ConditionalExpression
    | DoWhileStatement
    | IfStatement
    | ForStatement
    | WhileStatement
    | LogicalExpression
    | OtherNodeType(name: string)

  /** A node: its identity, its type, and the identity of its `test` child
      (`None` for a node without one, and for `for (;;)`). */
  datatype AstNode = AstNode(id: nat, nodeType: NodeType, test: Option<nat>)

  /** The node types whose `test` the walk looks at. */
  predicate IsTestOwner(n: AstNode)
  {
    n.nodeType.ConditionalExpression? || n.nodeType.DoWhileStatement? || n.nodeType.IfStatement?
    || n.nodeType.ForStatement? || n.nodeType.WhileStatement?
  }

  /** The identities of a list of nodes. */
  function ChainIds(nodes: seq<AstNode>): set<nat>
  {
    if nodes == [] then {} else ChainIds(nodes[..|nodes| - 1]) + {nodes[|nodes| - 1].id}
  }

  /** `ChainIds` holds exactly the identities of the nodes. */
  lemma {:induction false} ChainIdsMembers(nodes: seq<AstNode>)
    ensures forall x :: x in ChainIds(nodes) <==> exists j :: 0 <= j < |nodes| && nodes[j].id == x
  {
    if nodes != [] {
      var init := nodes[..|nodes| - 1];
      ChainIdsMembers(init);
      assert forall j :: 0 <= j < |init| ==> init[j] == nodes[j];
    }
  }

  /** Appending a node adds its identity. */
  lemma ChainIdsSnoc(nodes: seq<AstNode>, n: AstNode)
    ensures ChainIds(nodes + [n]) == ChainIds(nodes) + {n.id}
  {
    assert (nodes + [n])[..|nodes|] == nodes;
  }

  /** The node, then its ancestors from the parent up to the root. */
  function Chain(node: AstNode, ancestors: seq<AstNode>): seq<AstNode>
  {
    [node] + ancestors
  }

  /** The ancestor at `i` of the chain owns a test, and that test is one of the
      nodes from the start of the chain up to the ancestor itself. */
  predicate TestOnPath(chain: seq<AstNode>, i: nat)
    requires i < |chain|
  {
    IsTestOwner(chain[i]) && chain[i].test.Some? && chain[i].test.value in ChainIds(chain[..i + 1])
  }

  /** What `isConditionalTest` decides: some proper ancestor owns a test that
      lies on the path from the node up to it. */
  predicate IsConditionalTestSpec(node: AstNode, ancestors: seq<AstNode>)
  {
    exists i :: 1 <= i < |Chain(node, ancestors)| && TestOnPath(Chain(node, ancestors), i)
  }

  /** No ancestor before position `k` of the chain has its test on the path. */
  predicate NoTestBefore(chain: seq<AstNode>, k: nat)
    requires k <= |chain|
  {
    k <= 1 || (NoTestBefore(chain, k - 1) && !TestOnPath(chain, k - 1))
  }

  lemma {:induction false} NoTestBeforeMeans(chain: seq<AstNode>, k: nat)
    requires k <= |chain| && NoTestBefore(chain, k)
    ensures forall i :: 1 <= i < k ==> !TestOnPath(chain, i)
  {
    if k > 1 {
      NoTestBeforeMeans(chain, k - 1);
    }
  }

  // ---------------------------------------------------------------------
  // `isConditionalTest`
  // ---------------------------------------------------------------------

  /** Walks from the parent to the root, adding each visited node to
      `parents`, and stops at the first test owner whose test was visited. */
  method IsConditionalTest(node: AstNode, ancestors: seq<AstNode>) returns (b: bool)
    ensures b == IsConditionalTestSpec(node, ancestors)
  {
    ghost var chain := Chain(node, ancestors);
    var parents := {node.id};
    assert chain[..1] == [node];
    // `current` is `ancestors[k - 1]`, the node at `k` on the chain.
    var k := 1;
    while k <= |ancestors|
      invariant 1 <= k <= |ancestors| + 1
      invariant parents == ChainIds(chain[..k])
      invariant NoTestBefore(chain, k)
    {
      var current := ancestors[k - 1];
      assert chain[..k + 1] == chain[..k] + [current];
      ChainIdsSnoc(chain[..k], current);
      parents := parents + {current.id};
      if IsTestOwner(current) && current.test.Some? && current.test.value in parents {
        assert TestOnPath(chain, k);
        return true;
      }
      k := k + 1;
    }
    NoTestBeforeMeans(chain, k);
    return false;
  }

  // ---------------------------------------------------------------------
  // The tree reading of the walk
  // ---------------------------------------------------------------------

  /** The chain comes from a tree: identities are distinct, and a node's test
      child, wherever it occurs on the chain, has that node as its parent. */
  predicate TreeChain(chain: seq<AstNode>)
  {
    && (forall i, j :: 0 <= i < j < |chain| ==> chain[i].id != chain[j].id)
    && (forall i, j :: 0 <= i < |chain| && 0 <= j < |chain| && chain[i].test == Some(chain[j].id)
          ==> j + 1 == i)
  }

  /** The path to the ancestor at `i` enters it through its test. */
  predicate EntersThroughTest(chain: seq<AstNode>, i: nat)
    requires 1 <= i < |chain|
  {
    IsTestOwner(chain[i]) && chain[i].test == Some(chain[i - 1].id)
  }

  /** On a chain from a tree, the walk answers true exactly when the node is
      the test of some test owner or lies inside one: the path enters that
      owner through its test. */
  lemma {:induction false} ConditionalTestMeansInsideTest(node: AstNode, ancestors: seq<AstNode>)
    requires TreeChain(Chain(node, ancestors))
    ensures IsConditionalTestSpec(node, ancestors) <==>
              exists i :: 1 <= i < |Chain(node, ancestors)| && EntersThroughTest(Chain(node, ancestors), i)
  {
    var chain := Chain(node, ancestors);
    if IsConditionalTestSpec(node, ancestors) {
      var i :| 1 <= i < |chain| && TestOnPath(chain, i);
      ChainIdsMembers(chain[..i + 1]);
      var j :| 0 <= j < |chain[..i + 1]| && chain[..i + 1][j].id == chain[i].test.value;
      assert chain[j].id == chain[i].test.value;
      assert EntersThroughTest(chain, i);
    }
    if i :| 1 <= i < |chain| && EntersThroughTest(chain, i) {
      assert chain[..i + 1][i - 1] == chain[i - 1];
      ChainIdsMembers(chain[..i + 1]);
      assert TestOnPath(chain, i);
    }
  }

  /** A node in the body or a branch of every test owner above it (the path
      never enters one through its test) is not a conditional test. */
  lemma BodyIsNotConditionalTest(node: AstNode, ancestors: seq<AstNode>)
    requires TreeChain(Chain(node, ancestors))
    requires forall i :: 1 <= i < |Chain(node, ancestors)| ==> !EntersThroughTest(Chain(node, ancestors), i)
    ensures !IsConditionalTestSpec(node, ancestors)
  {
    ConditionalTestMeansInsideTest(node, ancestors);
  }

  // ---------------------------------------------------------------------
  // The `LogicalExpression[operator = "||"]` handler
  // ---------------------------------------------------------------------

  /** The source range of a token. */
  datatype Range = Range(start: nat, end: nat)

  /** A text replacement. */
  datatype Fix = ReplaceText(range: Range, text: string)

  datatype MessageId = PreferNullish

  /** A report on the operator token, with its fix. */
  datatype Report = Report(messageId: MessageId, loc: Range, fix: Fix)

  const NullishOperator: string := "??"

  /** `ignoreConditionalTests` after the rule's defaults are merged in: true
      unless the user set it. */
  function IgnoreConditionalTests(userOption: Option<bool>): (r: bool)
    ensures userOption.None? ==> r
    ensures userOption.Some? ==> r == userOption.value
  {
    match userOption
    case None => true
    case Some(b) => b
  }

  /** The handler for one `||` expression. `leftIsNullable` is the checker's
      answer for the type of the left operand; `operator` is the range of the
      `||` token after the left operand. */
  function OnLogicalOr(ignoreConditionalTests: bool, leftIsNullable: bool, node: AstNode,
                       ancestors: seq<AstNode>, operator: Range): (r: Option<Report>)
    ensures r.Some? <==> leftIsNullable && !(ignoreConditionalTests && IsConditionalTestSpec(node, ancestors))
    ensures r.Some? ==> r.value.messageId == PreferNullish && r.value.loc == operator
    ensures r.Some? ==> r.value.fix == ReplaceText(operator, NullishOperator)
  {
    if !leftIsNullable then None
    else if ignoreConditionalTests && IsConditionalTestSpec(node, ancestors) then None
    else Some(Report(PreferNullish, operator, ReplaceText(operator, NullishOperator)))
  }

  // ---------------------------------------------------------------------
  // Applying the fix
  // ---------------------------------------------------------------------

  function ApplyFix(text: string, fix: Fix): (r: string)
    requires fix.range.start <= fix.range.end <= |text|
    ensures |r| == |text| - (fix.range.end - fix.range.start) + |fix.text|
    ensures r[..fix.range.start] == text[..fix.range.start]
    ensures r[fix.range.start..fix.range.start + |fix.text|] == fix.text
    ensures r[fix.range.start + |fix.text|..] == text[fix.range.end..]
  {
    text[..fix.range.start] + fix.text + text[fix.range.end..]
  }

  /** On the `||` token, the fix writes `??` over the two operator characters
      and leaves every other character where it was. */
  lemma FixReplacesOnlyOperator(text: string, operator: Range)
    requires operator.start <= operator.end <= |text|
    requires text[operator.start..operator.end] == "||"
    ensures var fixed := ApplyFix(text, ReplaceText(operator, NullishOperator));
            && |fixed| == |text|
            && fixed[operator.start..operator.end] == "??"
            && forall k :: 0 <= k < |text| && !(operator.start <= k < operator.end) ==> fixed[k] == text[k]
  {
    var fixed := ApplyFix(text, ReplaceText(operator, NullishOperator));
    assert operator.end == operator.start + 2;
    forall k | 0 <= k < |text| && !(operator.start <= k < operator.end)
      ensures fixed[k] == text[k]
    {
      if k < operator.start {
        assert fixed[k] == text[..operator.start][k];
      } else {
        assert fixed[k] == text[operator.end..][k - operator.end];
      }
    }
    assert fixed[operator.start..operator.end] == NullishOperator;
  }

  /** Writing `||` back over the fixed range restores the original text. */
  lemma FixIsUndone(text: string, operator: Range)
    requires operator.start <= operator.end <= |text|
    requires text[operator.start..operator.end] == "||"
    ensures ApplyFix(ApplyFix(text, ReplaceText(operator, NullishOperator)), ReplaceText(operator, "||")) == text
  {
    var fixed := ApplyFix(text, ReplaceText(operator, NullishOperator));
    FixReplacesOnlyOperator(text, operator);
    var back := ApplyFix(fixed, ReplaceText(operator, "||"));
    assert fixed[..operator.start] == text[..operator.start];
    assert fixed[operator.end..] == text[operator.end..];
    assert text == text[..operator.start] + text[operator.start..operator.end] + text[operator.end..];
  }

  // ---------------------------------------------------------------------
  // Scenarios
  // ---------------------------------------------------------------------

  /** `if (x || 'foo') {}` with a nullable `x` and `ignoreConditionalTests`
      on: the expression is the `if`'s test, so nothing is reported. */
  lemma IfTestIsIgnored(operator: Range)
    ensures OnLogicalOr(IgnoreConditionalTests(Some(true)), true,
                        AstNode(1, LogicalExpression, None),
                        [AstNode(2, IfStatement, Some(1)), AstNode(0, OtherNodeType("Program"), None)],
                        operator) == None
  {
    var node := AstNode(1, LogicalExpression, None);
    var ancestors := [AstNode(2, IfStatement, Some(1)), AstNode(0, OtherNodeType("Program"), None)];
    var chain := Chain(node, ancestors);
    assert chain[..2] == [node, ancestors[0]];
    assert TestOnPath(chain, 1);
  }

  /** `if (c) { x || 'foo'; }`: the expression is in the branch, not the test,
      so it is reported even with the default options. */
  lemma IfBranchIsReported(operator: Range)
    ensures OnLogicalOr(IgnoreConditionalTests(None), true,
                        AstNode(3, LogicalExpression, None),
                        [AstNode(4, OtherNodeType("ExpressionStatement"), None),
                         AstNode(5, OtherNodeType("BlockStatement"), None),
                         AstNode(2, IfStatement, Some(6)),
                         AstNode(0, OtherNodeType("Program"), None)],
                        operator) == Some(Report(PreferNullish, operator, ReplaceText(operator, "??")))
  {
    var node := AstNode(3, LogicalExpression, None);
    var ancestors := [AstNode(4, OtherNodeType("ExpressionStatement"), None),
                      AstNode(5, OtherNodeType("BlockStatement"), None),
                      AstNode(2, IfStatement, Some(6)),
                      AstNode(0, OtherNodeType("Program"), None)];
    forall i | 1 <= i < |Chain(node, ancestors)|
      ensures !TestOnPath(Chain(node, ancestors), i)
    {
      if i == 3 {
        ChainIdsMembers(Chain(node, ancestors)[..4]);
        assert 6 !in ChainIds(Chain(node, ancestors)[..4]);
      }
    }
  }

  /** `x || 'foo';` becomes `x ?? 'foo';`. */
  lemma StatementFixExample()
    ensures ApplyFix("x || 'foo';", ReplaceText(Range(2, 4), NullishOperator)) == "x ?? 'foo';"
  {
    assert "x || 'foo';"[..2] == "x ";
    assert "x || 'foo';"[4..] == " 'foo';";
  }
}
