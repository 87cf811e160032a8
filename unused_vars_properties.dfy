/**
 * What the `no-unused-vars` rule promises, proved of the functions in
 * `UnusedVars`: the diagnostic filter, the fail-fast classifier, the
 * variables ignore pattern, the unused-parameter tracking and the deferred
 * sweep.
 */
module UnusedVarsProperties {
  import opened Wrappers
  import opened UnusedVars

  // ---------------------------------------------------------------------
  // The diagnostic filter
  // ---------------------------------------------------------------------

  /** The diagnostics that pass the filter, in their original order. */
  function Relevant(ds: seq<Diagnostic>): (r: seq<Diagnostic>)
    ensures forall d :: d in r ==> IsRelevant(d)
    decreases |ds|
  {
    if ds == [] then []
    else Relevant(ds[..|ds| - 1]) + (if IsRelevant(ds[|ds| - 1]) then [ds[|ds| - 1]] else [])
  }

  /** A diagnostic with another code, or without a start, changes neither the
      reports nor the parameter state: the first pass over all diagnostics is
      the first pass over the filtered ones. */
  lemma {:induction false} IrrelevantDiagnosticsChangeNothing(cfg: Config, s: State, ds: seq<Diagnostic>)
    ensures Pass(cfg, s, ds) == Pass(cfg, s, Relevant(ds))
    ensures Relevant(ds) == [] ==> Pass(cfg, s, ds) == Ok(s)
    decreases |ds|
  {
    if ds != [] {
      var init, d := ds[..|ds| - 1], ds[|ds| - 1];
      IrrelevantDiagnosticsChangeNothing(cfg, s, init);
      if IsRelevant(d) {
        var r := Relevant(init) + [d];
        assert Relevant(ds) == r;
        assert r[..|r| - 1] == Relevant(init);
      } else {
        assert Relevant(ds) == Relevant(init);
      }
    }
  }

  // ---------------------------------------------------------------------
  // The classifier fails fast
  // ---------------------------------------------------------------------

  /** A diagnostic the rule throws on: a kept diagnostic on an identifier whose
      parent kind the classifier does not know. */
  predicate Throws(d: Diagnostic)
  {
    IsRelevant(d) && d.start.value.token.IdentifierToken? && Classify(d.start.value.parent).Unknown?
  }

  /** The first pass aborts exactly when some diagnostic throws, and then with
      the error of the first one that does. */
  lemma {:induction false} PassThrowsIff(cfg: Config, s: State, ds: seq<Diagnostic>)
    ensures Pass(cfg, s, ds).Err? <==> exists i :: 0 <= i < |ds| && Throws(ds[i])
    ensures Pass(cfg, s, ds).Err? ==>
              exists i :: 0 <= i < |ds| && Throws(ds[i])
                          && Pass(cfg, s, ds).error == UnknownNodeKind(ds[i].start.value.parent)
                          && forall j :: 0 <= j < i ==> !Throws(ds[j])
    decreases |ds|
  {
    if ds != [] {
      var init, d := ds[..|ds| - 1], ds[|ds| - 1];
      PassThrowsIff(cfg, s, init);
      assert forall i :: 0 <= i < |init| ==> ds[i] == init[i];
      match Pass(cfg, s, init)
      case Err(e) =>
        var i :| 0 <= i < |init| && Throws(init[i]) && e == UnknownNodeKind(init[i].start.value.parent)
                  && forall j :: 0 <= j < i ==> !Throws(init[j]);
        assert Throws(ds[i]);
      case Ok(s') =>
        assert forall i :: 0 <= i < |init| ==> !Throws(ds[i]);
        if Throws(d) {
          assert Throws(ds[|ds| - 1]);
        } else {
          assert forall i :: 0 <= i < |ds| ==> !Throws(ds[i]);
        }
    }
  }

  /** A file's analysis fails exactly when one of its diagnostics throws; no
      report survives a failure. */
  lemma AnalyzeThrowsIff(cfg: Config, ds: seq<Diagnostic>)
    ensures Analyze(cfg, ds).Err? <==> exists i :: 0 <= i < |ds| && Throws(ds[i])
  {
    PassThrowsIff(cfg, Initial, ds);
  }

  // ---------------------------------------------------------------------
  // Labels and message ids of the reports
  // ---------------------------------------------------------------------

  /** A report's label comes from the classifier table or is `Parameter`, and
      a parameter is never reported with the ignore pattern. */
  predicate WellLabelled(f: Finding)
  {
    match f
    case Unused(_, typeLabel) => typeLabel in ClassifierLabels || typeLabel == ParameterLabel
    case UnusedWithIgnorePattern(_, typeLabel, _) => typeLabel in ClassifierLabels
    case UnusedImport(_) => true
  }

  predicate AllWellLabelled(fs: seq<Finding>)
  {
    forall f :: f in fs ==> WellLabelled(f)
  }

  /** The identifiers of the simple elements of a pattern, in order. */
  function SimpleElementNames(elements: seq<PatternElement>): seq<Identifier>
    decreases |elements|
  {
    if elements == [] then []
    else
      var last := elements[|elements| - 1];
      SimpleElementNames(elements[..|elements| - 1]) + (if IsSimpleElement(last) then [last.name.ident] else [])
  }

  /** A wholly unused pattern reports only its simple elements, each as a
      destructured variable; nested patterns and holes report nothing; with
      no ignore pattern every simple element is reported once, in order. */
  lemma {:induction false} DestructureFindingsShape(ignored: Option<Regex>, elements: seq<PatternElement>)
    ensures forall f :: f in DestructureFindings(ignored, elements) ==>
              !f.UnusedImport? && f.typeLabel == DestructuredVariableLabel && f.ident in SimpleElementNames(elements)
    ensures forall f :: f in DestructureFindings(ignored, elements) ==> ignored.Some? || f.Unused?
    ensures ignored.None? ==>
              var r, names := DestructureFindings(ignored, elements), SimpleElementNames(elements);
              |r| == |names| && forall k :: 0 <= k < |r| ==> r[k] == Unused(names[k], DestructuredVariableLabel)
    ensures forall x :: x in SimpleElementNames(elements) ==>
              exists k :: 0 <= k < |elements| && IsSimpleElement(elements[k]) && elements[k].name.ident == x
    decreases |elements|
  {
    if elements != [] {
      var init := elements[..|elements| - 1];
      DestructureFindingsShape(ignored, init);
      assert forall k :: 0 <= k < |init| ==> elements[k] == init[k];
    }
  }

  lemma StepKeepsLabels(cfg: Config, s: State, d: Diagnostic)
    requires AllWellLabelled(s.reports)
    ensures Step(cfg, s, d).Ok? ==> AllWellLabelled(Step(cfg, s, d).value.reports)
  {
    if IsRelevant(d) && d.start.value.token.OtherToken? {
      var parent := d.start.value.parent;
      if !parent.ImportDeclaration? && (parent.ObjectBindingPattern? || parent.ArrayBindingPattern?) {
        DestructureFindingsShape(cfg.ignoredNames, parent.elements);
      }
    }
  }

  lemma {:induction false} PassKeepsLabels(cfg: Config, s: State, ds: seq<Diagnostic>)
    requires AllWellLabelled(s.reports)
    ensures Pass(cfg, s, ds).Ok? ==> AllWellLabelled(Pass(cfg, s, ds).value.reports)
    decreases |ds|
  {
    if ds != [] {
      var init := ds[..|ds| - 1];
      PassKeepsLabels(cfg, s, init);
      if Pass(cfg, s, init).Ok? {
        StepKeepsLabels(cfg, Pass(cfg, s, init).value, ds[|ds| - 1]);
      }
    }
  }

  /** Every report of a file carries a label from the classifier table or
      `Parameter`, and no parameter is reported with the ignore pattern. */
  lemma AnalyzeFindingsWellLabelled(cfg: Config, ds: seq<Diagnostic>)
    ensures Analyze(cfg, ds).Ok? ==> AllWellLabelled(Analyze(cfg, ds).value)
  {
    PassKeepsLabels(cfg, Initial, ds);
    if Pass(cfg, Initial, ds).Ok? {
      var p := Pass(cfg, Initial, ds).value;
      SweepReportsExactly(p.unusedParameters, p.deferred);
    }
  }

  // ---------------------------------------------------------------------
  // The variables ignore pattern
  // ---------------------------------------------------------------------

  /** The default pattern's verdict on one binding. */
  lemma DefaultReportBinding(compile: RegexEngine, ident: Identifier, typeLabel: string)
    requires ReadsDefaultPattern(compile)
    ensures ReportBinding(ResolveOptions(DefaultOptions, compile).ignoredNames, ident, typeLabel) ==
              if |ident.text| > 0 && ident.text[0] == '_' then []
              else [UnusedWithIgnorePattern(ident, typeLabel, "/^_/")]
  {
    var regex := Regex(DefaultIgnoredRegexString, compile(DefaultIgnoredRegexString));
    assert ResolveOptions(DefaultOptions, compile).ignoredNames == Some(regex);
    assert RegexToString(regex) == "/^_/";
    assert regex.test(ident.text) == (|ident.text| > 0 && ident.text[0] == '_');
  }

  /** With the default options, an unused non-parameter binding is silent
      when its name starts with an underscore and is otherwise reported with
      the pattern `/^_/`. */
  lemma DefaultPatternSuppressesUnderscore(compile: RegexEngine, s: State, ident: Identifier, parent: Node)
    requires ReadsDefaultPattern(compile)
    requires Classify(parent).Labelled?
    ensures HandleIdentifier(ResolveOptions(DefaultOptions, compile), s, ident, parent) ==
              if |ident.text| > 0 && ident.text[0] == '_' then Ok(s)
              else Ok(s.(reports := s.reports + [UnusedWithIgnorePattern(ident, Classify(parent).typeLabel, "/^_/")]))
  {
    var cfg := ResolveOptions(DefaultOptions, compile);
    var r := ReportBinding(cfg.ignoredNames, ident, Classify(parent).typeLabel);
    DefaultReportBinding(compile, ident, Classify(parent).typeLabel);
    assert HandleIdentifier(cfg, s, ident, parent) == Ok(s.(reports := s.reports + r));
    if r == [] {
      assert s.(reports := s.reports + r) == s;
    }
  }

  /** A labelled binding is reported, or not, by the ignore pattern alone:
      two configurations with the same pattern handle it alike, and handling
      it never throws, never touches the parameter state and adds at most one
      report. */
  lemma LabelledBindingReport(cfg1: Config, cfg2: Config, s: State, ident: Identifier, parent: Node)
    requires Classify(parent).Labelled?
    requires cfg1.ignoredNames == cfg2.ignoredNames
    ensures HandleIdentifier(cfg1, s, ident, parent) == HandleIdentifier(cfg2, s, ident, parent)
    ensures var r := HandleIdentifier(cfg1, s, ident, parent);
            && r.Ok?
            && r.value.unusedParameters == s.unusedParameters
            && r.value.deferred == s.deferred
            && s.reports <= r.value.reports
            && |r.value.reports| <= |s.reports| + 1
  {
  }

  /** With a variables option that is not a string, every unused
      non-parameter binding is reported with the plain `unused` message. */
  lemma NoPatternReportsEveryBinding(user: UserOptions, compile: RegexEngine, s: State, ident: Identifier, parent: Node)
    requires user.variables.None? || !user.variables.value.ignoredNamesRegex.Source?
    requires Classify(parent).Labelled?
    ensures HandleIdentifier(ResolveOptions(user, compile), s, ident, parent) ==
              Ok(s.(reports := s.reports + [Unused(ident, Classify(parent).typeLabel)]))
  {
  }

  /** Whether an unused parameter is reported never depends on the variables
      ignore pattern. */
  lemma ParameterIgnoresPattern(cfg: Config, s: State, ident: Identifier, parameters: seq<ParameterNode>, position: nat)
    ensures HandleIdentifier(cfg, s, ident, Parameter(parameters, position)) ==
              HandleIdentifier(cfg.(ignoredNames := None), s, ident, Parameter(parameters, position))
  {
  }

  // ---------------------------------------------------------------------
  // Unused-parameter tracking and the deferred sweep
  // ---------------------------------------------------------------------

  /** Whether a diagnostic is a kept one on an unused parameter identifier. */
  predicate IsParameterDiagnostic(d: Diagnostic)
  {
    IsRelevant(d) && d.start.value.token.IdentifierToken? && d.start.value.parent.Parameter?
  }

  /** After the first pass every parameter that a kept diagnostic names is in
      the unused-parameter set, whatever was reported for it. */
  lemma {:induction false} PassTracksEveryParameter(cfg: Config, s: State, ds: seq<Diagnostic>)
    ensures Pass(cfg, s, ds).Ok? ==>
              forall i :: 0 <= i < |ds| && IsParameterDiagnostic(ds[i]) ==>
                ds[i].start.value.token.ident in Pass(cfg, s, ds).value.unusedParameters
    decreases |ds|
  {
    if ds != [] {
      var init := ds[..|ds| - 1];
      PassTracksEveryParameter(cfg, s, init);
      if Pass(cfg, s, ds).Ok? {
        var s' := Pass(cfg, s, init).value;
        var p := Pass(cfg, s, ds).value;
        forall i | 0 <= i < |ds| && IsParameterDiagnostic(ds[i])
          ensures ds[i].start.value.token.ident in p.unusedParameters
        {
          if i < |init| {
            assert ds[i] == init[i];
          }
        }
      }
    }
  }

  /** With `ignoreIfArgsAfterAreUsed` off, nothing is ever deferred. */
  lemma {:induction false} NothingDeferredWhenOptionOff(cfg: Config, s: State, ds: seq<Diagnostic>)
    requires !cfg.ignoreIfArgsAfterAreUsed
    ensures Pass(cfg, s, ds).Ok? ==> Pass(cfg, s, ds).value.deferred == s.deferred
    decreases |ds|
  {
    if ds != [] {
      NothingDeferredWhenOptionOff(cfg, s, ds[..|ds| - 1]);
    }
  }

  /** The sweep reports, as a `Parameter` with `unused`, exactly the deferred
      parameters whose whole parameter list was tracked, each at most once. */
  lemma {:induction false} SweepReportsExactly(unused: set<Identifier>, checks: seq<DeferredCheck>)
    ensures forall f :: f in Sweep(unused, checks) <==>
              exists c :: c in checks && AllParametersUnused(c.parameters, unused) && f == Unused(c.ident, ParameterLabel)
    ensures |Sweep(unused, checks)| <= |checks|
    decreases |checks|
  {
    if checks != [] {
      var init := checks[..|checks| - 1];
      SweepReportsExactly(unused, init);
      assert checks == init + [checks[|checks| - 1]];
    }
  }

  lemma SplitLast(first: seq<DeferredCheck>, later: seq<DeferredCheck>)
    requires later != []
    ensures later == later[..|later| - 1] + [later[|later| - 1]]
    ensures first + later == (first + later[..|later| - 1]) + [later[|later| - 1]]
  {
    assert later == later[..|later| - 1] + [later[|later| - 1]];
  }

  lemma AppendAssoc(a: seq<Finding>, b: seq<Finding>, c: seq<Finding>)
    ensures (a + b) + c == a + (b + c)
  {
  }

  lemma SweepSnoc(unused: set<Identifier>, checks: seq<DeferredCheck>, c: DeferredCheck)
    ensures Sweep(unused, checks + [c]) == Sweep(unused, checks) + DeferredFindings(unused, c)
  {
    assert (checks + [c])[..|checks|] == checks;
  }

  /** The sweep runs the checks in registration order. */
  lemma {:induction false} SweepInRegistrationOrder(unused: set<Identifier>, first: seq<DeferredCheck>, later: seq<DeferredCheck>)
    ensures Sweep(unused, first + later) == Sweep(unused, first) + Sweep(unused, later)
    decreases |later|
  {
    if later == [] {
      assert first + later == first;
    } else {
      var init, last := later[..|later| - 1], later[|later| - 1];
      var tail := DeferredFindings(unused, last);
      SweepInRegistrationOrder(unused, first, init);
      SplitLast(first, later);
      SweepSnoc(unused, first + init, last);
      SweepSnoc(unused, init, last);
      AppendAssoc(Sweep(unused, first), Sweep(unused, init), tail);
    }
  }

  /** `Program:exit` makes every immediate report before any deferred one:
      its reports are the earlier ones extended by the first pass, then the
      sweep's, and every report after the first pass's is a queued parameter. */
  lemma ImmediateReportsPrecedeDeferred(cfg: Config, s: State, ds: seq<Diagnostic>)
    requires ProgramExit(cfg, s, ds).Ok?
    ensures var p := Pass(cfg, s, ds).value;
            var fin := ProgramExit(cfg, s, ds).value.reports;
            && s.reports <= p.reports
            && fin == p.reports + Sweep(p.unusedParameters, p.deferred)
            && forall k :: |p.reports| <= k < |fin| ==>
                 exists c :: c in p.deferred && fin[k] == Unused(c.ident, ParameterLabel)
  {
    var p := Pass(cfg, s, ds).value;
    var fin := ProgramExit(cfg, s, ds).value.reports;
    var swept := Sweep(p.unusedParameters, p.deferred);
    forall k | |p.reports| <= k < |fin|
      ensures exists c :: c in p.deferred && fin[k] == Unused(c.ident, ParameterLabel)
    {
      assert fin[k] == swept[k - |p.reports|];
      assert fin[k] in swept;
    }
  }

  /** Tracking a parameter twice is tracking it once. */
  lemma TrackingIsIdempotent(cfg: Config, s: State, ident: Identifier, parameters: seq<ParameterNode>, position: nat)
    ensures var once := HandleParameter(cfg, s, ident, parameters, position);
            HandleParameter(cfg, once, ident, parameters, position).unusedParameters == once.unusedParameters
  {
  }

  // ---------------------------------------------------------------------
  // Scenarios
  // ---------------------------------------------------------------------

  /** A kept diagnostic on the parameter at `position` of `parameters`. */
  function ParameterDiagnostic(x: Identifier, parameters: seq<ParameterNode>, position: nat): Diagnostic
  {
    Diagnostic(6133, Some(Location(IdentifierToken(x), Parameter(parameters, position))))
  }

  function TrailingArgsOptions(compile: RegexEngine): Config
  {
    ResolveOptions(UserOptions(Some(VariablesOptions(Source(DefaultIgnoredRegexString))),
                               ArgumentsOptions(Some(true))), compile)
  }

  lemma PassOfOne(cfg: Config, s: State, d: Diagnostic)
    ensures Pass(cfg, s, [d]) == Step(cfg, s, d)
  {
    assert [d][..0] == [];
  }

  lemma PassOfTwo(cfg: Config, s: State, d1: Diagnostic, d2: Diagnostic)
    requires Step(cfg, s, d1).Ok?
    ensures Pass(cfg, s, [d1, d2]) == Step(cfg, Step(cfg, s, d1).value, d2)
  {
    assert [d1, d2][..1] == [d1];
    PassOfOne(cfg, s, d1);
  }

  lemma ParameterStep(cfg: Config, s: State, x: Identifier, parameters: seq<ParameterNode>, position: nat)
    ensures Step(cfg, s, ParameterDiagnostic(x, parameters, position)) ==
              Ok(if !IsLastParameter(parameters, position) && cfg.ignoreIfArgsAfterAreUsed
                 then State(s.unusedParameters + {x}, s.deferred + [DeferredCheck(x, parameters)], s.reports)
                 else State(s.unusedParameters + {x}, s.deferred, s.reports + [Unused(x, ParameterLabel)]))
  {
    assert IsRelevant(ParameterDiagnostic(x, parameters, position));
  }

  lemma AnalyzeOfPass(cfg: Config, ds: seq<Diagnostic>, p: State)
    requires Pass(cfg, Initial, ds) == Ok(p)
    ensures Analyze(cfg, ds) == Ok(p.reports + Sweep(p.unusedParameters, p.deferred))
  {
  }

  lemma SweepOfOne(unused: set<Identifier>, c: DeferredCheck)
    ensures Sweep(unused, [c]) == DeferredFindings(unused, c)
  {
    assert [c][..0] == [];
  }

  /** One diagnostic on a parameter that is not last, with the option on:
      the parameter is tracked and its check queued. */
  lemma DeferOne(cfg: Config, x: Identifier, ps: seq<ParameterNode>, i: nat)
    requires cfg.ignoreIfArgsAfterAreUsed && !IsLastParameter(ps, i)
    ensures Pass(cfg, Initial, [ParameterDiagnostic(x, ps, i)]) == Ok(State({x}, [DeferredCheck(x, ps)], []))
  {
    ParameterStep(cfg, Initial, x, ps, i);
    assert {} + {x} == {x} && Initial.deferred + [DeferredCheck(x, ps)] == [DeferredCheck(x, ps)];
    PassOfOne(cfg, Initial, ParameterDiagnostic(x, ps, i));
  }

  /** A parameter that is not last, then the last one, with the option on:
      the first is queued and the last reported at once. */
  lemma DeferThenReport(cfg: Config, x: Identifier, y: Identifier, ps: seq<ParameterNode>, i: nat, j: nat)
    requires cfg.ignoreIfArgsAfterAreUsed && !IsLastParameter(ps, i) && IsLastParameter(ps, j)
    ensures Pass(cfg, Initial, [ParameterDiagnostic(x, ps, i), ParameterDiagnostic(y, ps, j)])
              == Ok(State({x, y}, [DeferredCheck(x, ps)], [Unused(y, ParameterLabel)]))
  {
    var dx, dy := ParameterDiagnostic(x, ps, i), ParameterDiagnostic(y, ps, j);
    var s1 := State({x}, [DeferredCheck(x, ps)], []);
    ParameterStep(cfg, Initial, x, ps, i);
    assert {} + {x} == {x} && Initial.deferred + [DeferredCheck(x, ps)] == [DeferredCheck(x, ps)];
    assert Step(cfg, Initial, dx) == Ok(s1);
    ParameterStep(cfg, s1, y, ps, j);
    assert {x} + {y} == {x, y} && s1.reports + [Unused(y, ParameterLabel)] == [Unused(y, ParameterLabel)];
    PassOfTwo(cfg, Initial, dx, dy);
  }

  /** `function foo(a, b) { console.log(b); }` with `ignoreIfArgsAfterAreUsed`:
      `a` is deferred and silenced because `b` is used. */
  lemma LaterUsedParameterSilencesEarlier(compile: RegexEngine)
    ensures var a, b := Identifier(1, "a"), Identifier(2, "b");
            var ps := [ParameterNode(Ident(a)), ParameterNode(Ident(b))];
            Analyze(TrailingArgsOptions(compile), [ParameterDiagnostic(a, ps, 0)]) == Ok([])
  {
    var a, b := Identifier(1, "a"), Identifier(2, "b");
    var ps := [ParameterNode(Ident(a)), ParameterNode(Ident(b))];
    var cfg := TrailingArgsOptions(compile);
    var check := DeferredCheck(a, ps);
    DeferOne(cfg, a, ps, 0);
    assert ps[1].name.ident !in {a};
    SweepOfOne({a}, check);
    AnalyzeOfPass(cfg, [ParameterDiagnostic(a, ps, 0)], State({a}, [check], []));
  }

  /** `function foo(a, b) {}` with `ignoreIfArgsAfterAreUsed`: `b`, the last,
      is reported at once and `a` by the sweep. */
  lemma AllUnusedParametersReported(compile: RegexEngine)
    ensures var a, b := Identifier(1, "a"), Identifier(2, "b");
            var ps := [ParameterNode(Ident(a)), ParameterNode(Ident(b))];
            Analyze(TrailingArgsOptions(compile), [ParameterDiagnostic(a, ps, 0), ParameterDiagnostic(b, ps, 1)])
              == Ok([Unused(b, ParameterLabel), Unused(a, ParameterLabel)])
  {
    var a, b := Identifier(1, "a"), Identifier(2, "b");
    var ps := [ParameterNode(Ident(a)), ParameterNode(Ident(b))];
    var cfg := TrailingArgsOptions(compile);
    var check := DeferredCheck(a, ps);
    DeferThenReport(cfg, a, b, ps, 0, 1);
    assert AllParametersUnused(ps, {a, b});
    SweepOfOne({a, b}, check);
    AnalyzeOfPass(cfg, [ParameterDiagnostic(a, ps, 0), ParameterDiagnostic(b, ps, 1)],
                  State({a, b}, [check], [Unused(b, ParameterLabel)]));
    assert [Unused(b, ParameterLabel)] + [Unused(a, ParameterLabel)] == [Unused(b, ParameterLabel), Unused(a, ParameterLabel)];
  }

  /** `function foo(a, b, c) { console.log(a); }` with
      `ignoreIfArgsAfterAreUsed`: the deferred check on `b` also looks at the
      earlier `a`, so `b` is silent although no parameter after it is used. */
  lemma EarlierUsedParameterSilencesLater(compile: RegexEngine)
    ensures var a, b, c := Identifier(1, "a"), Identifier(2, "b"), Identifier(3, "c");
            var ps := [ParameterNode(Ident(a)), ParameterNode(Ident(b)), ParameterNode(Ident(c))];
            Analyze(TrailingArgsOptions(compile), [ParameterDiagnostic(b, ps, 1), ParameterDiagnostic(c, ps, 2)])
              == Ok([Unused(c, ParameterLabel)])
  {
    var a, b, c := Identifier(1, "a"), Identifier(2, "b"), Identifier(3, "c");
    var ps := [ParameterNode(Ident(a)), ParameterNode(Ident(b)), ParameterNode(Ident(c))];
    var cfg := TrailingArgsOptions(compile);
    var check := DeferredCheck(b, ps);
    DeferThenReport(cfg, b, c, ps, 1, 2);
    assert ps[0].name.ident !in {b, c};
    SweepOfOne({b, c}, check);
    AnalyzeOfPass(cfg, [ParameterDiagnostic(b, ps, 1), ParameterDiagnostic(c, ps, 2)],
                  State({b, c}, [check], [Unused(c, ParameterLabel)]));
    assert [Unused(c, ParameterLabel)] + [] == [Unused(c, ParameterLabel)];
  }

  /** A destructured parameter in a list silences every queued check on that
      list: a sweep over such checks reports nothing. */
  lemma {:induction false} NestedPatternSilencesDeferred(unused: set<Identifier>, checks: seq<DeferredCheck>)
    requires forall c :: c in checks ==>
               exists k :: 0 <= k < |c.parameters| && c.parameters[k].name.NestedPattern?
    ensures Sweep(unused, checks) == []
    decreases |checks|
  {
    if checks != [] {
      var init, last := checks[..|checks| - 1], checks[|checks| - 1];
      assert forall c :: c in init ==> c in checks;
      NestedPatternSilencesDeferred(unused, init);
      assert last in checks;
      assert !AllParametersUnused(last.parameters, unused);
    }
  }

  /** `foo(a, {b})` with `ignoreIfArgsAfterAreUsed` and `a` unused: the check
      queued for `a` reports nothing. */
  lemma NestedParameterExample(compile: RegexEngine)
    ensures var a := Identifier(1, "a");
            var ps := [ParameterNode(Ident(a)), ParameterNode(NestedPattern)];
            Analyze(TrailingArgsOptions(compile), [ParameterDiagnostic(a, ps, 0)]) == Ok([])
  {
    var a := Identifier(1, "a");
    var ps := [ParameterNode(Ident(a)), ParameterNode(NestedPattern)];
    var cfg := TrailingArgsOptions(compile);
    var check := DeferredCheck(a, ps);
    DeferOne(cfg, a, ps, 0);
    assert !ps[1].name.Ident?;
    SweepOfOne({a}, check);
    AnalyzeOfPass(cfg, [ParameterDiagnostic(a, ps, 0)], State({a}, [check], []));
  }
}
