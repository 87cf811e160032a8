/**
 * The per-file object that `create` of the `no-unused-vars` rule builds:
 * the resolved options, the unused-parameter set, the callbacks deferred
 * until every diagnostic has been seen, and the reports made so far. Each
 * method is proved to change the state exactly as the function of the same
 * role in `UnusedVars` says.
 */
module UnusedVarsRule {
  import opened Wrappers
  import opened UnusedVars

  class RuleContext {
    const config: Config
    var unusedParameters: set<Identifier>
    var afterAllDiagnosticsCallbacks: seq<DeferredCheck>
    var reports: seq<Finding>

    /** The abstract per-file state. */
    function Snapshot(): State
      reads this
    {
      State(unusedParameters, afterAllDiagnosticsCallbacks, reports)
    }

    constructor (userOptions: UserOptions, compile: RegexEngine)
      ensures config == ResolveOptions(userOptions, compile)
      ensures Snapshot() == Initial
    {
      config := ResolveOptions(userOptions, compile);
      unusedParameters := {};
      afterAllDiagnosticsCallbacks := [];
      reports := [];
    }

    /** The `report(type)` closure of `handleIdentifier`. */
    method ReportIdentifier(ident: Identifier, typeLabel: string)
      modifies this`reports
      ensures reports == old(reports) + ReportBinding(config.ignoredNames, ident, typeLabel)
    {
      var regex := config.ignoredNames;
      if regex.Some? {
        if !regex.value.test(ident.text) {
          reports := reports + [UnusedWithIgnorePattern(ident, typeLabel, RegexToString(regex.value))];
        }
      } else {
        reports := reports + [Unused(ident, typeLabel)];
      }
    }

    method HandleIdentifier(ident: Identifier, parent: Node) returns (r: Result<(), Error>)
      modifies this
      ensures var spec := UnusedVars.HandleIdentifier(config, old(Snapshot()), ident, parent);
              && (spec.Ok? ==> r.Ok? && Snapshot() == spec.value)
              && (spec.Err? ==> r == Err(spec.error) && Snapshot() == old(Snapshot()))
    {
      r := Ok(());
      match parent
      case BindingElement => ReportIdentifier(ident, DestructuredVariableLabel);
      case ObjectBindingPattern(_) => ReportIdentifier(ident, DestructuredVariableLabel);
      case ClassDeclaration => ReportIdentifier(ident, "Class");
      case EnumDeclaration => ReportIdentifier(ident, "Enum");
      case FunctionDeclaration => ReportIdentifier(ident, "Function");
      case ImportEqualsDeclaration => ReportIdentifier(ident, "Import");
      case ImportClause => ReportIdentifier(ident, "Import");
      case ImportSpecifier => ReportIdentifier(ident, "Import");
      case NamespaceImport => ReportIdentifier(ident, "Import");
      case InterfaceDeclaration => ReportIdentifier(ident, "Interface");
      case MethodDeclaration => ReportIdentifier(ident, "Method");
      case Parameter(parameters, position) => HandleParameterDeclaration(ident, parameters, position);
      case PropertyDeclaration => ReportIdentifier(ident, "Property");
      case TypeAliasDeclaration => ReportIdentifier(ident, "Type");
      case VariableDeclaration => ReportIdentifier(ident, "Variable");
      case _ => r := Err(UnknownNodeKind(parent));
    }

    method HandleParameterDeclaration(ident: Identifier, parameters: seq<ParameterNode>, position: nat)
      modifies this
      ensures Snapshot() == HandleParameter(config, old(Snapshot()), ident, parameters, position)
    {
      unusedParameters := unusedParameters + {ident};
      var isLastParameter := position == |parameters| - 1;
      if !isLastParameter && config.ignoreIfArgsAfterAreUsed {
        afterAllDiagnosticsCallbacks := afterAllDiagnosticsCallbacks + [DeferredCheck(ident, parameters)];
      } else {
        reports := reports + [Unused(ident, ParameterLabel)];
      }
    }

    method HandleImportDeclaration(declaration: nat)
      modifies this`reports
      ensures reports == old(reports) + [UnusedImport(declaration)]
    {
      reports := reports + [UnusedImport(declaration)];
    }

    /** Each simple element of a wholly unused pattern goes through `HandleIdentifier`
        with the binding element as its parent. */
    method HandleDestructure(elements: seq<PatternElement>)
      modifies this
      ensures Snapshot() == Destructure(config, old(Snapshot()), elements)
    {
      var i := 0;
      while i < |elements|
        invariant 0 <= i <= |elements|
        invariant Snapshot() == Destructure(config, old(Snapshot()), elements[..i])
      {
        var element := elements[i];
        assert elements[..i + 1][..i] == elements[..i];
        if element.BindingElementOf? && element.name.Ident? {
          var _ := HandleIdentifier(element.name.ident, BindingElement);
        }
        i := i + 1;
      }
      assert elements[..i] == elements;
    }

    /** One turn of the `Program:exit` loop. */
    method OnDiagnostic(d: Diagnostic) returns (r: Result<(), Error>)
      modifies this
      ensures var spec := Step(config, old(Snapshot()), d);
              && (spec.Ok? ==> r.Ok? && Snapshot() == spec.value)
              && (spec.Err? ==> r == Err(spec.error))
    {
      r := Ok(());
      if IsUnusedDiagnostic(d.code) {
        if d.start.Some? {
          var node, parent := d.start.value.token, d.start.value.parent;
          if node.IdentifierToken? {
            r := HandleIdentifier(node.ident, parent);
          } else if parent.ImportDeclaration? {
            HandleImportDeclaration(parent.declaration);
          } else if parent.ObjectBindingPattern? || parent.ArrayBindingPattern? {
            HandleDestructure(parent.elements);
          }
        }
      }
    }

    /** The deferred check: every parameter of the list, in order, must have
        a plain identifier name that was tracked as unused. */
    method DeferredCheckPasses(check: DeferredCheck) returns (pass: bool)
      ensures pass == AllParametersUnused(check.parameters, unusedParameters)
    {
      var parameters := check.parameters;
      var k := 0;
      while k < |parameters|
        invariant 0 <= k <= |parameters|
        invariant AllParametersUnused(parameters[..k], unusedParameters)
      {
        var param := parameters[k];
        if param.name.NestedPattern? {
          return false;
        }
        if param.name.ident !in unusedParameters {
          return false;
        }
        assert parameters[..k + 1] == parameters[..k] + [param];
        k := k + 1;
      }
      assert parameters[..k] == parameters;
      return true;
    }

    /** Runs one deferred callback. */
    method RunDeferredCheck(check: DeferredCheck)
      modifies this`reports
      ensures reports == old(reports) + DeferredFindings(unusedParameters, check)
    {
      var pass := DeferredCheckPasses(check);
      if pass {
        reports := reports + [Unused(check.ident, ParameterLabel)];
      }
    }

    /** The `forEach` over the diagnostics. A throw ends the loop. */
    method FirstPass(diagnostics: seq<Diagnostic>) returns (r: Result<(), Error>)
      modifies this
      ensures var spec := Pass(config, old(Snapshot()), diagnostics);
              && (spec.Ok? ==> r.Ok? && Snapshot() == spec.value)
              && (spec.Err? ==> r == Err(spec.error))
    {
      r := Ok(());
      var i := 0;
      while i < |diagnostics|
        invariant 0 <= i <= |diagnostics|
        invariant Pass(config, old(Snapshot()), diagnostics[..i]) == Ok(Snapshot())
        invariant r.Ok?
      {
        assert diagnostics[..i + 1][..i] == diagnostics[..i];
        r := OnDiagnostic(diagnostics[i]);
        if r.Err? {
          PassStaysFailed(config, old(Snapshot()), diagnostics, i + 1);
          return;
        }
        i := i + 1;
      }
      assert diagnostics[..i] == diagnostics;
    }

    /** The `forEach` over the deferred callbacks, in registration order. */
    method RunDeferredChecks()
      modifies this`reports
      ensures reports == old(reports) + Sweep(unusedParameters, afterAllDiagnosticsCallbacks)
    {
      var callbacks := afterAllDiagnosticsCallbacks;
      var j := 0;
      while j < |callbacks|
        invariant 0 <= j <= |callbacks|
        invariant reports == old(reports) + Sweep(unusedParameters, callbacks[..j])
      {
        assert callbacks[..j + 1][..j] == callbacks[..j];
        RunDeferredCheck(callbacks[j]);
        j := j + 1;
      }
      assert callbacks[..j] == callbacks;
    }

    /** `Program:exit`: every diagnostic in order, then every deferred check
        in registration order. A throw ends the file. */
    method ProgramExit(diagnostics: seq<Diagnostic>) returns (r: Result<(), Error>)
      modifies this
      ensures var spec := UnusedVars.ProgramExit(config, old(Snapshot()), diagnostics);
              && (spec.Ok? ==> r.Ok? && Snapshot() == spec.value)
              && (spec.Err? ==> r == Err(spec.error))
    {
      r := FirstPass(diagnostics);
      if r.Err? {
        return;
      }
      RunDeferredChecks();
    }
  }

  /** Once the first pass has thrown on a prefix, it throws the same error on
      every longer prefix. */
  lemma {:induction false} PassStaysFailed(cfg: Config, s: State, ds: seq<Diagnostic>, n: nat)
    requires n <= |ds|
    requires Pass(cfg, s, ds[..n]).Err?
    ensures Pass(cfg, s, ds) == Pass(cfg, s, ds[..n])
    decreases |ds| - n
  {
    if n < |ds| {
      assert ds[..n + 1][..n] == ds[..n];
      PassStaysFailed(cfg, s, ds, n + 1);
    } else {
      assert ds[..n] == ds;
    }
  }
}
