/**
 * The `no-unused-vars` rule of the ESLint plugin, as pure functions.
 *
 * The rule asks the TypeScript checker for the semantic diagnostics of one
 * file, keeps the ones that mean "declared but never used", and turns each
 * into a lint report. Unused parameters go through a two-pass policy: every
 * one is tracked in a per-file set, and a non-last one is, when
 * `ignoreIfArgsAfterAreUsed` is on, decided only after every diagnostic has
 * been seen.
 *
 * The checker, the token locator and the regular-expression engine are not
 * part of this model: a diagnostic arrives already resolved to its token and
 * the token's parent node, and a compiled regular expression is a predicate
 * on names.
 */
module UnusedVars {
  import opened Wrappers

  // ---------------------------------------------------------------------
  // Diagnostics and the syntax they point at
  // ---------------------------------------------------------------------

  /** The checker's codes for an unused binding, an unused import group, an
      unused destructuring, an unused variable group and unused type parameters. */
  const UnusedDiagnosticCodes: seq<int> := [6133, 6138, 6192, 6196, 6198, 6199, 6205]

  predicate IsUnusedDiagnostic(code: int): (b: bool)
    ensures b <==> code in {6133, 6138, 6192, 6196, 6198, 6199, 6205}
  {
    code in UnusedDiagnosticCodes
  }

  /** An identifier node: `id` is its identity in the tree, `text` its source text. */
  datatype Identifier = Identifier(id: nat, text: string)

  /** The `name` of a parameter or binding element: an identifier or a nested pattern. */
  datatype BindingName = Ident(ident: Identifier) | NestedPattern

  /** A parameter declaration of a signature, known by its binding name. */
  datatype ParameterNode = ParameterNode(name: BindingName)

  /** An element of a binding pattern; array patterns may have holes. */
  datatype PatternElement = BindingElementOf(name: BindingName) | OmittedExpression

  /** The parent node of the token a diagnostic points at, by syntax kind.
      `Parameter` carries the parameter list of its signature and its own
      position in that list. Every kind the model does not name is `OtherNode`. */
  datatype Node =
    | BindingElement
    | ObjectBindingPattern(elements: seq<PatternElement>)
    | ArrayBindingPattern(elements: seq<PatternElement>)
    | ClassDeclaration
    | EnumDeclaration
    | FunctionDeclaration
    | ImportEqualsDeclaration
    | ImportClause
    | ImportSpecifier
    | NamespaceImport
    | InterfaceDeclaration
    | MethodDeclaration
    | Parameter(parameters: seq<ParameterNode>, position: nat)
    | PropertyDeclaration
    | TypeAliasDeclaration
    | VariableDeclaration
    | ImportDeclaration(declaration: nat)
    | OtherNode(kind: int)

  /** The token at a diagnostic's start: an identifier, or some other token. */
  datatype Token = IdentifierToken(ident: Identifier) | OtherToken

  /** What the token locator answers for a diagnostic's start offset. */
  datatype Location = Location(token: Token, parent: Node)

  /** A semantic diagnostic; `start` is absent when the checker gives no offset. */
  datatype Diagnostic = Diagnostic(code: int, start: Option<Location>)

  // ---------------------------------------------------------------------
  // Options
  // ---------------------------------------------------------------------

  /** `ignoredNamesRegex?: string | boolean` */
  datatype RegexOption = Unset | Source(source: string) | Flag(flag: bool)

  datatype VariablesOptions = VariablesOptions(ignoredNamesRegex: RegexOption)

  datatype ArgumentsOptions = ArgumentsOptions(ignoreIfArgsAfterAreUsed: Option<bool>)

  /** The rule's options object after the host merged in the defaults. */
  datatype UserOptions = UserOptions(variables: Option<VariablesOptions>, arguments: ArgumentsOptions)

  const DefaultIgnoredRegexString: string := "^_"

  const DefaultOptions: UserOptions :=
    UserOptions(Some(VariablesOptions(Source(DefaultIgnoredRegexString))), ArgumentsOptions(Some(false)))

  /** A compiled regular expression: its source text and its `test` predicate. */
  datatype Regex = Regex(source: string, test: string -> bool)

  /** The regular-expression engine: compiles a source text to a `test` predicate. */
  type RegexEngine = string -> (string -> bool)

  /** `regex.toString()` of a regular expression compiled without flags. */
  function RegexToString(r: Regex): string
  {
    "/" + r.source + "/"
  }

  /** A regular-expression engine that reads `^_` as "starts with an underscore". */
  ghost predicate ReadsDefaultPattern(compile: RegexEngine)
  {
    forall name: string :: compile(DefaultIgnoredRegexString)(name) == (|name| > 0 && name[0] == '_')
  }

  /** Only a string option yields a pattern; `false`, `true` and an absent option yield none. */
  function GetIgnoredNames(opt: Option<VariablesOptions>, compile: RegexEngine): (r: Option<Regex>)
    ensures r.Some? <==> opt.Some? && opt.value.ignoredNamesRegex.Source?
    ensures r.Some? ==> r.value.source == opt.value.ignoredNamesRegex.source
  {
    if opt.Some? && opt.value.ignoredNamesRegex.Source? then
      var source := opt.value.ignoredNamesRegex.source;
      Some(Regex(source, compile(source)))
    else
      None
  }

  /** The options as the rule uses them. */
  datatype Config = Config(ignoredNames: Option<Regex>, ignoreIfArgsAfterAreUsed: bool)

  function ResolveOptions(user: UserOptions, compile: RegexEngine): (c: Config)
    ensures c.ignoreIfArgsAfterAreUsed <==> user.arguments.ignoreIfArgsAfterAreUsed == Some(true)
  {
    var ignoreIfArgsAfterAreUsed :=
      match user.arguments.ignoreIfArgsAfterAreUsed
      case Some(b) => b || false
      case None => false;
    Config(GetIgnoredNames(user.variables, compile), ignoreIfArgsAfterAreUsed)
  }

  // ---------------------------------------------------------------------
  // Reports
  // ---------------------------------------------------------------------

  /** A report handed to the host, one constructor per message id. */
  datatype Finding =
    | Unused(ident: Identifier, typeLabel: string)
    | UnusedWithIgnorePattern(ident: Identifier, typeLabel: string, pattern: string)
    | UnusedImport(declaration: nat)

  /** Raised for a parent kind the classifier does not know. */
  datatype Error = UnknownNodeKind(parent: Node)

  const DestructuredVariableLabel: string := "Destructured Variable"
  const ParameterLabel: string := "Parameter"

  /** Every label the classifier gives a non-parameter binding. */
  const ClassifierLabels: set<string> :=
    {DestructuredVariableLabel, "Class", "Enum", "Function", "Import", "Interface",
     "Method", "Property", "Type", "Variable"}

  /** What the parent kind of an unused identifier makes of it. */
  datatype Classification =
    | Labelled(typeLabel: string)
    | ParameterOf(parameters: seq<ParameterNode>, position: nat)
    | Unknown

  function Classify(parent: Node): (c: Classification)
    ensures c.Labelled? ==> c.typeLabel in ClassifierLabels
    ensures c.ParameterOf? <==> parent.Parameter?
    ensures c.ParameterOf? ==> c.parameters == parent.parameters && c.position == parent.position
    ensures c.Unknown? <==> parent.ArrayBindingPattern? || parent.ImportDeclaration? || parent.OtherNode?
  {
    match parent
    case BindingElement => Labelled(DestructuredVariableLabel)
    case ObjectBindingPattern(_) => Labelled(DestructuredVariableLabel)
    case ClassDeclaration => Labelled("Class")
    case EnumDeclaration => Labelled("Enum")
    case FunctionDeclaration => Labelled("Function")
    case ImportEqualsDeclaration => Labelled("Import")
    case ImportClause => Labelled("Import")
    case ImportSpecifier => Labelled("Import")
    case NamespaceImport => Labelled("Import")
    case InterfaceDeclaration => Labelled("Interface")
    case MethodDeclaration => Labelled("Method")
    case Parameter(parameters, position) => ParameterOf(parameters, position)
    case PropertyDeclaration => Labelled("Property")
    case TypeAliasDeclaration => Labelled("Type")
    case VariableDeclaration => Labelled("Variable")
    case _ => Unknown
  }

  /** The report for a non-parameter binding, after the variables ignore pattern:
      no pattern gives `unused`, a matching name gives nothing, any other name
      gives `unusedWithIgnorePattern` quoting the pattern. */
  function ReportBinding(ignored: Option<Regex>, ident: Identifier, typeLabel: string): (r: seq<Finding>)
    ensures |r| <= 1
    ensures r == [] <==> ignored.Some? && ignored.value.test(ident.text)
    ensures ignored.None? ==> r == [Unused(ident, typeLabel)]
    ensures ignored.Some? && r != [] ==> r == [UnusedWithIgnorePattern(ident, typeLabel, RegexToString(ignored.value))]
  {
    match ignored
    case Some(regex) =>
      if !regex.test(ident.text) then [UnusedWithIgnorePattern(ident, typeLabel, RegexToString(regex))] else []
    case None => [Unused(ident, typeLabel)]
  }

  // ---------------------------------------------------------------------
  // Per-file state and the handlers
  // ---------------------------------------------------------------------

  /** A parameter whose report waits for the sweep, with its signature's parameters. */
  datatype DeferredCheck = DeferredCheck(ident: Identifier, parameters: seq<ParameterNode>)

  /** The per-file state: the unused-parameter set, the pending checks in
      registration order, and the reports made so far. */
  datatype State = State(unusedParameters: set<Identifier>, deferred: seq<DeferredCheck>, reports: seq<Finding>)

  const Initial: State := State({}, [], [])

  predicate IsLastParameter(parameters: seq<ParameterNode>, position: nat)
  {
    position == |parameters| - 1
  }

  /** An unused parameter: tracked first, then reported at once (`unused`,
      never the ignore pattern) or, when it is not last and
      `ignoreIfArgsAfterAreUsed` is on, left for the sweep. */
  function HandleParameter(cfg: Config, s: State, ident: Identifier, parameters: seq<ParameterNode>, position: nat): (s': State)
    ensures s'.unusedParameters == s.unusedParameters + {ident}
    ensures IsLastParameter(parameters, position) || !cfg.ignoreIfArgsAfterAreUsed ==>
              s'.reports == s.reports + [Unused(ident, ParameterLabel)] && s'.deferred == s.deferred
    ensures !IsLastParameter(parameters, position) && cfg.ignoreIfArgsAfterAreUsed ==>
              s'.reports == s.reports && s'.deferred == s.deferred + [DeferredCheck(ident, parameters)]
  {
    var tracked := s.(unusedParameters := s.unusedParameters + {ident});
    if !IsLastParameter(parameters, position) && cfg.ignoreIfArgsAfterAreUsed then
      tracked.(deferred := s.deferred + [DeferredCheck(ident, parameters)])
    else
      tracked.(reports := s.reports + [Unused(ident, ParameterLabel)])
  }

  /** An unused identifier, dispatched on its parent's kind. */
  function HandleIdentifier(cfg: Config, s: State, ident: Identifier, parent: Node): (r: Result<State, Error>)
    ensures r.Err? <==> Classify(parent).Unknown?
    ensures r.Err? ==> r.error == UnknownNodeKind(parent)
  {
    match Classify(parent)
    case Labelled(typeLabel) => Ok(s.(reports := s.reports + ReportBinding(cfg.ignoredNames, ident, typeLabel)))
    case ParameterOf(parameters, position) => Ok(HandleParameter(cfg, s, ident, parameters, position))
    case Unknown => Err(UnknownNodeKind(parent))
  }

  /** A wholly unused import: one report on the whole declaration, and
      nothing about parameters changes. */
  function ReportImportDeclaration(s: State, declaration: nat): (r: State)
    ensures r.unusedParameters == s.unusedParameters && r.deferred == s.deferred
    ensures |r.reports| == |s.reports| + 1 && s.reports <= r.reports
    ensures r.reports[|s.reports|] == UnusedImport(declaration)
  {
    s.(reports := s.reports + [UnusedImport(declaration)])
  }

  /** Whether an element of a wholly unused pattern is handled on its own:
      a binding element whose name is a plain identifier. */
  predicate IsSimpleElement(e: PatternElement)
  {
    e.BindingElementOf? && e.name.Ident?
  }

  /** The reports for a wholly unused pattern, element by element in order. */
  function DestructureFindings(ignored: Option<Regex>, elements: seq<PatternElement>): (r: seq<Finding>)
    ensures |r| <= |elements|
    ensures forall f :: f in r ==> !f.UnusedImport? && f.typeLabel == DestructuredVariableLabel
    decreases |elements|
  {
    if elements == [] then []
    else
      var last := elements[|elements| - 1];
      DestructureFindings(ignored, elements[..|elements| - 1])
        + (if IsSimpleElement(last) then ReportBinding(ignored, last.name.ident, DestructuredVariableLabel) else [])
  }

  /** A wholly unused pattern only appends reports. */
  function Destructure(cfg: Config, s: State, elements: seq<PatternElement>): (r: State)
    ensures r.unusedParameters == s.unusedParameters && r.deferred == s.deferred
    ensures s.reports <= r.reports && |r.reports| <= |s.reports| + |elements|
  {
    s.(reports := s.reports + DestructureFindings(cfg.ignoredNames, elements))
  }

  /** Whether a diagnostic is looked at at all. */
  predicate IsRelevant(d: Diagnostic)
  {
    IsUnusedDiagnostic(d.code) && d.start.Some?
  }

  /** Every queued check and every `Parameter` report is about a parameter
      that is in the unused-parameter set. */
  predicate Tracked(s: State)
  {
    && (forall c :: c in s.deferred ==> c.ident in s.unusedParameters)
    && (forall f :: f in s.reports && f.Unused? && f.typeLabel == ParameterLabel ==> f.ident in s.unusedParameters)
  }

  /** One diagnostic of the `Program:exit` loop. */
  function Step(cfg: Config, s: State, d: Diagnostic): (r: Result<State, Error>)
    ensures !IsRelevant(d) ==> r == Ok(s)
    ensures r.Err? <==> IsRelevant(d) && d.start.value.token.IdentifierToken? && Classify(d.start.value.parent).Unknown?
    ensures r.Ok? ==> && s.unusedParameters <= r.value.unusedParameters
                      && s.deferred <= r.value.deferred
                      && s.reports <= r.value.reports
    ensures r.Ok? && Tracked(s) ==> Tracked(r.value)
  {
    if !IsRelevant(d) then Ok(s)
    else
      var loc := d.start.value;
      match loc.token
      case IdentifierToken(ident) => HandleIdentifier(cfg, s, ident, loc.parent)
      case OtherToken =>
        if loc.parent.ImportDeclaration? then Ok(ReportImportDeclaration(s, loc.parent.declaration))
        else if loc.parent.ObjectBindingPattern? || loc.parent.ArrayBindingPattern? then
          Ok(Destructure(cfg, s, loc.parent.elements))
        else Ok(s)
  }

  /** The first pass: every diagnostic in order; the first throw ends it. */
  function Pass(cfg: Config, s: State, diagnostics: seq<Diagnostic>): (r: Result<State, Error>)
    ensures r.Ok? ==> && s.unusedParameters <= r.value.unusedParameters
                      && s.deferred <= r.value.deferred
                      && s.reports <= r.value.reports
    ensures r.Ok? && Tracked(s) ==> Tracked(r.value)
    decreases |diagnostics|
  {
    if diagnostics == [] then Ok(s)
    else
      match Pass(cfg, s, diagnostics[..|diagnostics| - 1])
      case Err(e) => Err(e)
      case Ok(s') => Step(cfg, s', diagnostics[|diagnostics| - 1])
  }

  /** A deferred check: every parameter of the signature, before or after
      this one, has a plain identifier name that was tracked as unused. */
  predicate AllParametersUnused(parameters: seq<ParameterNode>, unused: set<Identifier>)
  {
    forall k :: 0 <= k < |parameters| ==> parameters[k].name.Ident? && parameters[k].name.ident in unused
  }

  function DeferredFindings(unused: set<Identifier>, check: DeferredCheck): (r: seq<Finding>)
    ensures r != [] <==> AllParametersUnused(check.parameters, unused)
    ensures r != [] ==> r == [Unused(check.ident, ParameterLabel)]
  {
    if AllParametersUnused(check.parameters, unused) then [Unused(check.ident, ParameterLabel)] else []
  }

  /** The second pass: every deferred check once, in registration order. */
  function Sweep(unused: set<Identifier>, checks: seq<DeferredCheck>): (r: seq<Finding>)
    ensures |r| <= |checks|
    ensures forall k :: 0 <= k < |r| ==> exists c :: c in checks && r[k] == Unused(c.ident, ParameterLabel)
    decreases |checks|
  {
    if checks == [] then []
    else Sweep(unused, checks[..|checks| - 1]) + DeferredFindings(unused, checks[|checks| - 1])
  }

  /** `Program:exit`: the first pass, then the sweep over the final set. */
  function ProgramExit(cfg: Config, s: State, diagnostics: seq<Diagnostic>): (r: Result<State, Error>)
    ensures r.Err? <==> Pass(cfg, s, diagnostics).Err?
    ensures r.Ok? ==> && r.value.unusedParameters == Pass(cfg, s, diagnostics).value.unusedParameters
                      && r.value.deferred == Pass(cfg, s, diagnostics).value.deferred
                      && Pass(cfg, s, diagnostics).value.reports <= r.value.reports
                      && s.reports <= r.value.reports
    ensures r.Ok? && Tracked(s) ==> Tracked(r.value)
  {
    match Pass(cfg, s, diagnostics)
    case Err(e) => Err(e)
    case Ok(p) => Ok(p.(reports := p.reports + Sweep(p.unusedParameters, p.deferred)))
  }

  /** The reports of one file, or the error that aborted it. */
  function Analyze(cfg: Config, diagnostics: seq<Diagnostic>): (r: Result<seq<Finding>, Error>)
    ensures r.Ok? <==> ProgramExit(cfg, Initial, diagnostics).Ok?
    ensures r.Ok? ==>
              forall f :: f in r.value && f.Unused? && f.typeLabel == ParameterLabel ==>
                f.ident in ProgramExit(cfg, Initial, diagnostics).value.unusedParameters
  {
    match ProgramExit(cfg, Initial, diagnostics)
    case Err(e) => Err(e)
    case Ok(s) => Ok(s.reports)
  }
}
