# A verified model of three pieces of the typescript-eslint plugin

This project models, in Dafny, three parts of `packages/eslint-plugin`, and proves what each one promises.

**`no-unused-vars`.** The rule asks the TypeScript checker for a file's semantic diagnostics. It keeps the seven codes that mean "declared but never used" and turns each one into a lint report:

- a binding is labelled by the kind of its parent node;
- a wholly unused import is reported once, on its declaration;
- a wholly unused destructuring is reported element by element.

Unused parameters follow a two-pass policy:

- every one is added to a per-file set;
- a parameter that is last in its list, or any parameter when `ignoreIfArgsAfterAreUsed` is off, is reported at once;
- otherwise a check is queued, and it runs after all diagnostics.

The model has three files:

- `UnusedVars` states the rule as pure functions over a per-file `State`.
- `UnusedVarsRule.RuleContext` is the per-file object. Its fields are the set, the queue of pending checks and the reports. Each of its methods is proved to move the state exactly as the matching function does.
- `UnusedVarsProperties` proves what the rule promises of those functions.

**`validateRuleDoc`.** This is the documentation checker. It walks the markdown tokens of a rule's page and checks:

- the level-1 title text;
- that each known section appears once, at level 2;
- that no other level-2 heading appears;
- the order of the sections, by their bit-flag enum values;
- that every required section is present.

`RuleDocs.ValidateRuleDoc` is the loop itself, proved equal to the pure `Validate`. `RuleDocsProperties` says what the verdict means.

**`prefer-nullish-coalescing`.** The rule reports a `||` whose left operand may be nullish. Its fix rewrites the operator to `??`. When `ignoreConditionalTests` is on, an expression inside the test of a ternary, `if`, `for`, `while` or `do-while` is left alone. `PreferNullish.IsConditionalTest` is the parent walk, with its `parents` set. `OnLogicalOr` is the handler's decision.

Where this model follows the code rather than its own comments: the comment on the queued check (no-unused-vars.ts:242) speaks only of the parameters after the one being checked. The loop at no-unused-vars.ts:231-240 looks at every parameter of the list, earlier ones included, and the model does the same. So with `ignoreIfArgsAfterAreUsed` on, in `f(a, b, c) { use(a) }`, `b` stays silent (`EarlierUsedParameterSilencesLater`).

## Model

| member | source | states |
|---|---|---|
| UnusedVars.IsUnusedDiagnostic | packages/eslint-plugin/src/rules/no-unused-vars.ts:313-323 | A code is kept exactly when it is one of 6133, 6138, 6192, 6196, 6198, 6199 and 6205 |
| UnusedVars.GetIgnoredNames | packages/eslint-plugin/src/rules/no-unused-vars.ts:86-90 | A pattern exists exactly when the variables option is a string; its source is that string |
| UnusedVars.ResolveOptions | packages/eslint-plugin/src/rules/no-unused-vars.ts:91-99 | `ignoreIfArgsAfterAreUsed` is on exactly when the user set it to `true`; absent or `false` means off |
| UnusedVars.Classify | packages/eslint-plugin/src/rules/no-unused-vars.ts:133-196 | Every labelled kind gets a label from the classifier table; only `Parameter` goes to the parameter handler; the kinds the switch has no case for (array pattern, import declaration, any other) are unknown |
| UnusedVars.ReportBinding | packages/eslint-plugin/src/rules/no-unused-vars.ts:102-128 | At most one report; none exactly when a pattern exists and the name matches it; `unused` without a pattern; otherwise `unusedWithIgnorePattern` quoting `/source/` |
| UnusedVars.HandleParameter | packages/eslint-plugin/src/rules/no-unused-vars.ts:199-248 | The identifier is always added to the set; a last parameter, or any parameter when the option is off, is reported `unused` as `Parameter` at once; otherwise one check is queued and nothing is reported |
| UnusedVars.HandleIdentifier | packages/eslint-plugin/src/rules/no-unused-vars.ts:101-197 | Throws exactly for a parent kind the classifier does not know, with that node in the error |
| UnusedVars.ReportImportDeclaration | packages/eslint-plugin/src/rules/no-unused-vars.ts:250-262 | Appends exactly one `unusedImport` report on the declaration and changes neither the set nor the queue |
| UnusedVars.DestructureFindings | packages/eslint-plugin/src/rules/no-unused-vars.ts:264-279 | At most one report per element, each a destructured variable and none an import report |
| UnusedVars.Destructure | packages/eslint-plugin/src/rules/no-unused-vars.ts:264-279 | Handling a pattern only appends to the reports, at most one per element, and leaves the set and the queue alone |
| UnusedVars.Step | packages/eslint-plugin/src/rules/no-unused-vars.ts:287-300 | A dropped diagnostic changes nothing; a kept one throws exactly when its token is an identifier whose parent kind is unknown; otherwise the set, the queue and the reports only grow, and every queued or reported parameter stays tracked in the set |
| UnusedVars.Pass | packages/eslint-plugin/src/rules/no-unused-vars.ts:287-301 | The first pass only grows the set and only appends to the queue and to the reports, and keeps every queued or reported parameter in the set |
| UnusedVars.Sweep | packages/eslint-plugin/src/rules/no-unused-vars.ts:303-304 | Running the queued checks reports at most one finding per check, each `unused` `Parameter` on the checked parameter |
| UnusedVars.ProgramExit | packages/eslint-plugin/src/rules/no-unused-vars.ts:282-305 | Fails exactly when the first pass does; otherwise the set and the queue are the first pass's and its reports are a prefix of the result |
| UnusedVars.Analyze | packages/eslint-plugin/src/rules/no-unused-vars.ts:282-305 | A file's analysis succeeds exactly when its `Program:exit` does, and every parameter it reports is in the set |
| UnusedVars.DeferredFindings | packages/eslint-plugin/src/rules/no-unused-vars.ts:230-244 | A queued check reports its parameter, once and as `unused`, exactly when every parameter of the list has a plain name that is in the set |
| UnusedVarsProperties.IrrelevantDiagnosticsChangeNothing | packages/eslint-plugin/src/rules/no-unused-vars.ts:287-289 | A diagnostic with another code or without a start changes nothing: the pass over all diagnostics equals the pass over the kept ones |
| UnusedVarsProperties.PassThrowsIff | packages/eslint-plugin/src/rules/no-unused-vars.ts:287-301 | The first pass throws exactly when some kept identifier has an unknown parent kind, and the error is that of the first such diagnostic |
| UnusedVarsProperties.AnalyzeThrowsIff | packages/eslint-plugin/src/rules/no-unused-vars.ts:191-192 | A file's analysis fails exactly when one of its diagnostics hits the classifier's `throw` |
| UnusedVarsProperties.DestructureFindingsShape | packages/eslint-plugin/src/rules/no-unused-vars.ts:264-279 | A wholly unused pattern reports only the binding elements with plain names, each as a destructured variable; holes and nested patterns report nothing; without a pattern each simple element is reported once, in order |
| UnusedVarsProperties.StepKeepsLabels | packages/eslint-plugin/src/rules/no-unused-vars.ts:287-299 | One diagnostic adds only well-labelled reports |
| UnusedVarsProperties.PassKeepsLabels | packages/eslint-plugin/src/rules/no-unused-vars.ts:287-301 | The first pass adds only well-labelled reports |
| UnusedVarsProperties.AnalyzeFindingsWellLabelled | packages/eslint-plugin/src/rules/no-unused-vars.ts:133-196 | Every report of a file has a classifier label or `Parameter`, and no parameter is ever reported with the ignore pattern |
| UnusedVarsProperties.DefaultPatternSuppressesUnderscore | packages/eslint-plugin/src/rules/no-unused-vars.ts:71-80 | With the default `^_`, a labelled binding whose name starts with `_` is silent and any other is reported with pattern `/^_/` |
| UnusedVarsProperties.LabelledBindingReport | packages/eslint-plugin/src/rules/no-unused-vars.ts:104-127 | For a labelled binding, two configurations with the same variables pattern give the same result; it never throws, leaves the set and the queue alone and adds at most one report |
| UnusedVarsProperties.NoPatternReportsEveryBinding | packages/eslint-plugin/src/rules/no-unused-vars.ts:118-127 | With no string pattern, every labelled binding is reported `unused` |
| UnusedVarsProperties.ParameterIgnoresPattern | packages/eslint-plugin/src/rules/no-unused-vars.ts:213-223 | A parameter's handling does not depend on the variables pattern |
| UnusedVarsProperties.PassTracksEveryParameter | packages/eslint-plugin/src/rules/no-unused-vars.ts:204-206 | After the first pass, every parameter named by a kept diagnostic is in the set, whether or not it was reported |
| UnusedVarsProperties.NothingDeferredWhenOptionOff | packages/eslint-plugin/src/rules/no-unused-vars.ts:225-247 | With the option off, nothing is ever queued |
| UnusedVarsProperties.SweepReportsExactly | packages/eslint-plugin/src/rules/no-unused-vars.ts:230-244 | The sweep reports exactly the queued parameters whose whole list is in the set, as `unused` `Parameter`, and never more reports than checks |
| UnusedVarsProperties.SweepInRegistrationOrder | packages/eslint-plugin/src/rules/no-unused-vars.ts:303-304 | The checks run in the order they were queued: the sweep of a concatenation is the concatenation of the sweeps |
| UnusedVarsProperties.ImmediateReportsPrecedeDeferred | packages/eslint-plugin/src/rules/no-unused-vars.ts:282-305 | The file's reports extend the starting ones; they are exactly the first pass's reports followed by the sweep of its queue, and every report after the first pass's is `unused` `Parameter` for some queued check |
| UnusedVarsProperties.TrackingIsIdempotent | packages/eslint-plugin/src/rules/no-unused-vars.ts:199-206 | Adding a parameter to the set twice leaves it as adding it once |
| UnusedVarsProperties.LaterUsedParameterSilencesEarlier | packages/eslint-plugin/tests/rules/no-unused-vars.test.ts:124-137 | `foo(a, b) { use(b) }` with the option on reports nothing |
| UnusedVarsProperties.AllUnusedParametersReported | packages/eslint-plugin/src/rules/no-unused-vars.ts:225-247 | `foo(a, b) {}` with the option on reports `b` at once and then `a` from the sweep |
| UnusedVarsProperties.EarlierUsedParameterSilencesLater | packages/eslint-plugin/src/rules/no-unused-vars.ts:231-240 | The queued check also looks at earlier parameters: in `foo(a, b, c) { use(a) }` only `c` is reported |
| UnusedVarsProperties.NestedPatternSilencesDeferred | packages/eslint-plugin/src/rules/no-unused-vars.ts:231-236 | When every queued check's list holds a destructured parameter, the sweep reports nothing |
| UnusedVarsProperties.NestedParameterExample | packages/eslint-plugin/src/rules/no-unused-vars.ts:232-235 | `foo(a, {b})` with the option on and `a` unused: the check queued for `a` reports nothing |
| UnusedVarsRule.RuleContext.constructor | packages/eslint-plugin/src/rules/no-unused-vars.ts:81-99 | The options are resolved, the set is empty, and there are no queued checks and no reports |
| UnusedVarsRule.RuleContext.ReportIdentifier | packages/eslint-plugin/src/rules/no-unused-vars.ts:102-128 | Appends exactly `ReportBinding`'s report and changes nothing else |
| UnusedVarsRule.RuleContext.HandleIdentifier | packages/eslint-plugin/src/rules/no-unused-vars.ts:101-197 | Moves the state as `HandleIdentifier` does; on a throw it returns the error and leaves the state unchanged |
| UnusedVarsRule.RuleContext.HandleParameterDeclaration | packages/eslint-plugin/src/rules/no-unused-vars.ts:199-248 | Moves the state as `HandleParameter` does: adds to the set, then queues or reports |
| UnusedVarsRule.RuleContext.HandleImportDeclaration | packages/eslint-plugin/src/rules/no-unused-vars.ts:250-262 | Appends exactly one `unusedImport` report on the declaration |
| UnusedVarsRule.RuleContext.HandleDestructure | packages/eslint-plugin/src/rules/no-unused-vars.ts:264-279 | Handles each simple element in order with a binding-element parent: the state becomes `Destructure` of the old state |
| UnusedVarsRule.RuleContext.OnDiagnostic | packages/eslint-plugin/src/rules/no-unused-vars.ts:287-300 | One turn of the diagnostics loop moves the state as `Step` does, or returns its error |
| UnusedVarsRule.RuleContext.DeferredCheckPasses | packages/eslint-plugin/src/rules/no-unused-vars.ts:231-240 | The early-return loop answers true exactly when every parameter has a plain name in the set |
| UnusedVarsRule.RuleContext.RunDeferredCheck | packages/eslint-plugin/src/rules/no-unused-vars.ts:230-244 | Appends exactly `DeferredFindings` for the check |
| UnusedVarsRule.RuleContext.FirstPass | packages/eslint-plugin/src/rules/no-unused-vars.ts:287-301 | The loop over the diagnostics moves the state as `Pass` does, or returns the first error |
| UnusedVarsRule.RuleContext.RunDeferredChecks | packages/eslint-plugin/src/rules/no-unused-vars.ts:303-304 | The loop over the callbacks appends exactly the sweep of the queue over the final set, and changes nothing else |
| UnusedVarsRule.RuleContext.ProgramExit | packages/eslint-plugin/src/rules/no-unused-vars.ts:282-305 | Both loops together move the state as `ProgramExit` does, or return the first pass's error |
| RuleDocs.Value | packages/eslint-plugin/tools/validate-docs/validate-rule-docs.ts:8-19 | The low two bits of a title's value are its required/optional flag and the rest is its declaration position |
| RuleDocs.TitleOf | packages/eslint-plugin/tools/validate-docs/validate-rule-docs.ts:83-146 | A heading text that names a section names one other than the title, and is that section's expected heading |
| RuleDocs.TitleOfHeading | packages/eslint-plugin/tools/validate-docs/validate-rule-docs.ts:83-146 | Conversely, every section other than the title is named by its own expected heading |
| RuleDocs.Validate | packages/eslint-plugin/tools/validate-docs/validate-rule-docs.ts:30-189 | Throws exactly when the scan throws; an error found by the scan makes the result true; a page that passes has its sections in sorted order |
| RuleDocs.SortTitles | packages/eslint-plugin/tools/validate-docs/validate-rule-docs.ts:160 | The sort of `titleOrder` is an ascending permutation of it |
| RuleDocs.DocStep | packages/eslint-plugin/tools/validate-docs/validate-rule-docs.ts:59-157 | Throws exactly on content before any section is open. A repeated section sets the error flag and opens nothing. A new section is appended and becomes current, with an error when its heading is wrong. Any other level-2 heading is an error. Content changes only the current section. The error flag is never cleared |
| RuleDocs.Scan | packages/eslint-plugin/tools/validate-docs/validate-rule-docs.ts:46-57 | After any successful prefix, `titleOrder` has no duplicates, the sections are exactly those in `titleOrder`, and the last title is set exactly when a section is open |
| RuleDocs.VisitToken | packages/eslint-plugin/tools/validate-docs/validate-rule-docs.ts:59-157 | The `forEach` callback computes exactly `DocStep` |
| RuleDocs.ValidateRuleDoc | packages/eslint-plugin/tools/validate-docs/validate-rule-docs.ts:30-189 | The loop and the two final checks return exactly `Validate` |
| RuleDocs.CheckSectionOrder | packages/eslint-plugin/tools/validate-docs/validate-rule-docs.ts:160-163 | The `some` loop is true exactly when the order differs from its sort at some index |
| RuleDocs.CheckRequiredSections | packages/eslint-plugin/tools/validate-docs/validate-rule-docs.ts:175-182 | True exactly when a title without the optional flag is missing |
| RuleDocsProperties.RankIsValue | packages/eslint-plugin/tools/validate-docs/validate-rule-docs.ts:11-19 | The comparator's numbers (`Rank`) are the enum values `(i << 2) \| flag` |
| RuleDocsProperties.DeclarationOrderAscends | packages/eslint-plugin/tools/validate-docs/validate-rule-docs.ts:24-26 | The expected order lists every title, in strictly increasing value |
| RuleDocsProperties.FlagsMarkRequiredSections | packages/eslint-plugin/tools/validate-docs/validate-rule-docs.ts:8-19 | The required bit is set exactly on the title, Options, Examples and When Not To Use It; the optional bit exactly on the other two |
| RuleDocsProperties.MissingRequiredIff | packages/eslint-plugin/tools/validate-docs/validate-rule-docs.ts:175-182 | The presence check fails exactly when a required section is absent; a missing optional one never fails it |
| RuleDocsProperties.SortKeepsAscending | packages/eslint-plugin/tools/validate-docs/validate-rule-docs.ts:160 | Sorting an ascending order leaves it unchanged |
| RuleDocsProperties.OrderErrorIff | packages/eslint-plugin/tools/validate-docs/validate-rule-docs.ts:160-173 | The order error is raised exactly when the sections are not in ascending order of value |
| RuleDocsProperties.ScanOpensIff | packages/eslint-plugin/tools/validate-docs/validate-rule-docs.ts:59-146 | After a successful scan some section is open exactly when some token was a title or named-section heading |
| RuleDocsProperties.ScanFailsIff | packages/eslint-plugin/tools/validate-docs/validate-rule-docs.ts:156 | The scan throws exactly when a content token comes before every section heading, and then for such a token |
| RuleDocsProperties.ErrorsAreFinal | packages/eslint-plugin/tools/validate-docs/validate-rule-docs.ts:31-157 | Once set, the error flag stays set for the rest of the scan |
| RuleDocsProperties.ValidateMeaning | packages/eslint-plugin/tools/validate-docs/validate-rule-docs.ts:159-188 | The result is true exactly when the scan found an error, the order is not ascending, or a required section is missing |
| RuleDocsProperties.ScanSectionPage | packages/eslint-plugin/tools/validate-docs/validate-rule-docs.ts:59-146 | The correct title followed by the correct level-2 headings of distinct sections scans without error, recording the sections in page order |
| RuleDocsProperties.WellOrderedPagePasses | packages/eslint-plugin/tools/validate-docs/validate-rule-docs.ts:30-189 | A page with the right title, then Options, Examples and When Not To Use It at level 2, passes |
| RuleDocsProperties.SwappedSectionsFail | packages/eslint-plugin/tools/validate-docs/validate-rule-docs.ts:160-173 | Examples before Options fails, even when every heading is right |
| RuleDocsProperties.LeadingTextThrows | packages/eslint-plugin/tools/validate-docs/validate-rule-docs.ts:156 | Text before the first heading throws |
| PreferNullish.ChainIdsMembers | packages/eslint-plugin/src/rules/prefer-nullish-coalescing.ts:90-93 | The `parents` set built by the walk holds exactly the identities of the nodes visited |
| PreferNullish.IsConditionalTest | packages/eslint-plugin/src/rules/prefer-nullish-coalescing.ts:89-110 | The walk returns true exactly when some proper ancestor is a test owner whose `test` is one of the nodes from the start node up to that ancestor |
| PreferNullish.ConditionalTestMeansInsideTest | packages/eslint-plugin/src/rules/prefer-nullish-coalescing.ts:95-102 | On a path through a tree, that holds exactly when the path enters some test owner through its `test` |
| PreferNullish.BodyIsNotConditionalTest | packages/eslint-plugin/src/rules/prefer-nullish-coalescing.ts:95-102 | A node reached only through bodies or branches is not a conditional test |
| PreferNullish.IgnoreConditionalTests | packages/eslint-plugin/src/rules/prefer-nullish-coalescing.ts:44-49 | The option is on unless the user sets it |
| PreferNullish.OnLogicalOr | packages/eslint-plugin/src/rules/prefer-nullish-coalescing.ts:55-84 | One report exactly when the left side is nullable and not (option on and conditional test); the report is on the operator, with a fix replacing it by `??` |
| PreferNullish.ApplyFix | packages/eslint-plugin/src/rules/prefer-nullish-coalescing.ts:80-82 | Applying a fix keeps the text before the range, puts the replacement text in its place and keeps the text after it |
| PreferNullish.FixReplacesOnlyOperator | packages/eslint-plugin/src/rules/prefer-nullish-coalescing.ts:80-82 | On a `\|\|` token, the fix keeps the length, writes `??` there and changes no other character |
| PreferNullish.FixIsUndone | packages/eslint-plugin/src/rules/prefer-nullish-coalescing.ts:80-82 | Writing `\|\|` back over the fixed range restores the text |
| PreferNullish.IfTestIsIgnored | packages/eslint-plugin/tests/rules/prefer-nullish-coalescing.test.ts:43-49 | `if (x \|\| 'foo') {}` with the option on is not reported |
| PreferNullish.IfBranchIsReported | packages/eslint-plugin/src/rules/prefer-nullish-coalescing.ts:95-104 | `if (c) { x \|\| 'foo'; }` is reported with the default options |
| PreferNullish.StatementFixExample | packages/eslint-plugin/tests/rules/prefer-nullish-coalescing.test.ts:73-99 | `x \|\| 'foo';` is fixed to `x ?? 'foo';` |

## Left out

- The TypeScript checker, the token locator, the ESTree/TS node maps and `context.report` are not modelled. A diagnostic arrives already resolved to its token and the token's parent node. Reports are an output list.
- The regular-expression engine is a parameter that compiles a source to a predicate. `toString` is `"/" + source + "/"`; its escaping and the `/(?:)/` form of an empty source are not modelled.
- TypeScript itself suppresses parameters and imports whose names start with `_`. That happens before the diagnostics arrive, so it is not part of this model.
- `arguments.ignoredNamesRegex` is accepted by the schema but never read, so the model has no argument pattern. Parameters are always reported with `unused`.
- Parameter positions are given as an index into the parameter list; `indexOf` over distinct nodes is not modelled.
- UnusedVars.GetIgnoredNames: an invalid pattern source makes `new RegExp` throw when the rule is created. The model's engine is total, so it does not model that throw.
- `userOptions.arguments` is taken to be present after the host merges in the defaults.
- UnusedVarsRule.RuleContext.ProgramExit: after a throw, the model says nothing about the state, because the host discards the file.
- UnusedVarsRule.RuleContext.OnDiagnostic: after a throw, the model says nothing about the state, for the same reason.
- `validateRuleDocs` is not modelled: reading the files, the `marked` lexer, and the try/catch around each page.
- The log messages of `validateRuleDoc` and the `index.ts` and `log.ts` tooling are not modelled. Only the `hasErrors` verdict is modelled. A page arrives as a token list with heading flag, depth and text.
- The sections' contents are recorded but nothing reads them.
- `require-await-thenable` is not part of this model: every branch of it defers to the type checker.
- `util.isNullableType` and `sourceCode.getTokenAfter` in `prefer-nullish-coalescing` are inputs: the handler receives the nullability answer and the operator's range.
- A syntax node in `prefer-nullish-coalescing` is its identity, its type and the identity of its `test` child. The walk receives the node's ancestors, nearest first.
