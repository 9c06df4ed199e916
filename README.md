# noir_analyzer lint engine, modelled in Dafny

This project models the core of `noir_analyzer`, a static analyzer for Noir
programs, in three parts:

- **The analyzer.** An `Analyzer` installs a fresh `AstContext` for a parsed module. It then walks the module's items in order and records each function definition under its name; a later definition with the same name replaces the earlier one. In each body, every expression statement that is a non-macro call of a plain variable path goes into the context's call map, filed under the path's segment names concatenated with no separator. Call arguments are not visited. Any construct the visitor does not implement (a `todo!()` in the code) stops the pass. After a successful pass, every registered rule runs once on the finished context, and their lints are concatenated in registration order.
- **The `unused-function` rule.** It emits one `Warning` for each recorded definition that is not `pub` and whose name is not a key of the call map. The warning points at the definition's location.
- **The reporter.** It renders each lint as one line, `[<label>] <name>: <description>`.

Module layout:

- `Syntax` is a minimal Noir AST.
- `Diagnostic` holds `Lint` and `Severity`, and `Reporter` the rendering.
- `Context` is the `AstContext` class, `LintRules` the closed set of rules, and `UnusedFunctionLint` the rule.
- `Traversal` holds the traversal as pure functions over facts, plus independent descriptions of the result: the last definition of each name, and the calls filed under each key in source order.
- `AstAnalyzer` is the `Analyzer` class: its context, its rules and its stack of frames are fields, and its visit methods update them in place. Each visit method's contract ties the new state to the `Traversal` function for that construct.
- `TraversalProperties` holds the module-level consequences.
- `Scenarios` replays the repository's tests on the trees the parser builds for their snippets.

Where the documentation and the code differ, the model follows the code:

- The span a lint carries is the definition's `location`, the body from `{` to `}` (`Some(function.location.span)`). It is not the name identifier's span. The tests' expected spans (`22..24` for `fn foo() {}`) agree.
- An unsupported construct aborts the pass (the code panics). It is not skipped. The model returns `Unsupported(what)` from `analyze`, and the aborting construct adds nothing to the context.
- `AstContext` and `LintRule` are modelled as the code uses them: the context has a `function_calls` map, and a rule has `boxed_clone` and `lint`.
- `Lint` has one optional span.

`analyze`'s `GenericError` branch cannot be reached. `visit_item` either aborts or returns the result of `visit_noir_function`, which is always `true`. `Analyzer.Analyze` proves `!result.Err?`.

## Model

| member | source | states |
|---|---|---|
| Reporter.SeverityLabel | noir_analyzer/src/diagnostics/reporter.rs:30-33 | the label is "Warning" exactly for `Warning` and "Error" exactly for `Error` |
| Reporter.Report | noir_analyzer/src/diagnostics/reporter.rs:28-37 | one line per lint, in input order (none for no lints), line `i` being `[<label>] <name>: <description>` of lint `i` |
| Reporter.SeverityRoundTrip | noir_analyzer/src/diagnostics/reporter.rs:30-35 | the lint's severity can be read back off the bracketed prefix of its line |
| Reporter.RenderIgnoresSpan | noir_analyzer/src/diagnostics/reporter.rs:35 | the rendered line is the same whatever span the lint carries |
| Reporter.RenderLineParts | noir_analyzer/src/diagnostics/reporter.rs:35 | the line's length is fixed by its parts, and the label, name and description can be sliced back out at fixed offsets |
| Context.AstContext.constructor | noir_analyzer/src/ast/ast_context.rs:16-21 | a new context refers to its module and holds no definitions and no calls |
| Traversal.RecordCall | noir_analyzer/src/ast/analyzer.rs:262-271 | the call is appended at the end of its key's list, which is created empty if absent; every other key and every earlier call is unchanged |
| Traversal.LastDefinition | noir_analyzer/src/ast/analyzer.rs:140-142 | the definition a name ends with carries that name |
| Traversal.StatementsAbortPersists | noir_analyzer/src/ast/analyzer.rs:144-146 | once a statement aborts, the whole body aborts the same way, whatever follows |
| Traversal.ItemsAbortPersists | noir_analyzer/src/ast/analyzer.rs:112-116 | once an item aborts, the whole module aborts the same way, whatever follows |
| Traversal.StatementsFactsCharacterized | noir_analyzer/src/ast/analyzer.rs:144-146 | a body's statements leave the definitions alone, and under every key they append exactly that key's calls from the body, in order |
| Traversal.FunctionStep | noir_analyzer/src/ast/analyzer.rs:140-146 | visiting a function replaces its name's entry with it and appends its body's calls under each key |
| Traversal.ItemsFactsCharacterized | noir_analyzer/src/ast/analyzer.rs:110-121 | after a completed pass, every name maps to its last definition among the items (or its earlier entry), and every key holds its earlier calls followed by the items' calls, in source order; keys appear exactly when something is filed |
| UnusedFunctionLint.RunLint | noir_analyzer/src/lints/unused_function.rs:23-39 | the lints are one `UnusedLint` per unused name, each name once, in some iteration order; each is an "unused-function" warning with a span; the context is only read |
| UnusedFunctionLint.DescriptionInjective | noir_analyzer/src/lints/unused_function.rs:32 | different function names give different descriptions |
| UnusedFunctionLint.EnumerationSize | noir_analyzer/src/lints/unused_function.rs:25 | a duplicate-free listing of the names has as many entries as there are names |
| UnusedFunctionLint.ReportSize | noir_analyzer/src/lints/unused_function.rs:25-38 | the rule emits exactly as many lints as there are non-`pub`, uncalled definitions |
| UnusedFunctionLint.PublicNotReported | noir_analyzer/src/lints/unused_function.rs:26 | no lint describes a `pub` function, whatever the calls |
| UnusedFunctionLint.CalledNotReported | noir_analyzer/src/lints/unused_function.rs:27 | no lint describes a function whose name is a key of the call map |
| UnusedFunctionLint.UncalledReportedOnce | noir_analyzer/src/lints/unused_function.rs:26-34 | a non-`pub` (including `pub(crate)`) uncalled function has exactly one lint describing it, and that lint has the rule's name, `Warning`, the description and the definition's location |
| UnusedFunctionLint.ReportedLintsAreUnused | noir_analyzer/src/lints/unused_function.rs:28-34 | every lint in a report is the lint of some unused definition |
| LintRules.LintRule.Name | noir_analyzer/src/lints/unused_function.rs:15-17 | the rule's name is "unused-function" |
| LintRules.LintRule.BoxedClone | noir_analyzer/src/lints/unused_function.rs:19-21 | the clone is the same rule, with the same name |
| LintRules.RunRule | noir_analyzer/src/ast/analyzer.rs:92-94 | a rule's lints are that rule's report for the context, all carrying the rule's name |
| LintRules.SingleRuleReport | noir_analyzer/src/ast/analyzer.rs:87-98 | with only the unused-function rule registered, the analysis output is exactly that rule's report |
| AstAnalyzer.Analyzer.constructor | noir_analyzer/src/ast/analyzer.rs:66-75 | no context and an empty stack; one cloned rule per supplied rule, in the same order |
| AstAnalyzer.Analyzer.Analyze | noir_analyzer/src/ast/analyzer.rs:77-99 | a fresh context for the module; never `GenericError`; an abort yields `Unsupported`; otherwise the context holds exactly the facts of one pass from empty maps, and the lints are the rules' reports concatenated in registration order |
| AstAnalyzer.Analyzer.VisitParsedModule | noir_analyzer/src/ast/analyzer.rs:110-121 | the new context is the item fold from the old one (or the first abort); on success the stack is empty |
| AstAnalyzer.Analyzer.VisitItem | noir_analyzer/src/ast/analyzer.rs:123-128 | functions are visited, every other item aborts and records nothing |
| AstAnalyzer.Analyzer.VisitNoirFunction | noir_analyzer/src/ast/analyzer.rs:134-151 | the context becomes the definition recorded, then the body folded over it; on success the stack is back at its entry depth |
| AstAnalyzer.Analyzer.VisitStatement | noir_analyzer/src/ast/analyzer.rs:409-424 | expression statements are visited, every other statement aborts and records nothing |
| AstAnalyzer.Analyzer.VisitExpression | noir_analyzer/src/ast/analyzer.rs:247-286 | a non-macro call of a plain path files the call under the joined names and leaves the stack at its entry depth; macro calls, other callees, non-plain paths and non-calls abort and record nothing |
| AstAnalyzer.Analyzer.VisitPath | noir_analyzer/src/ast/analyzer.rs:610-622 | a plain path pushes exactly one frame holding its segments in order; any other path kind aborts with the stack unchanged |
| TraversalProperties.ModuleFactsCharacterized | noir_analyzer/src/ast/analyzer.rs:110-151 | after a completed pass from an empty context, each name maps to its last definition, and each key holds the calls filed under it in source order, being present exactly when one is |
| TraversalProperties.KeysAreNames | noir_analyzer/src/ast/analyzer.rs:140-142 | every definition is filed under its own name |
| TraversalProperties.ModuleCompletesIff | noir_analyzer/src/ast/analyzer.rs:123-128 | a pass completes exactly when every item is a function and every statement is a non-macro call of a plain variable path |
| TraversalProperties.StatementsCompleteIff | noir_analyzer/src/ast/analyzer.rs:409-424 | a body's statements complete exactly when each is a handled call |
| TraversalProperties.ItemsCompleteIff | noir_analyzer/src/ast/analyzer.rs:112-116 | a sequence of items completes exactly when each is a function with a handled body |
| TraversalProperties.LastDefinitionIsLast | noir_analyzer/src/ast/analyzer.rs:140-142 | a function item that no later function item shares a name with is the definition its name ends with |
| TraversalProperties.LastDefinitionAbsent | noir_analyzer/src/ast/analyzer.rs:140-142 | a name no function item carries has no definition |
| TraversalProperties.LastDefinitionFound | noir_analyzer/src/ast/analyzer.rs:140-142 | the definition a name ends with is one of the module's function items, and no later item redefines it |
| TraversalProperties.LaterDefinitionWins | noir_analyzer/src/ast/analyzer.rs:140-142 | of two same-name functions, the context holds the later one |
| TraversalProperties.DefinitionCount | noir_analyzer/src/ast/analyzer.rs:140-142 | from an empty definition map, functions with pairwise distinct names leave one entry each |
| TraversalProperties.DistinctNamesCount | noir_analyzer/src/ast/analyzer.rs:714-732 | a module of functions with pairwise distinct names leaves as many definitions as functions |
| TraversalProperties.JoinNamesAppend | noir_analyzer/src/ast/analyzer.rs:266-268 | the key of a concatenated path is the concatenation of the keys |
| TraversalProperties.JoinNamesSingle | noir_analyzer/src/ast/analyzer.rs:266-268 | a one-segment path is filed under that segment's name |
| TraversalProperties.KeysCollide | noir_analyzer/src/ast/analyzer.rs:266-268 | with no separator, `a::b` and `ab` share a key |
| TraversalProperties.ArgumentsNotVisited | noir_analyzer/src/ast/analyzer.rs:256-281 | in `foo(bar())` only `foo` gets a call; nothing is filed under `bar` |
| TraversalProperties.StatementCallsNonEmpty | noir_analyzer/src/ast/analyzer.rs:144-146 | a body files something under a key exactly when one of its statements calls it |
| TraversalProperties.ItemCallsNonEmpty | noir_analyzer/src/ast/analyzer.rs:112-116 | the items file something under a key exactly when some function body calls it |
| TraversalProperties.CallKeysAreCalls | noir_analyzer/src/ast/analyzer.rs:262-271 | after a completed pass, a key is in the call map exactly when some function body calls it |
| TraversalProperties.ReportedIffUncalled | noir_analyzer/src/lints/unused_function.rs:25-35 | after a completed pass, a name is reported exactly when its last definition is not `pub` and no function body calls it |
| Scenarios.AnalyzeWithUnusedFunction | noir_analyzer/src/ast/analyzer.rs:77-99 | analyzing with only the unused-function rule gives that rule's report of the pass, or the abort |
| Scenarios.PublicFunctionNotReported | noir_analyzer/src/lints/unused_function.rs:58-72 | `pub fn foo() {}` yields no lints |
| Scenarios.PrivateFunctionReported | noir_analyzer/src/lints/unused_function.rs:75-99 | `fn foo() {}` yields exactly the lint "Function 'foo' is unused" at `22..24` |
| Scenarios.CalledFunctionNotReported | noir_analyzer/src/lints/unused_function.rs:102-117 | `foo` called from `pub fn bar` yields no lints |
| Scenarios.LargerExample | noir_analyzer/src/lints/unused_function.rs:120-167 | exactly `private_fn_2` (`65..68`) and `crate_fn_2` (`151..154`) are reported, in either order |
| Scenarios.ValidFunctionAccepted | noir_analyzer/src/ast/analyzer.rs:697-711 | `fn main() {}` with no rules is analyzed successfully, with no lints |
| Scenarios.DefinitionsAddedToContext | noir_analyzer/src/ast/analyzer.rs:714-732 | `fn foo() {}` and `fn bar() {}` leave two definitions in the context |
| Scenarios.LetStatementUnsupported | noir_analyzer/src/ast/analyzer.rs:411 | a `let` statement stops the analysis as unsupported |
| Scenarios.CratePathUnsupported | noir_analyzer/src/ast/analyzer.rs:612 | a call through a `crate::` path stops the analysis as unsupported |
| Scenarios.ReportUnusedFoo | noir_analyzer/src/diagnostics/reporter.rs:35 | the unused-`foo` lint renders as `[Warning] unused-function: Function 'foo' is unused` |

## Left out

- The command-line front end (`cli/src/main.rs`): argument parsing, reading `Nargo.toml`, workspace deserialisation and printing. It is file I/O and foreign-library glue.
- The parser wrapper (`noir_analyzer/src/ast/parser.rs`), which calls the Noir front end and reads files. The model starts from an already parsed tree. `ParsingError` and `FileReadError` are declared in `AnalyzerError` but never produced.
- The real Noir AST. Only the shapes the visitor tells apart are modelled. Other expression kinds are one `OtherExpression`, other item kinds one `OtherItem`, and statement kinds carry no payload except expression statements. A path segment is modelled as its identifier; generic arguments are dropped.
- The visitor methods that the modelled path never reaches (types, patterns, literals, traits, impls, submodules and the rest): they are no-ops or `todo!()`. Reaching a non-function item aborts at `visit_item`, as the code does.
- Panics on an uninitialised context. The visit methods require `context != null`. `Analyze` sets the context before visiting, so these panics cannot happen. The "should have identifiers" panic is proved unreachable.
- `HashMap` iteration order. The rule's output order is left unspecified: the loop picks any remaining name, and its contract holds for every order.
- `Span` and `FileId` internals, and line/column or caret rendering, which no modelled code implements. A span is a pair of offsets, and `file_id` is not modelled.
- Printing. `Report` returns the lines instead of printing them.
- Rules as boxed trait objects. They are a closed datatype with one variant, and `BoxedClone` returns an equal value.
- AstAnalyzer.Analyzer.Analyze: on an abort, the contract says nothing about the context's contents or the stack. The source panics at that point, and nothing else observes that state.
- AstAnalyzer.Analyzer.VisitNoirFunction: on an abort, the contract does not state the context. The function's own definition has already been recorded when a body statement aborts.
- `visit_noir_function` ignores the result of each statement visit. The model stops only on an abort, which is the same behaviour, because a statement visit that does not abort always returns `true`.
