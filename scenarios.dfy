/**
 * The outcomes the repository's tests pin down, on the trees the parser
 * builds for their source snippets. Offsets count from the start of each
 * snippet, which opens with a newline and twelve spaces of indentation; a
 * definition's location is its body, from `{` to just past `}`.
 */
module Scenarios {
  import opened Wrappers
  import opened Syntax
  import opened Diagnostic
  import opened Traversal
  import opened LintRules
  import opened AstAnalyzer
  import UnusedFunctionLint
  import TraversalProperties
  import Reporter

  /** An identifier starting at `start`. */
  function Name(text: string, start: nat): Ident
  {
    Ident(text, Span(start, start + |text|))
  }

  /** A function item with the given body location; the item spans from `itemStart` to the end of the body. */
  function Fn(name: Ident, visibility: ItemVisibility, body: seq<Statement>, itemStart: nat, location: Span): Item
  {
    Item(ItemKind.Function(FunctionDefinition(name, visibility, body, location)), Span(itemStart, location.end))
  }

  /** The statement `callee()`, a trailing call expression of a body. */
  function CallStatement(callee: Ident): Statement
  {
    var call := CallExpression(Variable(Path(Plain, [callee])), [], false);
    Statement(ExpressionStatement(Call(call)), Span(callee.span.start, callee.span.end + 2))
  }

  /** The lint the rule emits for a function of that name with that body location. */
  function Unused(name: string, location: Span): Lint
  {
    Lint("unused-function", Warning, "Function '" + name + "' is unused", Some(location))
  }

  /** Analyzes a module with an analyzer that holds only the unused-function rule. */
  method AnalyzeWithUnusedFunction(m: ParsedModule) returns (result: Analysis)
    ensures ModuleFacts(m).Aborted? ==> result == Unsupported(ModuleFacts(m).what)
    ensures ModuleFacts(m).Completed? ==>
      && result.Ok?
      && UnusedFunctionLint.IsReport(ModuleFacts(m).facts.definitions, ModuleFacts(m).facts.calls, result.lints)
  {
    var analyzer := new Analyzer([UnusedFunction]);
    assert analyzer.lintRules == [UnusedFunction];
    result := analyzer.Analyze(m);
    if ModuleFacts(m).Completed? {
      SingleRuleReport(analyzer.context.functionDefinitions, analyzer.context.functionCalls, result.lints);
    }
  }

  /** `pub fn foo() {}` is not reported. */
  method PublicFunctionNotReported() returns (lints: seq<Lint>)
    ensures lints == []
  {
    var items := [Fn(Name("foo", 20), Public, [], 13, Span(26, 28))];
    var m := ParsedModule(items);
    TraversalProperties.ModuleCompletesIff(m);
    var result := AnalyzeWithUnusedFunction(m);
    var f := ModuleFacts(m).facts;
    TraversalProperties.ModuleFactsCharacterized(m, f);
    assert items[..0] == [];
    assert Find(f.definitions, "foo") == LastDefinition(items, "foo");
    assert f.definitions.Keys == {"foo"} by {
      forall n ensures n in f.definitions <==> n == "foo" {
        assert Find(f.definitions, n) == LastDefinition(items, n);
      }
    }
    assert UnusedFunctionLint.UnusedNames(f.definitions, f.calls) == {};
    UnusedFunctionLint.ReportSize(f.definitions, f.calls, result.lints);
    lints := result.lints;
  }

  /** `fn foo() {}` is reported once, at its body. */
  method PrivateFunctionReported() returns (lints: seq<Lint>)
    ensures lints == [Unused("foo", Span(22, 24))]
  {
    var foo := FunctionDefinition(Name("foo", 16), Private, [], Span(22, 24));
    var items := [Item(ItemKind.Function(foo), Span(13, 24))];
    var m := ParsedModule(items);
    ItemsFactsSnoc(NoFacts, [], items[0]);
    assert [] + [items[0]] == items;
    var f := Facts(map["foo" := foo], map[]);
    assert ModuleFacts(m) == Completed(f);
    var result := AnalyzeWithUnusedFunction(m);
    TraversalProperties.KeysAreNames(m, f);
    assert UnusedFunctionLint.UnusedNames(f.definitions, f.calls) == {"foo"};
    UnusedFunctionLint.ReportSize(f.definitions, f.calls, result.lints);
    UnusedFunctionLint.UncalledReportedOnce(f.definitions, f.calls, result.lints, "foo");
    lints := result.lints;
  }

  /** `fn foo() {}` followed by `pub fn bar() { foo() }`: nothing is reported. */
  method CalledFunctionNotReported() returns (lints: seq<Lint>)
    ensures lints == []
  {
    var foo := FunctionDefinition(Name("foo", 16), Private, [], Span(22, 24));
    var call := CallStatement(Name("foo", 52));
    var bar := FunctionDefinition(Name("bar", 44), Public, [call], Span(50, 59));
    var first := [Item(ItemKind.Function(foo), Span(13, 24))];
    var items := first + [Item(ItemKind.Function(bar), Span(37, 59))];
    var m := ParsedModule(items);
    ItemsFactsSnoc(NoFacts, [], first[0]);
    assert [] + [first[0]] == first;
    var f1 := Facts(map["foo" := foo], map[]);
    assert ItemsFacts(NoFacts, first) == Completed(f1);
    ItemsFactsSnoc(NoFacts, first, items[1]);
    assert items[1].kind == ItemKind.Function(bar);
    CallFacts(f1, bar, Name("foo", 52));
    assert ItemsFacts(NoFacts, items) == FunctionFacts(f1, bar);
    assert bar.name.name == "bar";
    var recorded := RecordCall(map[], "foo", call.kind.expression.call);
    assert recorded.Keys == {"foo"};
    assert recorded["foo"] == [call.kind.expression.call];
    assert recorded == map["foo" := [call.kind.expression.call]];
    var f := Facts(map["foo" := foo, "bar" := bar], map["foo" := [call.kind.expression.call]]);
    assert ModuleFacts(m) == Completed(f);
    var result := AnalyzeWithUnusedFunction(m);
    assert UnusedFunctionLint.UnusedNames(f.definitions, f.calls) == {};
    UnusedFunctionLint.ReportSize(f.definitions, f.calls, result.lints);
    lints := result.lints;
  }

  // The larger example: two private functions, two `pub(crate)` ones and
  // three `pub` ones whose bodies call `private_fn_1`, `public_fn_1` and
  // `crate_fn_1`.

  const D1 := FunctionDefinition(Name("private_fn_1", 16), Private, [], Span(31, 34))
  const D2 := FunctionDefinition(Name("private_fn_2", 50), Private, [], Span(65, 68))
  const D3 := FunctionDefinition(Name("crate_fn_1", 95), PublicCrate, [], Span(108, 111))
  const D4 := FunctionDefinition(Name("crate_fn_2", 138), PublicCrate, [], Span(151, 154))
  const D5 := FunctionDefinition(Name("public_fn_1", 174), Public, [CallStatement(Name("private_fn_1", 190))], Span(188, 206))
  const D6 := FunctionDefinition(Name("public_fn_2", 226), Public, [CallStatement(Name("public_fn_1", 242))], Span(240, 257))
  const D7 := FunctionDefinition(Name("public_fn_3", 277), Public, [CallStatement(Name("crate_fn_1", 293))], Span(291, 307))

  const FirstFour := [Item(ItemKind.Function(D1), Span(13, 34)), Item(ItemKind.Function(D2), Span(47, 68)),
                      Item(ItemKind.Function(D3), Span(81, 111)), Item(ItemKind.Function(D4), Span(124, 154))]
  const I5 := Item(ItemKind.Function(D5), Span(167, 206))
  const I6 := Item(ItemKind.Function(D6), Span(219, 257))
  const I7 := Item(ItemKind.Function(D7), Span(270, 307))
  const LargerModule := ParsedModule(FirstFour + [I5] + [I6] + [I7])

  const DefsOfFour := map["private_fn_1" := D1, "private_fn_2" := D2, "crate_fn_1" := D3, "crate_fn_2" := D4]
  const LargerDefinitions := DefsOfFour["public_fn_1" := D5]["public_fn_2" := D6]["public_fn_3" := D7]
  const LargerCalls := map[
    "private_fn_1" := [D5.body[0].kind.expression.call],
    "public_fn_1" := [D6.body[0].kind.expression.call],
    "crate_fn_1" := [D7.body[0].kind.expression.call]]

  lemma FirstFourFacts()
    ensures ItemsFacts(NoFacts, FirstFour) == Completed(Facts(DefsOfFour, map[]))
  {
    var items := FirstFour;
    ItemsFactsSnoc(NoFacts, [], items[0]);
    assert [] + [items[0]] == items[..1];
    ItemsFactsSnoc(NoFacts, items[..1], items[1]);
    assert items[..1] + [items[1]] == items[..2];
    ItemsFactsSnoc(NoFacts, items[..2], items[2]);
    assert items[..2] + [items[2]] == items[..3];
    ItemsFactsSnoc(NoFacts, items[..3], items[3]);
    assert items[..3] + [items[3]] == items;
  }

  lemma LargerModuleFacts()
    ensures ModuleFacts(LargerModule) == Completed(Facts(LargerDefinitions, LargerCalls))
  {
    FirstFourFacts();
    var f4 := Facts(DefsOfFour, map[]);
    var p5 := FirstFour + [I5];
    ItemsFactsSnoc(NoFacts, FirstFour, I5);
    CallFacts(f4, D5, Name("private_fn_1", 190));
    var f5 := ItemsFacts(NoFacts, p5).facts;
    var p6 := p5 + [I6];
    ItemsFactsSnoc(NoFacts, p5, I6);
    CallFacts(f5, D6, Name("public_fn_1", 242));
    var f6 := ItemsFacts(NoFacts, p6).facts;
    ItemsFactsSnoc(NoFacts, p6, I7);
    CallFacts(f6, D7, Name("crate_fn_1", 293));
    var f := ModuleFacts(LargerModule).facts;
    assert f.definitions == LargerDefinitions;
    assert f.calls.Keys == LargerCalls.Keys;
    assert f.calls["private_fn_1"] == LargerCalls["private_fn_1"];
    assert f.calls["public_fn_1"] == LargerCalls["public_fn_1"];
    assert f.calls["crate_fn_1"] == LargerCalls["crate_fn_1"];
  }

  lemma LargerUnusedNames()
    ensures UnusedFunctionLint.UnusedNames(LargerDefinitions, LargerCalls) == {"private_fn_2", "crate_fn_2"}
  {
    assert LargerDefinitions.Keys == {"private_fn_1", "private_fn_2", "crate_fn_1", "crate_fn_2",
                                      "public_fn_1", "public_fn_2", "public_fn_3"};
  }

  /** Exactly `private_fn_2` and `crate_fn_2` are reported, in either order. */
  method LargerExample() returns (lints: seq<Lint>)
    ensures lints == [Unused("private_fn_2", Span(65, 68)), Unused("crate_fn_2", Span(151, 154))]
         || lints == [Unused("crate_fn_2", Span(151, 154)), Unused("private_fn_2", Span(65, 68))]
  {
    var m := LargerModule;
    LargerModuleFacts();
    var f := Facts(LargerDefinitions, LargerCalls);
    var result := AnalyzeWithUnusedFunction(m);
    TraversalProperties.KeysAreNames(m, f);
    LargerUnusedNames();
    UnusedFunctionLint.ReportSize(f.definitions, f.calls, result.lints);
    UnusedFunctionLint.UncalledReportedOnce(f.definitions, f.calls, result.lints, "private_fn_2");
    UnusedFunctionLint.UncalledReportedOnce(f.definitions, f.calls, result.lints, "crate_fn_2");
    lints := result.lints;
  }

  /** `fn main() {}` analyzed with no rules registered: the analysis succeeds with no lints. */
  method ValidFunctionAccepted() returns (result: Analysis)
    ensures result == Ok([])
  {
    var main := FunctionDefinition(Name("main", 16), Private, [], Span(23, 38));
    var m := ParsedModule([Item(ItemKind.Function(main), Span(13, 38))]);
    TraversalProperties.ModuleCompletesIff(m);
    var analyzer := new Analyzer([]);
    result := analyzer.Analyze(m);
  }

  /** `fn foo() {}` and `fn bar() {}`: the context ends up with two definitions. */
  method DefinitionsAddedToContext() returns (ok: bool, count: nat)
    ensures ok && count == 2
  {
    var foo := FunctionDefinition(Name("foo", 16), Private, [], Span(22, 24));
    var bar := FunctionDefinition(Name("bar", 40), Private, [], Span(46, 48));
    var m := ParsedModule([Item(ItemKind.Function(foo), Span(13, 24)), Item(ItemKind.Function(bar), Span(37, 48))]);
    TraversalProperties.ModuleCompletesIff(m);
    var analyzer := new Analyzer([]);
    var result := analyzer.Analyze(m);
    TraversalProperties.DistinctNamesCount(m, ModuleFacts(m).facts);
    ok := result.Ok?;
    count := |analyzer.context.functionDefinitions|;
  }

  /** `fn main() { let x = 1; }`: a `let` statement is not handled, so the analysis stops there. */
  method LetStatementUnsupported() returns (result: Analysis)
    ensures result == Unsupported(UnhandledStatement)
  {
    var main := FunctionDefinition(Name("main", 16), Private, [Statement(LetStatement, Span(25, 35))], Span(23, 37));
    var items := [Item(ItemKind.Function(main), Span(13, 37))];
    var m := ParsedModule(items);
    ItemsFactsSnoc(NoFacts, [], items[0]);
    assert [] + [items[0]] == items;
    assert main.body[..0] == [];
    var analyzer := new Analyzer([UnusedFunction]);
    result := analyzer.Analyze(m);
  }

  /** `pub fn bar() { crate::foo() }`: a `crate::` path is not handled, so the analysis stops there. */
  method CratePathUnsupported() returns (result: Analysis)
    ensures result == Unsupported(UnhandledPath(Crate))
  {
    var foo := FunctionDefinition(Name("foo", 16), Private, [], Span(22, 24));
    var call := CallExpression(Variable(Path(Crate, [Name("foo", 59)])), [], false);
    var bar := FunctionDefinition(Name("bar", 44), Public, [Statement(ExpressionStatement(Call(call)), Span(52, 64))], Span(50, 66));
    var first := [Item(ItemKind.Function(foo), Span(13, 24))];
    var items := first + [Item(ItemKind.Function(bar), Span(37, 66))];
    var m := ParsedModule(items);
    ItemsFactsSnoc(NoFacts, [], first[0]);
    assert [] + [first[0]] == first;
    ItemsFactsSnoc(NoFacts, first, items[1]);
    assert items[1].kind == ItemKind.Function(bar);
    var start := Facts(map["foo" := foo, "bar" := bar], map[]);
    assert bar.body[..0] == [];
    assert FunctionFacts(Facts(map["foo" := foo], map[]), bar) == StatementsFacts(start, bar.body);
    assert StatementsFacts(start, bar.body) == StatementFacts(start, bar.body[0]);
    var analyzer := new Analyzer([UnusedFunction]);
    result := analyzer.Analyze(m);
  }

  /** The lint for an unused `foo` renders as one warning line. */
  method ReportUnusedFoo() returns (lines: seq<string>)
    ensures lines == ["[Warning] unused-function: Function 'foo' is unused"]
  {
    var lint := Unused("foo", Span(22, 24));
    lines := Reporter.Report([lint]);
    UnusedFooLine();
  }

  lemma UnusedFooLine()
    ensures Reporter.RenderLine(Unused("foo", Span(22, 24))) == "[Warning] unused-function: Function 'foo' is unused"
  {
    WarningHeader();
    FooDescription();
    assert "[Warning] unused-function: " + "Function 'foo' is unused" == "[Warning] unused-function: Function 'foo' is unused";
  }

  lemma WarningHeader()
    ensures "[" + Reporter.SeverityLabel(Warning) + "] " + "unused-function" + ": " == "[Warning] unused-function: "
  {
    assert "[" + "Warning" + "] " == "[Warning] ";
    assert "[Warning] " + "unused-function" + ": " == "[Warning] unused-function: ";
  }

  lemma FooDescription()
    ensures "Function '" + "foo" + "' is unused" == "Function 'foo' is unused"
  {
  }

  /** Extending a completed prefix by one item visits just that item. */
  lemma ItemsFactsSnoc(facts: Facts, items: seq<Item>, item: Item)
    requires ItemsFacts(facts, items).Completed?
    ensures ItemsFacts(facts, items + [item]) == ItemFacts(ItemsFacts(facts, items).facts, item)
  {
    assert (items + [item])[..|items|] == items;
  }

  /** A function whose body is the single call `callee()` records itself and files that one call. */
  lemma CallFacts(facts: Facts, def: FunctionDefinition, callee: Ident)
    requires def.body == [CallStatement(callee)]
    ensures FunctionFacts(facts, def) == Completed(Facts(
              facts.definitions[def.name.name := def],
              RecordCall(facts.calls, callee.name, def.body[0].kind.expression.call)))
  {
    var start := facts.(definitions := facts.definitions[def.name.name := def]);
    var s := def.body[0];
    assert def.body[..0] == [];
    assert StatementsFacts(start, def.body) == StatementFacts(start, s);
    TraversalProperties.JoinNamesSingle(callee);
    assert StatementFacts(start, s) == Completed(start.(calls := RecordCall(start.calls, callee.name, s.kind.expression.call)));
  }
}
