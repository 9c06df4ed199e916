/**
 * Properties of a whole pass over a module, followed by the unused-function
 * rule: which definition each name ends up with, which keys the calls are
 * filed under, how many definitions a module of distinct functions leaves,
 * and exactly which functions the rule reports.
 */
module TraversalProperties {
  import opened Wrappers
  import opened Syntax
  import opened Traversal
  import opened UnusedFunctionLint

  // ---------------------------------------------------------------------------
  // The pass from an empty context

  /**
   * After a completed pass over a module, each name maps to its last
   * definition in the module, and each key holds the calls filed under it, in
   * source order; a key is present exactly when some call was filed under it.
   */
  lemma ModuleFactsCharacterized(m: ParsedModule, f: Facts)
    requires ModuleFacts(m) == Completed(f)
    ensures forall n :: Find(f.definitions, n) == LastDefinition(m.items, n)
    ensures forall k :: CallsUnder(f.calls, k) == ItemCalls(m.items, k)
    ensures forall k :: k in f.calls <==> ItemCalls(m.items, k) != []
  {
    ItemsFactsCharacterized(NoFacts, m.items, f);
    forall n ensures Find(f.definitions, n) == LastDefinition(m.items, n) {
      assert Find(f.definitions, n) == ExpectedDefinition(map[], m.items, n);
    }
    forall k ensures CallsUnder(f.calls, k) == ItemCalls(m.items, k) {
      assert CallsUnder(f.calls, k) == CallsUnder(map[], k) + ItemCalls(m.items, k);
    }
  }

  /** Every definition is filed under its own name. */
  lemma KeysAreNames(m: ParsedModule, f: Facts)
    requires ModuleFacts(m) == Completed(f)
    ensures NamesAgree(f.definitions)
  {
    ModuleFactsCharacterized(m, f);
    forall n | n in f.definitions ensures f.definitions[n].name.name == n {
      assert Find(f.definitions, n) == Some(f.definitions[n]);
    }
  }

  // ---------------------------------------------------------------------------
  // When the pass completes

  /** The one statement shape the visitor handles: a non-macro call of a plain variable path. */
  predicate HandledStatement(s: Statement)
  {
    && s.kind.ExpressionStatement?
    && s.kind.expression.Call?
    && !s.kind.expression.call.isMacroCall
    && s.kind.expression.call.func.Variable?
    && s.kind.expression.call.func.path.kind == Plain
  }

  ghost predicate HandledBody(stmts: seq<Statement>)
  {
    forall j :: 0 <= j < |stmts| ==> HandledStatement(stmts[j])
  }

  /** Every item is a function whose body holds only handled statements. */
  ghost predicate HandledItems(items: seq<Item>)
  {
    forall i :: 0 <= i < |items| ==> items[i].kind.Function? && HandledBody(items[i].kind.def.body)
  }

  lemma {:induction false} StatementsCompleteIff(facts: Facts, stmts: seq<Statement>)
    ensures StatementsFacts(facts, stmts).Completed? <==> HandledBody(stmts)
    decreases |stmts|
  {
    if stmts != [] {
      var prefix := stmts[..|stmts| - 1];
      StatementsCompleteIff(facts, prefix);
      assert forall j :: 0 <= j < |prefix| ==> prefix[j] == stmts[j];
      if HandledBody(stmts) {
        assert HandledStatement(stmts[|stmts| - 1]);
      }
    }
  }

  lemma {:induction false} ItemsCompleteIff(facts: Facts, items: seq<Item>)
    ensures ItemsFacts(facts, items).Completed? <==> HandledItems(items)
    decreases |items|
  {
    if items != [] {
      var prefix := items[..|items| - 1];
      var last := items[|items| - 1];
      ItemsCompleteIff(facts, prefix);
      assert forall i :: 0 <= i < |prefix| ==> prefix[i] == items[i];
      var r := ItemsFacts(facts, prefix);
      if r.Completed? && last.kind.Function? {
        var def := last.kind.def;
        StatementsCompleteIff(r.facts.(definitions := r.facts.definitions[def.name.name := def]), def.body);
      }
    }
  }

  /**
   * A pass over a module completes exactly when every item is a function and
   * every statement of every body is a non-macro call of a plain variable
   * path; otherwise it aborts.
   */
  lemma ModuleCompletesIff(m: ParsedModule)
    ensures ModuleFacts(m).Completed? <==> HandledItems(m.items)
  {
    ItemsCompleteIff(NoFacts, m.items);
  }

  // ---------------------------------------------------------------------------
  // Overwrite semantics

  /** A function item that no later function item shares a name with is the one its name ends with. */
  lemma {:induction false} LastDefinitionIsLast(items: seq<Item>, i: nat)
    requires i < |items| && items[i].kind.Function?
    requires forall j :: i < j < |items| && items[j].kind.Function? ==>
               items[j].kind.def.name.name != items[i].kind.def.name.name
    ensures LastDefinition(items, items[i].kind.def.name.name) == Some(items[i].kind.def)
    decreases |items|
  {
    if i < |items| - 1 {
      var prefix := items[..|items| - 1];
      assert prefix[i] == items[i];
      LastDefinitionIsLast(prefix, i);
    }
  }

  /** A name no function item carries has no definition. */
  lemma {:induction false} LastDefinitionAbsent(items: seq<Item>, n: string)
    requires forall i :: 0 <= i < |items| && items[i].kind.Function? ==> items[i].kind.def.name.name != n
    ensures LastDefinition(items, n) == None
    decreases |items|
  {
    if items != [] {
      var prefix := items[..|items| - 1];
      assert forall i :: 0 <= i < |prefix| ==> prefix[i] == items[i];
      LastDefinitionAbsent(prefix, n);
    }
  }

  /** The definition a name ends with is a function item of the module that no later item redefines. */
  lemma {:induction false} LastDefinitionFound(items: seq<Item>, n: string)
    requires LastDefinition(items, n).Some?
    ensures exists i ::
              && 0 <= i < |items| && items[i].kind == Function(LastDefinition(items, n).value)
              && (forall j :: i < j < |items| && items[j].kind.Function? ==> items[j].kind.def.name.name != n)
    decreases |items|
  {
    var last := items[|items| - 1];
    if !(last.kind.Function? && last.kind.def.name.name == n) {
      var prefix := items[..|items| - 1];
      LastDefinitionFound(prefix, n);
      var i :| && 0 <= i < |prefix| && prefix[i].kind == Function(LastDefinition(prefix, n).value)
               && (forall j :: i < j < |prefix| && prefix[j].kind.Function? ==> prefix[j].kind.def.name.name != n);
      assert items[i] == prefix[i];
      assert forall j :: i < j < |prefix| ==> items[j] == prefix[j];
    }
  }

  /**
   * When two function items share a name, the later one's definition is what
   * the context holds after the pass, provided nothing after it reuses the name.
   */
  lemma LaterDefinitionWins(m: ParsedModule, f: Facts, i: nat)
    requires ModuleFacts(m) == Completed(f)
    requires i < |m.items| && m.items[i].kind.Function?
    requires forall j :: i < j < |m.items| && m.items[j].kind.Function? ==>
               m.items[j].kind.def.name.name != m.items[i].kind.def.name.name
    ensures m.items[i].kind.def.name.name in f.definitions
    ensures f.definitions[m.items[i].kind.def.name.name] == m.items[i].kind.def
  {
    ModuleFactsCharacterized(m, f);
    LastDefinitionIsLast(m.items, i);
    assert Find(f.definitions, m.items[i].kind.def.name.name) == Some(m.items[i].kind.def);
  }

  /** Every item is a function and no two share a name. */
  ghost predicate DistinctFunctions(items: seq<Item>)
  {
    && (forall i :: 0 <= i < |items| ==> items[i].kind.Function?)
    && (forall i, j :: 0 <= i < j < |items| && items[i].kind.Function? && items[j].kind.Function? ==>
          items[i].kind.def.name.name != items[j].kind.def.name.name)
  }

  lemma {:induction false} DefinitionCount(f0: Facts, items: seq<Item>, f: Facts)
    requires f0.definitions == map[]
    requires DistinctFunctions(items)
    requires ItemsFacts(f0, items) == Completed(f)
    ensures |f.definitions| == |items|
    decreases |items|
  {
    if items != [] {
      var prefix := items[..|items| - 1];
      assert forall i :: 0 <= i < |prefix| ==> prefix[i] == items[i];
      var g := ItemsFacts(f0, prefix).facts;
      DefinitionCount(f0, prefix, g);
      var def := items[|items| - 1].kind.def;
      FunctionStep(g, def, f);
      ItemsFactsCharacterized(f0, prefix, g);
      LastDefinitionAbsent(prefix, def.name.name);
      assert Find(g.definitions, def.name.name) == ExpectedDefinition(map[], prefix, def.name.name);
      assert def.name.name !in g.definitions;
    }
  }

  /** A module of functions with pairwise distinct names leaves one definition per function. */
  lemma DistinctNamesCount(m: ParsedModule, f: Facts)
    requires ModuleFacts(m) == Completed(f)
    requires DistinctFunctions(m.items)
    ensures |f.definitions| == |m.items|
  {
    DefinitionCount(NoFacts, m.items, f);
  }

  // ---------------------------------------------------------------------------
  // Call keys

  /** The key of a path split in two is the two keys, concatenated. */
  lemma {:induction false} JoinNamesAppend(a: seq<Ident>, b: seq<Ident>)
    ensures JoinNames(a + b) == JoinNames(a) + JoinNames(b)
    decreases |b|
  {
    if b == [] {
      assert a + b == a;
    } else {
      var front := b[..|b| - 1];
      assert (a + b)[..|a + b| - 1] == a + front;
      JoinNamesAppend(a, front);
    }
  }

  /** A single-segment path is filed under the segment's own name. */
  lemma JoinNamesSingle(x: Ident)
    ensures JoinNames([x]) == x.name
  {
    assert [x][..0] == [];
  }

  /**
   * Segments are joined with no separator, so the path `a::b` and the path
   * `ab` share a key.
   */
  lemma KeysCollide(s1: Span, s2: Span, s3: Span)
    ensures JoinNames([Ident("a", s1), Ident("b", s2)]) == JoinNames([Ident("ab", s3)])
  {
    JoinNamesAppend([Ident("a", s1)], [Ident("b", s2)]);
    JoinNamesSingle(Ident("a", s1));
    JoinNamesSingle(Ident("b", s2));
    JoinNamesSingle(Ident("ab", s3));
  }

  /**
   * Only the outermost call of a statement is filed: the arguments are not
   * visited, so `foo(bar())` files one call, under `foo`, and none under `bar`.
   */
  lemma ArgumentsNotVisited(facts: Facts, outer: Ident, inner: Ident, span: Span)
    requires outer.name != inner.name
    ensures var innerCall := CallExpression(Variable(Path(Plain, [inner])), [], false);
            var outerCall := CallExpression(Variable(Path(Plain, [outer])), [Call(innerCall)], false);
            var r := StatementFacts(facts, Statement(ExpressionStatement(Call(outerCall)), span));
            && r.Completed?
            && r.facts.calls.Keys == facts.calls.Keys + {outer.name}
            && CallsUnder(r.facts.calls, inner.name) == CallsUnder(facts.calls, inner.name)
  {
    JoinNamesSingle(outer);
  }

  /** Some statement of `stmts` holds a call filed under `key`. */
  ghost predicate CalledInBody(stmts: seq<Statement>, key: string)
  {
    exists j :: 0 <= j < |stmts| && CallOfStatement(stmts[j], key) != []
  }

  /** Some function body of `items` holds a statement whose call is filed under `key`. */
  ghost predicate CalledIn(items: seq<Item>, key: string)
  {
    exists i :: 0 <= i < |items| && items[i].kind.Function? && CalledInBody(items[i].kind.def.body, key)
  }

  lemma {:induction false} StatementCallsNonEmpty(stmts: seq<Statement>, key: string)
    ensures StatementCalls(stmts, key) != [] <==> CalledInBody(stmts, key)
  {
    if StatementCalls(stmts, key) != [] {
      CallsFoundInBody(stmts, key);
    }
    if CalledInBody(stmts, key) {
      var j :| 0 <= j < |stmts| && CallOfStatement(stmts[j], key) != [];
      BodyCallFound(stmts, key, j);
    }
  }

  lemma {:induction false} CallsFoundInBody(stmts: seq<Statement>, key: string)
    requires StatementCalls(stmts, key) != []
    ensures CalledInBody(stmts, key)
    decreases |stmts|
  {
    var prefix := stmts[..|stmts| - 1];
    if CallOfStatement(stmts[|stmts| - 1], key) == [] {
      assert StatementCalls(prefix, key) != [];
      CallsFoundInBody(prefix, key);
      var j :| 0 <= j < |prefix| && CallOfStatement(prefix[j], key) != [];
      assert stmts[j] == prefix[j];
    }
  }

  lemma {:induction false} BodyCallFound(stmts: seq<Statement>, key: string, j: nat)
    requires j < |stmts| && CallOfStatement(stmts[j], key) != []
    ensures StatementCalls(stmts, key) != []
    decreases |stmts|
  {
    var prefix := stmts[..|stmts| - 1];
    if j < |prefix| {
      assert prefix[j] == stmts[j];
      BodyCallFound(prefix, key, j);
    }
  }

  lemma {:induction false} ItemCallsNonEmpty(items: seq<Item>, key: string)
    ensures ItemCalls(items, key) != [] <==> CalledIn(items, key)
    decreases |items|
  {
    if items != [] {
      var prefix := items[..|items| - 1];
      var last := items[|items| - 1];
      ItemCallsNonEmpty(prefix, key);
      assert forall i :: 0 <= i < |prefix| ==> prefix[i] == items[i];
      var own := if last.kind.Function? then StatementCalls(last.kind.def.body, key) else [];
      assert ItemCalls(items, key) == ItemCalls(prefix, key) + own;
      if last.kind.Function? {
        StatementCallsNonEmpty(last.kind.def.body, key);
      }
      if CalledIn(items, key) && !CalledIn(prefix, key) {
        var i :| 0 <= i < |items| && items[i].kind.Function? && CalledInBody(items[i].kind.def.body, key);
        assert i == |items| - 1;
      }
    }
  }

  /** A key appears in the call map exactly when some function body calls it. */
  lemma CallKeysAreCalls(m: ParsedModule, f: Facts, key: string)
    requires ModuleFacts(m) == Completed(f)
    ensures key in f.calls <==> CalledIn(m.items, key)
  {
    ModuleFactsCharacterized(m, f);
    ItemCallsNonEmpty(m.items, key);
  }

  // ---------------------------------------------------------------------------
  // Pass and rule together

  /**
   * On a completed pass, the unused-function rule reports `n` exactly when the
   * last definition of `n` in the module is not `pub` and no function body
   * of the module calls `n`.
   */
  lemma ReportedIffUncalled(m: ParsedModule, f: Facts, lints: seq<Diagnostic.Lint>, n: string)
    requires ModuleFacts(m) == Completed(f)
    requires IsReport(f.definitions, f.calls, lints)
    ensures (exists i :: 0 <= i < |lints| && lints[i].description == Description(n)) <==>
            && LastDefinition(m.items, n).Some?
            && LastDefinition(m.items, n).value.visibility != Public
            && !CalledIn(m.items, n)
  {
    ModuleFactsCharacterized(m, f);
    KeysAreNames(m, f);
    CallKeysAreCalls(m, f, n);
    var defs := f.definitions;
    if i :| 0 <= i < |lints| && lints[i].description == Description(n) {
      ReportedLintsAreUnused(defs, f.calls, lints, i);
      var n' :| n' in UnusedNames(defs, f.calls) && lints[i] == UnusedLint(defs[n']);
      DescriptionInjective(n', n);
      assert Find(defs, n) == Some(defs[n]);
    }
    if LastDefinition(m.items, n).Some? && LastDefinition(m.items, n).value.visibility != Public
       && !CalledIn(m.items, n) {
      assert Find(defs, n) == LastDefinition(m.items, n);
      UncalledReportedOnce(defs, f.calls, lints, n);
    }
  }
}
