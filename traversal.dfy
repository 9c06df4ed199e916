/**
 * What one traversal pass computes, stated as functions.
 *
 * The analyzer's visitor walks the items of a module in order, records each
 * function definition under its name and, inside each body, files every call
 * whose callee is a plain variable path under the concatenation of the path's
 * segment names. Any construct it does not handle aborts the pass. The
 * functions below compute the same facts from an initial set of facts; the
 * lemmas relate them to independent descriptions of the result (the last
 * definition of each name, the calls of each key in source order).
 */
module Traversal {
  import opened Wrappers
  import opened Syntax

  /** The constructs whose visit is not implemented: reaching one aborts the pass. */
  datatype Unhandled =
    | UnhandledItem
    | MacroCall
    | UnhandledCallee
    | UnhandledExpression
    | UnhandledStatement
    | UnhandledPath(kind: PathKind)

  /** The contents of the analysis context's two maps. */
  datatype Facts = Facts(definitions: map<string, FunctionDefinition>, calls: map<string, seq<CallExpression>>)

  /** A traversal either completes with the facts it gathered or aborts at an unhandled construct. */
  datatype Outcome = Completed(facts: Facts) | Aborted(what: Unhandled)

  const NoFacts := Facts(map[], map[])

  /** The callee key of a path: its segment names concatenated with no separator. */
  function JoinNames(idents: seq<Ident>): string
    decreases |idents|
  {
    if idents == [] then "" else JoinNames(idents[..|idents| - 1]) + idents[|idents| - 1].name
  }

  /** The calls filed under `key`, the empty list when there is no entry. */
  function CallsUnder(calls: map<string, seq<CallExpression>>, key: string): seq<CallExpression>
  {
    if key in calls then calls[key] else []
  }

  /** Appends `call` to the list under `key`, creating the entry when it is absent. */
  function RecordCall(calls: map<string, seq<CallExpression>>, key: string, call: CallExpression): (r: map<string, seq<CallExpression>>)
    ensures r.Keys == calls.Keys + {key}
    ensures r[key] == CallsUnder(calls, key) + [call]
    ensures forall k :: k in calls && k != key ==> r[k] == calls[k]
  {
    calls[key := CallsUnder(calls, key) + [call]]
  }

  /** Visiting an expression statement: only a non-macro call of a plain variable path is handled. */
  function ExpressionFacts(facts: Facts, e: Expression): Outcome
  {
    match e
    case Call(call) =>
      if call.isMacroCall then Aborted(MacroCall)
      else (
        match call.func
        case Variable(path) =>
          if path.kind != Plain then Aborted(UnhandledPath(path.kind))
          else Completed(facts.(calls := RecordCall(facts.calls, JoinNames(path.segments), call)))
        case _ => Aborted(UnhandledCallee))
    case _ => Aborted(UnhandledExpression)
  }

  function StatementFacts(facts: Facts, s: Statement): Outcome
  {
    match s.kind
    case ExpressionStatement(e) => ExpressionFacts(facts, e)
    case _ => Aborted(UnhandledStatement)
  }

  /** The statements of a body, in order; the first abort ends the pass. */
  function StatementsFacts(facts: Facts, stmts: seq<Statement>): Outcome
    decreases |stmts|
  {
    if stmts == [] then Completed(facts)
    else match StatementsFacts(facts, stmts[..|stmts| - 1])
      case Completed(g) => StatementFacts(g, stmts[|stmts| - 1])
      case Aborted(w) => Aborted(w)
  }

  /** Records the definition under its name, replacing any earlier one, then visits the body. */
  function FunctionFacts(facts: Facts, def: FunctionDefinition): Outcome
  {
    StatementsFacts(facts.(definitions := facts.definitions[def.name.name := def]), def.body)
  }

  function ItemFacts(facts: Facts, item: Item): Outcome
  {
    match item.kind
    case Function(def) => FunctionFacts(facts, def)
    case OtherItem => Aborted(UnhandledItem)
  }

  /** The items of a module, in order; the first abort ends the pass. */
  function ItemsFacts(facts: Facts, items: seq<Item>): Outcome
    decreases |items|
  {
    if items == [] then Completed(facts)
    else match ItemsFacts(facts, items[..|items| - 1])
      case Completed(g) => ItemFacts(g, items[|items| - 1])
      case Aborted(w) => Aborted(w)
  }

  /** One pass over a module, from an empty context. */
  function ModuleFacts(m: ParsedModule): Outcome
  {
    ItemsFacts(NoFacts, m.items)
  }

  // ---------------------------------------------------------------------------
  // Reference descriptions of the result

  /** The call a statement contributes under `key`: a one-element list or nothing. */
  function CallOfStatement(s: Statement, key: string): seq<CallExpression>
  {
    match s.kind
    case ExpressionStatement(Call(call)) =>
      if !call.isMacroCall && call.func.Variable? && call.func.path.kind == Plain
         && JoinNames(call.func.path.segments) == key
      then [call] else []
    case _ => []
  }

  /** The calls filed under `key` by a sequence of statements, in order. */
  function StatementCalls(stmts: seq<Statement>, key: string): seq<CallExpression>
    decreases |stmts|
  {
    if stmts == [] then []
    else StatementCalls(stmts[..|stmts| - 1], key) + CallOfStatement(stmts[|stmts| - 1], key)
  }

  /** The calls filed under `key` by the bodies of the functions among `items`, in order. */
  function ItemCalls(items: seq<Item>, key: string): seq<CallExpression>
    decreases |items|
  {
    if items == [] then []
    else
      var last := items[|items| - 1];
      ItemCalls(items[..|items| - 1], key)
      + (if last.kind.Function? then StatementCalls(last.kind.def.body, key) else [])
  }

  /** The last function among `items` named `name`. */
  function LastDefinition(items: seq<Item>, name: string): (r: Option<FunctionDefinition>)
    ensures r.Some? ==> r.value.name.name == name
    decreases |items|
  {
    if items == [] then None
    else
      var last := items[|items| - 1];
      if last.kind.Function? && last.kind.def.name.name == name then Some(last.kind.def)
      else LastDefinition(items[..|items| - 1], name)
  }

  // ---------------------------------------------------------------------------
  // Lemmas

  /** Once a prefix of the statements aborts, the whole sequence aborts the same way. */
  lemma {:induction false} StatementsAbortPersists(facts: Facts, stmts: seq<Statement>, k: nat)
    requires k <= |stmts|
    requires StatementsFacts(facts, stmts[..k]).Aborted?
    ensures StatementsFacts(facts, stmts) == StatementsFacts(facts, stmts[..k])
    decreases |stmts|
  {
    if k < |stmts| {
      var prefix := stmts[..|stmts| - 1];
      assert prefix[..k] == stmts[..k];
      StatementsAbortPersists(facts, prefix, k);
    } else {
      assert stmts[..k] == stmts;
    }
  }

  /** Once a prefix of the items aborts, the whole module aborts the same way. */
  lemma {:induction false} ItemsAbortPersists(facts: Facts, items: seq<Item>, k: nat)
    requires k <= |items|
    requires ItemsFacts(facts, items[..k]).Aborted?
    ensures ItemsFacts(facts, items) == ItemsFacts(facts, items[..k])
    decreases |items|
  {
    if k < |items| {
      var prefix := items[..|items| - 1];
      assert prefix[..k] == items[..k];
      ItemsAbortPersists(facts, prefix, k);
    } else {
      assert items[..k] == items;
    }
  }

  /** After a completed prefix of the statements, the next statement is visited from its facts. */
  lemma StatementsFactsNext(facts: Facts, stmts: seq<Statement>, i: nat, g: Facts)
    requires i < |stmts|
    requires StatementsFacts(facts, stmts[..i]) == Completed(g)
    ensures StatementsFacts(facts, stmts[..i + 1]) == StatementFacts(g, stmts[i])
  {
    assert stmts[..i + 1][..i] == stmts[..i];
  }

  /** After a completed prefix of the items, the next item is visited from its facts. */
  lemma ItemsFactsNext(facts: Facts, items: seq<Item>, i: nat, g: Facts)
    requires i < |items|
    requires ItemsFacts(facts, items[..i]) == Completed(g)
    ensures ItemsFacts(facts, items[..i + 1]) == ItemFacts(g, items[i])
  {
    assert items[..i + 1][..i] == items[..i];
  }

  /** A handled statement leaves the definitions alone and files its one call. */
  lemma StatementStep(g: Facts, s: Statement, f: Facts)
    requires StatementFacts(g, s) == Completed(f)
    ensures f.definitions == g.definitions
    ensures forall k :: CallsUnder(f.calls, k) == CallsUnder(g.calls, k) + CallOfStatement(s, k)
    ensures forall k :: k in f.calls <==> k in g.calls || CallOfStatement(s, k) != []
  {
    var call := s.kind.expression.call;
    var key := JoinNames(call.func.path.segments);
    assert f.calls == RecordCall(g.calls, key, call);
    forall k
      ensures CallsUnder(f.calls, k) == CallsUnder(g.calls, k) + CallOfStatement(s, k)
      ensures k in f.calls <==> k in g.calls || CallOfStatement(s, k) != []
    {
      if k == key {
        assert CallOfStatement(s, k) == [call];
      } else {
        assert CallOfStatement(s, k) == [];
      }
    }
  }

  /**
   * The statements of a body leave the definitions alone and file exactly their
   * own tracked calls, in order, after the calls already there.
   */
  lemma {:induction false} StatementsFactsCharacterized(f0: Facts, stmts: seq<Statement>, f: Facts)
    requires StatementsFacts(f0, stmts) == Completed(f)
    ensures f.definitions == f0.definitions
    ensures forall k :: CallsUnder(f.calls, k) == CallsUnder(f0.calls, k) + StatementCalls(stmts, k)
    ensures forall k :: k in f.calls <==> k in f0.calls || StatementCalls(stmts, k) != []
    decreases |stmts|
  {
    if stmts != [] {
      var prefix := stmts[..|stmts| - 1];
      var s := stmts[|stmts| - 1];
      var g := StatementsFacts(f0, prefix).facts;
      StatementsFactsCharacterized(f0, prefix, g);
      StatementStep(g, s, f);
      forall k
        ensures CallsUnder(f.calls, k) == CallsUnder(f0.calls, k) + StatementCalls(stmts, k)
        ensures k in f.calls <==> k in f0.calls || StatementCalls(stmts, k) != []
      {
        assert StatementCalls(stmts, k) == StatementCalls(prefix, k) + CallOfStatement(s, k);
        AppendStep(CallsUnder(f0.calls, k), CallsUnder(g.calls, k), CallsUnder(f.calls, k),
                   StatementCalls(prefix, k), CallOfStatement(s, k));
      }
    }
  }

  /**
   * A function definition replaces the entry for its name and files the
   * tracked calls of its body.
   */
  lemma FunctionStep(g: Facts, def: FunctionDefinition, f: Facts)
    requires FunctionFacts(g, def) == Completed(f)
    ensures f.definitions == g.definitions[def.name.name := def]
    ensures forall k :: CallsUnder(f.calls, k) == CallsUnder(g.calls, k) + StatementCalls(def.body, k)
    ensures forall k :: k in f.calls <==> k in g.calls || StatementCalls(def.body, k) != []
  {
    StatementsFactsCharacterized(g.(definitions := g.definitions[def.name.name := def]), def.body, f);
  }

  /** The definition `name` has after a pass over `items` that started from `defs`. */
  function ExpectedDefinition(defs: map<string, FunctionDefinition>, items: seq<Item>, name: string): Option<FunctionDefinition>
  {
    if LastDefinition(items, name).Some? then LastDefinition(items, name) else Find(defs, name)
  }

  ghost predicate DefinitionsAgree(defs0: map<string, FunctionDefinition>, items: seq<Item>, defs: map<string, FunctionDefinition>)
  {
    forall n :: Find(defs, n) == ExpectedDefinition(defs0, items, n)
  }

  ghost predicate CallsAgree(calls0: map<string, seq<CallExpression>>, items: seq<Item>, calls: map<string, seq<CallExpression>>)
  {
    && (forall k :: CallsUnder(calls, k) == CallsUnder(calls0, k) + ItemCalls(items, k))
    && (forall k :: k in calls <==> k in calls0 || ItemCalls(items, k) != [])
  }

  /** One more function item: its name now maps to it, every other name is as before. */
  lemma DefinitionsStep(defs0: map<string, FunctionDefinition>, items: seq<Item>,
                        defs: map<string, FunctionDefinition>, def: FunctionDefinition)
    requires items != [] && items[|items| - 1].kind == Function(def)
    requires DefinitionsAgree(defs0, items[..|items| - 1], defs)
    ensures DefinitionsAgree(defs0, items, defs[def.name.name := def])
  {
    var prefix := items[..|items| - 1];
    var defs' := defs[def.name.name := def];
    forall n
      ensures Find(defs', n) == ExpectedDefinition(defs0, items, n)
    {
      if n == def.name.name {
        assert LastDefinition(items, n) == Some(def);
      } else {
        assert LastDefinition(items, n) == LastDefinition(prefix, n);
        assert Find(defs', n) == Find(defs, n);
        assert Find(defs, n) == ExpectedDefinition(defs0, prefix, n);
      }
    }
  }

  /** One more function item: every key gains the tracked calls of its body. */
  lemma CallsStep(calls0: map<string, seq<CallExpression>>, items: seq<Item>,
                  calls: map<string, seq<CallExpression>>, calls': map<string, seq<CallExpression>>)
    requires items != [] && items[|items| - 1].kind.Function?
    requires CallsAgree(calls0, items[..|items| - 1], calls)
    requires var body := items[|items| - 1].kind.def.body;
      && (forall k :: CallsUnder(calls', k) == CallsUnder(calls, k) + StatementCalls(body, k))
      && (forall k :: k in calls' <==> k in calls || StatementCalls(body, k) != [])
    ensures CallsAgree(calls0, items, calls')
  {
    var body := items[|items| - 1].kind.def.body;
    var prefix := items[..|items| - 1];
    forall k
      ensures CallsUnder(calls', k) == CallsUnder(calls0, k) + ItemCalls(items, k)
      ensures k in calls' <==> k in calls0 || ItemCalls(items, k) != []
    {
      assert ItemCalls(items, k) == ItemCalls(prefix, k) + StatementCalls(body, k);
      AppendStep(CallsUnder(calls0, k), CallsUnder(calls, k), CallsUnder(calls', k),
                 ItemCalls(prefix, k), StatementCalls(body, k));
    }
  }

  /** Appending `p` and then `b` is appending `p + b`; the result is empty only if both are. */
  lemma AppendStep(before: seq<CallExpression>, mid: seq<CallExpression>, after: seq<CallExpression>,
                   p: seq<CallExpression>, b: seq<CallExpression>)
    requires mid == before + p && after == mid + b
    ensures after == before + (p + b)
    ensures p + b != [] <==> p != [] || b != []
  {
  }

  /**
   * After a completed pass over `items`, every name maps to its last definition
   * among the items (or to its earlier entry if the items define none), and
   * every key holds the calls found before the pass followed by the calls of
   * the items, in source order.
   */
  lemma {:induction false} ItemsFactsCharacterized(f0: Facts, items: seq<Item>, f: Facts)
    requires ItemsFacts(f0, items) == Completed(f)
    ensures DefinitionsAgree(f0.definitions, items, f.definitions)
    ensures CallsAgree(f0.calls, items, f.calls)
    decreases |items|
  {
    if items != [] {
      var prefix := items[..|items| - 1];
      var g := ItemsFacts(f0, prefix).facts;
      ItemsFactsCharacterized(f0, prefix, g);
      var def := items[|items| - 1].kind.def;
      FunctionStep(g, def, f);
      DefinitionsStep(f0.definitions, items, g.definitions, def);
      CallsStep(f0.calls, items, g.calls, f.calls);
    }
  }
}
