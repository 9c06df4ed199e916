/**
 * The analyzer: one traversal of a parsed module that fills a fresh context,
 * followed by every registered rule, in registration order.
 *
 * The visitor keeps a stack of frames. Each visit that handles a construct
 * pushes a frame on entry and truncates the stack back to its entry depth on
 * exit; visiting a plain path pushes the path's identifiers, which the call
 * visit reads off the top of the stack to form the callee key. A visit that
 * reaches a construct it does not handle aborts the whole pass.
 */
module AstAnalyzer {
  import opened Wrappers
  import opened Syntax
  import opened Diagnostic
  import opened Context
  import opened Traversal
  import opened LintRules

  datatype AnalyzerError =
    | ParsingError(errors: seq<string>)
    | GenericError(message: string)
    | FileReadError(path: string, message: string)

  /** What `Analyze` ends with: the lints, an error, or an abort at an unhandled construct. */
  datatype Analysis = Ok(lints: seq<Lint>) | Err(error: AnalyzerError) | Unsupported(what: Unhandled)

  /** A traversal frame. */
  datatype StackItem = Module | Identifiers(idents: seq<Ident>) | Function | FunctionCall

  /** What a visit returns: the visitor's boolean, or an abort at an unhandled construct. */
  datatype Control = Proceed(ok: bool) | Abort(what: Unhandled)

  /** The traversal outcome a visit's result and the context's new contents stand for. */
  function AsOutcome(c: Control, facts: Facts): Outcome
  {
    match c
    case Proceed(_) => Completed(facts)
    case Abort(what) => Aborted(what)
  }

  class Analyzer {
    var context: AstContext?
    var lintRules: seq<LintRule>
    var stack: seq<StackItem>

    /** An analyzer with no context yet, holding a clone of each given rule, in order. */
    constructor (lints: seq<LintRule>)
      ensures context == null && stack == []
      ensures |lintRules| == |lints|
      ensures forall i :: 0 <= i < |lints| ==> lintRules[i] == lints[i].BoxedClone()
    {
      context := null;
      lintRules := seq(|lints|, i requires 0 <= i < |lints| => lints[i].BoxedClone());
      stack := [];
    }

    /** The current contents of the context's maps. */
    ghost function Facts(): Facts
      reads this, context
      requires context != null
    {
      Traversal.Facts(context.functionDefinitions, context.functionCalls)
    }

    /**
     * Installs a fresh context, traverses the module and, if the traversal
     * succeeds, runs every rule once on the finished context and concatenates
     * their lints in registration order.
     */
    method Analyze(parsedModule: ParsedModule) returns (result: Analysis)
      modifies this
      ensures context != null && fresh(context) && context.parsedModule == parsedModule
      ensures lintRules == old(lintRules)
      ensures !result.Err?
      ensures ModuleFacts(parsedModule).Aborted? ==> result == Unsupported(ModuleFacts(parsedModule).what)
      ensures ModuleFacts(parsedModule).Completed? ==>
        && Facts() == ModuleFacts(parsedModule).facts
        && result.Ok?
        && IsRulesReport(lintRules, context.functionDefinitions, context.functionCalls, result.lints)
    {
      var ctx := new AstContext(parsedModule);
      context := ctx;
      var visited := VisitParsedModule(parsedModule);
      if visited.Abort? {
        return Unsupported(visited.what);
      }
      if visited.ok {
        var defs, calls := ctx.functionDefinitions, ctx.functionCalls;
        var lints: seq<Lint> := [];
        var i := 0;
        while i < |lintRules|
          invariant 0 <= i <= |lintRules|
          invariant context == ctx && lintRules == old(lintRules)
          invariant ctx.functionDefinitions == defs && ctx.functionCalls == calls
          invariant IsRulesReport(lintRules[..i], defs, calls, lints)
        {
          var more := RunRule(lintRules[i], ctx);
          RulesReportExtend(lintRules, i, defs, calls, lints, more);
          lints := lints + more;
          i := i + 1;
        }
        assert lintRules[..i] == lintRules;
        result := Ok(lints);
      } else {
        result := Err(GenericError("AST traversal failed"));
      }
    }

    /**
     * Pushes a module frame and visits the items in order, stopping at the
     * first visit that returns false; on success the stack is emptied.
     */
    method VisitParsedModule(parsedModule: ParsedModule) returns (c: Control)
      requires context != null
      modifies this`stack, context
      ensures ItemsFacts(old(Facts()), parsedModule.items) == AsOutcome(c, Facts())
      ensures c.Proceed? ==> c.ok && stack == []
    {
      var items := parsedModule.items;
      stack := stack + [Module];
      var i := 0;
      var ok := true;
      while i < |items| && ok
        invariant 0 <= i <= |items|
        invariant ok
        invariant ItemsFacts(old(Facts()), items[..i]) == Completed(Facts())
      {
        ghost var before := Facts();
        var r := VisitItem(items[i]);
        ItemsFactsNext(old(Facts()), items, i, before);
        if r.Abort? {
          ItemsAbortPersists(old(Facts()), items, i + 1);
          return r;
        }
        ok := r.ok;
        i := i + 1;
      }
      assert items[..i] == items;
      if ok {
        stack := [];
      }
      c := Proceed(ok);
    }

    /** Only function items are handled. */
    method VisitItem(item: Item) returns (c: Control)
      requires context != null
      modifies this`stack, context
      ensures ItemFacts(old(Facts()), item) == AsOutcome(c, Facts())
      ensures c.Proceed? ==> c.ok && stack == old(stack)
      ensures c.Abort? && !item.kind.Function? ==> Facts() == old(Facts())
    {
      match item.kind
      case Function(def) =>
        c := VisitNoirFunction(def);
      case OtherItem =>
        c := Abort(UnhandledItem);
    }

    /**
     * Records the definition under its name, replacing any earlier entry, then
     * visits the statements of the body in order; the stack ends at its entry depth.
     */
    method VisitNoirFunction(def: FunctionDefinition) returns (c: Control)
      requires context != null
      modifies this`stack, context
      ensures FunctionFacts(old(Facts()), def) == AsOutcome(c, Facts())
      ensures c.Proceed? ==> c.ok && stack == old(stack)
    {
      var depth := |stack|;
      stack := stack + [StackItem.Function];
      context.functionDefinitions := context.functionDefinitions[def.name.name := def];
      ghost var start := Facts();
      var i := 0;
      while i < |def.body|
        invariant 0 <= i <= |def.body|
        invariant stack == old(stack) + [StackItem.Function]
        invariant StatementsFacts(start, def.body[..i]) == Completed(Facts())
      {
        ghost var before := Facts();
        var r := VisitStatement(def.body[i]);
        StatementsFactsNext(start, def.body, i, before);
        if r.Abort? {
          StatementsAbortPersists(start, def.body, i + 1);
          return r;
        }
        i := i + 1;
      }
      assert def.body[..i] == def.body;
      stack := stack[..depth];
      c := Proceed(true);
    }

    /** Only expression statements are handled. */
    method VisitStatement(s: Statement) returns (c: Control)
      requires context != null
      modifies this`stack, context
      ensures StatementFacts(old(Facts()), s) == AsOutcome(c, Facts())
      ensures c.Proceed? ==> c.ok && stack == old(stack)
      ensures c.Abort? ==> Facts() == old(Facts())
    {
      match s.kind
      case ExpressionStatement(e) =>
        c := VisitExpression(e);
      case _ =>
        c := Abort(UnhandledStatement);
    }

    /**
     * Only a non-macro call whose callee is a variable is handled: the callee
     * path is visited, its identifiers are read off the top of the stack, and
     * the call is appended under their concatenated names. The stack ends at
     * its entry depth.
     */
    method VisitExpression(e: Expression) returns (c: Control)
      requires context != null
      modifies this`stack, context
      ensures ExpressionFacts(old(Facts()), e) == AsOutcome(c, Facts())
      ensures c.Proceed? ==> c.ok && stack == old(stack)
      ensures c.Abort? ==> Facts() == old(Facts())
    {
      var depth := |stack|;
      stack := stack + [FunctionCall];
      match e
      case Call(call) =>
        if call.isMacroCall {
          return Abort(MacroCall);
        }
        match call.func {
          case Variable(path) =>
            c := VisitPath(path);
            if c.Abort? {
              return;
            }
            if |stack| > 0 && stack[|stack| - 1].Identifiers? {
              var key := JoinNames(stack[|stack| - 1].idents);
              var calls := context.functionCalls;
              var entry := if key in calls then calls[key] else [];
              context.functionCalls := calls[key := entry + [call]];
            } else {
              assert false;
            }
            stack := stack[..depth];
            c := Proceed(true);
          case _ =>
            c := Abort(UnhandledCallee);
        }
      case _ =>
        c := Abort(UnhandledExpression);
    }

    /** A plain path pushes exactly one frame holding its identifiers, in path order. */
    method VisitPath(path: Path) returns (c: Control)
      modifies this`stack
      ensures c.Proceed? <==> path.kind == Plain
      ensures c.Proceed? ==> c.ok && stack == old(stack) + [Identifiers(path.segments)]
      ensures c.Abort? ==> c.what == UnhandledPath(path.kind) && stack == old(stack)
    {
      match path.kind
      case Plain =>
        stack := stack + [Identifiers(path.segments)];
        c := Proceed(true);
      case _ =>
        c := Abort(UnhandledPath(path.kind));
    }
  }
}
