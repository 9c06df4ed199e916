/**
 * The lint-rule interface: a closed set of rules, each with a name, a clone
 * operation and a check over a finished context.
 *
 * The source registers rules as boxed trait objects; since the set of rules is
 * closed, a datatype with one variant per rule takes their place.
 */
module LintRules {
  import opened Diagnostic
  import opened Syntax
  import opened Context
  import UnusedFunctionLint

  datatype LintRule = UnusedFunction
  {
    /** The rule's stable identifier. */
    function Name(): (r: string)
      ensures this == UnusedFunction ==> r == UnusedFunctionLint.RuleName
    {
      match this
      case UnusedFunction => UnusedFunctionLint.RuleName
    }

    /** A fresh instance of the same rule: rules carry no state, so it is the same value. */
    function BoxedClone(): (r: LintRule)
      ensures r == this && r.Name() == Name()
    {
      match this
      case UnusedFunction => UnusedFunction
    }
  }

  /** `lints` is what `rule` may emit for a context holding these maps. */
  ghost predicate IsRuleReport(rule: LintRule, defs: map<string, FunctionDefinition>,
                               calls: map<string, seq<CallExpression>>, lints: seq<Lint>)
  {
    match rule
    case UnusedFunction => UnusedFunctionLint.IsReport(defs, calls, lints)
  }

  /** Runs one rule on a finished context. */
  method RunRule(rule: LintRule, context: AstContext) returns (lints: seq<Lint>)
    ensures IsRuleReport(rule, context.functionDefinitions, context.functionCalls, lints)
    ensures forall l :: l in lints ==> l.name == rule.Name()
  {
    match rule
    case UnusedFunction =>
      lints := UnusedFunctionLint.RunLint(context);
  }

  /**
   * `lints` is the concatenation of one report per rule, in the order the
   * rules were registered.
   */
  ghost predicate IsRulesReport(rules: seq<LintRule>, defs: map<string, FunctionDefinition>,
                                calls: map<string, seq<CallExpression>>, lints: seq<Lint>)
    decreases |rules|
  {
    if rules == [] then lints == []
    else exists k ::
      && 0 <= k <= |lints|
      && IsRulesReport(rules[..|rules| - 1], defs, calls, lints[..k])
      && IsRuleReport(rules[|rules| - 1], defs, calls, lints[k..])
  }

  /** Running one more rule appends its report to the reports of the earlier rules. */
  lemma RulesReportExtend(rules: seq<LintRule>, i: nat, defs: map<string, FunctionDefinition>,
                          calls: map<string, seq<CallExpression>>, lints: seq<Lint>, more: seq<Lint>)
    requires i < |rules|
    requires IsRulesReport(rules[..i], defs, calls, lints)
    requires IsRuleReport(rules[i], defs, calls, more)
    ensures IsRulesReport(rules[..i + 1], defs, calls, lints + more)
  {
    var all := lints + more;
    assert rules[..i + 1][..i] == rules[..i];
    assert all[..|lints|] == lints;
    assert all[|lints|..] == more;
  }

  /** With only the unused-function rule registered, the result is exactly that rule's report. */
  lemma SingleRuleReport(defs: map<string, FunctionDefinition>, calls: map<string, seq<CallExpression>>, lints: seq<Lint>)
    requires IsRulesReport([UnusedFunction], defs, calls, lints)
    ensures UnusedFunctionLint.IsReport(defs, calls, lints)
  {
    var k :| 0 <= k <= |lints| && IsRulesReport([], defs, calls, lints[..k])
      && IsRuleReport(UnusedFunction, defs, calls, lints[k..]);
    assert lints[..k] == [];
    assert lints[k..] == lints;
  }
}
