/**
 * The `unused-function` rule.
 *
 * For every recorded function definition that is not `pub` and whose name is
 * not a key of the call map, the rule emits one warning naming the function
 * and pointing at the location recorded for its definition. It walks the
 * definition map in the map's own iteration order, which is unspecified; the
 * model picks the next name arbitrarily and its contract holds for every order.
 */
module UnusedFunctionLint {
  import opened Wrappers
  import opened Syntax
  import opened Diagnostic
  import opened Context

  /** The rule's stable identifier, carried by every lint it emits. */
  const RuleName := "unused-function"

  function Description(name: string): string
  {
    "Function '" + name + "' is unused"
  }

  /** The lint emitted for an unused definition. */
  function UnusedLint(def: FunctionDefinition): Lint
  {
    Lint(RuleName, Warning, Description(def.name.name), Some(def.location))
  }

  /** The names the rule reports: defined, not `pub`, and never called. */
  function UnusedNames(defs: map<string, FunctionDefinition>, calls: map<string, seq<CallExpression>>): set<string>
  {
    set n | n in defs && defs[n].visibility != Public && n !in calls
  }

  /** Every definition is filed under its own name, as the traversal files them. */
  ghost predicate NamesAgree(defs: map<string, FunctionDefinition>)
  {
    forall n :: n in defs ==> defs[n].name.name == n
  }

  ghost predicate Distinct(s: seq<string>)
  {
    forall i, j :: 0 <= i < j < |s| ==> s[i] != s[j]
  }

  /** `order` lists every element of `names` exactly once. */
  ghost predicate Enumerates(order: seq<string>, names: set<string>)
  {
    Distinct(order) && forall n :: n in order <==> n in names
  }

  /** `lints` is the rule's output when it meets the unused names in the order `order`. */
  ghost predicate Explains(defs: map<string, FunctionDefinition>, calls: map<string, seq<CallExpression>>,
                           order: seq<string>, lints: seq<Lint>)
  {
    && Enumerates(order, UnusedNames(defs, calls))
    && |lints| == |order|
    && forall i :: 0 <= i < |order| ==> order[i] in defs && lints[i] == UnusedLint(defs[order[i]])
  }

  /** `lints` is what the rule emits for these maps, in some iteration order. */
  ghost predicate IsReport(defs: map<string, FunctionDefinition>, calls: map<string, seq<CallExpression>>, lints: seq<Lint>)
  {
    exists order :: Explains(defs, calls, order, lints)
  }

  /**
   * Runs the rule over a finished context. It only reads the context.
   */
  method RunLint(context: AstContext) returns (lints: seq<Lint>)
    ensures IsReport(context.functionDefinitions, context.functionCalls, lints)
    ensures forall l :: l in lints ==> l.name == RuleName && l.severity == Warning && l.span.Some?
  {
    var defs := context.functionDefinitions;
    var calls := context.functionCalls;
    var remaining := defs.Keys;
    ghost var order: seq<string> := [];
    lints := [];
    while remaining != {}
      invariant remaining <= defs.Keys
      invariant Distinct(order)
      invariant forall n :: n in order <==> n in UnusedNames(defs, calls) && n !in remaining
      invariant |lints| == |order|
      invariant forall i :: 0 <= i < |order| ==> order[i] in defs && lints[i] == UnusedLint(defs[order[i]])
      decreases remaining
    {
      var name :| name in remaining;
      var def := defs[name];
      if def.visibility != Public && name !in calls {
        lints := lints + [Lint(RuleName, Warning, "Function '" + def.name.name + "' is unused", Some(def.location))];
        order := order + [name];
      }
      remaining := remaining - {name};
    }
    assert Explains(defs, calls, order, lints);
  }

  // ---------------------------------------------------------------------------
  // Properties of every report

  /** Different function names give different descriptions. */
  lemma DescriptionInjective(a: string, b: string)
    requires Description(a) == Description(b)
    ensures a == b
  {
    assert |a| == |b|;
    assert Description(a)[10..10 + |a|] == a;
    assert Description(b)[10..10 + |b|] == b;
  }

  /** A duplicate-free listing of a set is as long as the set is large. */
  lemma {:induction false} EnumerationSize(order: seq<string>, names: set<string>)
    requires Enumerates(order, names)
    ensures |order| == |names|
    decreases |order|
  {
    if order != [] {
      var last := order[|order| - 1];
      var prefix := order[..|order| - 1];
      assert forall n :: n in prefix <==> n in names - {last} by {
        forall n ensures n in prefix <==> n in names - {last} {
          if n in prefix {
            var i :| 0 <= i < |prefix| && prefix[i] == n;
            assert order[i] == n && order[|order| - 1] == last;
          }
          if n in names - {last} {
            assert n in order;
            var i :| 0 <= i < |order| && order[i] == n;
            assert i != |order| - 1;
            assert prefix[i] == n;
          }
        }
      }
      EnumerationSize(prefix, names - {last});
    } else {
      assert forall n :: n !in names;
      assert names == {};
    }
  }

  /** The rule emits exactly as many lints as there are unused names. */
  lemma ReportSize(defs: map<string, FunctionDefinition>, calls: map<string, seq<CallExpression>>, lints: seq<Lint>)
    requires IsReport(defs, calls, lints)
    ensures |lints| == |UnusedNames(defs, calls)|
  {
    var order :| Explains(defs, calls, order, lints);
    EnumerationSize(order, UnusedNames(defs, calls));
  }

  /** A lint the report emitted for a name other than `n` does not describe `n`. */
  lemma LintAboutOtherName(defs: map<string, FunctionDefinition>, calls: map<string, seq<CallExpression>>,
                           order: seq<string>, lints: seq<Lint>, n: string, i: int)
    requires Explains(defs, calls, order, lints) && NamesAgree(defs)
    requires 0 <= i < |lints| && order[i] != n
    ensures lints[i].description != Description(n)
  {
    if lints[i].description == Description(n) {
      assert lints[i].description == Description(order[i]);
      DescriptionInjective(order[i], n);
    }
  }

  /** A `pub` function is never reported, whatever the calls. */
  lemma PublicNotReported(defs: map<string, FunctionDefinition>, calls: map<string, seq<CallExpression>>,
                          lints: seq<Lint>, n: string)
    requires IsReport(defs, calls, lints) && NamesAgree(defs)
    requires n in defs && defs[n].visibility == Public
    ensures forall i :: 0 <= i < |lints| ==> lints[i].description != Description(n)
  {
    var order :| Explains(defs, calls, order, lints);
    forall i | 0 <= i < |lints| ensures lints[i].description != Description(n) {
      assert order[i] in order;
      LintAboutOtherName(defs, calls, order, lints, n, i);
    }
  }

  /** A function whose name is a key of the call map is never reported. */
  lemma CalledNotReported(defs: map<string, FunctionDefinition>, calls: map<string, seq<CallExpression>>,
                          lints: seq<Lint>, n: string)
    requires IsReport(defs, calls, lints) && NamesAgree(defs)
    requires n in calls
    ensures forall i :: 0 <= i < |lints| ==> lints[i].description != Description(n)
  {
    var order :| Explains(defs, calls, order, lints);
    forall i | 0 <= i < |lints| ensures lints[i].description != Description(n) {
      assert order[i] in order;
      LintAboutOtherName(defs, calls, order, lints, n, i);
    }
  }

  /**
   * A function that is not `pub` (including `pub(crate)`) and never called is
   * reported exactly once, by the lint naming it and pointing at its location.
   */
  lemma UncalledReportedOnce(defs: map<string, FunctionDefinition>, calls: map<string, seq<CallExpression>>,
                             lints: seq<Lint>, n: string)
    requires IsReport(defs, calls, lints) && NamesAgree(defs)
    requires n in defs && defs[n].visibility != Public && n !in calls
    ensures exists i ::
              && 0 <= i < |lints| && lints[i] == UnusedLint(defs[n])
              && (forall j :: 0 <= j < |lints| && lints[j].description == Description(n) ==> j == i)
  {
    var order :| Explains(defs, calls, order, lints);
    assert n in UnusedNames(defs, calls);
    var i :| 0 <= i < |order| && order[i] == n;
    forall j | 0 <= j < |lints| && lints[j].description == Description(n) ensures j == i {
      if order[j] != n {
        LintAboutOtherName(defs, calls, order, lints, n, j);
      }
    }
  }

  /** Each lint of a report is a warning named `unused-function` about some unused definition. */
  lemma ReportedLintsAreUnused(defs: map<string, FunctionDefinition>, calls: map<string, seq<CallExpression>>,
                               lints: seq<Lint>, i: int)
    requires IsReport(defs, calls, lints)
    requires 0 <= i < |lints|
    ensures exists n :: n in UnusedNames(defs, calls) && lints[i] == UnusedLint(defs[n])
  {
    var order :| Explains(defs, calls, order, lints);
    assert order[i] in order;
  }
}
