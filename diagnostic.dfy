/**
 * The diagnostic record every lint rule produces.
 *
 * Lints are plain values: two lints with the same fields are equal, which is
 * what lets callers compare a rule's output with an expected lint.
 */
module Diagnostic {
  import opened Syntax
  import opened Wrappers

  /** How serious a finding is. */
  datatype Severity = Warning | Error

  /**
   * One finding: the rule's stable name, its severity, a human-readable
   * description and, optionally, the span it points at.
   */
  datatype Lint = Lint(name: string, severity: Severity, description: string, span: Option<Span>)
}
