/**
 * The text rendering of lints: one line per lint, `[<label>] <name>: <description>`.
 * The line is returned instead of printed; the span is not part of it.
 */
module Reporter {
  import opened Wrappers
  import opened Diagnostic

  /** The label printed for a severity. */
  function SeverityLabel(severity: Severity): (text: string)
    ensures text == "Warning" <==> severity == Warning
    ensures text == "Error" <==> severity == Error
  {
    match severity
    case Warning => "Warning"
    case Error => "Error"
  }

  /** The line printed for one lint. */
  function RenderLine(lint: Lint): string
  {
    "[" + SeverityLabel(lint.severity) + "] " + lint.name + ": " + lint.description
  }

  /** Renders every lint, in input order, one line each. */
  method Report(lints: seq<Lint>) returns (lines: seq<string>)
    ensures |lines| == |lints|
    ensures forall i :: 0 <= i < |lints| ==> lines[i] == RenderLine(lints[i])
  {
    lines := [];
    for i := 0 to |lints|
      invariant |lines| == i
      invariant forall k :: 0 <= k < i ==> lines[k] == RenderLine(lints[k])
    {
      var tag := SeverityLabel(lints[i].severity);
      lines := lines + ["[" + tag + "] " + lints[i].name + ": " + lints[i].description];
    }
  }

  /** Reads the severity back off a rendered line: an independent reading of the label. */
  function ParseSeverity(line: string): Option<Severity>
  {
    if |line| >= 10 && line[..10] == "[Warning] " then Some(Warning)
    else if |line| >= 8 && line[..8] == "[Error] " then Some(Error)
    else None
  }

  /** The severity of a lint can always be recovered from its rendered line. */
  lemma SeverityRoundTrip(lint: Lint)
    ensures ParseSeverity(RenderLine(lint)) == Some(lint.severity)
  {
    var line := RenderLine(lint);
    var rest := lint.name + ": " + lint.description;
    match lint.severity
    case Warning =>
      assert line == "[Warning] " + rest;
      assert line[..10] == "[Warning] ";
    case Error =>
      assert line == "[Error] " + rest;
      assert line[..8] == "[Error] ";
      assert line[1] == 'E';
  }

  /** The rendered line is the same whatever span the lint carries. */
  lemma RenderIgnoresSpan(lint: Lint, span: Option<Syntax.Span>)
    ensures RenderLine(lint.(span := span)) == RenderLine(lint)
  {
  }

  /**
   * The rendered line is the label in brackets, then the name, then the
   * description: each part can be cut back out at its offset.
   */
  lemma RenderLineParts(lint: Lint)
    ensures var tag := SeverityLabel(lint.severity);
            var line := RenderLine(lint);
            var p := |tag| + 3;
            && |line| == p + |lint.name| + 2 + |lint.description|
            && line[1..|tag| + 1] == tag
            && line[p..p + |lint.name|] == lint.name
            && line[p + |lint.name| + 2..] == lint.description
  {
    var tag := SeverityLabel(lint.severity);
    var p := |tag| + 3;
    var line := RenderLine(lint);
    assert line == ("[" + tag + "] ") + lint.name + ": " + lint.description;
    assert |"[" + tag + "] "| == p;
  }
}
