/**
 * The terminal tool (src/tools/terminal.py): what `_run` makes of a command's
 * output once the process has finished. Launching the process is outside the
 * model; its outcome is an input.
 */
module Terminal {
  import opened Text

  /** What became of the command: it ran and exited with `code`, or it could not be started. */
  datatype Launch = Ran(code: int, output: string) | NotStarted

  /** `CommandResult` */
  datatype CommandResult = CommandResult(totalLines: int, returnedLines: int, lines: seq<string>)

  /**
   * `TerminalTool._run`. A non-zero exit status is not an error: its captured
   * output is used like any other. A command that cannot be started raises,
   * which is `None` here.
   */
  function Run(launch: Launch, limit: int): (r: Option<CommandResult>)
    ensures r.None? <==> launch.NotStarted?
    ensures r.Some? ==>
      var all := SplitLines(launch.output);
      && r.value.totalLines == |all|
      && r.value.lines <= all
      && r.value.returnedLines == |r.value.lines|
  {
    match launch
    case NotStarted => None
    case Ran(_, output) =>
      var lines := SplitLines(output);
      var truncated := SliceTo(lines, limit);
      Some(CommandResult(|lines|, |truncated|, truncated))
  }

  /** With a non-negative limit the tool returns `min(total_lines, limit)` lines, never more than there are. */
  lemma ReturnedLines(code: int, output: string, limit: int)
    requires limit >= 0
    ensures var r := Run(Ran(code, output), limit).value;
            && r.returnedLines == (if limit < r.totalLines then limit else r.totalLines)
            && r.returnedLines <= r.totalLines
            && (r.totalLines <= limit ==> r.lines == SplitLines(output))
  {
  }

  /** The exit status has no influence on the result. */
  lemma ExitStatusIgnored(code1: int, code2: int, output: string, limit: int)
    ensures Run(Ran(code1, output), limit) == Run(Ran(code2, output), limit)
  {
  }

  /** The returned lines are the output itself: joined back as lines, they are a prefix of the normalised output. */
  lemma ReturnedLinesAreOutput(code: int, output: string, limit: int)
    ensures var r := Run(Ran(code, output), limit).value;
            Terminated(r.lines) <= UniversalNewlines(output) + FinalNewline(output)
  {
    var all := SplitLines(output);
    var r := Run(Ran(code, output), limit).value;
    SplitLinesRoundTrip(output);
    TerminatedPrefix(r.lines, all);
  }

  lemma {:induction false} TerminatedPrefix(xs: seq<string>, ys: seq<string>)
    requires xs <= ys
    ensures Terminated(xs) <= Terminated(ys)
  {
    if xs != [] {
      assert xs[1..] <= ys[1..];
      TerminatedPrefix(xs[1..], ys[1..]);
      assert Terminated(ys) == ys[0] + "\n" + Terminated(ys[1..]);
    }
  }

  // ---------------------------------------------------------------------------
  // The closing line shown after a run

  /** `get_tool_text_end` */
  function ToolTextEnd(r: CommandResult): string
  {
    "total_lines: " + IntToDecimal(r.totalLines) + ", returned_lines: " + IntToDecimal(r.returnedLines)
  }

  /** Reads the two counts back from a closing line. */
  function ReadToolTextEnd(s: string): (r: Option<(int, int)>)
    ensures r.Some? ==> ',' in s
  {
    var fields := Split(s, ',');
    if |fields| != 2 || !StartsWith(fields[0], "total_lines: ") || !StartsWith(fields[1], " returned_lines: ") then None
    else
      match (ParseInt(fields[0][13..]), ParseInt(fields[1][17..]))
      case (Some(total), Some(returned)) =>
        assert s == JoinWith(fields, ',') by { SplitJoinRoundTrip(s, ','); }
        assert s[|fields[0]|] == ',';
        Some((total, returned))
      case _ => None
  }

  /** The closing line states exactly the result's two counts. */
  lemma ToolTextEndRoundTrip(r: CommandResult)
    ensures ReadToolTextEnd(ToolTextEnd(r)) == Some((r.totalLines, r.returnedLines))
  {
    var a := "total_lines: " + IntToDecimal(r.totalLines);
    var b := " returned_lines: " + IntToDecimal(r.returnedLines);
    NoComma(r.totalLines);
    NoComma(r.returnedLines);
    assert ',' !in a && ',' !in b;
    assert ToolTextEnd(r) == JoinWith([a, b], ',');
    JoinSplitRoundTrip([a, b], ',');
    assert a[13..] == IntToDecimal(r.totalLines);
    assert b[17..] == IntToDecimal(r.returnedLines);
    DecimalRoundTrip(r.totalLines);
    DecimalRoundTrip(r.returnedLines);
  }

  lemma NoComma(n: int)
    ensures ',' !in IntToDecimal(n)
  {
    var d := NatToDecimal(if n < 0 then -n else n);
    assert forall k :: 0 <= k < |d| ==> d[k] != ',';
  }
}
