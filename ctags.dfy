/**
 * The ctags tool (src/tools/ctags.py): choosing the tags file, dispatching an
 * action to a `readtags` command line, parsing what `readtags` prints and
 * returning one page of entries.
 */
module Ctags {
  import opened Text
  import opened Paths
  import Terminal

  datatype CtagsEntry = CtagsEntry(symbol: string, file: string, pattern: string, kind: string, line: int)

  datatype CtagsPage = CtagsPage(totalEntries: int, returnedEntries: int, entries: seq<CtagsEntry>)

  /** The page returned when no query runs. */
  const EmptyPage := CtagsPage(0, 0, [])

  // ---------------------------------------------------------------------------
  // Parsing readtags output

  /** An extension field naming the kind. */
  predicate KindField(f: string) { StartsWith(f, "kind:") }

  /** An extension field carrying a line number that `int()` accepts. */
  predicate LineField(f: string) { StartsWith(f, "line:") && ParseInt(f[5..]).Some? }

  /** The kind the field loop ends with: the text after `kind:` in the last kind field, else "". */
  function LastKind(fields: seq<string>): string
  {
    if fields == [] then ""
    else
      var f := fields[|fields| - 1];
      if KindField(f) then f[5..] else LastKind(fields[..|fields| - 1])
  }

  /** The line number the field loop ends with: that of the last field that parses, else 0. */
  function LastLine(fields: seq<string>): int
  {
    if fields == [] then 0
    else
      var f := fields[|fields| - 1];
      if LineField(f) then ParseInt(f[5..]).value else LastLine(fields[..|fields| - 1])
  }

  /** The entry one output line yields: none for a blank line or one with fewer than three tab fields. */
  function ParseLine(line: string): Option<CtagsEntry>
  {
    if Strip(line) == [] then None
    else
      var parts := Split(line, '\t');
      if |parts| < 3 then None
      else Some(CtagsEntry(parts[0], parts[1], parts[2], LastKind(parts[3..]), LastLine(parts[3..])))
  }

  function Parsed(line: string): seq<CtagsEntry>
  {
    match ParseLine(line)
    case Some(e) => [e]
    case None => []
  }

  /** The entries of the output lines `lines`, in order. */
  function ParseAll(lines: seq<string>): (entries: seq<CtagsEntry>)
    ensures |entries| <= |lines|
  {
    if lines == [] then [] else ParseAll(lines[..|lines| - 1]) + Parsed(lines[|lines| - 1])
  }

  /** `_parse_readtags_output` */
  method ParseReadtagsOutput(output: string) returns (entries: seq<CtagsEntry>)
    ensures entries == ParseAll(SplitLines(output))
  {
    entries := [];
    var lines := SplitLines(output);
    for i := 0 to |lines|
      invariant entries == ParseAll(lines[..i])
    {
      var entry := ReadLine(lines[i]);
      ParseAllNext(lines, i, entry);
      match entry {
        case None => // blank, or too few fields: skipped
          assert entries + [] == entries;
        case Some(e) =>
          entries := entries + [e];
      }
    }
    assert lines[..|lines|] == lines;
  }

  /** One turn of the line loop: the entry of one output line, if it has one. */
  method ReadLine(line: string) returns (entry: Option<CtagsEntry>)
    ensures entry == ParseLine(line)
  {
    if Strip(line) == [] {
      return None;
    }
    var parts := Split(line, '\t');
    if |parts| < 3 {
      return None;
    }
    var symbol, file, pattern := parts[0], parts[1], parts[2];
    var kind, lineNum := ReadExtensionFields(parts);
    entry := Some(CtagsEntry(symbol, file, pattern, kind, lineNum));
  }

  /** The field loop of `_parse_readtags_output`: the last `kind:` and the last parsable `line:` win. */
  method ReadExtensionFields(parts: seq<string>) returns (kind: string, lineNum: int)
    requires |parts| >= 3
    ensures kind == LastKind(parts[3..]) && lineNum == LastLine(parts[3..])
  {
    kind := "";
    lineNum := 0;
    for j := 3 to |parts|
      invariant kind == LastKind(parts[3..j])
      invariant lineNum == LastLine(parts[3..j])
    {
      var field := parts[j];
      FieldStep(parts, j);
      if StartsWith(field, "kind:") {
        assert !LineField(field) by { assert field[0] == 'k'; }
        kind := field[5..];
      } else if StartsWith(field, "line:") {
        match ParseInt(field[5..]) {
          case Some(n) => lineNum := n;
          case None => // not a number: ignored
        }
      }
    }
    assert parts[3..|parts|] == parts[3..];
  }

  /** One turn of the field loop. */
  lemma FieldStep(parts: seq<string>, j: nat)
    requires 3 <= j < |parts|
    ensures var f := parts[j];
            && LastKind(parts[3..j + 1]) == (if KindField(f) then f[5..] else LastKind(parts[3..j]))
            && LastLine(parts[3..j + 1]) == (if LineField(f) then ParseInt(f[5..]).value else LastLine(parts[3..j]))
  {
    var fs := parts[3..j + 1];
    assert fs[..|fs| - 1] == parts[3..j] && fs[|fs| - 1] == parts[j];
  }

  /** Parsing is line by line: the entries of two runs of lines are the entries of each, in order. */
  lemma {:induction false} ParseAllAppend(a: seq<string>, b: seq<string>)
    ensures ParseAll(a + b) == ParseAll(a) + ParseAll(b)
    decreases |b|
  {
    if b == [] {
      assert a + b == a;
    } else {
      var init, last := b[..|b| - 1], b[|b| - 1];
      assert b == init + [last];
      ParseAllAppend(a, init);
      calc {
        ParseAll(a + b);
        { assert a + b == (a + init) + [last]; }
        ParseAll((a + init) + [last]);
        { ParseAllStep(a + init, last); }
        ParseAll(a + init) + Parsed(last);
        ParseAll(a) + ParseAll(init) + Parsed(last);
        { Associate(ParseAll(a), ParseAll(init), Parsed(last)); }
        ParseAll(a) + (ParseAll(init) + Parsed(last));
        { ParseAllStep(init, last); }
        ParseAll(a) + ParseAll(b);
      }
    }
  }

  lemma ParseAllStep(xs: seq<string>, x: string)
    ensures ParseAll(xs + [x]) == ParseAll(xs) + Parsed(x)
  {
    assert (xs + [x])[..|xs|] == xs;
  }

  /** One more line extends the entries by that line's entry, if it has one. */
  lemma ParseAllNext(lines: seq<string>, i: nat, entry: Option<CtagsEntry>)
    requires i < |lines| && entry == ParseLine(lines[i])
    ensures ParseAll(lines[..i + 1]) == ParseAll(lines[..i]) + (if entry.Some? then [entry.value] else [])
  {
    assert lines[..i + 1] == lines[..i] + [lines[i]];
    ParseAllStep(lines[..i], lines[i]);
  }

  /** A line is skipped exactly when it is blank or has fewer than three tab-separated fields. */
  lemma SkippedLines(line: string)
    ensures ParseLine(line).None? <==> IsBlank(line) || |Split(line, '\t')| < 3
  {
    StripEmptyIffBlank(line);
  }

  /** The kind is that of the last `kind:` field. */
  lemma {:induction false} LastKindIsLast(fields: seq<string>, k: nat)
    requires k < |fields| && KindField(fields[k])
    requires forall j :: k < j < |fields| ==> !KindField(fields[j])
    ensures LastKind(fields) == fields[k][5..]
  {
    if k < |fields| - 1 {
      LastKindIsLast(fields[..|fields| - 1], k);
    }
  }

  /** Without a `kind:` field the kind is empty. */
  lemma {:induction false} NoKindField(fields: seq<string>)
    requires forall j :: 0 <= j < |fields| ==> !KindField(fields[j])
    ensures LastKind(fields) == ""
  {
    if fields != [] {
      NoKindField(fields[..|fields| - 1]);
    }
  }

  /** The line number is that of the last `line:` field whose value parses; others are ignored. */
  lemma {:induction false} LastLineIsLast(fields: seq<string>, k: nat)
    requires k < |fields| && LineField(fields[k])
    requires forall j :: k < j < |fields| ==> !LineField(fields[j])
    ensures LastLine(fields) == ParseInt(fields[k][5..]).value
  {
    if k < |fields| - 1 {
      LastLineIsLast(fields[..|fields| - 1], k);
    }
  }

  /** Without a parsable `line:` field the line number is 0. */
  lemma {:induction false} NoLineField(fields: seq<string>)
    requires forall j :: 0 <= j < |fields| ==> !LineField(fields[j])
    ensures LastLine(fields) == 0
  {
    if fields != [] {
      NoLineField(fields[..|fields| - 1]);
    }
  }

  // ---------------------------------------------------------------------------
  // The readtags line layout, as the partner of the parser

  /** `symbol TAB file TAB pattern TAB kind:K TAB line:N`, the layout of `readtags -e -n`. */
  function FormatTagLine(e: CtagsEntry): string
  {
    JoinWith(TagFields(e), '\t')
  }

  /** Each entry's line followed by `\n`. */
  function FormatAll(es: seq<CtagsEntry>): seq<string>
  {
    if es == [] then [] else FormatAll(es[..|es| - 1]) + [FormatTagLine(es[|es| - 1])]
  }

  /** Fields that can be written on one tag line: no tab, no line boundary. */
  predicate Printable(e: CtagsEntry)
  {
    forall f :: f in [e.symbol, e.file, e.pattern, e.kind] ==> '\t' !in f && NoLineBreak(f)
  }

  /** A formatted tag line parses back to its entry. */
  lemma ParseTagLine(e: CtagsEntry)
    requires Printable(e)
    ensures ParseLine(FormatTagLine(e)) == Some(e)
  {
    var fields := TagFields(e);
    TagLineSplits(e);
    TagLineNotBlank(e);
    assert fields[3..] == ["kind:" + e.kind, "line:" + IntToDecimal(e.line)];
    ExtensionFields(e.kind, e.line);
  }

  lemma TagLineSplits(e: CtagsEntry)
    requires Printable(e)
    ensures Split(FormatTagLine(e), '\t') == TagFields(e)
  {
    TagFieldsPlain(e);
    JoinSplitRoundTrip(TagFields(e), '\t');
  }

  lemma TagLineNotBlank(e: CtagsEntry)
    ensures Strip(FormatTagLine(e)) != []
  {
    var fields, line := TagFields(e), FormatTagLine(e);
    FieldCharsInJoin(fields, '\t', 3);
    assert fields[3][0] == 'k' && 'k' in fields[3] && 'k' in line;
    StripEmptyIffBlank(line);
  }

  /** A printable entry's line holds no line boundary. */
  lemma TagLineNoBreak(e: CtagsEntry)
    requires Printable(e)
    ensures NoLineBreak(FormatTagLine(e))
  {
    TagFieldsPlain(e);
    JoinWithChars(TagFields(e), '\t', c => !IsLineBreak(c));
  }

  function TagFields(e: CtagsEntry): seq<string>
  {
    [e.symbol, e.file, e.pattern, "kind:" + e.kind, "line:" + IntToDecimal(e.line)]
  }

  /** The fields of a printable entry's line hold no tab and no line boundary. */
  lemma TagFieldsPlain(e: CtagsEntry)
    requires Printable(e)
    ensures forall j :: 0 <= j < |TagFields(e)| ==> '\t' !in TagFields(e)[j]
    ensures forall j :: 0 <= j < |TagFields(e)| ==> forall k :: 0 <= k < |TagFields(e)[j]| ==> !IsLineBreak(TagFields(e)[j][k])
  {
    var dec := IntToDecimal(e.line);
    assert e.symbol in [e.symbol, e.file, e.pattern, e.kind];
    assert e.file in [e.symbol, e.file, e.pattern, e.kind];
    assert e.pattern in [e.symbol, e.file, e.pattern, e.kind];
    assert e.kind in [e.symbol, e.file, e.pattern, e.kind];
    assert forall k :: 0 <= k < |dec| ==> dec[k] == '-' || IsDigit(dec[k]);
  }

  /** The two extension fields of a formatted line give back its kind and its line number. */
  lemma ExtensionFields(kind: string, n: int)
    ensures LastKind(["kind:" + kind, "line:" + IntToDecimal(n)]) == kind
    ensures LastLine(["kind:" + kind, "line:" + IntToDecimal(n)]) == n
  {
    KindFieldRead(kind, n);
    LineFieldRead(kind, n);
  }

  lemma KindFieldRead(kind: string, n: int)
    ensures LastKind(["kind:" + kind, "line:" + IntToDecimal(n)]) == kind
  {
    var kf, lf := "kind:" + kind, "line:" + IntToDecimal(n);
    assert [kf, lf][..1] == [kf];
    assert !KindField(lf) by { assert lf[0] == 'l'; }
    assert KindField(kf) && kf[5..] == kind;
  }

  lemma LineFieldRead(kind: string, n: int)
    ensures LastLine(["kind:" + kind, "line:" + IntToDecimal(n)]) == n
  {
    var lf := "line:" + IntToDecimal(n);
    assert lf[5..] == IntToDecimal(n);
    DecimalRoundTrip(n);
    assert LineField(lf);
  }

  /** Parsing the printed lines of printable entries gives back the entries, in order. */
  lemma {:induction false} ParseFormattedOutput(es: seq<CtagsEntry>)
    requires forall e :: e in es ==> Printable(e)
    ensures ParseAll(SplitLines(Terminated(FormatAll(es)))) == es
  {
    FormatAllParses(es);
    FormatAllNoBreak(es);
    SplitTerminated(FormatAll(es));
  }

  lemma {:induction false} FormatAllParses(es: seq<CtagsEntry>)
    requires forall e :: e in es ==> Printable(e)
    ensures ParseAll(FormatAll(es)) == es
  {
    if es != [] {
      var init, e := es[..|es| - 1], es[|es| - 1];
      assert es == init + [e];
      assert forall x :: x in init ==> x in es;
      FormatAllParses(init);
      FormatAllStep(init, e);
      ParsedTagLine(e);
      ParseAllStep(FormatAll(init), FormatTagLine(e));
    }
  }

  lemma FormatAllStep(init: seq<CtagsEntry>, e: CtagsEntry)
    ensures FormatAll(init + [e]) == FormatAll(init) + [FormatTagLine(e)]
  {
    assert (init + [e])[..|init|] == init;
  }

  lemma ParsedTagLine(e: CtagsEntry)
    requires Printable(e)
    ensures Parsed(FormatTagLine(e)) == [e]
  {
    ParseTagLine(e);
  }

  lemma {:induction false} FormatAllNoBreak(es: seq<CtagsEntry>)
    requires forall e :: e in es ==> Printable(e)
    ensures forall j :: 0 <= j < |FormatAll(es)| ==> NoLineBreak(FormatAll(es)[j])
  {
    if es != [] {
      var init, e := es[..|es| - 1], es[|es| - 1];
      assert forall x :: x in init ==> x in es;
      FormatAllNoBreak(init);
      assert e in es;
      TagLineNoBreak(e);
    }
  }

  // ---------------------------------------------------------------------------
  // The tool

  /**
   * What the tool asks of the outside world: `os.path.isdir`,
   * `os.path.exists`, and how `subprocess.run` ends for a command line: with
   * its exit status and standard output, or without starting the program.
   */
  datatype Env = Env(isDir: string -> bool, pathExists: string -> bool, runCommand: seq<string> -> Terminal.Launch)

  /**
   * How `_run` ends: with a page, with `ToolAbortedException`, or with the
   * exception `subprocess.run` raises when the program cannot be started,
   * which `_run_command` does not catch.
   */
  datatype Result = Page(page: CtagsPage) | Aborted(message: string) | Raised

  /** A call's result, with the command lines it ran, in order. */
  datatype Call = Call(result: Result, commands: seq<seq<string>>)

  /** `tags` has no directory part. */
  lemma TagsIsPlainName()
    ensures Basename("tags") == "tags"
  {
    assert '/' !in "tags"[0..];
    BasenameAfter("tags", 0);
  }

  /** `<input_file>/tags` for a directory, else `tags` in the working directory. */
  function TagsFile(inputFile: string, env: Env): (f: string)
    ensures Basename(f) == "tags"
  {
    TagsIsPlainName();
    if env.isDir(inputFile) then
      BasenameOfJoin(inputFile, "tags");
      Join(inputFile, "tags")
    else "tags"
  }

  /**
   * `_run_command`: the standard output of a run that exits with status 0,
   * "" for any other status (`CalledProcessError` is caught), and `None` when
   * the program cannot be started.
   */
  function RunCommand(env: Env, cmd: seq<string>): (out: Option<string>)
    ensures out.None? <==> env.runCommand(cmd).NotStarted?
    ensures out.Some? ==> out.value == (if env.runCommand(cmd).code == 0 then env.runCommand(cmd).output else "")
  {
    match env.runCommand(cmd)
    case NotStarted => None
    case Ran(code, output) => if code == 0 then Some(output) else Some("")
  }

  /** The readtags command line for a query action, if the action runs one. */
  function QueryCommand(action: string, tagsFile: string, symbol: string, kind: string): (q: Option<seq<string>>)
    ensures q.Some? <==>
              || (action == "find_symbol" && symbol != "")
              || action == "list_symbols"
              || (action == "filter_by_kind" && kind != "")
  {
    var base := ["readtags", "-t", tagsFile, "-e", "-n"];
    if action == "find_symbol" then
      if symbol == "" then None else Some(base + ["-i", symbol])
    else if action == "list_symbols" then Some(base + ["--list"])
    else if action == "filter_by_kind" then
      if kind == "" then None else Some(base + ["--list", "-Q", "kind == '" + kind + "'"])
    else None
  }

  /** One page: the total count, and the first `limit` entries (Python slice semantics). */
  function Truncate(entries: seq<CtagsEntry>, limit: int): (page: CtagsPage)
    ensures page.totalEntries == |entries| && page.entries <= entries
    ensures page.returnedEntries == |page.entries| <= page.totalEntries
    ensures limit >= 0 ==> page.returnedEntries == if limit < |entries| then limit else |entries|
  {
    var truncated := SliceTo(entries, limit);
    CtagsPage(|entries|, |truncated|, truncated)
  }

  const NoTagsFile := "No tags file found. Run 'generate_tags' first."

  /** `CtagsTool._run` */
  function Run(action: string, inputFile: string, symbol: string, kind: string, limit: int, env: Env): (c: Call)
    ensures |c.commands| <= 1
    ensures c.result.Aborted? ==> c.commands == [] && action != "generate_tags"
    ensures c.result.Raised? ==> |c.commands| == 1 && env.runCommand(c.commands[0]).NotStarted?
  {
    var tagsFile := TagsFile(inputFile, env);
    if action == "generate_tags" then
      var cmd := ["ctags", "-R", "-f", tagsFile, inputFile];
      Call(if RunCommand(env, cmd).None? then Raised else Page(EmptyPage), [cmd])
    else if !env.pathExists(tagsFile) then
      Call(Aborted(NoTagsFile), [])
    else
      match QueryCommand(action, tagsFile, symbol, kind)
      case None => Call(Page(EmptyPage), [])
      case Some(cmd) =>
        match RunCommand(env, cmd)
        case None => Call(Raised, [cmd])
        case Some(output) => Call(Page(Truncate(ParseAll(SplitLines(output)), limit)), [cmd])
  }

  /**
   * `generate_tags` runs ctags once, recursively, into the chosen tags file,
   * and returns the empty page whatever the exit status; only a ctags that
   * cannot be started makes it fail.
   */
  lemma GenerateTags(inputFile: string, symbol: string, kind: string, limit: int, env: Env)
    ensures var c := Run("generate_tags", inputFile, symbol, kind, limit, env);
            var cmd := ["ctags", "-R", "-f", TagsFile(inputFile, env), inputFile];
            && c.commands == [cmd]
            && (env.runCommand(cmd).NotStarted? ==> c.result == Raised)
            && (env.runCommand(cmd).Ran? ==> c.result == Page(CtagsPage(0, 0, [])))
  {
  }

  /** Every other action aborts, running nothing, when the tags file is missing. */
  lemma MissingTagsFileAborts(action: string, inputFile: string, symbol: string, kind: string, limit: int, env: Env)
    requires action != "generate_tags" && !env.pathExists(TagsFile(inputFile, env))
    ensures Run(action, inputFile, symbol, kind, limit, env) == Call(Aborted(NoTagsFile), [])
  {
  }

  /**
   * With a tags file present, an action returns the empty page without running
   * anything exactly when it is an unknown action, `find_symbol` without a
   * symbol or `filter_by_kind` without a kind.
   */
  lemma NoQueryIffEmptyRequest(action: string, inputFile: string, symbol: string, kind: string, limit: int, env: Env)
    requires action != "generate_tags" && env.pathExists(TagsFile(inputFile, env))
    ensures Run(action, inputFile, symbol, kind, limit, env).commands == []
        <==> (action == "find_symbol" && symbol == "")
             || (action == "filter_by_kind" && kind == "")
             || (action != "find_symbol" && action != "list_symbols" && action != "filter_by_kind")
    ensures Run(action, inputFile, symbol, kind, limit, env).commands == []
        ==> Run(action, inputFile, symbol, kind, limit, env).result == Page(CtagsPage(0, 0, []))
  {
  }

  /**
   * A query runs exactly one readtags command on the chosen tags file, with
   * extension fields and line numbers, followed by the arguments of its
   * action: a case-insensitive lookup of the symbol, a full listing, or a
   * full listing filtered by kind.
   */
  lemma QueriesUseReadtags(action: string, inputFile: string, symbol: string, kind: string, limit: int, env: Env)
    requires action != "generate_tags"
    ensures var c := Run(action, inputFile, symbol, kind, limit, env);
            forall cmd :: cmd in c.commands ==>
              && |c.commands| == 1 && |cmd| > 5
              && cmd[..5] == ["readtags", "-t", TagsFile(inputFile, env), "-e", "-n"]
              && (action == "find_symbol" ==> cmd[5..] == ["-i", symbol])
              && (action == "list_symbols" ==> cmd[5..] == ["--list"])
              && (action == "filter_by_kind" ==> cmd[5..] == ["--list", "-Q", "kind == '" + kind + "'"])
  {
    QueryArguments(action, TagsFile(inputFile, env), symbol, kind);
  }

  /** Every query command line is the readtags base command followed by its action's arguments. */
  lemma QueryArguments(action: string, tagsFile: string, symbol: string, kind: string)
    ensures var q := QueryCommand(action, tagsFile, symbol, kind);
            q.Some? ==>
              && |q.value| > 5 && q.value[..5] == ["readtags", "-t", tagsFile, "-e", "-n"]
              && (action == "find_symbol" ==> q.value[5..] == ["-i", symbol])
              && (action == "list_symbols" ==> q.value[5..] == ["--list"])
              && (action == "filter_by_kind" ==> q.value[5..] == ["--list", "-Q", "kind == '" + kind + "'"])
  {
    var base := ["readtags", "-t", tagsFile, "-e", "-n"];
    forall tail: seq<string> ensures (base + tail)[..5] == base && (base + tail)[5..] == tail {
      assert |base| == 5;
    }
  }

  /**
   * A query's page counts all parsed entries and returns the first
   * `min(total, limit)` of them, in order; never more than the total.
   */
  lemma QueryPage(action: string, inputFile: string, symbol: string, kind: string, limit: int, env: Env)
    requires Run(action, inputFile, symbol, kind, limit, env).commands != []
    requires action != "generate_tags"
    ensures var c := Run(action, inputFile, symbol, kind, limit, env);
            env.runCommand(c.commands[0]).NotStarted? <==> c.result == Raised
    ensures var c := Run(action, inputFile, symbol, kind, limit, env);
            var launch := env.runCommand(c.commands[0]);
            launch.Ran? && launch.code != 0 ==> c.result == Page(CtagsPage(0, 0, []))
    ensures var c := Run(action, inputFile, symbol, kind, limit, env);
            var launch := env.runCommand(c.commands[0]);
            var all := ParseAll(SplitLines(if launch.Ran? && launch.code == 0 then launch.output else ""));
            launch.Ran? ==>
              && c.result.Page?
              && c.result.page.totalEntries == |all|
              && c.result.page.entries <= all
              && c.result.page.returnedEntries == |c.result.page.entries| <= c.result.page.totalEntries
              && (limit >= 0 ==> c.result.page.returnedEntries == if limit < |all| then limit else |all|)
  {
  }
}
