/**
 * The agent's tool wrappers (src/agent/main_agent.py): the path sandbox
 * `get_safe_path`, the argument preparation of the `directory` wrapper, and
 * the mapping of every tool call's outcome to the `MaybeSummarizedContent`
 * envelope handed back to the language model.
 *
 * The tools themselves are reached through `BaseTool.run`, whose body is not
 * part of this model: each wrapper takes it as a function from the request it
 * builds to the outcome of the call.
 */
module Agent {
  import opened Text
  import opened Paths
  import opened Schemas
  import Ctags

  // ---------------------------------------------------------------------------
  // get_safe_path

  /** The result of `get_safe_path`: the normalised path, or the `ValueError` it raises. */
  datatype SafePath = Safe(path: string) | AccessDenied(fullPath: string, projectRoot: string)

  /**
   * `get_safe_path`: the root and the joined path are normalised, and the
   * joined path is accepted when it starts with the root as a string.
   */
  function GetSafePath(projectRoot: string, relativePath: string): (r: SafePath)
    ensures r.Safe? ==> StartsWith(r.path, NormPath(projectRoot))
    ensures r.AccessDenied? ==> r.projectRoot == NormPath(projectRoot) && !StartsWith(r.fullPath, r.projectRoot)
  {
    var root := NormPath(projectRoot);
    var fullPath := NormPath(Join(root, relativePath));
    if !StartsWith(fullPath, root) then AccessDenied(fullPath, root) else Safe(fullPath)
  }

  /** An accepted path is in normal form: normalising it again changes nothing. */
  lemma SafePathIsNormal(projectRoot: string, relativePath: string)
    requires GetSafePath(projectRoot, relativePath).Safe?
    ensures var p := GetSafePath(projectRoot, relativePath).path;
            NormPath(p) == p
  {
    NormPathIdempotent(Join(NormPath(projectRoot), relativePath));
  }

  /** An absolute relative path replaces the root; it is accepted only if it happens to start with the root. */
  lemma AbsolutePathReplacesRoot(projectRoot: string, relativePath: string)
    requires StartsWith(relativePath, "/")
    ensures var r := GetSafePath(projectRoot, relativePath);
            && (r.Safe? <==> StartsWith(NormPath(relativePath), NormPath(projectRoot)))
            && (r.Safe? ==> r.path == NormPath(relativePath))
  {
  }

  /**
   * Under an absolute root, a relative path without `..` components is always
   * accepted.
   */
  lemma PlainRelativePathAdmitted(projectRoot: string, relativePath: string)
    requires StartsWith(projectRoot, "/")
    requires !StartsWith(relativePath, "/")
    requires forall j :: 0 <= j < |Split(relativePath, '/')| ==> Split(relativePath, '/')[j] != ".."
    ensures GetSafePath(projectRoot, relativePath).Safe?
  {
    var n := InitialSlashes(projectRoot);
    var rootComps := NormComponents(projectRoot);
    NormComponentsNormal(projectRoot);
    NormalBodyShape(rootComps, true);
    var root := NormPath(projectRoot);
    assert root == Slashes(n) + JoinWith(rootComps, '/');
    var tail, fields := JoinedTail(root, n, rootComps, relativePath);
    var joined := Join(root, relativePath);
    InitialSlashesOf(n, tail);
    SplitAfterSlashes(n, tail);
    ResolveSkipsEmpty(n, fields, true);
    var comps := Resolve([], fields, true);
    assert NormComponents(joined) == comps;
    JoinWithPrefix(rootComps, comps, '/');
    var full := Slashes(n) + JoinWith(comps, '/');
    assert NormPath(joined) == full;
    assert root <= full;
  }

  /**
   * The joined path is the root's slashes followed by a tail that starts
   * with no slash and splits into the root's components, then the relative
   * path's components; reading them keeps the root's components in front.
   */
  lemma JoinedTail(root: string, n: nat, rootComps: seq<string>, relativePath: string)
    returns (tail: string, fields: seq<string>)
    requires 1 <= n && root == Slashes(n) + JoinWith(rootComps, '/')
    requires IsNormal(rootComps, true)
    requires rootComps != [] ==> JoinWith(rootComps, '/')[0] != '/'
    requires forall j :: 0 <= j < |rootComps| ==> '/' !in rootComps[j]
    requires !StartsWith(relativePath, "/")
    requires forall j :: 0 <= j < |Split(relativePath, '/')| ==> Split(relativePath, '/')[j] != ".."
    ensures Join(root, relativePath) == Slashes(n) + tail
    ensures tail == [] || tail[0] != '/'
    ensures Split(tail, '/') == fields
    ensures rootComps <= Resolve([], fields, true)
  {
    var rel := Split(relativePath, '/');
    if rootComps == [] {
      assert root == Slashes(n);
      assert root[|root| - 1] == '/';
      tail, fields := relativePath, rel;
      assert relativePath == [] || relativePath[0] != '/';
    } else {
      var body := JoinWith(rootComps, '/');
      NormalBodyEnd(rootComps);
      assert root[|root| - 1] == body[|body| - 1];
      SplitJoinRoundTrip(relativePath, '/');
      JoinWithAppend(rootComps, rel, '/');
      tail, fields := body + "/" + relativePath, rootComps + rel;
      assert tail == JoinWith(fields, '/');
      assert Join(root, relativePath) == Slashes(n) + tail;
      assert tail[0] == body[0];
      assert forall j :: 0 <= j < |fields| ==> '/' !in fields[j] by {
        assert forall j :: |rootComps| <= j < |fields| ==> fields[j] == rel[j - |rootComps|];
      }
      JoinSplitRoundTrip(fields, '/');
      ResolveAppend([], rootComps, rel, true);
      ResolveNormal([], rootComps, true);
      assert [] + rootComps == rootComps;
      ResolveKeepsPrefix(rootComps, rel, true);
    }
  }

  lemma InitialSlashesOf(n: nat, tail: string)
    requires 1 <= n <= 2 && (tail == [] || tail[0] != '/')
    ensures InitialSlashes(Slashes(n) + tail) == n
  {
    var s := Slashes(n) + tail;
    assert s[0] == '/';
    if n == 1 {
      assert |s| > 1 ==> s[1] == tail[0];
    } else {
      assert s[1] == '/';
      assert |s| > 2 ==> s[2] == tail[0];
    }
  }

  /** A joined non-empty normal component sequence does not end with a slash. */
  lemma NormalBodyEnd(comps: seq<string>)
    requires comps != [] && IsNormal(comps, true)
    ensures var body := JoinWith(comps, '/');
            body != [] && body[|body| - 1] != '/'
  {
    var last := comps[|comps| - 1];
    assert last != [] && '/' !in last;
    assert last[|last| - 1] in last;
    if |comps| > 1 {
      var init := comps[..|comps| - 1];
      assert comps == init + [last];
      JoinWithAppend(init, [last], '/');
      assert JoinWith([last], '/') == last;
    }
  }

  /** Joining a longer component sequence extends the join of a shorter one. */
  lemma JoinWithPrefix(a: seq<string>, c: seq<string>, sep: char)
    requires a <= c
    ensures JoinWith(a, sep) <= JoinWith(c, sep)
  {
    if a != [] && a != c {
      var rest := c[|a|..];
      assert c == a + rest;
      JoinWithAppend(a, rest, sep);
    }
  }

  /** Splitting a literal path given as its components. */
  lemma SplitComponents(p: string, comps: seq<string>)
    requires |comps| >= 1 && p == JoinWith(comps, '/')
    requires forall j :: 0 <= j < |comps| ==> '/' !in comps[j]
    ensures Split(p, '/') == comps
  {
    JoinSplitRoundTrip(comps, '/');
  }

  lemma NormPathOfDot()
    ensures NormPath(".") == "."
  {
    SplitComponents(".", ["."]);
    assert Resolve([], ["."], false) == Resolve([], [], false);
  }

  /** With the default root `.`, a path leaving the project is accepted ... */
  lemma DotRootAdmitsParent()
    ensures GetSafePath(".", "../x") == Safe("../x")
  {
    NormPathOfDot();
    assert Join(".", "../x") == "./../x";
    NormPathLeavingDot();
    assert StartsWith("../x", ".");
  }

  lemma NormPathLeavingDot()
    ensures NormPath("./../x") == "../x"
  {
    assert "./../x" == JoinWith([".", "..", "x"], '/');
    SplitComponents("./../x", [".", "..", "x"]);
    assert InitialSlashes("./../x") == 0;
    ResolveLeavingDot();
    assert JoinWith(["..", "x"], '/') == "../x";
  }

  lemma ResolveLeavingDot()
    ensures Resolve([], [".", "..", "x"], false) == ["..", "x"]
  {
    assert Step([], ".", false) == [];
    assert Step([], "..", false) == [".."];
    assert Step([".."], "x", false) == ["..", "x"];
    assert [".", "..", "x"][1..] == ["..", "x"] && ["..", "x"][1..] == ["x"];
  }

  /** ... while an ordinary path inside it is refused: `./src` normalises to `src`, which does not start with `.`. */
  lemma DotRootRefusesPlainName()
    ensures GetSafePath(".", "src") == AccessDenied("src", ".")
  {
    NormPathOfDot();
    assert Join(".", "src") == "./src";
    NormPathInsideDot();
    assert !StartsWith("src", ".");
  }

  lemma NormPathInsideDot()
    ensures NormPath("./src") == "src"
  {
    assert "./src" == JoinWith([".", "src"], '/');
    SplitComponents("./src", [".", "src"]);
    assert InitialSlashes("./src") == 0;
    assert Step([], ".", false) == [];
    assert Step([], "src", false) == ["src"];
    assert [".", "src"][1..] == ["src"];
    assert Resolve([], [".", "src"], false) == ["src"];
  }

  /** The string prefix also accepts a sibling whose name extends the root's last component. */
  lemma SiblingWithSharedPrefixAdmitted()
    ensures GetSafePath("/a", "../ab") == Safe("/ab")
  {
    NormPathOfRoot();
    assert Join("/a", "../ab") == "/a/../ab";
    NormPathOfSibling();
    assert StartsWith("/ab", "/a");
  }

  lemma NormPathOfSibling()
    ensures NormPath("/a/../ab") == "/ab"
  {
    SplitOfSibling();
    ResolveOfSibling();
    NormPathFrom("/a/../ab", ["", "a", "..", "ab"], ["ab"]);
    assert Slashes(1) + JoinWith(["ab"], '/') == "/ab";
  }

  lemma SplitOfSibling()
    ensures Split("/a/../ab", '/') == ["", "a", "..", "ab"]
  {
    assert "/a/../ab" == JoinWith(["", "a", "..", "ab"], '/');
    SplitComponents("/a/../ab", ["", "a", "..", "ab"]);
  }

  lemma ResolveOfSibling()
    ensures Resolve([], ["", "a", "..", "ab"], true) == ["ab"]
  {
    assert Step([], "", true) == [];
    assert Step([], "a", true) == ["a"];
    assert Step(["a"], "..", true) == [];
    assert Step([], "ab", true) == ["ab"];
    assert ["", "a", "..", "ab"][1..] == ["a", "..", "ab"];
    assert ["a", "..", "ab"][1..] == ["..", "ab"] && ["..", "ab"][1..] == ["ab"];
  }

  /** `normpath` of a path with one leading slash, from its components. */
  lemma NormPathFrom(p: string, fields: seq<string>, comps: seq<string>)
    requires StartsWith(p, "/") && !StartsWith(p, "//")
    requires Split(p, '/') == fields && Resolve([], fields, true) == comps
    ensures NormPath(p) == Slashes(1) + JoinWith(comps, '/')
  {
  }

  lemma NormPathOfRoot()
    ensures NormPath("/a") == "/a"
  {
    assert "/a" == JoinWith(["", "a"], '/');
    SplitComponents("/a", ["", "a"]);
    assert InitialSlashes("/a") == 1;
    assert Step([], "", true) == [];
    assert ["", "a"][1..] == ["a"];
    assert Resolve([], ["", "a"], true) == ["a"];
  }

  // ---------------------------------------------------------------------------
  // Preparing the directory tool's arguments

  /** The directories the `directory` wrapper always excludes. */
  const DefaultExcludeDirs: seq<string> := [
    ".git", ".hg", ".svn", ".DS_Store", "node_modules", "bower_components",
    "dist", "build", "env", "venv", ".venv", "__pycache__", ".pytest_cache",
    ".mypy_cache", ".cache", ".idea", ".vscode", "vendor", "out", "target",
    ".bundle", "coverage", "bin", "nuget", ".nuget"]

  /** `default_exclude_dirs + (additional_exclude_dirs or [])` */
  function ExcludeDirs(additional: Option<seq<string>>): (r: seq<string>)
    ensures |r| == 25 + (if additional.Some? then |additional.value| else 0)
    ensures r[..25] == DefaultExcludeDirs
    ensures additional.None? ==> r == DefaultExcludeDirs
    ensures additional.Some? ==> r[25..] == additional.value
  {
    match additional
    case None => DefaultExcludeDirs
    case Some(extra) => DefaultExcludeDirs + extra
  }

  /** Every default stays excluded, and a name is excluded only if it is a default or was asked for. */
  lemma ExcludedNames(additional: Option<seq<string>>, name: string)
    ensures name in DefaultExcludeDirs ==> name in ExcludeDirs(additional)
    ensures name in ExcludeDirs(additional) <==>
              name in DefaultExcludeDirs || (additional.Some? && name in additional.value)
  {
    var r := ExcludeDirs(additional);
    if name in DefaultExcludeDirs {
      var i :| 0 <= i < 25 && DefaultExcludeDirs[i] == name;
      assert r[i] == name;
    }
    if additional.Some? && name in additional.value {
      var i :| 0 <= i < |additional.value| && additional.value[i] == name;
      assert r[25 + i] == name;
    }
    if name in r {
      var i :| 0 <= i < |r| && r[i] == name;
      if i < 25 {
        assert DefaultExcludeDirs[i] == name;
      } else {
        assert additional.value[i - 25] == name;
      }
    }
  }

  /** `s.lstrip(".")` */
  function StripLeadingDots(s: string): (r: string)
    ensures |r| <= |s| && r == s[|s| - |r|..]
    ensures forall k :: 0 <= k < |s| - |r| ==> s[k] == '.'
    ensures r == [] || r[0] != '.'
  {
    if s != [] && s[0] == '.' then StripLeadingDots(s[1..]) else s
  }

  /**
   * The `file_filter` rewrite: a non-empty filter starting with `.` becomes
   * `*.` followed by the filter without its leading dots; any other filter,
   * and no filter, is passed on unchanged.
   */
  function RewriteFileFilter(fileFilter: Option<string>): (r: Option<string>)
    ensures r.None? <==> fileFilter.None?
    ensures fileFilter.Some? && !StartsWith(fileFilter.value, ".") ==> r == fileFilter
    ensures fileFilter.Some? && StartsWith(fileFilter.value, ".") ==>
              exists k :: 0 < k <= |fileFilter.value| && r.value == "*." + fileFilter.value[k..] &&
                          (forall j :: 0 <= j < k ==> fileFilter.value[j] == '.') &&
                          (k == |fileFilter.value| || fileFilter.value[k] != '.')
  {
    match fileFilter
    case None => None
    case Some(f) =>
      if f != [] && StartsWith(f, ".") then
        var rest := StripLeadingDots(f);
        assert f[0] == '.';
        assert f[|f| - |rest|..] == rest;
        Some("*." + rest)
      else fileFilter
  }

  /** Rewriting a rewritten filter changes nothing. */
  lemma RewriteFileFilterIdempotent(fileFilter: Option<string>)
    ensures RewriteFileFilter(RewriteFileFilter(fileFilter)) == RewriteFileFilter(fileFilter)
  {
    var r := RewriteFileFilter(fileFilter);
    if r.Some? && r != fileFilter {
      assert r.value[0] == '*';
    }
  }

  /** Extension filters written with dots become globs. */
  lemma ExtensionFilters()
    ensures RewriteFileFilter(Some(".py")) == Some("*.py")
    ensures RewriteFileFilter(Some("..py")) == Some("*.py")
    ensures RewriteFileFilter(Some("*.py")) == Some("*.py")
    ensures RewriteFileFilter(Some("")) == Some("")
  {
    assert "py"[0] != '.' && "*.py"[0] != '.';
    assert "*." + "py" == "*.py";
    assert ".py"[1..] == "py" && "..py"[1..] == ".py";
    assert StripLeadingDots(".py") == "py";
    assert StripLeadingDots("..py") == "py";
    assert StartsWith(".py", ".") && StartsWith("..py", ".") && !StartsWith("*.py", ".");
  }

  // ---------------------------------------------------------------------------
  // Outcome envelopes

  /**
   * The result dictionary a tool call hands back, as the wrappers read it:
   * each key may be missing.
   */
  datatype ToolResult<T> = ToolResult(
    totalCount: Option<int>,
    items: Option<seq<T>>,
    isSummarized: Option<bool>,
    summary: Option<seq<T>>)

  /** How a tool call ended: with a result, with `ToolAbortedException`, or with any other exception. */
  datatype ToolOutcome<T> = Returned(result: ToolResult<T>) | ToolAborted | Raised

  /** The envelope of an aborted call. */
  function AbortedContent<T>(): (r: MaybeSummarizedContent<T>)
    ensures r.aborted && !r.error && !r.isSummarized && r.totalLength == 0 && r.content == []
  {
    MaybeSummarizedContent(0, [], false, false, true)
  }

  /** The envelope of a call that raised anything else. */
  function ErrorContent<T>(): (r: MaybeSummarizedContent<T>)
    ensures r.error && !r.aborted && !r.isSummarized && r.totalLength == 0 && r.content == []
  {
    MaybeSummarizedContent(0, [], true, false, false)
  }

  /**
   * The envelope of the `directory`, `file_reader`, `terminal` and ctags
   * wrappers. `result["items"]` is read even when a summary is used, so a
   * result without `items` or without `total_count` raises `KeyError`, which
   * the wrapper reports as an error.
   */
  function ListingContent<T>(outcome: ToolOutcome<T>): (r: MaybeSummarizedContent<T>)
    ensures !(r.aborted && r.error)
    ensures r.aborted || r.error ==> r.totalLength == 0 && r.content == [] && !r.isSummarized
  {
    match outcome
    case ToolAborted => AbortedContent()
    case Raised => ErrorContent()
    case Returned(result) =>
      if result.items.None? || result.totalCount.None? then ErrorContent()
      else
        var summarized := result.isSummarized.Some? && result.isSummarized.value;
        var content :=
          if summarized && result.summary.Some? then result.summary.value else result.items.value;
        MaybeSummarizedContent(result.totalCount.value, content, false, summarized)
  }

  /** A result with both keys it reads. */
  predicate Complete<T>(outcome: ToolOutcome<T>)
  {
    outcome.Returned? && outcome.result.items.Some? && outcome.result.totalCount.Some?
  }

  /**
   * Exactly one of success, abort and error; abort comes only from
   * `ToolAbortedException`; a failed call carries no content.
   */
  lemma ListingOutcomes<T>(outcome: ToolOutcome<T>)
    ensures var r := ListingContent(outcome);
            && (r.aborted <==> outcome.ToolAborted?)
            && (r.error <==> !outcome.ToolAborted? && !Complete(outcome))
            && !(r.aborted && r.error)
            && (r.aborted || r.error ==> r.totalLength == 0 && r.content == [] && !r.isSummarized)
  {
  }

  /**
   * On success the envelope reports the tool's `total_count`, and holds the
   * summary when the result is summarised and has one, otherwise the items.
   */
  lemma ListingSuccess<T>(outcome: ToolOutcome<T>)
    requires Complete(outcome)
    ensures var r := ListingContent(outcome);
            var result := outcome.result;
            && !r.error && !r.aborted
            && r.totalLength == result.totalCount.value
            && (r.isSummarized <==> result.isSummarized == Some(true))
            && r.content == (if r.isSummarized && result.summary.Some? then result.summary.value else result.items.value)
  {
  }

  /** The envelope of `file_writer`: the written count, and that count as the one content string. */
  function WriterContent<T>(outcome: ToolOutcome<T>): (r: MaybeSummarizedContent<string>)
    ensures !(r.aborted && r.error) && |r.content| <= 1
    ensures r.aborted || r.error ==> r.totalLength == 0 && r.content == []
  {
    match outcome
    case ToolAborted => AbortedContent()
    case Raised => ErrorContent()
    case Returned(result) =>
      if result.totalCount.None? then ErrorContent()
      else
        var written := result.totalCount.value;
        MaybeSummarizedContent(written, [IntToDecimal(written)], false, false)
  }

  /** A successful write reports one string, which reads back as the written count. */
  lemma WriterReportsCount<T>(outcome: ToolOutcome<T>)
    ensures var r := WriterContent(outcome);
            && (r.aborted <==> outcome.ToolAborted?)
            && (r.error <==> outcome.Raised? || (outcome.Returned? && outcome.result.totalCount.None?))
            && (!r.error && !r.aborted ==>
                  && |r.content| == 1
                  && ParseInt(r.content[0]) == Some(r.totalLength)
                  && r.totalLength == outcome.result.totalCount.value
                  && !r.isSummarized)
  {
    if outcome.Returned? && outcome.result.totalCount.Some? {
      DecimalRoundTrip(outcome.result.totalCount.value);
    }
  }

  // ---------------------------------------------------------------------------
  // The five wrappers

  datatype DirectoryRequest = DirectoryRequest(
    path: string, limit: int, maxDepth: int, excludeDirs: seq<string>, verbose: bool,
    fileFilter: Option<string>, hideEmptyFolder: bool)

  /** The request the `directory` wrapper sends, or `None` when the path is refused. */
  function DirectoryRequestFor(
    deps: Deps, relativePath: string, maxDepth: int, additionalExcludeDirs: Option<seq<string>>,
    fileFilter: Option<string>, hideEmptyFolder: bool): (req: Option<DirectoryRequest>)
    ensures req.None? <==> GetSafePath(deps.projectRoot, relativePath).AccessDenied?
    ensures req.Some? ==>
              && req.value.path == GetSafePath(deps.projectRoot, relativePath).path
              && StartsWith(req.value.path, NormPath(deps.projectRoot))
              && req.value.excludeDirs == ExcludeDirs(additionalExcludeDirs)
              && |req.value.excludeDirs| >= 25
              && req.value.excludeDirs[..25] == DefaultExcludeDirs
              && req.value.fileFilter == RewriteFileFilter(fileFilter)
              && req.value.limit == deps.limit && req.value.maxDepth == maxDepth
              && req.value.verbose == deps.verbose && req.value.hideEmptyFolder == hideEmptyFolder
  {
    var excludeDirs := ExcludeDirs(additionalExcludeDirs);
    match GetSafePath(deps.projectRoot, relativePath)
    case AccessDenied(_, _) => None
    case Safe(fullPath) =>
      Some(DirectoryRequest(fullPath, deps.limit, maxDepth, excludeDirs, deps.verbose,
                            RewriteFileFilter(fileFilter), hideEmptyFolder))
  }

  /** The `directory` wrapper; `run` stands for `DirectoryTool.run`. */
  function DirectoryCall<T>(
    deps: Deps, relativePath: string, maxDepth: int, additionalExcludeDirs: Option<seq<string>>,
    fileFilter: Option<string>, hideEmptyFolder: bool, run: DirectoryRequest -> ToolOutcome<T>): (r: MaybeSummarizedContent<T>)
    ensures r.aborted ==> GetSafePath(deps.projectRoot, relativePath).Safe?
  {
    match DirectoryRequestFor(deps, relativePath, maxDepth, additionalExcludeDirs, fileFilter, hideEmptyFolder)
    case None => ErrorContent()
    case Some(req) => ListingContent(run(req))
  }

  datatype FileRequest = FileRequest(filePath: string, limit: int, verbose: bool)

  datatype WriteRequest = WriteRequest(filePath: string, content: string, verbose: bool)

  /** The `file_reader` wrapper; `run` stands for `FileReaderTool.run`. */
  function FileReaderCall<T>(deps: Deps, relativePath: string, run: FileRequest -> ToolOutcome<T>): (r: MaybeSummarizedContent<T>)
    ensures r.aborted ==> GetSafePath(deps.projectRoot, relativePath).Safe?
  {
    match GetSafePath(deps.projectRoot, relativePath)
    case AccessDenied(_, _) => ErrorContent()
    case Safe(fullPath) => ListingContent(run(FileRequest(fullPath, deps.limit, deps.verbose)))
  }

  /** The `file_writer` wrapper; `run` stands for `FileWriterTool.run`. */
  function FileWriterCall<T>(deps: Deps, relativePath: string, content: string, run: WriteRequest -> ToolOutcome<T>): (r: MaybeSummarizedContent<string>)
    ensures r.aborted ==> GetSafePath(deps.projectRoot, relativePath).Safe?
  {
    match GetSafePath(deps.projectRoot, relativePath)
    case AccessDenied(_, _) => ErrorContent()
    case Safe(fullPath) => WriterContent(run(WriteRequest(fullPath, content, deps.verbose)))
  }

  datatype TerminalRequest = TerminalRequest(command: string, limit: int, verbose: bool, rootDir: string)

  /** The `terminal` wrapper: no path check; `run` stands for `TerminalTool.run`. */
  function TerminalCall<T>(deps: Deps, command: string, run: TerminalRequest -> ToolOutcome<T>): (r: MaybeSummarizedContent<T>)
    ensures r.aborted <==> run(TerminalRequest(command, deps.limit, deps.verbose, deps.projectRoot)).ToolAborted?
  {
    ListingContent(run(TerminalRequest(command, deps.limit, deps.verbose, deps.projectRoot)))
  }

  /** A keyword argument value. */
  datatype Arg = Str(s: string) | Int(i: int) | Bool(b: bool)

  datatype CtagsRequest = CtagsRequest(action: string, inputPath: string, symbol: string, kind: string, limit: int, verbose: bool, isSymbolRegex: bool)

  /** The keyword arguments the ctags wrapper passes to the tool. */
  function CtagsKeywords(req: CtagsRequest): (kw: map<string, Arg>)
    ensures "input_path" in kw && "input_file" !in kw
  {
    map["action" := Str(req.action), "input_path" := Str(req.inputPath), "symbol" := Str(req.symbol),
        "kind" := Str(req.kind), "limit" := Int(req.limit), "verbose" := Bool(req.verbose),
        "is_symbol_regex" := Bool(req.isSymbolRegex)]
  }

  function StrArg(kw: map<string, Arg>, name: string, default: string): string
  {
    if name in kw && kw[name].Str? then kw[name].s else default
  }

  function IntArg(kw: map<string, Arg>, name: string, default: int): int
  {
    if name in kw && kw[name].Int? then kw[name].i else default
  }

  /**
   * `CtagsTool._run` bound to keyword arguments, assuming `run` hands them on
   * unchanged: the parameters it names take their defaults when absent and
   * the others are collected by `**kwargs`.
   */
  function CtagsToolCall(kw: map<string, Arg>, env: Ctags.Env): (c: Ctags.Call)
    ensures StrArg(kw, "action", "") != "generate_tags" && c.commands != [] ==>
              |c.commands[0]| > 5 && c.commands[0][..5] == ["readtags", "-t", Ctags.TagsFile(StrArg(kw, "input_file", ""), env), "-e", "-n"]
  {
    var action, inputFile := StrArg(kw, "action", ""), StrArg(kw, "input_file", "");
    var symbol, kind, limit := StrArg(kw, "symbol", ""), StrArg(kw, "kind", ""), IntArg(kw, "limit", 50);
    QueryReadsTagsFile(action, inputFile, symbol, kind, limit, env);
    Ctags.Run(action, inputFile, symbol, kind, limit, env)
  }

  lemma QueryReadsTagsFile(action: string, inputFile: string, symbol: string, kind: string, limit: int, env: Ctags.Env)
    ensures var c := Ctags.Run(action, inputFile, symbol, kind, limit, env);
            action != "generate_tags" && c.commands != [] ==>
              |c.commands[0]| > 5 && c.commands[0][..5] == ["readtags", "-t", Ctags.TagsFile(inputFile, env), "-e", "-n"]
  {
    if action != "generate_tags" {
      Ctags.QueriesUseReadtags(action, inputFile, symbol, kind, limit, env);
      var c := Ctags.Run(action, inputFile, symbol, kind, limit, env);
      if c.commands != [] {
        assert c.commands[0] in c.commands;
      }
    }
  }

  /**
   * The ctags wrapper sends the safe path as `input_path`, which `_run` does
   * not read: the tool sees the empty `input_file`, so the tags file is
   * `tags` in the working directory whatever path was asked for.
   */
  lemma CtagsPathNotPassed(req: CtagsRequest, env: Ctags.Env)
    ensures CtagsToolCall(CtagsKeywords(req), env) == Ctags.Run(req.action, "", req.symbol, req.kind, req.limit, env)
    ensures Ctags.TagsFile("", env) == "tags"
  {
    var kw := CtagsKeywords(req);
    assert StrArg(kw, "input_file", "") == "";
    assert kw["action"] == Str(req.action);
    assert kw["symbol"] == Str(req.symbol);
    assert kw["kind"] == Str(req.kind);
    assert kw["limit"] == Int(req.limit);
  }

  /** So the path asked for makes no difference to the ctags tool. */
  lemma CtagsPathIrrelevant(req: CtagsRequest, other: string, env: Ctags.Env)
    ensures CtagsToolCall(CtagsKeywords(req.(inputPath := other)), env) == CtagsToolCall(CtagsKeywords(req), env)
  {
    CtagsPathNotPassed(req, env);
    CtagsPathNotPassed(req.(inputPath := other), env);
  }

  /** The ctags wrapper; `run` stands for `CtagsTool.run`. */
  function CtagsCall<T>(deps: Deps, action: string, relativePath: string, symbol: string, kind: string, isSymbolRegex: bool,
                        run: CtagsRequest -> ToolOutcome<T>): (r: MaybeSummarizedContent<T>)
    ensures r.aborted ==> GetSafePath(deps.projectRoot, relativePath).Safe?
  {
    match GetSafePath(deps.projectRoot, relativePath)
    case AccessDenied(_, _) => ErrorContent()
    case Safe(inputPath) => ListingContent(run(CtagsRequest(action, inputPath, symbol, kind, deps.limit, deps.verbose, isSymbolRegex)))
  }

  /**
   * A refused path never reaches the tool: the wrappers that check paths
   * report an error whatever the tool would have done.
   */
  lemma RefusedPathNeverRuns<T>(
    deps: Deps, relativePath: string, maxDepth: int, additionalExcludeDirs: Option<seq<string>>,
    fileFilter: Option<string>, hideEmptyFolder: bool, content: string, action: string, symbol: string, kind: string,
    isSymbolRegex: bool,
    directoryRun: DirectoryRequest -> ToolOutcome<T>, readerRun: FileRequest -> ToolOutcome<T>,
    writerRun: WriteRequest -> ToolOutcome<T>, ctagsRun: CtagsRequest -> ToolOutcome<T>)
    requires GetSafePath(deps.projectRoot, relativePath).AccessDenied?
    ensures DirectoryCall(deps, relativePath, maxDepth, additionalExcludeDirs, fileFilter, hideEmptyFolder, directoryRun) == ErrorContent()
    ensures FileReaderCall(deps, relativePath, readerRun) == ErrorContent()
    ensures FileWriterCall(deps, relativePath, content, writerRun) == ErrorContent()
    ensures CtagsCall(deps, action, relativePath, symbol, kind, isSymbolRegex, ctagsRun) == ErrorContent()
  {
  }

  /** What a tool receives from a checking wrapper: a path in normal form under the normalised root. */
  predicate AcceptedPath(projectRoot: string, p: string)
  {
    NormPath(p) == p && StartsWith(p, NormPath(projectRoot))
  }

  /** The envelope of a listing wrapper reports the tool's outcome: abort for an abort, error for any other failure. */
  predicate Reports<T>(r: MaybeSummarizedContent<T>, outcome: ToolOutcome<T>)
  {
    && (r.aborted <==> outcome.ToolAborted?)
    && (r.error <==> !outcome.ToolAborted? && !Complete(outcome))
  }

  /**
   * The `directory` wrapper: a refused path is an error and never an abort;
   * for an accepted one the tool runs on the normal path under the root with
   * the extended exclude list, and the envelope reports its outcome.
   */
  lemma DirectoryCallOutcome<T>(
    deps: Deps, relativePath: string, maxDepth: int, additionalExcludeDirs: Option<seq<string>>,
    fileFilter: Option<string>, hideEmptyFolder: bool, run: DirectoryRequest -> ToolOutcome<T>)
    ensures var g := GetSafePath(deps.projectRoot, relativePath);
            var r := DirectoryCall(deps, relativePath, maxDepth, additionalExcludeDirs, fileFilter, hideEmptyFolder, run);
            var req := DirectoryRequestFor(deps, relativePath, maxDepth, additionalExcludeDirs, fileFilter, hideEmptyFolder);
            && (g.AccessDenied? ==> r.error && !r.aborted)
            && (g.Safe? ==>
                  && req.Some? && req.value.path == g.path && AcceptedPath(deps.projectRoot, g.path)
                  && req.value.excludeDirs == ExcludeDirs(additionalExcludeDirs)
                  && Reports(r, run(req.value)))
  {
    var g := GetSafePath(deps.projectRoot, relativePath);
    if g.Safe? {
      SafePathIsNormal(deps.projectRoot, relativePath);
      var req := DirectoryRequestFor(deps, relativePath, maxDepth, additionalExcludeDirs, fileFilter, hideEmptyFolder);
      ListingOutcomes(run(req.value));
    }
  }

  /** The `file_reader` wrapper: the same gate, with the reader run on the accepted path. */
  lemma FileReaderCallOutcome<T>(deps: Deps, relativePath: string, run: FileRequest -> ToolOutcome<T>)
    ensures var g := GetSafePath(deps.projectRoot, relativePath);
            var r := FileReaderCall(deps, relativePath, run);
            && (g.AccessDenied? ==> r.error && !r.aborted)
            && (g.Safe? ==>
                  && AcceptedPath(deps.projectRoot, g.path)
                  && Reports(r, run(FileRequest(g.path, deps.limit, deps.verbose))))
  {
    var g := GetSafePath(deps.projectRoot, relativePath);
    if g.Safe? {
      SafePathIsNormal(deps.projectRoot, relativePath);
      ListingOutcomes(run(FileRequest(g.path, deps.limit, deps.verbose)));
    }
  }

  /**
   * The `file_writer` wrapper: the same gate; for an accepted path the
   * envelope is an abort exactly when the writer aborts, and an error exactly
   * when it raised or returned no count.
   */
  lemma FileWriterCallOutcome<T>(deps: Deps, relativePath: string, content: string, run: WriteRequest -> ToolOutcome<T>)
    ensures var g := GetSafePath(deps.projectRoot, relativePath);
            var r := FileWriterCall(deps, relativePath, content, run);
            && (g.AccessDenied? ==> r.error && !r.aborted)
            && (g.Safe? ==>
                  var outcome := run(WriteRequest(g.path, content, deps.verbose));
                  && AcceptedPath(deps.projectRoot, g.path)
                  && (r.aborted <==> outcome.ToolAborted?)
                  && (r.error <==> !outcome.ToolAborted? && !(outcome.Returned? && outcome.result.totalCount.Some?)))
  {
    var g := GetSafePath(deps.projectRoot, relativePath);
    if g.Safe? {
      SafePathIsNormal(deps.projectRoot, relativePath);
      WriterReportsCount(run(WriteRequest(g.path, content, deps.verbose)));
    }
  }

  /** The ctags wrapper: the same gate, with the accepted path sent as `input_path`. */
  lemma CtagsCallOutcome<T>(deps: Deps, action: string, relativePath: string, symbol: string, kind: string, isSymbolRegex: bool,
                            run: CtagsRequest -> ToolOutcome<T>)
    ensures var g := GetSafePath(deps.projectRoot, relativePath);
            var r := CtagsCall(deps, action, relativePath, symbol, kind, isSymbolRegex, run);
            && (g.AccessDenied? ==> r.error && !r.aborted)
            && (g.Safe? ==>
                  && AcceptedPath(deps.projectRoot, g.path)
                  && Reports(r, run(CtagsRequest(action, g.path, symbol, kind, deps.limit, deps.verbose, isSymbolRegex))))
  {
    var g := GetSafePath(deps.projectRoot, relativePath);
    if g.Safe? {
      SafePathIsNormal(deps.projectRoot, relativePath);
      ListingOutcomes(run(CtagsRequest(action, g.path, symbol, kind, deps.limit, deps.verbose, isSymbolRegex)));
    }
  }

  /** The `terminal` wrapper checks no path: its envelope always reports the tool's outcome. */
  lemma TerminalCallOutcome<T>(deps: Deps, command: string, run: TerminalRequest -> ToolOutcome<T>)
    ensures Reports(TerminalCall(deps, command, run), run(TerminalRequest(command, deps.limit, deps.verbose, deps.projectRoot)))
  {
    ListingOutcomes(run(TerminalRequest(command, deps.limit, deps.verbose, deps.projectRoot)));
  }
}
