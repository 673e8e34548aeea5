# codesearch tool layer, in Dafny

This project models the decision and data-shaping code of codesearch's tool layer. codesearch is a
command-line assistant that explores a code base through a language model and a handful of tools.
The language model itself, the REPL and the processes the tools start are not modelled. The model
covers these parts:

- **Directory tool** (`Directory`, src/tools/directory.py)
  - A depth-first walk over a `Tree` value that stands for the filesystem.
  - Every level appends to one shared list (`EntryList`, a class whose `items` field the methods
    extend). A directory's matching files come first, then its sub-directories' listings, then its
    own entry.
  - Depth limit, excluded names, the file filter and `hide_empty_folder` are modelled as the code
    has them.
  - `fnmatch` is a function parameter. Every property holds for any matcher.
- **ctags tool** (`Ctags`, src/tools/ctags.py)
  - The readtags line parser is a loop proved against a function defined line by line. A line
    formatter is its partner: formatted entries parse back to themselves.
  - Also modelled: the choice of tags file, the dispatch of the action to a readtags command line,
    and truncation to one page.
  - `os.path.isdir`, `os.path.exists` and how a started command ends are parameters (`Env`):
    its exit status and output, or a program that cannot be started.
- **Terminal tool** (`Terminal`, src/tools/terminal.py): what `_run` makes of a finished command's
  output, plus the closing line and a reader for it.
- **Agent wrappers** (`Agent`, src/agent/main_agent.py)
  - the path sandbox `get_safe_path`, over a model of POSIX `normpath` and `join` (`Paths`);
  - the `directory` wrapper's exclude list and `file_filter` rewrite;
  - the mapping of every tool call's outcome to the `MaybeSummarizedContent` envelope.
  - The tools are reached through `BaseTool.run`. It is a function parameter from the request a
    wrapper builds to the call's outcome.
- **Slash commands** (`Commands`, src/commands.py)
  - `handle_command` is a method over a `History` object, which `/add-context` extends in place.
  - It is proved against the function `Handle`.
  - `/copy` searches backwards for the latest `final_result` call in a loop that stops at the
    first match.
- **Records** (`Schemas`, src/agent/schemas.py and src/tools/types.py): `PartialContent`, `Deps`,
  `BaseToolResult` and `MaybeSummarizedContent`.
  - `PartialContent`'s `is_complete` and `missing_length`, and the default values of `Deps`'s
    fields (limit 100, project root `.`, not verbose), are schema definitions that no modelled
    operation uses. They are declared (`PartialContent.IsComplete`, `PartialContent.MissingLength`
    and the defaults of `Deps`) but carry no contract and have no row below.
- **Python built-ins** (`Text`): the behaviour the above relies on from `str.splitlines`,
  `str.split`, `str.strip`, `int()`, `str()` and slicing.

Some of what the code does differs from how it reads at first. The model follows the code:

- `get_safe_path` compares strings, not path components.
  - With the default root `.`, a path inside the project such as `src` is refused: `./src`
    normalises to `src`, which does not start with `.`. A path leaving the project such as `../x` is
    accepted (`Agent.DotRootRefusesPlainName`, `Agent.DotRootAdmitsParent`).
  - Under `/a`, the sibling `/ab` is accepted (`Agent.SiblingWithSharedPrefixAdmitted`).
- The ctags wrapper passes the checked path as `input_path`, but `CtagsTool._run` reads
  `input_file`. The tool therefore always uses `tags` in the working directory, whatever path was
  asked for (`Agent.CtagsPathNotPassed`).
- The ctags actions are `generate_tags`, `find_symbol`, `list_symbols` and `filter_by_kind`. The
  wrapper's docstring describes an action `filter`, which does not exist. `is_symbol_regex` is passed
  along and never read.
- The `terminal` wrapper passes `root_dir`, which `TerminalTool._run` collects in `**kwargs` and
  never reads. Commands therefore run in the process's working directory, not in the project root.
  In the model `Terminal.Run` has no directory parameter, and `TerminalRequest.rootDir` goes nowhere.
- `CtagsTool._run_command` catches only a non-zero exit, which it turns into empty output. A
  `ctags` or `readtags` program that cannot be started raises out of `_run`, for `generate_tags`
  as for a query (`Ctags.Result.Raised`).
- The directory tool's `limit` truncates nothing. `total_count` counts every entry, the scanned
  directory itself included. Only `None` and `-1` mean "no depth limit". A directory at depth
  `max_depth` still lists its files.

## Model

| member | source | states |
|---|---|---|
| Text.Split | src/tools/ctags.py:116 | `split('\t')` gives at least one field, and no field holds the separator |
| Text.SplitJoinRoundTrip | src/tools/ctags.py:116 | joining the fields of a split with the separator gives the line back |
| Text.JoinSplitRoundTrip | src/tools/ctags.py:116 | splitting the join of separator-free fields gives the fields back |
| Text.StripEmptyIffBlank | src/tools/ctags.py:114 | `not line.strip()` holds exactly for lines made only of whitespace |
| Text.StripIdempotent | src/commands.py:56 | stripping a stripped text changes nothing |
| Text.SplitLinesRoundTrip | src/tools/terminal.py:33 | the lines of `splitlines()`, each ended by a newline, are the text with every line boundary turned into `\n` and a final newline added when missing |
| Text.SplitOnce | src/commands.py:30 | `split(maxsplit=1)` gives at most two parts, and none exactly for a blank text |
| Text.SplitOnceParts | src/commands.py:30-31 | the first part is a whole word without whitespace; the second starts with no whitespace; the text after its leading whitespace is the first part, then whitespace (some, when there is a second part), then the second part |
| Text.DecimalRoundTrip | src/tools/ctags.py:128 | `int()` reads back every integer that `str()` writes |
| Text.AsciiLower | src/commands.py:30 | lower-casing keeps the length and maps each letter A-Z to its lower case, leaving other characters alone |
| Text.SliceTo | src/tools/terminal.py:35 | `xs[:n]` is a prefix of `xs` of length `min(n, len(xs))` for `n >= 0`, and drops `-n` items from the end otherwise |
| Paths.Join | src/agent/main_agent.py:46 | an absolute second path replaces the first; otherwise the two are concatenated, with one `/` between them when the first does not end in `/` |
| Paths.Basename | src/tools/directory.py:23 | the basename holds no `/` and is a suffix of the path |
| Paths.BasenameOfJoin | src/tools/directory.py:23 | the basename of a directory joined with a plain name is that name |
| Paths.InitialSlashes | src/agent/main_agent.py:43 | `normpath` keeps 0, 1 or 2 leading slashes, and 0 exactly for a relative path |
| Paths.ResolveIsNormal | src/agent/main_agent.py:46 | the components `normpath` keeps contain no empty, `.` or slash-bearing component, and `..` only as a leading run of a relative path |
| Paths.ResolveNormal | src/agent/main_agent.py:46 | components already in normal form pass through `normpath` unchanged |
| Paths.NormPathIdempotent | src/agent/main_agent.py:43-46 | `normpath(normpath(p)) == normpath(p)` |
| Directory.MakeEntry | src/tools/directory.py:15-29 | an entry keeps its path, and its name is a separator-free basename |
| Directory.EffectiveMaxDepth | src/tools/directory.py:86-88 | `None` and `-1` become 999999; every other depth is kept |
| Directory.Flatten | src/tools/directory.py:112-195 | what `_flatten_helper` appends and returns for a node; content is reported only when something is listed |
| Directory.FlattenSubdirs | src/tools/directory.py:169-179 | what the recursion loop appends over the children; content is reported only when something is listed |
| Directory.Files | src/tools/directory.py:144-151 | the files list holds only non-directory children |
| Directory.Subdirs | src/tools/directory.py:144-151 | the dirs list holds only directory children whose name is not excluded |
| Directory.Partition | src/tools/directory.py:144-151 | the partition loop yields exactly those two lists, in scan order |
| Directory.FileEntries | src/tools/directory.py:154-166 | the files loop records at most one entry per child, each of type file |
| Directory.FileEntriesOfFiles | src/tools/directory.py:150-155 | looping over the partitioned files records what a loop over all children would |
| Directory.FlattenSubdirsOfSubdirs | src/tools/directory.py:169-179 | recursing into the partitioned dirs lists what a loop over all children would |
| Directory.AppendFileEntries | src/tools/directory.py:154-166 | the files loop appends exactly the matching files' records, and `has_content` becomes true iff it appended one |
| Directory.FlattenDirs | src/tools/directory.py:169-179 | the recursion loop appends each sub-directory's listing in order and ORs their content flags into `has_content` |
| Directory.FlattenHelper | src/tools/directory.py:112-195 | `_flatten_helper` appends the node's listing to the shared list and returns its content flag |
| Directory.Run | src/tools/directory.py:64-110 | `_run` returns the whole listing from depth 0, `total_count` is its length, and `returned_count` is unset |
| Directory.ContentMeansFiles | src/tools/directory.py:164-179 | a call reports content exactly when it listed at least one file |
| Directory.HiddenMeansContent | src/tools/directory.py:182 | with `hide_empty_folder`, a call lists something only if it reports content |
| Directory.HiddenWithoutFilesIsEmpty | src/tools/directory.py:164-182 | with `hide_empty_folder`, a walk that lists no file lists nothing at all |
| Directory.ShownFolderListedLast | src/tools/directory.py:181-190 | without `hide_empty_folder`, every scanned directory is listed, with size 0, after everything beneath it |
| Directory.ShownExactlyWhenContent | src/tools/directory.py:181-190 | a scanned directory ends its listing with its own entry exactly when it is shown: always without `hide_empty_folder`, and with it exactly when something beneath it has content |
| Directory.NothingBeyondReach | src/tools/directory.py:127-141 | beyond the depth limit, for a file or for an unreadable directory, a call lists nothing and reports no content |
| Directory.SubdirsBeyondDepth | src/tools/directory.py:169-179 | sub-directories scanned beyond the depth limit contribute nothing |
| Directory.AtDepthLimit | src/tools/directory.py:127-190 | a directory at depth `max_depth` lists its own files first, and nothing else but itself |
| Directory.FilesFirst | src/tools/directory.py:153-179 | a directory's own file records come first in its listing |
| Directory.FileRecordBelow | src/tools/directory.py:154-163 | the record of one scanned file, when written, is a file record whose name passes the filter and whose path extends the scanned path |
| Directory.FileEntriesBelow | src/tools/directory.py:154-163 | every file record is a matching file strictly below the scanned path |
| Directory.ListingBelowPath | src/tools/directory.py:154-190 | every entry lies at or below the scanned path, and only the last entry can be the scanned directory itself |
| Directory.ListingFaithful | src/tools/directory.py:155-188 | every listed file matches the filter (when one is given), and every listed directory has size 0 |
| Directory.MatchingFilesListed | src/tools/directory.py:154-164 | every matching file whose `stat` succeeds is recorded |
| Directory.ScannedDirectoryListsFiles | src/tools/directory.py:153-164 | a scanned directory's listing holds the record of each of its own matching files whose `stat` succeeds |
| Directory.SubdirsKeepListing | src/tools/directory.py:169-179 | the recursion loop keeps the whole listing of every non-excluded directory it visits |
| Directory.SubdirListed | src/tools/directory.py:127-179 | a non-excluded sub-directory of a readable directory within the depth limit has its whole listing, at one level deeper, in its parent's listing |
| Directory.WalkListsReachableFiles | src/tools/directory.py:112-195 | the walk is complete: every matching file whose `stat` succeeds, in a directory reached through readable, non-excluded directories at depth at most `max_depth`, is listed under its joined path |
| Directory.ExcludedDirectoriesInvisible | src/tools/directory.py:146-149 | the walk lists the same entries, with the same content flag, as a walk of the tree with every excluded directory cut away, and that tree holds no excluded directory |
| Ctags.ParseAll | src/tools/ctags.py:113-138 | the parser yields at most one entry per line |
| Ctags.ReadLine | src/tools/ctags.py:114-138 | one output line yields the entry the line parser specifies: nothing for a blank line or one with fewer than three tab fields, else symbol, file, pattern, kind and line |
| Ctags.ReadExtensionFields | src/tools/ctags.py:121-130 | the field loop ends with the last `kind:` value and the last parsable `line:` value |
| Ctags.ParseReadtagsOutput | src/tools/ctags.py:107-139 | `_parse_readtags_output` yields, in order, the entries of the output's lines |
| Ctags.ParseAllAppend | src/tools/ctags.py:113-138 | parsing two runs of lines gives the entries of each, in order |
| Ctags.SkippedLines | src/tools/ctags.py:114-118 | a line yields no entry exactly when it is blank or has fewer than three tab fields |
| Ctags.LastKindIsLast | src/tools/ctags.py:123-125 | the kind is the text after `kind:` in the last kind field |
| Ctags.NoKindField | src/tools/ctags.py:121 | without a kind field the kind is empty |
| Ctags.LastLineIsLast | src/tools/ctags.py:126-130 | the line number is that of the last `line:` field whose value parses |
| Ctags.NoLineField | src/tools/ctags.py:122 | without a parsable `line:` field the line number is 0 |
| Ctags.ParseTagLine | src/tools/ctags.py:116-138 | a formatted tag line parses back to its entry: symbol, file and pattern are the first three tab fields |
| Ctags.ParseFormattedOutput | src/tools/ctags.py:107-139 | parsing the printed lines of printable entries gives back the entries, in order |
| Ctags.TagsFile | src/tools/ctags.py:42 | the tags file is `<input_file>/tags` for a directory and `tags` otherwise, so its basename is always `tags` |
| Ctags.RunCommand | src/tools/ctags.py:98-105 | `_run_command` gives the standard output of a zero exit, empty output for any other exit, and nothing when the program cannot be started |
| Ctags.QueryCommand | src/tools/ctags.py:59-82 | a readtags command line exists exactly for `find_symbol` with a symbol, `list_symbols`, and `filter_by_kind` with a kind |
| Ctags.QueryArguments | src/tools/ctags.py:59-78 | each command line is the base `readtags -t <tags> -e -n` followed by `-i <symbol>`, `--list`, or `--list -Q "kind == '<kind>'"` for its action |
| Ctags.Truncate | src/tools/ctags.py:85-95 | a page counts every entry and holds the first `min(total, limit)` of them in order, never more than the total |
| Ctags.Run | src/tools/ctags.py:39-95 | `_run` runs at most one command; it aborts only for a query and before running anything, and it raises only when the command it runs cannot be started |
| Ctags.GenerateTags | src/tools/ctags.py:44-51 | `generate_tags` runs ctags once, recursively, into the chosen tags file, and returns the empty page whatever the exit status; it raises when ctags cannot be started |
| Ctags.MissingTagsFileAborts | src/tools/ctags.py:53-57 | every other action aborts before running anything when the tags file is missing |
| Ctags.NoQueryIffEmptyRequest | src/tools/ctags.py:59-82 | with a tags file present, nothing runs exactly for an unknown action, `find_symbol` without a symbol or `filter_by_kind` without a kind, and the page is then empty |
| Ctags.QueriesUseReadtags | src/tools/ctags.py:59-85 | a query runs one readtags command on the chosen tags file, with extension fields and line numbers, then `-i <symbol>` for `find_symbol`, `--list` for `list_symbols`, and `--list -Q "kind == '<kind>'"` for `filter_by_kind` |
| Ctags.QueryPage | src/tools/ctags.py:84-105 | a query raises exactly when readtags cannot be started, returns the empty page after a non-zero exit, and otherwise counts every parsed entry and returns the first `min(total, limit)` in order |
| Terminal.Run | src/tools/terminal.py:27-40 | a started command yields a result whose total counts its output lines and whose lines are a prefix of them |
| Terminal.ReturnedLines | src/tools/terminal.py:35-39 | `returned_lines` is `min(total_lines, limit)`, never more than `total_lines`, and every line is returned when they fit |
| Terminal.ExitStatusIgnored | src/tools/terminal.py:28-31 | the exit status makes no difference: a failing command's output is used like any other |
| Terminal.ReturnedLinesAreOutput | src/tools/terminal.py:33-35 | the returned lines, rejoined, are a prefix of the normalised output |
| Terminal.ToolTextEndRoundTrip | src/tools/terminal.py:20-21 | the closing line reads back as exactly the two counts of the result |
| Agent.GetSafePath | src/agent/main_agent.py:28-52 | an accepted path starts with the normalised root as a string; a refusal carries the normalised root and a path that does not |
| Agent.SafePathIsNormal | src/agent/main_agent.py:43-52 | an accepted path is its own normal form |
| Agent.AbsolutePathReplacesRoot | src/agent/main_agent.py:46-49 | an absolute path replaces the root, and is accepted iff its normal form starts with the normalised root |
| Agent.PlainRelativePathAdmitted | src/agent/main_agent.py:43-52 | under an absolute root, a relative path without `..` components is always accepted |
| Agent.DotRootAdmitsParent | src/agent/main_agent.py:43-52 | with root `.`, the path `../x` is accepted as `../x` |
| Agent.DotRootRefusesPlainName | src/agent/main_agent.py:43-52 | with root `.`, the path `src` is refused |
| Agent.SiblingWithSharedPrefixAdmitted | src/agent/main_agent.py:49-50 | with root `/a`, the path `../ab` is accepted as `/ab` |
| Agent.ExcludeDirs | src/agent/main_agent.py:89-95 | the exclude list is the 25 defaults followed by the additional names in order; `None` adds nothing |
| Agent.ExcludedNames | src/agent/main_agent.py:89-95 | a name is excluded iff it is a default or was asked for |
| Agent.RewriteFileFilter | src/agent/main_agent.py:98-99 | a non-empty filter starting with `.` becomes `*.` followed by the filter without its leading dots; any other filter, and no filter, is unchanged |
| Agent.RewriteFileFilterIdempotent | src/agent/main_agent.py:98-99 | rewriting a rewritten filter changes nothing |
| Agent.ExtensionFilters | src/agent/main_agent.py:98-99 | `.py` and `..py` become `*.py`; `*.py` and the empty filter stay as they are |
| Agent.AbortedContent | src/agent/main_agent.py:118-126 | an aborted call reports aborted, no error, not summarised, length 0 and no content |
| Agent.ErrorContent | src/agent/main_agent.py:127-135 | a failed call reports an error, not aborted, not summarised, length 0 and no content |
| Agent.ListingContent | src/agent/main_agent.py:110-135 | the envelope of a listing wrapper is never both aborted and an error, and a failed call carries nothing |
| Agent.ListingOutcomes | src/agent/main_agent.py:110-135 | the envelope is aborted exactly for `ToolAbortedException`, an error exactly for any other exception or a result lacking `items` or `total_count`, never both, and a failed call carries nothing |
| Agent.ListingSuccess | src/agent/main_agent.py:110-117 | on success the envelope reports `total_count`, and holds the summary when the result is summarised and has one, otherwise the items |
| Agent.WriterReportsCount | src/agent/main_agent.py:164-187 | a successful write reports the written count, with one content string that reads back as that count |
| Agent.WriterContent | src/agent/main_agent.py:164-187 | the `file_writer` envelope is never both aborted and an error, holds at most one string, and a failed call carries nothing |
| Agent.DirectoryRequestFor | src/agent/main_agent.py:88-109 | the `directory` wrapper sends a request exactly when the path is accepted: the safe path, the defaults followed by the additional exclude names, the rewritten filter, the session limit and `verbose`, the given depth and `hide_empty_folder` |
| Agent.DirectoryCall | src/agent/main_agent.py:68-135 | the `directory` wrapper can report an abort only for an accepted path |
| Agent.FileReaderCall | src/agent/main_agent.py:190-237 | the `file_reader` wrapper can report an abort only for an accepted path |
| Agent.FileWriterCall | src/agent/main_agent.py:137-187 | the `file_writer` wrapper can report an abort only for an accepted path |
| Agent.TerminalCall | src/agent/main_agent.py:240-289 | the `terminal` wrapper reports an abort exactly when the tool aborts |
| Agent.CtagsCall | src/agent/main_agent.py:292-356 | the ctags wrapper can report an abort only for an accepted path |
| Agent.CtagsKeywords | src/agent/main_agent.py:321-330 | the ctags wrapper passes the path under the keyword `input_path`, and passes no `input_file` |
| Agent.CtagsToolCall | src/tools/ctags.py:39-60 | a query the tool runs from the wrapper's keywords reads the tags file chosen from `input_file` |
| Agent.QueryReadsTagsFile | src/tools/ctags.py:42-60 | a query the ctags tool runs reads the tags file chosen from `input_file`, with extension fields and line numbers |
| Agent.CtagsPathNotPassed | src/agent/main_agent.py:321-330 | the ctags tool runs as if called with the empty `input_file`, so its tags file is `tags` |
| Agent.CtagsPathIrrelevant | src/tools/ctags.py:39-42 | the path the wrapper passes makes no difference to the ctags tool |
| Agent.RefusedPathNeverRuns | src/agent/main_agent.py:96-135 | for a refused path, the `directory`, `file_reader`, `file_writer` and ctags wrappers report an error whatever the tool would do |
| Agent.DirectoryCallOutcome | src/agent/main_agent.py:88-135 | a refused path is an error and never an abort; for an accepted one the tool receives a normal path under the root with the extended exclude list, and the envelope is an abort exactly when the tool aborts and an error exactly when it raised or its result lacks `items` or `total_count` |
| Agent.FileReaderCallOutcome | src/agent/main_agent.py:204-237 | the same for `file_reader`: error for a refused path; for an accepted one the reader receives the normal path, and its outcome alone decides abort and error |
| Agent.FileWriterCallOutcome | src/agent/main_agent.py:156-187 | the same for `file_writer`: error for a refused path; for an accepted one, abort exactly when the writer aborts and error exactly when it raised or returned no `total_count` |
| Agent.CtagsCallOutcome | src/agent/main_agent.py:318-356 | the same for the ctags wrapper: error for a refused path; for an accepted one the tool receives the normal path as `input_path`, and its outcome alone decides abort and error |
| Agent.TerminalCallOutcome | src/agent/main_agent.py:254-289 | the `terminal` wrapper checks no path: abort and error follow the tool's outcome alone |
| Commands.LastFinalCall | src/commands.py:93-102 | the position found holds a `final_result` call with decoded arguments and none comes after it; no position means there is no such call |
| Commands.FindFinalResult | src/commands.py:93-102 | the backwards search returns the `answer` of the latest `final_result` call, and stops there even when that call has none |
| Commands.FinalAnswerAppend | src/commands.py:93-102 | a new message decides the final answer when it is a `final_result` call; otherwise the earlier history does |
| Commands.ContextKeepsFinalAnswer | src/commands.py:53-57 | a context message never hides a final answer from `/copy` |
| Commands.Words | src/commands.py:30 | the lower-cased command splits into at most two parts, and none exactly for a blank command; the first is the command's first word, and with the whitespace between them the parts rebuild the lower-cased command after its leading whitespace |
| Commands.HandleCommand | src/commands.py:28-127 | `handle_command` gives the type, prompt, clipboard text and new history of `Handle`, hands back the caller's own history object, and raises exactly when `Handle` fails |
| Commands.DispatchCommand | src/commands.py:33-127 | the `match` on the command word gives what `Dispatch` gives, changing the history object only as `Dispatch` says |
| Commands.FailsOnlyWhenBlank | src/commands.py:30-31 | a command raises exactly when it is blank |
| Commands.CaseInsensitive | src/commands.py:30-33 | a command and its lower-cased form lead to the same type of result and the same clipboard text |
| Commands.DispatchIgnoresLine | src/commands.py:33-127 | apart from the text it quotes, a command's result depends only on its words and the history |
| Commands.HistoryOnlyGrowsByContext | src/commands.py:53-65 | the history only grows, by at most one message, and only `/add-context` with text adds one: the user message `Context: ` followed by the stripped remainder of the original command |
| Commands.EmptyContextIgnored | src/commands.py:53-65 | `/add-context` without text continues with the history unchanged |
| Commands.SpecPrompt | src/commands.py:67-82 | only `/spec` with a name hands a prompt to the agent, the template filled with the stripped name; `/spec` alone continues |
| Commands.CopyTakesLatestAnswer | src/commands.py:84-118 | `/copy` copies exactly when the latest `final_result` call carries an answer, copies that answer, and otherwise continues; an empty history never copies |
| Commands.ExitOnlyOnExit | src/commands.py:33-127 | only `/exit` ends the loop, and every word but `/spec` and `/copy` continues it |

## Left out

- The language model, the agents built on it, their prompts and the summarising agent: these are external calls and prose.
- The `/spec` prompt template: `SPEC_PROMPT` is not defined in src/agent/prompts.py, so filling it is a function parameter of `Commands.Handle`.
- `BaseTool.run`: its body is not part of this model, and src/tools/base.py only declares `run`.
  - In the `Agent` wrappers it is a function parameter.
  - The approval gate and the summarisation are assumed to happen inside it, in code that is not shown. Whether it also renames a tool's own result keys is not known either: `DirectoryTool._run` returns `items` and `total_count`, while the terminal and ctags tools return `lines`/`total_lines` and `entries`/`total_entries`, which the wrappers do not read. The envelopes therefore treat each key of the result as possibly missing, and a result without `items` or `total_count` ends as an error.
- Launching processes: `subprocess` and `shlex.split`. How a command ends is an input: its exit status and output, or `Terminal.Launch.NotStarted`.
  - In the terminal tool, an exception other than a non-zero exit, such as a missing program or unbalanced quotes, propagates. It is `Terminal.Launch.NotStarted`.
  - In the ctags tool, `_run_command` is modelled (`Ctags.RunCommand`): a program that cannot be started raises out of `_run` (`Ctags.Result.Raised`).
- The filesystem is the `Tree` value.
  - `os.scandir` order is the children's order, and a failing `scandir` is `readable == false`.
  - A failing `stat` is `stat == None`, and modification times are opaque text.
  - `datetime`, `json.dumps` and `fnmatch` are not modelled; `fnmatch` is the parameter `matches`.
  - Symbolic links appear only as non-directory children, since the tool does not follow them.
- Directory.FlattenHelper: an unreadable directory makes the source return `None`, not `False`. The model returns `false`, which the caller treats the same way in `has_content or ...`.
- Text.ParseInt: Python's `int()` also accepts non-ASCII Unicode decimal digits, such as Arabic-Indic ones. The model accepts only ASCII digits (with `_` between them, as Python does), so a `line:` field written with other digits is treated as unparsable.
- Directory.Run: `_run` takes `exclude_dirs=None` by default, and then raises `TypeError` at the first sub-directory, where it tests `entry.name not in exclude_dirs`. The model always takes a list, which is what the `directory` wrapper passes.
- Agent.ExcludeDirs: `additional_exclude_dirs` is typed as an optional list of names. A truthy value that is not a list, such as a string, would make `default_exclude_dirs + ...` raise `TypeError` at src/agent/main_agent.py:95, which the wrapper's `except` reports as the error envelope. The model does not represent such values; a falsy value, such as an empty list, acts like `None`, as in the source.
- Text.AsciiLower: Python's `str.lower()` lower-cases all of Unicode. The model lower-cases only A-Z, which is all the command words need.
- Commands.AnswerOf: the `answer` value of a `final_result` call is modelled as a string. Other JSON values, which `pyperclip.copy` would reject, are left out.
- The file reader and file writer tools: they are thin wrappers over `open()`, whose newline and encoding behaviour belongs to Python's I/O. Their agent wrappers are modelled.
- Console output: `colored_print`, `print_verbose_output`, `get_tool_text_start`, the ctags tool's `get_tool_text_end`, `print_blue_line` and logging.
- The clipboard: `/copy`'s `pyperclip.copy` is the `copied` out-parameter of `Commands.HandleCommand`.
- The REPL in src/cli.py, configuration in src/config/settings.py, and `async`/`await`.
- The tests under src/tests: they exercise names the code does not define, and assert nothing about the modelled code.
- Integers are unbounded, as in Python, so no width is modelled.
