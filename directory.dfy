/**
 * The directory tool (src/tools/directory.py): a depth-first walk that lists
 * every matching file, then every sub-directory's listing, then the directory
 * itself, into one flat list shared by all levels of the recursion.
 *
 * The filesystem below the scanned path is a `Tree` value; what `scandir` and
 * `stat` would report (including their failures) is read off it.
 */
module Directory {
  import opened Text
  import opened Paths
  import opened Schemas

  /** What `stat` reports; `modified` is the ISO-8601 text of the modification time. */
  datatype Stat = Stat(size: nat, modified: string)

  /**
   * A directory entry as `scandir` reports it. `Dir` is a real directory (not a
   * link to one); `readable` is whether `scandir` succeeds on it. `File` is
   * anything else. `stat` is `None` when `stat` fails.
   */
  datatype Tree =
    | Dir(name: string, children: seq<Tree>, readable: bool, stat: Option<Stat>)
    | File(name: string, stat: Option<Stat>)

  datatype EntryType = FileEntry | DirectoryEntry

  /** One listed entry, the fields `entry_to_json` serialises. */
  datatype DirEntry = DirEntry(name: string, path: string, entryType: EntryType, size: nat, modified: string)

  /** `entry_to_json`, before serialisation: the name is the basename of the path. */
  function MakeEntry(path: string, entryType: EntryType, size: nat, modified: string): (e: DirEntry)
    ensures '/' !in e.name && e.path == path
  {
    DirEntry(Basename(path), path, entryType, size, modified)
  }

  /**
   * The parameters passed unchanged down the recursion. `matches` is
   * `fnmatch.fnmatch(name, pattern)`.
   */
  datatype Config = Config(
    excludeDirs: seq<string>,
    maxDepth: int,
    fileFilter: Option<string>,
    hideEmptyFolder: bool,
    matches: (string, string) -> bool)

  /** What one `_flatten_helper` call appends, and what it returns. */
  datatype Outcome = Outcome(entries: seq<DirEntry>, hasContent: bool)

  /** No depth given, or -1, means unlimited, which the tool spells 999999. */
  function EffectiveMaxDepth(maxDepth: Option<int>): (m: int)
    ensures maxDepth.None? || maxDepth.value == -1 ==> m == 999999
    ensures maxDepth.Some? && maxDepth.value != -1 ==> m == maxDepth.value
  {
    match maxDepth
    case None => 999999
    case Some(d) => if d == -1 then 999999 else d
  }

  predicate Qualifies(name: string, cfg: Config)
  {
    cfg.fileFilter.None? || cfg.matches(name, cfg.fileFilter.value)
  }

  /** What one child contributes in the files loop: a record if it is a matching file whose `stat` succeeds. */
  function FileRecord(c: Tree, path: string, cfg: Config): seq<DirEntry>
  {
    if c.File? && Qualifies(c.name, cfg) && c.stat.Some? then
      [MakeEntry(Join(path, c.name), FileEntry, c.stat.value.size, c.stat.value.modified)]
    else []
  }

  /** The records of the files loop over the children `cs` of the directory at `path`. */
  function FileEntries(cs: seq<Tree>, path: string, cfg: Config): (r: seq<DirEntry>)
    ensures |r| <= |cs|
    ensures forall e :: e in r ==> e.entryType == FileEntry
  {
    if cs == [] then [] else FileEntries(cs[..|cs| - 1], path, cfg) + FileRecord(cs[|cs| - 1], path, cfg)
  }

  /** What `_flatten_helper(path, ..., current_depth = depth)` appends and returns when `path` holds `node`. */
  function Flatten(node: Tree, path: string, depth: int, cfg: Config): (r: Outcome)
    ensures r.hasContent ==> r.entries != []
    decreases node
  {
    if depth > cfg.maxDepth || node.File? || !node.readable then Outcome([], false)
    else
      var files := FileEntries(node.children, path, cfg);
      var sub := FlattenSubdirs(node, node.children, path, depth + 1, cfg);
      var hasContent := files != [] || sub.hasContent;
      var own :=
        if (!cfg.hideEmptyFolder || hasContent) && node.stat.Some? then
          [MakeEntry(path, DirectoryEntry, 0, node.stat.value.modified)]
        else [];
      Outcome(files + sub.entries + own, hasContent)
  }

  /** The recursion loop over the children `cs` of `parent`: directories not excluded, in order. */
  function FlattenSubdirs(parent: Tree, cs: seq<Tree>, path: string, depth: int, cfg: Config): (r: Outcome)
    requires parent.Dir? && forall c :: c in cs ==> c in parent.children
    ensures r.hasContent ==> r.entries != []
    decreases parent, |cs|
  {
    if cs == [] then Outcome([], false)
    else
      var init := FlattenSubdirs(parent, cs[..|cs| - 1], path, depth, cfg);
      var c := cs[|cs| - 1];
      assert c in parent.children by { assert c in cs; }
      if c.Dir? && c.name !in cfg.excludeDirs then
        var o := Flatten(c, Join(path, c.name), depth, cfg);
        Outcome(init.entries + o.entries, init.hasContent || o.hasContent)
      else init
  }

  /** The children that the files loop visits: everything that is not a directory. */
  function Files(cs: seq<Tree>): (r: seq<Tree>)
    ensures forall f :: f in r ==> f in cs && f.File?
  {
    if cs == [] then []
    else
      var c := cs[|cs| - 1];
      Files(cs[..|cs| - 1]) + if c.File? then [c] else []
  }

  /** The children that the recursion loop visits: directories whose name is not excluded. */
  function Subdirs(cs: seq<Tree>, excludeDirs: seq<string>): (r: seq<Tree>)
    ensures forall d :: d in r ==> d in cs && d.Dir? && d.name !in excludeDirs
  {
    if cs == [] then []
    else
      var c := cs[|cs| - 1];
      Subdirs(cs[..|cs| - 1], excludeDirs) + if c.Dir? && c.name !in excludeDirs then [c] else []
  }

  /** The partition loop of `_flatten_helper`: splits the scanned children into directories to enter and files. */
  method Partition(entries: seq<Tree>, excludeDirs: seq<string>) returns (dirs: seq<Tree>, files: seq<Tree>)
    ensures dirs == Subdirs(entries, excludeDirs) && files == Files(entries)
  {
    dirs, files := [], [];
    for i := 0 to |entries|
      invariant dirs == Subdirs(entries[..i], excludeDirs)
      invariant files == Files(entries[..i])
    {
      var entry := entries[i];
      assert entries[..i + 1][..i] == entries[..i];
      if entry.Dir? {
        if entry.name !in excludeDirs {
          dirs := dirs + [entry];
        }
      } else {
        files := files + [entry];
      }
    }
    assert entries[..|entries|] == entries;
  }

  /** The files loop over the partitioned files lists what a loop over all children would. */
  lemma {:induction false} FileEntriesOfFiles(cs: seq<Tree>, path: string, cfg: Config)
    ensures FileEntries(Files(cs), path, cfg) == FileEntries(cs, path, cfg)
  {
    if cs != [] {
      var init, c := cs[..|cs| - 1], cs[|cs| - 1];
      FileEntriesOfFiles(init, path, cfg);
      if c.File? {
        var fs := Files(init) + [c];
        assert fs[..|fs| - 1] == Files(init);
      } else {
        assert Files(cs) == Files(init) + [];
        assert Files(init) + [] == Files(init);
        assert FileRecord(c, path, cfg) == [];
        assert FileEntries(init, path, cfg) + [] == FileEntries(init, path, cfg);
      }
    }
  }

  /** The recursion loop over the partitioned directories lists what a loop over all children would. */
  lemma {:induction false} FlattenSubdirsOfSubdirs(parent: Tree, cs: seq<Tree>, path: string, depth: int, cfg: Config)
    requires parent.Dir? && forall c :: c in cs ==> c in parent.children
    ensures FlattenSubdirs(parent, Subdirs(cs, cfg.excludeDirs), path, depth, cfg) == FlattenSubdirs(parent, cs, path, depth, cfg)
  {
    if cs != [] {
      var init, c := cs[..|cs| - 1], cs[|cs| - 1];
      assert forall x :: x in init ==> x in cs;
      FlattenSubdirsOfSubdirs(parent, init, path, depth, cfg);
      var ds := Subdirs(init, cfg.excludeDirs);
      if c.Dir? && c.name !in cfg.excludeDirs {
        assert (ds + [c])[..|ds|] == ds;
      } else {
        assert Subdirs(cs, cfg.excludeDirs) == ds + [];
        assert ds + [] == ds;
      }
    }
  }

  /** The list every level of the walk appends to. */
  class EntryList {
    var items: seq<DirEntry>

    constructor ()
      ensures items == []
    {
      items := [];
    }
  }

  /** The files loop of `_flatten_helper`: appends a record per matching file whose `stat` succeeds. */
  method AppendFileEntries(path: string, files: seq<Tree>, cfg: Config, flattened: EntryList) returns (hasContent: bool)
    requires forall f :: f in files ==> f.File?
    modifies flattened
    ensures flattened.items == old(flattened.items) + FileEntries(files, path, cfg)
    ensures hasContent == (FileEntries(files, path, cfg) != [])
  {
    ghost var before := flattened.items;
    hasContent := false;
    for j := 0 to |files|
      invariant flattened.items == before + FileEntries(files[..j], path, cfg)
      invariant hasContent == (FileEntries(files[..j], path, cfg) != [])
    {
      var fileEntry := files[j];
      assert files[..j + 1][..j] == files[..j];
      assert FileEntries(files[..j + 1], path, cfg) == FileEntries(files[..j], path, cfg) + FileRecord(fileEntry, path, cfg);
      assert fileEntry in files;
      if (cfg.fileFilter.None? || cfg.matches(fileEntry.name, cfg.fileFilter.value)) && fileEntry.stat.Some? {
        var st := fileEntry.stat.value;
        var record := MakeEntry(Join(path, fileEntry.name), FileEntry, st.size, st.modified);
        Associate(before, FileEntries(files[..j], path, cfg), [record]);
        flattened.items := flattened.items + [record];
        hasContent := true;
      } else {
        // the file does not match, or its stat fails: it is skipped
        assert FileEntries(files[..j], path, cfg) + [] == FileEntries(files[..j], path, cfg);
      }
    }
    assert files[..|files|] == files;
  }

  /** `_flatten_helper`: appends the listing of `node`, found at `path`, to `flattened`. */
  method FlattenHelper(path: string, node: Tree, cfg: Config, flattened: EntryList, currentDepth: int)
    returns (hasContent: bool)
    modifies flattened
    ensures flattened.items == old(flattened.items) + Flatten(node, path, currentDepth, cfg).entries
    ensures hasContent == Flatten(node, path, currentDepth, cfg).hasContent
    decreases node, 1
  {
    if currentDepth > cfg.maxDepth {
      assert flattened.items + [] == flattened.items;
      return false;
    }
    hasContent := false;
    if node.File? || !node.readable {
      // scandir fails: nothing is listed
      assert flattened.items + [] == flattened.items;
      return false;
    }
    var dirs, files := Partition(node.children, cfg.excludeDirs);
    FileEntriesOfFiles(node.children, path, cfg);
    FlattenSubdirsOfSubdirs(node, node.children, path, currentDepth + 1, cfg);

    ghost var before := flattened.items;
    hasContent := AppendFileEntries(path, files, cfg, flattened);

    hasContent := FlattenDirs(path, node, dirs, cfg, flattened, currentDepth + 1, hasContent);

    ghost var files' := FileEntries(node.children, path, cfg);
    ghost var sub := FlattenSubdirs(node, node.children, path, currentDepth + 1, cfg);
    Associate(before, files', sub.entries);
    if (!cfg.hideEmptyFolder || hasContent) && node.stat.Some? {
      var own := [MakeEntry(path, DirectoryEntry, 0, node.stat.value.modified)];
      Associate(before, files' + sub.entries, own);
      flattened.items := flattened.items + own;
    } else {
      // the directory is hidden, or its own stat fails: it is not listed
      assert files' + sub.entries + [] == files' + sub.entries;
    }
  }

  /**
   * The recursion loop of `_flatten_helper`: each partitioned directory is
   * flattened in turn, and `has_content` picks up what they report.
   */
  method FlattenDirs(path: string, node: Tree, dirs: seq<Tree>, cfg: Config, flattened: EntryList, depth: int, hasContent0: bool)
    returns (hasContent: bool)
    requires node.Dir? && dirs == Subdirs(node.children, cfg.excludeDirs)
    modifies flattened
    ensures flattened.items == old(flattened.items) + FlattenSubdirs(node, dirs, path, depth, cfg).entries
    ensures hasContent == (hasContent0 || FlattenSubdirs(node, dirs, path, depth, cfg).hasContent)
    decreases node, 0
  {
    hasContent := hasContent0;
    ghost var before := flattened.items;
    for k := 0 to |dirs|
      invariant forall d :: d in dirs[..k] ==> d in node.children
      invariant flattened.items == before + FlattenSubdirs(node, dirs[..k], path, depth, cfg).entries
      invariant hasContent == (hasContent0 || FlattenSubdirs(node, dirs[..k], path, depth, cfg).hasContent)
    {
      var dirEntry := dirs[k];
      ghost var done := FlattenSubdirs(node, dirs[..k], path, depth, cfg);
      ghost var o := Flatten(dirEntry, Join(path, dirEntry.name), depth, cfg);
      SubdirsStep(node, dirs, k, path, depth, cfg);
      Associate(before, done.entries, o.entries);
      var hasSubdirContent := FlattenHelper(Join(path, dirEntry.name), dirEntry, cfg, flattened, depth);
      hasContent := hasContent || hasSubdirContent;
    }
    assert dirs[..|dirs|] == dirs;
  }

  /** One turn of the recursion loop over the partitioned directories `dirs`. */
  lemma SubdirsStep(node: Tree, dirs: seq<Tree>, k: nat, path: string, depth: int, cfg: Config)
    requires node.Dir? && dirs == Subdirs(node.children, cfg.excludeDirs) && k < |dirs|
    ensures forall d :: d in dirs[..k + 1] ==> d in node.children
    ensures dirs[k] < node
    ensures var done := FlattenSubdirs(node, dirs[..k], path, depth, cfg);
            var o := Flatten(dirs[k], Join(path, dirs[k].name), depth, cfg);
            FlattenSubdirs(node, dirs[..k + 1], path, depth, cfg) == Outcome(done.entries + o.entries, done.hasContent || o.hasContent)
  {
    var dirEntry := dirs[k];
    assert dirEntry in dirs && dirEntry in node.children;
    assert dirs[..k + 1] == dirs[..k] + [dirEntry];
    FlattenSubdirsSnoc(node, dirs[..k], dirEntry, path, depth, cfg);
  }

  /** Visiting one more directory appends its outcome. */
  lemma FlattenSubdirsSnoc(parent: Tree, cs: seq<Tree>, c: Tree, path: string, depth: int, cfg: Config)
    requires parent.Dir? && (forall d :: d in cs ==> d in parent.children) && c in parent.children
    requires c.Dir? && c.name !in cfg.excludeDirs
    ensures forall d :: d in cs + [c] ==> d in parent.children
    ensures var done := FlattenSubdirs(parent, cs, path, depth, cfg);
            var o := Flatten(c, Join(path, c.name), depth, cfg);
            FlattenSubdirs(parent, cs + [c], path, depth, cfg) == Outcome(done.entries + o.entries, done.hasContent || o.hasContent)
  {
    assert (cs + [c])[..|cs|] == cs;
  }

  /**
   * `DirectoryTool._run`: the whole listing of `root`, found at `path`. The
   * `limit` argument is accepted and ignored, and no returned count is set.
   */
  method Run(
    root: Tree, path: string, limit: int, maxDepth: Option<int>, excludeDirs: seq<string>,
    fileFilter: Option<string>, hideEmptyFolder: bool, matches: (string, string) -> bool)
    returns (result: BaseToolResult<DirEntry>)
    ensures result.items
         == Flatten(root, path, 0, Config(excludeDirs, EffectiveMaxDepth(maxDepth), fileFilter, hideEmptyFolder, matches)).entries
    ensures result.totalCount == |result.items| && result.returnedCount.None?
  {
    var cfg := Config(excludeDirs, EffectiveMaxDepth(maxDepth), fileFilter, hideEmptyFolder, matches);
    var allEntries := new EntryList();
    var _ := FlattenHelper(path, root, cfg, allEntries, 0);
    result := BaseToolResult(|allEntries.items|, None, allEntries.items);
  }

  // ---------------------------------------------------------------------------
  // What the listing promises

  /** Scanned names are non-empty and never contain a separator, at every level. */
  predicate WellNamed(t: Tree)
  {
    t.Dir? ==> forall c :: c in t.children ==> c.name != [] && '/' !in c.name && WellNamed(c)
  }

  predicate HasFileEntry(es: seq<DirEntry>)
  {
    exists e :: e in es && e.entryType == FileEntry
  }

  lemma HasFileEntryAppend(a: seq<DirEntry>, b: seq<DirEntry>)
    ensures HasFileEntry(a + b) <==> HasFileEntry(a) || HasFileEntry(b)
  {
    if HasFileEntry(a + b) {
      var e :| e in a + b && e.entryType == FileEntry;
    }
    if HasFileEntry(a) {
      var e :| e in a && e.entryType == FileEntry;
      assert e in a + b;
    }
    if HasFileEntry(b) {
      var e :| e in b && e.entryType == FileEntry;
      assert e in a + b;
    }
  }

  /** The records of the files loop are non-empty exactly when one of them is a file entry. */
  lemma FileEntriesHaveFiles(cs: seq<Tree>, path: string, cfg: Config)
    ensures HasFileEntry(FileEntries(cs, path, cfg)) <==> FileEntries(cs, path, cfg) != []
  {
    var r := FileEntries(cs, path, cfg);
    if r != [] {
      assert r[0] in r;
    }
  }

  /** `_flatten_helper` reports content exactly when it listed at least one file. */
  lemma {:induction false} ContentMeansFiles(node: Tree, path: string, depth: int, cfg: Config)
    ensures var o := Flatten(node, path, depth, cfg); o.hasContent <==> HasFileEntry(o.entries)
    decreases node
  {
    if depth <= cfg.maxDepth && node.Dir? && node.readable {
      var files := FileEntries(node.children, path, cfg);
      var sub := FlattenSubdirs(node, node.children, path, depth + 1, cfg);
      var o := Flatten(node, path, depth, cfg);
      var own := o.entries[|files + sub.entries|..];
      assert o.entries == files + sub.entries + own;
      assert forall e :: e in own ==> e.entryType == DirectoryEntry;
      SubdirContentMeansFiles(node, node.children, path, depth + 1, cfg);
      FileEntriesHaveFiles(node.children, path, cfg);
      HasFileEntryAppend(files, sub.entries);
      HasFileEntryAppend(files + sub.entries, own);
    }
  }

  lemma {:induction false} SubdirContentMeansFiles(parent: Tree, cs: seq<Tree>, path: string, depth: int, cfg: Config)
    requires parent.Dir? && forall c :: c in cs ==> c in parent.children
    ensures var o := FlattenSubdirs(parent, cs, path, depth, cfg); o.hasContent <==> HasFileEntry(o.entries)
    decreases parent, |cs|
  {
    if cs != [] {
      var init, c := cs[..|cs| - 1], cs[|cs| - 1];
      assert forall x :: x in init ==> x in cs;
      SubdirContentMeansFiles(parent, init, path, depth, cfg);
      if c.Dir? && c.name !in cfg.excludeDirs {
        assert c in cs;
        ContentMeansFiles(c, Join(path, c.name), depth, cfg);
        HasFileEntryAppend(
          FlattenSubdirs(parent, init, path, depth, cfg).entries,
          Flatten(c, Join(path, c.name), depth, cfg).entries);
      }
    }
  }

  /** With `hide_empty_folder`, a call lists something only if it reports content. */
  lemma {:induction false} HiddenMeansContent(node: Tree, path: string, depth: int, cfg: Config)
    requires cfg.hideEmptyFolder
    ensures var o := Flatten(node, path, depth, cfg); o.entries != [] ==> o.hasContent
    decreases node
  {
    if depth <= cfg.maxDepth && node.Dir? && node.readable {
      SubdirHiddenMeansContent(node, node.children, path, depth + 1, cfg);
    }
  }

  lemma {:induction false} SubdirHiddenMeansContent(parent: Tree, cs: seq<Tree>, path: string, depth: int, cfg: Config)
    requires cfg.hideEmptyFolder
    requires parent.Dir? && forall c :: c in cs ==> c in parent.children
    ensures var o := FlattenSubdirs(parent, cs, path, depth, cfg); o.entries != [] ==> o.hasContent
    decreases parent, |cs|
  {
    if cs != [] {
      var init, c := cs[..|cs| - 1], cs[|cs| - 1];
      assert forall x :: x in init ==> x in cs;
      SubdirHiddenMeansContent(parent, init, path, depth, cfg);
      if c.Dir? && c.name !in cfg.excludeDirs {
        assert c in cs;
        HiddenMeansContent(c, Join(path, c.name), depth, cfg);
      }
    }
  }

  /**
   * With `hide_empty_folder`, a walk that lists no file lists nothing at all:
   * no directory is shown unless a qualifying file lies somewhere below it.
   */
  lemma HiddenWithoutFilesIsEmpty(node: Tree, path: string, depth: int, cfg: Config)
    requires cfg.hideEmptyFolder
    ensures !HasFileEntry(Flatten(node, path, depth, cfg).entries) ==> Flatten(node, path, depth, cfg).entries == []
  {
    ContentMeansFiles(node, path, depth, cfg);
    HiddenMeansContent(node, path, depth, cfg);
  }

  /** Without `hide_empty_folder`, every directory the walk scans is listed, last. */
  lemma ShownFolderListedLast(node: Tree, path: string, depth: int, cfg: Config)
    requires !cfg.hideEmptyFolder && depth <= cfg.maxDepth
    requires node.Dir? && node.readable && node.stat.Some?
    ensures var es := Flatten(node, path, depth, cfg).entries;
            es != [] && es[|es| - 1] == MakeEntry(path, DirectoryEntry, 0, node.stat.value.modified)
  {
  }

  /**
   * A scanned directory with a known `stat` ends its listing with its own
   * entry exactly when it is shown: always without `hide_empty_folder`, and
   * with it exactly when something below has content.
   */
  lemma ShownExactlyWhenContent(node: Tree, path: string, depth: int, cfg: Config)
    requires depth <= cfg.maxDepth && node.Dir? && node.readable && node.stat.Some?
    ensures var o := Flatten(node, path, depth, cfg);
            (!cfg.hideEmptyFolder || o.hasContent) <==>
              (o.entries != [] && o.entries[|o.entries| - 1] == MakeEntry(path, DirectoryEntry, 0, node.stat.value.modified))
  {
    if cfg.hideEmptyFolder {
      HiddenMeansContent(node, path, depth, cfg);
    }
  }

  /** A scan beyond the depth limit, of a file, or of an unreadable directory lists nothing and reports no content. */
  lemma NothingBeyondReach(node: Tree, path: string, depth: int, cfg: Config)
    requires depth > cfg.maxDepth || node.File? || !node.readable
    ensures Flatten(node, path, depth, cfg) == Outcome([], false)
  {
  }

  /** Sub-directories of a directory at the depth limit contribute nothing. */
  lemma {:induction false} SubdirsBeyondDepth(parent: Tree, cs: seq<Tree>, path: string, depth: int, cfg: Config)
    requires parent.Dir? && forall c :: c in cs ==> c in parent.children
    requires depth > cfg.maxDepth
    ensures FlattenSubdirs(parent, cs, path, depth, cfg) == Outcome([], false)
    decreases |cs|
  {
    if cs != [] {
      var init := cs[..|cs| - 1];
      assert forall x :: x in init ==> x in cs;
      SubdirsBeyondDepth(parent, init, path, depth, cfg);
    }
  }

  /** A directory at depth `max_depth` still lists its own files, and only those and itself. */
  lemma AtDepthLimit(node: Tree, path: string, cfg: Config)
    requires node.Dir? && node.readable
    ensures forall e :: e in Flatten(node, path, cfg.maxDepth, cfg).entries ==>
              e in FileEntries(node.children, path, cfg) || (e.path == path && e.entryType == DirectoryEntry)
    ensures FileEntries(node.children, path, cfg) <= Flatten(node, path, cfg.maxDepth, cfg).entries
  {
    SubdirsBeyondDepth(node, node.children, path, cfg.maxDepth + 1, cfg);
    var files := FileEntries(node.children, path, cfg);
    var own :=
      if (!cfg.hideEmptyFolder || files != []) && node.stat.Some? then
        [MakeEntry(path, DirectoryEntry, 0, node.stat.value.modified)]
      else [];
    var es := Flatten(node, path, cfg.maxDepth, cfg).entries;
    assert es == files + own by {
      assert es == files + [] + own;
      assert files + [] == files;
    }
    assert forall e :: e in own ==> e.path == path && e.entryType == DirectoryEntry;
  }

  /** The directory's own files come first in its listing. */
  lemma FilesFirst(node: Tree, path: string, depth: int, cfg: Config)
    requires node.Dir? && node.readable && depth <= cfg.maxDepth
    ensures FileEntries(node.children, path, cfg) <= Flatten(node, path, depth, cfg).entries
  {
    var files := FileEntries(node.children, path, cfg);
    var sub := FlattenSubdirs(node, node.children, path, depth + 1, cfg);
    var own :=
      if (!cfg.hideEmptyFolder || files != [] || sub.hasContent) && node.stat.Some? then
        [MakeEntry(path, DirectoryEntry, 0, node.stat.value.modified)]
      else [];
    var es := Flatten(node, path, depth, cfg).entries;
    assert es == files + sub.entries + own;
    Associate(files, sub.entries, own);
  }

  /** A child's path extends its parent's path and is strictly longer. */
  lemma JoinBelow(path: string, name: string)
    requires name != [] && '/' !in name
    ensures StartsWith(Join(path, name), path) && |Join(path, name)| > |path|
  {
    assert name[0] in name;
    assert !StartsWith(name, "/");
  }

  lemma PrefixTransitive(a: string, b: string, c: string)
    requires StartsWith(b, a) && StartsWith(c, b)
    ensures StartsWith(c, a)
  {
    assert c[..|a|] == b[..|a|];
  }

  /** Every record of the files loop is a matching file directly below `path`. */
  lemma {:induction false} FileEntriesBelow(cs: seq<Tree>, path: string, cfg: Config)
    requires forall c :: c in cs ==> c.name != [] && '/' !in c.name
    ensures forall e :: e in FileEntries(cs, path, cfg) ==> FileBelow(e, path, cfg)
  {
    if cs != [] {
      var init, c := cs[..|cs| - 1], cs[|cs| - 1];
      assert forall x :: x in init ==> x in cs;
      FileEntriesBelow(init, path, cfg);
      assert c in cs;
      FileRecordBelow(c, path, cfg);
      var a, r := FileEntries(init, path, cfg), FileRecord(c, path, cfg);
      assert FileEntries(cs, path, cfg) == a + r;
      assert forall e :: e in a + r ==> e in a || e in r;
    }
  }

  /** A file record is a matching file strictly below `path`. */
  predicate FileBelow(e: DirEntry, path: string, cfg: Config)
  {
    && StartsWith(e.path, path) && |e.path| > |path|
    && e.entryType == FileEntry && Qualifies(e.name, cfg)
  }

  lemma FileRecordBelow(c: Tree, path: string, cfg: Config)
    requires c.name != [] && '/' !in c.name
    ensures forall e :: e in FileRecord(c, path, cfg) ==> FileBelow(e, path, cfg)
  {
    if c.File? && Qualifies(c.name, cfg) && c.stat.Some? {
      var p := Join(path, c.name);
      JoinBelow(path, c.name);
      BasenameOfJoin(path, c.name);
      var e := MakeEntry(p, FileEntry, c.stat.value.size, c.stat.value.modified);
      assert FileRecord(c, path, cfg) == [e];
      assert e.name == c.name && e.path == p;
    }
  }

  /**
   * Every entry of a walk lies at or below the scanned path, and only the last
   * one can be the scanned directory itself: it follows everything beneath it.
   */
  lemma {:induction false} ListingBelowPath(node: Tree, path: string, depth: int, cfg: Config)
    requires WellNamed(node)
    ensures var es := Flatten(node, path, depth, cfg).entries;
            && (forall e :: e in es ==> StartsWith(e.path, path))
            && (forall i :: 0 <= i < |es| - 1 ==> |es[i].path| > |path|)
    decreases node
  {
    if depth <= cfg.maxDepth && node.Dir? && node.readable {
      var files := FileEntries(node.children, path, cfg);
      var sub := FlattenSubdirs(node, node.children, path, depth + 1, cfg);
      var es := Flatten(node, path, depth, cfg).entries;
      FileEntriesBelow(node.children, path, cfg);
      SubdirsBelowPath(node, node.children, path, depth + 1, cfg);
      var below := files + sub.entries;
      assert forall e :: e in below ==> StartsWith(e.path, path) && |e.path| > |path|;
      assert es == below + es[|below|..];
      assert |es| <= |below| + 1;
      forall i | 0 <= i < |es| - 1
        ensures |es[i].path| > |path|
      {
        assert es[i] == below[i] && below[i] in below;
      }
    }
  }

  lemma {:induction false} SubdirsBelowPath(parent: Tree, cs: seq<Tree>, path: string, depth: int, cfg: Config)
    requires WellNamed(parent)
    requires parent.Dir? && forall c :: c in cs ==> c in parent.children
    ensures forall e :: e in FlattenSubdirs(parent, cs, path, depth, cfg).entries ==>
              StartsWith(e.path, path) && |e.path| > |path|
    decreases parent, |cs|
  {
    if cs != [] {
      var init, c := cs[..|cs| - 1], cs[|cs| - 1];
      assert forall x :: x in init ==> x in cs;
      SubdirsBelowPath(parent, init, path, depth, cfg);
      if c.Dir? && c.name !in cfg.excludeDirs {
        assert c in cs && c in parent.children;
        var child := Join(path, c.name);
        JoinBelow(path, c.name);
        ListingBelowPath(c, child, depth, cfg);
        forall e | e in Flatten(c, child, depth, cfg).entries
          ensures StartsWith(e.path, path) && |e.path| > |path|
        {
          PrefixTransitive(path, child, e.path);
        }
      }
    }
  }

  /** Listed files match the filter; listed directories have size 0. */
  predicate ListedFaithfully(e: DirEntry, cfg: Config)
  {
    && (e.entryType == FileEntry ==> Qualifies(e.name, cfg))
    && (e.entryType == DirectoryEntry ==> e.size == 0)
  }

  /** Every listed file matches `file_filter` (when one is given), and every listed directory has size 0. */
  lemma {:induction false} ListingFaithful(node: Tree, path: string, depth: int, cfg: Config)
    requires WellNamed(node)
    ensures forall e :: e in Flatten(node, path, depth, cfg).entries ==> ListedFaithfully(e, cfg)
    decreases node
  {
    if depth <= cfg.maxDepth && node.Dir? && node.readable {
      var files := FileEntries(node.children, path, cfg);
      var sub := FlattenSubdirs(node, node.children, path, depth + 1, cfg);
      var es := Flatten(node, path, depth, cfg).entries;
      FileEntriesBelow(node.children, path, cfg);
      SubdirsFaithful(node, node.children, path, depth + 1, cfg);
      var own := es[|files| + |sub.entries|..];
      assert es == files + sub.entries + own;
      assert forall e :: e in files ==> ListedFaithfully(e, cfg);
      AllFaithful(files, sub.entries, own, cfg);
    }
  }

  lemma AllFaithful(a: seq<DirEntry>, b: seq<DirEntry>, c: seq<DirEntry>, cfg: Config)
    requires forall e :: e in a ==> ListedFaithfully(e, cfg)
    requires forall e :: e in b ==> ListedFaithfully(e, cfg)
    requires forall e :: e in c ==> e.entryType == DirectoryEntry && e.size == 0
    ensures forall e :: e in a + b + c ==> ListedFaithfully(e, cfg)
  {
  }

  lemma {:induction false} SubdirsFaithful(parent: Tree, cs: seq<Tree>, path: string, depth: int, cfg: Config)
    requires WellNamed(parent)
    requires parent.Dir? && forall c :: c in cs ==> c in parent.children
    ensures forall e :: e in FlattenSubdirs(parent, cs, path, depth, cfg).entries ==> ListedFaithfully(e, cfg)
    decreases parent, |cs|
  {
    if cs != [] {
      var init, c := cs[..|cs| - 1], cs[|cs| - 1];
      assert forall x :: x in init ==> x in cs;
      SubdirsFaithful(parent, init, path, depth, cfg);
      if c.Dir? && c.name !in cfg.excludeDirs {
        assert c in cs && c in parent.children;
        ListingFaithful(c, Join(path, c.name), depth, cfg);
      }
    }
  }

  /** Every matching file among the children whose `stat` succeeds is listed (with no filter: every file). */
  lemma {:induction false} MatchingFilesListed(cs: seq<Tree>, path: string, cfg: Config, f: Tree)
    requires f in cs && f.File? && Qualifies(f.name, cfg) && f.stat.Some?
    ensures MakeEntry(Join(path, f.name), FileEntry, f.stat.value.size, f.stat.value.modified) in FileEntries(cs, path, cfg)
  {
    var init, c := cs[..|cs| - 1], cs[|cs| - 1];
    if f != c {
      assert f in init by {
        var k :| 0 <= k < |cs| && cs[k] == f;
        assert k < |cs| - 1 && init[k] == f;
      }
      MatchingFilesListed(init, path, cfg, f);
    }
  }

  /** A scanned directory lists each of its matching files. */
  lemma ScannedDirectoryListsFiles(node: Tree, path: string, depth: int, cfg: Config, f: Tree)
    requires depth <= cfg.maxDepth && node.Dir? && node.readable
    requires f in node.children && f.File? && Qualifies(f.name, cfg) && f.stat.Some?
    ensures MakeEntry(Join(path, f.name), FileEntry, f.stat.value.size, f.stat.value.modified)
            in Flatten(node, path, depth, cfg).entries
  {
    MatchingFilesListed(node.children, path, cfg, f);
  }

  /** The recursion loop keeps everything a visited directory lists. */
  lemma {:induction false} SubdirsKeepListing(parent: Tree, cs: seq<Tree>, path: string, depth: int, cfg: Config, c: Tree)
    requires parent.Dir? && (forall d :: d in cs ==> d in parent.children)
    requires c in cs && c.Dir? && c.name !in cfg.excludeDirs
    ensures c < parent
    ensures forall e :: e in Flatten(c, Join(path, c.name), depth, cfg).entries ==>
              e in FlattenSubdirs(parent, cs, path, depth, cfg).entries
    decreases |cs|
  {
    assert c in parent.children;
    var init, last := cs[..|cs| - 1], cs[|cs| - 1];
    assert forall d :: d in init ==> d in cs;
    var done := FlattenSubdirs(parent, init, path, depth, cfg);
    var all := FlattenSubdirs(parent, cs, path, depth, cfg);
    assert forall e :: e in done.entries ==> e in all.entries;
    if c != last {
      assert c in init by {
        var k :| 0 <= k < |cs| && cs[k] == c;
        assert k < |cs| - 1 && init[k] == c;
      }
      SubdirsKeepListing(parent, init, path, depth, cfg, c);
    }
  }

  /**
   * A sub-directory that is not excluded, entered from a readable directory
   * within the depth limit, has its whole listing in its parent's listing.
   */
  lemma SubdirListed(node: Tree, path: string, depth: int, cfg: Config, c: Tree)
    requires node.Dir? && node.readable && depth <= cfg.maxDepth
    requires c in node.children && c.Dir? && c.name !in cfg.excludeDirs
    ensures forall e :: e in Flatten(c, Join(path, c.name), depth + 1, cfg).entries ==>
              e in Flatten(node, path, depth, cfg).entries
  {
    SubdirsKeepListing(node, node.children, path, depth + 1, cfg, c);
    var files := FileEntries(node.children, path, cfg);
    var sub := FlattenSubdirs(node, node.children, path, depth + 1, cfg);
    var es := Flatten(node, path, depth, cfg).entries;
    assert es == files + sub.entries + es[|files| + |sub.entries|..];
    assert forall e :: e in sub.entries ==> e in es;
  }

  /**
   * A route of sub-directories from `node` that the walk enters: every
   * directory on it is readable, and each step goes to a child directory
   * that is not excluded.
   */
  predicate OpenRoute(node: Tree, route: seq<Tree>, cfg: Config)
    decreases |route|
  {
    && node.Dir? && node.readable
    && (route != [] ==>
          && route[0] in node.children && route[0].Dir? && route[0].name !in cfg.excludeDirs
          && OpenRoute(route[0], route[1..], cfg))
  }

  /** The directory a route ends in. */
  function RouteEnd(node: Tree, route: seq<Tree>): Tree
    decreases |route|
  {
    if route == [] then node else RouteEnd(route[0], route[1..])
  }

  /** The path of the directory a route ends in, when `node` is at `path`. */
  function RoutePath(path: string, route: seq<Tree>): string
    decreases |route|
  {
    if route == [] then path else RoutePath(Join(path, route[0].name), route[1..])
  }

  /**
   * The walk is complete: every matching file whose `stat` succeeds, in a
   * directory reached through readable, non-excluded directories no deeper
   * than `max_depth`, is listed under its joined path.
   */
  lemma {:induction false} WalkListsReachableFiles(node: Tree, path: string, depth: int, cfg: Config, route: seq<Tree>, f: Tree)
    requires OpenRoute(node, route, cfg) && depth + |route| <= cfg.maxDepth
    requires RouteEnd(node, route).Dir? && f in RouteEnd(node, route).children && f.File? && Qualifies(f.name, cfg) && f.stat.Some?
    ensures MakeEntry(Join(RoutePath(path, route), f.name), FileEntry, f.stat.value.size, f.stat.value.modified)
            in Flatten(node, path, depth, cfg).entries
    decreases |route|
  {
    if route == [] {
      ScannedDirectoryListsFiles(node, path, depth, cfg, f);
    } else {
      var c := route[0];
      WalkListsReachableFiles(c, Join(path, c.name), depth + 1, cfg, route[1..], f);
      SubdirListed(node, path, depth, cfg, c);
    }
  }

  // ---------------------------------------------------------------------------
  // Exclusion

  /** The tree with every directory named in `excludeDirs` cut away below the root. */
  function Prune(t: Tree, excludeDirs: seq<string>): (r: Tree)
    ensures r.name == t.name && r.Dir? == t.Dir? && (t.File? ==> r == t)
    ensures t.Dir? ==> r.readable == t.readable && r.stat == t.stat
    decreases t
  {
    match t
    case File(_, _) => t
    case Dir(name, cs, readable, stat) => Dir(name, PruneChildren(t, cs, excludeDirs), readable, stat)
  }

  function PruneChildren(parent: Tree, cs: seq<Tree>, excludeDirs: seq<string>): seq<Tree>
    requires parent.Dir? && forall c :: c in cs ==> c in parent.children
    decreases parent, |cs|
  {
    if cs == [] then []
    else
      var c := cs[|cs| - 1];
      assert c in parent.children by { assert c in cs; }
      var kept := if c.Dir? && c.name in excludeDirs then [] else [Prune(c, excludeDirs)];
      PruneChildren(parent, cs[..|cs| - 1], excludeDirs) + kept
  }

  /** No directory below `t` carries an excluded name. */
  predicate NoExcludedBelow(t: Tree, excludeDirs: seq<string>)
  {
    t.Dir? ==> forall c :: c in t.children ==> !(c.Dir? && c.name in excludeDirs) && NoExcludedBelow(c, excludeDirs)
  }

  lemma {:induction false} PruneRemovesExcluded(t: Tree, excludeDirs: seq<string>)
    ensures NoExcludedBelow(Prune(t, excludeDirs), excludeDirs)
    decreases t
  {
    if t.Dir? {
      PruneChildrenRemoveExcluded(t, t.children, excludeDirs);
    }
  }

  lemma {:induction false} PruneChildrenRemoveExcluded(parent: Tree, cs: seq<Tree>, excludeDirs: seq<string>)
    requires parent.Dir? && forall c :: c in cs ==> c in parent.children
    ensures forall c :: c in PruneChildren(parent, cs, excludeDirs) ==>
              !(c.Dir? && c.name in excludeDirs) && NoExcludedBelow(c, excludeDirs)
    decreases parent, |cs|
  {
    if cs != [] {
      var init, c := cs[..|cs| - 1], cs[|cs| - 1];
      assert forall x :: x in init ==> x in cs;
      PruneChildrenRemoveExcluded(parent, init, excludeDirs);
      assert c in cs && c in parent.children;
      PruneRemovesExcluded(c, excludeDirs);
    }
  }

  /**
   * Excluded directories are neither entered nor listed: the walk lists the
   * same entries, and reports the same content, as a walk of the tree with
   * every excluded directory below the scanned one removed.
   */
  lemma {:induction false} ExcludedDirectoriesInvisible(node: Tree, path: string, depth: int, cfg: Config)
    ensures Flatten(Prune(node, cfg.excludeDirs), path, depth, cfg) == Flatten(node, path, depth, cfg)
    ensures NoExcludedBelow(Prune(node, cfg.excludeDirs), cfg.excludeDirs)
    decreases node
  {
    PruneRemovesExcluded(node, cfg.excludeDirs);
    if depth <= cfg.maxDepth && node.Dir? && node.readable {
      var q := Prune(node, cfg.excludeDirs);
      PruneKeepsFiles(node, node.children, path, cfg);
      PruneKeepsSubdirs(node, q, node.children, path, depth + 1, cfg);
    }
  }

  lemma {:induction false} PruneKeepsFiles(parent: Tree, cs: seq<Tree>, path: string, cfg: Config)
    requires parent.Dir? && forall c :: c in cs ==> c in parent.children
    ensures FileEntries(PruneChildren(parent, cs, cfg.excludeDirs), path, cfg) == FileEntries(cs, path, cfg)
    decreases |cs|
  {
    if cs != [] {
      var init, c := cs[..|cs| - 1], cs[|cs| - 1];
      assert forall x :: x in init ==> x in cs;
      PruneKeepsFiles(parent, init, path, cfg);
      var pi := PruneChildren(parent, init, cfg.excludeDirs);
      if c.Dir? && c.name in cfg.excludeDirs {
        assert PruneChildren(parent, cs, cfg.excludeDirs) == pi + [];
        assert pi + [] == pi;
        assert FileEntries(cs, path, cfg) == FileEntries(init, path, cfg) + [];
      } else {
        var pc := pi + [Prune(c, cfg.excludeDirs)];
        assert pc[..|pc| - 1] == pi;
        assert FileRecord(Prune(c, cfg.excludeDirs), path, cfg) == FileRecord(c, path, cfg);
      }
    }
  }

  lemma {:induction false} PruneKeepsSubdirs(p: Tree, q: Tree, cs: seq<Tree>, path: string, depth: int, cfg: Config)
    requires p.Dir? && forall c :: c in cs ==> c in p.children
    requires q.Dir? && forall c :: c in PruneChildren(p, cs, cfg.excludeDirs) ==> c in q.children
    ensures FlattenSubdirs(q, PruneChildren(p, cs, cfg.excludeDirs), path, depth, cfg) == FlattenSubdirs(p, cs, path, depth, cfg)
    decreases p, |cs|
  {
    if cs != [] {
      var init, c := cs[..|cs| - 1], cs[|cs| - 1];
      assert forall x :: x in init ==> x in cs;
      var pi := PruneChildren(p, init, cfg.excludeDirs);
      if c.Dir? && c.name in cfg.excludeDirs {
        assert PruneChildren(p, cs, cfg.excludeDirs) == pi + [];
        assert pi + [] == pi;
        PruneKeepsSubdirs(p, q, init, path, depth, cfg);
      } else {
        var pc := pi + [Prune(c, cfg.excludeDirs)];
        assert PruneChildren(p, cs, cfg.excludeDirs) == pc;
        assert pc[..|pc| - 1] == pi && pc[|pc| - 1] == Prune(c, cfg.excludeDirs);
        assert forall x :: x in pi ==> x in pc;
        PruneKeepsSubdirs(p, q, init, path, depth, cfg);
        if c.Dir? {
          assert c in cs && c in p.children;
          ExcludedDirectoriesInvisible(c, Join(path, c.name), depth, cfg);
        }
      }
    }
  }
}
