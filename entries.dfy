/**
 * The entry loop of main: every directory entry is filtered (hidden names,
 * unreadable info), classified as a directory or a file (following a
 * symlink when its target can be resolved), given an extension or child
 * counts, and appended to `dirs` or `files`.
 *
 * The file system is not modelled: each entry arrives as a record holding
 * the answers os.ReadDir, DirEntry.Info, filepath.EvalSymlinks plus os.Stat
 * and the nested os.ReadDir would give.
 */
module Entries {
  import opened Wrappers
  import opened GoStrings

  /** One entry of a sub-directory: only its name and DirEntry.IsDir() are used. */
  datatype Child = Child(name: Bytes, isDir: bool)

  /** What the file system reports about one entry of the target directory. */
  datatype RawEntry = RawEntry(
    name: Bytes,
    infoOk: bool,                   // DirEntry.Info() returned no error
    size: int,                      // FileInfo.Size()
    isDir: bool,                    // DirEntry.IsDir()
    isSym: bool,                    // DirEntry.Type() has the symlink bit
    linkIsDir: Option<bool>,        // IsDir() of the link's target, when EvalSymlinks and Stat succeed
    children: Option<seq<Child>>)   // os.ReadDir of target/name, None when it fails

  /** The `entry` record of main.go. */
  datatype Entry = Entry(
    name: Bytes,
    isDir: bool,
    isSym: bool,
    size: int,
    dot: bool,
    ext: Bytes,
    subDirs: nat,
    subFiles: nat)

  predicate IsDot(name: Bytes) {
    HasPrefix(name, ".")
  }

  /** The hidden-name filter, used both for entries and for the children of directories. */
  predicate Shown(name: Bytes, showAll: bool) {
    showAll || !IsDot(name)
  }

  /** Whether the entry is treated as a directory: a resolvable symlink takes its target's kind. */
  function ResolvedIsDir(e: RawEntry): bool {
    if e.isSym && e.linkIsDir.Some? then e.linkIsDir.value else e.isDir
  }

  // ---------------------------------------------------------------- child counts

  /** The children that the hidden-name filter lets through. */
  function Visible(children: seq<Child>, showAll: bool): seq<Child>
    decreases |children|
  {
    if children == [] then []
    else
      var last := children[|children| - 1];
      var front := Visible(children[..|children| - 1], showAll);
      if Shown(last.name, showAll) then front + [last] else front
  }

  /** Visible keeps exactly the children the hidden-name filter lets through. */
  lemma {:induction false} VisibleFilters(children: seq<Child>, showAll: bool)
    ensures |Visible(children, showAll)| <= |children|
    ensures forall c :: c in Visible(children, showAll) <==> c in children && Shown(c.name, showAll)
    ensures showAll ==> Visible(children, showAll) == children
    decreases |children|
  {
    if children != [] {
      var front := children[..|children| - 1];
      VisibleFilters(front, showAll);
      assert children == front + [children[|children| - 1]];
    }
  }

  function NumDirs(children: seq<Child>): (n: nat)
    ensures n <= |children|
    decreases |children|
  {
    if children == [] then 0
    else NumDirs(children[..|children| - 1]) + (if children[|children| - 1].isDir then 1 else 0)
  }

  /** The children of a directory that count, or none when reading it failed. */
  function Counted(children: Option<seq<Child>>, showAll: bool): seq<Child> {
    if children.Some? then Visible(children.value, showAll) else []
  }

  /** The inner loop over a directory's own entries, incrementing subDirs or subFiles. */
  method CountChildren(children: Option<seq<Child>>, showAll: bool) returns (subDirs: nat, subFiles: nat)
    ensures subDirs + subFiles == |Counted(children, showAll)|
    ensures subDirs == NumDirs(Counted(children, showAll))
  {
    subDirs, subFiles := 0, 0;
    if children.None? {
      return;
    }
    var cs := children.value;
    for i := 0 to |cs|
      invariant subDirs + subFiles == |Visible(cs[..i], showAll)|
      invariant subDirs == NumDirs(Visible(cs[..i], showAll))
    {
      assert cs[..i + 1] == cs[..i] + [cs[i]];
      assert cs[..i + 1][..i] == cs[..i];
      ghost var v := Visible(cs[..i], showAll);
      if !showAll && HasPrefix(cs[i].name, ".") {
        assert Visible(cs[..i + 1], showAll) == v;
        continue;
      }
      assert Visible(cs[..i + 1], showAll) == v + [cs[i]];
      assert (v + [cs[i]])[..|v|] == v;
      if cs[i].isDir {
        subDirs := subDirs + 1;
      } else {
        subFiles := subFiles + 1;
      }
    }
    assert cs[..|cs|] == cs;
  }

  // ---------------------------------------------------------------- classification

  /** An entry survives the loop's two `continue`s. */
  predicate Kept(e: RawEntry, showAll: bool) {
    Shown(e.name, showAll) && e.infoOk
  }

  /** The record main builds for a kept entry. */
  function Build(e: RawEntry, showAll: bool, filesOnly: bool): Entry {
    var isDir := ResolvedIsDir(e);
    var counted := Counted(e.children, showAll);
    var subDirs: nat := if isDir && !filesOnly then NumDirs(counted) else 0;
    var subFiles: nat := if isDir && !filesOnly then |counted| - NumDirs(counted) else 0;
    Entry(e.name, isDir, e.isSym, e.size, IsDot(e.name), if isDir then "" else Extension(e.name), subDirs, subFiles)
  }

  predicate GoesToDirs(e: RawEntry, showAll: bool, filesOnly: bool) {
    Kept(e, showAll) && ResolvedIsDir(e) && !filesOnly
  }

  predicate GoesToFiles(e: RawEntry, showAll: bool) {
    Kept(e, showAll) && !ResolvedIsDir(e)
  }

  /** The `dirs` slice after the loop, in directory-read order. */
  function DirsOf(raw: seq<RawEntry>, showAll: bool, filesOnly: bool): seq<Entry>
    decreases |raw|
  {
    if raw == [] then []
    else
      var e := raw[|raw| - 1];
      DirsOf(raw[..|raw| - 1], showAll, filesOnly) + (if GoesToDirs(e, showAll, filesOnly) then [Build(e, showAll, filesOnly)] else [])
  }

  /** The `files` slice after the loop, in directory-read order. */
  function FilesOf(raw: seq<RawEntry>, showAll: bool, filesOnly: bool): seq<Entry>
    decreases |raw|
  {
    if raw == [] then []
    else
      var e := raw[|raw| - 1];
      FilesOf(raw[..|raw| - 1], showAll, filesOnly) + (if GoesToFiles(e, showAll) then [Build(e, showAll, filesOnly)] else [])
  }

  /** The loop over the entries of the target directory. */
  method Classify(raw: seq<RawEntry>, showAll: bool, filesOnly: bool) returns (dirs: seq<Entry>, files: seq<Entry>)
    ensures dirs == DirsOf(raw, showAll, filesOnly)
    ensures files == FilesOf(raw, showAll, filesOnly)
  {
    dirs, files := [], [];
    for k := 0 to |raw|
      invariant dirs == DirsOf(raw[..k], showAll, filesOnly)
      invariant files == FilesOf(raw[..k], showAll, filesOnly)
    {
      var e := raw[k];
      assert raw[..k + 1][..k] == raw[..k];
      assert raw[..k + 1][k] == e;
      var isDot := HasPrefix(e.name, ".");
      if isDot && !showAll {
        continue;
      }
      if !e.infoOk {
        continue;
      }
      var isDir := e.isDir;
      if e.isSym {
        if e.linkIsDir.Some? {
          isDir := e.linkIsDir.value;
        }
      }
      var ext := "";
      if !isDir {
        ext := Extension(e.name);
      }
      var it := Entry(e.name, isDir, e.isSym, e.size, isDot, ext, 0, 0);
      if isDir && !filesOnly {
        var subDirs, subFiles := CountChildren(e.children, showAll);
        it := it.(subDirs := subDirs, subFiles := subFiles);
        dirs := dirs + [it];
      } else if !isDir {
        files := files + [it];
      }
    }
    assert raw[..|raw|] == raw;
  }

  // ---------------------------------------------------------------- properties of the partition

  /** Every listed entry was built from a kept entry of the right kind. */
  lemma {:induction false} DirsSound(raw: seq<RawEntry>, showAll: bool, filesOnly: bool)
    ensures forall d :: d in DirsOf(raw, showAll, filesOnly) ==>
      exists e :: e in raw && GoesToDirs(e, showAll, filesOnly) && d == Build(e, showAll, filesOnly)
    decreases |raw|
  {
    if raw != [] {
      var front := raw[..|raw| - 1];
      DirsSound(front, showAll, filesOnly);
      assert forall e :: e in front ==> e in raw;
    }
  }

  lemma {:induction false} FilesSound(raw: seq<RawEntry>, showAll: bool, filesOnly: bool)
    ensures forall f :: f in FilesOf(raw, showAll, filesOnly) ==>
      exists e :: e in raw && GoesToFiles(e, showAll) && f == Build(e, showAll, filesOnly)
    decreases |raw|
  {
    if raw != [] {
      var front := raw[..|raw| - 1];
      FilesSound(front, showAll, filesOnly);
      assert forall e :: e in front ==> e in raw;
    }
  }

  /** No kept entry is lost: each one lands in the list its kind selects. */
  lemma {:induction false} PartitionComplete(raw: seq<RawEntry>, showAll: bool, filesOnly: bool)
    ensures forall e :: e in raw && GoesToDirs(e, showAll, filesOnly) ==> Build(e, showAll, filesOnly) in DirsOf(raw, showAll, filesOnly)
    ensures forall e :: e in raw && GoesToFiles(e, showAll) ==> Build(e, showAll, filesOnly) in FilesOf(raw, showAll, filesOnly)
    decreases |raw|
  {
    if raw != [] {
      var front := raw[..|raw| - 1];
      PartitionComplete(front, showAll, filesOnly);
      assert raw == front + [raw[|raw| - 1]];
    }
  }

  /** Each raw entry contributes to at most one list. */
  lemma {:induction false} PartitionSize(raw: seq<RawEntry>, showAll: bool, filesOnly: bool)
    ensures |DirsOf(raw, showAll, filesOnly)| + |FilesOf(raw, showAll, filesOnly)| <= |raw|
    decreases |raw|
  {
    if raw != [] {
      PartitionSize(raw[..|raw| - 1], showAll, filesOnly);
    }
  }

  lemma {:induction false} FilesOnlyHasNoDirs(raw: seq<RawEntry>, showAll: bool)
    ensures DirsOf(raw, showAll, true) == []
    decreases |raw|
  {
    if raw != [] {
      FilesOnlyHasNoDirs(raw[..|raw| - 1], showAll);
    }
  }

  /** What every listed entry satisfies: the hidden and Info() filters, its kind, its extension and its child counts. */
  lemma ListedEntries(raw: seq<RawEntry>, showAll: bool, filesOnly: bool)
    ensures forall d :: d in DirsOf(raw, showAll, filesOnly) ==>
      d.isDir && d.ext == [] && (showAll || !IsDot(d.name)) &&
      exists e :: e in raw && e.infoOk && e.name == d.name &&
        d.subDirs + d.subFiles == |Counted(e.children, showAll)| &&
        d.subDirs == NumDirs(Counted(e.children, showAll))
    ensures forall f :: f in FilesOf(raw, showAll, filesOnly) ==>
      !f.isDir && f.ext == Extension(f.name) && (showAll || !IsDot(f.name)) &&
      f.subDirs == 0 && f.subFiles == 0 &&
      exists e :: e in raw && e.infoOk && e.name == f.name
  {
    DirsSound(raw, showAll, filesOnly);
    FilesSound(raw, showAll, filesOnly);
  }
}
