/**
 * main of peek, end to end: read the arguments, read the target directory,
 * classify and sort its entries, then choose between the "  empty" line,
 * one wide panel and two panels side by side, and print the counts.
 *
 * Everything main asks of the outside world arrives as a parameter: the
 * directory reads as `readDir` (None for an error), the terminal size query
 * as `termQuery`, and humanSize as `sizeText`. The output is described by a
 * `Screen` value instead of being printed.
 */
module Peek {
  import opened Wrappers
  import opened GoStrings
  import opened Args
  import opened Entries
  import opened Ordering
  import opened Text
  import opened Layout
  import opened Content

  /** One bordered box: its title, the inner width lipgloss is given, and its content lines. */
  datatype Panel = Panel(title: Bytes, innerWidth: int, lines: seq<Bytes>)

  datatype Screen =
    | Usage(lines: seq<Bytes>)     // -h/--help: the usage text, exit status 0
    | ReadFailed(target: Bytes)    // the target cannot be read: a message on stderr, exit status 1
    | EmptyListing                 // the single line "  empty"
    | Listing(mode: Mode, panels: seq<Panel>, footer: seq<Bytes>, overflow: bool)

  /** The process's exit status: 1 after a read error (os.Exit(1)), 0 otherwise. */
  function ExitCode(s: Screen): int {
    if s.ReadFailed? then 1 else 0
  }

  /**
   * What main prints for sorted lists `dirs` and `files` on a terminal of
   * the given size: the panels the mode selects, each with the inner width
   * and name budget of its layout, the footer with the counts, and whether
   * the content is taller than the terminal.
   */
  ghost predicate Displays(screen: Screen, filesOnly: bool, dirs: seq<Entry>, files: seq<Entry>,
                           size: (int, int), sizeText: int -> Bytes)
  {
    var width := size.0;
    match SelectMode(filesOnly, |dirs|, |files|)
    case Nothing =>
      screen == EmptyListing
    case FilesPanel =>
      && Frames(screen, FilesPanel, dirs, files, size.1)
      && |screen.panels| == 1
      && screen.panels[0].title == "FILES"
      && screen.panels[0].innerWidth == WideInner(width)
      && FileLinesOf(screen.panels[0].lines, files, NameLimit(WideInner(width)), sizeText)
    case DirsPanel =>
      && Frames(screen, DirsPanel, dirs, files, size.1)
      && |screen.panels| == 1
      && screen.panels[0].title == "DIRS"
      && screen.panels[0].innerWidth == WideInner(width)
      && DirLinesOf(screen.panels[0].lines, dirs, NameLimit(WideInner(width)))
    case TwoPanels =>
      && Frames(screen, TwoPanels, dirs, files, size.1)
      && |screen.panels| == 2
      && screen.panels[0].title == "DIRS"
      && screen.panels[1].title == "FILES"
      && screen.panels[0].innerWidth == InnerWidth(width)
      && screen.panels[1].innerWidth == InnerWidth(width)
      && DirLinesOf(screen.panels[0].lines, dirs, NameLimit(InnerWidth(width)))
      && FileLinesOf(screen.panels[1].lines, files, NameLimit(InnerWidth(width)), sizeText)
  }

  /** What every panel layout shares: the mode, the footer with the counts and the overflow test. */
  ghost predicate Frames(screen: Screen, mode: Mode, dirs: seq<Entry>, files: seq<Entry>, height: int) {
    && screen.Listing?
    && screen.mode == mode
    && screen.footer == ["  " + CountSummary(|dirs|, |files|), ""]
    && screen.overflow == Overflows(NeededHeight(|dirs|, |files|), height)
  }

  method Run(args: seq<Bytes>, readDir: Bytes -> Option<seq<RawEntry>>, termQuery: Option<(int, int)>,
             sizeText: int -> Bytes)
    returns (screen: Screen, dirs: seq<Entry>, files: seq<Entry>)
    ensures screen.Usage? <==> Meaning(args) == Help
    ensures screen.Usage? ==> screen.lines == UsageLines
    ensures Meaning(args).List? ==>
      (screen.ReadFailed? <==> readDir(Meaning(args).opts.target).None?) &&
      (screen.ReadFailed? ==> screen.target == Meaning(args).opts.target)
    ensures ExitCode(screen) == 1 <==> Meaning(args).List? && readDir(Meaning(args).opts.target).None?
    ensures Meaning(args).List? && readDir(Meaning(args).opts.target).Some? ==>
      var opts := Meaning(args).opts;
      var raw := readDir(opts.target).value;
      && multiset(dirs) == multiset(DirsOf(raw, opts.showAll, opts.filesOnly))
      && multiset(files) == multiset(FilesOf(raw, opts.showAll, opts.filesOnly))
      && SortedBy(dirs, DirLess)
      && SortedBy(files, FileLess)
      && Displays(screen, opts.filesOnly, dirs, files, TermSize(termQuery), sizeText)
  {
    dirs, files := [], [];
    var cmd := ParseArgs(args);
    if cmd.Help? {
      return Usage(UsageLines), dirs, files;
    }
    var opts := cmd.opts;
    var entries := readDir(opts.target);
    if entries.None? {
      return ReadFailed(opts.target), dirs, files;
    }
    var unsortedDirs, unsortedFiles := Classify(entries.value, opts.showAll, opts.filesOnly);

    var dirArray := new Entry[|unsortedDirs|](i requires 0 <= i < |unsortedDirs| => unsortedDirs[i]);
    assert dirArray[..] == unsortedDirs;
    DirLessIsStrictWeakOrder();
    SortSlice(dirArray, DirLess);
    dirs := dirArray[..];

    var fileArray := new Entry[|unsortedFiles|](i requires 0 <= i < |unsortedFiles| => unsortedFiles[i]);
    assert fileArray[..] == unsortedFiles;
    FileLessIsStrictWeakOrder();
    SortSlice(fileArray, FileLess);
    files := fileArray[..];

    assert |dirs| == |unsortedDirs| by { assert |multiset(dirs)| == |multiset(unsortedDirs)|; }
    assert |files| == |unsortedFiles| by { assert |multiset(files)| == |multiset(unsortedFiles)|; }
    if opts.filesOnly {
      FilesOnlyHasNoDirs(entries.value, opts.showAll);
    }

    if |dirs| == 0 && |files| == 0 {
      return EmptyListing, dirs, files;
    }

    var size := TermSize(termQuery);
    var width, height := size.0, size.1;
    var neededHeight := NeededHeight(|dirs|, |files|);
    var overflow := Overflows(neededHeight, height);

    var innerW := InnerWidth(width);
    var nameMax := NameLimit(innerW);
    var dirContent := BuildDirContent(dirs, nameMax);
    var fileContent := BuildFileContent(files, nameMax, sizeText);
    var footer := FooterLines(|dirs|, |files|);

    if opts.filesOnly || |dirs| == 0 {
      var wideInner := WideInner(width);
      var wideMax := NameLimit(wideInner);
      var fc := BuildFileContent(files, wideMax, sizeText);
      return Listing(FilesPanel, [Panel("FILES", wideInner, fc)], footer, overflow), dirs, files;
    }

    if |files| == 0 {
      var wideInner := WideInner(width);
      var wideMax := NameLimit(wideInner);
      var dc := BuildDirContent(dirs, wideMax);
      return Listing(DirsPanel, [Panel("DIRS", wideInner, dc)], footer, overflow), dirs, files;
    }

    screen := Listing(TwoPanels, [Panel("DIRS", innerW, dirContent), Panel("FILES", innerW, fileContent)], footer, overflow);
  }

  /** The lists main shows hold every kept entry in the list of its kind, and never more entries than were read. */
  lemma ListsAreThePartition(raw: seq<RawEntry>, showAll: bool, filesOnly: bool, dirs: seq<Entry>, files: seq<Entry>)
    requires multiset(dirs) == multiset(DirsOf(raw, showAll, filesOnly))
    requires multiset(files) == multiset(FilesOf(raw, showAll, filesOnly))
    ensures |dirs| + |files| <= |raw|
    ensures filesOnly ==> dirs == []
    ensures forall e :: e in raw && GoesToDirs(e, showAll, filesOnly) ==> Build(e, showAll, filesOnly) in dirs
    ensures forall e :: e in raw && GoesToFiles(e, showAll) ==> Build(e, showAll, filesOnly) in files
    ensures forall d :: d in dirs ==> d.isDir && (showAll || !IsDot(d.name))
    ensures forall f :: f in files ==> !f.isDir && (showAll || !IsDot(f.name)) && f.ext == Extension(f.name)
  {
    PartitionSize(raw, showAll, filesOnly);
    PartitionComplete(raw, showAll, filesOnly);
    ListedEntries(raw, showAll, filesOnly);
    assert |dirs| == |multiset(dirs)| == |DirsOf(raw, showAll, filesOnly)|;
    assert |files| == |multiset(files)| == |FilesOf(raw, showAll, filesOnly)|;
    if filesOnly {
      FilesOnlyHasNoDirs(raw, showAll);
    }
    forall d | d in dirs ensures d in DirsOf(raw, showAll, filesOnly) {
      assert d in multiset(dirs);
    }
    forall f | f in files ensures f in FilesOf(raw, showAll, filesOnly) {
      assert f in multiset(files);
    }
    forall e | e in raw && GoesToDirs(e, showAll, filesOnly) ensures Build(e, showAll, filesOnly) in dirs {
      assert Build(e, showAll, filesOnly) in multiset(DirsOf(raw, showAll, filesOnly));
    }
    forall e | e in raw && GoesToFiles(e, showAll) ensures Build(e, showAll, filesOnly) in files {
      assert Build(e, showAll, filesOnly) in multiset(FilesOf(raw, showAll, filesOnly));
    }
  }

  /** The height main computes is the taller panel's content lines plus 10. */
  lemma NeededHeightIsContentPlusChrome(dirs: seq<Entry>, files: seq<Entry>, nameMax: int, sizeText: int -> Bytes,
                                        dirLines: seq<Bytes>, fileLines: seq<Bytes>)
    requires DirLinesOf(dirLines, dirs, nameMax)
    requires FileLinesOf(fileLines, files, nameMax, sizeText)
    ensures NeededHeight(|dirs|, |files|) == (if |dirLines| < |fileLines| then |fileLines| else |dirLines|) + 10
  {
  }
}
