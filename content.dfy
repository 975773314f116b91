/**
 * buildDirContent and buildFileContent: two plain lines per entry, the
 * truncated name and a subtitle (child counts for a directory, the size for
 * a file). The colours lipgloss adds and the final strings.Join(lines, "\n")
 * are rendering and are not modelled.
 */
module Content {
  import opened GoStrings
  import opened Entries
  import opened Text

  /**
   * The bytes of the ellipsis literal of truncate, as they stand in main.go
   * (the UTF-8 encoding of the text "â€¦", a mis-encoded "…"). No property
   * proved here depends on them.
   */
  const Ellipsis: Bytes := "\U{C3}\U{A2}\U{E2}\U{82}\U{AC}\U{C2}\U{A6}"

  /** Lines 2i and 2i+1 show entry i of `dirs`: its truncated name, then its counts. */
  predicate DirLinesOf(lines: seq<Bytes>, dirs: seq<Entry>, nameMax: int) {
    && |lines| == 2 * |dirs|
    && forall i :: 0 <= i < |dirs| ==>
         lines[2 * i] == Truncate(dirs[i].name, nameMax, Ellipsis) &&
         lines[2 * i + 1] == Subtitle(dirs[i].subDirs, dirs[i].subFiles)
  }

  /** Lines 2i and 2i+1 show entry i of `files`: its truncated name, then its size as text. */
  predicate FileLinesOf(lines: seq<Bytes>, files: seq<Entry>, nameMax: int, sizeText: int -> Bytes) {
    && |lines| == 2 * |files|
    && forall i :: 0 <= i < |files| ==>
         lines[2 * i] == Truncate(files[i].name, nameMax, Ellipsis) &&
         lines[2 * i + 1] == sizeText(files[i].size)
  }

  method BuildDirContent(dirs: seq<Entry>, nameMax: int) returns (lines: seq<Bytes>)
    ensures DirLinesOf(lines, dirs, nameMax)
  {
    lines := [];
    for k := 0 to |dirs|
      invariant DirLinesOf(lines, dirs[..k], nameMax)
    {
      var name := Truncate(dirs[k].name, nameMax, Ellipsis);
      lines := lines + [name];
      var sub := DirSubtitle(dirs[k].subDirs, dirs[k].subFiles);
      lines := lines + [sub];
    }
    assert dirs[..|dirs|] == dirs;
  }

  /** humanSize is not modelled: the size text is the function `sizeText`. */
  method BuildFileContent(files: seq<Entry>, nameMax: int, sizeText: int -> Bytes) returns (lines: seq<Bytes>)
    ensures FileLinesOf(lines, files, nameMax, sizeText)
  {
    lines := [];
    for k := 0 to |files|
      invariant FileLinesOf(lines, files[..k], nameMax, sizeText)
    {
      var name := Truncate(files[k].name, nameMax, Ellipsis);
      lines := lines + [name];
      lines := lines + [sizeText(files[k].size)];
    }
    assert files[..|files|] == files;
  }

  /** The content shows every entry, in list order, and names each one by a prefix of its name. */
  lemma ContentShowsEveryEntry(lines: seq<Bytes>, dirs: seq<Entry>, nameMax: int, i: nat)
    requires DirLinesOf(lines, dirs, nameMax)
    requires i < |dirs|
    ensures var k := if |dirs[i].name| < Budget(nameMax) - 1 then |dirs[i].name| else Budget(nameMax) - 1;
      k <= |lines[2 * i]| && lines[2 * i][..k] == dirs[i].name[..k]
    ensures lines[2 * i + 1] == "empty" <==> dirs[i].subDirs == 0 && dirs[i].subFiles == 0
  {
    TruncateKeepsPrefix(dirs[i].name, nameMax, Ellipsis);
    SubtitleEmpty(dirs[i].subDirs, dirs[i].subFiles);
  }
}
