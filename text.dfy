/**
 * The text helpers of main.go: `truncate` for names, and the pluralised
 * counts that `dirSubtitle` and `printFooter` build ("3 dirs, 1 file").
 */
module Text {
  import opened GoStrings

  // ---------------------------------------------------------------- truncate

  /** The byte budget truncate works with: `max`, raised to at least 4. */
  function Budget(max: int): (m: int)
    ensures m >= 4 && m >= max
    ensures max >= 4 ==> m == max
    ensures m == 4 || m == max
  {
    if max < 4 then 4 else max
  }

  /**
   * truncate(s, max): a name longer than its budget keeps its first budget-1
   * bytes and gets the ellipsis appended. Lengths and slicing are by bytes.
   * The ellipsis is a parameter: nothing here depends on its length.
   */
  function Truncate(s: Bytes, max: int, ellipsis: Bytes): (r: Bytes)
    ensures |s| <= Budget(max) ==> r == s
    ensures |s| > Budget(max) ==>
      |r| == Budget(max) - 1 + |ellipsis| &&
      r[..Budget(max) - 1] == s[..Budget(max) - 1] &&
      r[Budget(max) - 1..] == ellipsis
  {
    var m := Budget(max);
    if |s| <= m then s else s[..m - 1] + ellipsis
  }

  /** Truncating a truncated name changes nothing, whatever the ellipsis. */
  lemma TruncateIdempotent(s: Bytes, max: int, ellipsis: Bytes)
    ensures Truncate(Truncate(s, max, ellipsis), max, ellipsis) == Truncate(s, max, ellipsis)
  {
    var m := Budget(max);
    var r := Truncate(s, max, ellipsis);
    if |s| > m && |r| > m {
      assert r[..m - 1] == s[..m - 1];
      assert r == s[..m - 1] + ellipsis;
    }
  }

  /** Every result starts with as much of the name as fits before the ellipsis. */
  lemma TruncateKeepsPrefix(s: Bytes, max: int, ellipsis: Bytes)
    ensures var k := if |s| < Budget(max) - 1 then |s| else Budget(max) - 1;
      k <= |Truncate(s, max, ellipsis)| && Truncate(s, max, ellipsis)[..k] == s[..k]
  {
  }

  // ---------------------------------------------------------------- counts

  /** `fmt.Sprintf("%d <noun>", n)` with an "s" appended when n > 1. */
  function CountPhrase(n: nat, noun: Bytes): Bytes {
    Decimal(n) + " " + noun + (if n > 1 then "s" else "")
  }

  /** The `parts` slice: the dir phrase when there are dirs, then the file phrase when there are files. */
  function CountParts(dirs: nat, files: nat): seq<Bytes> {
    (if dirs > 0 then [CountPhrase(dirs, "dir")] else []) +
    (if files > 0 then [CountPhrase(files, "file")] else [])
  }

  /** strings.Join(parts, ", "). */
  function CountSummary(dirs: nat, files: nat): Bytes {
    Join(CountParts(dirs, files), ", ")
  }

  /** The text dirSubtitle returns. */
  function Subtitle(subDirs: nat, subFiles: nat): Bytes {
    if subDirs == 0 && subFiles == 0 then "empty" else CountSummary(subDirs, subFiles)
  }

  /** dirSubtitle, appending to `parts` branch by branch as the source does. */
  method DirSubtitle(subDirs: nat, subFiles: nat) returns (s: Bytes)
    ensures s == Subtitle(subDirs, subFiles)
  {
    if subDirs == 0 && subFiles == 0 {
      return "empty";
    }
    s := CountText(subDirs, subFiles);
  }

  /** The lines printFooter writes: two spaces and the counts, then a blank line. */
  method FooterLines(dirCount: nat, fileCount: nat) returns (lines: seq<Bytes>)
    ensures lines == ["  " + CountSummary(dirCount, fileCount), ""]
  {
    var text := CountText(dirCount, fileCount);
    lines := ["  " + text, ""];
  }

  /** The parts-building code shared by dirSubtitle and printFooter. */
  method CountText(dirs: nat, files: nat) returns (s: Bytes)
    ensures s == CountSummary(dirs, files)
  {
    var parts: seq<Bytes> := [];
    if dirs > 0 {
      var p := Decimal(dirs) + " dir";
      if dirs > 1 {
        p := p + "s";
      }
      assert p == CountPhrase(dirs, "dir");
      parts := parts + [p];
    }
    if files > 0 {
      var p := Decimal(files) + " file";
      if files > 1 {
        p := p + "s";
      }
      assert p == CountPhrase(files, "file");
      parts := parts + [p];
    }
    assert parts == CountParts(dirs, files);
    s := Join(parts, ", ");
  }

  /** The shapes of the count text: zero parts are left out, dirs come before files, ", " joins them. */
  lemma SummaryShapes(dirs: nat, files: nat)
    ensures dirs == 0 && files == 0 ==> CountSummary(dirs, files) == ""
    ensures dirs > 0 && files == 0 ==> CountSummary(dirs, files) == CountPhrase(dirs, "dir")
    ensures dirs == 0 && files > 0 ==> CountSummary(dirs, files) == CountPhrase(files, "file")
    ensures dirs > 0 && files > 0 ==>
      CountSummary(dirs, files) == CountPhrase(dirs, "dir") + ", " + CountPhrase(files, "file")
  {
    if dirs > 0 && files > 0 {
      assert CountParts(dirs, files)[1..] == [CountPhrase(files, "file")];
      assert Join(CountParts(dirs, files)[1..], ", ") == CountPhrase(files, "file");
    }
  }

  /** A count phrase is plural exactly when the count is above one. */
  lemma PhrasePlural(n: nat, noun: Bytes)
    requires noun != [] && noun[|noun| - 1] != 's'
    ensures CountPhrase(n, noun)[|CountPhrase(n, noun)| - 1] == 's' <==> n > 1
  {
  }

  /** dirSubtitle says "empty" exactly when there is nothing to count. */
  lemma SubtitleEmpty(subDirs: nat, subFiles: nat)
    ensures Subtitle(subDirs, subFiles) == "empty" <==> subDirs == 0 && subFiles == 0
  {
    SummaryShapes(subDirs, subFiles);
    var s := Subtitle(subDirs, subFiles);
    if subDirs > 0 {
      assert s[0] == Decimal(subDirs)[0];
    } else if subFiles > 0 {
      assert s[0] == Decimal(subFiles)[0];
    }
  }

  /** The count text shared by the footer and the subtitle is empty exactly when there is nothing to count. */
  lemma SubtitleIsFooterText(subDirs: nat, subFiles: nat)
    ensures CountSummary(subDirs, subFiles) == "" <==> subDirs == 0 && subFiles == 0
  {
    SummaryShapes(subDirs, subFiles);
  }

  // ---------------------------------------------------------------- the counts can be read back

  /** The length of the run of digits a text starts with. */
  function LeadingDigits(s: Bytes): nat
    decreases |s|
  {
    if s == [] || !IsDigit(s[0]) then 0 else 1 + LeadingDigits(s[1..])
  }

  lemma {:induction false} LeadingDigitsOf(digits: Bytes, rest: Bytes)
    requires AllDigits(digits)
    requires rest == [] || !IsDigit(rest[0])
    ensures LeadingDigits(digits + rest) == |digits|
    decreases |digits|
  {
    if digits != [] {
      assert (digits + rest)[1..] == digits[1..] + rest;
      LeadingDigitsOf(digits[1..], rest);
    } else {
      assert digits + rest == rest;
    }
  }

  /** Splitting at the first space: a run of digits followed by " " is determined by the text. */
  lemma SplitAfterDigits(a: Bytes, x: Bytes, b: Bytes, y: Bytes)
    requires AllDigits(a) && AllDigits(b)
    requires a + " " + x == b + " " + y
    ensures a == b && x == y
  {
    var s := a + " " + x;
    LeadingDigitsOf(a, " " + x);
    LeadingDigitsOf(b, " " + y);
    assert s == a + (" " + x) == b + (" " + y);
    assert a == s[..|a|] == b;
    assert x == s[|a| + 1..] == y;
  }

  /** A count phrase followed by more text gives away its count, its noun and the text after it. */
  lemma PhraseSplit(n1: nat, w1: Bytes, x1: Bytes, n2: nat, w2: Bytes, x2: Bytes)
    requires w1 == "dir" || w1 == "file"
    requires w2 == "dir" || w2 == "file"
    requires CountPhrase(n1, w1) + x1 == CountPhrase(n2, w2) + x2
    ensures n1 == n2 && w1 == w2 && x1 == x2
  {
    var t1 := w1 + (if n1 > 1 then "s" else "") + x1;
    var t2 := w2 + (if n2 > 1 then "s" else "") + x2;
    assert CountPhrase(n1, w1) + x1 == Decimal(n1) + " " + t1;
    assert CountPhrase(n2, w2) + x2 == Decimal(n2) + " " + t2;
    SplitAfterDigits(Decimal(n1), t1, Decimal(n2), t2);
    DecimalInjective(n1, n2);
    assert t1[0] == w1[0] && t2[0] == w2[0];
    assert w1 == w2;
    var k := |w1 + (if n1 > 1 then "s" else "")|;
    assert x1 == t1[k..] == t2[k..] == x2;
  }

  /** The summary text determines both counts: no two different count pairs print alike. */
  lemma SummaryInjective(d1: nat, f1: nat, d2: nat, f2: nat)
    requires CountSummary(d1, f1) == CountSummary(d2, f2)
    ensures d1 == d2 && f1 == f2
  {
    SummaryShapes(d1, f1);
    SummaryShapes(d2, f2);
    SubtitleIsFooterText(d1, f1);
    SubtitleIsFooterText(d2, f2);
    if CountSummary(d1, f1) == "" {
      return;
    }
    // the first phrase and what follows it, on each side
    var n1: nat, w1, x1 := if d1 > 0 then d1 else f1, if d1 > 0 then "dir" else "file",
      if d1 > 0 && f1 > 0 then ", " + CountPhrase(f1, "file") else "";
    var n2: nat, w2, x2 := if d2 > 0 then d2 else f2, if d2 > 0 then "dir" else "file",
      if d2 > 0 && f2 > 0 then ", " + CountPhrase(f2, "file") else "";
    assert CountSummary(d1, f1) == CountPhrase(n1, w1) + x1;
    assert CountSummary(d2, f2) == CountPhrase(n2, w2) + x2;
    PhraseSplit(n1, w1, x1, n2, w2, x2);
    if d1 > 0 && f1 > 0 {
      assert |x1| > 0;
      assert x1[2..] == CountPhrase(f1, "file") + "";
      assert x2[2..] == CountPhrase(f2, "file") + "";
      PhraseSplit(f1, "file", "", f2, "file", "");
    }
  }
}
