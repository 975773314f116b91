/**
 * The layout arithmetic of main: panel widths from the terminal width, the
 * name budget, the height the content needs, and which panels are shown.
 */
module Layout {
  import opened Wrappers

  const MaxNameLen := 40
  const Gap := 2
  const MinInner := 20

  /** Go's `/` on int, which truncates toward zero (Dafny's `/` is Euclidean). */
  function GoQuot(a: int, b: int): int
    requires b > 0
  {
    if a >= 0 then a / b else -((-a) / b)
  }

  /**
   * The terminal's (width, height): term.GetSize's answer when it succeeds
   * with a positive width, otherwise 80 by 24. None stands for an error.
   */
  function TermSize(query: Option<(int, int)>): (size: (int, int))
    ensures size.0 >= 1
  {
    if query.Some? && query.value.0 > 0 then query.value else (80, 24)
  }

  /** innerW of one of two side-by-side panels: (width - gap) / 2 - 4, at least 20. */
  function InnerWidth(width: int): (r: int)
    ensures r >= MinInner
    ensures r >= GoQuot(width - Gap, 2) - 4
    ensures r > MinInner ==> 2 * (r + 4) + Gap <= width
  {
    var panelOuter := GoQuot(width - Gap, 2);
    var innerW := panelOuter - 4;
    if innerW < MinInner then MinInner else innerW
  }

  /** wideInner of a single panel: width - 6, at least 20. */
  function WideInner(width: int): (r: int)
    ensures r >= MinInner
    ensures r >= width - 6
    ensures r > MinInner ==> r + 6 == width
  {
    var wideInner := width - 6;
    if wideInner < MinInner then MinInner else wideInner
  }

  /** nameMax / wideMax: two less than the inner width, at most 40. */
  function NameLimit(inner: int): (r: int)
    requires inner >= MinInner
    ensures MinInner - 2 <= r <= MaxNameLen
    ensures r <= inner - 2
    ensures r == MaxNameLen || r == inner - 2
  {
    var nameMax := inner - 2;
    if nameMax > MaxNameLen then MaxNameLen else nameMax
  }

  /** Because of the clamp to 20, Euclidean division gives the same inner width as Go's. */
  lemma InnerWidthAnyDivision(width: int)
    ensures InnerWidth(width) == (if (width - Gap) / 2 - 4 < MinInner then MinInner else (width - Gap) / 2 - 4)
  {
  }

  /** The name budgets of both layouts lie in [18, 40]. */
  lemma NameLimitsInRange(width: int)
    ensures 18 <= NameLimit(InnerWidth(width)) <= 40
    ensures 18 <= NameLimit(WideInner(width)) <= 40
  {
  }

  /** The height needed: two lines for each entry of the longer list, plus 10 for box chrome and margins. */
  function NeededHeight(numDirs: nat, numFiles: nat): (h: nat)
    ensures h >= 2 * numDirs + 10 && h >= 2 * numFiles + 10
    ensures h == 2 * numDirs + 10 || h == 2 * numFiles + 10
  {
    var dirLines := numDirs * 2;
    var fileLines := numFiles * 2;
    var contentLines := if fileLines > dirLines then fileLines else dirLines;
    contentLines + 10
  }

  /**
   * The content is taller than the terminal: the height test that is the first
   * condition of the font-rescaling step (its other conditions are not modelled).
   */
  predicate Overflows(neededHeight: int, height: int) {
    neededHeight > height
  }

  /** Which output main prints. */
  datatype Mode =
    | Nothing      // the line "  empty"
    | FilesPanel   // a single, wide FILES panel
    | DirsPanel    // a single, wide DIRS panel
    | TwoPanels    // DIRS and FILES side by side

  function SelectMode(filesOnly: bool, numDirs: nat, numFiles: nat): Mode {
    if numDirs == 0 && numFiles == 0 then Nothing
    else if filesOnly || numDirs == 0 then FilesPanel
    else if numFiles == 0 then DirsPanel
    else TwoPanels
  }

  predicate ShowsDirs(m: Mode) { m == DirsPanel || m == TwoPanels }
  predicate ShowsFiles(m: Mode) { m == FilesPanel || m == TwoPanels }

  /** The four outcomes of the mode selection, each with the exact condition that leads to it. */
  lemma ModeCases(filesOnly: bool, numDirs: nat, numFiles: nat)
    ensures SelectMode(filesOnly, numDirs, numFiles) == Nothing <==> numDirs == 0 && numFiles == 0
    ensures SelectMode(filesOnly, numDirs, numFiles) == FilesPanel <==>
      (numDirs > 0 || numFiles > 0) && (filesOnly || numDirs == 0)
    ensures SelectMode(filesOnly, numDirs, numFiles) == DirsPanel <==>
      numDirs > 0 && numFiles == 0 && !filesOnly
    ensures SelectMode(filesOnly, numDirs, numFiles) == TwoPanels <==>
      numDirs > 0 && numFiles > 0 && !filesOnly
  {
  }

  /**
   * With -f the dirs list is always empty, so the panels shown are exactly
   * those whose list has entries, except that an all-empty listing prints
   * "  empty" and nothing else.
   */
  lemma ModeShowsNonEmptyLists(filesOnly: bool, numDirs: nat, numFiles: nat)
    requires filesOnly ==> numDirs == 0
    ensures ShowsDirs(SelectMode(filesOnly, numDirs, numFiles)) <==> numDirs > 0
    ensures ShowsFiles(SelectMode(filesOnly, numDirs, numFiles)) <==> numFiles > 0
    ensures SelectMode(filesOnly, numDirs, numFiles) == Nothing <==> numDirs == 0 && numFiles == 0
  {
  }
}
