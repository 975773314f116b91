# peek — a verified model of the listing pipeline

`peek [options] [path]` lists one directory in a terminal: sub-directories in
a DIRS panel, files in a FILES panel, each entry as a truncated name over a
subtitle (child counts for a directory, a human-readable size for a file),
and a footer with the counts. `-a/--all` shows dot-names, `-f/--files` drops
directories, `-h/--help` prints the usage. This project models the
deterministic part of `main.go`. That part reads the arguments, filters and
classifies the entries, sorts the two lists, computes the panel widths,
picks the panel mode, and builds the text of each panel and of the footer.

Modules (all of them model `main.go`):

- `gostrings.dfy`: `Wrappers` (an `Option`) and `GoStrings`. These are the
  bits of Go's `strings`, `fmt` and `filepath` the program uses: `HasPrefix`,
  ASCII `ToLower`, byte-wise string `<`, `Join`, `%d` (`Decimal`, with its
  inverse `ParseDecimal`) and `filepath.Ext` followed by `TrimPrefix`.
  A Go string is a Dafny `string` in which each character stands for one
  byte. So `|s|` is `len(s)`, and slicing works on bytes, as it does in Go.
- `args.dfy`: `Args`. The argument loop (`ParseArgs`) is proved equal to a
  whole-list definition (`Meaning`). Lemmas cover the defaults, `-h`
  winning, the last path becoming the target, and unknown dash options
  being ignored.
- `entries.dfy`: `Entries`. The entry loop (`Classify`) and the child-count
  loop (`CountChildren`) are proved equal to list functions (`DirsOf`,
  `FilesOf`, `Visible`). Lemmas cover soundness, completeness and size of
  the partition.
- `ordering.dfy`: `Ordering`. `sort.Slice` is an in-place sort on an
  array. It requires a strict weak order and promises a sorted permutation.
  Both comparators of `main` are proved to be strict weak orders.
- `text.dfy`: `Text`. Covers `truncate`, `dirSubtitle` and the footer text,
  including the proof that the count text determines both counts.
- `layout.dfy`: `Layout`. Covers the terminal size defaults, the clamped
  widths, the needed height and the panel-mode selection.
- `content.dfy`: `Content`. Covers `buildDirContent` and `buildFileContent`
  as plain lines.
- `peek.dfy`: `Peek`. `Run` is `main` from end to end, with the outside
  world as parameters. It returns a `Screen` that describes what is printed,
  and the sorted lists.

The file system arrives as data. `readDir` maps a path to the entries
`os.ReadDir` would return, or `None` on an error. Each `RawEntry` carries
the answers of `Info()`, `IsDir()`, the symlink bit, `EvalSymlinks`+`Stat`
(`linkIsDir`) and the nested `ReadDir` (`children`). The terminal size query
is `termQuery`, and `humanSize` is the parameter `sizeText`.

`truncate` compares and slices byte lengths, not display widths, and so does the model.

## Model

| member | source | states |
|---|---|---|
| GoStrings.ToLower | main.go:160 | lower-cases ASCII letters byte by byte and keeps the length; every other byte is unchanged |
| GoStrings.LessAsymmetric | main.go:160 | Go's string `<` (byte-wise lexicographic) is asymmetric |
| GoStrings.LessTrichotomy | main.go:160 | any two strings are equal or ordered one way by `<` |
| GoStrings.LessTransitive | main.go:160 | string `<` is transitive |
| GoStrings.LessIrreflexive | main.go:160 | no string is `<` itself |
| GoStrings.Decimal | main.go:374 | `%d` of a count: non-empty, digits only, one digit for a count below 10, and no leading zero except for 0 itself |
| GoStrings.DecimalRoundTrip | main.go:374 | reading the digits of `%d` back gives the number again |
| GoStrings.DecimalInjective | main.go:374 | different counts print different digits |
| GoStrings.Extension | main.go:123-126 | the extension contains no '.'; it is "" when the name has no '.'; otherwise the name is some prefix, a '.', then the extension (the text after the last '.') |
| Args.LastPathIsLast | main.go:83-86 | the target is "." when no argument is a path; otherwise it is a path argument after which no other path argument follows |
| Args.FlagsAreNotPaths | main.go:72-86 | `-a`, `--all`, `-f`, `--files`, `-h` and `--help` all start with '-', so none of them is ever taken as the target |
| Args.ParseArgs | main.go:67-88 | the loop's outcome equals `Meaning`: Help if any argument is -h/--help; otherwise showAll iff some -a/--all, filesOnly iff some -f/--files, and target the last non-dash argument or "." |
| Args.NoArguments | main.go:67-69 | with no arguments: showAll false, filesOnly false, target "." |
| Args.HelpWins | main.go:77-82 | -h/--help anywhere gives Help, whatever comes before or after it |
| Args.LastPathIsTarget | main.go:83-86 | a non-dash argument that comes last becomes the target |
| Args.LastPathSkips | main.go:83-86 | inserting a dash argument anywhere leaves the target unchanged |
| Args.UnknownOptionIgnored | main.go:83-86 | inserting an unknown dash argument anywhere leaves the outcome unchanged |
| Entries.VisibleFilters | main.go:141-144 | the children counted are exactly those not hidden by the dot-name filter, no more than there are, and with showAll all of them in order |
| Entries.CountChildren | main.go:137-151 | subDirs + subFiles is the number of visible children, and subDirs the number of those that are directories; both are 0 when the directory cannot be read |
| Entries.Classify | main.go:96-156 | the loop's dirs and files equal DirsOf and FilesOf: kept entries in read order, each built as the loop builds it |
| Entries.DirsSound | main.go:99-152 | every listed dir was built from an entry that passed the hidden and Info() filters, resolves to a directory, and was listed without -f |
| Entries.FilesSound | main.go:99-155 | every listed file was built from an entry that passed the hidden and Info() filters and does not resolve to a directory |
| Entries.PartitionComplete | main.go:97-155 | every entry that passes the filters lands in the list its resolved kind selects |
| Entries.PartitionSize | main.go:96-156 | len(dirs) + len(files) is at most the number of entries read |
| Entries.FilesOnlyHasNoDirs | main.go:137-155 | with -f the dirs list is empty |
| Entries.ListedEntries | main.go:99-155 | dirs have isDir, ext "" and the child counts of their visible children; files have !isDir, ext = Extension(name) and zero counts; without showAll no name starts with '.'; each comes from an entry whose Info() succeeded |
| Ordering.SortSlice | main.go:158-167 | sort.Slice with a strict weak order: afterwards no element is less than an earlier one, and the array is a permutation of what it was |
| Ordering.DirLessIsStrictWeakOrder | main.go:158-163 | comparing lower-cased names with `<` is a strict weak order, so the dirs sort is well defined |
| Ordering.FileLessIsStrictWeakOrder | main.go:164-167 | comparing sizes with `>` is a strict weak order |
| Ordering.SortedDirsAscend | main.go:158-163 | sorted dirs have non-decreasing lower-cased names |
| Ordering.SortedFilesDescend | main.go:164-167 | sorted files have non-increasing sizes, largest first |
| Text.Budget | main.go:392-394 | the byte budget is max, raised to at least 4: exactly max(max, 4) |
| Text.Truncate | main.go:391-399 | a name within the budget is returned whole; a longer one keeps its first budget-1 bytes, followed by the ellipsis |
| Text.TruncateIdempotent | main.go:391-399 | truncating twice with the same max gives the same result as once, for any ellipsis |
| Text.TruncateKeepsPrefix | main.go:391-399 | the result always starts with the first min(len, budget-1) bytes of the name |
| Text.CountText | main.go:372-386 | the parts-building code gives the count summary: "N dir(s)" if any, then "M file(s)" if any, joined by ", " |
| Text.DirSubtitle | main.go:401-421 | the subtitle is "empty" for no children, otherwise the count summary |
| Text.FooterLines | main.go:371-389 | the footer is two spaces and the count summary, then an empty line |
| Text.SummaryShapes | main.go:371-389 | the four shapes of the summary: "", "N dir(s)", "M file(s)", "N dir(s), M file(s)" |
| Text.PhrasePlural | main.go:374-377 | a count phrase ends in "s" exactly when the count is above one |
| Text.SubtitleEmpty | main.go:401-404 | dirSubtitle is "empty" exactly when both counts are 0 |
| Text.SubtitleIsFooterText | main.go:371-421 | the count summary shared by the footer and the subtitle is "" exactly when both counts are 0 |
| Text.PhraseSplit | main.go:374-377 | a count phrase followed by more text determines the count, the noun and what follows |
| Text.SummaryInjective | main.go:371-389 | two count pairs with the same summary text are equal, so the text can be read back |
| Layout.TermSize | main.go:174-180 | the width used is at least 1: the queried width when it is positive, otherwise 80 (by 24) |
| Layout.InnerWidth | main.go:214-221 | the panel's inner width is at least 20 and at least (width-2)/2-4; when not clamped, two panels with their 4 columns of chrome and the gap fit in the width |
| Layout.WideInner | main.go:241-244 | the single panel's inner width is at least 20 and at least width-6; when not clamped it is width-6 |
| Layout.NameLimit | main.go:223-226 | nameMax/wideMax lies in [18, 40], is at most inner-2, and is 40 or inner-2 |
| Layout.InnerWidthAnyDivision | main.go:216-221 | with Euclidean division in place of Go's truncating one the clamped inner width is the same |
| Layout.NameLimitsInRange | main.go:219-226 | both layouts' name budgets lie in [18, 40] for every width |
| Layout.NeededHeight | main.go:182-189 | the needed height is 2*max(len(dirs), len(files)) + 10 |
| Layout.ModeCases | main.go:169-290 | "  empty" iff both lists are empty; FILES panel iff not both empty and (-f or no dirs); DIRS panel iff dirs, no files and no -f; two panels iff both non-empty and no -f |
| Layout.ModeShowsNonEmptyLists | main.go:240-290 | given that -f leaves no dirs, the DIRS panel is shown iff there are dirs and the FILES panel iff there are files |
| Content.BuildDirContent | main.go:335-351 | two lines per directory, in list order: its truncated name, then its subtitle |
| Content.BuildFileContent | main.go:353-369 | two lines per file, in list order: its truncated name, then its size text |
| Content.ContentShowsEveryEntry | main.go:335-351 | each directory's name line starts with as much of its name as fits; its subtitle is "empty" iff it has no counted children |
| Peek.Run | main.go:66-296 | Help iff -h/--help; a read error, and with it exit status 1, iff the arguments ask for a listing and the target cannot be read; otherwise dirs and files are sorted permutations of the partition, and the screen shows what the mode selects, with the layout's widths and budgets, the content lines, the footer and the overflow test |
| Peek.ListsAreThePartition | main.go:96-167 | the sorted lists hold no more entries than were read, contain every entry that passes the filters, have no dirs with -f, have dirs that are directories and files with their extension, and have no dot-names without -a |
| Peek.NeededHeightIsContentPlusChrome | main.go:182-189 | the needed height is the taller panel's number of content lines plus 10 |

## Left out

- `humanSize` (main.go:423-440) works on float64 with `math.Log`, `math.Pow` and `%.1f`. It is the parameter `sizeText` of the file content.
- The Alacritty font rescaling (main.go:191-212, 298-333) reads environment variables and files, scales floats, sleeps and queries the terminal size again. Only the height test, the first conjunct `neededHeight > height` of main.go:194, is kept, as `Screen.overflow`. The config-path condition (`cfgPath != ""`, main.go:194) and the font-size conditions (`originalFontSize > 0`, main.go:196; `newSize < originalFontSize`, main.go:201) are left out, and the model lays out with the first size query.
- File-system calls (`os.ReadDir`, `Info`, `EvalSymlinks`, `os.Stat`) are inputs: `readDir` and the fields of `RawEntry`. The text of the read error is not modelled; the error carries the target.
- `term.GetSize` is the input `termQuery`.
- lipgloss output is not modelled: colours, borders, padding, `JoinHorizontal` and the choice of colour for symlinks and dot-names. The final `strings.Join(lines, "\n")` and the printing are not modelled either. Panels are given as title, inner width and plain lines.
- `strings.ToLower` is modelled on ASCII letters only. Its Unicode case mapping is not modelled.
- `filepath.Ext` stops at a path separator. The model does not, because directory entry names contain no separator.
- The ellipsis literal of `truncate` holds 7 bytes in main.go (a mis-encoded "…"). `Content.Ellipsis` keeps those bytes, but no proved property depends on its length or contents.
- `Ordering.SortSlice` is an insertion sort. It is not Go's pattern-defeating quicksort, so the order of equal elements (ties) is not modelled; only "sorted permutation" is promised, as sort.Slice is unstable.
- Go's `int` and `int64` are 64-bit. Counts and sizes here are unbounded, since no list in a directory can overflow them.
