/**
 * The command line of `peek [options] [path]`: the loop over os.Args[1:]
 * that sets showAll, filesOnly and target, and stops at -h/--help.
 */
module Args {
  import opened GoStrings

  datatype Options = Options(showAll: bool, filesOnly: bool, target: Bytes)

  /** What the program does after reading its arguments. */
  datatype Command =
    | Help                  // the usage text is printed and the program ends
    | List(opts: Options)   // the target directory is listed

  predicate IsAll(arg: Bytes) { arg == "-a" || arg == "--all" }
  predicate IsFiles(arg: Bytes) { arg == "-f" || arg == "--files" }
  predicate IsHelp(arg: Bytes) { arg == "-h" || arg == "--help" }

  /** An argument that the switch's default branch takes as the target path. */
  predicate IsPath(arg: Bytes) { !HasPrefix(arg, "-") }

  /** The usage text printed for -h/--help. */
  const UsageLines: seq<Bytes> := [
    "Usage: peek [options] [path]",
    "  -a, --all     show hidden files",
    "  -f, --files   files only",
    "  -h, --help    this message"
  ]

  /** The target the arguments name: the last path argument, or "." when there is none. */
  function LastPath(args: seq<Bytes>): Bytes
    decreases |args|
  {
    if args == [] then "."
    else if IsPath(args[|args| - 1]) then args[|args| - 1]
    else LastPath(args[..|args| - 1])
  }

  /** The target is "." when no argument is a path, and otherwise the path argument that no other path follows. */
  lemma {:induction false} LastPathIsLast(args: seq<Bytes>)
    ensures (forall i :: 0 <= i < |args| ==> !IsPath(args[i])) ==> LastPath(args) == "."
    ensures (exists i :: 0 <= i < |args| && IsPath(args[i])) ==>
              exists i :: 0 <= i < |args| && args[i] == LastPath(args) && IsPath(args[i]) &&
                forall j :: i < j < |args| ==> !IsPath(args[j])
    decreases |args|
  {
    if args != [] && !IsPath(args[|args| - 1]) {
      var front := args[..|args| - 1];
      assert forall i :: 0 <= i < |front| ==> front[i] == args[i];
      LastPathIsLast(front);
    }
  }

  /** The three flags are dash arguments, so none of them is ever taken as a path. */
  lemma FlagsAreNotPaths(x: Bytes)
    requires IsAll(x) || IsFiles(x) || IsHelp(x)
    ensures !IsPath(x)
  {
    assert x[..1] == "-";
  }

  predicate HasHelp(args: seq<Bytes>) { exists i :: 0 <= i < |args| && IsHelp(args[i]) }
  predicate HasAll(args: seq<Bytes>) { exists i :: 0 <= i < |args| && IsAll(args[i]) }
  predicate HasFiles(args: seq<Bytes>) { exists i :: 0 <= i < |args| && IsFiles(args[i]) }

  /** What a command line means, stated over the whole argument list at once. */
  function Meaning(args: seq<Bytes>): Command {
    if HasHelp(args) then Help
    else List(Options(HasAll(args), HasFiles(args), LastPath(args)))
  }

  /** The argument loop of main, one argument at a time. */
  method ParseArgs(args: seq<Bytes>) returns (cmd: Command)
    ensures cmd == Meaning(args)
  {
    var showAll, filesOnly, target := false, false, ".";
    for i := 0 to |args|
      invariant !HasHelp(args[..i])
      invariant showAll == HasAll(args[..i])
      invariant filesOnly == HasFiles(args[..i])
      invariant target == LastPath(args[..i])
    {
      var arg := args[i];
      assert args[..i + 1] == args[..i] + [arg];
      assert args[..i + 1][..i] == args[..i];
      if IsAll(arg) {
        FlagsAreNotPaths(arg);
        showAll := true;
      } else if IsFiles(arg) {
        FlagsAreNotPaths(arg);
        filesOnly := true;
      } else if IsHelp(arg) {
        return Help;
      } else if IsPath(arg) {
        target := arg;
      }
    }
    assert args[..|args|] == args;
    cmd := List(Options(showAll, filesOnly, target));
  }

  lemma NoArguments()
    ensures Meaning([]) == List(Options(false, false, "."))
  {
  }

  /** -h/--help anywhere ends processing: whatever precedes or follows it has no effect. */
  lemma HelpWins(before: seq<Bytes>, h: Bytes, after: seq<Bytes>)
    requires IsHelp(h)
    ensures Meaning(before + [h] + after) == Help
  {
    assert (before + [h] + after)[|before|] == h;
  }

  /** A path argument that is the last one becomes the target. */
  lemma LastPathIsTarget(before: seq<Bytes>, path: Bytes)
    requires IsPath(path) && !HasHelp(before)
    ensures Meaning(before + [path]).List? && Meaning(before + [path]).opts.target == path
  {
    var args := before + [path];
    assert forall i :: 0 <= i < |before| ==> args[i] == before[i];
    if IsHelp(path) {
      FlagsAreNotPaths(path);
    }
  }

  lemma {:induction false} LastPathSkips(before: seq<Bytes>, x: Bytes, after: seq<Bytes>)
    requires !IsPath(x)
    ensures LastPath(before + [x] + after) == LastPath(before + after)
    decreases |after|
  {
    if after == [] {
      assert (before + [x] + after)[..|before|] == before;
      assert before + after == before;
    } else {
      var l1 := before + [x] + after;
      var l2 := before + after;
      assert l1[|l1| - 1] == l2[|l2| - 1];
      assert l1[..|l1| - 1] == before + [x] + after[..|after| - 1];
      assert l2[..|l2| - 1] == before + after[..|after| - 1];
      LastPathSkips(before, x, after[..|after| - 1]);
    }
  }

  /** A dash argument other than the known flags changes nothing, wherever it stands. */
  lemma UnknownOptionIgnored(before: seq<Bytes>, x: Bytes, after: seq<Bytes>)
    requires HasPrefix(x, "-") && !IsAll(x) && !IsFiles(x) && !IsHelp(x)
    ensures Meaning(before + [x] + after) == Meaning(before + after)
  {
    var l1 := before + [x] + after;
    var l2 := before + after;
    // l2 is l1 with the element at |before| removed
    assert forall i :: 0 <= i < |before| ==> l1[i] == l2[i];
    assert forall i :: |before| < i < |l1| ==> l1[i] == l2[i - 1];
    assert forall i :: |before| <= i < |l2| ==> l2[i] == l1[i + 1];
    LastPathSkips(before, x, after);
  }
}
