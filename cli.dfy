/**
 * src/quietex/cli.py: splitting the command line into quietex's own options
 * and the command to run, rejecting the combinations of options it does not
 * accept, and building the command latexmk is told to call. The option
 * parsing of argparse itself is not modelled: its result enters as `Flags`.
 */
module Cli {
  import opened PyStr

  /** What `split_argv` returns: how quietex was invoked, its options, and the command to run (None when there is none). */
  datatype Split = Split(invocation: String, options: seq<String>, command: Option<seq<String>>)

  /** Python's truth value of an optional list: present and not empty. */
  predicate Given(command: Option<seq<String>>) {
    command.Some? && command.value != []
  }

  /** An argument that is an option: it starts with "-". */
  predicate IsOption(arg: String) {
    StartsWith(arg, "-")
  }

  /** The index of the first argument from `from` on that is not an option, or None when all of them are. */
  function FirstNonOption(args: seq<String>, from: nat): (r: Option<nat>)
    requires from <= |args|
    ensures r.Some? ==> from <= r.value < |args| && !IsOption(args[r.value])
    ensures forall j :: from <= j < |args| && (r.None? || j < r.value) ==> IsOption(args[j])
    decreases |args| - from
  {
    if from == |args| then None
    else if !IsOption(args[from]) then Some(from)
    else FirstNonOption(args, from + 1)
  }

  /** `split_argv`: the first argument names quietex (or `python -m quietex` when it is the package's `__main__`); the rest splits before the first non-option. */
  function SplitArgv(argv: seq<String>): Split
    requires argv != []
  {
    var invocation := if Contains(argv[0], "__main__") then "python -m quietex" else argv[0];
    var rest := argv[1..];
    match FirstNonOption(rest, 0)
    case Some(i) => Split(invocation, rest[..i], Some(rest[i..]))
    case None => Split(invocation, rest, None)
  }

  /** The split keeps every argument after the first, in order: options first, then the command starting at a non-option. */
  lemma SplitArgvSplits(argv: seq<String>)
    requires argv != []
    ensures var s := SplitArgv(argv);
      (s.invocation == "python -m quietex" <==> Contains(argv[0], "__main__") || argv[0] == "python -m quietex")
      && (forall j :: 0 <= j < |s.options| ==> IsOption(s.options[j]))
      && (s.command.Some? ==> s.options + s.command.value == argv[1..] && s.command.value != [] && !IsOption(s.command.value[0]))
      && (s.command.None? ==> s.options == argv[1..])
  {
    var rest := argv[1..];
    match FirstNonOption(rest, 0)
    case Some(i) =>
      assert rest[..i] + rest[i..] == rest;
    case None =>
  }

  /** With no command, every argument is an option for quietex; with one, it is split off whole. */
  lemma SplitArgvExamples()
    ensures SplitArgv(["quietex", "-v", "pdflatex", "-x", "a.tex"]) == Split("quietex", ["-v"], Some(["pdflatex", "-x", "a.tex"]))
    ensures SplitArgv(["quietex", "--latexmkrc", "-f"]) == Split("quietex", ["--latexmkrc", "-f"], None)
    ensures SplitArgv(["/lib/quietex/__main__.py"]).invocation == "python -m quietex"
  {
    var a := ["quietex", "-v", "pdflatex", "-x", "a.tex"];
    assert a[1..][1][..1] != "-" by {
      assert a[1..][1][0] == 'p';
    }
    assert IsOption(a[1..][0]) && !IsOption(a[1..][1]);
    assert a[1..][..1] == ["-v"] && a[1..][1..] == ["pdflatex", "-x", "a.tex"];
    var b := ["quietex", "--latexmkrc", "-f"];
    assert IsOption(b[1..][0]) && IsOption(b[1..][1]);
    var m := "/lib/quietex/__main__.py";
    assert OccursAt(m, "__main__", 13);
  }

  /** The options argparse reads, with their defaults already applied. */
  datatype Flags = Flags(latexmkrc: bool, force: bool, bell: bool, quiet: bool)

  /** The outcome of the checks in `parse_args`: accepted, or the help printed after a message (possibly empty). */
  datatype Check = Accepted | Rejected(message: String)

  /** The checks `parse_args` makes after parsing, in their order. */
  function CheckFlags(flags: Flags, command: Option<seq<String>>): Check {
    if flags.latexmkrc && Given(command) then Rejected("Use --latexmkrc or command, not both\n")
    else if flags.force && Given(command) then Rejected("--force is only valid with --latexmkrc\n")
    else if !flags.latexmkrc && !Given(command) then Rejected("")
    else Accepted
  }

  /** Accepted exactly when there is either `--latexmkrc` or a command but not both, and `--force` comes without a command. */
  lemma CheckFlagsAccepts(flags: Flags, command: Option<seq<String>>)
    ensures CheckFlags(flags, command) == Accepted
      <==> (flags.latexmkrc != Given(command)) && !(flags.force && Given(command))
  {
  }

  /** Asking for both says so first, even when `--force` is also wrong. */
  lemma BothReportedFirst(command: seq<String>)
    requires command != []
    ensures CheckFlags(Flags(true, true, true, true), Some(command)) == Rejected("Use --latexmkrc or command, not both\n")
  {
  }

  /** The command latexmk is told to run: the invocation, then " --verbose" unless quiet, then " --no-bell" unless the bell rings. */
  function LatexmkCommand(invocation: String, flags: Flags): String {
    var withVerbose := if !flags.quiet then invocation + " --verbose" else invocation;
    if !flags.bell then withVerbose + " --no-bell" else withVerbose
  }

  /** The invocation comes first and the two options follow in that order, each only when asked for. */
  lemma LatexmkCommandSuffix(invocation: String, flags: Flags)
    ensures StartsWith(LatexmkCommand(invocation, flags), invocation)
    ensures LatexmkCommand(invocation, flags)[|invocation|..]
      == (if !flags.quiet then " --verbose" else "") + (if !flags.bell then " --no-bell" else "")
  {
    var r := LatexmkCommand(invocation, flags);
    var suffix := (if !flags.quiet then " --verbose" else "") + (if !flags.bell then " --no-bell" else "");
    assert r == invocation + suffix;
  }

  /** What `main` goes on to do. */
  datatype Action =
    | PrintLatexmkrc(latexmkCommand: String, force: bool)
    | RunCommand(args: seq<String>, quiet: bool, bell: bool)
    | PrintHelp(message: String)

  /** `main`, given the flags argparse read from the options. */
  function Main(argv: seq<String>, flags: Flags): Action
    requires argv != []
  {
    var s := SplitArgv(argv);
    match CheckFlags(flags, s.command)
    case Rejected(message) => PrintHelp(message)
    case Accepted =>
      if flags.latexmkrc then PrintLatexmkrc(LatexmkCommand(s.invocation, flags), flags.force)
      else RunCommand(s.command.value, flags.quiet, flags.bell)
  }

  /** A command is run only when one was given, and it is exactly the arguments from the first non-option on; the settings are printed only when none was. */
  lemma MainRunsTheCommand(argv: seq<String>, flags: Flags)
    requires argv != []
    ensures Main(argv, flags).RunCommand? ==>
      exists i :: 1 <= i < |argv| && Main(argv, flags).args == argv[i..] && !IsOption(argv[i])
        && (forall j :: 1 <= j < i ==> IsOption(argv[j]))
    ensures Main(argv, flags).PrintLatexmkrc? ==> SplitArgv(argv).command.None?
  {
    var rest := argv[1..];
    match FirstNonOption(rest, 0)
    case Some(i) =>
      assert rest[i..] == argv[i + 1..];
      assert forall j :: 1 <= j < i + 1 ==> argv[j] == rest[j - 1];
    case None =>
  }
}
