/** The command-line side of the build tool: the `--syscall` dispatch in
    `main` and the small helpers it reaches — `echo`, `init-depfile` and the
    way `cp` names its targets. Arguments are C strings from the operating
    system (none contains NUL); what goes to stdout and stderr is returned as
    text, and the outcome of each filesystem call is a parameter. */
module Syscalls {
  import opened Wrappers
  import opened CStrings
  import opened Split

  /** What a command run leaves behind: its exit status and the text it
      wrote to stdout and stderr. */
  datatype Exit = Exit(status: int, stdout: string, stderr: string)

  /** The helpers the dispatch hands over to, with their own argument
      vectors (the syscall name first). */
  datatype Handler = Touch | Echo | InitDepfile | Cp

  /** Where `main` sends a command line: straight to an exit, to a syscall
      helper, or to the build driver. */
  datatype Action = Done(exit: Exit) | Call(handler: Handler, args: seq<string>) | Build(argv: seq<string>)

  const SyscallFlag: string := "--syscall"
  const NoArg0Message: string := "error: no arg0\n"
  const NoSyscallMessage: string := "error: --syscall takes at least 1 argument (got none)\n"
  const UnknownSyscallPrefix: string := "error: unknown syscall: "

  /** The handler a syscall name selects, if any. */
  function HandlerFor(name: string): Option<Handler>
  {
    if name == "touch" then Some(Touch)
    else if name == "echo" then Some(Echo)
    else if name == "init-depfile" then Some(InitDepfile)
    else if name == "cp" then Some(Cp)
    else None
  }

  /** `main`: with `--syscall` as the first argument, the rest of the command
      line names a syscall and its arguments; anything else runs the build. */
  function Dispatch(argv: seq<string>): (a: Action)
    ensures |argv| == 0 ==> a == Done(Exit(2, "", NoArg0Message))
    ensures a.Build? <==> |argv| > 0 && (|argv| == 1 || argv[1] != SyscallFlag)
    ensures a.Build? ==> a.argv == argv
    ensures a.Call? ==>
      |argv| > 2 && argv[1] == SyscallFlag && a.args == argv[2..] && HandlerFor(argv[2]) == Some(a.handler)
    ensures a.Done? && |argv| > 0 ==> |argv| > 1 && argv[1] == SyscallFlag
    ensures |argv| == 2 && argv[1] == SyscallFlag ==> a == Done(Exit(2, "", NoSyscallMessage))
  {
    if |argv| == 0 then Done(Exit(2, "", NoArg0Message))
    else if |argv| > 1 && argv[1] == SyscallFlag then
      var args := argv[2..];
      if |args| == 0 then Done(Exit(2, "", NoSyscallMessage))
      else if args[0] == "touch" then Call(Touch, args)
      else if args[0] == "pass" then Done(Exit(0, "", ""))
      else if args[0] == "fail" then Done(Exit(1, "", ""))
      else if args[0] == "echo" then Call(Echo, args)
      else if args[0] == "init-depfile" then Call(InitDepfile, args)
      else if args[0] == "cp" then Call(Cp, args)
      else Done(Exit(2, "", UnknownSyscallPrefix + args[0] + "\n"))
    else Build(argv)
  }

  /** A syscall command line: the flag, then the syscall name and its
      arguments. */
  function SyscallLine(name: string, rest: seq<string>): seq<string>
  {
    [SyscallFlag, name] + rest
  }

  /** Every syscall name maps to its behaviour: `pass` and `fail` exit at
      once with 0 and 1, the four helpers receive the name and the arguments
      after it, and any other name exits with status 2 and names itself on
      stderr. */
  lemma {:induction false} DispatchSyscall(arg0: string, name: string, rest: seq<string>)
    ensures var a := Dispatch([arg0] + SyscallLine(name, rest));
      && (name == "pass" ==> a == Done(Exit(0, "", "")))
      && (name == "fail" ==> a == Done(Exit(1, "", "")))
      && (HandlerFor(name).Some? ==> a == Call(HandlerFor(name).value, [name] + rest))
      && (name != "pass" && name != "fail" && HandlerFor(name).None? ==>
            a == Done(Exit(2, "", UnknownSyscallPrefix + name + "\n")))
  {
    var argv := [arg0] + SyscallLine(name, rest);
    assert argv[1] == SyscallFlag;
    assert argv[2..] == [name] + rest;
  }

  /** `echo`'s output line for its arguments: the arguments separated by
      single spaces. */
  function Words(args: seq<string>): string
  {
    if args == [] then "" else Join(args, ' ')
  }

  /** `main_echo`: prints every argument after the name, each but the first
      preceded by a space, then a newline; always exits 0. */
  method RunEcho(args: seq<string>) returns (exit: Exit)
    requires |args| > 0
    ensures exit == Exit(0, Words(args[1..]) + "\n", "")
  {
    var out := "";
    var sep := "";
    var i := 1;
    while i < |args|
      invariant 1 <= i <= |args|
      invariant sep == (if i == 1 then "" else " ")
      invariant out == Words(args[1..i])
    {
      WordsAppend(args[1..i], args[i]);
      assert args[1..i] == [] <==> i == 1;
      assert args[1..i + 1] == args[1..i] + [args[i]];
      out := out + sep + args[i];
      sep := " ";
      i := i + 1;
    }
    assert args[1..i] == args[1..];
    exit := Exit(0, out + "\n", "");
  }

  /** Appending one more word adds a space (unless it is the first) and the
      word. */
  lemma {:induction false} WordsAppend(ws: seq<string>, w: string)
    ensures Words(ws + [w]) == Words(ws) + (if ws == [] then "" else " ") + w
    decreases |ws|
  {
    var all := ws + [w];
    if |ws| == 1 {
      assert all[0] == ws[0] && all[1..] == [w];
      assert Join(all[1..], ' ') == w;
      assert Words(all) == ws[0] + [' '] + w;
    } else if |ws| > 1 {
      assert all[0] == ws[0] && all[1..] == ws[1..] + [w];
      WordsAppend(ws[1..], w);
      calc {
        Words(all);
        ws[0] + [' '] + Join(ws[1..] + [w], ' ');
        ws[0] + [' '] + (Join(ws[1..], ' ') + " " + w);
        (ws[0] + [' '] + Join(ws[1..], ' ')) + " " + w;
      }
    }
  }

  /** Splitting an echoed line (without its newline) at spaces gives the
      arguments back, when there is at least one and none contains a
      space. */
  lemma EchoRoundTrip(args: seq<string>)
    requires |args| > 1
    requires forall k :: 1 <= k < |args| ==> ' ' !in args[k]
    ensures var line := Words(args[1..]) + "\n";
      line[|line| - 1] == '\n' && Tokens(line[..|line| - 1], {' '}) == args[1..]
  {
    var ws := args[1..];
    forall t | t in ws
      ensures NoneIn(t, {' '})
    {
    }
    TokensJoin(ws, ' ');
    var line := Words(ws) + "\n";
    assert line[..|line| - 1] == Words(ws);
  }

  /** What `init-depfile` leaves behind: its exit, and the file it created
      with the text written into it (empty when the write failed). */
  datatype DepfileRun = DepfileRun(exit: Exit, file: Option<(string, string)>)

  /** A depfile path: at least three characters, ending in `.d`. */
  predicate DepPath(path: string)
  {
    |path| >= 3 && path[|path| - 1] == 'd' && path[|path| - 2] == '.'
  }

  /** `main_init_depfile`: checks that it was given exactly one non-empty
      path ending in `.d`, then creates the file and writes the path without
      `.d` followed by `:` and a newline. `openOk` and `printed` are the
      outcomes of `fopen` and `fprintf`, `errText` what `strerror` gives for
      the failure. The path is cut at `.d` in place before the write, so a
      write failure names the stem. */
  function RunInitDepfile(args: seq<string>, openOk: bool, printed: bool, errText: string): (r: DepfileRun)
    requires |args| > 0
    ensures r.exit.status == 2 <==> |args| != 2 || !DepPath(args[1])
    ensures r.exit.status == 2 ==> r.file.None?
    ensures r.exit.status == 0 <==> |args| == 2 && DepPath(args[1]) && openOk && printed
    ensures r.exit.status == 0 ==> r.file == Some((args[1], args[1][..|args[1]| - 2] + ":\n"))
    ensures r.exit.status != 2 ==> (r.file.Some? <==> openOk)
    ensures r.exit.stdout == ""
  {
    if |args| == 1 then DepfileRun(Exit(2, "", "error: no output file given\n"), None)
    else if |args| > 2 then
      DepfileRun(Exit(2, "", "error: expected exactly 1 argument; got " + Decimal(|args| - 1) + "\n"), None)
    else
      var path := args[1];
      if path == "" then DepfileRun(Exit(2, "", "error: filepath cannot be empty\n"), None)
      else if |path| < 3 || path[|path| - 1] != 'd' || path[|path| - 2] != '.' then
        DepfileRun(Exit(2, "", "error: filepath must end with '.d': " + path + "\n"), None)
      else if !openOk then
        DepfileRun(Exit(1, "", "error: fopen(): " + errText + ": " + path + "\n"), None)
      else
        var stem := path[..|path| - 2];
        if !printed then
          DepfileRun(Exit(1, "", "error: fprintf(): " + errText + ": " + stem + "\n"), Some((path, "")))
        else DepfileRun(Exit(0, "", ""), Some((path, stem + ":\n")))
  }

  /** A depfile rule names the target the depfile belongs to: for any
      non-empty stem, `init-depfile stem.d` writes `stem:` and a newline to
      `stem.d`. */
  lemma DepfileRule(name: string, stem: string)
    requires stem != []
    ensures RunInitDepfile([name, stem + ".d"], true, true, "").file == Some((stem + ".d", stem + ":\n"))
  {
    var path := stem + ".d";
    assert path[..|path| - 2] == stem;
  }

  /** The index of the last `/` in `s`, or -1: what `strrchr` finds. */
  function LastSlash(s: string): (i: int)
    ensures -1 <= i < |s|
    ensures i >= 0 ==> s[i] == '/'
    ensures forall k :: i < k < |s| ==> s[k] != '/'
    decreases |s|
  {
    if s == [] then -1
    else if s[|s| - 1] == '/' then |s| - 1
    else LastSlash(s[..|s| - 1])
  }

  /** The name `cp` gives a copy in the output directory: everything after
      the last `/`, or the whole name when it has none. */
  function Basename(filename: string): (base: string)
    ensures '/' !in base
    ensures base == filename || (exists k :: 0 <= k < |filename| && filename[k] == '/' && filename[k + 1..] == base)
  {
    var i := LastSlash(filename);
    if i < 0 then filename else filename[i + 1..]
  }

  /** The base name is the name itself exactly when the name has no `/`, and
      otherwise the name is some directory, a `/`, and the base name. */
  lemma {:induction false} BasenameSplit(filename: string)
    ensures '/' !in filename ==> Basename(filename) == filename
    ensures '/' in filename ==> exists dir :: filename == dir + "/" + Basename(filename)
  {
    var i := LastSlash(filename);
    if '/' in filename {
      var j :| 0 <= j < |filename| && filename[j] == '/';
      assert i >= j;
      assert filename == filename[..i] + "/" + filename[i + 1..];
    }
  }

  /** Taking the base name twice changes nothing. */
  lemma BasenameIdempotent(filename: string)
    ensures Basename(Basename(filename)) == Basename(filename)
  {
    BasenameSplit(Basename(filename));
  }

  /** The copies `cp` makes: with two arguments, the first file to the
      second path; with more, every argument but the last into the directory
      the last one names, under its base name. */
  datatype CpPlan = ToFile(from: string, to: string) | IntoDir(dir: string, copies: seq<(string, string)>)

  const CpUsage: string := "error: usage: cp <inputs[...]> <output[_directory]>\n"

  /** The argument check and target naming of `main_cp` (`args[0]` is the
      syscall name); fewer than two arguments is a usage error with
      status 2. */
  function PlanCp(args: seq<string>): (r: Result<CpPlan, Exit>)
    requires |args| > 0
    ensures r.Failure? <==> |args| < 3
    ensures r.Failure? ==> r.error == Exit(2, "", CpUsage)
    ensures r.Success? && |args| == 3 ==> r.value == ToFile(args[1], args[2])
    ensures r.Success? && |args| > 3 ==>
      && r.value.IntoDir? && r.value.dir == args[|args| - 1]
      && |r.value.copies| == |args| - 2
      && (forall i :: 0 <= i < |r.value.copies| ==>
            r.value.copies[i].0 == args[i + 1] && r.value.copies[i].1 == Basename(args[i + 1]))
  {
    if |args| < 3 then Failure(Exit(2, "", CpUsage))
    else if |args| == 3 then Success(ToFile(args[1], args[2]))
    else
      Success(IntoDir(args[|args| - 1],
        seq(|args| - 2, i requires 0 <= i < |args| - 2 => (args[i + 1], Basename(args[i + 1])))))
  }
}
