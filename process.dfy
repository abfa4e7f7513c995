/** `execute_process`, the runtime's `execute` entry point: builds the
    argument vector (and, for an `env` table, the environment block), creates
    the child, writes its stdin, joins it, drains stdout and then stderr, and
    raises on a non-zero exit; every exit goes through one cleanup funnel.
    Each operating-system step is an outcome given in an `Os` record; the
    funnel's effects on resources are recorded in an event trace. */
module Process {
  import opened Wrappers
  import opened CStrings
  import opened EnvMarshal

  /** One pipe as `fread` sees it: the chunks it returns in order (an empty
      chunk is a zero-length read, which ends the loop; after the last chunk
      every read returns zero), and the stream's error indicator at the end. */
  datatype Stream = Stream(chunks: seq<string>, error: bool)

  /** The index of the first zero-length read at or after `from`. */
  function EofAt(chunks: seq<string>, from: nat): (i: nat)
    requires from <= |chunks|
    ensures from <= i <= |chunks|
    ensures i < |chunks| ==> chunks[i] == []
    ensures forall k :: from <= k < i ==> chunks[k] != []
    decreases |chunks| - from
  {
    if from == |chunks| || chunks[from] == [] then from else EofAt(chunks, from + 1)
  }

  lemma EofAtUnique(chunks: seq<string>, from: nat, i: nat)
    requires from <= i <= |chunks|
    requires i < |chunks| ==> chunks[i] == []
    requires forall k :: from <= k < i ==> chunks[k] != []
    ensures EofAt(chunks, from) == i
  {
  }

  /** Everything read from a stream until end of file. */
  function ReadAll(s: Stream): string
  {
    Concat(s.chunks[..EofAt(s.chunks, 0)])
  }

  /** When no read comes back empty before the end, the capture is every
      chunk, in order. */
  lemma ReadAllChunks(s: Stream)
    requires forall k :: 0 <= k < |s.chunks| ==> s.chunks[k] != []
    ensures ReadAll(s) == Concat(s.chunks)
  {
    assert s.chunks[..|s.chunks|] == s.chunks;
  }

  /** `read_stream_to_rs`: appends chunks to `rs` until a read returns zero,
      then reports the stream's error indicator. */
  method ReadStreamToRs(fd: Stream, rs: string) returns (buf: string, failed: bool)
    ensures buf == rs + ReadAll(fd)
    ensures failed == fd.error
  {
    buf := rs;
    var i := 0;
    while i < |fd.chunks| && |fd.chunks[i]| > 0
      invariant i <= |fd.chunks|
      invariant forall k :: 0 <= k < i ==> fd.chunks[k] != []
      invariant buf == rs + Concat(fd.chunks[..i])
    {
      assert fd.chunks[..i + 1] == fd.chunks[..i] + [fd.chunks[i]];
      ConcatAppend(fd.chunks[..i], fd.chunks[i]);
      buf := buf + fd.chunks[i];
      i := i + 1;
    }
    EofAtUnique(fd.chunks, 0, i);
    failed := fd.error;
  }

  const ReportHead: string := "subprocess exited non-zero:"
  const StdoutBanner: string := "\n\n--- STDOUT ------------\n"
  const StderrBanner: string := "\n--- STDERR ------------\n"

  /** The arguments, each as ` «arg»`, in order; an argument is read through
      its C-string pointer. */
  function Quoted(args: seq<string>): string
  {
    if args == [] then ""
    else Quoted(args[..|args| - 1]) + " «" + CStr(args[|args| - 1]) + "»"
  }

  /** The message raised on a non-zero exit. */
  function NonZeroReport(args: seq<string>, out: string, err: string): string
  {
    ReportHead + Quoted(args) + StdoutBanner + out + StderrBanner + err + "\n"
  }

  /** Builds the non-zero-exit message the way the runtime does, one
      `rs_cat` at a time, reading the arguments out of the argument vector. */
  method BuildReport(commandLine: array<Option<string>>, nargs: nat, ghost args: seq<string>, out: string, err: string)
    returns (msg: string)
    requires nargs == |args| < commandLine.Length
    requires forall i :: 0 <= i < |args| ==> commandLine[i] == Some(args[i])
    ensures msg == NonZeroReport(args, out, err)
  {
    msg := ReportHead;
    for i := 0 to nargs
      invariant msg == ReportHead + Quoted(args[..i])
    {
      assert args[..i + 1][..i] == args[..i];
      msg := msg + " «";
      msg := msg + CStr(commandLine[i].value);
      msg := msg + "»";
    }
    assert args[..|args|] == args;
    msg := msg + StdoutBanner;
    msg := msg + out;
    msg := msg + StderrBanner;
    msg := msg + err;
    msg := msg + "\n";
  }

  /** The report carries the captured streams verbatim, at positions fixed by
      the command line: stdout right after its banner, stderr between its
      banner and the final newline. */
  lemma ReportLayout(args: seq<string>, out: string, err: string)
    ensures var msg := NonZeroReport(args, out, err);
      var o := |ReportHead| + |Quoted(args)| + |StdoutBanner|;
      |msg| == o + |out| + |StderrBanner| + |err| + 1
      && msg[..o] == ReportHead + Quoted(args) + StdoutBanner
      && msg[o..o + |out|] == out
      && msg[o + |out|..o + |out| + |StderrBanner|] == StderrBanner
      && msg[o + |out| + |StderrBanner|..|msg| - 1] == err
      && msg[|msg| - 1] == '\n'
  {
    Pieces(ReportHead + Quoted(args) + StdoutBanner, out, StderrBanner, err, "\n");
  }

  /** Where each of five joined strings lies in the result. */
  lemma Pieces(a: string, b: string, c: string, d: string, e: string)
    ensures var x := a + b + c + d + e;
      |x| == |a| + |b| + |c| + |d| + |e|
      && x[..|a|] == a
      && x[|a|..|a| + |b|] == b
      && x[|a| + |b|..|a| + |b| + |c|] == c
      && x[|a| + |b| + |c|..|a| + |b| + |c| + |d|] == d
      && x[|a| + |b| + |c| + |d|..] == e
  {
  }

  /** Each argument adds its own length and three characters of quoting
      (` «` and `»`) to the report. */
  lemma {:induction false} QuotedLength(args: seq<string>)
    ensures |Quoted(args)| == 3 * |args| + Sum(args)
  {
    if args != [] {
      QuotedLength(args[..|args| - 1]);
    }
  }

  /** Total length of the arguments as C strings. */
  function Sum(args: seq<string>): nat
  {
    if args == [] then 0 else Sum(args[..|args| - 1]) + |CStr(args[|args| - 1])|
  }

  /** What `env` holds in the command table. */
  datatype EnvField = EnvNil | EnvTable(pairs: seq<Pair>) | EnvOther

  /** The command table: its array part is the argument list; `raise` (its
      truth value, when the field is not nil), `env` and `stdin` are fields of
      the same table. */
  datatype Command = Command(args: seq<string>, raise: Option<bool>, env: EnvField, stdin: Option<string>)

  /** The outcomes of the operating-system and allocator steps, in the order
      the runtime takes them. `errnoText` is what `strerror(errno)` gives at a
      failed stdin write or stream read. */
  datatype Os = Os(
    commandLineAlloc: bool,
    linkAlloc: bool,
    envAlloc: bool,
    create: bool,
    stdinHandle: bool,
    stdinWrite: bool,
    join: bool,
    exitCode: int,
    stdoutHandle: bool,
    stdout: Stream,
    stderrHandle: bool,
    stderr: Stream,
    destroy: bool,
    errnoText: string)

  /** What the call did to resources, in order. `Spawn` records the
      NULL-terminated argument vector and environment block handed to process
      creation (`None` for the inheriting variant) and whether creation
      succeeded. */
  datatype Event =
    | Spawn(argv: seq<Option<string>>, envBlock: Option<seq<Option<string>>>, ok: bool)
    | WriteStdin(data: string)
    | Destroy
    | FreeEnvArray
    | FreeScratchLinks(count: nat)
    | FreeCommandLine
    | FreeStdout
    | FreeStderr

  /** How the call ends: three results returned to the script, an error
      raised with a message, or the process aborted. */
  datatype Outcome = Returned(code: int, stdout: string, stderr: string) | Raised(message: string) | Aborted

  const EmptyCommandMessage: string := "argument list cannot be empty"
  const CommandLineAllocMessage: string := "failed to allocate memory (execute_process)"
  const EnvAllocMessage: string := "failed to allocate memory for subprocess environment"
  const EnvTypeMessage: string := "`env` option must either be nil or a table"
  const CreateMessage: string := "failed to create subprocess"
  const StdinHandleMessage: string := "`stdin` was provided but failed to get stdin file handle for subprocess"
  const StdinWriteMessage: string := "failed to write stdin to subprocess: "
  const JoinMessage: string := "failed to join subprocess"
  const StdoutHandleMessage: string := "failed to get stdout file handle for subprocess"
  const StdoutReadMessage: string := "failed to read subprocess stdout: "
  const StderrHandleMessage: string := "failed to get stderr file handle for subprocess"
  const StderrReadMessage: string := "failed to read subprocess stderr: "
  const DestroyMessage: string := "failed to destroy (cleanup) subprocess"

  /** A non-zero exit raises unless `raise` is present and false. */
  predicate ShouldThrow(cmd: Command)
  {
    cmd.raise.None? || cmd.raise.value
  }

  /** The environment handed to process creation for an `env` value that is
      nil or a table. */
  function EnvBlock(env: EnvField): Option<seq<Option<string>>>
    requires !env.EnvOther?
  {
    if env.EnvNil? then None else Some(NullTerminated(Marshal(env.pairs)))
  }

  /** The allocation of a scratch link fails, which aborts the process. */
  predicate Aborts(cmd: Command, os: Os)
  {
    |cmd.args| > 0 && os.commandLineAlloc && cmd.env.EnvTable? && |cmd.env.pairs| > 0 && !os.linkAlloc
  }

  /** The call gets past allocating the argument vector. */
  predicate HasCommandLine(cmd: Command, os: Os)
  {
    |cmd.args| > 0 && os.commandLineAlloc && !Aborts(cmd, os)
  }

  /** Process creation is attempted. */
  predicate Attempts(cmd: Command, os: Os)
  {
    HasCommandLine(cmd, os) && !cmd.env.EnvOther? && (cmd.env.EnvTable? ==> os.envAlloc)
  }

  /** A child process exists and must be destroyed. */
  predicate Creates(cmd: Command, os: Os)
  {
    Attempts(cmd, os) && os.create
  }

  /** The first step after creation that fails, by its message: writing
      stdin, joining, draining stdout and stderr, and the non-zero-exit check. */
  function ChildFailure(cmd: Command, os: Os): Option<string>
  {
    if cmd.stdin.Some? && !os.stdinHandle then Some(StdinHandleMessage)
    else if cmd.stdin.Some? && !os.stdinWrite then Some(StdinWriteMessage + os.errnoText)
    else if !os.join then Some(JoinMessage)
    else if !os.stdoutHandle then Some(StdoutHandleMessage)
    else if os.stdout.error then Some(StdoutReadMessage + os.errnoText)
    else if !os.stderrHandle then Some(StderrHandleMessage)
    else if os.stderr.error then Some(StderrReadMessage + os.errnoText)
    else if os.exitCode != 0 && ShouldThrow(cmd) then Some(NonZeroReport(cmd.args, ReadAll(os.stdout), ReadAll(os.stderr)))
    else None
  }

  /** The first step up to process creation that fails, by its message. */
  function SetupFailure(cmd: Command, os: Os): Option<string>
  {
    if |cmd.args| == 0 then Some(EmptyCommandMessage)
    else if !os.commandLineAlloc then Some(CommandLineAllocMessage)
    else if cmd.env.EnvOther? then Some(EnvTypeMessage)
    else if cmd.env.EnvTable? && !os.envAlloc then Some(EnvAllocMessage)
    else if !os.create then Some(CreateMessage)
    else None
  }

  /** The first step of the whole call that fails, by its message, in the
      order the runtime takes the steps; `None` when every step succeeds. */
  function Failure(cmd: Command, os: Os): Option<string>
  {
    if SetupFailure(cmd, os).Some? then SetupFailure(cmd, os)
    else if ChildFailure(cmd, os).Some? then ChildFailure(cmd, os)
    else if !os.destroy then Some(DestroyMessage)
    else None
  }

  /** How many process creations the trace records, and how many succeeded. */
  function Spawns(trace: seq<Event>): nat
  {
    if trace == [] then 0 else Spawns(trace[..|trace| - 1]) + (if trace[|trace| - 1].Spawn? then 1 else 0)
  }

  function OkSpawns(trace: seq<Event>): nat
  {
    if trace == [] then 0
    else OkSpawns(trace[..|trace| - 1]) + (if trace[|trace| - 1].Spawn? && trace[|trace| - 1].ok then 1 else 0)
  }

  lemma {:induction false} SpawnsAppend(trace: seq<Event>, more: seq<Event>)
    ensures Spawns(trace + more) == Spawns(trace) + Spawns(more)
    ensures OkSpawns(trace + more) == OkSpawns(trace) + OkSpawns(more)
    decreases |more|
  {
    if more == [] {
      assert trace + more == trace;
    } else {
      var all := trace + more;
      assert all[..|all| - 1] == trace + more[..|more| - 1];
      assert all[|all| - 1] == more[|more| - 1];
      SpawnsAppend(trace, more[..|more| - 1]);
    }
  }

  /** The events up to the check of process creation, once the argument
      vector exists: a creation with the inherited environment for nil; for a
      table, a creation with the marshalled block if the array could be
      allocated, then the array and the scratch links freed; nothing for an
      `env` of any other type. */
  function SetupTrace(cmd: Command, os: Os): seq<Event>
  {
    match cmd.env
    case EnvNil => [Spawn(NullTerminated(cmd.args), None, os.create)]
    case EnvTable(pairs) =>
      (if os.envAlloc then [Spawn(NullTerminated(cmd.args), Some(NullTerminated(Marshal(pairs))), os.create)] else [])
        + [FreeEnvArray, FreeScratchLinks(|pairs|)]
    case EnvOther => []
  }

  /** The events between creation and `err_destroy`: the stdin write, if a
      handle was obtained for it. */
  function ChildTrace(cmd: Command, os: Os): seq<Event>
  {
    if cmd.stdin.Some? && os.stdinHandle then [WriteStdin(cmd.stdin.value)] else []
  }

  /** Everything the call does to resources, in order. */
  function Trace(cmd: Command, os: Os): seq<Event>
  {
    if !HasCommandLine(cmd, os) then []
    else
      SetupTrace(cmd, os)
        + (if Creates(cmd, os) then ChildTrace(cmd, os) + [Destroy] else [])
        + FinalFrees
  }

  /** The `err_free` block: the argument vector, then both capture buffers. */
  const FinalFrees: seq<Event> := [FreeCommandLine, FreeStdout, FreeStderr]

  /** How the call ends. */
  function Result(cmd: Command, os: Os): Outcome
  {
    if Aborts(cmd, os) then Aborted
    else if Failure(cmd, os).Some? then Raised(Failure(cmd, os).value)
    else Returned(os.exitCode, ReadAll(os.stdout), ReadAll(os.stderr))
  }

  /** The `env` part of the call up to the check of process creation:
      inherits the environment for nil, marshals a table (freeing the array
      and the scratch links on the way out), rejects anything else. */
  method SpawnChild(cmd: Command, os: Os, commandLine: array<Option<string>>)
    returns (created: bool, aborted: bool, message: string, trace: seq<Event>)
    requires |cmd.args| > 0 && os.commandLineAlloc
    requires commandLine[..] == NullTerminated(cmd.args)
    ensures aborted <==> Aborts(cmd, os)
    ensures aborted ==> trace == []
    ensures !aborted ==> trace == SetupTrace(cmd, os)
    ensures !aborted ==> (created <==> Creates(cmd, os))
    ensures !aborted ==> (created <==> SetupFailure(cmd, os).None?)
    ensures !aborted && !created ==> SetupFailure(cmd, os) == Some(message)
  {
    trace := [];
    created := false;
    aborted := false;
    message := "";
    match cmd.env {
      case EnvNil =>
        created := os.create;
        trace := [Spawn(commandLine[..], None, created)];
      case EnvTable(pairs) =>
        if |pairs| > 0 && !os.linkAlloc {
          aborted := true;
          return;
        }
        var head, count := BuildLinks(pairs);
        var envSuccess := false;
        label envErrFree: {
          if !os.envAlloc {
            message := EnvAllocMessage;
            break envErrFree;
          }
          var newEnv := Flatten(head, count);
          created := os.create;
          trace := [Spawn(commandLine[..], Some(newEnv[..]), created)];
          envSuccess := true;
        }
        var freed := FreeLinks(head);
        trace := trace + [FreeEnvArray, FreeScratchLinks(freed)];
        if !envSuccess {
          return;
        }
      case EnvOther =>
        message := EnvTypeMessage;
        return;
    }
    if !created {
      message := CreateMessage;
    }
  }

  /** The stretch of the call between creation and the `err_destroy` label:
      writes stdin, joins, drains stdout and then stderr, and builds the
      report on a non-zero exit. */
  method RunChild(cmd: Command, os: Os, commandLine: array<Option<string>>)
    returns (success: bool, message: string, statusCode: int, sout: string, serr: string, trace: seq<Event>)
    requires commandLine[..] == NullTerminated(cmd.args)
    ensures success <==> ChildFailure(cmd, os).None?
    ensures !success ==> message == ChildFailure(cmd, os).value
    ensures success ==> statusCode == os.exitCode && sout == ReadAll(os.stdout) && serr == ReadAll(os.stderr)
    ensures trace == ChildTrace(cmd, os)
  {
    trace := [];
    success := false;
    message := "";
    statusCode := -1;
    sout := "";
    serr := "";
    var failed: bool;
    if cmd.stdin.Some? {
      if !os.stdinHandle {
        message := StdinHandleMessage;
        return;
      }
      trace := [WriteStdin(cmd.stdin.value)];
      if !os.stdinWrite {
        message := StdinWriteMessage + os.errnoText;
        return;
      }
    }
    if !os.join {
      message := JoinMessage;
      return;
    }
    statusCode := os.exitCode;
    if !os.stdoutHandle {
      message := StdoutHandleMessage;
      return;
    }
    sout, failed := ReadStreamToRs(os.stdout, sout);
    if failed {
      message := StdoutReadMessage + os.errnoText;
      return;
    }
    if !os.stderrHandle {
      message := StderrHandleMessage;
      return;
    }
    serr, failed := ReadStreamToRs(os.stderr, serr);
    if failed {
      message := StderrReadMessage + os.errnoText;
      return;
    }
    if statusCode != 0 && ShouldThrow(cmd) {
      forall i | 0 <= i < |cmd.args|
        ensures commandLine[i] == Some(cmd.args[i])
      {
        assert commandLine[i] == commandLine[..][i];
      }
      message := BuildReport(commandLine, |cmd.args|, cmd.args, sout, serr);
      return;
    }
    success := true;
  }

  /** `execute_process`, with the `goto` funnel written as nested labelled
      blocks: `err_destroy` destroys the child, `err_free` frees the argument
      vector and both capture buffers, `err` raises if the call did not
      succeed. */
  method Execute(cmd: Command, os: Os) returns (outcome: Outcome, trace: seq<Event>)
    ensures outcome == Result(cmd, os)
    ensures trace == Trace(cmd, os)
  {
    trace := [];
    var nargs := |cmd.args|;
    if nargs == 0 {
      outcome := Raised(EmptyCommandMessage);
      return;
    }
    var success := false;
    var message := "";
    var statusCode := -1;
    var sout := "";
    var serr := "";

    label err: {
      if !os.commandLineAlloc {
        message := CommandLineAllocMessage;
        break err;
      }
      var commandLine := new Option<string>[nargs + 1];
      commandLine[nargs] := None;
      for i := 0 to nargs
        invariant commandLine[nargs] == None
        invariant forall k :: 0 <= k < i ==> commandLine[k] == Some(cmd.args[k])
      {
        commandLine[i] := Some(cmd.args[i]);
      }
      assert commandLine[..] == NullTerminated(cmd.args);

      label errFree: {
        var created, aborted;
        created, aborted, message, trace := SpawnChild(cmd, os, commandLine);
        if aborted {
          outcome := Aborted;
          return;
        }
        if !created {
          break errFree;
        }

        var more: seq<Event>;
        success, message, statusCode, sout, serr, more := RunChild(cmd, os, commandLine);
        trace := trace + more + [Destroy];

        // err_destroy
        if !os.destroy && success {
          success := false;
          message := DestroyMessage;
        }
      }
      // err_free
      trace := trace + FinalFrees;
    }
    // err
    if !success {
      outcome := Raised(message);
    } else {
      outcome := Returned(statusCode, sout, serr);
    }
  }

  /** A trace without creation events counts none. */
  lemma {:induction false} NoSpawns(t: seq<Event>)
    requires forall k :: 0 <= k < |t| ==> !t[k].Spawn?
    ensures Spawns(t) == 0 && OkSpawns(t) == 0
    decreases |t|
  {
    if t != [] {
      NoSpawns(t[..|t| - 1]);
    }
  }

  /** The setup events hold the one creation attempt, if any, and free the
      environment array and links of a table. */
  lemma SetupEvents(cmd: Command, os: Os)
    ensures Spawns(SetupTrace(cmd, os)) == (if !cmd.env.EnvOther? && (cmd.env.EnvTable? ==> os.envAlloc) then 1 else 0)
    ensures OkSpawns(SetupTrace(cmd, os)) == (if !cmd.env.EnvOther? && (cmd.env.EnvTable? ==> os.envAlloc) && os.create then 1 else 0)
    ensures forall e :: e in SetupTrace(cmd, os) && e.Spawn? ==>
      !cmd.env.EnvOther? && e.argv == NullTerminated(cmd.args) && e.envBlock == EnvBlock(cmd.env) && e.ok == os.create
    ensures forall e :: e in SetupTrace(cmd, os) ==> e.Spawn? || e == FreeEnvArray || e.FreeScratchLinks?
    ensures multiset(SetupTrace(cmd, os))[FreeEnvArray] == (if cmd.env.EnvTable? then 1 else 0)
    ensures cmd.env.EnvTable? ==> FreeScratchLinks(|cmd.env.pairs|) in SetupTrace(cmd, os)
  {
    if cmd.env.EnvTable? {
      var pairs := cmd.env.pairs;
      var spawn: seq<Event> := if os.envAlloc then [Spawn(NullTerminated(cmd.args), Some(NullTerminated(Marshal(pairs))), os.create)] else [];
      var frees: seq<Event> := [FreeEnvArray, FreeScratchLinks(|pairs|)];
      assert SetupTrace(cmd, os) == spawn + frees;
      SpawnsAppend(spawn, frees);
      NoSpawns(frees);
    }
  }

  /** Creation is attempted at most once, and only once the argument vector,
      a valid `env` and (for a table) the environment array exist; it
      succeeds exactly when the child is created. */
  lemma TraceSpawns(cmd: Command, os: Os)
    ensures Spawns(Trace(cmd, os)) == (if Attempts(cmd, os) then 1 else 0)
    ensures OkSpawns(Trace(cmd, os)) == (if Creates(cmd, os) then 1 else 0)
  {
    if HasCommandLine(cmd, os) {
      var setup := SetupTrace(cmd, os);
      var rest := (if Creates(cmd, os) then ChildTrace(cmd, os) + [Destroy] else []) + FinalFrees;
      assert Trace(cmd, os) == setup + rest;
      SetupEvents(cmd, os);
      NoSpawns(rest);
      SpawnsAppend(setup, rest);
    }
  }

  /** The creation is given the argument vector and the marshalled
      environment, and never happens for an `env` of another type. */
  lemma TraceSpawnArgs(cmd: Command, os: Os)
    ensures forall e :: e in Trace(cmd, os) && e.Spawn? ==>
      !cmd.env.EnvOther? && e.argv == NullTerminated(cmd.args) && e.envBlock == EnvBlock(cmd.env) && e.ok == os.create
  {
    if HasCommandLine(cmd, os) {
      var setup := SetupTrace(cmd, os);
      var rest := (if Creates(cmd, os) then ChildTrace(cmd, os) + [Destroy] else []) + FinalFrees;
      assert Trace(cmd, os) == setup + rest;
      assert forall e :: e in rest ==> !e.Spawn?;
      SetupEvents(cmd, os);
    }
  }

  /** The trace of a call that created a child: the setup events, the
      child's events, the destroy, then the three final frees. */
  lemma CreatedTrace(cmd: Command, os: Os)
    requires Creates(cmd, os)
    ensures Trace(cmd, os) == SetupTrace(cmd, os) + ChildTrace(cmd, os) + [Destroy] + FinalFrees
  {
  }

  /** The trace of a call that got its argument vector but no child. */
  lemma ChildlessTrace(cmd: Command, os: Os)
    requires HasCommandLine(cmd, os) && !Creates(cmd, os)
    ensures Trace(cmd, os) == SetupTrace(cmd, os) + FinalFrees
  {
  }

  /** Neither the setup nor the child's events destroy or free the argument
      vector or the buffers. */
  lemma NoFunnelEvents(cmd: Command, os: Os)
    ensures forall e :: e in SetupTrace(cmd, os) + ChildTrace(cmd, os) ==>
      e != Destroy && e != FreeCommandLine && e != FreeStdout && e != FreeStderr
  {
  }

  /** An event absent from `before` and `after` occurs once around them. */
  lemma OnceBetween(before: seq<Event>, e: Event, after: seq<Event>)
    requires e !in before && e !in after
    ensures multiset(before + [e] + after)[e] == 1
    ensures |before + [e] + after| == |before| + 1 + |after|
    ensures (before + [e] + after)[|before|] == e
    ensures forall k :: 0 <= k < |before| ==> (before + [e] + after)[k] != e
  {
    assert multiset(before + [e] + after) == multiset(before) + multiset{e} + multiset(after);
  }

  /** A created child is destroyed exactly once, after everything else the
      call does with it and just before the final frees; a child that was
      never created is never destroyed. */
  lemma TraceDestroy(cmd: Command, os: Os)
    ensures multiset(Trace(cmd, os))[Destroy] == (if Creates(cmd, os) then 1 else 0)
    ensures Creates(cmd, os) ==> |Trace(cmd, os)| >= 4 && Trace(cmd, os)[|Trace(cmd, os)| - 4] == Destroy
    ensures Creates(cmd, os) ==> forall k :: 0 <= k < |Trace(cmd, os)| - 4 ==> Trace(cmd, os)[k] != Destroy
  {
    NoFunnelEvents(cmd, os);
    var before := SetupTrace(cmd, os) + ChildTrace(cmd, os);
    if Creates(cmd, os) {
      CreatedTrace(cmd, os);
      OnceBetween(before, Destroy, FinalFrees);
    } else if HasCommandLine(cmd, os) {
      ChildlessTrace(cmd, os);
      assert SetupTrace(cmd, os) <= before;
      assert Destroy !in SetupTrace(cmd, os) + FinalFrees;
    }
  }

  /** Past the allocation of the argument vector, the last three things the
      call does are to free it and both capture buffers. */
  lemma TraceEndsWithFrees(cmd: Command, os: Os)
    requires HasCommandLine(cmd, os)
    ensures |Trace(cmd, os)| >= 3 && Trace(cmd, os)[|Trace(cmd, os)| - 3..] == FinalFrees
  {
    var before := FunnelPrefix(cmd, os);
    assert Trace(cmd, os)[|Trace(cmd, os)| - 3..] == (before + FinalFrees)[|before|..];
  }

  /** The argument vector and both capture buffers are freed exactly once
      past its allocation, and never without it. */
  lemma TraceFrees(cmd: Command, os: Os)
    ensures multiset(Trace(cmd, os))[FreeCommandLine] == (if HasCommandLine(cmd, os) then 1 else 0)
    ensures multiset(Trace(cmd, os))[FreeStdout] == (if HasCommandLine(cmd, os) then 1 else 0)
    ensures multiset(Trace(cmd, os))[FreeStderr] == (if HasCommandLine(cmd, os) then 1 else 0)
  {
    if HasCommandLine(cmd, os) {
      var before := FunnelPrefix(cmd, os);
      FinalFreesOnce(before);
    }
  }

  /** The environment array and every scratch link of a table are freed
      once, whether or not the array could be allocated. */
  lemma TraceEnvFrees(cmd: Command, os: Os)
    ensures multiset(Trace(cmd, os))[FreeEnvArray] == (if HasCommandLine(cmd, os) && cmd.env.EnvTable? then 1 else 0)
    ensures HasCommandLine(cmd, os) && cmd.env.EnvTable? ==> FreeScratchLinks(|cmd.env.pairs|) in Trace(cmd, os)
  {
    if HasCommandLine(cmd, os) {
      var before := FunnelPrefix(cmd, os);
      SetupEvents(cmd, os);
      assert multiset(before)[FreeEnvArray] == multiset(SetupTrace(cmd, os))[FreeEnvArray] by {
        assert multiset(before) == multiset(SetupTrace(cmd, os)) + multiset(if Creates(cmd, os) then ChildTrace(cmd, os) + [Destroy] else []);
      }
      assert multiset(before + FinalFrees) == multiset(before) + multiset(FinalFrees);
      if cmd.env.EnvTable? {
        assert FreeScratchLinks(|cmd.env.pairs|) in before;
      }
    }
  }

  /** Everything before `err_free`, for a call that has its argument
      vector. */
  lemma FunnelPrefix(cmd: Command, os: Os) returns (before: seq<Event>)
    requires HasCommandLine(cmd, os)
    ensures before == SetupTrace(cmd, os) + (if Creates(cmd, os) then ChildTrace(cmd, os) + [Destroy] else [])
    ensures Trace(cmd, os) == before + FinalFrees
    ensures FreeCommandLine !in before && FreeStdout !in before && FreeStderr !in before
  {
    before := SetupTrace(cmd, os) + (if Creates(cmd, os) then ChildTrace(cmd, os) + [Destroy] else []);
    NoFunnelEvents(cmd, os);
    if Creates(cmd, os) {
      CreatedTrace(cmd, os);
    } else {
      ChildlessTrace(cmd, os);
    }
  }

  /** The final frees after any prefix free nothing twice. */
  lemma FinalFreesOnce(before: seq<Event>)
    requires FreeCommandLine !in before && FreeStdout !in before && FreeStderr !in before
    ensures multiset(before + FinalFrees)[FreeCommandLine] == 1
    ensures multiset(before + FinalFrees)[FreeStdout] == 1
    ensures multiset(before + FinalFrees)[FreeStderr] == 1
  {
    assert multiset(before + FinalFrees) == multiset(before) + multiset(FinalFrees);
  }

  /** An empty command is rejected before anything is allocated or created. */
  lemma EmptyCommand(cmd: Command, os: Os)
    requires |cmd.args| == 0
    ensures Result(cmd, os) == Raised(EmptyCommandMessage) && Trace(cmd, os) == []
  {
  }

  /** A destroy failure only ever turns a success into an error: whatever a
      run with a working destroy raises, a run whose destroy fails raises
      too, with the same message. */
  lemma DestroyNeverMasks(cmd: Command, os: Os)
    ensures Failure(cmd, os.(destroy := true)).Some? ==>
      Failure(cmd, os.(destroy := false)) == Failure(cmd, os.(destroy := true))
    ensures Failure(cmd, os.(destroy := true)).None? ==>
      Failure(cmd, os.(destroy := false)) == Some(DestroyMessage)
  {
  }

  /** With `raise` false, a child that ran to completion is reported with its
      exit code whatever that code is; with `raise` absent or true, a non-zero
      exit always raises the report. */
  lemma RaiseOption(cmd: Command, os: Os)
    requires !Aborts(cmd, os) && Creates(cmd, os)
    requires cmd.stdin.Some? ==> os.stdinHandle && os.stdinWrite
    requires os.join && os.stdoutHandle && !os.stdout.error && os.stderrHandle && !os.stderr.error
    ensures cmd.raise == Some(false) && os.destroy ==> Failure(cmd, os).None?
    ensures ShouldThrow(cmd) && os.exitCode != 0 ==>
      Failure(cmd, os) == Some(NonZeroReport(cmd.args, ReadAll(os.stdout), ReadAll(os.stderr)))
  {
  }
}
