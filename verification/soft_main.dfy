/**
 The soft IOC entry point: turn the program name and argument vector into the
 sequence of host actions main performs and the way the process ends.
 Database loading, record loading and script running are host oracles.
 */
module SoftMain {

  datatype Option<T> = None | Some(value: T)

  /** EXIT_SUCCESS and EXIT_FAILURE. */
  datatype ExitStatus = Success | Failure

  /** How main ends: the process exits with a status (exit() or a return from
      main), or the main thread exits and the IOC keeps running. */
  datatype End = Exit(status: ExitStatus) | MainThreadExit

  /** The complaints main prints before the usage text. */
  datatype Complaint = NotRecognized(option: string) | MissingArgument(option: string) | NothingToDo

  /** One thing main asks of the host, in order. */
  datatype Action =
    | Message(prog: string, complaint: Complaint)      // printf of a complaint
    | Usage(prog: string, defaultDbd: string)          // the usage text
    | LoadDatabase(path: string)                       // dbLoadDatabase
    | RegisterSupport                                  // registerRecordDeviceDriver, registryFunctionAdd("exit")
    | SetSubstitutions(substitutions: string)          // asSetSubstitutions
    | SetFilename(path: string)                        // asSetFilename
    | LoadRecords(path: string, macros: Option<string>) // dbLoadRecords
    | IocInit                                          // iocInit
    | Pause                                            // epicsThreadSleep(0.2)
    | RunScript(path: string)                          // iocsh(script)
    | StartShell                                       // iocsh(NULL)

  datatype Run = Run(trace: seq<Action>, end: End)

  /** The host: the EPICS_BASE the program was built against, and whether each
      call that reports a status fails (returns non-zero). */
  datatype Host = Host(
    epicsBase: string,
    databaseFails: string -> bool,
    recordsFail: (string, Option<string>) -> bool,
    scriptFails: string -> bool)

  /** The compiled-in path of softIoc.dbd. */
  function DefaultDbd(host: Host): string
  {
    host.epicsBase + "/dbd/softIoc.dbd"
  }

  /** The index of the last '/' in `s`, or -1 when there is none. */
  function LastSlash(s: string): (k: int)
    ensures -1 <= k < |s|
    ensures k >= 0 ==> s[k] == '/'
    ensures forall j :: k < j < |s| ==> s[j] != '/'
  {
    if |s| == 0 then -1
    else if s[|s| - 1] == '/' then |s| - 1
    else LastSlash(s[..|s| - 1])
  }

  /** arg0: what follows the last '/' of the program path, or all of it. */
  function Basename(path: string): (b: string)
    ensures '/' !in b
    ensures |b| <= |path| && b == path[|path| - |b|..]
    ensures |b| < |path| ==> path[|path| - |b| - 1] == '/'
    ensures '/' !in path ==> b == path
  {
    var k := LastSlash(path);
    var b := path[k + 1..];
    assert forall i :: 0 <= i < |b| ==> b[i] == path[k + 1 + i] != '/';
    assert |path| - |b| == k + 1;
    assert '/' !in path ==> k == -1;
    b
  }

  /** Character `i` of a C string: NUL past its end. */
  function CharAt(w: string, i: nat): char
  {
    if i < |w| then w[i] else '\0'
  }

  /** An argument that starts with '-'. */
  predicate IsOption(w: string)
  {
    CharAt(w, 0) == '-'
  }

  /** The only character option dispatch looks at: the second one. */
  function Letter(w: string): char
  {
    CharAt(w, 1)
  }

  /** The first argument asks for help: usage is printed before anything is loaded. */
  predicate HelpFirst(args: seq<string>)
  {
    |args| > 0 && IsOption(args[0]) && Letter(args[0]) == 'h'
  }

  /** -D is honoured only as the first argument and only with an argument after it. */
  predicate DbdGiven(args: seq<string>)
  {
    |args| > 1 && IsOption(args[0]) && Letter(args[0]) == 'D'
  }

  function DbdFile(args: seq<string>, host: Host): string
  {
    if DbdGiven(args) then args[1] else DefaultDbd(host)
  }

  /** The arguments left for option processing once -D and its path are consumed. */
  function OptionArgs(args: seq<string>): seq<string>
  {
    if DbdGiven(args) then args[2..] else args
  }

  /** Printing usage ends the process with the given status. */
  function UsageRun(prog: string, trace: seq<Action>, status: ExitStatus, host: Host): Run
  {
    Run(trace + [Usage(prog, DefaultDbd(host))], Exit(status))
  }

  /** The state of main while it walks the options. */
  datatype Loop = Loop(macros: Option<string>, shell: bool, loadedDb: bool, trace: seq<Action>)

  /** The option loop either ends the process or leaves the unconsumed arguments. */
  datatype LoopEnd = Stopped(run: Run) | Finished(st: Loop, rest: seq<string>)

  /** One pass of the option loop: either the process ends, or the state
      moves on past the option and the argument it consumed. */
  datatype Step = Halt(run: Run) | Next(st: Loop, consumed: nat)

  /** The switch on the second character of an option with at least one
      argument after it. */
  function Dispatch(prog: string, args: seq<string>, st: Loop, host: Host): (s: Step)
    requires |args| > 1 && IsOption(args[0])
    ensures s.Next? ==> 1 <= s.consumed <= 2 && st.trace <= s.st.trace
    ensures s.Next? ==> (st.loadedDb ==> s.st.loadedDb) && (st.shell ==> s.st.shell)
    ensures s.Halt? ==> st.trace <= s.run.trace
  {
    var w, v := args[0], args[1];
    if Letter(w) == 'a' then
      var subst := if st.macros.Some? then [SetSubstitutions(st.macros.value)] else [];
      Next(st.(trace := st.trace + subst + [SetFilename(v)]), 2)
    else if Letter(w) == 'd' then
      var t := st.trace + [LoadRecords(v, st.macros)];
      if host.recordsFail(v, st.macros) then Halt(Run(t, Exit(Failure)))
      else Next(st.(loadedDb := true, trace := t), 2)
    else if Letter(w) == 'h' then
      Halt(UsageRun(prog, st.trace, Success, host))
    else if Letter(w) == 'm' then
      Next(st.(macros := Some(v)), 2)
    else if Letter(w) == 's' then
      Next(st.(shell := true), 1)
    else
      Halt(UsageRun(prog, st.trace + [Message(prog, NotRecognized(w))], Failure, host))
  }

  /** The while loop of main: while at least two arguments remain and the first
      is an option, dispatch on it. */
  function OptionLoop(prog: string, args: seq<string>, st: Loop, host: Host): (e: LoopEnd)
    ensures e.Finished? ==> |e.rest| <= |args| && e.rest == args[|args| - |e.rest|..]
    ensures e.Finished? ==> |e.rest| <= 1 || !IsOption(e.rest[0])
    ensures e.Finished? ==> st.trace <= e.st.trace
    ensures e.Finished? ==> (st.loadedDb ==> e.st.loadedDb) && (st.shell ==> e.st.shell)
    ensures e.Stopped? ==> st.trace <= e.run.trace
    decreases |args|
  {
    if |args| > 1 && IsOption(args[0]) then
      match Dispatch(prog, args, st, host)
      case Halt(run) => Stopped(run)
      case Next(st', n) =>
        var e := OptionLoop(prog, args[n..], st', host);
        if e.Finished? then
          SuffixOfSuffix(args, n, |e.rest|);
          PrefixTrans(st.trace, st'.trace, e.st.trace);
          e
        else
          PrefixTrans(st.trace, st'.trace, e.run.trace);
          e
    else
      Finished(st, args)
  }

  lemma SuffixOfSuffix(args: seq<string>, n: nat, k: nat)
    requires n <= |args| && k <= |args| - n
    ensures args[n..][|args[n..]| - k..] == args[|args| - k..]
  {
  }

  lemma PrefixTrans(a: seq<Action>, b: seq<Action>, c: seq<Action>)
    requires a <= b && b <= c
    ensures a <= c
  {
  }

  /** The startup script fails. */
  predicate ScriptFails(rest: seq<string>, host: Host)
  {
    |rest| > 0 && host.scriptFails(rest[0])
  }

  /** After the options: iocInit (and a pause) if a database was loaded, then
      the startup script if one is left (and a pause if it succeeded). */
  function Startup(rest: seq<string>, st: Loop, host: Host): (added: seq<Action>)
    ensures IocInit in added <==> st.loadedDb
    ensures |rest| > 0 ==> RunScript(rest[0]) in added
    ensures |rest| == 0 ==> forall p :: RunScript(p) !in added
    ensures st.loadedDb ==> added[0] == IocInit
    ensures ScriptFails(rest, host) ==> |added| > 0 && added[|added| - 1] == RunScript(rest[0])
    ensures StartShell !in added && forall p :: Message(p, NothingToDo) !in added
  {
    var init := if st.loadedDb then [IocInit, Pause] else [];
    var script :=
      if |rest| == 0 then []
      else if ScriptFails(rest, host) then [RunScript(rest[0])]
      else [RunScript(rest[0]), Pause];
    init + script
  }

  /** Start-up adds nothing but iocInit, pauses and the script; iocInit runs
      once exactly when a database was loaded, and the script exactly once
      when one is left, each followed by a pause when it succeeded. */
  lemma StartupRunsEachOnce(rest: seq<string>, st: Loop, host: Host)
    ensures var added := Startup(rest, st, host);
      && (forall a :: a in added ==> a == IocInit || a == Pause || (|rest| > 0 && a == RunScript(rest[0])))
      && multiset(added)[IocInit] == (if st.loadedDb then 1 else 0)
      && (|rest| > 0 ==> multiset(added)[RunScript(rest[0])] == 1)
      && multiset(added)[Pause] == (if st.loadedDb then 1 else 0) + (if |rest| > 0 && !ScriptFails(rest, host) then 1 else 0)
  {
    StartupOnlyItsActions(rest, st, host);
    StartupCountsInitAndScript(rest, st, host);
    StartupCountsPauses(rest, st, host);
  }

  lemma StartupOnlyItsActions(rest: seq<string>, st: Loop, host: Host)
    ensures forall a :: a in Startup(rest, st, host) ==> a == IocInit || a == Pause || (|rest| > 0 && a == RunScript(rest[0]))
  {
    var added := Startup(rest, st, host);
    if |rest| == 0 {
      assert added == if st.loadedDb then [IocInit, Pause] else [];
    } else if ScriptFails(rest, host) {
      assert added == (if st.loadedDb then [IocInit, Pause] else []) + [RunScript(rest[0])];
    } else if st.loadedDb {
      assert added == [IocInit, Pause, RunScript(rest[0]), Pause];
    } else {
      assert added == [RunScript(rest[0]), Pause];
    }
  }

  lemma StartupCountsInitAndScript(rest: seq<string>, st: Loop, host: Host)
    ensures multiset(Startup(rest, st, host))[IocInit] == (if st.loadedDb then 1 else 0)
    ensures |rest| > 0 ==> multiset(Startup(rest, st, host))[RunScript(rest[0])] == 1
  {
    var added := Startup(rest, st, host);
    if |rest| == 0 {
      assert added == if st.loadedDb then [IocInit, Pause] else [];
    } else if ScriptFails(rest, host) {
      assert added == (if st.loadedDb then [IocInit, Pause] else []) + [RunScript(rest[0])];
    } else if st.loadedDb {
      assert added == [IocInit, Pause, RunScript(rest[0]), Pause];
    } else {
      assert added == [RunScript(rest[0]), Pause];
    }
  }

  lemma StartupCountsPauses(rest: seq<string>, st: Loop, host: Host)
    ensures multiset(Startup(rest, st, host))[Pause]
         == (if st.loadedDb then 1 else 0) + (if |rest| > 0 && !ScriptFails(rest, host) then 1 else 0)
  {
    var added := Startup(rest, st, host);
    if |rest| == 0 {
      assert added == if st.loadedDb then [IocInit, Pause] else [];
    } else if ScriptFails(rest, host) {
      assert added == (if st.loadedDb then [IocInit, Pause] else []) + [RunScript(rest[0])];
    } else if st.loadedDb {
      assert added == [IocInit, Pause, RunScript(rest[0]), Pause];
    } else {
      assert added == [RunScript(rest[0]), Pause];
    }
  }

  /** What follows start-up: the shell if one was requested, else the end of
      the main thread if anything was loaded or run, else "Nothing to do"
      and the usage text. A failing script ends the process at once. */
  function Ending(prog: string, rest: seq<string>, st: Loop, host: Host): (run: Run)
    ensures ScriptFails(rest, host) ==> run == Run([], Exit(Failure))
    ensures !ScriptFails(rest, host) ==>
      && (st.shell <==> run.end == Exit(Success))
      && (run.end == MainThreadExit <==> !st.shell && (st.loadedDb || |rest| > 0))
      && (run.end == Exit(Failure) <==> !st.shell && !st.loadedDb && |rest| == 0)
    // the shell is started exactly when requested, and as the last action
    ensures StartShell in run.trace <==> st.shell && !ScriptFails(rest, host)
    ensures StartShell in run.trace ==> run.trace[|run.trace| - 1] == StartShell
    // nothing but the shell, or "Nothing to do" with the usage text, is added
    ensures forall a :: a in run.trace ==> a in {StartShell, Message(prog, NothingToDo), Usage(prog, DefaultDbd(host))}
    ensures !ScriptFails(rest, host) && run.end == Exit(Failure) ==>
      run.trace == [Message(prog, NothingToDo), Usage(prog, DefaultDbd(host))]
    // so each way of ending adds exactly one thing, or nothing
    ensures run.end == Exit(Success) ==> run.trace == [StartShell]
    ensures run.end == MainThreadExit ==> run.trace == []
  {
    if ScriptFails(rest, host) then Run([], Exit(Failure))
    else if st.shell then Run([StartShell], Exit(Success))
    else if st.loadedDb || |rest| > 0 then Run([], MainThreadExit)
    else Run([Message(prog, NothingToDo), Usage(prog, DefaultDbd(host))], Exit(Failure))
  }

  /** Start-up, then what follows it. */
  function Finish(prog: string, rest: seq<string>, st: Loop, host: Host): (run: Run)
    ensures st.trace + Startup(rest, st, host) <= run.trace
    ensures ScriptFails(rest, host) ==> run == Run(st.trace + Startup(rest, st, host), Exit(Failure))
    ensures !ScriptFails(rest, host) ==>
      && (st.shell <==> run.end == Exit(Success))
      && (st.shell ==> |run.trace| > 0 && run.trace[|run.trace| - 1] == StartShell)
      && (run.end == MainThreadExit <==> !st.shell && (st.loadedDb || |rest| > 0))
      && (run.end == Exit(Failure) <==> !st.shell && !st.loadedDb && |rest| == 0)
      && (run.end == Exit(Failure) ==> Message(prog, NothingToDo) in run.trace)
    // after start-up only the shell, or "Nothing to do" and the usage text, can follow;
    // the shell exactly when it was requested and the script did not fail
    ensures var n := |st.trace + Startup(rest, st, host)|;
      && run.end == Ending(prog, rest, st, host).end
      && run.trace[n..] == Ending(prog, rest, st, host).trace
  {
    var t := st.trace + Startup(rest, st, host);
    var e := Ending(prog, rest, st, host);
    AppendParts(t, e.trace);
    Run(t + e.trace, e.end)
  }

  lemma AppendParts(t: seq<Action>, x: seq<Action>)
    ensures t <= t + x && (t + x)[|t|..] == x
    ensures |x| > 0 ==> (t + x)[|t + x| - 1] == x[|x| - 1] && (t + x)[|t|] == x[0]
  {
  }

  /** The check of a final option left without an argument, then Finish.
      An option still in front ends the process with the usage text before
      anything is started, except `-s`, which asks for the shell. */
  function AfterOptions(prog: string, rest: seq<string>, st: Loop, host: Host): (run: Run)
    ensures st.trace <= run.trace
    // a value option without its value fails with a complaint and the usage text
    ensures |rest| > 0 && IsOption(rest[0]) && Letter(rest[0]) in {'a', 'd', 'm'} ==>
      && run.end == Exit(Failure)
      && run.trace[|st.trace|..] == [Message(prog, MissingArgument(rest[0])), Usage(prog, DefaultDbd(host))]
    // a last -h prints the usage text and succeeds
    ensures |rest| > 0 && IsOption(rest[0]) && Letter(rest[0]) == 'h' ==>
      run.end == Exit(Success) && run.trace[|st.trace|..] == [Usage(prog, DefaultDbd(host))]
    // an unknown option fails with a complaint and the usage text
    ensures |rest| > 0 && IsOption(rest[0]) && Letter(rest[0]) !in {'a', 'd', 'm', 'h', 's'} ==>
      && run.end == Exit(Failure)
      && run.trace[|st.trace|..] == [Message(prog, NotRecognized(rest[0])), Usage(prog, DefaultDbd(host))]
    // a last -s starts up with the words after it and ends in the shell, unless the script fails
    ensures |rest| > 0 && IsOption(rest[0]) && Letter(rest[0]) == 's' ==>
      && st.trace + Startup(rest[1..], st, host) <= run.trace
      && run == Finish(prog, rest[1..], st.(shell := true), host)
      && (ScriptFails(rest[1..], host) <==> run.end == Exit(Failure))
      && (!ScriptFails(rest[1..], host) ==> run.end == Exit(Success) && |run.trace| > 0 && run.trace[|run.trace| - 1] == StartShell)
    // with no option left, start-up runs on what is left and the outcome is Finish's
    ensures (|rest| == 0 || !IsOption(rest[0])) ==>
      && run == Finish(prog, rest, st, host)
      && st.trace + Startup(rest, st, host) <= run.trace
      && (run.end == Exit(Success) <==> st.shell && !ScriptFails(rest, host))
      && (run.end == Exit(Failure) <==> ScriptFails(rest, host) || (!st.shell && !st.loadedDb && |rest| == 0))
  {
    if |rest| > 0 && IsOption(rest[0]) then
      var w := rest[0];
      if Letter(w) == 'a' || Letter(w) == 'd' || Letter(w) == 'm' then
        UsageRun(prog, st.trace + [Message(prog, MissingArgument(w))], Failure, host)
      else if Letter(w) == 'h' then
        UsageRun(prog, st.trace, Success, host)
      else if Letter(w) == 's' then
        Finish(prog, rest[1..], st.(shell := true), host)
      else
        UsageRun(prog, st.trace + [Message(prog, NotRecognized(w))], Failure, host)
    else
      Finish(prog, rest, st, host)
  }

  /** main once the database definition has loaded: register support, walk
      the options, then handle what is left. */
  function Options(prog: string, args: seq<string>, dbd: string, host: Host): (run: Run)
    ensures [LoadDatabase(dbd), RegisterSupport] <= run.trace
  {
    var st := Loop(None, false, false, [LoadDatabase(dbd), RegisterSupport]);
    match OptionLoop(prog, args, st, host)
    case Stopped(run) => run
    case Finished(st', rest) => AfterOptions(prog, rest, st', host)
  }

  /** main. */
  function Main(argv0: string, args: seq<string>, host: Host): (run: Run)
    ensures HelpFirst(args) ==> run == UsageRun(Basename(argv0), [], Success, host)
    ensures !HelpFirst(args) ==> |run.trace| > 0 && run.trace[0] == LoadDatabase(DbdFile(args, host))
    // -D's path replaces the compiled-in default only as the first argument with a path after it
    ensures !HelpFirst(args) && DbdGiven(args) ==> run.trace[0] == LoadDatabase(args[1])
    ensures !HelpFirst(args) && !DbdGiven(args) ==> run.trace[0] == LoadDatabase(host.epicsBase + "/dbd/softIoc.dbd")
    ensures !HelpFirst(args) && host.databaseFails(DbdFile(args, host)) ==>
      run == Run([LoadDatabase(DbdFile(args, host))], Exit(Failure))
    ensures !HelpFirst(args) && !host.databaseFails(DbdFile(args, host)) ==>
      |run.trace| > 1 && run.trace[1] == RegisterSupport
  {
    var prog := Basename(argv0);
    if HelpFirst(args) then UsageRun(prog, [], Success, host)
    else
      var dbd := DbdFile(args, host);
      if host.databaseFails(dbd) then Run([LoadDatabase(dbd)], Exit(Failure))
      else Options(prog, OptionArgs(args), dbd, host)
  }

  /** exitSubroutine: a subroutine record named "exit" ends the process with
      success exactly when its field A is zero. */
  function ExitSubroutine(a: real): (e: End)
    ensures e.Exit?
    ensures e.status == Success <==> a == 0.0
  {
    Exit(if a == 0.0 then Success else Failure)
  }
}
