/**
 A second, declarative reading of main's option arguments. The arguments are
 split into words (an option with its argument, or a bare -s), possibly an
 option that ends the process, and what is left. The host actions are then
 described position by position: each word acts with the macros of the most
 recent -m before it. The lemmas show that main's threaded option loop
 agrees with this reading.
 */
module OptionWords {
  import opened SoftMain

  /** One option that the loop consumes and continues after. */
  datatype Word =
    | Valued(text: string, arg: string)  // -a, -d or -m with the argument after it
    | Bare(text: string)                 // -s

  /** The words, the option that ended the loop (-h or one not recognised),
      if any, and the arguments left over. */
  datatype Split = Split(words: seq<Word>, stop: Option<string>, tail: seq<string>)

  function Texts(w: Word): seq<string>
  {
    match w
    case Valued(t, a) => [t, a]
    case Bare(t) => [t]
  }

  /** The arguments the words were read from. */
  function Flatten(ws: seq<Word>): seq<string>
  {
    if |ws| == 0 then [] else Texts(ws[0]) + Flatten(ws[1..])
  }

  function StopTexts(stop: Option<string>): seq<string>
  {
    if stop.Some? then [stop.value] else []
  }

  lemma FlattenCons(w: Word, ws: seq<Word>)
    ensures Flatten([w] + ws) == Texts(w) + Flatten(ws)
  {
    assert ([w] + ws)[1..] == ws;
  }

  /** Split the arguments the way the option loop steps through them: only
      the second character of an option decides its kind, and the loop needs
      at least two arguments left. */
  function Words(args: seq<string>): (sp: Split)
    ensures |Flatten(sp.words)| + |StopTexts(sp.stop)| + |sp.tail| == |args|
    ensures sp.stop.Some? ==> IsOption(sp.stop.value) && Letter(sp.stop.value) !in {'a', 'd', 'm', 's'}
    ensures sp.stop.None? ==> |sp.tail| <= 1 || !IsOption(sp.tail[0])
    ensures forall i :: 0 <= i < |sp.words| ==> IsOption(sp.words[i].text)
    decreases |args|
  {
    if |args| > 1 && IsOption(args[0]) then
      var f := Letter(args[0]);
      if f == 'a' || f == 'd' || f == 'm' then
        var rest := Words(args[2..]);
        var w := Valued(args[0], args[1]);
        FlattenCons(w, rest.words);
        Split([w] + rest.words, rest.stop, rest.tail)
      else if f == 's' then
        var rest := Words(args[1..]);
        var w := Bare(args[0]);
        FlattenCons(w, rest.words);
        Split([w] + rest.words, rest.stop, rest.tail)
      else
        Split([], Some(args[0]), args[1..])
    else
      Split([], None, args)
  }

  lemma SplitAt(s: seq<string>, n: nat)
    requires n <= |s|
    ensures s[..n] + s[n..] == s
  {
  }

  lemma Regroup(a: seq<string>, b: seq<string>, c: seq<string>, d: seq<string>)
    ensures a + b + c + d == a + (b + c + d)
  {
  }

  /** Nothing is lost or reordered: the words, the stopping option and the
      leftover arguments are the arguments again. */
  lemma {:induction false} WordsCover(args: seq<string>)
    ensures var sp := Words(args); Flatten(sp.words) + StopTexts(sp.stop) + sp.tail == args
    decreases |args|
  {
    var sp := Words(args);
    if |args| > 1 && IsOption(args[0]) && Letter(args[0]) in {'a', 'd', 'm', 's'} {
      WordsCons(args);
      var w := sp.words[0];
      var n := |Texts(w)|;
      var rest := Words(args[n..]);
      WordsCover(args[n..]);
      FlattenCons(w, rest.words);
      Regroup(Texts(w), Flatten(rest.words), StopTexts(rest.stop), rest.tail);
      SplitAt(args, n);
    } else if |args| > 1 && IsOption(args[0]) {
      assert sp == Split([], Some(args[0]), args[1..]);
      assert [args[0]] + args[1..] == args;
    } else {
      assert sp == Split([], None, args);
    }
  }

  predicate IsMacros(w: Word)
  {
    w.Valued? && Letter(w.text) == 'm'
  }

  predicate IsLoad(w: Word)
  {
    w.Valued? && Letter(w.text) == 'd'
  }

  predicate IsAccess(w: Word)
  {
    w.Valued? && Letter(w.text) == 'a'
  }

  /** The macros in force after the words `ws`: the argument of the last -m
      among them, or `m0` when there is none. */
  function MacrosAfter(ws: seq<Word>, m0: Option<string>): Option<string>
  {
    if |ws| == 0 then m0
    else if IsMacros(ws[|ws| - 1]) then Some(ws[|ws| - 1].arg)
    else MacrosAfter(ws[..|ws| - 1], m0)
  }

  /** The host actions of one word, given the macros in force before it: -a
      applies the macros as substitutions only when there are some, -d loads
      records with them. */
  function WordActions(w: Word, m: Option<string>): seq<Action>
  {
    if IsAccess(w) then (if m.Some? then [SetSubstitutions(m.value)] else []) + [SetFilename(w.arg)]
    else if IsLoad(w) then [LoadRecords(w.arg, m)]
    else []
  }

  /** The host actions of all the words, each with the macros of the most
      recent -m before it. */
  function Expected(ws: seq<Word>, m0: Option<string>): seq<Action>
  {
    if |ws| == 0 then []
    else Expected(ws[..|ws| - 1], m0) + WordActions(ws[|ws| - 1], MacrosAfter(ws[..|ws| - 1], m0))
  }

  /** The macros after one word. */
  function After(w: Word, m: Option<string>): Option<string>
  {
    if IsMacros(w) then Some(w.arg) else m
  }

  lemma {:induction false} MacrosAfterCons(w: Word, ws: seq<Word>, m0: Option<string>)
    ensures MacrosAfter([w] + ws, m0) == MacrosAfter(ws, After(w, m0))
    decreases |ws|
  {
    var all := [w] + ws;
    if |ws| == 0 {
      assert all[..0] == [];
    } else {
      assert all[|all| - 1] == ws[|ws| - 1];
      assert all[..|all| - 1] == [w] + ws[..|ws| - 1];
      MacrosAfterCons(w, ws[..|ws| - 1], m0);
    }
  }

  lemma AppendAssoc(a: seq<Action>, b: seq<Action>, c: seq<Action>)
    ensures (a + b) + c == a + (b + c)
  {
  }

  /** One more word at the end of ExpectedCons's induction. */
  lemma ExpectedConsStep(w: Word, init: seq<Word>, last: Word, m0: Option<string>)
    requires Expected([w] + init, m0) == WordActions(w, m0) + Expected(init, After(w, m0))
    requires MacrosAfter([w] + init, m0) == MacrosAfter(init, After(w, m0))
    ensures Expected([w] + init + [last], m0) == WordActions(w, m0) + Expected(init + [last], After(w, m0))
  {
    var all, ws := [w] + init + [last], init + [last];
    assert all[..|all| - 1] == [w] + init && all[|all| - 1] == last;
    assert ws[..|ws| - 1] == init && ws[|ws| - 1] == last;
    var m1 := After(w, m0);
    var a, b, c := WordActions(w, m0), Expected(init, m1), WordActions(last, MacrosAfter(init, m1));
    assert Expected(all, m0) == (a + b) + c;
    assert Expected(ws, m1) == b + c;
    AppendAssoc(a, b, c);
  }

  lemma {:induction false} ExpectedCons(w: Word, ws: seq<Word>, m0: Option<string>)
    ensures Expected([w] + ws, m0) == WordActions(w, m0) + Expected(ws, After(w, m0))
    decreases |ws|
  {
    if |ws| == 0 {
      assert [w] + ws == [w] && [w][..0] == [];
    } else {
      var init, last := ws[..|ws| - 1], ws[|ws| - 1];
      assert ws == init + [last];
      assert [w] + ws == [w] + init + [last];
      ExpectedCons(w, init, m0);
      MacrosAfterCons(w, init, m0);
      ExpectedConsStep(w, init, last, m0);
    }
  }

  /** Every -d among the words loads successfully with its macros. */
  predicate LoadsSucceed(ws: seq<Word>, m0: Option<string>, host: Host)
  {
    forall i :: 0 <= i < |ws| && IsLoad(ws[i]) ==> !host.recordsFail(ws[i].arg, MacrosAfter(ws[..i], m0))
  }

  /** How an option that ends the loop ends the process: -h prints usage and
      succeeds, anything else is reported as not recognised and fails. */
  function StopRun(prog: string, option: string, trace: seq<Action>, host: Host): Run
  {
    if Letter(option) == 'h' then UsageRun(prog, trace, Success, host)
    else UsageRun(prog, trace + [Message(prog, NotRecognized(option))], Failure, host)
  }

  predicate HasBare(ws: seq<Word>)
  {
    exists i :: 0 <= i < |ws| && ws[i].Bare?
  }

  predicate HasLoad(ws: seq<Word>)
  {
    exists i :: 0 <= i < |ws| && IsLoad(ws[i])
  }

  /** The loop state after the words, read off the words themselves: the
      last -m's macros, a shell if any -s, a database if any -d, and every
      word's actions in order. */
  function LoopAfter(ws: seq<Word>, st: Loop): Loop
  {
    Loop(MacrosAfter(ws, st.macros), st.shell || HasBare(ws), st.loadedDb || HasLoad(ws),
         st.trace + Expected(ws, st.macros))
  }

  /** The loop state after one word. */
  function StepWord(w: Word, st: Loop): Loop
  {
    Loop(After(w, st.macros), st.shell || w.Bare?, st.loadedDb || IsLoad(w), st.trace + WordActions(w, st.macros))
  }

  /** The -d at position `k` is the first load that fails. */
  predicate FailsAt(ws: seq<Word>, k: int, m0: Option<string>, host: Host)
  {
    && 0 <= k < |ws|
    && IsLoad(ws[k])
    && host.recordsFail(ws[k].arg, MacrosAfter(ws[..k], m0))
    && LoadsSucceed(ws[..k], m0, host)
  }

  /** How main's process ends when the load at position `k` fails. */
  function FailedLoadRun(ws: seq<Word>, k: int, st: Loop): Run
    requires 0 <= k < |ws| && ws[k].Valued?
  {
    var m := MacrosAfter(ws[..k], st.macros);
    Run(st.trace + Expected(ws[..k], st.macros) + [LoadRecords(ws[k].arg, m)], Exit(Failure))
  }

  /** A word fails to load with the macros it is given. */
  predicate LoadFails(w: Word, m: Option<string>, host: Host)
  {
    IsLoad(w) && host.recordsFail(w.arg, m)
  }

  lemma {:induction false} LoadsSucceedCons(w: Word, ws: seq<Word>, m0: Option<string>, host: Host)
    ensures LoadsSucceed([w] + ws, m0, host) <==> !LoadFails(w, m0, host) && LoadsSucceed(ws, After(w, m0), host)
  {
    var all := [w] + ws;
    assert all[..0] == [];
    forall i | 0 <= i < |ws|
      ensures all[i + 1] == ws[i] && MacrosAfter(all[..i + 1], m0) == MacrosAfter(ws[..i], After(w, m0))
    {
      assert all[..i + 1] == [w] + ws[..i];
      MacrosAfterCons(w, ws[..i], m0);
    }
    if LoadsSucceed(all, m0, host) {
      forall i | 0 <= i < |ws| && IsLoad(ws[i])
        ensures !host.recordsFail(ws[i].arg, MacrosAfter(ws[..i], After(w, m0)))
      {
        assert all[i + 1] == ws[i];
      }
    }
    if !LoadFails(w, m0, host) && LoadsSucceed(ws, After(w, m0), host) {
      forall i | 0 <= i < |all| && IsLoad(all[i])
        ensures !host.recordsFail(all[i].arg, MacrosAfter(all[..i], m0))
      {
        if i > 0 {
          assert all[i] == ws[i - 1];
        }
      }
    }
  }

  lemma HasCons(w: Word, ws: seq<Word>)
    ensures HasBare([w] + ws) <==> w.Bare? || HasBare(ws)
    ensures HasLoad([w] + ws) <==> IsLoad(w) || HasLoad(ws)
  {
    var all := [w] + ws;
    assert all[0] == w;
    forall i | 0 <= i < |ws| ensures all[i + 1] == ws[i] {}
    forall i | 0 < i < |all| ensures all[i] == ws[i - 1] {}
  }

  lemma LoopAfterCons(w: Word, ws: seq<Word>, st: Loop)
    ensures LoopAfter([w] + ws, st) == LoopAfter(ws, StepWord(w, st))
  {
    MacrosAfterCons(w, ws, st.macros);
    ExpectedCons(w, ws, st.macros);
    HasCons(w, ws);
    var a := WordActions(w, st.macros);
    var b := Expected(ws, After(w, st.macros));
    AppendAssoc(st.trace, a, b);
  }

  /** The first word of the split and the split of what follows it. */
  lemma WordsCons(args: seq<string>)
    requires |args| > 1 && IsOption(args[0])
    requires Letter(args[0]) in {'a', 'd', 'm', 's'}
    ensures var sp := Words(args);
      && |sp.words| > 0
      && sp.words[0] == (if Letter(args[0]) == 's' then Bare(args[0]) else Valued(args[0], args[1]))
      && Texts(sp.words[0]) == args[..|Texts(sp.words[0])|]
      && var rest := Words(args[|Texts(sp.words[0])|..]);
         sp == Split([sp.words[0]] + rest.words, rest.stop, rest.tail)
  {
  }

  /** One pass of main's loop over a word does what the word says. */
  lemma DispatchFollowsWord(prog: string, args: seq<string>, st: Loop, host: Host)
    requires |args| > 1 && IsOption(args[0])
    requires Letter(args[0]) in {'a', 'd', 'm', 's'}
    ensures var w := if Letter(args[0]) == 's' then Bare(args[0]) else Valued(args[0], args[1]);
      && (LoadFails(w, st.macros, host) ==>
            Dispatch(prog, args, st, host) == Halt(Run(st.trace + [LoadRecords(w.arg, st.macros)], Exit(Failure))))
      && (!LoadFails(w, st.macros, host) ==>
            Dispatch(prog, args, st, host) == Next(StepWord(w, st), |Texts(w)|))
  {
  }

  /** main's loop moves past a word that does not fail. */
  lemma LoopStep(prog: string, args: seq<string>, st: Loop, host: Host)
    requires |args| > 1 && IsOption(args[0])
    requires Letter(args[0]) in {'a', 'd', 'm', 's'}
    requires !LoadFails(Words(args).words[0], st.macros, host)
    ensures var w := Words(args).words[0];
      OptionLoop(prog, args, st, host) == OptionLoop(prog, args[|Texts(w)|..], StepWord(w, st), host)
  {
    WordsCons(args);
    DispatchFollowsWord(prog, args, st, host);
  }

  /** A first word that fails to load ends the process after only that load. */
  lemma FailedFirstLoad(ws: seq<Word>, st: Loop)
    requires |ws| > 0 && ws[0].Valued?
    ensures FailedLoadRun(ws, 0, st) == Run(st.trace + [LoadRecords(ws[0].arg, st.macros)], Exit(Failure))
  {
    assert ws[..0] == [];
  }

  /** main's loop ends the process at a -d whose load fails. */
  lemma LoopHaltsAtLoad(prog: string, args: seq<string>, st: Loop, host: Host)
    requires |args| > 1 && IsOption(args[0])
    requires Letter(args[0]) in {'a', 'd', 'm', 's'}
    requires LoadFails(Words(args).words[0], st.macros, host)
    ensures var w := Words(args).words[0];
      OptionLoop(prog, args, st, host) == Stopped(Run(st.trace + [LoadRecords(w.arg, st.macros)], Exit(Failure)))
  {
    WordsCons(args);
    DispatchFollowsWord(prog, args, st, host);
  }

  /** An option other than -a, -d, -m and -s ends main's loop and the process. */
  lemma LoopStopsHere(prog: string, args: seq<string>, st: Loop, host: Host)
    requires |args| > 1 && IsOption(args[0])
    requires Letter(args[0]) !in {'a', 'd', 'm', 's'}
    ensures Words(args) == Split([], Some(args[0]), args[1..])
    ensures OptionLoop(prog, args, st, host) == Stopped(StopRun(prog, args[0], st.trace, host))
  {
  }

  /** Fewer than two arguments, or a first one that is not an option, end the loop. */
  lemma LoopEndsHere(prog: string, args: seq<string>, st: Loop, host: Host)
    requires !(|args| > 1 && IsOption(args[0]))
    ensures Words(args) == Split([], None, args)
    ensures OptionLoop(prog, args, st, host) == Finished(st, args)
  {
  }

  /** The split has a word only when the arguments start with -a, -d, -m or -s. */
  lemma WordsStartWithWord(args: seq<string>)
    ensures |Words(args).words| > 0 ==> |args| > 1 && IsOption(args[0]) && Letter(args[0]) in {'a', 'd', 'm', 's'}
  {
  }

  /** A failing load after the first word is a failing load of the words
      after it, reached from the state after the first word. */
  lemma FailsAtCons(w: Word, ws: seq<Word>, k: int, st: Loop, host: Host)
    requires 0 < k && FailsAt([w] + ws, k, st.macros, host)
    ensures !LoadFails(w, st.macros, host)
    ensures FailsAt(ws, k - 1, After(w, st.macros), host)
    ensures FailedLoadRun([w] + ws, k, st) == FailedLoadRun(ws, k - 1, StepWord(w, st))
  {
    var all := [w] + ws;
    var pre := ws[..k - 1];
    assert all[..k] == [w] + pre;
    assert all[k] == ws[k - 1];
    assert all[..k][0] == w;
    LoadsSucceedCons(w, pre, st.macros, host);
    MacrosAfterCons(w, pre, st.macros);
    ExpectedCons(w, pre, st.macros);
    var a := WordActions(w, st.macros);
    var b := Expected(pre, After(w, st.macros));
    AppendAssoc(st.trace, a, b);
  }

  /** When every load succeeds and no option ends the process, main's option
      loop leaves exactly the state the words describe and the arguments
      after them. */
  lemma {:induction false} LoopFollowsWords(prog: string, args: seq<string>, st: Loop, host: Host)
    requires LoadsSucceed(Words(args).words, st.macros, host)
    ensures Words(args).stop.None? ==>
      OptionLoop(prog, args, st, host) == Finished(LoopAfter(Words(args).words, st), Words(args).tail)
    ensures Words(args).stop.Some? ==>
      OptionLoop(prog, args, st, host)
        == Stopped(StopRun(prog, Words(args).stop.value, LoopAfter(Words(args).words, st).trace, host))
    decreases |args|
  {
    var sp := Words(args);
    if |args| > 1 && IsOption(args[0]) {
      if Letter(args[0]) in {'a', 'd', 'm', 's'} {
        WordsCons(args);
        var w := sp.words[0];
        var n := |Texts(w)|;
        var ws := Words(args[n..]).words;
        LoadsSucceedCons(w, ws, st.macros, host);
        LoopStep(prog, args, st, host);
        LoopFollowsWords(prog, args[n..], StepWord(w, st), host);
        LoopAfterCons(w, ws, st);
      } else {
        LoopStopsHere(prog, args, st, host);
      }
    } else {
      LoopEndsHere(prog, args, st, host);
    }
  }

  /** FailsAtCons, read on the arguments. */
  lemma FailsAtRest(args: seq<string>, k: int, st: Loop, host: Host)
    requires |args| > 1 && IsOption(args[0]) && Letter(args[0]) in {'a', 'd', 'm', 's'}
    requires 0 < k && FailsAt(Words(args).words, k, st.macros, host)
    ensures var w := Words(args).words[0];
      var rest := Words(args[|Texts(w)|..]).words;
      && !LoadFails(w, st.macros, host)
      && FailsAt(rest, k - 1, After(w, st.macros), host)
      && FailedLoadRun(Words(args).words, k, st) == FailedLoadRun(rest, k - 1, StepWord(w, st))
  {
    WordsCons(args);
    var w := Words(args).words[0];
    FailsAtCons(w, Words(args[|Texts(w)|..]).words, k, st, host);
  }

  /** When a load fails, main's option loop ends the process right there:
      the actions of the words before it, the failing load, and a failure. */
  lemma {:induction false} LoopStopsAtFailedLoad(prog: string, args: seq<string>, st: Loop, host: Host, k: int)
    requires FailsAt(Words(args).words, k, st.macros, host)
    ensures OptionLoop(prog, args, st, host) == Stopped(FailedLoadRun(Words(args).words, k, st))
    decreases |args|, 1
  {
    WordsStartWithWord(args);
    if k == 0 {
      WordsCons(args);
      LoopHaltsAtLoad(prog, args, st, host);
      FailedFirstLoad(Words(args).words, st);
    } else {
      LoopStopsAtLaterLoad(prog, args, st, host, k);
    }
  }

  /** The induction step of LoopStopsAtFailedLoad: a failing load after the
      first word is reached by first stepping over that word. */
  lemma {:induction false} LoopStopsAtLaterLoad(prog: string, args: seq<string>, st: Loop, host: Host, k: int)
    requires |args| > 1 && IsOption(args[0]) && Letter(args[0]) in {'a', 'd', 'm', 's'}
    requires 0 < k && FailsAt(Words(args).words, k, st.macros, host)
    ensures OptionLoop(prog, args, st, host) == Stopped(FailedLoadRun(Words(args).words, k, st))
    decreases |args|, 0
  {
    var w := Words(args).words[0];
    var n := |Texts(w)|;
    FailsAtRest(args, k, st, host);
    LoopStep(prog, args, st, host);
    LoopStopsAtFailedLoad(prog, args[n..], StepWord(w, st), host, k - 1);
  }

  /** Some load fails exactly when there is a first one that fails. */
  lemma {:induction false} FirstFailure(ws: seq<Word>, m0: Option<string>, host: Host)
    ensures !LoadsSucceed(ws, m0, host) <==> exists k :: FailsAt(ws, k, m0, host)
    decreases |ws|
  {
    if |ws| == 0 {
    } else {
      var w := ws[0];
      var rest := ws[1..];
      assert ws == [w] + rest;
      LoadsSucceedCons(w, rest, m0, host);
      FirstFailure(rest, After(w, m0), host);
      if !LoadsSucceed(ws, m0, host) {
        if LoadFails(w, m0, host) {
          assert ws[..0] == [];
          assert FailsAt(ws, 0, m0, host);
        } else {
          var k :| FailsAt(rest, k, After(w, m0), host);
          assert ws[..k + 1] == [w] + rest[..k];
          assert ws[k + 1] == rest[k];
          MacrosAfterCons(w, rest[..k], m0);
          LoadsSucceedCons(w, rest[..k], m0, host);
          assert FailsAt(ws, k + 1, m0, host);
        }
      }
    }
  }

  /** The loop state main starts its options from. */
  function Start(dbd: string): Loop
  {
    Loop(None, false, false, [LoadDatabase(dbd), RegisterSupport])
  }

  /** main's handling of its options, read off the words: the first failing
      -d ends the process there; otherwise an option that ends the loop ends
      the process after every word's actions; otherwise the leftover
      arguments are handled from the state the words describe. */
  lemma {:induction false} OptionsFollowWords(prog: string, args: seq<string>, dbd: string, host: Host)
    ensures var sp := Words(args);
      && (LoadsSucceed(sp.words, None, host) && sp.stop.None? ==>
            Options(prog, args, dbd, host) == AfterOptions(prog, sp.tail, LoopAfter(sp.words, Start(dbd)), host))
      && (LoadsSucceed(sp.words, None, host) && sp.stop.Some? ==>
            Options(prog, args, dbd, host)
              == StopRun(prog, sp.stop.value, LoopAfter(sp.words, Start(dbd)).trace, host))
      && (!LoadsSucceed(sp.words, None, host) ==>
            exists k :: FailsAt(sp.words, k, None, host)
              && Options(prog, args, dbd, host) == FailedLoadRun(sp.words, k, Start(dbd)))
  {
    var sp := Words(args);
    var st := Start(dbd);
    if LoadsSucceed(sp.words, None, host) {
      LoopFollowsWords(prog, args, st, host);
    } else {
      FirstFailure(sp.words, None, host);
      var k :| FailsAt(sp.words, k, None, host);
      LoopStopsAtFailedLoad(prog, args, st, host, k);
    }
  }

  /** main as a whole, read off the words of the arguments after `-D` and its
      path: once the database definition has loaded, the first failing -d
      ends the process there; otherwise an option that ends the loop ends the
      process after every word's actions; otherwise the leftover arguments are
      handled from the state the words describe. */
  lemma {:induction false} MainFollowsWords(argv0: string, args: seq<string>, host: Host)
    requires !HelpFirst(args) && !host.databaseFails(DbdFile(args, host))
    ensures var prog, sp, st := Basename(argv0), Words(OptionArgs(args)), Start(DbdFile(args, host));
      && (LoadsSucceed(sp.words, None, host) && sp.stop.None? ==>
            Main(argv0, args, host) == AfterOptions(prog, sp.tail, LoopAfter(sp.words, st), host))
      && (LoadsSucceed(sp.words, None, host) && sp.stop.Some? ==>
            Main(argv0, args, host) == StopRun(prog, sp.stop.value, LoopAfter(sp.words, st).trace, host))
      && (!LoadsSucceed(sp.words, None, host) ==>
            exists k :: FailsAt(sp.words, k, None, host) && Main(argv0, args, host) == FailedLoadRun(sp.words, k, st))
  {
    OptionsFollowWords(Basename(argv0), OptionArgs(args), DbdFile(args, host), host);
  }
}
