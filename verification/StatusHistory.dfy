/** What UpdateStatus promises over whole runs of ShutdownWakeup: every change of the status is
    emitted once, in order, and nothing else is. */
module StatusHistory {
  import opened Channels
  import opened Sequences
  import opened ShutdownWakeup
  import Bus = BusRuns

  /** The payloads of the status events among the emissions. */
  function Told(emissions: seq<Bus.Emission>): seq<string> {
    if emissions == [] then []
    else
      var e := emissions[|emissions| - 1].env;
      Told(emissions[..|emissions| - 1]) + if e.typ == STATUS then [e.payload] else []
  }

  /** The values given to UpdateStatus, in the order in which they were set: Shutdown gives
      "stopping", the watcher what the last reported state of the machine calls for. */
  function Settings(reported: string, run: seq<Action>): seq<string>
    decreases |run|
  {
    if run == [] then []
    else match run[0]
      case VmState(x) => Settings(x, run[1..])
      case ShutdownSet => [STOPPING] + Settings(reported, run[1..])
      case WatcherSet => [reported] + Settings(reported, run[1..])
      case _ => Settings(reported, run[1..])
  }

  /** The values among xs that differ from the one before, beginning with v. */
  function Changes(v: string, xs: seq<string>): seq<string>
    decreases |xs|
  {
    if xs == [] then []
    else (if xs[0] == v then [] else [xs[0]]) + Changes(xs[0], xs[1..])
  }

  function LastOf(v: string, xs: seq<string>): string {
    if xs == [] then v else xs[|xs| - 1]
  }

  lemma {:induction false} ToldSame(es: seq<Bus.Emission>, es': seq<Bus.Emission>)
    requires |es| == |es'| && forall i :: 0 <= i < |es| ==> es'[i].env == es[i].env
    ensures Told(es) == Told(es')
  {
    if es != [] { ToldSame(es[..|es| - 1], es'[..|es'| - 1]); }
  }

  lemma ToldMore(es: seq<Bus.Emission>, m: Bus.Emission)
    ensures Told(es + [m]) == Told(es) + if m.env.typ == STATUS then [m.env.payload] else []
  {
    assert (es + [m])[..|es|] == es;
  }

  /** The one event that a change of the status emits: by the thread p that makes the change, to
      whoever is registered at that moment. */
  predicate Tells(b: Bus.State, b': Bus.State, p: nat, x: string) {
    b'.emissions == b.emissions +
      [Bus.Emission(Envelope(STATUS, x, |b.emissions|), p, Bus.Registered(b, STATUS), map[])]
  }

  /** Of the actions of the two threads, those that change the status emit the new one, exactly
      once, and no other emits anything. */
  lemma ThreadsTell(s: State, a: Action)
    requires Enabled(s, a) && !a.BusAction?
    ensures var s' := Apply(s, a);
            if s'.status != s.status
            then Tells(s.bus, s'.bus, if a == ShutdownSet then SHUTDOWN else WATCHER, s'.status)
            else s'.bus.emissions == s.bus.emissions
  {}

  lemma NoNewEvent(b: Bus.State, a: Bus.Action)
    requires Bus.Enabled(b, a) && !a.Start?
    ensures var b' := Bus.Apply(b, a);
            && |b'.emissions| == |b.emissions|
            && forall i :: 0 <= i < |b.emissions| ==> b'.emissions[i].env == b.emissions[i].env
  {}

  lemma OtherEvent(b: Bus.State, a: Bus.Action)
    requires Bus.Enabled(b, a) && a.Start? && a.typ != STATUS
    ensures Told(Bus.Apply(b, a).emissions) == Told(b.emissions)
  {
    ToldMore(b.emissions, Bus.Apply(b, a).emissions[|b.emissions|]);
  }

  /** Nor does anybody else emit a status event. */
  lemma OthersTellNothing(s: State, a: Bus.Action)
    requires Enabled(s, BusAction(a))
    ensures Told(Apply(s, BusAction(a)).bus.emissions) == Told(s.bus.emissions)
    ensures Apply(s, BusAction(a)).status == s.status
  {
    if a.Start? {
      OtherEvent(s.bus, a);
    } else {
      NoNewEvent(s.bus, a);
      ToldSame(s.bus.emissions, Bus.Apply(s.bus, a).emissions);
    }
  }

  lemma StepTells(s: State, a: Action)
    requires Enabled(s, a)
    ensures var s' := Apply(s, a);
            Told(s'.bus.emissions) == Told(s.bus.emissions) + if s'.status != s.status then [s'.status] else []
  {
    if a.BusAction? {
      OthersTellNothing(s, a.a);
    } else {
      ThreadsTell(s, a);
      var s' := Apply(s, a);
      if s'.status != s.status {
        ToldMore(s.bus.emissions, s'.bus.emissions[|s.bus.emissions|]);
      }
    }
  }

  /** The watcher sets what was last reported to it. */
  predicate Carries(wt: WatcherPc, reported: string) {
    wt.Wants? || wt.Locked? ==> wt.x == reported
  }

  function Sets(reported: string, a: Action): seq<string> {
    match a
    case ShutdownSet => [STOPPING]
    case WatcherSet => [reported]
    case _ => []
  }

  lemma StepSets(s: State, a: Action, reported: string)
    requires Enabled(s, a) && Carries(s.wt, reported)
    ensures Apply(s, a).status == LastOf(s.status, Sets(reported, a))
    ensures Carries(Apply(s, a).wt, if a.VmState? then a.x else reported)
  {}

  lemma SettingsFirst(reported: string, run: seq<Action>)
    requires run != []
    ensures Settings(reported, run) ==
            Sets(reported, run[0]) + Settings(if run[0].VmState? then run[0].x else reported, run[1..])
  {}

  lemma ChangesFirst(v: string, xs: seq<string>, ys: seq<string>)
    requires |xs| <= 1
    ensures Changes(v, xs + ys) == Changes(v, xs) + Changes(LastOf(v, xs), ys)
    ensures LastOf(v, xs + ys) == LastOf(LastOf(v, xs), ys)
  {
    if xs == [] {
      assert xs + ys == ys;
    } else {
      assert (xs + ys)[1..] == ys && xs[1..] == [];
    }
  }

  lemma {:induction false} RunTells(s: State, run: seq<Action>, reported: string)
    requires Feasible(s, run) && Carries(s.wt, reported)
    ensures Exec(s, run).status == LastOf(s.status, Settings(reported, run))
    ensures Told(Exec(s, run).bus.emissions) == Told(s.bus.emissions) + Changes(s.status, Settings(reported, run))
    decreases |run|
  {
    if run != [] {
      var a := run[0];
      var next := if a.VmState? then a.x else reported;
      StepTells(s, a);
      StepSets(s, a, reported);
      RunTells(Apply(s, a), run[1..], next);
      SettingsFirst(reported, run);
      ChangesFirst(s.status, Sets(reported, a), Settings(next, run[1..]));
      Chain(Told(s.bus.emissions),
            Changes(s.status, Sets(reported, a)), Changes(Apply(s, a).status, Settings(next, run[1..])),
            Told(Apply(s, a).bus.emissions), Told(Exec(s, run).bus.emissions));
    }
  }

  /** In every run the status is the value that was set last, and the status events emitted are
      its successive values, each once and in order. */
  lemma EveryChangeIsTold(s0: State, run: seq<Action>)
    requires Initial(s0) && Feasible(s0, run)
    ensures Exec(s0, run).status == LastOf(s0.status, Settings("", run))
    ensures Told(Exec(s0, run).bus.emissions) == Told(s0.bus.emissions) + Changes(s0.status, Settings("", run))
  {
    RunTells(s0, run, "");
  }

  // ----- Shutdown comes to its check -----

  /** One action more behind a run that stays reachable. */
  lemma More(s: State, run: seq<Action>, a: Action) returns (run': seq<Action>)
    requires Reachable(s) && Feasible(s, run) && Enabled(Exec(s, run), a)
    ensures Feasible(s, run') && Exec(s, run') == Apply(Exec(s, run), a) && Reachable(Exec(s, run'))
  {
    Then(s, run, a);
    run' := run + [a];
    ReachableRun(s, run');
  }

  /** A thread in the middle of its Emit makes its sends and can then leave. */
  lemma SendsDone(s: State, run: seq<Action>, p: nat) returns (run': seq<Action>)
    requires Reachable(s) && Feasible(s, run) && !Exec(s, run).bus.crashed && p in Exec(s, run).bus.active
    ensures Feasible(s, run') && Reachable(Exec(s, run')) && BusOnly(Exec(s, run), Exec(s, run'))
    ensures Bus.Enabled(Exec(s, run').bus, Bus.End(p))
  {
    ReachableRun(s, run);
    ReachableInv(Exec(s, run));
    var more := FinishSends(Exec(s, run), p);
    Concat(s, run, more);
    run' := run + more;
    ReachableRun(s, run');
  }

  /** Who holds the mutex, and who emits. */
  lemma Whereabouts(s: State)
    requires Reachable(s)
    ensures (s.wt.Locked? || s.wt.Emitting? || s.wt.Unlocking?) <==> s.holder == ByWatcher
    ensures s.wt.Emitting? || s.wt.Unlocking? ==> s.status == s.wt.x
    ensures s.sd.Begin? ==> s.holder != ByShutdown
    ensures s.sd.Setting? || s.sd.Telling? ==> s.holder == ByShutdown
    ensures WATCHER in s.bus.active <==> s.wt.Emitting?
    ensures SHUTDOWN in s.bus.active <==> s.sd.Telling?
  {
    ReachableInv(s);
  }

  /** A run of the watcher that ends with its release of the mutex, the status being what it had
      to report; it leaves after "stopped" and watches on after any other. */
  predicate Releases(s: State, run: seq<Action>)
    requires s.wt.Locked? || s.wt.Emitting? || s.wt.Unlocking?
  {
    && Feasible(s, run)
    && var t := Exec(s, run);
       && !t.bus.crashed && t.sd == s.sd && t.holder == Free
       && t.status == s.wt.x && t.wt == if s.wt.x == STOPPED then Exited else Watching
  }

  lemma FromUnlocking(s: State) returns (run: seq<Action>)
    requires !s.bus.crashed && s.wt.Unlocking? && s.status == s.wt.x
    ensures Releases(s, run)
  {
    run := [WatcherUnlock];
    One(s, WatcherUnlock);
  }

  lemma FromEmitting(s: State) returns (run: seq<Action>)
    requires Reachable(s) && !s.bus.crashed && s.wt.Emitting?
    ensures Releases(s, run)
  {
    Whereabouts(s);
    run := SendsDone(s, [], WATCHER);
    run := More(s, run, WatcherTold);
    var rest := FromUnlocking(Exec(s, run));
    Concat(s, run, rest);
    run := run + rest;
  }

  lemma FromLocked(s: State) returns (run: seq<Action>)
    requires Reachable(s) && !s.bus.crashed && s.wt.Locked?
    ensures Releases(s, run)
  {
    Whereabouts(s);
    var t := Apply(s, WatcherSet);
    ReachableStep(s, WatcherSet);
    if t.wt.Emitting? { run := FromEmitting(t); } else { run := FromUnlocking(t); }
    Cons(s, WatcherSet, run);
    run := [WatcherSet] + run;
  }

  /** The watcher, when it holds the mutex, can go on to release it. */
  lemma WatcherReleases(s: State) returns (run: seq<Action>)
    requires Reachable(s) && !s.bus.crashed && (s.wt.Locked? || s.wt.Emitting? || s.wt.Unlocking?)
    ensures Releases(s, run)
  {
    Whereabouts(s);
    if s.wt.Locked? {
      run := FromLocked(s);
    } else if s.wt.Emitting? {
      run := FromEmitting(s);
    } else {
      run := FromUnlocking(s);
    }
  }

  /** From every reachable state of a living process in which the watcher watches and the mutex is
      free, either state of the machine can be reported and set, or the channel of states close. */
  lemma WatcherReports(s: State, x: string) returns (run: seq<Action>)
    requires Reachable(s) && !s.bus.crashed && s.wt.Watching? && s.holder == Free && (x == STOPPING || x == STOPPED)
    ensures Feasible(s, run)
    ensures var t := Exec(s, run);
            t.status == x && t.holder == Free && t.sd == s.sd && t.wt == if x == STOPPED then Exited else Watching
    ensures Enabled(s, StateChannelCloses) && Apply(s, StateChannelCloses).wt == Exited
  {
    run := More(s, [], VmState(x));
    run := More(s, run, WatcherLock);
    var rest := FromLocked(Exec(s, run));
    Concat(s, run, rest);
    run := run + rest;
  }

  /** The rest of the process may do on the bus all that the bus allows, but cancel it, emit a
      status event, emit in the name of the two threads, or touch Shutdown's own channel. */
  lemma OthersAreFree(s: State, a: Bus.Action)
    requires Bus.Enabled(s.bus, a) && !a.Cancel?
    requires a.Start? ==> a.typ != "Status"
    requires a.Start? || a.End? ==> a.p != SHUTDOWN && a.p != WATCHER
    requires (s.sd == Checked(true) || s.sd == Waiting || s.sd == Done) && !a.Make? && !a.Start? && !a.End? ==>
               a.Send? || a.Cleanup? || a.c != s.ch
    ensures Enabled(s, BusAction(a)) && Apply(s, BusAction(a)) == s.(bus := Bus.Apply(s.bus, a))
  {}

  /** A run of Shutdown that ends with its check. */
  predicate Checks(s: State, run: seq<Action>) {
    Feasible(s, run) && Exec(s, run).sd.Checking?
  }

  lemma FromSet(s: State) returns (run: seq<Action>)
    requires s.sd.Set? && s.holder != ByWatcher
    ensures Checks(s, run)
  {
    if s.holder == Free {
      run := [CheckLock];
      One(s, CheckLock);
    } else {
      run := [ShutdownUnlock] + [CheckLock];
      One(Apply(s, ShutdownUnlock), CheckLock);
      Cons(s, ShutdownUnlock, [CheckLock]);
    }
  }

  lemma FromTelling(s: State) returns (run: seq<Action>)
    requires Reachable(s) && !s.bus.crashed && s.sd.Telling?
    ensures Checks(s, run)
  {
    Whereabouts(s);
    run := SendsDone(s, [], SHUTDOWN);
    run := More(s, run, ShutdownTold);
    var rest := FromSet(Exec(s, run));
    Concat(s, run, rest);
    run := run + rest;
  }

  lemma FromSetting(s: State) returns (run: seq<Action>)
    requires Reachable(s) && !s.bus.crashed && s.sd.Setting?
    ensures Checks(s, run)
  {
    Whereabouts(s);
    var t := Apply(s, ShutdownSet);
    ReachableStep(s, ShutdownSet);
    if t.sd.Telling? { run := FromTelling(t); } else { run := FromSet(t); }
    Cons(s, ShutdownSet, run);
    run := [ShutdownSet] + run;
  }

  lemma FromFree(s: State) returns (run: seq<Action>)
    requires Reachable(s) && !s.bus.crashed && s.holder != ByWatcher
    requires s.sd.Begin? || s.sd.Setting? || s.sd.Telling? || s.sd.Set?
    ensures Checks(s, run)
  {
    Whereabouts(s);
    if s.sd.Begin? {
      ReachableStep(s, ShutdownLock);
      run := FromSetting(Apply(s, ShutdownLock));
      Cons(s, ShutdownLock, run);
      run := [ShutdownLock] + run;
    } else if s.sd.Setting? {
      run := FromSetting(s);
    } else if s.sd.Telling? {
      run := FromTelling(s);
    } else {
      run := FromSet(s);
    }
  }

  /** From every reachable state of a living process, a Shutdown that has not checked the status
      yet can come to its check. */
  lemma ComesToCheck(s: State) returns (run: seq<Action>)
    requires Reachable(s) && !s.bus.crashed
    requires s.sd.Begin? || s.sd.Setting? || s.sd.Telling? || s.sd.Set?
    ensures Checks(s, run)
  {
    run := [];
    Whereabouts(s);
    if s.holder == ByWatcher {
      run := WatcherReleases(s);
      ReachableRun(s, run);
    }
    var more := FromFree(Exec(s, run));
    Concat(s, run, more);
    run := run + more;
  }
}
