/** What a run of the idle-shutdown protocol leaves behind, told from its actions alone, and
    when the daemon can still stop. */
module IdleHistory {
  import opened StopLatch
  import opened ContainerdMonitor
  import opened IdleShutdown

  // ----- where each connection is -----

  datatype Place = Nowhere | Waiting | Serving | Leaving

  /** Where an action puts a connection: its own moves it, others leave it. */
  function Moves(p: Place, a: Action, h: nat): Place {
    match a
    case Accept(x) => if x == h then Waiting else p
    case Enter(x) => if x == h then Serving else p
    case Finish(x) => if x == h then Leaving else p
    case Leave(x) => if x == h then Nowhere else p
    case _ => p
  }

  function PlaceOf(run: seq<Action>, h: nat): Place {
    if run == [] then Nowhere else Moves(PlaceOf(run[..|run| - 1], h), run[|run| - 1], h)
  }

  predicate IsAt(s: State, h: nat, p: Place) {
    && (h in s.waiting <==> p == Waiting)
    && (h in s.serving <==> p == Serving)
    && (h in s.leaving <==> p == Leaving)
  }

  lemma StepMoves(cfg: Config, s: State, a: Action, h: nat, p: Place)
    requires IsAt(s, h, p) && Enabled(cfg, s, a)
    ensures IsAt(Apply(cfg, s, a), h, Moves(p, a, h))
  {}

  /** Every connection is where its own last action in the run put it, and nowhere else. */
  lemma {:induction false} ConnectionsFollow(cfg: Config, run: seq<Action>, h: nat)
    requires Feasible(cfg, run)
    ensures IsAt(Exec(cfg, run), h, PlaceOf(run, h))
  {
    if run != [] {
      ConnectionsFollow(cfg, run[..|run| - 1], h);
      StepMoves(cfg, Exec(cfg, run[..|run| - 1]), run[|run| - 1], h, PlaceOf(run[..|run| - 1], h));
    }
  }

  /** A connection owes an Add(-1) exactly from its Enter to its Leave. */
  lemma CreditFollows(cfg: Config, run: seq<Action>, h: nat)
    requires Feasible(cfg, run)
    ensures CreditOf(Exec(cfg, run).sent, Handler(h)) ==
            if PlaceOf(run, h) == Serving || PlaceOf(run, h) == Leaving then 1 else 0
  {
    RunKeepsInv(cfg, run);
    ConnectionsFollow(cfg, run, h);
  }

  // ----- what each sender delivered -----

  /** The Adds that were received from one sender, in order. */
  function From(sent: seq<Delivery>, who: Who): seq<int> {
    if sent == [] then []
    else
      var d := sent[|sent| - 1];
      From(sent[..|sent| - 1], who) + if d.who == who then [d.add] else []
  }

  lemma FromGrows(sent: seq<Delivery>, d: Delivery, who: Who)
    ensures From(sent + [d], who) == From(sent, who) + if d.who == who then [d.add] else []
  {
    assert (sent + [d])[..|sent|] == sent;
  }

  /** The Add in which the monitor is blocked. */
  function Blocked(pc: MonitorPc): seq<int> {
    match pc
    case Idle => []
    case Adding => [1]
    case Removing(_) => [-1]
  }

  /** What the monitor's observed events call for is what was received from it and then the
      Add in which it is blocked. */
  ghost predicate Delivered(s: State, es: seq<Event>) {
    From(s.sent, Monitor) + Blocked(s.monitor) == Updates(es)
  }

  lemma OneMoreUpdate(es: seq<Event>, e: Event)
    ensures Updates(es + [e]) == Updates(es) +
              if e.Started? || (e.Listed? && !Tracked(es, e.task)) then [1]
              else if e.Deleted? && Tracked(es, e.task) then [-1]
              else []
  {
    assert (es + [e])[..|es|] == es;
  }

  lemma ObserveDelivered(cfg: Config, s: State, es: seq<Event>, e: Event)
    requires Placed(cfg, s) && Follows(s, es) && Delivered(s, es) && Enabled(cfg, s, Observe(e))
    requires !Apply(cfg, s, Observe(e)).crashed
    ensures Delivered(Apply(cfg, s, Observe(e)), es + [e])
  {
    OneMoreUpdate(es, e);
  }

  lemma OtherDelivered(cfg: Config, s: State, es: seq<Event>, a: Action)
    requires Delivered(s, es) && Enabled(cfg, s, a) && !a.Observe?
    ensures Delivered(Apply(cfg, s, a), es)
  {
    match a
    case Enter(h) => FromGrows(s.sent, Delivery(Handler(h), 1), Monitor);
    case Leave(h) => FromGrows(s.sent, Delivery(Handler(h), -1), Monitor);
    case MonitorAdd => FromGrows(s.sent, Delivery(Monitor, if s.monitor.Adding? then 1 else -1), Monitor);
    case _ =>
  }

  /** In every run the latch receives from the monitor exactly the updates that the events call
      for, in order, but for the one in which it is blocked. */
  lemma {:induction false} MonitorDelivers(cfg: Config, run: seq<Action>)
    requires Feasible(cfg, run) && !Exec(cfg, run).crashed
    ensures Delivered(Exec(cfg, run), Observed(run))
  {
    if run != [] {
      var pre, a := run[..|run| - 1], run[|run| - 1];
      MonitorDelivers(cfg, pre);
      RunFollows(cfg, pre);
      RunKeepsInv(cfg, pre);
      if a.Observe? {
        ObserveDelivered(cfg, Exec(cfg, pre), Observed(pre), a.e);
      } else {
        OtherDelivered(cfg, Exec(cfg, pre), Observed(pre), a);
        assert Observed(run) == Observed(pre);
      }
    }
  }

  // ----- time -----

  function Elapsed(run: seq<Action>): int {
    if run == [] then 0
    else Elapsed(run[..|run| - 1]) + if run[|run| - 1].Tick? then run[|run| - 1].dt else 0
  }

  predicate IsReceive(a: Action) {
    a.Enter? || a.Leave? || a.MonitorAdd?
  }

  /** When the last Add was received, or the beginning. */
  function LastReceive(run: seq<Action>): int {
    if run == [] then 0
    else if IsReceive(run[|run| - 1]) then Elapsed(run) else LastReceive(run[..|run| - 1])
  }

  /** When the timer was last started: by an Add, or as it fired. */
  function LastArmed(run: seq<Action>): int {
    if run == [] then 0
    else if IsReceive(run[|run| - 1]) || run[|run| - 1].Timer? then Elapsed(run) else LastArmed(run[..|run| - 1])
  }

  lemma StepTimes(cfg: Config, s: State, a: Action)
    requires Enabled(cfg, s, a)
    ensures var s' := Apply(cfg, s, a);
            && s'.now == s.now + (if a.Tick? then a.dt else 0)
            && s'.lastAdd == (if IsReceive(a) then s.now else s.lastAdd)
            && s'.armed == (if IsReceive(a) || a.Timer? then s.now else s.armed)
  {}

  /** The timer is started anew by every Add and every time it fires, and by nothing else. */
  lemma {:induction false} TimesFollow(cfg: Config, run: seq<Action>)
    requires Feasible(cfg, run)
    ensures var s := Exec(cfg, run);
            s.now == Elapsed(run) && s.lastAdd == LastReceive(run) && s.armed == LastArmed(run)
  {
    if run != [] {
      TimesFollow(cfg, run[..|run| - 1]);
      StepTimes(cfg, Exec(cfg, run[..|run| - 1]), run[|run| - 1]);
    }
  }

  /** The call of stop() is on record with the time at which the timer fired and with the last Add
      before it. */
  lemma {:induction false} StopIsRecorded(cfg: Config, run: seq<Action>)
    requires Feasible(cfg, run) && Exec(cfg, run).stops != []
    ensures exists k :: 0 <= k < |run| && run[k] == Timer
              && Exec(cfg, run).stops == [Stop(Elapsed(run[..k]), 0, LastReceive(run[..k]))]
  {
    var n := |run| - 1;
    if Exec(cfg, run[..n]).stops != [] {
      StopIsRecorded(cfg, run[..n]);
      var k :| 0 <= k < n && run[..n][k] == Timer
        && Exec(cfg, run[..n]).stops == [Stop(Elapsed(run[..n][..k]), 0, LastReceive(run[..n][..k]))];
      StopsOnce(cfg, run[..n]);
      StopsKept(cfg, Exec(cfg, run[..n]), run[n]);
      assert run[..n][..k] == run[..k] && run[k] == Timer;
    } else {
      TimesFollow(cfg, run[..n]);
      assert run[n] == Timer;
    }
  }

  lemma StopsKept(cfg: Config, s: State, a: Action)
    requires s.latch.phase == Stopped && Enabled(cfg, s, a)
    ensures Apply(cfg, s, a).stops == s.stops
  {}

  // ----- what can happen next -----

  /** Every update that the events call for was received: the monitor is between events. */
  predicate MonitorFree(run: seq<Action>, sent: seq<Delivery>) {
    |From(sent, Monitor)| == |Updates(Observed(run))|
  }

  /** What the participants can do next, told from the run and what was received in it. */
  predicate Allowed(cfg: Config, run: seq<Action>, sent: seq<Delivery>, running: bool, a: Action) {
    match a
    case Tick(_) => true
    case Timer => running && Elapsed(run) - LastArmed(run) >= cfg.delay
    case Accept(h) => PlaceOf(run, h) == Nowhere
    case Enter(h) => running && PlaceOf(run, h) == Waiting
    case Finish(h) => PlaceOf(run, h) == Serving
    case Leave(h) => running && PlaceOf(run, h) == Leaving
    case Observe(_) => MonitorFree(run, sent)
    case MonitorAdd => running && !MonitorFree(run, sent)
  }

  /** In every run of a living process exactly these actions are possible. */
  lemma EnabledIffAllowed(cfg: Config, run: seq<Action>, a: Action)
    requires Feasible(cfg, run) && !Exec(cfg, run).crashed && Exec(cfg, run).latch.phase != Panicked
    ensures var s := Exec(cfg, run);
            Enabled(cfg, s, a) <==> Allowed(cfg, run, s.sent, s.latch.phase == StopLatch.Running, a)
  {
    TimesFollow(cfg, run);
    MonitorDelivers(cfg, run);
    if a.Accept? || a.Enter? || a.Finish? || a.Leave? {
      ConnectionsFollow(cfg, run, a.h);
    }
  }

  // ----- what can still happen -----

  /** One action more behind run + more. */
  lemma Then(cfg: Config, run: seq<Action>, more: seq<Action>, a: Action) returns (more': seq<Action>)
    requires Feasible(cfg, run + more) && Enabled(cfg, Exec(cfg, run + more), a)
    ensures more' == more + [a] && Feasible(cfg, run + more')
    ensures Exec(cfg, run + more') == Apply(cfg, Exec(cfg, run + more), a)
  {
    more' := more + [a];
    Extend(cfg, run + more, a);
    assert run + more' == (run + more) + [a];
  }

  /** The latch runs, the process lives, and one more Add does not wrap the counter. */
  predicate HasRoom(s: State) {
    s.latch.phase == StopLatch.Running && !s.crashed && s.latch.count < WORD - 1
  }

  predicate SamePlaces(s: State, t: State) {
    t.waiting == s.waiting && t.serving == s.serving && t.leaving == s.leaving && t.tasks == s.tasks
  }

  /** Every new connection can be counted and served. */
  lemma ConnectionServed(cfg: Config, run: seq<Action>, h: nat) returns (more: seq<Action>)
    requires Feasible(cfg, run) && HasRoom(Exec(cfg, run)) && PlaceOf(run, h) == Nowhere
    ensures more == [Accept(h), Enter(h)] && Feasible(cfg, run + more)
    ensures var s, t := Exec(cfg, run), Exec(cfg, run + more);
            && t.latch == Latch(s.latch.count + 1, StopLatch.Running) && !t.crashed
            && SamePlaces(s.(serving := s.serving + {h}), t)
  {
    ConnectionsFollow(cfg, run, h);
    assert run + [] == run;
    more := Then(cfg, run, [], Accept(h));
    more := Then(cfg, run, more, Enter(h));
  }

  lemma SomeoneServed(cfg: Config, run: seq<Action>, h: nat)
    requires Feasible(cfg, run)
    requires var s := Exec(cfg, run); s.latch.phase != Panicked && s.wraps == 0 && h in s.serving
    ensures Exec(cfg, run).latch.count > 0
  {
    RunKeepsInv(cfg, run);
    MonitorOwesRepeats(cfg, Exec(cfg, run));
  }

  lemma FinishesAndLeaves(cfg: Config, s: State, h: nat)
    requires s.latch.phase == StopLatch.Running && !s.crashed && s.latch.count > 0 && IsAt(s, h, Serving)
    ensures Enabled(cfg, s, Finish(h)) && Enabled(cfg, Apply(cfg, s, Finish(h)), Leave(h))
    ensures var t := Apply(cfg, Apply(cfg, s, Finish(h)), Leave(h));
            && t.latch.count + 1 == s.latch.count && t.latch.phase == StopLatch.Running && !t.crashed
            && SamePlaces(s.(serving := s.serving - {h}), t)
  {
    assert s.leaving + {h} - {h} == s.leaving;
  }

  /** And given back, after which the latch stands where it stood. */
  lemma ConnectionGone(cfg: Config, run: seq<Action>, h: nat) returns (more: seq<Action>)
    requires Feasible(cfg, run) && Exec(cfg, run).latch.phase == StopLatch.Running && !Exec(cfg, run).crashed
    requires PlaceOf(run, h) == Serving && Exec(cfg, run).wraps == 0
    ensures more == [Finish(h), Leave(h)] && Feasible(cfg, run + more)
    ensures var s, t := Exec(cfg, run), Exec(cfg, run + more);
            && t.latch.count + 1 == s.latch.count && t.latch.phase == StopLatch.Running && !t.crashed
            && SamePlaces(s.(serving := s.serving - {h}), t)
  {
    ConnectionsFollow(cfg, run, h);
    SomeoneServed(cfg, run, h);
    FinishesAndLeaves(cfg, Exec(cfg, run), h);
    assert run + [] == run;
    more := Then(cfg, run, [], Finish(h));
    more := Then(cfg, run, more, Leave(h));
  }

  // ----- when the daemon can still stop -----

  /** The latch runs, nothing crashed and nothing wrapped. */
  predicate Running(s: State) {
    s.latch.phase == StopLatch.Running && !s.crashed && s.wraps == 0
  }

  /** Some continuation in which the counter does not wrap calls stop(). */
  ghost predicate CanStop(cfg: Config, run: seq<Action>) {
    exists more :: StopsBy(cfg, run, more)
  }

  predicate StopsBy(cfg: Config, run: seq<Action>, more: seq<Action>) {
    Feasible(cfg, run + more) && Exec(cfg, run + more).wraps == 0 && Exec(cfg, run + more).stops != []
  }

  /** What the ways down keep: the latch runs, the events had no repetition, and so the count is
      what is served, leaving and tracked. */
  ghost predicate Unwinding(cfg: Config, s: State) {
    Inv(cfg, s) && Running(s) && s.repeats == 0
  }

  lemma StepUnwinds(cfg: Config, s: State, a: Action)
    requires Unwinding(cfg, s) && Enabled(cfg, s, a)
    requires a.Finish? || a.Leave? || a.Tick? || (a.MonitorAdd? && (s.monitor.Removing? || s.latch.count < WORD - 1))
             || (a.Observe? && a.e.Deleted?)
    ensures Unwinding(cfg, Apply(cfg, s, a))
  {
    StepKeeps(cfg, s, a);
    if Moved(s, a) == -1 { CreditLeft(cfg, s, a); }
    StepRuns(cfg, s, a);
  }

  lemma CreditLeft(cfg: Config, s: State, a: Action)
    requires Inv(cfg, s) && Running(s) && Enabled(cfg, s, a) && Moved(s, a) == -1
    ensures s.latch.count > 0
  {
    MinusHasCredit(cfg, s, a);
  }

  lemma StepRuns(cfg: Config, s: State, a: Action)
    requires Running(s) && Enabled(cfg, s, a) && s.repeats == 0
    requires a.Finish? || a.Leave? || a.Tick? || a.MonitorAdd? || (a.Observe? && a.e.Deleted?)
    requires Moved(s, a) == 1 ==> s.latch.count < WORD - 1
    requires Moved(s, a) == -1 ==> s.latch.count > 0
    ensures Running(Apply(cfg, s, a)) && Apply(cfg, s, a).repeats == 0
  {}

  /** Everything served is given back. */
  lemma {:induction false} Unserve(cfg: Config, run: seq<Action>, so: seq<Action>) returns (more: seq<Action>)
    requires Feasible(cfg, run + so) && Unwinding(cfg, Exec(cfg, run + so))
    ensures Feasible(cfg, run + more) && Unwinding(cfg, Exec(cfg, run + more))
    ensures var s, t := Exec(cfg, run + so), Exec(cfg, run + more);
            t.serving == {} && t.leaving == {} && t.tasks == s.tasks && t.monitor == s.monitor
    decreases |Exec(cfg, run + so).serving|, |Exec(cfg, run + so).leaving|
  {
    var s := Exec(cfg, run + so);
    if h :| h in s.serving {
      StepUnwinds(cfg, s, Finish(h));
      more := Then(cfg, run, so, Finish(h));
      Fewer(s.serving, h);
      more := Unserve(cfg, run, more);
    } else if h :| h in s.leaving {
      StepUnwinds(cfg, s, Leave(h));
      more := Then(cfg, run, so, Leave(h));
      Fewer(s.leaving, h);
      more := Unserve(cfg, run, more);
    } else {
      more := so;
    }
  }

  lemma Fewer<T>(s: set<T>, x: T)
    requires x in s
    ensures |s - {x}| < |s|
  {}

  /** Nothing is served or leaving, and the monitor is between events. */
  predicate OnlyTasks(s: State) {
    s.serving == {} && s.leaving == {} && s.monitor.Idle?
  }

  /** A tracked task ends. */
  lemma TaskEnds(cfg: Config, run: seq<Action>, so: seq<Action>, t: Task) returns (more: seq<Action>)
    requires Feasible(cfg, run + so) && Unwinding(cfg, Exec(cfg, run + so)) && OnlyTasks(Exec(cfg, run + so))
    requires t in Exec(cfg, run + so).tasks
    ensures Feasible(cfg, run + more) && Unwinding(cfg, Exec(cfg, run + more)) && OnlyTasks(Exec(cfg, run + more))
    ensures Exec(cfg, run + more).tasks == Exec(cfg, run + so).tasks - {t}
  {
    StepUnwinds(cfg, Exec(cfg, run + so), Observe(Deleted(t)));
    more := Then(cfg, run, so, Observe(Deleted(t)));
    StepUnwinds(cfg, Exec(cfg, run + more), MonitorAdd);
    more := Then(cfg, run, more, MonitorAdd);
  }

  /** All of them do. */
  lemma {:induction false} Untrack(cfg: Config, run: seq<Action>, so: seq<Action>) returns (more: seq<Action>)
    requires Feasible(cfg, run + so) && Unwinding(cfg, Exec(cfg, run + so)) && OnlyTasks(Exec(cfg, run + so))
    ensures Feasible(cfg, run + more) && Unwinding(cfg, Exec(cfg, run + more))
    ensures Exec(cfg, run + more).latch.count == 0
    decreases |Exec(cfg, run + so).tasks|
  {
    if t :| t in Exec(cfg, run + so).tasks {
      more := TaskEnds(cfg, run, so, t);
      Fewer(Exec(cfg, run + so).tasks, t);
      more := Untrack(cfg, run, more);
    } else {
      more := so;
    }
  }

  /** The monitor's Add is received. */
  lemma Deliver(cfg: Config, run: seq<Action>, so: seq<Action>) returns (more: seq<Action>)
    requires Feasible(cfg, run + so) && Unwinding(cfg, Exec(cfg, run + so)) && |Exec(cfg, run + so).tasks| < WORD
    requires Exec(cfg, run + so).serving == {} && Exec(cfg, run + so).leaving == {}
    ensures Feasible(cfg, run + more) && Unwinding(cfg, Exec(cfg, run + more)) && OnlyTasks(Exec(cfg, run + more))
  {
    more := so;
    if !Exec(cfg, run + so).monitor.Idle? {
      StepUnwinds(cfg, Exec(cfg, run + so), MonitorAdd);
      more := Then(cfg, run, so, MonitorAdd);
    }
  }

  /** The delay passes, and the timer fires at count zero. */
  lemma FireAtZero(cfg: Config, run: seq<Action>, so: seq<Action>) returns (more: seq<Action>)
    requires Feasible(cfg, run + so) && Unwinding(cfg, Exec(cfg, run + so)) && Exec(cfg, run + so).latch.count == 0
    ensures StopsBy(cfg, run, more)
  {
    more := Then(cfg, run, so, Tick(if cfg.delay > 0 then cfg.delay else 0));
    more := Then(cfg, run, more, Timer);
  }

  lemma StopNow(cfg: Config, run: seq<Action>) returns (more: seq<Action>)
    requires Feasible(cfg, run) && Running(Exec(cfg, run))
    requires Repeats(Observed(run)) == 0 && |Exec(cfg, run).tasks| < WORD
    ensures StopsBy(cfg, run, more)
  {
    RunKeepsInv(cfg, run);
    RunFollows(cfg, run);
    assert run + [] == run;
    more := Unserve(cfg, run, []);
    more := Deliver(cfg, run, more);
    more := Untrack(cfg, run, more);
    more := FireAtZero(cfg, run, more);
  }

  // ----- and when not -----

  lemma {:induction false} WrapsGrow(cfg: Config, run: seq<Action>, more: seq<Action>)
    requires Feasible(cfg, run + more)
    ensures Feasible(cfg, run) && Exec(cfg, run).wraps <= Exec(cfg, run + more).wraps
    decreases |more|
  {
    if more == [] {
      assert run + more == run;
    } else {
      var n := |more| - 1;
      assert (run + more)[..|run + more| - 1] == run + more[..n];
      WrapsGrow(cfg, run, more[..n]);
    }
  }

  /** 2^64 tasks, the last of them not yet counted: only an Add that wraps the counter can be
      received. */
  ghost predicate Full(s: State) {
    Running(s) && s.monitor.Adding? && |s.tasks| >= WORD
  }

  lemma FullCount(cfg: Config, s: State)
    requires Inv(cfg, s) && Full(s)
    ensures s.latch.count == WORD - 1 && s.serving == {} && s.leaving == {} && s.stops == []
  {}

  lemma FullStep(cfg: Config, s: State, a: Action)
    requires Inv(cfg, s) && Full(s) && Enabled(cfg, s, a)
    ensures Full(Apply(cfg, s, a)) || Apply(cfg, s, a).wraps > 0
  {
    FullCount(cfg, s);
  }

  lemma {:induction false} FullStays(cfg: Config, run: seq<Action>, more: seq<Action>)
    requires Feasible(cfg, run) && Full(Exec(cfg, run))
    requires Feasible(cfg, run + more) && Exec(cfg, run + more).wraps == 0
    ensures Full(Exec(cfg, run + more)) && Exec(cfg, run + more).stops == []
    decreases |more|
  {
    if more == [] {
      assert run + more == run;
    } else {
      var n := |more| - 1;
      assert (run + more)[..|run + more| - 1] == run + more[..n];
      WrapsGrow(cfg, run + more[..n], [more[n]]);
      assert run + more[..n] + [more[n]] == run + more;
      FullStays(cfg, run, more[..n]);
      RunKeepsInv(cfg, run + more[..n]);
      FullStep(cfg, Exec(cfg, run + more[..n]), more[n]);
    }
    RunKeepsInv(cfg, run + more);
    FullCount(cfg, Exec(cfg, run + more));
  }

  lemma TooManyTasks(cfg: Config, s: State)
    requires Inv(cfg, s) && Running(s) && |s.tasks| >= WORD
    ensures Full(s)
  {}

  lemma NeverStops(cfg: Config, run: seq<Action>, more: seq<Action>)
    requires Feasible(cfg, run) && Running(Exec(cfg, run))
    requires Repeats(Observed(run)) > 0 || |Exec(cfg, run).tasks| >= WORD
    ensures !StopsBy(cfg, run, more)
  {
    if Feasible(cfg, run + more) && Exec(cfg, run + more).wraps == 0 {
      assert (run + more)[..|run|] == run;
      if Repeats(Observed(run)) > 0 {
        RepeatPinsLatch(cfg, run + more, |run|);
      } else {
        RunKeepsInv(cfg, run);
        TooManyTasks(cfg, Exec(cfg, run));
        FullStays(cfg, run, more);
      }
    }
  }

  /** From every reachable state in which the latch runs, the daemon can still stop on idle,
      short of a wrap of the counter, exactly when no observed start event repeated a tracked
      task and there are fewer than 2^64 tasks. */
  lemma CanStopIff(cfg: Config, run: seq<Action>)
    requires Feasible(cfg, run) && Running(Exec(cfg, run))
    ensures CanStop(cfg, run) <==> Repeats(Observed(run)) == 0 && |Exec(cfg, run).tasks| < WORD
  {
    if Repeats(Observed(run)) == 0 && |Exec(cfg, run).tasks| < WORD {
      var more := StopNow(cfg, run);
    } else {
      forall more ensures !StopsBy(cfg, run, more) { NeverStops(cfg, run, more); }
    }
  }
}
