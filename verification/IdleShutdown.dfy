/** The idle-shutdown protocol: connection handlers (internal/host/vmguest.go), the
    containerd monitor (internal/host/containerd.go) and the latch goroutine
    (internal/host/stop.go) meeting on one rendezvous channel, under virtual time. */
module IdleShutdown {
  import opened StopLatch
  import opened ContainerdMonitor

  /** delay is the idle timeout; made is whether the monitor's task set was allocated. */
  datatype Config = Config(delay: int, made: bool)

  datatype Who = Handler(id: nat) | Monitor

  datatype Delivery = Delivery(who: Who, add: int)

  /** Where the monitor is: between events, or blocked in an Add. */
  datatype MonitorPc = Idle | Adding | Removing(task: Task)

  /** One call of stop(), with the state it was made in. */
  datatype Stop = Stop(at: int, count: int, lastAdd: int)

  datatype State = State(
    latch: Latch,
    now: int,
    armed: int,            // when the current timer was started
    waiting: set<nat>,     // accepted handlers blocked in Add(1)
    serving: set<nat>,     // handlers copying data
    leaving: set<nat>,     // handlers blocked in Add(-1)
    tasks: set<Task>,
    monitor: MonitorPc,
    crashed: bool,         // assignment to an entry of a nil map
    seen: seq<Select>,     // everything the latch goroutine observed
    sent: seq<Delivery>,   // every Add that was received, with its sender
    lastAdd: int,          // when the last of them was received
    wraps: nat,            // how often the counter passed 2^64
    repeats: nat,          // start events for a task already tracked
    stops: seq<Stop>)

  datatype Action =
    | Tick(dt: nat)
    | Timer
    | Accept(h: nat)
    | Enter(h: nat)          // the latch receives the handler's Add(1)
    | Finish(h: nat)         // the copy ended or the dial failed
    | Leave(h: nat)          // the latch receives the handler's Add(-1)
    | Observe(e: Event)      // the monitor handles a listed task or an event
    | MonitorAdd             // the latch receives the monitor's Add

  function Init(): State {
    State(Latch(0, Running), 0, 0, {}, {}, {}, {}, Idle, false, [], [], 0, 0, 0, [])
  }

  predicate Enabled(cfg: Config, s: State, a: Action) {
    && !s.crashed
    && s.latch.phase != Panicked
    && match a
       case Tick(_) => true
       case Timer => s.latch.phase == Running && s.now - s.armed >= cfg.delay
       case Accept(h) => h !in s.waiting + s.serving + s.leaving
       case Enter(h) => s.latch.phase == Running && h in s.waiting
       case Finish(h) => h in s.serving
       case Leave(h) => s.latch.phase == Running && h in s.leaving
       case Observe(_) => s.monitor == Idle
       case MonitorAdd => s.latch.phase == Running && s.monitor != Idle
  }

  /** The latch goroutine receives an Add and re-arms its timer. */
  function Receive(s: State, who: Who, add: int64): State {
    s.(latch := Step(s.latch, Received(add)),
       wraps := s.wraps + if s.latch.count + add >= WORD then 1 else 0,
       seen := s.seen + [Received(add)],
       sent := s.sent + [Delivery(who, add)],
       armed := s.now,
       lastAdd := s.now)
  }

  function Apply(cfg: Config, s: State, a: Action): State
    requires Enabled(cfg, s, a)
  {
    match a
    case Tick(dt) => s.(now := s.now + dt)
    case Timer =>
      var s' := s.(latch := Step(s.latch, TimerFired), seen := s.seen + [TimerFired], armed := s.now);
      if s'.latch.phase == Stopped
      then s'.(stops := s.stops + [Stop(s.now, s.latch.count, s.lastAdd)])
      else s'
    case Accept(h) => s.(waiting := s.waiting + {h})
    case Enter(h) => Receive(s, Handler(h), 1).(waiting := s.waiting - {h}, serving := s.serving + {h})
    case Finish(h) => s.(serving := s.serving - {h}, leaving := s.leaving + {h})
    case Leave(h) => Receive(s, Handler(h), -1).(leaving := s.leaving - {h})
    case Observe(e) =>
      (match React(cfg.made, s.tasks, e)
       case Ignore => s
       case Crash => s.(crashed := true)
       case Track(repeat) =>
         s.(tasks := s.tasks + {e.task}, monitor := Adding,
            repeats := s.repeats + if repeat then 1 else 0)
       case Untrack => s.(monitor := Removing(e.task)))
    case MonitorAdd =>
      if s.monitor.Adding? then Receive(s, Monitor, 1).(monitor := Idle)
      else Receive(s, Monitor, -1).(tasks := s.tasks - {s.monitor.task}, monitor := Idle)
  }

  /** Every action of the run was enabled when it was taken. */
  predicate Feasible(cfg: Config, run: seq<Action>)
    decreases |run|, 0
  {
    run == [] ||
    (Feasible(cfg, run[..|run| - 1]) && Enabled(cfg, Exec(cfg, run[..|run| - 1]), run[|run| - 1]))
  }

  function Exec(cfg: Config, run: seq<Action>): State
    requires Feasible(cfg, run)
    decreases |run|, 1
  {
    if run == [] then Init() else Apply(cfg, Exec(cfg, run[..|run| - 1]), run[|run| - 1])
  }

  // ----- what is counted -----

  function Total(sent: seq<Delivery>): int {
    if sent == [] then 0 else Total(sent[..|sent| - 1]) + sent[|sent| - 1].add
  }

  /** The net sum of the Adds received from one sender. */
  function CreditOf(sent: seq<Delivery>, who: Who): int {
    if sent == [] then 0
    else
      var d := sent[|sent| - 1];
      CreditOf(sent[..|sent| - 1], who) + if d.who == who then d.add else 0
  }

  function InFlight(s: State): nat {
    if s.monitor.Adding? then 1 else 0
  }

  function MonitorCredit(s: State): int {
    |s.tasks| + s.repeats - InFlight(s)
  }

  /** Delivered Adds that are not yet given back. */
  function Live(s: State): int {
    |s.serving| + |s.leaving| + MonitorCredit(s)
  }

  /** Who holds what: handlers are at one place, the monitor's pending task is tracked. */
  ghost predicate Placed(cfg: Config, s: State) {
    && s.waiting !! s.serving && s.waiting !! s.leaving && s.serving !! s.leaving
    && (s.monitor.Removing? ==> s.monitor.task in s.tasks)
    && (s.monitor.Adding? ==> s.tasks != {})
    && (!cfg.made ==> s.tasks == {} && s.monitor == Idle && s.repeats == 0)
  }

  /** Every sender's net credit is what the protocol state says. */
  ghost predicate Credited(s: State) {
    && Total(s.sent) == Live(s)
    && Owes(s.sent, s.serving + s.leaving, MonitorCredit(s))
  }

  /** The handlers in `on` have one Add to give back, all others none, the monitor m. */
  ghost predicate Owes(sent: seq<Delivery>, on: set<nat>, m: int) {
    && CreditOf(sent, Monitor) == m
    && forall h: nat :: CreditOf(sent, Handler(h)) == if h in on then 1 else 0
  }

  ghost predicate Counted(s: State) {
    && s.latch == After(s.seen)
    && s.latch.phase != Closed
    && Total(s.sent) == StopLatch.Sum(s.seen)
    && (s.latch.phase != Panicked ==> Live(s) == s.latch.count + s.wraps * WORD)
  }

  ghost predicate Timed(cfg: Config, s: State) {
    && s.lastAdd <= s.armed <= s.now
    && |s.stops| == (if s.latch.phase == Stopped then 1 else 0)
    && forall k :: k in s.stops ==> k.count == 0 && k.at - k.lastAdd >= cfg.delay && k.lastAdd == s.lastAdd
  }

  ghost predicate Inv(cfg: Config, s: State) {
    Placed(cfg, s) && Credited(s) && Counted(s) && Timed(cfg, s)
  }

  lemma CreditGrows(sent: seq<Delivery>, d: Delivery, who: Who)
    ensures Total(sent + [d]) == Total(sent) + d.add
    ensures CreditOf(sent + [d], who) == CreditOf(sent, who) + if d.who == who then d.add else 0
  {
    assert (sent + [d])[..|sent|] == sent;
  }

  lemma SeenGrows(seen: seq<Select>, e: Select)
    ensures StopLatch.Sum(seen + [e]) == StopLatch.Sum(seen) + AddOf(e)
    ensures After(seen + [e]) == Step(After(seen), e)
  {
    assert (seen + [e])[..|seen|] == seen;
  }

  lemma HandlerOwes(sent: seq<Delivery>, on: set<nat>, m: int, h: nat, add: int)
    requires Owes(sent, on, m) && add == (if h in on then -1 else 1)
    ensures Owes(sent + [Delivery(Handler(h), add)], if h in on then on - {h} else on + {h}, m)
  {
    forall w: Who { CreditGrows(sent, Delivery(Handler(h), add), w); }
  }

  lemma MonitorOwes(sent: seq<Delivery>, on: set<nat>, m: int, add: int)
    requires Owes(sent, on, m)
    ensures Owes(sent + [Delivery(Monitor, add)], on, m + add)
  {
    forall w: Who { CreditGrows(sent, Delivery(Monitor, add), w); }
  }

  /** How one action moves the live total. */
  function Moved(s: State, a: Action): int {
    match a
    case Enter(_) => 1
    case Leave(_) => -1
    case MonitorAdd => if s.monitor.Adding? then 1 else -1
    case _ => 0
  }

  lemma ReceiveCounted(s: State, who: Who, add: int64)
    requires Counted(s) && s.latch.phase == Running && -1 <= add <= 1
    ensures var s' := Receive(s, who, add);
            && s'.latch == After(s'.seen)
            && Total(s'.sent) == StopLatch.Sum(s'.seen)
            && (s'.latch.phase == Running || (s'.latch.phase == Panicked && s.latch.count == 0 && add == -1))
            && (s'.latch.phase == Running ==> Live(s) + add == s'.latch.count + s'.wraps * WORD)
  {
    SeenGrows(s.seen, Received(add));
    CreditGrows(s.sent, Delivery(who, add), who);
  }

  lemma EnterPlaced(cfg: Config, s: State, h: nat)
    requires Placed(cfg, s) && Enabled(cfg, s, Enter(h))
    ensures Placed(cfg, Apply(cfg, s, Enter(h))) && Live(Apply(cfg, s, Enter(h))) == Live(s) + 1
  {}

  lemma EnterCredited(cfg: Config, s: State, h: nat)
    requires Credited(s) && Enabled(cfg, s, Enter(h)) && h !in s.serving + s.leaving
    requires Live(Apply(cfg, s, Enter(h))) == Live(s) + 1
    ensures Credited(Apply(cfg, s, Enter(h)))
  {
    var on := s.serving + s.leaving;
    HandlerOwes(s.sent, on, MonitorCredit(s), h, 1);
    CreditGrows(s.sent, Delivery(Handler(h), 1), Monitor);
    assert (s.serving + {h}) + s.leaving == on + {h};
  }

  lemma EnterKeeps(cfg: Config, s: State, h: nat)
    requires Inv(cfg, s) && Enabled(cfg, s, Enter(h))
    ensures Inv(cfg, Apply(cfg, s, Enter(h))) && Live(Apply(cfg, s, Enter(h))) == Live(s) + 1
  {
    EnterPlaced(cfg, s, h);
    EnterCredited(cfg, s, h);
    ReceiveCounted(s, Handler(h), 1);
  }

  lemma FinishPlaced(cfg: Config, s: State, h: nat)
    requires Placed(cfg, s) && Enabled(cfg, s, Finish(h))
    ensures Placed(cfg, Apply(cfg, s, Finish(h))) && Live(Apply(cfg, s, Finish(h))) == Live(s)
  {}

  lemma FinishKeeps(cfg: Config, s: State, h: nat)
    requires Inv(cfg, s) && Enabled(cfg, s, Finish(h))
    ensures Inv(cfg, Apply(cfg, s, Finish(h))) && Live(Apply(cfg, s, Finish(h))) == Live(s)
  {
    FinishPlaced(cfg, s, h);
    assert (s.serving - {h}) + (s.leaving + {h}) == s.serving + s.leaving;
  }

  lemma LeavePlaced(cfg: Config, s: State, h: nat)
    requires Placed(cfg, s) && Enabled(cfg, s, Leave(h))
    ensures Placed(cfg, Apply(cfg, s, Leave(h))) && Live(Apply(cfg, s, Leave(h))) == Live(s) - 1
  {}

  lemma LeaveKeeps(cfg: Config, s: State, h: nat)
    requires Inv(cfg, s) && Enabled(cfg, s, Leave(h))
    ensures Inv(cfg, Apply(cfg, s, Leave(h))) && Live(Apply(cfg, s, Leave(h))) == Live(s) - 1
  {
    var on := s.serving + s.leaving;
    LeavePlaced(cfg, s, h);
    ReceiveCounted(s, Handler(h), -1);
    HandlerOwes(s.sent, on, MonitorCredit(s), h, -1);
    CreditGrows(s.sent, Delivery(Handler(h), -1), Monitor);
    assert s.serving + (s.leaving - {h}) == on - {h};
  }

  lemma ObservePlaced(cfg: Config, s: State, e: Event)
    requires Placed(cfg, s) && Enabled(cfg, s, Observe(e))
    ensures Placed(cfg, Apply(cfg, s, Observe(e)))
    ensures MonitorCredit(Apply(cfg, s, Observe(e))) == MonitorCredit(s)
  {
    if !e.Other? && e.task in s.tasks {
      assert s.tasks + {e.task} == s.tasks;
    }
  }

  lemma ObserveKeeps(cfg: Config, s: State, e: Event)
    requires Inv(cfg, s) && Enabled(cfg, s, Observe(e))
    ensures Inv(cfg, Apply(cfg, s, Observe(e))) && Live(Apply(cfg, s, Observe(e))) == Live(s)
  {
    ObservePlaced(cfg, s, e);
  }

  lemma MonitorAddPlaced(cfg: Config, s: State)
    requires Placed(cfg, s) && Enabled(cfg, s, MonitorAdd)
    ensures Placed(cfg, Apply(cfg, s, MonitorAdd))
    ensures MonitorCredit(Apply(cfg, s, MonitorAdd)) == MonitorCredit(s) + Moved(s, MonitorAdd) >= 0
  {
    if s.monitor.Removing? {
      assert s.tasks == (s.tasks - {s.monitor.task}) + {s.monitor.task};
    }
  }

  lemma MonitorAddKeeps(cfg: Config, s: State)
    requires Inv(cfg, s) && Enabled(cfg, s, MonitorAdd)
    ensures Inv(cfg, Apply(cfg, s, MonitorAdd))
    ensures Live(Apply(cfg, s, MonitorAdd)) == Live(s) + Moved(s, MonitorAdd) >= 0
  {
    var add := Moved(s, MonitorAdd);
    ReceiveCounted(s, Monitor, add);
    MonitorOwes(s.sent, s.serving + s.leaving, MonitorCredit(s), add);
    CreditGrows(s.sent, Delivery(Monitor, add), Monitor);
    MonitorAddPlaced(cfg, s);
  }

  lemma TimerTimed(cfg: Config, s: State)
    requires Timed(cfg, s) && Enabled(cfg, s, Timer)
    ensures Timed(cfg, Apply(cfg, s, Timer))
  {
    assert s.stops == [];
  }

  lemma TimerKeeps(cfg: Config, s: State)
    requires Inv(cfg, s) && Enabled(cfg, s, Timer)
    ensures Inv(cfg, Apply(cfg, s, Timer)) && Live(Apply(cfg, s, Timer)) == Live(s)
  {
    SeenGrows(s.seen, TimerFired);
    TimerTimed(cfg, s);
  }

  lemma QuietKeeps(cfg: Config, s: State, a: Action)
    requires Inv(cfg, s) && Enabled(cfg, s, a) && (a.Tick? || a.Accept?)
    ensures Inv(cfg, Apply(cfg, s, a)) && Live(Apply(cfg, s, a)) == Live(s)
  {}

  lemma StepKeeps(cfg: Config, s: State, a: Action)
    requires Inv(cfg, s) && Enabled(cfg, s, a)
    ensures Inv(cfg, Apply(cfg, s, a)) && Live(Apply(cfg, s, a)) == Live(s) + Moved(s, a)
  {
    match a
    case Enter(h) => EnterKeeps(cfg, s, h);
    case Finish(h) => FinishKeeps(cfg, s, h);
    case Leave(h) => LeaveKeeps(cfg, s, h);
    case Observe(e) => ObserveKeeps(cfg, s, e);
    case MonitorAdd => MonitorAddKeeps(cfg, s);
    case Timer => TimerKeeps(cfg, s);
    case _ => QuietKeeps(cfg, s, a);
  }

  lemma MinusHasCredit(cfg: Config, s: State, a: Action)
    requires Placed(cfg, s) && Enabled(cfg, s, a) && Moved(s, a) == -1
    ensures Live(s) >= 1
  {
    MonitorOwesRepeats(cfg, s);
    if a.Leave? {
      assert s.leaving != {};
    } else {
      assert s.tasks != {};
    }
  }

  /** The monitor always holds a credit for each repeated start, even with one in flight. */
  lemma MonitorOwesRepeats(cfg: Config, s: State)
    requires Placed(cfg, s)
    ensures MonitorCredit(s) >= s.repeats
  {}

  lemma PanicsOnZero(cfg: Config, s: State, a: Action)
    requires Enabled(cfg, s, a)
    ensures Apply(cfg, s, a).latch.phase == Panicked <==> Moved(s, a) == -1 && s.latch.count == 0
  {}

  /** A received Add(-1) takes the panic branch exactly when the wrapped count is zero,
      that is, when the live total is a positive multiple of 2^64. */
  lemma PanicsIff(cfg: Config, s: State, a: Action)
    requires Inv(cfg, s) && Enabled(cfg, s, a)
    ensures Apply(cfg, s, a).latch.phase == Panicked <==>
            Moved(s, a) == -1 && exists k: nat :: k >= 1 && Live(s) == k * WORD
  {
    PanicsOnZero(cfg, s, a);
    if Moved(s, a) == -1 {
      MinusHasCredit(cfg, s, a);
      assert Live(s) == s.latch.count + s.wraps * WORD;
    }
  }

  lemma {:induction false} RunKeepsInv(cfg: Config, run: seq<Action>)
    requires Feasible(cfg, run)
    ensures Inv(cfg, Exec(cfg, run))
  {
    if run != [] {
      RunKeepsInv(cfg, run[..|run| - 1]);
      StepKeeps(cfg, Exec(cfg, run[..|run| - 1]), run[|run| - 1]);
    }
  }

  // ----- what holds over every run -----

  /** The daemon's "negative count" panic cannot happen before 2^64 Adds are outstanding
      at once, whatever the interleaving, the listing and the events. */
  lemma {:induction false} NoUnderflow(cfg: Config, run: seq<Action>)
    requires Feasible(cfg, run) && Exec(cfg, run).latch.phase == Panicked
    ensures exists k: nat :: k < |run| && Feasible(cfg, run[..k]) && Live(Exec(cfg, run[..k])) >= WORD
  {
    var pre := run[..|run| - 1];
    RunKeepsInv(cfg, pre);
    var s := Exec(cfg, pre);
    var a := run[|run| - 1];
    PanicsIff(cfg, s, a);
    assert run[..|run| - 1] == pre;
  }

  /** The latch agrees with the loop of StopLatch.Run on what it saw, its count is the sum
      of the delivered Adds, and no sender ever has given back more than it took. */
  lemma CountIsDelivered(cfg: Config, run: seq<Action>)
    requires Feasible(cfg, run)
    ensures var s := Exec(cfg, run);
            && s.latch == After(s.seen)
            && (s.latch.phase != Panicked ==> Total(s.sent) == s.latch.count + s.wraps * WORD)
            && CreditOf(s.sent, Monitor) == |s.tasks| + s.repeats - InFlight(s) >= 0
            && forall h: nat :: 0 <= CreditOf(s.sent, Handler(h)) <= 1
  {
    RunKeepsInv(cfg, run);
  }

  // ----- the events the monitor received -----

  /** The listed tasks and events of a run, in the order the monitor met them. */
  function Observed(run: seq<Action>): seq<Event> {
    if run == [] then []
    else
      var a := run[|run| - 1];
      Observed(run[..|run| - 1]) + if a.Observe? then [a.e] else []
  }

  /** The task set and the over-count, as the events up to now determine them. The task whose
      Add(-1) is in flight is still in the set. */
  ghost predicate Follows(s: State, es: seq<Event>) {
    && s.repeats == Repeats(es)
    && (s.crashed || forall t :: t in s.tasks <==> Tracked(es, t) || s.monitor == Removing(t))
    && (s.monitor.Removing? ==> !Tracked(es, s.monitor.task))
  }

  lemma ObserveFollows(cfg: Config, s: State, es: seq<Event>, e: Event)
    requires Placed(cfg, s) && Follows(s, es) && Enabled(cfg, s, Observe(e))
    ensures Follows(Apply(cfg, s, Observe(e)), es + [e])
  {
    OneMoreEvent(es, e);
  }

  lemma OtherFollows(cfg: Config, s: State, es: seq<Event>, a: Action)
    requires Follows(s, es) && Enabled(cfg, s, a) && !a.Observe?
    ensures Follows(Apply(cfg, s, a), es)
  {}

  lemma {:induction false} RunFollows(cfg: Config, run: seq<Action>)
    requires Feasible(cfg, run)
    ensures Follows(Exec(cfg, run), Observed(run))
  {
    if run != [] {
      var pre, a := run[..|run| - 1], run[|run| - 1];
      RunFollows(cfg, pre);
      RunKeepsInv(cfg, pre);
      if a.Observe? {
        ObserveFollows(cfg, Exec(cfg, pre), Observed(pre), a.e);
      } else {
        OtherFollows(cfg, Exec(cfg, pre), Observed(pre), a);
        assert Observed(run) == Observed(pre);
      }
    }
  }

  /** The count is the tracked tasks (less the one whose Add is in flight) plus the
      connections whose Add(1) was received and Add(-1) was not, if and only if no start
      event repeated a tracked task. */
  lemma CountIsExact(cfg: Config, run: seq<Action>)
    requires Feasible(cfg, run) && Exec(cfg, run).latch.phase != Panicked && Exec(cfg, run).wraps == 0
    ensures var s := Exec(cfg, run);
            s.latch.count == |s.tasks| - InFlight(s) + |s.serving + s.leaving| <==> Repeats(Observed(run)) == 0
  {
    RunKeepsInv(cfg, run);
    RunFollows(cfg, run);
    var s := Exec(cfg, run);
    DisjointSize(s.serving, s.leaving);
  }

  /** What the set holds is what the events say, but for the task whose Add(-1) is in flight. */
  lemma TasksAreTracked(cfg: Config, run: seq<Action>)
    requires Feasible(cfg, run) && !Exec(cfg, run).crashed
    ensures var s := Exec(cfg, run);
            forall t :: t in s.tasks <==> Tracked(Observed(run), t) || s.monitor == Removing(t)
  {
    RunFollows(cfg, run);
  }

  /** Two start events for one task do it: the over-count is reachable for every task. */
  lemma RepeatedStart(cfg: Config, t: Task)
    requires cfg.made
    ensures var run := [Observe(Started(t)), MonitorAdd, Observe(Started(t)), MonitorAdd];
            && Feasible(cfg, run) && Repeats(Observed(run)) == 1
            && Exec(cfg, run).latch == Latch(2, Running) && Exec(cfg, run).tasks == {t}
  {
    var r1 := [Observe(Started(t))];
    var r2 := r1 + [MonitorAdd];
    var r3 := r2 + [Observe(Started(t))];
    Extend(cfg, [], Observe(Started(t)));
    assert [] + [Observe(Started(t))] == r1;
    Extend(cfg, r1, MonitorAdd);
    Extend(cfg, r2, Observe(Started(t)));
    Extend(cfg, r3, MonitorAdd);
    assert r3 + [MonitorAdd] == [Observe(Started(t)), MonitorAdd, Observe(Started(t)), MonitorAdd];
    RunFollows(cfg, r3 + [MonitorAdd]);
  }

  lemma DisjointSize<T>(a: set<T>, b: set<T>)
    requires a !! b
    ensures |a + b| == |a| + |b|
  {}

  /** stop() is called at most once in a run, with count zero, and only when a full delay
      has passed since the last Add was received. */
  lemma StopsOnce(cfg: Config, run: seq<Action>)
    requires Feasible(cfg, run)
    ensures var s := Exec(cfg, run);
            && |s.stops| <= 1
            && (s.stops != [] <==> s.latch.phase == Stopped)
            && forall k :: k in s.stops ==> k.count == 0 && k.at - k.lastAdd >= cfg.delay
  {
    RunKeepsInv(cfg, run);
  }

  /** Once stop() was called nothing is received any more: every later Add blocks. */
  lemma {:induction false} NothingReceivedAfterStop(cfg: Config, run: seq<Action>, k: nat)
    requires k <= |run| && Feasible(cfg, run) && Feasible(cfg, run[..k])
    requires Exec(cfg, run[..k]).latch.phase == Stopped
    ensures var s := Exec(cfg, run[..k]); var t := Exec(cfg, run);
            t.sent == s.sent && t.stops == s.stops && t.latch == s.latch && s.waiting <= t.waiting
    decreases |run|
  {
    if k == |run| {
      assert run[..k] == run;
    } else {
      var pre := run[..|run| - 1];
      assert pre[..k] == run[..k];
      NothingReceivedAfterStop(cfg, pre, k);
    }
  }

  lemma {:induction false} RepeatsGrow(cfg: Config, run: seq<Action>, k: nat)
    requires k <= |run| && Feasible(cfg, run) && Feasible(cfg, run[..k])
    ensures Exec(cfg, run[..k]).repeats <= Exec(cfg, run).repeats
    decreases |run|
  {
    if k == |run| {
      assert run[..k] == run;
    } else {
      var pre := run[..|run| - 1];
      assert pre[..k] == run[..k];
      RepeatsGrow(cfg, pre, k);
    }
  }

  lemma {:induction false} OvercountPins(cfg: Config, run: seq<Action>, k: nat)
    requires k <= |run| && Feasible(cfg, run) && Feasible(cfg, run[..k])
    requires Exec(cfg, run[..k]).repeats > 0 && Exec(cfg, run[..k]).stops == []
    requires Exec(cfg, run).wraps == 0
    ensures Exec(cfg, run).stops == []
    decreases |run|
  {
    if k == |run| {
      assert run[..k] == run;
    } else {
      var pre := run[..|run| - 1];
      assert pre[..k] == run[..k];
      OvercountPins(cfg, pre, k);
      RepeatsGrow(cfg, pre, k);
      RunKeepsInv(cfg, pre);
      CountedRepeats(cfg, Exec(cfg, pre));
      TimerMisses(cfg, Exec(cfg, pre), run[|run| - 1]);
    }
  }

  /** A repeated start pins the latch: after it the count never gets back to zero, so the
      daemon never stops on idle again, even when every task and connection is gone.
      (Short of 2^64 outstanding Adds, where the counter would wrap.) */
  lemma RepeatPinsLatch(cfg: Config, run: seq<Action>, k: nat)
    requires k <= |run| && Feasible(cfg, run) && Feasible(cfg, run[..k])
    requires Repeats(Observed(run[..k])) > 0 && Exec(cfg, run[..k]).latch.phase == Running
    requires Exec(cfg, run).wraps == 0
    ensures Exec(cfg, run).stops == []
  {
    RunFollows(cfg, run[..k]);
    RunKeepsInv(cfg, run[..k]);
    OvercountPins(cfg, run, k);
  }

  lemma CountedRepeats(cfg: Config, s: State)
    requires Inv(cfg, s) && s.wraps == 0 && s.latch.phase != Panicked && s.repeats > 0
    ensures s.latch.count > 0
  {
    MonitorOwesRepeats(cfg, s);
  }

  lemma TimerMisses(cfg: Config, s: State, a: Action)
    requires Enabled(cfg, s, a) && s.stops == [] && s.latch.count > 0
    ensures Apply(cfg, s, a).stops == []
  {}

  predicate TouchesSet(a: Action) {
    a.Observe? && NeedsMap(a.e)
  }

  lemma CrashStep(cfg: Config, s: State, a: Action)
    requires Placed(cfg, s) && Enabled(cfg, s, a)
    ensures Apply(cfg, s, a).crashed <==> !cfg.made && TouchesSet(a)
  {}

  /** The shipped nil task set: the process dies exactly when the monitor meets a listed
      task or a start event; with the set allocated it never does. */
  lemma {:induction false} NilSetCrashesIff(cfg: Config, run: seq<Action>)
    requires Feasible(cfg, run)
    ensures Exec(cfg, run).crashed <==> !cfg.made && exists a :: a in run && TouchesSet(a)
  {
    if run != [] {
      var pre, a := run[..|run| - 1], run[|run| - 1];
      assert run == pre + [a];
      NilSetCrashesIff(cfg, pre);
      RunKeepsInv(cfg, pre);
      CrashStep(cfg, Exec(cfg, pre), a);
      NotCrashed(cfg, Exec(cfg, pre), a);
    }
  }

  lemma NotCrashed(cfg: Config, s: State, a: Action)
    requires Enabled(cfg, s, a)
    ensures !s.crashed
  {}

  lemma Extend(cfg: Config, run: seq<Action>, a: Action)
    requires Feasible(cfg, run) && Enabled(cfg, Exec(cfg, run), a)
    ensures Feasible(cfg, run + [a]) && Exec(cfg, run + [a]) == Apply(cfg, Exec(cfg, run), a)
  {
    assert (run + [a])[..|run + [a]| - 1] == run;
  }

  // ----- when the timer stops the daemon -----

  lemma StopsAtZero(cfg: Config, s: State)
    requires Enabled(cfg, s, Timer)
    ensures Apply(cfg, s, Timer).latch.phase == Stopped <==> s.latch.count == 0
    ensures Apply(cfg, s, Timer).waiting == s.waiting
  {}

  /** In every reachable state in which the timer can fire, it stops the daemon exactly when no
      connection is being served or closed, no task is counted, and no start was repeated.
      Accepted connections that wait in their Add(1) do not count. */
  lemma StopsIff(cfg: Config, run: seq<Action>)
    requires Feasible(cfg, run) && Enabled(cfg, Exec(cfg, run), Timer) && Exec(cfg, run).wraps == 0
    ensures var s := Exec(cfg, run);
            Apply(cfg, s, Timer).latch.phase == Stopped <==>
              s.serving == {} && s.leaving == {} && |s.tasks| == InFlight(s) && Repeats(Observed(run)) == 0
  {
    RunKeepsInv(cfg, run);
    RunFollows(cfg, run);
    var s := Exec(cfg, run);
    StopsAtZero(cfg, s);
    MonitorOwesRepeats(cfg, s);
  }

  lemma {:induction false} FeasiblePrefix(cfg: Config, run: seq<Action>, k: nat)
    requires k <= |run| && Feasible(cfg, run)
    ensures Feasible(cfg, run[..k])
    decreases |run|
  {
    if k == |run| {
      assert run[..k] == run;
    } else {
      assert run[..|run| - 1][..k] == run[..k];
      FeasiblePrefix(cfg, run[..|run| - 1], k);
    }
  }

  /** The daemon stops over an accepted connection, which then waits in its Add(1) for the
      rest of every run, exactly when the count is zero and the connection is waiting at the
      moment the timer fires. */
  lemma StopsOverWaitingIff(cfg: Config, run: seq<Action>, k: nat, h: nat)
    requires Feasible(cfg, run) && k < |run| && run[k] == Timer
    ensures Feasible(cfg, run[..k]) && Feasible(cfg, run[..k + 1])
    ensures var s := Exec(cfg, run[..k]);
            (Exec(cfg, run[..k + 1]).latch.phase == Stopped && h in s.waiting && h in Exec(cfg, run).waiting) <==>
              s.latch.count == 0 && h in s.waiting
  {
    FeasiblePrefix(cfg, run, k);
    FeasiblePrefix(cfg, run, k + 1);
    assert run[..k + 1][..k] == run[..k];
    StopsAtZero(cfg, Exec(cfg, run[..k]));
    if Exec(cfg, run[..k]).latch.count == 0 {
      NothingReceivedAfterStop(cfg, run, k + 1);
    }
  }

  /** That does happen, for every delay and connection. */
  lemma StopsOverWaitingHandler(cfg: Config, h: nat)
    requires cfg.delay >= 0
    ensures var run := [Tick(cfg.delay), Accept(h), Timer];
            && Feasible(cfg, run)
            && Exec(cfg, run).latch.phase == Stopped
            && h in Exec(cfg, run).waiting
  {
    Extend(cfg, [], Tick(cfg.delay));
    Extend(cfg, [] + [Tick(cfg.delay)], Accept(h));
    Extend(cfg, [] + [Tick(cfg.delay)] + [Accept(h)], Timer);
    assert [] + [Tick(cfg.delay)] + [Accept(h)] + [Timer] == [Tick(cfg.delay), Accept(h), Timer];
  }
}
