/** The shutdown handshake of the virtual machine: UpdateStatus and the state watcher
    (internal/host/vm_darwin.go) against Shutdown (internal/host/vmguest.go), which checks
    the status, registers on the event bus, and waits for "stopped". */
module ShutdownWakeup {
  import opened Channels
  import Bus = BusRuns

  const STATUS: TypeName := "Status"
  const STOPPING: string := "stopping"
  const STOPPED: string := "stopped"

  /** Emitter names of the two threads on the bus. */
  const SHUTDOWN: nat := 0
  const WATCHER: nat := 1

  datatype Holder = Free | ByShutdown | ByWatcher

  /** Shutdown: UpdateStatus(stopping), then check and listen under the mutex, then wait.
      Blocked is the range over a channel that was never made. */
  datatype ShutdownPc =
    | Begin | Setting | Telling | Set
    | Checking | Listening | Checked(listens: bool)
    | Waiting | Blocked | Done

  datatype WatcherPc =
    | Watching | Wants(x: string) | Locked(x: string) | Emitting(x: string) | Unlocking(x: string) | Exited

  datatype State = State(
    bus: Bus.State,
    status: string,
    holder: Holder,
    sd: ShutdownPc,
    wt: WatcherPc,
    ch: Bus.ChanId)   // Shutdown's channel, from Listening on

  datatype Action =
    | BusAction(a: Bus.Action)
    | ShutdownLock | ShutdownSet | ShutdownTold | ShutdownUnlock
    | CheckLock | Check | Listen(c: Bus.ChanId) | CheckUnlock | Receive
    | VmState(x: string)
    | StateChannelCloses
    | WatcherLock | WatcherSet | WatcherTold | WatcherUnlock

  predicate Registered(sd: ShutdownPc) {
    sd == Checked(true) || sd == Waiting || sd == Done
  }

  /** What the rest of the process may do on the bus meanwhile: anything but cancelling it,
      emitting a status, or using Shutdown's private channel. */
  predicate Foreign(s: State, a: Bus.Action) {
    && !a.Cancel?
    && (a.Start? ==> a.typ != STATUS && a.p != SHUTDOWN && a.p != WATCHER)
    && (a.End? ==> a.p != SHUTDOWN && a.p != WATCHER)
    && (Registered(s.sd) && (a.Register? || a.Unregister? || a.Read? || a.Close?) ==> a.c != s.ch)
  }

  predicate Enabled(s: State, a: Action) {
    match a
    case BusAction(b) => Foreign(s, b) && Bus.Enabled(s.bus, b)
    case ShutdownLock => s.sd == Begin && s.holder == Free
    case ShutdownSet =>
      s.sd == Setting && (s.status != STOPPING ==> Bus.Enabled(s.bus, Bus.Start(SHUTDOWN, STATUS, STOPPING)))
    case ShutdownTold => s.sd == Telling && Bus.Enabled(s.bus, Bus.End(SHUTDOWN))
    case ShutdownUnlock => s.sd == Set && s.holder == ByShutdown
    case CheckLock => s.sd == Set && s.holder == Free
    case Check => s.sd == Checking
    case Listen(c) => s.sd == Listening && c !in s.bus.subs && s.bus.active == map[] && !s.bus.crashed
    case CheckUnlock => s.sd.Checked?
    case Receive => s.sd == Waiting && s.ch in s.bus.subs && Bus.Enabled(s.bus, Bus.Read(s.ch))
    case VmState(x) => s.wt == Watching && (x == STOPPING || x == STOPPED)
    case StateChannelCloses => s.wt == Watching
    case WatcherLock => s.wt.Wants? && s.holder == Free
    case WatcherSet => s.wt.Locked? && (s.status != s.wt.x ==> Bus.Enabled(s.bus, Bus.Start(WATCHER, STATUS, s.wt.x)))
    case WatcherTold => s.wt.Emitting? && Bus.Enabled(s.bus, Bus.End(WATCHER))
    case WatcherUnlock => s.wt.Unlocking?
  }

  function Apply(s: State, a: Action): State
    requires Enabled(s, a)
  {
    match a
    case BusAction(b) => s.(bus := Bus.Apply(s.bus, b))
    case ShutdownLock => s.(sd := Setting, holder := ByShutdown)
    case ShutdownSet =>
      if s.status == STOPPING then s.(sd := Set)
      else s.(sd := Telling, status := STOPPING, bus := Bus.Apply(s.bus, Bus.Start(SHUTDOWN, STATUS, STOPPING)))
    case ShutdownTold => s.(sd := Set, bus := Bus.Apply(s.bus, Bus.End(SHUTDOWN)))
    case ShutdownUnlock => s.(holder := Free)
    case CheckLock => s.(sd := Checking, holder := ByShutdown)
    case Check => s.(sd := if s.status != STOPPED then Listening else Checked(false))
    case Listen(c) =>
      var made := Bus.Apply(s.bus, Bus.Make(c, Typed(STATUS), 1));
      s.(sd := Checked(true), ch := c, bus := Bus.Apply(made, Bus.Register(c)))
    case CheckUnlock => s.(sd := if s.sd.listens then Waiting else Blocked, holder := Free)
    case Receive =>
      s.(sd := if s.bus.subs[s.ch].chan.buf[0].payload == STOPPED then Done else Waiting,
         bus := Bus.Apply(s.bus, Bus.Read(s.ch)))
    case VmState(x) => s.(wt := Wants(x))
    case StateChannelCloses => s.(wt := Exited)
    case WatcherLock => s.(wt := Locked(s.wt.x), holder := ByWatcher)
    case WatcherSet =>
      if s.status == s.wt.x then s.(wt := Unlocking(s.wt.x))
      else s.(wt := Emitting(s.wt.x), status := s.wt.x, bus := Bus.Apply(s.bus, Bus.Start(WATCHER, STATUS, s.wt.x)))
    case WatcherTold => s.(wt := Unlocking(s.wt.x), bus := Bus.Apply(s.bus, Bus.End(WATCHER)))
    case WatcherUnlock => s.(wt := if s.wt.x == STOPPED then Exited else Watching, holder := Free)
  }

  // ----- invariants -----

  /** The mutex is held by exactly the thread whose code is inside it. */
  predicate Locks(s: State) {
    && (s.sd.Setting? || s.sd.Telling? || s.sd.Checking? || s.sd.Listening? || s.sd.Checked? ==> s.holder == ByShutdown)
    && (s.holder == ByShutdown ==> !s.sd.Begin? && !s.sd.Waiting? && !s.sd.Blocked? && !s.sd.Done?)
    && (s.wt.Locked? || s.wt.Emitting? || s.wt.Unlocking? <==> s.holder == ByWatcher)
  }

  /** After Shutdown's own UpdateStatus only the watcher changes the status, to stopped,
      and then it is on its way out. */
  predicate StatusOk(s: State) {
    && (!s.wt.Watching? && !s.wt.Exited? ==> s.wt.x == STOPPING || s.wt.x == STOPPED)
    && (s.wt.Emitting? || s.wt.Unlocking? ==> s.status == s.wt.x)
    && (!s.sd.Begin? && !s.sd.Setting? ==> s.status == STOPPING || s.status == STOPPED)
    && (!s.sd.Begin? && !s.sd.Setting? && s.status == STOPPED ==>
          s.wt == Emitting(STOPPED) || s.wt == Unlocking(STOPPED) || s.wt == Exited)
    && (!s.sd.Begin? && !s.sd.Setting? && s.wt.Emitting? ==> s.status == STOPPED)
    && (s.sd.Telling? || s.sd.Listening? ==> s.status == STOPPING)
  }

  predicate EmitsStatus(b: Bus.State, p: nat) {
    p in b.active && b.active[p] < |b.emissions| && b.emissions[b.active[p]].env.typ == STATUS
  }

  /** Status events are emitted only by the two threads, inside the mutex. */
  ghost predicate EmittersOk(s: State) {
    && (forall p :: EmitsStatus(s.bus, p) ==> p == SHUTDOWN || p == WATCHER)
    && (SHUTDOWN in s.bus.active <==> s.sd.Telling?)
    && (WATCHER in s.bus.active <==> s.wt.Emitting?)
    && (s.wt.Emitting? ==> EmitsStatus(s.bus, WATCHER)
                           && s.bus.emissions[s.bus.active[WATCHER]].env.payload == s.wt.x)
  }

  /** Shutdown's channel is open, registered, and nobody else reads it. */
  ghost predicate Attached(b: Bus.State, ch: Bus.ChanId) {
    && ch in b.subs
    && b.subs[ch].chan.kind == Typed(STATUS) && b.subs[ch].chan.cap == 1 && !b.subs[ch].chan.closed
    && STATUS in b.index && ch in b.index[STATUS]
  }

  /** The watcher's emission still has to be offered to the channel. */
  predicate Owed(b: Bus.State, ch: Bus.ChanId) {
    EmitsStatus(b, WATCHER) && ch in Bus.Pending(b, WATCHER)
  }

  /** What has been put in Shutdown's channel: nothing before the change to stopped is
      sent, and exactly that event afterwards. */
  ghost predicate MailOk(s: State)
    requires s.ch in s.bus.subs
  {
    var u := s.bus.subs[s.ch];
    && u.read == (if s.sd == Done then u.got else [])
    && (s.sd == Done ==> s.status == STOPPED && !Owed(s.bus, s.ch))
    && if s.status == STOPPING || Owed(s.bus, s.ch) then u.got == []
       else |u.got| == 1 && u.got[0].payload == STOPPED
  }

  ghost predicate ChannelOk(s: State) {
    Registered(s.sd) ==>
      && Attached(s.bus, s.ch)
      && (s.wt.Emitting? && EmitsStatus(s.bus, WATCHER) ==> s.ch in s.bus.emissions[s.bus.active[WATCHER]].targets)
      && MailOk(s)
  }

  ghost predicate Inv(s: State) {
    Bus.Inv(s.bus) && Locks(s) && StatusOk(s) && EmittersOk(s) && ChannelOk(s)
  }

  ghost predicate Initial(s: State) {
    && Bus.Inv(s.bus) && s.sd == Begin && s.wt == Watching && s.holder == Free
    && SHUTDOWN !in s.bus.active && WATCHER !in s.bus.active
    && forall p :: !EmitsStatus(s.bus, p)
  }

  // ----- every action keeps them -----

  lemma ForeignBus(s: State, a: Bus.Action)
    requires Inv(s) && Foreign(s, a) && Bus.Enabled(s.bus, a)
    ensures EmittersOk(s.(bus := Bus.Apply(s.bus, a)))
  {
    var b, b' := s.bus, Bus.Apply(s.bus, a);
    forall p | EmitsStatus(b', p) ensures p == SHUTDOWN || p == WATCHER {
      if p in b.active && b.active[p] == b'.active[p] && b.active[p] < |b.emissions| {
        Bus.OldEmission(b, a, b.active[p]);
        assert EmitsStatus(b, p);
      }
    }
    if s.wt.Emitting? {
      Bus.OldEmission(b, a, b.active[WATCHER]);
    }
  }

  /** An action that neither names the channel nor sends to it leaves it as it is. */
  lemma ForeignChannel(b: Bus.State, a: Bus.Action, ch: Bus.ChanId)
    requires Bus.Inv(b) && Bus.Enabled(b, a) && Attached(b, ch) && !a.Cancel?
    requires (a.Register? || a.Unregister? || a.Read? || a.Close? || a.Send?) ==> a.c != ch
    ensures var b' := Bus.Apply(b, a); Attached(b', ch) && b'.subs[ch] == b.subs[ch]
  {
    if a.Cleanup? || a.Unregister? {
      RemoveOther(b, a.c, ch);
    } else if a.Register? {
      RegisterOther(b, a.c, ch);
    }
  }

  lemma RemoveOther(b: Bus.State, c: Bus.ChanId, ch: Bus.ChanId)
    requires c in b.subs && c != ch && Attached(b, ch)
    ensures Attached(Bus.Remove(b, c), ch) && Bus.Remove(b, c).subs == b.subs
  {
    assert ch in b.index[STATUS] - {c};
  }

  lemma RegisterOther(b: Bus.State, c: Bus.ChanId, ch: Bus.ChanId)
    requires Bus.Enabled(b, Bus.Register(c)) && Attached(b, ch)
    ensures var b' := Bus.Apply(b, Bus.Register(c)); Attached(b', ch) && b'.subs == b.subs
  {}

  /** The watcher's debt to the channel only changes by a send to it. */
  lemma ForeignDebt(b: Bus.State, a: Bus.Action, ch: Bus.ChanId)
    requires Bus.Inv(b) && Bus.Enabled(b, a) && EmitsStatus(b, WATCHER)
    requires a.End? ==> a.p != WATCHER
    requires a.Send? ==> a.c != ch
    ensures var b' := Bus.Apply(b, a);
            && EmitsStatus(b', WATCHER) && b'.active[WATCHER] == b.active[WATCHER]
            && b'.emissions[b.active[WATCHER]].targets == b.emissions[b.active[WATCHER]].targets
            && (Owed(b', ch) <==> Owed(b, ch))
  {
    Bus.OldEmission(b, a, b.active[WATCHER]);
  }

  lemma ForeignKeeps(s: State, a: Bus.Action)
    requires Inv(s) && Foreign(s, a) && Bus.Enabled(s.bus, a)
    requires Registered(s.sd) && a.Send? ==> a.c != s.ch
    ensures Inv(Apply(s, BusAction(a)))
  {
    var b, b' := s.bus, Bus.Apply(s.bus, a);
    Bus.StepKeeps(b, a);
    ForeignBus(s, a);
    if Registered(s.sd) {
      ForeignChannel(b, a, s.ch);
      if EmitsStatus(b, WATCHER) { ForeignDebt(b, a, s.ch); }
    }
  }

  /** A bus send to Shutdown's channel can only be the watcher's "stopped", and it finds
      the channel open and empty. */
  lemma SendReaches(s: State, p: nat)
    requires Inv(s) && Registered(s.sd) && Bus.Enabled(s.bus, Bus.Send(p, s.ch))
    ensures p == WATCHER && s.wt == Emitting(STOPPED) && Owed(s.bus, s.ch)
    ensures Meets(s.bus.subs[s.ch].chan) == Delivered
  {
    var b := s.bus;
    assert Bus.EmissionOk(b, b.active[p]);
    assert EmitsStatus(b, p);
    assert b.subs[s.ch].got == [];
  }

  /** The watcher's debt is paid, and its event is what the channel got. */
  lemma SendPays(b: Bus.State, ch: Bus.ChanId)
    requires Bus.Enabled(b, Bus.Send(WATCHER, ch)) && Attached(b, ch) && EmitsStatus(b, WATCHER)
    requires Meets(b.subs[ch].chan) == Delivered
    ensures var b' := Bus.Apply(b, Bus.Send(WATCHER, ch));
            && Attached(b', ch) && !Owed(b', ch) && EmitsStatus(b', WATCHER)
            && b'.active == b.active && b'.subs[ch].read == b.subs[ch].read
            && b'.emissions[b.active[WATCHER]].targets == b.emissions[b.active[WATCHER]].targets
            && b'.subs[ch].got == b.subs[ch].got + [b.emissions[b.active[WATCHER]].env]
  {}

  lemma SendKeepsChannel(s: State)
    requires Inv(s) && Registered(s.sd) && Bus.Enabled(s.bus, Bus.Send(WATCHER, s.ch))
    ensures ChannelOk(Apply(s, BusAction(Bus.Send(WATCHER, s.ch))))
  {
    SendReaches(s, WATCHER);
    SendPays(s.bus, s.ch);
  }

  lemma SendKeeps(s: State, p: nat)
    requires Inv(s) && Registered(s.sd) && Bus.Enabled(s.bus, Bus.Send(p, s.ch))
    ensures Inv(Apply(s, BusAction(Bus.Send(p, s.ch))))
  {
    SendReaches(s, p);
    Bus.StepKeeps(s.bus, Bus.Send(p, s.ch));
    ForeignBus(s, Bus.Send(p, s.ch));
    SendKeepsChannel(s);
  }

  lemma StartEmitters(b: Bus.State, p: nat, x: string)
    requires Bus.ActiveOk(b) && Bus.Enabled(b, Bus.Start(p, STATUS, x))
    ensures var b' := Bus.Apply(b, Bus.Start(p, STATUS, x));
            && (forall q :: EmitsStatus(b', q) <==> q == p || EmitsStatus(b, q))
            && (forall q :: q in b.active ==>
                  && q in b'.active && b'.active[q] == b.active[q]
                  && b'.emissions[b.active[q]] == b.emissions[b.active[q]])
            && b'.emissions[b'.active[p]].env.payload == x
            && b'.emissions[b'.active[p]].targets == Bus.Registered(b, STATUS)
            && b'.emissions[b'.active[p]].met == map[]
            && b'.subs == b.subs && b'.index == b.index && b'.active.Keys == b.active.Keys + {p}
  {}

  lemma EndEmitters(b: Bus.State, p: nat)
    requires Bus.ActiveOk(b) && Bus.Enabled(b, Bus.End(p))
    ensures var b' := Bus.Apply(b, Bus.End(p));
            && (forall q :: EmitsStatus(b', q) <==> q != p && EmitsStatus(b, q))
            && (forall q :: q in b.active && q != p ==> q in b'.active && b'.active[q] == b.active[q])
            && b'.emissions == b.emissions
            && b'.subs == b.subs && b'.index == b.index && b'.active.Keys == b.active.Keys - {p}
  {}

  lemma ShutdownSetKeeps(s: State)
    requires Inv(s) && Enabled(s, ShutdownSet)
    ensures Inv(Apply(s, ShutdownSet))
  {
    if s.status != STOPPING {
      Bus.StepKeeps(s.bus, Bus.Start(SHUTDOWN, STATUS, STOPPING));
      StartEmitters(s.bus, SHUTDOWN, STOPPING);
    }
  }

  lemma ShutdownToldKeeps(s: State)
    requires Inv(s) && Enabled(s, ShutdownTold)
    ensures Inv(Apply(s, ShutdownTold))
  {
    Bus.StepKeeps(s.bus, Bus.End(SHUTDOWN));
    EndEmitters(s.bus, SHUTDOWN);
  }

  lemma WatcherSetChannel(s: State)
    requires Inv(s) && Enabled(s, WatcherSet) && s.status != s.wt.x && Registered(s.sd)
    ensures ChannelOk(Apply(s, WatcherSet))
  {
    StartOwes(s.bus, s.wt.x, s.ch);
    assert s.status == STOPPING;
  }

  lemma StartOwes(b: Bus.State, x: string, ch: Bus.ChanId)
    requires Bus.ActiveOk(b) && Bus.Enabled(b, Bus.Start(WATCHER, STATUS, x)) && Attached(b, ch)
    ensures var b' := Bus.Apply(b, Bus.Start(WATCHER, STATUS, x));
            && Owed(b', ch) && ch in b'.emissions[b'.active[WATCHER]].targets
            && Attached(b', ch) && b'.subs == b.subs
  {
    StartEmitters(b, WATCHER, x);
    assert ch in Bus.Registered(b, STATUS);
  }

  lemma WatcherSetEmitters(s: State)
    requires EmittersOk(s) && Bus.ActiveOk(s.bus) && Enabled(s, WatcherSet) && s.status != s.wt.x
    ensures EmittersOk(Apply(s, WatcherSet))
  {
    StartEmitters(s.bus, WATCHER, s.wt.x);
  }

  lemma WatcherSetKeeps(s: State)
    requires Inv(s) && Enabled(s, WatcherSet)
    ensures Inv(Apply(s, WatcherSet))
  {
    if s.status != s.wt.x {
      Bus.StepKeeps(s.bus, Bus.Start(WATCHER, STATUS, s.wt.x));
      WatcherSetEmitters(s);
      if Registered(s.sd) { WatcherSetChannel(s); }
    } else {
      WatcherSameStatus(s);
    }
  }

  lemma WatcherSameStatus(s: State)
    requires Inv(s) && Enabled(s, WatcherSet) && s.status == s.wt.x
    ensures Inv(Apply(s, WatcherSet))
  {}

  lemma WatcherToldKeeps(s: State)
    requires Inv(s) && Enabled(s, WatcherTold)
    ensures Inv(Apply(s, WatcherTold))
  {
    Bus.StepKeeps(s.bus, Bus.End(WATCHER));
    EndEmitters(s.bus, WATCHER);
    assert !Owed(s.bus, s.ch);
  }

  lemma ListenKeeps(s: State, c: Bus.ChanId)
    requires Inv(s) && Enabled(s, Listen(c))
    ensures Inv(Apply(s, Listen(c)))
  {
    var made := Bus.Apply(s.bus, Bus.Make(c, Typed(STATUS), 1));
    Bus.StepKeeps(s.bus, Bus.Make(c, Typed(STATUS), 1));
    Bus.StepKeeps(made, Bus.Register(c));
  }

  /** There is nothing to receive but the stopped event, after which Shutdown returns. */
  lemma ReceiveIsStopped(s: State)
    requires Inv(s) && Enabled(s, Receive)
    ensures var u := s.bus.subs[s.ch];
            && u.chan.buf == u.got && |u.got| == 1 && u.got[0].payload == STOPPED
            && s.status == STOPPED && !Owed(s.bus, s.ch)
  {
    var u := s.bus.subs[s.ch];
    assert u.got == u.read + u.chan.buf == u.chan.buf;
  }

  lemma ReadBus(b: Bus.State, c: Bus.ChanId)
    requires Bus.Enabled(b, Bus.Read(c)) && |b.subs[c].chan.buf| == 1 && b.subs[c].read == []
    requires b.subs[c].got == b.subs[c].chan.buf
    ensures var b' := Bus.Apply(b, Bus.Read(c));
            && b'.active == b.active && b'.emissions == b.emissions && b'.index == b.index
            && (Attached(b, c) ==> Attached(b', c))
            && b'.subs[c].read == b'.subs[c].got == b.subs[c].got
  {}

  lemma DoneKeeps(s: State, b: Bus.State)
    requires Locks(s) && StatusOk(s) && EmittersOk(s) && s.sd == Waiting && s.status == STOPPED
    requires Attached(s.bus, s.ch) && ChannelOk(s) && !Owed(s.bus, s.ch)
    requires b.active == s.bus.active && b.emissions == s.bus.emissions && Attached(b, s.ch)
    requires b.subs[s.ch].read == b.subs[s.ch].got == s.bus.subs[s.ch].got
    ensures var s' := s.(sd := Done, bus := b); Locks(s') && StatusOk(s') && EmittersOk(s') && ChannelOk(s')
  {
    assert forall p :: EmitsStatus(b, p) <==> EmitsStatus(s.bus, p);
  }

  lemma ReceiveKeeps(s: State)
    requires Inv(s) && Enabled(s, Receive)
    ensures Inv(Apply(s, Receive)) && Apply(s, Receive).sd == Done
  {
    var b := Bus.Apply(s.bus, Bus.Read(s.ch));
    Bus.StepKeeps(s.bus, Bus.Read(s.ch));
    ReceiveIsStopped(s);
    ReadBus(s.bus, s.ch);
    DoneKeeps(s, b);
    assert Apply(s, Receive) == s.(sd := Done, bus := b);
  }

  lemma StepKeeps(s: State, a: Action)
    requires Inv(s) && Enabled(s, a)
    ensures Inv(Apply(s, a))
  {
    match a
    case BusAction(b) =>
      if Registered(s.sd) && b.Send? && b.c == s.ch { SendKeeps(s, b.p); } else { ForeignKeeps(s, b); }
    case ShutdownSet => ShutdownSetKeeps(s);
    case ShutdownTold => ShutdownToldKeeps(s);
    case WatcherSet => WatcherSetKeeps(s);
    case WatcherTold => WatcherToldKeeps(s);
    case Listen(c) => ListenKeeps(s, c);
    case Receive => ReceiveKeeps(s);
    case _ =>
  }

  // ----- runs -----

  predicate Feasible(s: State, run: seq<Action>)
    decreases |run|
  {
    run == [] || (Enabled(s, run[0]) && Feasible(Apply(s, run[0]), run[1..]))
  }

  /** The state after a run from s. */
  function Exec(s: State, run: seq<Action>): State
    requires Feasible(s, run)
    decreases |run|
  {
    if run == [] then s else Exec(Apply(s, run[0]), run[1..])
  }

  lemma {:induction false} RunKeepsInv(s: State, run: seq<Action>)
    requires Inv(s) && Feasible(s, run)
    ensures Inv(Exec(s, run))
    decreases |run|
  {
    if run != [] {
      StepKeeps(s, run[0]);
      RunKeepsInv(Apply(s, run[0]), run[1..]);
    }
  }

  /** Shutdown registered while the status was not stopped, and the watcher has since
      changed it to stopped and is out of the bus send. */
  predicate StoppedAfterListening(s: State) {
    Registered(s.sd) && s.status == STOPPED && !s.wt.Emitting?
  }

  /** No lost wakeup: in every interleaving, the change to stopped that comes after the
      registration is in Shutdown's channel, alone and unread, or was already received. */
  lemma NoLostWakeup(s0: State, run: seq<Action>)
    requires Initial(s0) && Feasible(s0, run)
    ensures var s := Exec(s0, run);
            StoppedAfterListening(s) ==>
              && s.ch in s.bus.subs
              && |s.bus.subs[s.ch].got| == 1 && s.bus.subs[s.ch].got[0].payload == STOPPED
              && (s.sd != Done ==> s.bus.subs[s.ch].chan.buf == s.bus.subs[s.ch].got)
  {
    RunKeepsInv(s0, run);
    var s := Exec(s0, run);
    if StoppedAfterListening(s) {
      var u := s.bus.subs[s.ch];
      assert u.got == u.read + u.chan.buf;
    }
  }

  /** The send itself never drops it: whenever a bus send to the channel is possible, it
      is the watcher's stopped event and it meets an open, empty channel. */
  lemma NeverDropped(s0: State, run: seq<Action>, p: nat)
    requires Initial(s0) && Feasible(s0, run)
    requires Registered(Exec(s0, run).sd) && Bus.Enabled(Exec(s0, run).bus, Bus.Send(p, Exec(s0, run).ch))
    ensures p == WATCHER && Exec(s0, run).wt == Emitting(STOPPED)
    ensures Meets(Exec(s0, run).bus.subs[Exec(s0, run).ch].chan) == Delivered
  {
    RunKeepsInv(s0, run);
    SendReaches(Exec(s0, run), p);
  }

  /** With the watcher gone, a registered Shutdown can go on exactly when the status it
      waits for was set after it registered; it then returns with the next receive. */
  lemma ReturnsIff(s0: State, run: seq<Action>)
    requires Initial(s0) && Feasible(s0, run)
    requires Exec(s0, run).sd == Waiting && Exec(s0, run).wt == Exited && !Exec(s0, run).bus.crashed
    ensures var s := Exec(s0, run);
            && (Enabled(s, Receive) <==> s.status == STOPPED)
            && (Enabled(s, Receive) ==> Apply(s, Receive).sd == Done)
  {
    RunKeepsInv(s0, run);
    ReceivesIff(Exec(s0, run));
  }

  lemma ReceivesIff(s: State)
    requires Inv(s) && s.sd == Waiting && s.wt == Exited && !s.bus.crashed
    ensures Enabled(s, Receive) <==> s.status == STOPPED
    ensures Enabled(s, Receive) ==> Apply(s, Receive).sd == Done
  {
    MailIffStopped(s);
    if Enabled(s, Receive) { ReceiveIsStopped(s); }
  }

  /** Shutdown's receive is possible exactly when the status is stopped and the watcher has made
      its send to Shutdown's channel, whether or not it is through with its other sends. */
  lemma ReceivableIff(s: State)
    requires Reachable(s) && s.sd == Waiting && !s.bus.crashed
    ensures Enabled(s, Receive) <==> s.status == STOPPED && !Owed(s.bus, s.ch)
  {
    MailIffSent(s);
  }

  lemma MailIffSent(s: State)
    requires Reachable(s) && s.sd == Waiting
    ensures s.ch in s.bus.subs && (s.bus.subs[s.ch].chan.buf != [] <==> s.status == STOPPED && !Owed(s.bus, s.ch))
  {
    ReachableInv(s);
    var u := s.bus.subs[s.ch];
    assert u.got == u.read + u.chan.buf == u.chan.buf;
  }

  lemma MailIffStopped(s: State)
    requires Inv(s) && s.sd == Waiting && s.wt == Exited
    ensures s.ch in s.bus.subs && (s.bus.subs[s.ch].chan.buf != [] <==> s.status == STOPPED)
  {
    var u := s.bus.subs[s.ch];
    assert u.got == u.read + u.chan.buf == u.chan.buf;
  }

  /** Shutdown can never return again: it ranges over a channel that was never made, or
      the watcher left before Shutdown wrote "stopping" over its "stopped". */
  predicate Stuck(s: State) {
    s.sd == Blocked || (s.sd == Waiting && s.wt == Exited && s.status != STOPPED)
  }

  lemma {:induction false} StuckForever(s: State, run: seq<Action>)
    requires Inv(s) && Stuck(s) && Feasible(s, run)
    ensures Stuck(Exec(s, run)) && Exec(s, run).sd != Done
    decreases |run|
  {
    if run != [] {
      StuckStep(s, run[0]);
      StepKeeps(s, run[0]);
      StuckForever(Apply(s, run[0]), run[1..]);
    }
  }

  lemma StuckStep(s: State, a: Action)
    requires Inv(s) && Stuck(s) && Enabled(s, a)
    ensures Stuck(Apply(s, a))
  {
    if a == Receive { ReceiveIsStopped(s); }
  }

  // ----- exactly when it gets stuck -----

  lemma Cons(s: State, a: Action, run: seq<Action>)
    requires Enabled(s, a) && Feasible(Apply(s, a), run)
    ensures Feasible(s, [a] + run) && Exec(s, [a] + run) == Exec(Apply(s, a), run)
  {
    assert ([a] + run)[1..] == run;
  }

  lemma FirstOf(s: State, r1: seq<Action>, r2: seq<Action>)
    requires r1 != [] && Enabled(s, r1[0]) && Feasible(Apply(s, r1[0]), r1[1..] + r2)
    ensures Feasible(s, r1 + r2) && Exec(s, r1 + r2) == Exec(Apply(s, r1[0]), r1[1..] + r2)
  {
    assert (r1 + r2)[1..] == r1[1..] + r2;
  }

  lemma {:induction false} Concat(s: State, r1: seq<Action>, r2: seq<Action>)
    requires Feasible(s, r1) && Feasible(Exec(s, r1), r2)
    ensures Feasible(s, r1 + r2) && Exec(s, r1 + r2) == Exec(Exec(s, r1), r2)
    decreases |r1|
  {
    if r1 == [] {
      assert r1 + r2 == r2;
    } else {
      Concat(Apply(s, r1[0]), r1[1..], r2);
      FirstOf(s, r1, r2);
    }
  }

  /** A run and one action more. */
  lemma Then(s: State, run: seq<Action>, a: Action)
    requires Feasible(s, run) && Enabled(Exec(s, run), a)
    ensures Feasible(s, run + [a]) && Exec(s, run + [a]) == Apply(Exec(s, run), a)
  {
    One(Exec(s, run), a);
    Concat(s, run, [a]);
  }

  lemma One(s: State, a: Action)
    requires Enabled(s, a)
    ensures Feasible(s, [a]) && Exec(s, [a]) == Apply(s, a)
  {
    assert [a][1..] == [];
  }

  lemma Three(s: State, a: Action, b: Action, c: Action)
    requires Enabled(s, a) && Enabled(Apply(s, a), b) && Enabled(Apply(Apply(s, a), b), c)
    ensures Feasible(s, [a, b, c]) && Exec(s, [a, b, c]) == Apply(Apply(Apply(s, a), b), c)
  {
    One(s, a);
    One(Apply(s, a), b);
    One(Apply(Apply(s, a), b), c);
    Concat(s, [a], [b]);
    Concat(s, [a] + [b], [c]);
    assert [a, b, c] == [a] + [b] + [c];
  }

  /** s comes up in some run of the process. */
  ghost predicate Reachable(s: State) {
    exists s0, run :: Initial(s0) && Feasible(s0, run) && s == Exec(s0, run)
  }

  lemma ReachableInv(s: State)
    requires Reachable(s)
    ensures Inv(s)
  {
    var s0, run :| Initial(s0) && Feasible(s0, run) && s == Exec(s0, run);
    RunKeepsInv(s0, run);
  }

  lemma ReachableRun(s: State, more: seq<Action>)
    requires Reachable(s) && Feasible(s, more)
    ensures Reachable(Exec(s, more))
  {
    var s0, run :| Initial(s0) && Feasible(s0, run) && s == Exec(s0, run);
    Concat(s0, run, more);
  }

  lemma ReachableStep(s: State, a: Action)
    requires Reachable(s) && Enabled(s, a)
    ensures Reachable(Apply(s, a))
  {
    One(s, a);
    ReachableRun(s, [a]);
  }

  /** Everything but the bus is the same, and the process lives. */
  predicate BusOnly(s: State, t: State) {
    t == s.(bus := t.bus) && t.bus.crashed == s.bus.crashed
  }

  /** A goroutine in the middle of an Emit can always make the rest of its sends. */
  lemma {:induction false} FinishSends(s: State, p: nat) returns (run: seq<Action>)
    requires Reachable(s) && !s.bus.crashed && p in s.bus.active && s.bus.active[p] < |s.bus.emissions|
    ensures forall a :: a in run ==> a.BusAction?
    ensures Feasible(s, run) && BusOnly(s, Exec(s, run)) && Exec(s, run).bus.active == s.bus.active
    ensures p in Exec(s, run).bus.active && Exec(s, run).bus.active[p] < |Exec(s, run).bus.emissions|
    ensures Bus.Pending(Exec(s, run).bus, p) == {}
    decreases |Bus.Pending(s.bus, p)|
  {
    run := [];
    ReachableInv(s);
    if Bus.Pending(s.bus, p) != {} {
      var c := Bus.NextTarget(s.bus, p);
      var a := BusAction(Bus.Send(p, c));
      var t := Apply(s, a);
      ReachableStep(s, a);
      Bus.SendsOne(s.bus, p, c);
      run := FinishSends(t, p);
      Cons(s, a, run);
      run := [a] + run;
    }
  }

  /** And leave. */
  lemma Depart(s: State, p: nat) returns (run: seq<Action>)
    requires Reachable(s) && s.sd.Listening? && !s.bus.crashed && p in s.bus.active
    ensures forall a :: a in run ==> a.BusAction?
    ensures Feasible(s, run) && BusOnly(s, Exec(s, run)) && Exec(s, run).bus.active == s.bus.active - {p}
  {
    ReachableInv(s);
    run := FinishSends(s, p);
    ReachableRun(s, run);
    EndOne(Exec(s, run), p);
    One(Exec(s, run), BusAction(Bus.End(p)));
    Concat(s, run, [BusAction(Bus.End(p))]);
    run := run + [BusAction(Bus.End(p))];
  }

  /** So while Shutdown holds the mutex all emitters can leave the bus. */
  lemma {:induction false} Drain(s: State) returns (run: seq<Action>)
    requires Reachable(s) && s.sd.Listening? && !s.bus.crashed
    ensures forall a :: a in run ==> a.BusAction?
    ensures Feasible(s, run) && BusOnly(s, Exec(s, run)) && Exec(s, run).bus.active == map[]
    decreases |s.bus.active|
  {
    run := [];
    if s.bus.active != map[] {
      var p :| p in s.bus.active;
      run := Depart(s, p);
      ReachableRun(s, run);
      Bus.Smaller(s.bus.active, p);
      var more := Drain(Exec(s, run));
      Concat(s, run, more);
      run := run + more;
    }
  }

  lemma EndOne(s: State, p: nat)
    requires Reachable(s) && s.sd.Listening? && !s.bus.crashed
    requires p in s.bus.active && s.bus.active[p] < |s.bus.emissions| && Bus.Pending(s.bus, p) == {}
    ensures var a := BusAction(Bus.End(p));
            && Enabled(s, a) && Reachable(Apply(s, a)) && BusOnly(s, Apply(s, a))
            && Apply(s, a).bus.active == s.bus.active - {p}
  {
    ReachableInv(s);
    ReachableStep(s, BusAction(Bus.End(p)));
  }

  lemma {:induction false} Unused(ids: set<Bus.ChanId>) returns (c: Bus.ChanId)
    ensures forall x :: x in ids ==> x < c
    decreases ids
  {
    c := 0;
    if ids != {} {
      var x :| x in ids;
      c := Unused(ids - {x});
      c := if c > x then c else x + 1;
      forall y | y in ids ensures y < c {
        if y != x { assert y in ids - {x}; }
      }
    }
  }

  /** From a check that does not see "stopped", Shutdown can register and begin to wait. */
  lemma Register(s: State) returns (run: seq<Action>)
    requires Reachable(s) && s.sd.Checking? && s.status != STOPPED && !s.bus.crashed
    ensures StateChannelCloses !in run && Feasible(s, run)
    ensures var t := Exec(s, run);
            t.sd == Waiting && t.holder == Free && t.wt == s.wt && t.status == s.status && !t.bus.crashed
  {
    ReachableStep(s, Check);
    run := Drain(Apply(s, Check));
    Cons(s, Check, run);
    run := [Check] + run;
    var more := ListenOnIdle(Exec(s, run));
    Concat(s, run, more);
    run := run + more;
  }

  lemma ListenOnIdle(s: State) returns (run: seq<Action>)
    requires s.sd.Listening? && s.bus.active == map[] && !s.bus.crashed
    ensures StateChannelCloses !in run && Feasible(s, run)
    ensures var t := Exec(s, run);
            t.sd == Waiting && t.holder == Free && t.wt == s.wt && t.status == s.status && !t.bus.crashed
  {
    var c := Unused(s.bus.subs.Keys);
    One(Apply(s, Listen(c)), CheckUnlock);
    Cons(s, Listen(c), [CheckUnlock]);
    run := [Listen(c)] + [CheckUnlock];
  }

  /** When the watcher left before Shutdown checks, the wait without end is reached: over a
      channel that was never made, or for an event that is not emitted again. */
  lemma GetStuck(s: State) returns (run: seq<Action>)
    requires Reachable(s) && s.sd.Checking? && s.wt == Exited && !s.bus.crashed
    ensures StateChannelCloses !in run && Feasible(s, run) && Stuck(Exec(s, run))
    ensures s.status == STOPPED ==> Exec(s, run).sd == Blocked
    ensures s.status != STOPPED ==> Exec(s, run).sd == Waiting && Exec(s, run).status == STOPPING
  {
    ReachableInv(s);
    if s.status == STOPPED {
      One(Apply(s, Check), CheckUnlock);
      Cons(s, Check, [CheckUnlock]);
      run := [Check] + [CheckUnlock];
    } else {
      run := Register(s);
    }
  }

  /** A watcher that is about to report "stopping" finds that status set, and goes on. */
  lemma ReportsStopping(s: State) returns (run: seq<Action>)
    requires s.sd == Waiting && s.holder == Free && s.wt == Wants(STOPPING) && s.status == STOPPING
    ensures Feasible(s, run) && Exec(s, run) == s.(wt := Watching)
  {
    Three(s, WatcherLock, WatcherSet, WatcherUnlock);
    run := [WatcherLock, WatcherSet, WatcherUnlock];
  }

  /** Unless the watcher is already about to report "stopped", it can still leave without
      reporting it, as the channel of states may be closed. */
  lemma GetStuckAnyway(s: State) returns (run: seq<Action>)
    requires Reachable(s) && s.sd.Checking? && s.wt != Wants(STOPPED) && !s.bus.crashed
    ensures Feasible(s, run) && Stuck(Exec(s, run))
  {
    ReachableInv(s);
    if s.wt == Exited {
      run := GetStuck(s);
    } else if s.wt == Watching {
      ReachableStep(s, StateChannelCloses);
      run := GetStuck(Apply(s, StateChannelCloses));
      Cons(s, StateChannelCloses, run);
      run := [StateChannelCloses] + run;
    } else {
      run := Register(s);
      var more := ReportsStopping(Exec(s, run));
      Concat(s, run, more);
      run := run + more;
      Then(s, run, StateChannelCloses);
      run := run + [StateChannelCloses];
    }
  }

  /** The watcher has left, and its "stopped" can no longer reach Shutdown. */
  predicate TooLate(s: State) {
    s.wt == Exited &&
    (s.sd.Checking? || s.sd.Listening? || s.sd == Checked(false)
     || (s.sd == Checked(true) && s.status != STOPPED) || Stuck(s))
  }

  lemma TooLateStep(s: State, a: Action)
    requires Inv(s) && TooLate(s) && Enabled(s, a)
    ensures TooLate(Apply(s, a))
  {
    if a == Receive { ReceiveIsStopped(s); }
  }

  lemma {:induction false} TooLateForever(s: State, run: seq<Action>)
    requires Inv(s) && TooLate(s) && Feasible(s, run)
    ensures Exec(s, run).sd != Done
    decreases |run|
  {
    if run != [] {
      TooLateStep(s, run[0]);
      StepKeeps(s, run[0]);
      TooLateForever(Apply(s, run[0]), run[1..]);
    }
  }

  /** The watcher is still there, or its "stopped" came after Shutdown registered. */
  predicate InTime(s: State) {
    (s.sd.Checking? && s.wt != Exited) || (s.sd.Listening? && s.wt != Exited)
    || (Registered(s.sd) && (s.wt == Exited ==> s.status == STOPPED))
  }

  lemma InTimeStep(s: State, a: Action)
    requires Inv(s) && InTime(s) && Enabled(s, a) && a != StateChannelCloses
    ensures InTime(Apply(s, a))
  {
    if a == Receive { ReceiveIsStopped(s); }
  }

  lemma {:induction false} InTimeForever(s: State, run: seq<Action>)
    requires Inv(s) && InTime(s) && Feasible(s, run) && StateChannelCloses !in run
    ensures Inv(Exec(s, run)) && InTime(Exec(s, run))
    decreases |run|
  {
    if run != [] {
      InTimeStep(s, run[0]);
      StepKeeps(s, run[0]);
      InTimeForever(Apply(s, run[0]), run[1..]);
    }
  }

  /** The watcher is about to report "stopped", or did so after Shutdown registered. */
  predicate Committed(s: State) {
    ((s.sd.Checking? || s.sd.Listening?) && s.wt == Wants(STOPPED))
    || (Registered(s.sd) &&
        (s.wt == Wants(STOPPED) || s.wt == Locked(STOPPED) || s.wt == Emitting(STOPPED) || s.wt == Unlocking(STOPPED)
         || (s.wt == Exited && s.status == STOPPED)))
  }

  lemma CommittedStep(s: State, a: Action)
    requires Inv(s) && Committed(s) && Enabled(s, a)
    ensures Committed(Apply(s, a))
  {
    if a == Receive { ReceiveIsStopped(s); }
  }

  lemma {:induction false} CommittedForever(s: State, run: seq<Action>)
    requires Inv(s) && Committed(s) && Feasible(s, run)
    ensures Inv(Exec(s, run)) && Committed(Exec(s, run))
    decreases |run|
  {
    if run != [] {
      CommittedStep(s, run[0]);
      StepKeeps(s, run[0]);
      CommittedForever(Apply(s, run[0]), run[1..]);
    }
  }

  predicate GetsStuckBy(s: State, more: seq<Action>) {
    Feasible(s, more) && Stuck(Exec(s, more))
  }

  /** Some continuation gets stuck. */
  ghost predicate CanGetStuck(s: State) {
    exists more :: GetsStuckBy(s, more)
  }

  lemma CommittedNotStuck(s: State, more: seq<Action>)
    requires Reachable(s) && Committed(s) && Feasible(s, more)
    ensures !Stuck(Exec(s, more))
  {
    ReachableInv(s);
    CommittedForever(s, more);
  }

  lemma InTimeNotStuck(s: State, more: seq<Action>)
    requires Reachable(s) && InTime(s) && Feasible(s, more) && StateChannelCloses !in more
    ensures !Stuck(Exec(s, more))
  {
    ReachableInv(s);
    InTimeForever(s, more);
  }

  lemma TooLateNotDone(s: State, more: seq<Action>)
    requires Reachable(s) && TooLate(s) && Feasible(s, more)
    ensures Exec(s, more).sd != Done
  {
    ReachableInv(s);
    TooLateForever(s, more);
  }

  /** Shutdown can get stuck exactly when, at the moment it took the mutex to check the status,
      the watcher was not already about to report "stopped". */
  lemma GetsStuckIff(s: State)
    requires Reachable(s) && s.sd.Checking? && !s.bus.crashed
    ensures CanGetStuck(s) <==> s.wt != Wants(STOPPED)
  {
    if s.wt == Wants(STOPPED) {
      forall more | Feasible(s, more) ensures !GetsStuckBy(s, more) { CommittedNotStuck(s, more); }
    } else {
      var more := GetStuckAnyway(s);
      assert GetsStuckBy(s, more);
    }
  }

  /** As long as the channel of states stays open, exactly when the watcher had already left. */
  lemma GetsStuckOpenIff(s: State)
    requires Reachable(s) && s.sd.Checking? && !s.bus.crashed
    ensures (exists more :: GetsStuckBy(s, more) && StateChannelCloses !in more) <==> s.wt == Exited
  {
    if s.wt == Exited {
      var more := GetStuck(s);
      assert GetsStuckBy(s, more);
    } else {
      forall more | Feasible(s, more) && StateChannelCloses !in more ensures !GetsStuckBy(s, more) {
        InTimeNotStuck(s, more);
      }
    }
  }

  /** If the watcher had left, Shutdown never returns. If it was about to report "stopped", or
      had not left and the channel of states stays open, Shutdown returns with its next receive
      as soon as the watcher has left. */
  lemma ReturnsUnlessLate(s: State, more: seq<Action>)
    requires Reachable(s) && s.sd.Checking? && Feasible(s, more)
    ensures var t := Exec(s, more);
            && (s.wt == Exited ==> t.sd != Done)
            && ((s.wt == Wants(STOPPED) || (s.wt != Exited && StateChannelCloses !in more))
                && t.sd == Waiting && t.wt == Exited && !t.bus.crashed ==>
                  Enabled(t, Receive) && Apply(t, Receive).sd == Done)
  {
    ReachableInv(s);
    var t := Exec(s, more);
    if s.wt == Exited {
      TooLateForever(s, more);
    } else if s.wt == Wants(STOPPED) {
      CommittedForever(s, more);
      if t.sd == Waiting && t.wt == Exited && !t.bus.crashed { ReceivesIff(t); }
    } else if StateChannelCloses !in more {
      InTimeForever(s, more);
      if t.sd == Waiting && t.wt == Exited && !t.bus.crashed { ReceivesIff(t); }
    }
  }

  lemma EmitsStopped(s: State)
    requires s.wt == Locked(STOPPED) && s.status == STOPPING && WATCHER !in s.bus.active && !s.bus.crashed
    ensures Feasible(s, [WatcherSet])
    ensures var t := Exec(s, [WatcherSet]);
            && t.sd == s.sd && t.wt == Emitting(STOPPED) && t.status == STOPPED && !t.bus.crashed
            && WATCHER in t.bus.active && t.bus.active[WATCHER] < |t.bus.emissions|
  {
    One(s, WatcherSet);
  }

  /** The watcher takes the mutex and begins to emit "stopped". */
  lemma BeginReport(s: State) returns (run: seq<Action>)
    requires Reachable(s) && s.sd == Waiting && s.holder == Free && s.status == STOPPING && !s.bus.crashed
    requires s.wt == Wants(STOPPED)
    ensures Feasible(s, run)
    ensures var t := Exec(s, run);
            && t.sd == Waiting && t.wt == Emitting(STOPPED) && t.status == STOPPED && !t.bus.crashed
            && WATCHER in t.bus.active && t.bus.active[WATCHER] < |t.bus.emissions|
  {
    assert WATCHER !in s.bus.active by { ReachableInv(s); }
    EmitsStopped(Apply(s, WatcherLock));
    Cons(s, WatcherLock, [WatcherSet]);
    run := [WatcherLock] + [WatcherSet];
  }

  /** Its emission done, it leaves. */
  lemma EndReport(s: State) returns (run: seq<Action>)
    requires s.wt == Emitting(STOPPED) && !s.bus.crashed
    requires WATCHER in s.bus.active && s.bus.active[WATCHER] < |s.bus.emissions|
    requires Bus.Pending(s.bus, WATCHER) == {}
    ensures Feasible(s, run)
    ensures var t := Exec(s, run); t.sd == s.sd && t.wt == Exited && t.status == s.status && !t.bus.crashed
  {
    One(Apply(s, WatcherTold), WatcherUnlock);
    Cons(s, WatcherTold, [WatcherUnlock]);
    run := [WatcherTold] + [WatcherUnlock];
  }

  lemma CanReceive(s: State)
    requires Reachable(s) && s.sd == Waiting && s.wt == Exited && s.status == STOPPED && !s.bus.crashed
    ensures Enabled(s, Receive) && Apply(s, Receive).sd == Done
  {
    ReachableInv(s);
    ReceivesIff(s);
  }

  /** So the report of "stopped" can run to its end, and Shutdown receive it. */
  lemma ReportStopped(s: State) returns (run: seq<Action>)
    requires Reachable(s) && s.sd == Waiting && s.holder == Free && s.status == STOPPING && !s.bus.crashed
    requires s.wt == Wants(STOPPED)
    ensures Feasible(s, run) && Exec(s, run).sd == Done
  {
    run := BeginReport(s);
    ReachableRun(s, run);
    var sends := FinishSends(Exec(s, run), WATCHER);
    Concat(s, run, sends);
    run := run + sends;
    var end := EndReport(Exec(s, run));
    Concat(s, run, end);
    run := run + end;
    ReachableRun(s, run);
    CanReceive(Exec(s, run));
    Then(s, run, Receive);
    run := run + [Receive];
  }

  /** Shutdown can still return exactly when the watcher had not left at the check. */
  lemma CanReturnIff(s: State)
    requires Reachable(s) && s.sd.Checking? && !s.bus.crashed
    ensures (exists more :: Feasible(s, more) && Exec(s, more).sd == Done) <==> s.wt != Exited
  {
    if s.wt == Exited {
      forall more | Feasible(s, more) ensures Exec(s, more).sd != Done { TooLateNotDone(s, more); }
    } else {
      var more := Return(s);
    }
  }

  lemma Return(s: State) returns (run: seq<Action>)
    requires Reachable(s) && s.sd.Checking? && s.wt != Exited && !s.bus.crashed
    ensures Feasible(s, run) && Exec(s, run).sd == Done
  {
    ReachableInv(s);
    run := Register(s);
    var more: seq<Action> := [];
    if s.wt == Wants(STOPPING) {
      more := ReportsStopping(Exec(s, run));
      Concat(s, run, more);
      run := run + more;
    }
    if s.wt != Wants(STOPPED) {
      Then(s, run, VmState(STOPPED));
      run := run + [VmState(STOPPED)];
    }
    ReachableRun(s, run);
    more := ReportStopped(Exec(s, run));
    Concat(s, run, more);
    run := run + more;
  }

  // ----- both ways do happen -----

  /** No subscriber at all, and nobody emitting. */
  predicate IdleBus(b: Bus.State) {
    !b.crashed && b.active == map[] && b.index == map[] && b.taps == {} && b.subs == map[]
  }

  lemma TellNobody(b: Bus.State, p: nat, x: string)
    requires IdleBus(b)
    ensures Bus.Enabled(b, Bus.Start(p, STATUS, x))
    ensures var b' := Bus.Apply(b, Bus.Start(p, STATUS, x));
            Bus.Enabled(b', Bus.End(p)) && IdleBus(Bus.Apply(b', Bus.End(p)))
  {
    var b' := Bus.Apply(b, Bus.Start(p, STATUS, x));
    assert b'.emissions[b'.active[p]].targets == {};
    assert Bus.Apply(b', Bus.End(p)).active == map[];
  }

  const WATCHER_STOPS: seq<Action> :=
    [VmState(STOPPED), WatcherLock, WatcherSet] + [WatcherTold, WatcherUnlock]

  lemma WatcherStops(s: State)
    requires IdleBus(s.bus) && s.wt == Watching && s.holder == Free && s.status != STOPPED
    ensures Feasible(s, WATCHER_STOPS)
    ensures var t := Exec(s, WATCHER_STOPS);
            t.sd == s.sd && t.wt == Exited && t.holder == Free && t.status == STOPPED && IdleBus(t.bus)
  {
    TellNobody(s.bus, WATCHER, STOPPED);
    Three(s, VmState(STOPPED), WatcherLock, WatcherSet);
    var t := Exec(s, [VmState(STOPPED), WatcherLock, WatcherSet]);
    One(t, WatcherTold);
    One(Apply(t, WatcherTold), WatcherUnlock);
    Concat(t, [WatcherTold], [WatcherUnlock]);
    Concat(s, [VmState(STOPPED), WatcherLock, WatcherSet], [WatcherTold] + [WatcherUnlock]);
    assert [WatcherTold] + [WatcherUnlock] == [WatcherTold, WatcherUnlock];
  }

  const SHUTDOWN_ANNOUNCES: seq<Action> := [ShutdownLock, ShutdownSet, ShutdownTold] + [ShutdownUnlock]

  lemma ShutdownAnnounces(s: State)
    requires IdleBus(s.bus) && s.sd == Begin && s.holder == Free && s.status != STOPPING
    ensures Feasible(s, SHUTDOWN_ANNOUNCES)
    ensures var t := Exec(s, SHUTDOWN_ANNOUNCES);
            t.sd == Set && t.wt == s.wt && t.holder == Free && t.status == STOPPING && IdleBus(t.bus)
  {
    TellNobody(s.bus, SHUTDOWN, STOPPING);
    Three(s, ShutdownLock, ShutdownSet, ShutdownTold);
    One(Exec(s, [ShutdownLock, ShutdownSet, ShutdownTold]), ShutdownUnlock);
    Concat(s, [ShutdownLock, ShutdownSet, ShutdownTold], [ShutdownUnlock]);
  }

  /** A fresh bus, and the machine running. */
  function Fresh(): State {
    State(Bus.Init(), "ready", Free, Begin, Watching, 0)
  }

  /** The machine stops after Shutdown announced it and before Shutdown checks: the check
      sees "stopped", makes no channel, and the wait never ends. */
  lemma StopBeforeCheckBlocks() returns (run: seq<Action>)
    ensures Initial(Fresh()) && Feasible(Fresh(), run) && Exec(Fresh(), run).sd == Blocked
  {
    var s := Fresh();
    ShutdownAnnounces(s);
    WatcherStops(Exec(s, SHUTDOWN_ANNOUNCES));
    Concat(s, SHUTDOWN_ANNOUNCES, WATCHER_STOPS);
    run := LockAndGetStuck(s, SHUTDOWN_ANNOUNCES + WATCHER_STOPS);
  }

  /** The machine stops before Shutdown announces that it is stopping: "stopping" replaces
      "stopped", Shutdown registers, and nothing is ever sent to it. */
  lemma StopFirstIsOverwritten() returns (run: seq<Action>)
    ensures Initial(Fresh()) && Feasible(Fresh(), run)
    ensures var t := Exec(Fresh(), run); t.sd == Waiting && t.status == STOPPING && Stuck(t)
  {
    var s := Fresh();
    WatcherStops(s);
    ShutdownAnnounces(Exec(s, WATCHER_STOPS));
    Concat(s, WATCHER_STOPS, SHUTDOWN_ANNOUNCES);
    run := LockAndGetStuck(s, WATCHER_STOPS + SHUTDOWN_ANNOUNCES);
  }

  lemma LockAndGetStuck(s: State, pre: seq<Action>) returns (run: seq<Action>)
    requires Initial(s) && Feasible(s, pre)
    requires var t := Exec(s, pre); t.sd == Set && t.wt == Exited && t.holder == Free && !t.bus.crashed
    ensures Feasible(s, run) && Stuck(Exec(s, run))
    ensures Exec(s, pre).status == STOPPED ==> Exec(s, run).sd == Blocked
    ensures Exec(s, pre).status != STOPPED ==> Exec(s, run).sd == Waiting && Exec(s, run).status == STOPPING
  {
    One(Exec(s, pre), CheckLock);
    Concat(s, pre, [CheckLock]);
    run := pre + [CheckLock];
    var more := GetStuck(Exec(s, run));
    Concat(s, run, more);
    run := run + more;
  }
}
