/** Whole runs of the event bus: any number of goroutines emitting at once under the read
    lock, registrations under the write lock, subscribers reading and closing. */
module BusRuns {
  import opened Channels

  type ChanId = nat

  /** A channel with the history of what was put in it and what was read from it. */
  datatype Sub = Sub(chan: Chan, got: seq<Envelope>, read: seq<Envelope>)

  /** One call of Emit: who made it, whom it must offer to, and what each send met. */
  datatype Emission = Emission(env: Envelope, emitter: nat, targets: set<ChanId>, met: map<ChanId, Outcome>)

  datatype State = State(
    subs: map<ChanId, Sub>,
    taps: set<ChanId>,
    index: map<TypeName, set<ChanId>>,
    flat: set<(TypeName, ChanId)>,   // the same registrations, kept as a flat set of pairs
    emissions: seq<Emission>,
    active: map<nat, nat>,           // emitting goroutine to its emission: the read locks held
    cleanup: multiset<ChanId>,       // goroutines started by failed sends
    crashed: bool)                   // close of a closed channel

  datatype Action =
    | Make(c: ChanId, kind: Kind, cap: nat)
    | Register(c: ChanId)                 // Listen or Tap, by the channel's type
    | Unregister(c: ChanId)               // Unlisten or Untap
    | Start(p: nat, typ: TypeName, payload: string)
    | Send(p: nat, c: ChanId)
    | End(p: nat)
    | Read(c: ChanId)
    | Close(c: ChanId)                    // the subscriber closes its channel
    | Cleanup(c: ChanId)
    | Cancel(first: set<ChanId>)          // first: closed before it panics, if it does

  function Init(): State {
    State(map[], {}, map[], {}, [], map[], multiset{}, false)
  }

  function Registered(s: State, t: TypeName): set<ChanId> {
    s.taps + if t in s.index then s.index[t] else {}
  }

  function Pending(s: State, p: nat): set<ChanId>
    requires p in s.active && s.active[p] < |s.emissions|
  {
    s.emissions[s.active[p]].targets - s.emissions[s.active[p]].met.Keys
  }

  predicate Enabled(s: State, a: Action) {
    && !s.crashed
    && match a
       case Make(c, _, _) => c !in s.subs
       case Register(c) => c in s.subs && s.active == map[]
       case Unregister(c) => c in s.subs && s.active == map[]
       case Start(p, _, _) => p !in s.active
       case Send(p, c) =>
         && p in s.active && s.active[p] < |s.emissions|
         && c in s.subs && c in Pending(s, p)
         && (c in s.taps || Pending(s, p) !! s.taps)   // taps first
       case End(p) => p in s.active && s.active[p] < |s.emissions| && Pending(s, p) == {}
       case Read(c) => c in s.subs && s.subs[c].chan.buf != []
       case Close(c) => c in s.subs && !s.subs[c].chan.closed
       case Cleanup(c) => c in s.cleanup && c in s.subs && s.active == map[]
       case Cancel(first) => s.active == map[] && forall c :: c in first ==> c in All(s) && !Down(s, c)
  }

  function Insert(index: map<TypeName, set<ChanId>>, t: TypeName, c: ChanId): map<TypeName, set<ChanId>> {
    index[t := if t in index then index[t] + {c} else {c}]
  }

  function Drop(index: map<TypeName, set<ChanId>>, t: TypeName, c: ChanId): map<TypeName, set<ChanId>> {
    if t !in index then index
    else if index[t] - {c} == {} then index - {t}
    else index[t := index[t] - {c}]
  }

  function Remove(s: State, c: ChanId): State
    requires c in s.subs
  {
    match s.subs[c].chan.kind
    case Untyped => s.(taps := s.taps - {c})
    case Typed(t) => s.(index := Drop(s.index, t, c), flat := s.flat - {(t, c)})
  }

  function SendTo(s: State, n: nat, c: ChanId): State
    requires n < |s.emissions| && c in s.subs
  {
    var m, u, e := s.emissions[n], s.subs[c], s.emissions[n].env;
    var met := Meets(u.chan);
    s.(subs := s.subs[c := u.(chan := Offer(u.chan, e), got := if met == Delivered then u.got + [e] else u.got)],
       emissions := s.emissions[n := m.(met := m.met[c := met])],
       cleanup := if met == WasClosed then s.cleanup + multiset{c} else s.cleanup)
  }

  function All(s: State): set<ChanId> {
    s.taps + set p <- s.flat :: p.1
  }

  function Shut(u: Sub): Sub {
    u.(chan := u.chan.(closed := true))
  }

  function ShutAll(subs: map<ChanId, Sub>, cs: set<ChanId>): map<ChanId, Sub> {
    map c | c in subs :: if c in cs then Shut(subs[c]) else subs[c]
  }

  predicate Down(s: State, c: ChanId) {
    c in s.subs && s.subs[c].chan.closed
  }

  /** Cancellation would close a channel that is closed. */
  predicate AnyDown(s: State) {
    exists c :: c in All(s) && Down(s, c)
  }

  function Apply(s: State, a: Action): State
    requires Enabled(s, a)
  {
    match a
    case Make(c, kind, cap) => s.(subs := s.subs[c := Sub(Chan(kind, cap, [], false), [], [])])
    case Register(c) =>
      (match s.subs[c].chan.kind
       case Untyped => s.(taps := s.taps + {c})
       case Typed(t) => s.(index := Insert(s.index, t, c), flat := s.flat + {(t, c)}))
    case Unregister(c) => Remove(s, c)
    case Start(p, t, payload) =>
      var n := |s.emissions|;
      s.(emissions := s.emissions + [Emission(Envelope(t, payload, n), p, Registered(s, t), map[])],
         active := s.active[p := n])
    case Send(p, c) => SendTo(s, s.active[p], c)
    case End(p) => s.(active := s.active - {p})
    case Read(c) =>
      var u := s.subs[c];
      s.(subs := s.subs[c := u.(chan := u.chan.(buf := u.chan.buf[1..]), read := u.read + [u.chan.buf[0]])])
    case Close(c) => s.(subs := s.subs[c := Shut(s.subs[c])])
    case Cleanup(c) => Remove(s, c).(cleanup := s.cleanup - multiset{c})
    case Cancel(first) =>
      if AnyDown(s) then s.(subs := ShutAll(s.subs, first), crashed := true)
      else s.(subs := ShutAll(s.subs, All(s)))
  }

  predicate Feasible(run: seq<Action>)
    decreases |run|, 0
  {
    run == [] ||
    (Feasible(run[..|run| - 1]) && Enabled(Exec(run[..|run| - 1]), run[|run| - 1]))
  }

  function Exec(run: seq<Action>): State
    requires Feasible(run)
    decreases |run|, 1
  {
    if run == [] then Init() else Apply(Exec(run[..|run| - 1]), run[|run| - 1])
  }

  // ----- invariants -----

  /** The index is the flat set, with no empty entry and every channel under its own type. */
  ghost predicate IndexOk(s: State) {
    && (forall c :: c in s.taps ==> c in s.subs && s.subs[c].chan.kind == Untyped)
    && (forall t :: t in s.index ==> s.index[t] != {})
    && (forall t, c :: (t, c) in s.flat <==> t in s.index && c in s.index[t])
    && (forall t, c :: (t, c) in s.flat ==> c in s.subs && s.subs[c].chan.kind == Typed(t))
  }

  /** A reader gets what was put in, in order. */
  ghost predicate SubsOk(s: State) {
    forall c :: c in s.subs ==> Sound(s.subs[c].chan) && s.subs[c].got == s.subs[c].read + s.subs[c].chan.buf
  }

  ghost predicate EmissionOk(s: State, n: nat)
    requires n < |s.emissions|
  {
    var m := s.emissions[n];
    && m.env.id == n
    && m.met.Keys <= m.targets
    && (forall c :: c in m.targets ==> c in s.subs && Carries(s.subs[c].chan.kind, m.env))
    && (m.met.Keys != m.targets ==> m.emitter in s.active && s.active[m.emitter] == n)
  }

  ghost predicate ActiveOk(s: State) {
    forall p :: p in s.active ==>
      && s.active[p] < |s.emissions|
      && s.emissions[s.active[p]].emitter == p
      && s.emissions[s.active[p]].targets == Registered(s, s.emissions[s.active[p]].env.typ)
      && forall n: nat :: s.active[p] < n < |s.emissions| ==> s.emissions[n].emitter != p
  }

  /** What a channel got is exactly what was delivered to it. */
  ghost predicate GotOk(s: State, c: ChanId)
    requires c in s.subs
  {
    var got := s.subs[c].got;
    && (forall i :: 0 <= i < |got| ==> WasSent(s, c, got[i]))
    && (forall n: nat :: n < |s.emissions| && c in s.emissions[n].met && s.emissions[n].met[c] == Delivered
          ==> s.emissions[n].env in got)
  }

  ghost predicate WasSent(s: State, c: ChanId, e: Envelope) {
    && e.id < |s.emissions|
    && s.emissions[e.id].env == e
    && c in s.emissions[e.id].met
    && s.emissions[e.id].met[c] == Delivered
  }

  /** No emission twice, and those of one emitter in the order it made them. */
  ghost predicate Ordered(s: State, c: ChanId)
    requires c in s.subs && GotOk(s, c)
  {
    var got := s.subs[c].got;
    forall i, j :: 0 <= i < j < |got| ==>
      && got[i].id != got[j].id
      && (s.emissions[got[i].id].emitter == s.emissions[got[j].id].emitter ==> got[i].id < got[j].id)
  }

  ghost predicate CleanupOk(s: State) {
    forall c :: c in s.cleanup ==> c in s.subs && s.subs[c].chan.closed
  }

  ghost predicate Inv(s: State) {
    IndexOk(s) && SubsOk(s) && ActiveOk(s) && CleanupOk(s) && EmissionsOk(s) && HistoryOk(s)
  }

  ghost predicate EmissionsOk(s: State) {
    forall n: nat :: n < |s.emissions| ==> EmissionOk(s, n)
  }

  ghost predicate HistoryOk(s: State) {
    forall c :: c in s.subs ==> GotOk(s, c) && Ordered(s, c)
  }

  // ----- every action keeps them -----

  /** The new state changes neither emissions nor what any channel ever got. */
  ghost predicate SameHistory(s: State, s': State) {
    && s'.emissions == s.emissions
    && s.subs.Keys <= s'.subs.Keys
    && (forall c :: c in s.subs ==> s'.subs[c].got == s.subs[c].got && s'.subs[c].chan.kind == s.subs[c].chan.kind)
    && (forall c :: c in s'.subs && c !in s.subs ==>
          s'.subs[c].got == [] && forall n: nat :: n < |s.emissions| ==> c !in s.emissions[n].met)
  }

  lemma HistoryKept(s: State, s': State)
    requires HistoryOk(s) && SameHistory(s, s')
    ensures HistoryOk(s')
  {
    forall c | c in s'.subs
      ensures GotOk(s', c) && Ordered(s', c)
    {
      if c in s.subs {
        assert GotOk(s, c) && Ordered(s, c);
        assert forall i :: 0 <= i < |s.subs[c].got| ==> WasSent(s, c, s.subs[c].got[i]);
      }
    }
  }

  /** An unfinished emission belongs to the goroutine that holds a read lock for it. */
  ghost predicate Owned(s: State) {
    forall n: nat :: n < |s.emissions| && s.emissions[n].met.Keys != s.emissions[n].targets ==>
      var p := s.emissions[n].emitter; p in s.active && s.active[p] == n
  }

  lemma EmissionsPending(s: State)
    requires EmissionsOk(s)
    ensures Owned(s)
  {
    forall n: nat | n < |s.emissions| && s.emissions[n].met.Keys != s.emissions[n].targets
      ensures var p := s.emissions[n].emitter; p in s.active && s.active[p] == n
    {
      assert EmissionOk(s, n);
    }
  }

  lemma EmissionsKept(s: State, s': State)
    requires EmissionsOk(s)
    requires SameHistory(s, s') && Owned(s')
    ensures EmissionsOk(s')
  {
    forall n: nat | n < |s'.emissions| ensures EmissionOk(s', n) {
      assert EmissionOk(s, n);
    }
  }

  ghost predicate SameRegistrations(s: State, s': State) {
    s'.taps == s.taps && s'.index == s.index && s'.flat == s.flat
  }

  lemma IndexKept(s: State, s': State)
    requires IndexOk(s) && SameHistory(s, s') && SameRegistrations(s, s')
    ensures IndexOk(s')
  {}

  lemma ActiveKept(s: State, s': State)
    requires ActiveOk(s) && s'.emissions == s.emissions && SameRegistrations(s, s')
    requires forall p :: p in s'.active ==> p in s.active && s'.active[p] == s.active[p]
    ensures ActiveOk(s')
  {}

  /** Actions that only touch channels keep everything, if they keep the channels sound. */
  lemma ChannelActionKeeps(s: State, s': State)
    requires Inv(s) && SameHistory(s, s') && SameRegistrations(s, s')
    requires s'.active == s.active && s'.cleanup == s.cleanup && SubsOk(s')
    requires forall c :: c in s.subs && s.subs[c].chan.closed ==> s'.subs[c].chan.closed
    ensures Inv(s')
  {
    HistoryKept(s, s');
    EmissionsPending(s);
    assert Owned(s');
    EmissionsKept(s, s');
    IndexKept(s, s');
    ActiveKept(s, s');
  }

  lemma MakeKeeps(s: State, c: ChanId, kind: Kind, cap: nat)
    requires Inv(s) && Enabled(s, Make(c, kind, cap))
    ensures Inv(Apply(s, Make(c, kind, cap)))
  {
    forall n: nat | n < |s.emissions| ensures c !in s.emissions[n].met { assert EmissionOk(s, n); }
    ChannelActionKeeps(s, Apply(s, Make(c, kind, cap)));
  }

  lemma ReadSubs(s: State, c: ChanId)
    requires SubsOk(s) && Enabled(s, Read(c))
    ensures SubsOk(Apply(s, Read(c)))
  {
    var u := s.subs[c];
    assert u.read + u.chan.buf == (u.read + [u.chan.buf[0]]) + u.chan.buf[1..];
  }

  lemma ReadKeeps(s: State, c: ChanId)
    requires Inv(s) && Enabled(s, Read(c))
    ensures Inv(Apply(s, Read(c)))
  {
    ReadSubs(s, c);
    ChannelActionKeeps(s, Apply(s, Read(c)));
  }

  lemma CloseKeeps(s: State, c: ChanId)
    requires Inv(s) && Enabled(s, Close(c))
    ensures Inv(Apply(s, Close(c)))
  {
    ShutKeeps(s, Apply(s, Close(c)));
  }

  lemma CancelKeeps(s: State, first: set<ChanId>)
    requires Inv(s) && Enabled(s, Cancel(first))
    ensures Inv(Apply(s, Cancel(first)))
  {
    CancelShuts(s, first);
    ShutKeeps(s, Apply(s, Cancel(first)));
  }

  lemma CancelShuts(s: State, first: set<ChanId>)
    requires Enabled(s, Cancel(first))
    ensures Shuts(s, Apply(s, Cancel(first)))
  {
    assert Apply(s, Cancel(first)).subs.Keys == s.subs.Keys;
  }

  /** At most some channels were closed, and the process may have died of it. */
  ghost predicate Shuts(s: State, s': State) {
    && s' == s.(subs := s'.subs, crashed := s'.crashed) && s'.subs.Keys == s.subs.Keys
    && forall c :: c in s.subs ==> s'.subs[c] == s.subs[c] || s'.subs[c] == Shut(s.subs[c])
  }

  lemma ShutKeeps(s: State, s': State)
    requires Inv(s) && Shuts(s, s')
    ensures Inv(s')
  {
    ClosedSubs(s, s');
    ChannelActionKeeps(s, s');
  }

  lemma ClosedSubs(s: State, s': State)
    requires SubsOk(s) && s'.subs.Keys == s.subs.Keys
    requires forall c :: c in s.subs ==> s'.subs[c] == s.subs[c] || s'.subs[c] == Shut(s.subs[c])
    ensures SubsOk(s')
  {}

  lemma RegisterIndexOk(s: State, c: ChanId)
    requires IndexOk(s) && Enabled(s, Register(c))
    ensures IndexOk(Apply(s, Register(c)))
  {}

  lemma RemoveIndexOk(s: State, c: ChanId)
    requires IndexOk(s) && c in s.subs
    ensures IndexOk(Remove(s, c))
  {
    match s.subs[c].chan.kind
    case Untyped =>
    case Typed(t) => assert t in s.index && s.index[t] - {c} == {} ==> s.index[t] <= {c};
  }

  /** Registration changes happen under the write lock, so no emission is under way. */
  lemma RegistrationKeeps(s: State, s': State)
    requires Inv(s) && IndexOk(s') && s'.cleanup <= s.cleanup && s'.subs == s.subs
    requires s.active == s'.active == map[] && s'.emissions == s.emissions
    ensures Inv(s')
  {
    EmissionsPending(s);
    HistoryKept(s, s');
    assert Owned(s');
    EmissionsKept(s, s');
  }

  lemma EndOwned(s: State, p: nat)
    requires EmissionsOk(s) && Enabled(s, End(p))
    ensures Owned(Apply(s, End(p)))
  {
    var n := s.active[p];
    assert EmissionOk(s, n);
    forall c | c in s.emissions[n].targets ensures c in s.emissions[n].met {
      assert c !in Pending(s, p);
    }
    EmissionsPending(s);
  }

  lemma EndKeeps(s: State, p: nat)
    requires Inv(s) && Enabled(s, End(p))
    ensures Inv(Apply(s, End(p)))
  {
    var s' := Apply(s, End(p));
    EndOwned(s, p);
    HistoryKept(s, s');
    EmissionsKept(s, s');
    ActiveKept(s, s');
  }

  lemma StartEmissions(s: State, p: nat, t: TypeName, payload: string)
    requires Inv(s) && Enabled(s, Start(p, t, payload))
    ensures var s' := Apply(s, Start(p, t, payload)); EmissionsOk(s')
  {
    var s' := Apply(s, Start(p, t, payload));
    forall n: nat | n < |s'.emissions| ensures EmissionOk(s', n) {
      if n < |s.emissions| { assert EmissionOk(s, n); }
    }
  }

  lemma StartGot(s: State, p: nat, t: TypeName, payload: string, c: ChanId)
    requires Inv(s) && Enabled(s, Start(p, t, payload)) && c in s.subs
    ensures var s' := Apply(s, Start(p, t, payload)); GotOk(s', c) && Ordered(s', c)
  {
    var s' := Apply(s, Start(p, t, payload));
    assert GotOk(s, c) && Ordered(s, c);
    forall i | 0 <= i < |s.subs[c].got| ensures WasSent(s', c, s.subs[c].got[i]) {
      assert WasSent(s, c, s.subs[c].got[i]);
    }
  }

  lemma StartActive(s: State, p: nat, t: TypeName, payload: string)
    requires ActiveOk(s) && Enabled(s, Start(p, t, payload))
    ensures ActiveOk(Apply(s, Start(p, t, payload)))
  {}

  lemma StartKeeps(s: State, p: nat, t: TypeName, payload: string)
    requires Inv(s) && Enabled(s, Start(p, t, payload))
    ensures Inv(Apply(s, Start(p, t, payload)))
  {
    var s' := Apply(s, Start(p, t, payload));
    StartEmissions(s, p, t, payload);
    StartActive(s, p, t, payload);
    forall c | c in s'.subs ensures GotOk(s', c) && Ordered(s', c) {
      StartGot(s, p, t, payload, c);
    }
  }

  lemma SendEmissions(s: State, p: nat, c: ChanId)
    requires Inv(s) && Enabled(s, Send(p, c))
    ensures var s' := Apply(s, Send(p, c)); EmissionsOk(s')
  {
    var s' := Apply(s, Send(p, c));
    forall n: nat | n < |s'.emissions| ensures EmissionOk(s', n) {
      assert EmissionOk(s, n);
      assert s'.emissions[n].targets == s.emissions[n].targets;
    }
  }

  lemma SendOthers(s: State, p: nat, c: ChanId, d: ChanId)
    requires Inv(s) && Enabled(s, Send(p, c)) && d in s.subs && d != c
    ensures var s' := Apply(s, Send(p, c)); GotOk(s', d) && Ordered(s', d)
  {
    var s' := Apply(s, Send(p, c));
    assert GotOk(s, d) && Ordered(s, d);
    forall i | 0 <= i < |s.subs[d].got| ensures WasSent(s', d, s.subs[d].got[i]) {
      assert WasSent(s, d, s.subs[d].got[i]);
    }
  }

  /** What the channel got before this send came from other emissions, and earlier ones
      where the emitter is the same. */
  lemma GotBefore(s: State, p: nat, c: ChanId)
    requires Inv(s) && Enabled(s, Send(p, c))
    ensures var got := s.subs[c].got;
            forall i :: 0 <= i < |got| ==>
              && WasSent(s, c, got[i])
              && got[i].id != s.active[p]
              && (s.emissions[got[i].id].emitter == p ==> got[i].id < s.active[p])
  {
    assert GotOk(s, c);
  }

  lemma SendGot(s: State, p: nat, c: ChanId)
    requires Inv(s) && Enabled(s, Send(p, c))
    ensures GotOk(Apply(s, Send(p, c)), c)
  {
    var s' := Apply(s, Send(p, c));
    var n := s.active[p];
    var got, e := s.subs[c].got, s.emissions[n].env;
    assert EmissionOk(s, n);
    GotBefore(s, p, c);
    var got' := s'.subs[c].got;
    forall i | 0 <= i < |got'| ensures WasSent(s', c, got'[i]) {
      if i < |got| { assert WasSent(s, c, got[i]); }
    }
    forall k: nat | k < |s'.emissions| && c in s'.emissions[k].met && s'.emissions[k].met[c] == Delivered
      ensures s'.emissions[k].env in got'
    {
      if k == n { assert got' == got + [e]; } else { assert s.emissions[k].env in got; }
    }
  }

  lemma SendOrdered(s: State, p: nat, c: ChanId)
    requires Inv(s) && Enabled(s, Send(p, c)) && GotOk(Apply(s, Send(p, c)), c)
    ensures Ordered(Apply(s, Send(p, c)), c)
  {
    var s' := Apply(s, Send(p, c));
    var got, got' := s.subs[c].got, s'.subs[c].got;
    GotBefore(s, p, c);
    assert Ordered(s, c) && EmissionOk(s, s.active[p]);
    forall i, j | 0 <= i < j < |got'|
      ensures got'[i].id != got'[j].id
      ensures s'.emissions[got'[i].id].emitter == s'.emissions[got'[j].id].emitter ==> got'[i].id < got'[j].id
    {
      assert WasSent(s, c, got[i]);
      if j < |got| { assert WasSent(s, c, got[j]); }
    }
  }

  lemma SendSubs(s: State, p: nat, c: ChanId)
    requires Inv(s) && Enabled(s, Send(p, c))
    ensures SubsOk(Apply(s, Send(p, c)))
  {
    var u, e := s.subs[c], s.emissions[s.active[p]].env;
    assert EmissionOk(s, s.active[p]);
    assert (u.read + u.chan.buf) + [e] == u.read + (u.chan.buf + [e]);
  }

  lemma SendRegistrations(s: State, p: nat, c: ChanId)
    requires IndexOk(s) && CleanupOk(s) && Enabled(s, Send(p, c))
    ensures var s' := Apply(s, Send(p, c)); IndexOk(s') && CleanupOk(s')
  {}

  lemma SendActive(s: State, p: nat, c: ChanId)
    requires ActiveOk(s) && Enabled(s, Send(p, c))
    ensures ActiveOk(Apply(s, Send(p, c)))
  {}

  lemma SendKeeps(s: State, p: nat, c: ChanId)
    requires Inv(s) && Enabled(s, Send(p, c))
    ensures Inv(Apply(s, Send(p, c)))
  {
    var s' := Apply(s, Send(p, c));
    SendEmissions(s, p, c);
    SendSubs(s, p, c);
    SendRegistrations(s, p, c);
    SendActive(s, p, c);
    SendGot(s, p, c);
    SendOrdered(s, p, c);
    forall d | d in s'.subs ensures GotOk(s', d) && Ordered(s', d) {
      if d != c { SendOthers(s, p, c, d); }
    }
  }

  lemma RegisterKeeps(s: State, c: ChanId)
    requires Inv(s) && Enabled(s, Register(c))
    ensures Inv(Apply(s, Register(c)))
  {
    RegisterIndexOk(s, c);
    RegistrationKeeps(s, Apply(s, Register(c)));
  }

  lemma RemoveKeeps(s: State, c: ChanId, left: multiset<ChanId>)
    requires Inv(s) && c in s.subs && s.active == map[] && left <= s.cleanup
    ensures Inv(Remove(s, c).(cleanup := left))
  {
    RemoveIndexOk(s, c);
    RegistrationKeeps(s, Remove(s, c).(cleanup := left));
  }

  lemma StepKeeps(s: State, a: Action)
    requires Inv(s) && Enabled(s, a)
    ensures Inv(Apply(s, a))
  {
    match a
    case Make(c, k, cap) => MakeKeeps(s, c, k, cap);
    case Start(p, t, payload) => StartKeeps(s, p, t, payload);
    case Send(p, c) => SendKeeps(s, p, c);
    case End(p) => EndKeeps(s, p);
    case Read(c) => ReadKeeps(s, c);
    case Close(c) => CloseKeeps(s, c);
    case Cancel(first) => CancelKeeps(s, first);
    case Register(c) => RegisterKeeps(s, c);
    case Unregister(c) => RemoveKeeps(s, c, s.cleanup);
    case Cleanup(c) => RemoveKeeps(s, c, s.cleanup - multiset{c});
  }

  lemma {:induction false} RunKeepsInv(run: seq<Action>)
    requires Feasible(run)
    ensures Inv(Exec(run))
  {
    if run != [] {
      RunKeepsInv(run[..|run| - 1]);
      StepKeeps(Exec(run[..|run| - 1]), run[|run| - 1]);
    }
  }

  // ----- what holds over every run -----

  lemma {:induction false} FeasiblePrefix(run: seq<Action>, k: nat)
    requires Feasible(run) && k <= |run|
    ensures Feasible(run[..k])
  {
    if k < |run| {
      assert run[..|run| - 1][..k] == run[..k];
      FeasiblePrefix(run[..|run| - 1], k);
    } else {
      assert run[..k] == run;
    }
  }

  /** The k-th action is the Start of emission n, offering it to whoever is registered
      for its type at that moment. */
  ghost predicate StartsAt(run: seq<Action>, n: nat, k: nat)
    requires Feasible(run) && n < |Exec(run).emissions|
  {
    && k < |run| && Feasible(run[..k])
    && var s, m := Exec(run[..k]), Exec(run).emissions[n];
       && run[k] == Start(m.emitter, m.env.typ, m.env.payload)
       && |s.emissions| == n
       && m.targets == Registered(s, m.env.typ)
  }

  lemma {:induction false} EveryEmissionStarts(run: seq<Action>, n: nat) returns (k: nat)
    requires Feasible(run) && n < |Exec(run).emissions|
    ensures StartsAt(run, n, k)
  {
    var pre, a := run[..|run| - 1], run[|run| - 1];
    var s := Exec(pre);
    if n < |s.emissions| {
      k := EveryEmissionStarts(pre, n);
      assert pre[..k] == run[..k];
      OldEmission(s, a, n);
    } else {
      k := |run| - 1;
      assert run[..k] == pre;
      NewEmission(s, a);
    }
  }

  lemma OldEmission(s: State, a: Action, n: nat)
    requires Enabled(s, a) && n < |s.emissions|
    ensures var s' := Apply(s, a);
            && |s.emissions| <= |s'.emissions|
            && s'.emissions[n].(met := s.emissions[n].met) == s.emissions[n]
            && s.emissions[n].met.Keys <= s'.emissions[n].met.Keys
  {}

  lemma NewEmission(s: State, a: Action)
    requires Enabled(s, a) && |s.emissions| < |Apply(s, a).emissions|
    ensures a.Start? && |Apply(s, a).emissions| == |s.emissions| + 1
    ensures Apply(s, a).emissions[|s.emissions|] ==
            Emission(Envelope(a.typ, a.payload, |s.emissions|), a.p, Registered(s, a.typ), map[])
  {}

  /** Everything in what a channel got is an event of its type, emitted while the channel
      was registered for that type. */
  lemma DeliveredWhileRegistered(run: seq<Action>, c: ChanId, e: Envelope) returns (k: nat)
    requires Feasible(run) && c in Exec(run).subs && e in Exec(run).subs[c].got
    ensures Carries(Exec(run).subs[c].chan.kind, e)
    ensures k < |run| && Feasible(run[..k]) && run[k].Start? && run[k].typ == e.typ && run[k].payload == e.payload
    ensures |Exec(run[..k]).emissions| == e.id && c in Registered(Exec(run[..k]), e.typ)
  {
    var s := Exec(run);
    RunKeepsInv(run);
    assert GotOk(s, c);
    var i :| 0 <= i < |s.subs[c].got| && s.subs[c].got[i] == e;
    assert WasSent(s, c, e) && EmissionOk(s, e.id);
    k := EveryEmissionStarts(run, e.id);
  }

  /** No envelope reaches a channel twice; those of one emitter come in the order it made
      them; and the subscriber reads exactly what was put in, first in first out. */
  lemma OnceAndInOrder(run: seq<Action>, c: ChanId)
    requires Feasible(run) && c in Exec(run).subs
    ensures var s := Exec(run); var got := s.subs[c].got;
            && got == s.subs[c].read + s.subs[c].chan.buf
            && forall i, j :: 0 <= i < j < |got| ==>
               && got[i].id < |s.emissions| && got[j].id < |s.emissions|
               && got[i].id != got[j].id
               && (s.emissions[got[i].id].emitter == s.emissions[got[j].id].emitter ==> got[i].id < got[j].id)
  {
    RunKeepsInv(run);
    var s := Exec(run);
    assert GotOk(s, c) && Ordered(s, c);
    forall i | 0 <= i < |s.subs[c].got| ensures s.subs[c].got[i].id < |s.emissions| {
      assert WasSent(s, c, s.subs[c].got[i]);
    }
  }

  /** The k-th action is the one send of emission n to c, and it met the given outcome. */
  ghost predicate SendsAt(run: seq<Action>, n: nat, c: ChanId, k: nat, o: Outcome) {
    && k < |run| && Feasible(run[..k])
    && var s := Exec(run[..k]);
       && run[k].Send? && run[k].c == c
       && run[k].p in s.active && s.active[run[k].p] == n
       && c in s.subs && Meets(s.subs[c].chan) == o
  }

  lemma {:induction false} EveryOutcomeHappened(run: seq<Action>, n: nat, c: ChanId) returns (k: nat)
    requires Feasible(run) && n < |Exec(run).emissions| && c in Exec(run).emissions[n].met
    ensures SendsAt(run, n, c, k, Exec(run).emissions[n].met[c])
  {
    var pre, a := run[..|run| - 1], run[|run| - 1];
    var s := Exec(pre);
    if n < |s.emissions| && c in s.emissions[n].met && s.emissions[n].met[c] == Exec(run).emissions[n].met[c] {
      k := EveryOutcomeHappened(pre, n, c);
      assert pre[..k] == run[..k];
    } else {
      k := |run| - 1;
      assert run[..k] == pre;
      NewOutcome(s, a, n, c);
    }
  }

  lemma NewOutcome(s: State, a: Action, n: nat, c: ChanId)
    requires Enabled(s, a) && n < |Apply(s, a).emissions| && c in Apply(s, a).emissions[n].met
    requires !(n < |s.emissions| && c in s.emissions[n].met && s.emissions[n].met[c] == Apply(s, a).emissions[n].met[c])
    ensures a.Send? && a.c == c && s.active[a.p] == n && Meets(s.subs[c].chan) == Apply(s, a).emissions[n].met[c]
  {}

  /** An open channel holding cap events that its subscriber has not read. */
  ghost predicate Exhausted(u: Sub) {
    !u.chan.closed && |u.got| - |u.read| == u.chan.cap
  }

  /** When Emit has returned, every channel it had to reach has the event, except where
      its send met a closed channel or one holding cap unread events. */
  lemma MissedOnlyWhenFullOrClosed(run: seq<Action>, n: nat, c: ChanId) returns (k: nat)
    requires Feasible(run) && n < |Exec(run).emissions| && c in Exec(run).emissions[n].targets
    requires var p := Exec(run).emissions[n].emitter;
             !(p in Exec(run).active && Exec(run).active[p] == n)   // it has returned
    ensures c in Exec(run).subs
    ensures Exec(run).emissions[n].env in Exec(run).subs[c].got ||
            ((SendsAt(run, n, c, k, Full) && Exhausted(Exec(run[..k]).subs[c]))
             || SendsAt(run, n, c, k, WasClosed))
  {
    RunKeepsInv(run);
    var s := Exec(run);
    assert EmissionOk(s, n) && GotOk(s, c);
    k := EveryOutcomeHappened(run, n, c);
    RunKeepsInv(run[..k]);
  }

  /** The type index stands for the flat set of registrations after any run. */
  lemma IndexIsFlatSet(run: seq<Action>)
    requires Feasible(run)
    ensures IndexOk(Exec(run))
  {
    RunKeepsInv(run);
  }

  /** The asynchronous cleanup only ever removes closed channels, and it does remove them: the
      channel is then registered for no type, and one removal less is to come. */
  lemma CleanupRemovesClosed(run: seq<Action>, c: ChanId)
    requires Feasible(run) && Enabled(Exec(run), Cleanup(c))
    ensures Exec(run).subs[c].chan.closed
    ensures forall t :: c !in Registered(Apply(Exec(run), Cleanup(c)), t)
    ensures Apply(Exec(run), Cleanup(c)).cleanup == Exec(run).cleanup - multiset{c}
    ensures forall d, t :: d != c ==>
              (d in Registered(Exec(run), t) <==> d in Registered(Apply(Exec(run), Cleanup(c)), t))
  {
    RunKeepsInv(run);
    RemoveOne(Exec(run), c);
    RemovedOne(Exec(run), c);
    assert forall t :: Registered(Apply(Exec(run), Cleanup(c)), t) == Registered(Remove(Exec(run), c), t);
  }

  lemma RemoveOne(s: State, c: ChanId)
    requires c in s.subs
    ensures forall d, t :: d != c ==> (d in Registered(s, t) <==> d in Registered(Remove(s, c), t))
  {}

  /** Whatever its type, a removed channel is on no list. */
  lemma RemovedOne(s: State, c: ChanId)
    requires IndexOk(s) && c in s.subs
    ensures forall t :: c !in Registered(Remove(s, c), t)
  {
    forall t ensures c !in Registered(Remove(s, c), t) {
      assert (t, c) in s.flat <==> t in s.index && c in s.index[t];
    }
  }

  // ----- an Emit can always be finished -----

  lemma NextTarget(b: State, p: nat) returns (c: ChanId)
    requires Inv(b) && !b.crashed && p in b.active && Pending(b, p) != {}
    ensures Enabled(b, Send(p, c))
  {
    assert EmissionOk(b, b.active[p]);
    if Pending(b, p) !! b.taps {
      c :| c in Pending(b, p);
    } else {
      c :| c in Pending(b, p) && c in b.taps;
    }
  }

  lemma SendsOne(b: State, p: nat, c: ChanId)
    requires ActiveOk(b) && Enabled(b, Send(p, c))
    ensures var b' := Apply(b, Send(p, c));
            && b'.active == b.active && b'.crashed == b.crashed
            && b'.active[p] < |b'.emissions| && |Pending(b', p)| < |Pending(b, p)|
  {
    var b' := Apply(b, Send(p, c));
    assert Pending(b', p) == Pending(b, p) - {c};
  }

  lemma Smaller(m: map<nat, nat>, p: nat)
    requires p in m
    ensures |m - {p}| < |m|
  {
    assert (m - {p}).Keys == m.Keys - {p};
    assert |m.Keys| == |m| && |(m - {p}).Keys| == |m - {p}|;
  }
}
