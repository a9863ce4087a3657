/** The two models of the bus are one: an Emit of the object in EventBus does to the channels
    in the heap what Start, the Sends and End of BusRuns do to their values. */
module BusRefinement {
  import opened Channels
  import opened EventBus
  import opened MapOrder
  import Runs = BusRuns

  // ----- one Emit with nobody else on the bus -----

  function Sends(p: nat, order: seq<Runs.ChanId>): seq<Runs.Action> {
    if order == [] then [] else Sends(p, order[..|order| - 1]) + [Runs.Send(p, order[|order| - 1])]
  }

  function EmitActions(p: nat, t: TypeName, x: string, order: seq<Runs.ChanId>): seq<Runs.Action> {
    [Runs.Start(p, t, x)] + Sends(p, order) + [Runs.End(p)]
  }

  function Elements(order: seq<Runs.ChanId>): set<Runs.ChanId> {
    set c | c in order
  }

  predicate TapsFirst(order: seq<Runs.ChanId>, taps: set<Runs.ChanId>) {
    forall i, j :: 0 <= i < j < |order| && order[j] in taps ==> order[i] in taps
  }

  /** There always is such an order. */
  lemma {:induction false} AnOrder(cs: set<Runs.ChanId>, taps: set<Runs.ChanId>) returns (order: seq<Runs.ChanId>)
    ensures Enumerates(order, cs) && TapsFirst(order, taps)
    decreases |cs|
  {
    order := [];
    if cs != {} {
      var c;
      if cs <= taps { c :| c in cs; } else { c :| c in cs && c !in taps; }
      order := AnOrder(cs - {c}, taps);
      order := order + [c];
    }
  }

  /** What a state holds apart from histories and read locks. */
  datatype View = View(
    chans: map<Runs.ChanId, Chan>,
    taps: set<Runs.ChanId>,
    index: map<TypeName, set<Runs.ChanId>>,
    flat: set<(TypeName, Runs.ChanId)>,
    cleanup: multiset<Runs.ChanId>,
    crashed: bool)

  function ViewOf(s: Runs.State): View {
    View(map c | c in s.subs :: s.subs[c].chan, s.taps, s.index, s.flat, s.cleanup, s.crashed)
  }

  /** Exactly the channels cs are offered e, and the closed ones among them are to be cleaned
      up. */
  function OfferAll(v: View, e: Envelope, cs: set<Runs.ChanId>): View {
    v.(chans := map c | c in v.chans :: if c in cs then Offer(v.chans[c], e) else v.chans[c],
       cleanup := v.cleanup + multiset(set c | c in cs && c in v.chans && v.chans[c].closed))
  }

  lemma OfferMore(v: View, e: Envelope, cs: set<Runs.ChanId>, c: Runs.ChanId)
    requires c !in cs
    ensures OfferAll(OfferAll(v, e, cs), e, {c}) == OfferAll(v, e, cs + {c})
  {
    var u, w := OfferAll(OfferAll(v, e, cs), e, {c}), OfferAll(v, e, cs + {c});
    assert u.chans == w.chans;
    assert u.cleanup == w.cleanup;
  }

  lemma OfferNone(v: View, e: Envelope)
    ensures OfferAll(v, e, {}) == v
  {
    assert OfferAll(v, e, {}).chans == v.chans;
    assert OfferAll(v, e, {}).cleanup == v.cleanup;
  }

  /** The emission n of p is under way, with the first sends made. */
  ghost predicate UnderWay(s: Runs.State, p: nat, n: nat, e: Envelope, order: seq<Runs.ChanId>, sent: nat)
    requires sent <= |order|
  {
    && s.active == map[p := n] && n < |s.emissions| && s.emissions[n].env == e
    && Runs.Pending(s, p) == Elements(order[sent..])
  }

  lemma SendNext(s: Runs.State, p: nat, n: nat, e: Envelope, order: seq<Runs.ChanId>, k: nat)
    requires k < |order| && UnderWay(s, p, n, e, order, k) && !s.crashed && order[k] in s.subs
    requires (forall i, j :: 0 <= i < j < |order| ==> order[i] != order[j]) && TapsFirst(order, s.taps)
    ensures var a := Runs.Send(p, order[k]);
            && Runs.Enabled(s, a) && UnderWay(Runs.Apply(s, a), p, n, e, order, k + 1)
            && ViewOf(Runs.Apply(s, a)) == OfferAll(ViewOf(s), e, {order[k]})
  {
    assert order[k..][0] == order[k];
    forall c | c in Runs.Pending(s, p) && c in s.taps ensures order[k] in s.taps {
      var j :| 0 <= j < |order[k..]| && order[k..][j] == c;
      assert order[k + j] == c;
    }
    var t := Runs.Apply(s, Runs.Send(p, order[k]));
    assert Runs.Pending(t, p) == Runs.Pending(s, p) - {order[k]};
    assert order[k..] == [order[k]] + order[k + 1..];
    assert ViewOf(t).chans == OfferAll(ViewOf(s), e, {order[k]}).chans;
    assert ViewOf(t).cleanup == OfferAll(ViewOf(s), e, {order[k]}).cleanup;
  }

  lemma Extend(run: seq<Runs.Action>, a: Runs.Action)
    requires Runs.Feasible(run) && Runs.Enabled(Runs.Exec(run), a)
    ensures Runs.Feasible(run + [a]) && Runs.Exec(run + [a]) == Runs.Apply(Runs.Exec(run), a)
  {
    assert (run + [a])[..|run|] == run;
  }

  /** What is needed of the state in which the sends begin. */
  ghost predicate Ready(s: Runs.State, order: seq<Runs.ChanId>) {
    && !s.crashed && (forall c :: c in order ==> c in s.subs)
    && (forall i, j :: 0 <= i < j < |order| ==> order[i] != order[j]) && TapsFirst(order, s.taps)
  }

  lemma ReadyStill(s: Runs.State, t: Runs.State, e: Envelope, cs: set<Runs.ChanId>, order: seq<Runs.ChanId>)
    requires Ready(s, order) && ViewOf(t) == OfferAll(ViewOf(s), e, cs)
    ensures Ready(t, order)
  {
    assert ViewOf(t).chans.Keys == ViewOf(s).chans.Keys;
    assert t.taps == ViewOf(t).taps && t.crashed == ViewOf(t).crashed;
    assert forall c :: c in s.subs <==> c in ViewOf(s).chans;
    assert forall c :: c in t.subs <==> c in ViewOf(t).chans;
  }

  lemma {:induction false} AllSends(run: seq<Runs.Action>, p: nat, n: nat, e: Envelope, order: seq<Runs.ChanId>, k: nat)
    requires Runs.Feasible(run) && k <= |order| && UnderWay(Runs.Exec(run), p, n, e, order, 0)
    requires Ready(Runs.Exec(run), order)
    ensures Runs.Feasible(run + Sends(p, order[..k]))
    ensures UnderWay(Runs.Exec(run + Sends(p, order[..k])), p, n, e, order, k)
    ensures ViewOf(Runs.Exec(run + Sends(p, order[..k]))) == OfferAll(ViewOf(Runs.Exec(run)), e, Elements(order[..k]))
  {
    if k == 0 {
      assert run + Sends(p, order[..0]) == run;
      OfferNone(ViewOf(Runs.Exec(run)), e);
      assert Elements(order[..0]) == {};
    } else {
      AllSends(run, p, n, e, order, k - 1);
      OneMoreSend(run, p, n, e, order, k - 1);
    }
  }

  lemma OneMoreSend(run: seq<Runs.Action>, p: nat, n: nat, e: Envelope, order: seq<Runs.ChanId>, k: nat)
    requires Runs.Feasible(run) && k < |order| && Ready(Runs.Exec(run), order)
    requires Runs.Feasible(run + Sends(p, order[..k]))
    requires UnderWay(Runs.Exec(run + Sends(p, order[..k])), p, n, e, order, k)
    requires ViewOf(Runs.Exec(run + Sends(p, order[..k]))) == OfferAll(ViewOf(Runs.Exec(run)), e, Elements(order[..k]))
    ensures Runs.Feasible(run + Sends(p, order[..k + 1]))
    ensures UnderWay(Runs.Exec(run + Sends(p, order[..k + 1])), p, n, e, order, k + 1)
    ensures ViewOf(Runs.Exec(run + Sends(p, order[..k + 1]))) ==
            OfferAll(ViewOf(Runs.Exec(run)), e, Elements(order[..k + 1]))
  {
    var pre := run + Sends(p, order[..k]);
    ReadyStill(Runs.Exec(run), Runs.Exec(pre), e, Elements(order[..k]), order);
    SendNext(Runs.Exec(pre), p, n, e, order, k);
    Extend(pre, Runs.Send(p, order[k]));
    SendsGrow(run, p, order, k);
    OfferMore(ViewOf(Runs.Exec(run)), e, Elements(order[..k]), order[k]);
    NewElement(order, k);
  }

  lemma NewElement(order: seq<Runs.ChanId>, k: nat)
    requires k < |order|
    ensures Elements(order[..k + 1]) == Elements(order[..k]) + {order[k]}
  {
    assert order[..k + 1] == order[..k] + [order[k]];
  }

  lemma SendsGrow(run: seq<Runs.Action>, p: nat, order: seq<Runs.ChanId>, k: nat)
    requires k < |order|
    ensures run + Sends(p, order[..k + 1]) == (run + Sends(p, order[..k])) + [Runs.Send(p, order[k])]
  {
    assert order[..k + 1][..k] == order[..k];
  }

  /** In whatever order the maps of taps and listeners are enumerated, the Emit can be made,
      and it offers the event once to each channel that is registered for it. */
  lemma EmitAlone(run: seq<Runs.Action>, p: nat, t: TypeName, x: string, order: seq<Runs.ChanId>)
    requires Runs.Feasible(run) && Runs.Exec(run).active == map[] && !Runs.Exec(run).crashed
    requires Enumerates(order, Runs.Registered(Runs.Exec(run), t)) && TapsFirst(order, Runs.Exec(run).taps)
    ensures Runs.Feasible(run + EmitActions(p, t, x, order))
    ensures var s, s' := Runs.Exec(run), Runs.Exec(run + EmitActions(p, t, x, order));
            && s'.active == map[]
            && ViewOf(s') == OfferAll(ViewOf(s), Envelope(t, x, |s.emissions|), Runs.Registered(s, t))
  {
    var n := |Runs.Exec(run).emissions|;
    var started := run + [Runs.Start(p, t, x)];
    IndexOkAfter(run);
    Started(Runs.Exec(run), p, t, x, order);
    Extend(run, Runs.Start(p, t, x));
    SendsAndEnd(started, p, n, Envelope(t, x, n), order);
    Regroup(run, p, t, x, order);
  }

  lemma IndexOkAfter(run: seq<Runs.Action>)
    requires Runs.Feasible(run)
    ensures Runs.IndexOk(Runs.Exec(run))
  {
    Runs.RunKeepsInv(run);
  }

  lemma Regroup(run: seq<Runs.Action>, p: nat, t: TypeName, x: string, order: seq<Runs.ChanId>)
    ensures run + EmitActions(p, t, x, order) == run + [Runs.Start(p, t, x)] + Sends(p, order) + [Runs.End(p)]
  {}

  lemma Started(s: Runs.State, p: nat, t: TypeName, x: string, order: seq<Runs.ChanId>)
    requires Runs.IndexOk(s) && s.active == map[] && !s.crashed
    requires Enumerates(order, Runs.Registered(s, t)) && TapsFirst(order, s.taps)
    ensures var a, e := Runs.Start(p, t, x), Envelope(t, x, |s.emissions|);
            && Runs.Enabled(s, a) && UnderWay(Runs.Apply(s, a), p, |s.emissions|, e, order, 0)
            && ViewOf(Runs.Apply(s, a)) == ViewOf(s) && Ready(Runs.Apply(s, a), order)
    ensures Elements(order) == Runs.Registered(s, t)
  {
    var s' := Runs.Apply(s, Runs.Start(p, t, x));
    assert order[0..] == order;
    assert Elements(order) == Runs.Registered(s, t);
    assert s'.active == map[p := |s.emissions|];
    forall c | c in order ensures c in s.subs {
      if c !in s.taps { assert (t, c) in s.flat; }
    }
  }

  lemma SendsAndEnd(run: seq<Runs.Action>, p: nat, n: nat, e: Envelope, order: seq<Runs.ChanId>)
    requires Runs.Feasible(run) && UnderWay(Runs.Exec(run), p, n, e, order, 0) && Ready(Runs.Exec(run), order)
    ensures var all := run + Sends(p, order) + [Runs.End(p)];
            && Runs.Feasible(all) && Runs.Exec(all).active == map[]
            && ViewOf(Runs.Exec(all)) == OfferAll(ViewOf(Runs.Exec(run)), e, Elements(order))
  {
    AllSends(run, p, n, e, order, |order|);
    assert order[..|order|] == order && order[|order|..] == [];
    var sent := run + Sends(p, order);
    ReadyStill(Runs.Exec(run), Runs.Exec(sent), e, Elements(order), order);
    Extend(sent, Runs.End(p));
  }

  // ----- the object -----

  function Called(name: map<Runs.ChanId, Channel>, cs: set<Runs.ChanId>): set<Channel>
    requires cs <= name.Keys
  {
    set c | c in cs :: name[c]
  }

  function PairsCalled(name: map<Runs.ChanId, Channel>, flat: set<(TypeName, Runs.ChanId)>): set<(TypeName, Channel)>
    requires forall p :: p in flat ==> p.1 in name
  {
    set p | p in flat :: (p.0, name[p.1])
  }

  function Listening(v: View, t: TypeName): set<Runs.ChanId> {
    if t in v.index then v.index[t] else {}
  }

  ghost predicate Injective(name: map<Runs.ChanId, Channel>) {
    forall c, d :: c in name && d in name && c != d ==> name[c] != name[d]
  }

  /** The registrations of b are those of v, the channel called c being name[c]. */
  ghost predicate Names(b: Bus, v: View, name: map<Runs.ChanId, Channel>)
    reads b
  {
    && name.Keys == v.chans.Keys && Injective(name)
    && (forall c :: c in name ==> name[c].kind == v.chans[c].kind)
    && v.taps <= name.Keys && b.taps == Called(name, v.taps)
    && (forall p :: p in v.flat ==> p.1 in name) && b.Flat() == PairsCalled(name, v.flat)
  }

  /** The object b stands for the view v. */
  ghost predicate Represents(b: Bus, v: View, name: map<Runs.ChanId, Channel>)
    reads b, name.Values
  {
    Names(b, v, name) && forall c :: c in name ==> name[c].state == v.chans[c]
  }

  /** Emit on an object that stands for the state after a run leaves one that stands for the
      state after that run and an Emit of p, and fails on exactly the channels that are then
      newly to be cleaned up. */
  method EmitRefines(b: Bus, e: Envelope, ghost run: seq<Runs.Action>, ghost name: map<Runs.ChanId, Channel>,
                     ghost p: nat, ghost order: seq<Runs.ChanId>)
    returns (failed: set<Channel>)
    requires b.Valid() && Runs.Feasible(run) && Represents(b, ViewOf(Runs.Exec(run)), name)
    requires Runs.Exec(run).active == map[] && !Runs.Exec(run).crashed && e.id == |Runs.Exec(run).emissions|
    requires Enumerates(order, Runs.Registered(Runs.Exec(run), e.typ)) && TapsFirst(order, Runs.Exec(run).taps)
    modifies b.taps, b.Of(e.typ)
    ensures b.Valid() && Runs.Feasible(run + EmitActions(p, e.typ, e.payload, order))
    ensures var v, v' := ViewOf(Runs.Exec(run)), ViewOf(Runs.Exec(run + EmitActions(p, e.typ, e.payload, order)));
            Represents(b, v', name) && v'.cleanup == v.cleanup + multiset(set c | c in name && name[c] in failed)
  {
    EmitAlone(run, p, e.typ, e.payload, order);
    IndexOkAfter(run);
    failed := EmitOffers(b, e, ViewOf(Runs.Exec(run)), name);
  }

  lemma OfCalled(b: Bus, v: View, name: map<Runs.ChanId, Channel>, t: TypeName)
    requires Names(b, v, name) && forall c :: (t, c) in v.flat <==> c in Listening(v, t)
    ensures Listening(v, t) <= name.Keys && b.Of(t) == Called(name, Listening(v, t))
  {
    forall c | c in Listening(v, t) ensures c in name && name[c] in b.Of(t) {
      assert (t, c) in v.flat;
      assert (t, name[c]) in b.Flat();
    }
    forall ch | ch in b.Of(t) ensures ch in Called(name, Listening(v, t)) {
      assert (t, ch) in b.Flat();
    }
  }

  method EmitOffers(b: Bus, e: Envelope, ghost v: View, ghost name: map<Runs.ChanId, Channel>)
    returns (failed: set<Channel>)
    requires b.Valid() && Represents(b, v, name)
    requires forall c :: (e.typ, c) in v.flat <==> c in Listening(v, e.typ)
    modifies b.taps, b.Of(e.typ)
    ensures b.Valid() && Represents(b, OfferAll(v, e, v.taps + Listening(v, e.typ)), name)
    ensures OfferAll(v, e, v.taps + Listening(v, e.typ)).cleanup ==
            v.cleanup + multiset(set c | c in name && name[c] in failed)
  {
    ghost var cs := v.taps + Listening(v, e.typ);
    OfCalled(b, v, name, e.typ);
    forall c | c in name ensures name[c] in b.taps + b.Of(e.typ) <==> c in cs {}
    failed := b.Emit(e);
    assert b.Flat() == old(b.Flat());
    assert (set c | c in name && name[c] in failed) == set c | c in cs && c in v.chans && v.chans[c].closed;
  }

  // ----- registrations -----

  lemma CalledMore(name: map<Runs.ChanId, Channel>, cs: set<Runs.ChanId>, c: Runs.ChanId)
    requires cs <= name.Keys && c in name && Injective(name)
    ensures Called(name, cs + {c}) == Called(name, cs) + {name[c]}
    ensures Called(name, cs - {c}) == Called(name, cs) - {name[c]}
  {}

  lemma PairsMore(name: map<Runs.ChanId, Channel>, flat: set<(TypeName, Runs.ChanId)>, t: TypeName, c: Runs.ChanId)
    requires (forall p :: p in flat ==> p.1 in name) && c in name && Injective(name)
    ensures PairsCalled(name, flat + {(t, c)}) == PairsCalled(name, flat) + {(t, name[c])}
    ensures PairsCalled(name, flat - {(t, c)}) == PairsCalled(name, flat) - {(t, name[c])}
  {
    var less := flat - {(t, c)};
    forall q | q in PairsCalled(name, flat) && q != (t, name[c]) ensures q in PairsCalled(name, less) {
      var p :| p in flat && q == (p.0, name[p.1]);
      assert p in less;
    }
  }

  /** Listen does what Register does to a typed channel. */
  method ListenRefines(b: Bus, ch: Channel, ghost s: Runs.State, ghost name: map<Runs.ChanId, Channel>,
                       ghost c: Runs.ChanId)
    requires b.Valid() && ch.Valid() && Represents(b, ViewOf(s), name)
    requires Runs.Enabled(s, Runs.Register(c)) && c in name && name[c] == ch && ch.kind.Typed?
    modifies b
    ensures b.Valid() && Represents(b, ViewOf(Runs.Apply(s, Runs.Register(c))), name)
  {
    PairsMore(name, s.flat, ch.kind.typ, c);
    assert ViewOf(Runs.Apply(s, Runs.Register(c))).chans == ViewOf(s).chans;
    b.Listen(ch);
  }

  /** Tap does what Register does to an untyped one. */
  method TapRefines(b: Bus, ch: Channel, ghost s: Runs.State, ghost name: map<Runs.ChanId, Channel>,
                    ghost c: Runs.ChanId)
    requires b.Valid() && ch.Valid() && Represents(b, ViewOf(s), name)
    requires Runs.Enabled(s, Runs.Register(c)) && c in name && name[c] == ch && ch.kind.Untyped?
    modifies b
    ensures b.Valid() && Represents(b, ViewOf(Runs.Apply(s, Runs.Register(c))), name)
  {
    CalledMore(name, s.taps, c);
    assert ViewOf(Runs.Apply(s, Runs.Register(c))).chans == ViewOf(s).chans;
    b.Tap(ch);
    assert b.Flat() == old(b.Flat());
  }

  /** Unlisten does what Unregister does to a typed channel. */
  method UnlistenRefines(b: Bus, ch: Channel, ghost s: Runs.State, ghost name: map<Runs.ChanId, Channel>,
                         ghost c: Runs.ChanId)
    requires b.Valid() && Represents(b, ViewOf(s), name)
    requires Runs.Enabled(s, Runs.Unregister(c)) && c in name && name[c] == ch && ch.kind.Typed?
    modifies b
    ensures b.Valid() && Represents(b, ViewOf(Runs.Apply(s, Runs.Unregister(c))), name)
  {
    PairsMore(name, s.flat, ch.kind.typ, c);
    assert ViewOf(Runs.Apply(s, Runs.Unregister(c))).chans == ViewOf(s).chans;
    b.Unlisten(ch);
  }

  /** Untap does what Unregister does to an untyped one. */
  method UntapRefines(b: Bus, ch: Channel, ghost s: Runs.State, ghost name: map<Runs.ChanId, Channel>,
                      ghost c: Runs.ChanId)
    requires b.Valid() && Represents(b, ViewOf(s), name)
    requires Runs.Enabled(s, Runs.Unregister(c)) && c in name && name[c] == ch && ch.kind.Untyped?
    modifies b
    ensures b.Valid() && Represents(b, ViewOf(Runs.Apply(s, Runs.Unregister(c))), name)
  {
    CalledMore(name, s.taps, c);
    assert ViewOf(Runs.Apply(s, Runs.Unregister(c))).chans == ViewOf(s).chans;
    b.Untap(ch);
    assert b.Flat() == old(b.Flat());
  }

  // ----- cancellation -----

  lemma AllIsCalled(b: Bus, s: Runs.State, name: map<Runs.ChanId, Channel>)
    requires Names(b, ViewOf(s), name)
    ensures Runs.All(s) <= name.Keys && b.All() == Called(name, Runs.All(s))
  {
    forall c | c in Runs.All(s) ensures c in name && name[c] in b.All() {
      if c !in s.taps {
        var p :| p in s.flat && p.1 == c;
        assert (p.0, name[c]) in b.Flat();
      }
    }
    forall ch | ch in b.All() ensures ch in Called(name, Runs.All(s)) {
      if ch !in b.taps {
        var t :| t in b.listeners && ch in b.listeners[t].chs;
        assert (t, ch) in b.Flat();
      }
    }
  }

  /** The view after the channels cs are closed. */
  function Closed(v: View, cs: set<Runs.ChanId>, crashed: bool): View {
    v.(chans := map c | c in v.chans :: if c in cs then v.chans[c].(closed := true) else v.chans[c],
       crashed := crashed)
  }

  lemma CancelCloses(s: Runs.State, first: set<Runs.ChanId>)
    requires Runs.Enabled(s, Runs.Cancel(first))
    ensures ViewOf(Runs.Apply(s, Runs.Cancel(first))) ==
            Closed(ViewOf(s), if Runs.AnyDown(s) then first else Runs.All(s), Runs.AnyDown(s))
  {
    var v, w := ViewOf(Runs.Apply(s, Runs.Cancel(first))),
                Closed(ViewOf(s), if Runs.AnyDown(s) then first else Runs.All(s), Runs.AnyDown(s));
    assert v.chans == w.chans;
  }

  /** Cancel of the object does what Cancel does, for the channels it closed before a panic. */
  method CancelRefines(b: Bus, ghost s: Runs.State, ghost name: map<Runs.ChanId, Channel>)
    returns (panicked: bool, ghost first: set<Runs.ChanId>)
    requires b.Valid() && Represents(b, ViewOf(s), name) && s.active == map[] && !s.crashed
    modifies b.All()
    ensures Runs.Enabled(s, Runs.Cancel(first)) && b.Valid()
    ensures Represents(b, ViewOf(Runs.Apply(s, Runs.Cancel(first))), name)
    ensures panicked <==> Runs.Apply(s, Runs.Cancel(first)).crashed
  {
    AllIsCalled(b, s, name);
    panicked, first := CancelChannels(b, ViewOf(s), name, Runs.All(s));
    assert panicked <==> Runs.AnyDown(s);
    CancelCloses(s, first);
  }

  method CancelChannels(b: Bus, ghost v: View, ghost name: map<Runs.ChanId, Channel>, ghost all: set<Runs.ChanId>)
    returns (panicked: bool, ghost first: set<Runs.ChanId>)
    requires b.Valid() && Represents(b, v, name) && all <= name.Keys && b.All() == Called(name, all)
    modifies b.All()
    ensures b.Valid() && Represents(b, Closed(v, if panicked then first else all, panicked), name)
    ensures first <= all && forall c :: c in first ==> !v.chans[c].closed
    ensures panicked <==> exists c :: c in all && v.chans[c].closed
  {
    forall c | c in name ensures name[c] in b.All() <==> c in all {}
    panicked := b.Cancel();
    first := set c | c in all && name[c].state != v.chans[c];
    assert b.Flat() == old(b.Flat());
  }
}
