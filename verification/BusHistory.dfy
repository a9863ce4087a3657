/** The state of the event bus told from the actions of a run: who is registered, which
    channels are closed, which removals are still to come, and who is emitting. */
module BusHistory {
  import opened Channels
  import opened BusRuns
  import opened Options

  // ----- registrations -----

  /** Whether an action leaves a channel on the bus. */
  function Lists(on: bool, a: Action, c: ChanId): bool {
    match a
    case Register(x) => x == c || on
    case Unregister(x) => x != c && on
    case Cleanup(x) => x != c && on
    case _ => on
  }

  /** The last registration of c in the run came after its last removal. */
  function Listed(run: seq<Action>, c: ChanId): bool {
    run != [] && Lists(Listed(run[..|run| - 1], c), run[|run| - 1], c)
  }

  /** A channel takes events of its own type, an untyped one those of every type. */
  predicate Takes(s: State, c: ChanId, t: TypeName) {
    c in s.subs && (s.subs[c].chan.kind == Untyped || s.subs[c].chan.kind == Typed(t))
  }

  ghost predicate IsListed(s: State, c: ChanId, on: bool) {
    forall t :: c in Registered(s, t) <==> on && Takes(s, c, t)
  }

  lemma RemoveLists(s: State, c: ChanId, d: ChanId, on: bool)
    requires IndexOk(s) && c in s.subs && IsListed(s, d, on)
    ensures IsListed(Remove(s, c), d, d != c && on)
  {
    RemoveOne(s, c);
    RemovedOne(s, c);
  }

  lemma CleanupLists(s: State, c: ChanId, d: ChanId, on: bool)
    requires IndexOk(s) && Enabled(s, Cleanup(c)) && IsListed(s, d, on)
    ensures IsListed(Apply(s, Cleanup(c)), d, d != c && on)
  {
    RemoveLists(s, c, d, on);
    var s' := Apply(s, Cleanup(c));
    assert forall t :: Registered(s', t) == Registered(Remove(s, c), t);
    assert forall t :: Takes(s', d, t) <==> Takes(Remove(s, c), d, t);
  }

  lemma RegisterLists(s: State, c: ChanId, d: ChanId, on: bool)
    requires IndexOk(s) && Enabled(s, Register(c)) && IsListed(s, d, on)
    ensures IsListed(Apply(s, Register(c)), d, d == c || on)
  {
    var s' := Apply(s, Register(c));
    forall t ensures d in Registered(s', t) <==> (d == c || on) && Takes(s', d, t) {
      assert d in Registered(s, t) <==> on && Takes(s, d, t);
      assert Takes(s', d, t) <==> Takes(s, d, t);
    }
  }

  lemma MakeLists(s: State, a: Action, d: ChanId, on: bool)
    requires IndexOk(s) && a.Make? && Enabled(s, a) && IsListed(s, d, on) && (on ==> d in s.subs)
    ensures IsListed(Apply(s, a), d, on)
  {
    var s' := Apply(s, a);
    forall t ensures d in Registered(s', t) <==> on && Takes(s', d, t) {
      assert d in Registered(s, t) <==> on && Takes(s, d, t);
    }
  }

  lemma OtherLists(s: State, a: Action, d: ChanId, on: bool)
    requires Enabled(s, a) && IsListed(s, d, on)
    requires !a.Make? && !a.Register? && !a.Unregister? && !a.Cleanup?
    ensures IsListed(Apply(s, a), d, on)
  {
    var s' := Apply(s, a);
    assert forall t :: Registered(s', t) == Registered(s, t);
    assert forall t :: Takes(s', d, t) <==> Takes(s, d, t);
  }

  lemma StepLists(s: State, a: Action, c: ChanId, on: bool)
    requires IndexOk(s) && Enabled(s, a) && IsListed(s, c, on) && (on ==> c in s.subs)
    ensures IsListed(Apply(s, a), c, Lists(on, a, c))
  {
    match a
    case Make(_, _, _) => MakeLists(s, a, c, on);
    case Register(d) => RegisterLists(s, d, c, on);
    case Unregister(d) => RemoveLists(s, d, c, on);
    case Cleanup(d) => CleanupLists(s, d, c, on);
    case _ => OtherLists(s, a, c, on);
  }

  /** A channel is on the bus, for the types that it takes, exactly when its last registration
      came after its last removal. */
  lemma {:induction false} RegisteredIffListed(run: seq<Action>, c: ChanId)
    requires Feasible(run)
    ensures IsListed(Exec(run), c, Listed(run, c)) && (Listed(run, c) ==> c in Exec(run).subs)
  {
    if run != [] {
      RegisteredIffListed(run[..|run| - 1], c);
      RunKeepsInv(run[..|run| - 1]);
      StepLists(Exec(run[..|run| - 1]), run[|run| - 1], c, Listed(run[..|run| - 1], c));
    }
  }

  /** The actions from k on hold no registration of c. */
  predicate NotAgain(run: seq<Action>, k: nat, c: ChanId) {
    forall i :: k <= i < |run| ==> run[i] != Register(c)
  }

  lemma {:induction false} StaysOff(run: seq<Action>, k: nat, c: ChanId)
    requires k < |run| && (run[k] == Cleanup(c) || run[k] == Unregister(c)) && NotAgain(run, k, c)
    ensures !Listed(run, c)
    decreases |run|
  {
    if k < |run| - 1 { StaysOff(run[..|run| - 1], k, c); }
  }

  /** After its removal, by a subscriber or by the cleanup of a failed send, a channel is no
      target of any later emission, unless it was registered again. */
  lemma NoTargetAfterRemoval(run: seq<Action>, k: nat, j: nat, c: ChanId)
    requires Feasible(run) && k < j < |run| && (run[k] == Cleanup(c) || run[k] == Unregister(c))
    requires run[j].Start? && NotAgain(run[..j], k, c)
    ensures Feasible(run[..j]) && Feasible(run[..j + 1])
    ensures var n := |Exec(run[..j]).emissions|;
            |Exec(run[..j + 1]).emissions| == n + 1 && c !in Exec(run[..j + 1]).emissions[n].targets
  {
    FeasiblePrefix(run, j);
    FeasiblePrefix(run, j + 1);
    assert run[..j + 1][..j] == run[..j];
    StaysOff(run[..j], k, c);
    RegisteredIffListed(run[..j], c);
    NewEmission(Exec(run[..j]), run[j]);
  }

  // ----- removals to come -----

  function FailedSends(run: seq<Action>, c: ChanId): nat
    requires Feasible(run)
  {
    if run == [] then 0
    else
      var s, a := Exec(run[..|run| - 1]), run[|run| - 1];
      FailedSends(run[..|run| - 1], c) + if a.Send? && a.c == c && s.subs[c].chan.closed then 1 else 0
  }

  function Cleanups(run: seq<Action>, c: ChanId): nat {
    if run == [] then 0 else Cleanups(run[..|run| - 1], c) + if run[|run| - 1] == Cleanup(c) then 1 else 0
  }

  lemma StepCleanup(s: State, a: Action, c: ChanId)
    requires Enabled(s, a)
    ensures Apply(s, a).cleanup[c] ==
            s.cleanup[c] + (if a.Send? && a.c == c && s.subs[c].chan.closed then 1 else 0)
                         - (if a == Cleanup(c) then 1 else 0)
  {}

  /** Every send that met the closed channel starts one removal of it, and each is made once. */
  lemma {:induction false} CleanupsAreDue(run: seq<Action>, c: ChanId)
    requires Feasible(run)
    ensures Exec(run).cleanup[c] == FailedSends(run, c) - Cleanups(run, c)
  {
    if run != [] {
      CleanupsAreDue(run[..|run| - 1], c);
      StepCleanup(Exec(run[..|run| - 1]), run[|run| - 1], c);
    }
  }

  // ----- what each channel got -----

  /** The events of the sends to c that found room, in the order of the sends. */
  function Accepted(run: seq<Action>, c: ChanId): seq<Envelope>
    requires Feasible(run)
  {
    if run == [] then []
    else
      var s, a := Exec(run[..|run| - 1]), run[|run| - 1];
      Accepted(run[..|run| - 1], c) +
      if a.Send? && a.c == c && Meets(s.subs[c].chan) == Delivered then [s.emissions[s.active[a.p]].env] else []
  }

  function Reads(run: seq<Action>, c: ChanId): nat {
    if run == [] then 0 else Reads(run[..|run| - 1], c) + if run[|run| - 1] == Read(c) then 1 else 0
  }

  /** How the channel was made. */
  function Made(run: seq<Action>, c: ChanId): seq<(Kind, nat)> {
    if run == [] then []
    else
      var a := run[|run| - 1];
      Made(run[..|run| - 1], c) + if a.Make? && a.c == c then [(a.kind, a.cap)] else []
  }

  /** What was put in a channel, what was taken from it, and how it was made. */
  ghost predicate Holds(s: State, c: ChanId, made: seq<(Kind, nat)>, got: seq<Envelope>, n: nat) {
    if c in s.subs then
      && made == [(s.subs[c].chan.kind, s.subs[c].chan.cap)]
      && s.subs[c].got == got && n <= |got|
      && s.subs[c].read == got[..n] && s.subs[c].chan.buf == got[n..]
    else made == [] && got == [] && n == 0
  }

  lemma SendHolds(s: State, p: nat, c: ChanId, made: seq<(Kind, nat)>, got: seq<Envelope>, n: nat)
    requires Enabled(s, Send(p, c)) && Holds(s, c, made, got, n)
    ensures var u := s.subs[c];
            Holds(Apply(s, Send(p, c)), c, made,
                  got + (if Meets(u.chan) == Delivered then [s.emissions[s.active[p]].env] else []), n)
  {
    var e := s.emissions[s.active[p]].env;
    assert got[n..] + [e] == (got + [e])[n..] && (got + [e])[..n] == got[..n];
    assert got + [] == got;
  }

  lemma ReadHolds(s: State, c: ChanId, made: seq<(Kind, nat)>, got: seq<Envelope>, n: nat)
    requires Enabled(s, Read(c)) && Holds(s, c, made, got, n)
    ensures Holds(Apply(s, Read(c)), c, made, got, n + 1)
  {
    assert got[..n] + [got[n]] == got[..n + 1] && got[n..][1..] == got[n + 1..];
  }

  /** Any other action at most closes the channel. */
  lemma OtherSub(s: State, a: Action, c: ChanId)
    requires Enabled(s, a) && ((a.Make? || a.Send? || a.Read?) ==> a.c != c)
    ensures c in Apply(s, a).subs <==> c in s.subs
    ensures c in s.subs ==> Apply(s, a).subs[c] == s.subs[c] || Apply(s, a).subs[c] == Shut(s.subs[c])
  {}

  lemma OtherHolds(s: State, a: Action, c: ChanId, made: seq<(Kind, nat)>, got: seq<Envelope>, n: nat)
    requires Enabled(s, a) && Holds(s, c, made, got, n)
    requires (a.Make? || a.Send? || a.Read?) ==> a.c != c
    ensures Holds(Apply(s, a), c, made, got, n)
  {
    OtherSub(s, a, c);
  }

  /** Every channel got exactly the events whose sends found room, in the order of the sends, and
      its subscriber has read as many of them, from the first on, as it made reads. */
  lemma {:induction false} ChannelsFollow(run: seq<Action>, c: ChanId)
    requires Feasible(run)
    ensures Holds(Exec(run), c, Made(run, c), Accepted(run, c), Reads(run, c))
  {
    if run != [] {
      var pre, a := run[..|run| - 1], run[|run| - 1];
      var s := Exec(pre);
      ChannelsFollow(pre, c);
      if a.Send? && a.c == c {
        SendHolds(s, a.p, c, Made(pre, c), Accepted(pre, c), Reads(pre, c));
      } else if a == Read(c) {
        ReadHolds(s, c, Made(pre, c), Accepted(pre, c), Reads(pre, c));
      } else if !(a.Make? && a.c == c) {
        OtherHolds(s, a, c, Made(pre, c), Accepted(pre, c), Reads(pre, c));
      }
    }
  }

  // ----- who is emitting -----

  /** How many Emits began. */
  function Starts(run: seq<Action>): nat {
    if run == [] then 0 else Starts(run[..|run| - 1]) + if run[|run| - 1].Start? then 1 else 0
  }

  /** The Emit that a goroutine is in, by its last start or end. */
  function InEmit(run: seq<Action>, p: nat): Option<nat> {
    if run == [] then None
    else match run[|run| - 1]
      case Start(q, _, _) => if q == p then Some(Starts(run[..|run| - 1])) else InEmit(run[..|run| - 1], p)
      case End(q) => if q == p then None else InEmit(run[..|run| - 1], p)
      case _ => InEmit(run[..|run| - 1], p)
  }

  predicate IsEmitting(s: State, p: nat, e: Option<nat>) {
    match e
    case None => p !in s.active
    case Some(n) => p in s.active && s.active[p] == n
  }

  lemma StepEmits(s: State, a: Action, p: nat, e: Option<nat>)
    requires Enabled(s, a) && IsEmitting(s, p, e)
    ensures |Apply(s, a).emissions| == |s.emissions| + if a.Start? then 1 else 0
    ensures IsEmitting(Apply(s, a), p,
              if a.Start? && a.p == p then Some(|s.emissions|) else if a.End? && a.p == p then None else e)
  {}

  /** The read locks are held by exactly the goroutines whose last start has no end yet. */
  lemma {:induction false} EmittersFollow(run: seq<Action>, p: nat)
    requires Feasible(run)
    ensures |Exec(run).emissions| == Starts(run) && IsEmitting(Exec(run), p, InEmit(run, p))
  {
    if run != [] {
      EmittersFollow(run[..|run| - 1], p);
      StepEmits(Exec(run[..|run| - 1]), run[|run| - 1], p, InEmit(run[..|run| - 1], p));
    }
  }

  // ----- which channels are closed -----

  lemma TakesAllListed(s: State, c: ChanId, on: bool)
    requires IndexOk(s) && IsListed(s, c, on) && (on ==> c in s.subs)
    ensures c in All(s) <==> on
  {
    if on {
      var t := if s.subs[c].chan.kind.Typed? then s.subs[c].chan.kind.typ else "";
      assert c in Registered(s, t);
      assert c in s.taps || (t, c) in s.flat;
    }
    if c in s.taps {
      assert c in Registered(s, "");
    } else if pair :| pair in s.flat && pair.1 == c {
      assert c in Registered(s, pair.0);
    }
  }

  lemma AllAreListed(run: seq<Action>, c: ChanId)
    requires Feasible(run)
    ensures c in All(Exec(run)) <==> Listed(run, c)
  {
    RunKeepsInv(run);
    RegisteredIffListed(run, c);
    TakesAllListed(Exec(run), c, Listed(run, c));
  }

  /** The run ended in a cancellation that found a registered channel closed. */
  ghost predicate Crashes(run: seq<Action>)
    requires Feasible(run)
    decreases |run|, 1
  {
    run != [] && run[|run| - 1].Cancel? && AnyShut(run[..|run| - 1])
  }

  ghost predicate AnyShut(run: seq<Action>)
    requires Feasible(run)
    decreases |run|, 4
  {
    exists c :: ListedAndShut(run, c)
  }

  ghost predicate ListedAndShut(run: seq<Action>, c: ChanId)
    requires Feasible(run)
    decreases |run|, 3
  {
    Listed(run, c) && WasShut(run, c)
  }

  /** The subscriber closed it, or a cancellation that found it registered; one that crashes may
      have come only to some of them. */
  ghost predicate WasShut(run: seq<Action>, c: ChanId)
    requires Feasible(run)
    decreases |run|, 2
  {
    run != [] &&
    (WasShut(run[..|run| - 1], c)
     || run[|run| - 1] == Close(c)
     || (run[|run| - 1].Cancel? && if Crashes(run) then c in run[|run| - 1].first else Listed(run[..|run| - 1], c)))
  }

  lemma CancelCloses(s: State, first: set<ChanId>, c: ChanId)
    requires Enabled(s, Cancel(first))
    ensures var s' := Apply(s, Cancel(first));
            && (Down(s', c) <==> Down(s, c) || (c in s.subs && if AnyDown(s) then c in first else c in All(s)))
            && (s'.crashed <==> AnyDown(s))
  {}

  lemma OtherCloses(s: State, a: Action, c: ChanId)
    requires Enabled(s, a) && !a.Cancel?
    ensures Down(Apply(s, a), c) <==> Down(s, c) || a == Close(c)
    ensures !Apply(s, a).crashed
  {}

  lemma StepCloses(s: State, a: Action, c: ChanId)
    requires Enabled(s, a)
    ensures Down(Apply(s, a), c) <==>
              Down(s, c) || a == Close(c)
              || (a.Cancel? && c in s.subs && if AnyDown(s) then c in a.first else c in All(s))
    ensures Apply(s, a).crashed <==> a.Cancel? && AnyDown(s)
  {
    if a.Cancel? { CancelCloses(s, a.first, c); } else { OtherCloses(s, a, c); }
  }

  lemma AnyDownIff(run: seq<Action>)
    requires Feasible(run) && forall c :: Down(Exec(run), c) <==> WasShut(run, c)
    ensures AnyDown(Exec(run)) <==> AnyShut(run)
  {
    if AnyDown(Exec(run)) {
      var c :| c in All(Exec(run)) && Down(Exec(run), c);
      AllAreListed(run, c);
      assert ListedAndShut(run, c);
    }
    if c :| ListedAndShut(run, c) {
      AllAreListed(run, c);
      assert c in All(Exec(run)) && Down(Exec(run), c);
    }
  }

  /** A channel is closed exactly when its subscriber or a cancellation closed it, and the process
      dies exactly in a cancellation that finds a registered channel closed. */
  lemma {:induction false} ClosedIffShut(run: seq<Action>)
    requires Feasible(run)
    ensures forall c :: Down(Exec(run), c) <==> WasShut(run, c)
    ensures Exec(run).crashed <==> Crashes(run)
  {
    if run != [] {
      var pre, a := run[..|run| - 1], run[|run| - 1];
      var s := Exec(pre);
      ClosedIffShut(pre);
      RunKeepsInv(pre);
      AnyDownIff(pre);
      StepCloses(s, a, 0);
      assert Crashes(run) <==> a.Cancel? && AnyDown(s);
      forall c ensures Down(Exec(run), c) <==> WasShut(run, c) {
        AllAreListed(pre, c);
        RegisteredIffListed(pre, c);
        StepCloses(s, a, c);
      }
    }
  }

  // ----- what can happen next -----

  /** Nobody holds a read lock. */
  ghost predicate Quiet(run: seq<Action>) {
    forall p :: InEmit(run, p) == None
  }

  lemma QuietIff(run: seq<Action>)
    requires Feasible(run)
    ensures Quiet(run) <==> Exec(run).active == map[]
  {
    forall p ensures InEmit(run, p) == None <==> p !in Exec(run).active { EmittersFollow(run, p); }
    if Exec(run).active != map[] {
      var p :| p in Exec(run).active;
      assert InEmit(run, p) != None;
    }
  }

  /** The targets of emission n to which no send was made yet. */
  function ToSend(s: State, n: nat): set<ChanId>
    requires n < |s.emissions|
  {
    s.emissions[n].targets - s.emissions[n].met.Keys
  }

  predicate MadeUntyped(run: seq<Action>, c: ChanId) {
    Made(run, c) != [] && Made(run, c)[0].0 == Untyped
  }

  /** What the goroutines can do next, told from the run, its emissions and the targets that they
      still have to reach. Untyped channels come first. */
  ghost predicate Allowed(run: seq<Action>, a: Action)
    requires Feasible(run)
  {
    match a
    case Make(c, _, _) => Made(run, c) == []
    case Register(c) => Made(run, c) != [] && Quiet(run)
    case Unregister(c) => Made(run, c) != [] && Quiet(run)
    case Start(p, _, _) => InEmit(run, p) == None
    case Send(p, c) => SendAllowed(run, InEmit(run, p), c)
    case End(p) => EndAllowed(run, InEmit(run, p))
    case Read(c) => Reads(run, c) < |Accepted(run, c)|
    case Close(c) => Made(run, c) != [] && !WasShut(run, c)
    case Cleanup(c) => FailedSends(run, c) > Cleanups(run, c) && Quiet(run)
    case Cancel(first) => Quiet(run) && forall c :: c in first ==> Listed(run, c) && !WasShut(run, c)
  }

  ghost predicate SendAllowed(run: seq<Action>, n: Option<nat>, c: ChanId)
    requires Feasible(run)
  {
    n.Some? && n.value < |Exec(run).emissions|
    && c in ToSend(Exec(run), n.value)
    && (MadeUntyped(run, c) || forall d :: d in ToSend(Exec(run), n.value) ==> !MadeUntyped(run, d))
  }

  ghost predicate EndAllowed(run: seq<Action>, n: Option<nat>)
    requires Feasible(run)
  {
    n.Some? && n.value < |Exec(run).emissions| && ToSend(Exec(run), n.value) == {}
  }

  lemma TapIffUntyped(run: seq<Action>, p: nat, c: ChanId)
    requires Feasible(run) && p in Exec(run).active && Exec(run).active[p] < |Exec(run).emissions|
    requires c in Exec(run).emissions[Exec(run).active[p]].targets
    ensures c in Exec(run).subs && (c in Exec(run).taps <==> MadeUntyped(run, c))
  {
    RunKeepsInv(run);
    ChannelsFollow(run, c);
    var s := Exec(run);
    assert EmissionOk(s, s.active[p]);
    assert c in Registered(s, s.emissions[s.active[p]].env.typ);
    if c !in s.taps {
      assert (s.emissions[s.active[p]].env.typ, c) in s.flat;
    }
  }

  lemma SendIffAllowed(run: seq<Action>, p: nat, c: ChanId)
    requires Feasible(run) && !Exec(run).crashed
    ensures Enabled(Exec(run), Send(p, c)) <==> Allowed(run, Send(p, c))
  {
    EmittersFollow(run, p);
    var s := Exec(run);
    if p in s.active && s.active[p] < |s.emissions| {
      forall d | d in Pending(s, p) ensures d in s.subs && (d in s.taps <==> MadeUntyped(run, d)) {
        TapIffUntyped(run, p, d);
      }
    }
  }

  lemma CancelIffAllowed(run: seq<Action>, first: set<ChanId>)
    requires Feasible(run) && !Exec(run).crashed
    ensures Enabled(Exec(run), Cancel(first)) <==> Allowed(run, Cancel(first))
  {
    QuietIff(run);
    ClosedIffShut(run);
    forall c | c in first ensures c in All(Exec(run)) <==> Listed(run, c) { AllAreListed(run, c); }
  }

  lemma CleanupIffAllowed(run: seq<Action>, c: ChanId)
    requires Feasible(run) && !Exec(run).crashed
    ensures Enabled(Exec(run), Cleanup(c)) <==> Allowed(run, Cleanup(c))
  {
    QuietIff(run);
    CleanupsAreDue(run, c);
    RunKeepsInv(run);
  }

  lemma EmitterIffAllowed(run: seq<Action>, a: Action)
    requires Feasible(run) && !Exec(run).crashed && (a.Start? || a.End?)
    ensures Enabled(Exec(run), a) <==> Allowed(run, a)
  {
    EmittersFollow(run, a.p);
  }

  lemma SubscriberIffAllowed(run: seq<Action>, a: Action)
    requires Feasible(run) && !Exec(run).crashed
    requires a.Make? || a.Register? || a.Unregister? || a.Read?
    ensures Enabled(Exec(run), a) <==> Allowed(run, a)
  {
    ChannelsFollow(run, a.c);
    if a.Register? || a.Unregister? { QuietIff(run); }
  }

  lemma CloseIffAllowed(run: seq<Action>, c: ChanId)
    requires Feasible(run) && !Exec(run).crashed
    ensures Enabled(Exec(run), Close(c)) <==> Allowed(run, Close(c))
  {
    ChannelsFollow(run, c);
    ClosedIffShut(run);
  }

  /** In every run of a living process exactly these actions are possible. */
  lemma EnabledIffAllowed(run: seq<Action>, a: Action)
    requires Feasible(run) && !Exec(run).crashed
    ensures Enabled(Exec(run), a) <==> Allowed(run, a)
  {
    match a
    case Send(p, c) => SendIffAllowed(run, p, c);
    case Cancel(first) => CancelIffAllowed(run, first);
    case Cleanup(c) => CleanupIffAllowed(run, c);
    case Close(c) => CloseIffAllowed(run, c);
    case Start(_, _, _) => EmitterIffAllowed(run, a);
    case End(_) => EmitterIffAllowed(run, a);
    case _ => SubscriberIffAllowed(run, a);
  }

  // ----- what can still happen -----

  /** One action more behind run + more. */
  lemma Then(run: seq<Action>, more: seq<Action>, a: Action) returns (more': seq<Action>)
    requires Feasible(run + more) && Enabled(Exec(run + more), a)
    ensures more' == more + [a] && Feasible(run + more') && Exec(run + more') == Apply(Exec(run + more), a)
  {
    more' := more + [a];
    assert run + more' == (run + more) + [a];
    assert (run + more + [a])[..|run + more|] == run + more;
  }

  /** Emits and removals that are under way. */
  predicate WindsUp(a: Action) {
    a.Send? || a.End? || a.Cleanup?
  }

  predicate Winding(run: seq<Action>) {
    forall a :: a in run ==> WindsUp(a)
  }

  lemma ThenWinds(run: seq<Action>, more: seq<Action>, a: Action) returns (more': seq<Action>)
    requires Feasible(run + more) && Enabled(Exec(run + more), a) && Winding(more) && WindsUp(a)
    ensures Feasible(run + more') && Exec(run + more') == Apply(Exec(run + more), a) && Winding(more')
  {
    more' := Then(run, more, a);
  }

  /** A goroutine in an Emit can make the next of its sends, or leave. */
  lemma NextOf(s: State, p: nat) returns (a: Action)
    requires Inv(s) && !s.crashed && p in s.active && s.active[p] < |s.emissions|
    ensures WindsUp(a) && Enabled(s, a)
    ensures var s' := Apply(s, a);
            if Pending(s, p) == {} then s'.active == s.active - {p} && !s'.crashed
            else && s'.active == s.active && !s'.crashed
                 && s'.active[p] < |s'.emissions| && |Pending(s', p)| < |Pending(s, p)|
  {
    if Pending(s, p) == {} {
      a := End(p);
    } else {
      var c := NextTarget(s, p);
      SendsOne(s, p, c);
      a := Send(p, c);
    }
  }

  lemma EmittingIsKnown(run: seq<Action>, p: nat)
    requires Feasible(run) && p in Exec(run).active
    ensures Exec(run).active[p] < |Exec(run).emissions|
  {
    RunKeepsInv(run);
  }

  lemma {:induction false} Leaves(run: seq<Action>, so: seq<Action>, p: nat) returns (more: seq<Action>)
    requires Feasible(run + so) && !Exec(run + so).crashed
    requires p in Exec(run + so).active && Exec(run + so).active[p] < |Exec(run + so).emissions|
    requires Winding(so)
    ensures Feasible(run + more) && !Exec(run + more).crashed && Winding(more)
    ensures Exec(run + more).active == Exec(run + so).active - {p}
    decreases |Pending(Exec(run + so), p)|
  {
    RunKeepsInv(run + so);
    var a := NextOf(Exec(run + so), p);
    more := ThenWinds(run, so, a);
    if Pending(Exec(run + so), p) != {} {
      more := Leaves(run, more, p);
    }
  }

  /** All of them leave. */
  lemma {:induction false} AllLeave(run: seq<Action>, so: seq<Action>) returns (more: seq<Action>)
    requires Feasible(run + so) && !Exec(run + so).crashed && Winding(so)
    ensures Feasible(run + more) && !Exec(run + more).crashed && Winding(more)
    ensures Exec(run + more).active == map[]
    decreases |Exec(run + so).active|
  {
    more := so;
    if p :| p in Exec(run + so).active {
      EmittingIsKnown(run + so, p);
      more := Leaves(run, so, p);
      Smaller(Exec(run + so).active, p);
      more := AllLeave(run, more);
    }
  }

  lemma RemovalIsPossible(s: State, c: ChanId)
    requires CleanupOk(s) && !s.crashed && s.active == map[] && c in s.cleanup
    ensures Enabled(s, Cleanup(c))
    ensures var s' := Apply(s, Cleanup(c));
            !s'.crashed && s'.active == map[] && s'.cleanup == s.cleanup - multiset{c} && |s'.cleanup| < |s.cleanup|
  {}

  /** Then all removals that are due are made. */
  lemma {:induction false} AllRemoved(run: seq<Action>, so: seq<Action>) returns (more: seq<Action>)
    requires Feasible(run + so) && !Exec(run + so).crashed && Exec(run + so).active == map[]
    requires Winding(so)
    ensures Feasible(run + more) && !Exec(run + more).crashed && Winding(more)
    ensures Exec(run + more).active == map[] && Exec(run + more).cleanup == multiset{}
    decreases |Exec(run + so).cleanup|
  {
    more := so;
    if c :| c in Exec(run + so).cleanup {
      RunKeepsInv(run + so);
      RemovalIsPossible(Exec(run + so), c);
      more := ThenWinds(run, so, Cleanup(c));
      more := AllRemoved(run, more);
    }
  }

  lemma {:induction false} FailedSendsGrow(run: seq<Action>, more: seq<Action>, c: ChanId)
    requires Feasible(run + more)
    ensures Feasible(run) && FailedSends(run, c) <= FailedSends(run + more, c)
    decreases |more|
  {
    if more == [] {
      assert run + more == run;
    } else {
      var n := |more| - 1;
      assert (run + more)[..|run + more| - 1] == run + more[..n];
      FailedSendsGrow(run, more[..n], c);
    }
  }

  /** A removal that is made during more, where nothing is registered, leaves c off the bus. */
  lemma {:induction false} RemovedDuring(run: seq<Action>, more: seq<Action>, c: ChanId)
    requires Winding(more)
    ensures Cleanups(run + more, c) > Cleanups(run, c) ==> !Listed(run + more, c)
    decreases |more|
  {
    if more != [] {
      var n := |more| - 1;
      assert (run + more)[..|run + more| - 1] == run + more[..n];
      assert (run + more)[|run + more| - 1] == more[n] && WindsUp(more[n]);
      if more[n] != Cleanup(c) { RemovedDuring(run, more[..n], c); }
    } else {
      assert run + more == run;
    }
  }

  /** From every reachable state of a living process the Emits and removals under way can be
      brought to their ends: nobody is then emitting, no removal is due, and every channel whose
      removal was due is off the bus. Registrations and removals by subscribers can go on. */
  lemma WindUp(run: seq<Action>) returns (more: seq<Action>)
    requires Feasible(run) && !Exec(run).crashed
    ensures Winding(more) && Feasible(run + more)
    ensures var s := Exec(run + more);
            && !s.crashed && s.active == map[] && s.cleanup == multiset{}
            && (forall c :: c in Exec(run).cleanup ==> !Listed(run + more, c))
            && (forall c :: c in s.subs ==> Enabled(s, Register(c)) && Enabled(s, Unregister(c)))
  {
    assert run + [] == run;
    more := AllLeave(run, []);
    more := AllRemoved(run, more);
    forall c | c in Exec(run).cleanup ensures !Listed(run + more, c) {
      CleanupsAreDue(run, c);
      CleanupsAreDue(run + more, c);
      FailedSendsGrow(run, more, c);
      RemovedDuring(run, more, c);
    }
  }

  // ----- every send is recorded -----

  lemma StepRecords(s: State, a: Action, n: nat, c: ChanId)
    requires Enabled(s, a) && n < |s.emissions|
    requires c in s.emissions[n].met || (a.Send? && a.c == c && s.active[a.p] == n)
    ensures n < |Apply(s, a).emissions| && c in Apply(s, a).emissions[n].met
  {}

  /** What a send met stays on record with its emission. */
  lemma {:induction false} EverySendRecorded(run: seq<Action>, n: nat, c: ChanId, k: nat, o: Outcome)
    requires Feasible(run) && SendsAt(run, n, c, k, o)
    ensures n < |Exec(run).emissions| && c in Exec(run).emissions[n].met
    decreases |run|
  {
    var pre, a := run[..|run| - 1], run[|run| - 1];
    if k < |pre| {
      assert pre[..k] == run[..k];
      EverySendRecorded(pre, n, c, k, o);
    } else {
      assert run[..k] == pre;
    }
    StepRecords(Exec(pre), a, n, c);
  }
}
