/** The clock protocol on the wire: GuestClock and HostClock of internal/rpc/time.go over a
    stream that keeps order, with the identifier wrapping at 2^32. */
module ClockStream {
  import Clock

  datatype Guest = Sending | Awaiting | Pausing | WrongId | Gone

  datatype Host = Reading | Replying(id: int) | HostGone

  datatype State = State(
    id: int,
    cycles: nat,           // exchanges begun before this one
    guest: Guest,
    host: Host,
    toHost: seq<int>,      // requests under way
    toGuest: seq<int>)     // replies under way

  datatype Action = Write | HostRead | HostWrite | HostClose | Read | ReadEof | Pause | GuestClose

  function Init(): State {
    State(0, 0, Sending, Reading, [], [])
  }

  predicate Enabled(s: State, a: Action) {
    match a
    case Write => s.guest == Sending
    case HostRead => s.host == Reading && s.toHost != []
    case HostWrite => s.host.Replying?
    case HostClose => s.host != HostGone
    case Read => s.guest == Awaiting && s.toGuest != []
    case ReadEof => s.guest == Awaiting && s.toGuest == [] && s.host == HostGone
    case Pause => s.guest == Pausing
    case GuestClose => s.guest == Sending || s.guest == Awaiting || s.guest == Pausing
  }

  function Apply(s: State, a: Action): State
    requires Enabled(s, a)
  {
    match a
    case Write => s.(guest := Awaiting, toHost := s.toHost + [s.id])
    case HostRead => s.(host := Replying(s.toHost[0]), toHost := s.toHost[1..])
    case HostWrite => s.(host := Reading, toGuest := s.toGuest + [s.host.id])
    case HostClose => s.(host := HostGone)
    case Read => s.(guest := if s.toGuest[0] == s.id then Pausing else WrongId, toGuest := s.toGuest[1..])
    case ReadEof => s.(guest := Pausing)
    case Pause => s.(guest := Sending, id := (s.id + 1) % Clock.WORD32, cycles := s.cycles + 1)
    case GuestClose => s.(guest := Gone)
  }

  predicate Feasible(run: seq<Action>)
    decreases |run|, 0
  {
    run == [] ||
    (Feasible(run[..|run| - 1]) && Enabled(Exec(run[..|run| - 1]), run[|run| - 1]))
  }

  function Exec(run: seq<Action>): State
    requires Feasible(run)
    decreases |run|, 1
  {
    if run == [] then Init() else Apply(Exec(run[..|run| - 1]), run[|run| - 1])
  }

  /** Requests and replies under way, oldest first. */
  function UnderWay(s: State): seq<int> {
    s.toGuest + (if s.host.Replying? then [s.host.id] else []) + s.toHost
  }

  /** While the host is there, at most the current request is under way, and only while the
      guest waits for it; after it is gone, no reply of an older exchange is left. */
  predicate Inv(s: State) {
    && s.guest != WrongId
    && s.id == s.cycles % Clock.WORD32
    && (s.guest != Gone && s.host != HostGone ==> UnderWay(s) == if s.guest == Awaiting then [s.id] else [])
    && (s.guest != Gone && s.host == HostGone ==> s.toGuest == [] || (s.guest == Awaiting && s.toGuest == [s.id]))
  }

  /** A reply that can be read is the one the guest waits for. */
  lemma ReplyIsCurrent(s: State)
    requires Inv(s) && Enabled(s, Read)
    ensures s.toGuest == [s.id]
  {
    if s.host != HostGone {
      assert UnderWay(s)[0] == s.toGuest[0];
      assert |UnderWay(s)| == 1;
    }
  }

  lemma HostKeepsInv(s: State, a: Action)
    requires Inv(s) && Enabled(s, a) && (a == HostRead || a == HostWrite || a == HostClose)
    ensures Inv(Apply(s, a))
  {
    if s.guest != Gone {
      assert |UnderWay(s)| <= 1;
      if a == HostRead {
        assert s.toHost == [s.toHost[0]] + s.toHost[1..];
        assert s.toGuest == [];
        assert UnderWay(Apply(s, a)) == UnderWay(s);
      } else if a == HostWrite {
        assert UnderWay(Apply(s, a)) == UnderWay(s);
      } else if s.toGuest != [] && s.host != HostGone {
        assert UnderWay(s)[0] == s.toGuest[0];
      }
    }
  }

  lemma StepKeepsInv(s: State, a: Action)
    requires Inv(s) && Enabled(s, a)
    ensures Inv(Apply(s, a))
  {
    if a == HostRead || a == HostWrite || a == HostClose {
      HostKeepsInv(s, a);
    } else if a == Pause {
      Clock.NextId(s.cycles);
    } else if a == Read {
      ReplyIsCurrent(s);
    }
  }

  /** The unexpected-id branch is never taken, in any interleaving and across wrap-around
      of the identifier. */
  lemma {:induction false} NeverWrongId(run: seq<Action>)
    requires Feasible(run)
    ensures Inv(Exec(run)) && Exec(run).guest != WrongId
  {
    if run != [] {
      NeverWrongId(run[..|run| - 1]);
      StepKeepsInv(Exec(run[..|run| - 1]), run[|run| - 1]);
    }
  }

  // ----- every cycle can be completed -----

  lemma Then(run: seq<Action>, more: seq<Action>, a: Action) returns (more': seq<Action>)
    requires Feasible(run + more) && Enabled(Exec(run + more), a)
    ensures more' == more + [a] && Feasible(run + more') && Exec(run + more') == Apply(Exec(run + more), a)
  {
    more' := more + [a];
    assert run + more' == (run + more) + [a];
    assert (run + more + [a])[..|run + more|] == run + more;
  }

  /** Either end may go at any moment. */
  lemma EndsMayGo(s: State)
    ensures s.host != HostGone ==> Enabled(s, HostClose) && Apply(s, HostClose).host == HostGone
    ensures s.guest != Gone && s.guest != WrongId ==> Enabled(s, GuestClose) && Apply(s, GuestClose).guest == Gone
  {}

  /** The guest waits, and its reply or the end of the stream reaches it. */
  lemma ReplyComes(run: seq<Action>, so: seq<Action>) returns (more: seq<Action>)
    requires Feasible(run + so) && Exec(run + so).guest == Awaiting
    ensures Feasible(run + more) && Exec(run + more).guest == Pausing
    ensures Exec(run + more).cycles == Exec(run + so).cycles
  {
    NeverWrongId(run + so);
    more := so;
    var s := Exec(run + so);
    if s.host != HostGone {
      assert UnderWay(s) == [s.id];
      if s.toHost != [] && s.host == Reading {
        more := Then(run, more, HostRead);
      }
      if Exec(run + more).host.Replying? {
        more := Then(run, more, HostWrite);
      }
      assert |UnderWay(s)| == |s.toGuest| + |s.toHost| + if s.host.Replying? then 1 else 0;
    }
    NeverWrongId(run + more);
    if Exec(run + more).toGuest != [] {
      ReplyIsCurrent(Exec(run + more));
      more := Then(run, more, Read);
    } else {
      more := Then(run, more, ReadEof);
    }
  }

  /** As long as the guest is there, its exchange can be completed, and the next one begins with
      the next identifier. */
  lemma CycleCompletes(run: seq<Action>) returns (more: seq<Action>)
    requires Feasible(run) && Exec(run).guest != Gone
    ensures Feasible(run + more)
    ensures var s, t := Exec(run), Exec(run + more);
            t.guest == Sending && t.cycles == s.cycles + 1 && t.id == (s.cycles + 1) % Clock.WORD32
  {
    NeverWrongId(run);
    more := [];
    assert run + more == run;
    if Exec(run).guest == Sending {
      more := Then(run, more, Write);
    }
    if Exec(run + more).guest == Awaiting {
      more := ReplyComes(run, more);
    }
    more := Then(run, more, Pause);
    NeverWrongId(run + more);
  }
}
