/** Launching a service and waiting for it: LaunchService, waitNotify, waitService and Wait of
    internal/host/service_darwin.go. Two goroutines send on one unbuffered channel, and one of
    them closes it. */
module ServiceLaunch {
  import opened Strings
  import opened Notify

  /** What the guest says when the service ends. */
  datatype Exit = Unknown | Exited(status: int)

  /** The value waitService sends for it. */
  function Code(e: Exit): (code: int)
    ensures code != 0
  {
    match e
    case Unknown => 1
    case Exited(status) => if status == 0 then -1 else status
  }

  /** The code is the exit status, -1 for the status 0, and 1 when the status is not known. */
  lemma CodeIs(e: Exit, status: int)
    ensures e == Exited(status) && status != 0 ==> Code(e) == status
    ensures e == Exited(0) ==> Code(e) == -1
    ensures e == Unknown ==> Code(e) == 1
  {}

  /** So two ends of a service look alike exactly when they are the same, or one has the status
      1 and the other no known status, or one has the status 0 and the other -1. */
  lemma SameCodeIff(e: Exit, f: Exit)
    ensures Code(e) == Code(f) <==>
              e == f || {e, f} == {Unknown, Exited(1)} || {e, f} == {Exited(0), Exited(-1)}
  {
    assert Unknown in {Unknown, Exited(1)} && Exited(1) in {Unknown, Exited(1)};
    assert Exited(0) in {Exited(0), Exited(-1)} && Exited(-1) in {Exited(0), Exited(-1)};
    assert e in {e, f} && f in {e, f};
  }

  /** waitNotify: waiting for a datagram, with one in hand, blocked in `ch <- 0`, or in
      `ch <- -1` with a recover behind it. */
  datatype Notifier =
    | Reading | InHand(text: string) | SendingReady | SendingError | DeliveredReady | DeliveredError | Recovered

  /** waitService: blocked in its send, about to close, or gone with the channel closed. */
  datatype Waiter = Running | Sending(code: int) | Closing(code: int) | Closed(code: int)

  datatype Launch = Selecting | TimedOut | Succeeded | ServiceEnded | ServiceFailed(code: int)

  datatype State = State(
    notifier: Notifier,
    waiter: Waiter,
    launch: Launch,
    returned: bool,       // LaunchService returned, its connection closed
    waits: seq<int>,      // what calls of Wait received
    crashed: bool)        // a send on the closed channel was not recovered

  /** Whom a receive takes its value from; a closed channel gives zeros. */
  datatype Source = FromNotifier | FromWaiter | FromClosed

  datatype Action =
    | Arrives(text: string) | Decodes | ReadFails | SendsOnClosed
    | Ends(exit: Exit) | Closes
    | TimesOut | Receives(from: Source) | Returns
    | Waits(from: Source)

  predicate SaysReady(text: string) {
    IsReady(Decoded(Split(text, '\n')))
  }

  /** A datagram is ready exactly when one of its lines is "READY=1" and no later line sets READY
      to something else. */
  lemma SaysReadyIff(text: string, lines: seq<string>)
    requires OnLines(text, lines)
    ensures SaysReady(text) <==>
              exists i :: 0 <= i < |lines| && Sets(lines[i], "READY", "1")
                && forall j, w :: i < j < |lines| && Sets(lines[j], "READY", w) ==> w == "1"
  {
    SplitJoin(lines, '\n');
    ReadyIff(lines);
  }

  function Init(): State {
    State(Reading, Running, Selecting, false, [], false)
  }

  predicate Available(s: State, from: Source) {
    match from
    case FromNotifier => !s.waiter.Closed? && (s.notifier.SendingReady? || s.notifier.SendingError?)
    case FromWaiter => s.waiter.Sending?
    case FromClosed => s.waiter.Closed?
  }

  function Received(s: State, from: Source): int
    requires Available(s, from)
  {
    match from
    case FromNotifier => if s.notifier.SendingReady? then 0 else -1
    case FromWaiter => s.waiter.code
    case FromClosed => 0
  }

  /** The sender goes on. */
  function Taken(s: State, from: Source): State
    requires Available(s, from)
  {
    match from
    case FromNotifier => s.(notifier := if s.notifier.SendingReady? then DeliveredReady else DeliveredError)
    case FromWaiter => s.(waiter := Closing(s.waiter.code))
    case FromClosed => s
  }

  /** The switch of LaunchService on the received code. */
  function Outcome(code: int): Launch {
    if code == 0 then Succeeded else if code == -1 then ServiceEnded else ServiceFailed(code)
  }

  /** Wait is called on a service that was launched: the callers drop one that was not. */
  predicate Enabled(s: State, a: Action) {
    !s.crashed &&
    match a
    case Arrives(_) => s.notifier.Reading? && !s.returned   // a closed connection gives errors only
    case Decodes => s.notifier.InHand?
    case ReadFails => s.notifier.Reading?
    case SendsOnClosed => s.waiter.Closed? && (s.notifier.SendingReady? || s.notifier.SendingError?)
    case Ends(_) => s.waiter.Running?
    case Closes => s.waiter.Closing?
    case TimesOut => s.launch.Selecting?
    case Receives(from) => s.launch.Selecting? && Available(s, from)
    case Returns => !s.launch.Selecting? && !s.returned
    case Waits(from) => s.launch.Succeeded? && s.returned && Available(s, from)
  }

  function Apply(s: State, a: Action): State
    requires Enabled(s, a)
  {
    match a
    case Arrives(text) => s.(notifier := InHand(text))
    case Decodes => s.(notifier := if SaysReady(s.notifier.text) then SendingReady else Reading)
    case ReadFails => s.(notifier := SendingError)
    case SendsOnClosed => if s.notifier.SendingReady? then s.(crashed := true) else s.(notifier := Recovered)
    case Ends(exit) => s.(waiter := Sending(Code(exit)))
    case Closes => s.(waiter := Closed(s.waiter.code))
    case TimesOut => s.(launch := TimedOut)
    case Receives(from) => Taken(s, from).(launch := Outcome(Received(s, from)))
    case Returns => s.(returned := true)
    case Waits(from) => Taken(s, from).(waits := s.waits + [Received(s, from)])
  }

  predicate Feasible(run: seq<Action>)
    decreases |run|, 0
  {
    run == [] ||
    (Feasible(run[..|run| - 1]) && Enabled(Exec(run[..|run| - 1]), run[|run| - 1]))
  }

  function Exec(run: seq<Action>): State
    requires Feasible(run)
    decreases |run|, 1
  {
    if run == [] then Init() else Apply(Exec(run[..|run| - 1]), run[|run| - 1])
  }

  // ----- what every step keeps -----

  predicate Zeros(s: seq<int>) {
    forall i :: 0 <= i < |s| ==> s[i] == 0
  }

  /** The values that Wait has given, by how far the service's own code has come. */
  predicate WaitsOk(s: State) {
    match s.waiter
    case Running => s.waits == []
    case Sending(_) => s.waits == []
    case Closing(code) => s.waits == [code]
    case Closed(code) => s.waits != [] && s.waits[0] == code && Zeros(s.waits[1..])
  }

  /** The code of the service is received by LaunchService or by Wait, and only then is the
      channel closed. */
  predicate Inv(s: State) {
    && (!s.waiter.Running? ==> s.waiter.code != 0)
    && (s.crashed ==> s.waiter.Closed? && s.notifier.SendingReady?)
    && match s.launch
       case Selecting => NothingTaken(s) && Undelivered(s.notifier)
       case TimedOut => NothingTaken(s) && Undelivered(s.notifier)
       case Succeeded => s.notifier.DeliveredReady? && WaitsOk(s)
       case ServiceEnded =>
         s.waits == [] &&
         if s.notifier.DeliveredError? then NothingTaken(s)
         else CodeTaken(s) && Outcome(s.waiter.code) == s.launch && !s.notifier.DeliveredReady?
       case ServiceFailed(code) =>
         s.waits == [] && CodeTaken(s) && Outcome(s.waiter.code) == s.launch
         && !s.notifier.DeliveredReady? && !s.notifier.DeliveredError?
  }

  predicate NothingTaken(s: State) {
    s.waits == [] && (s.waiter.Running? || s.waiter.Sending?)
  }

  predicate CodeTaken(s: State) {
    s.waiter.Closing? || s.waiter.Closed?
  }

  predicate Undelivered(n: Notifier) {
    n.Reading? || n.InHand? || n.SendingReady? || n.SendingError?
  }

  lemma StepKeepsInv(s: State, a: Action)
    requires Inv(s) && Enabled(s, a)
    ensures Inv(Apply(s, a))
  {}

  lemma {:induction false} RunKeepsInv(run: seq<Action>)
    requires Feasible(run)
    ensures Inv(Exec(run))
    decreases |run|
  {
    if run != [] {
      RunKeepsInv(run[..|run| - 1]);
      StepKeepsInv(Exec(run[..|run| - 1]), run[|run| - 1]);
    }
  }

  // ----- a successful launch -----

  predicate BringsReady(a: Action) {
    a.Arrives? && SaysReady(a.text)
  }

  lemma {:induction false} ArrivedBefore(run: seq<Action>)
    requires Feasible(run) && Exec(run).notifier.InHand?
    ensures exists i :: 0 <= i < |run| && run[i] == Arrives(Exec(run).notifier.text)
    decreases |run|
  {
    var n := |run| - 1;
    if run[n].Arrives? {
      assert run[n] == Arrives(Exec(run).notifier.text);
    } else {
      ArrivedBefore(run[..n]);
      var i :| 0 <= i < n && run[..n][i] == Arrives(Exec(run[..n]).notifier.text);
      assert run[i] == run[..n][i];
    }
  }

  lemma {:induction false} ReadyBeforeSend(run: seq<Action>)
    requires Feasible(run) && Exec(run).notifier.SendingReady?
    ensures exists i :: 0 <= i < |run| && BringsReady(run[i])
    decreases |run|
  {
    var n := |run| - 1;
    if Exec(run[..n]).notifier.SendingReady? {
      ReadyBeforeSend(run[..n]);
      var i :| 0 <= i < n && BringsReady(run[..n][i]);
      assert BringsReady(run[i]);
    } else {
      ArrivedBefore(run[..n]);
      var i :| 0 <= i < n && run[..n][i] == Arrives(Exec(run[..n]).notifier.text);
      assert BringsReady(run[i]);
    }
  }

  /** LaunchService succeeds only on the 0 that waitNotify sends, after it read READY=1:
      never on the zero of a closed channel. */
  lemma {:induction false} SuccessIsReady(run: seq<Action>) returns (i: nat, j: nat)
    requires Feasible(run) && Exec(run).launch.Succeeded?
    ensures i < j < |run| && BringsReady(run[i]) && run[j] == Receives(FromNotifier)
    decreases |run|
  {
    var n := |run| - 1;
    var before := run[..n];
    RunKeepsInv(before);
    if Exec(before).launch.Succeeded? {
      i, j := SuccessIsReady(before);
      assert before[i] == run[i] && before[j] == run[j];
    } else {
      ReadyBeforeSend(before);
      i :| 0 <= i < n && BringsReady(before[i]);
      j := n;
      assert before[i] == run[i];
    }
  }

  lemma StepBeforeSuccess(s: State, a: Action)
    requires Inv(s) && Enabled(s, a) && (Apply(s, a).launch.Selecting? || Apply(s, a).launch.Succeeded?)
    ensures (s.launch.Selecting? || s.launch.Succeeded?) && !Apply(s, a).crashed && a != SendsOnClosed
  {}

  /** After a successful launch nothing was ever sent on the closed channel. */
  lemma {:induction false} SuccessNeverSendsOnClosed(run: seq<Action>)
    requires Feasible(run) && (Exec(run).launch.Selecting? || Exec(run).launch.Succeeded?)
    ensures !Exec(run).crashed && SendsOnClosed !in run
    decreases |run|
  {
    if run != [] {
      var n := |run| - 1;
      RunKeepsInv(run[..n]);
      StepBeforeSuccess(Exec(run[..n]), run[n]);
      SuccessNeverSendsOnClosed(run[..n]);
      assert run == run[..n] + [run[n]];
    }
  }

  lemma {:induction false} CodeOfExit(run: seq<Action>)
    requires Feasible(run) && !Exec(run).waiter.Running?
    ensures exists i :: 0 <= i < |run| && run[i].Ends? && Code(run[i].exit) == Exec(run).waiter.code
    decreases |run|
  {
    var n := |run| - 1;
    if Exec(run[..n]).waiter.Running? {
      assert run[n].Ends?;
    } else {
      CodeOfExit(run[..n]);
      var i :| 0 <= i < n && run[..n][i].Ends? && Code(run[..n][i].exit) == Exec(run[..n]).waiter.code;
      assert run[i].Ends?;
    }
  }

  /** The first Wait returns the translated, non-zero code with which the service ended; every
      later one returns the zero of the closed channel. */
  lemma FirstWaitIsTheCode(run: seq<Action>)
    requires Feasible(run) && Exec(run).waits != []
    ensures exists i :: 0 <= i < |run| && run[i].Ends? && Code(run[i].exit) == Exec(run).waits[0]
    ensures Exec(run).waits[0] != 0 && Zeros(Exec(run).waits[1..])
  {
    RunKeepsInv(run);
    CodeOfExit(run);
  }

  /** A launch that fails with a code, or because the service ended, does so for an end of the
      service, or for an error of the notify socket in the second case. */
  lemma FailureIsTheExit(run: seq<Action>)
    requires Feasible(run)
    ensures var l := Exec(run).launch;
            && (l.ServiceFailed? ==>
                  exists i :: 0 <= i < |run| && run[i].Ends?
                    && (run[i].exit == Exited(l.code) || (l.code == 1 && run[i].exit == Unknown)))
            && (l.ServiceEnded? && !Exec(run).notifier.DeliveredError? ==>
                  exists i :: 0 <= i < |run| && (run[i] == Ends(Exited(0)) || run[i] == Ends(Exited(-1))))
  {
    RunKeepsInv(run);
    var s := Exec(run);
    if s.launch.ServiceFailed? || (s.launch.ServiceEnded? && !s.notifier.DeliveredError?) {
      CodeOfExit(run);
      var i :| 0 <= i < |run| && run[i].Ends? && Code(run[i].exit) == s.waiter.code;
      var e := run[i].exit;
      assert run[i] == Ends(e);
    }
  }

  /** After a successful launch Wait can always return: the service can end in every way, the
      first Wait then gives its code, and every further one zero. */
  lemma WaitReturns(run: seq<Action>, exit: Exit) returns (more: seq<Action>)
    requires Feasible(run) && !Exec(run).crashed
    requires Exec(run).launch.Succeeded? && Exec(run).returned && Exec(run).waiter.Running?
    ensures Feasible(run + more) && Exec(run + more).waits == [Code(exit), 0]
  {
    RunKeepsInv(run);
    more := [];
    assert run + more == run;
    more := Step(run, more, Ends(exit));
    more := Step(run, more, Waits(FromWaiter));
    more := Step(run, more, Closes);
    more := Step(run, more, Waits(FromClosed));
  }

  /** As long as LaunchService waits it can time out, and then returns. */
  lemma CanTimeOut(run: seq<Action>) returns (more: seq<Action>)
    requires Feasible(run) && !Exec(run).crashed && Exec(run).launch.Selecting?
    ensures Feasible(run + more) && Exec(run + more).launch.TimedOut? && Exec(run + more).returned
  {
    SelectingNotReturned(run);
    assert run + [] == run;
    more := Step(run, [], TimesOut);
    more := Step(run, more, Returns);
  }

  /** It can take the code with which the service ends, in whatever way that is. */
  lemma CanTakeCode(run: seq<Action>, exit: Exit) returns (more: seq<Action>)
    requires Feasible(run) && !Exec(run).crashed && Exec(run).launch.Selecting?
    ensures Feasible(run + more) && Exec(run + more).returned
    ensures Exec(run + more).launch ==
            Outcome(if Exec(run).waiter.Running? then Code(exit) else Exec(run).waiter.code)
  {
    RunKeepsInv(run);
    SelectingNotReturned(run);
    more := [];
    assert run + more == run;
    if Exec(run).waiter.Running? {
      more := Step(run, more, Ends(exit));
    }
    more := Step(run, more, Receives(FromWaiter));
    more := Step(run, more, Returns);
  }

  /** And an error of the notify socket, which may come whenever the notifier reads. */
  lemma CanTakeError(run: seq<Action>) returns (more: seq<Action>)
    requires Feasible(run) && !Exec(run).crashed && Exec(run).launch.Selecting?
    requires Exec(run).notifier.Reading? || Exec(run).notifier.SendingError?
    ensures Feasible(run + more) && Exec(run + more).launch.ServiceEnded? && Exec(run + more).returned
    ensures Exec(run + more).notifier.DeliveredError?
  {
    RunKeepsInv(run);
    SelectingNotReturned(run);
    more := [];
    assert run + more == run;
    if Exec(run).notifier.Reading? {
      more := Step(run, more, ReadFails);
    }
    more := Step(run, more, Receives(FromNotifier));
    more := Step(run, more, Returns);
  }

  // ----- the send that nothing recovers -----

  lemma Extend(run: seq<Action>, a: Action)
    requires Feasible(run) && Enabled(Exec(run), a)
    ensures Feasible(run + [a]) && Exec(run + [a]) == Apply(Exec(run), a)
  {
    assert (run + [a])[..|run|] == run;
  }

  /** The notifier can still come to its unguarded send, and the channel can still close
      before anybody receives it. */
  predicate Exposed(s: State) {
    !s.launch.TimedOut? &&
    match s.notifier
    case Reading => !s.returned
    case InHand(text) => !s.returned || SaysReady(text)
    case SendingReady => true
    case _ => false
  }

  lemma StepStaysUnexposed(s: State, a: Action)
    requires Inv(s) && Enabled(s, a) && !Exposed(s)
    ensures !Apply(s, a).crashed && !Exposed(Apply(s, a))
  {}

  lemma {:induction false} NeverExposedAgain(run: seq<Action>, more: seq<Action>)
    requires Feasible(run) && Feasible(run + more) && !Exec(run).crashed && !Exposed(Exec(run))
    ensures !Exec(run + more).crashed && !Exposed(Exec(run + more))
    decreases |more|
  {
    if more == [] {
      assert run + more == run;
    } else {
      var n := |more| - 1;
      assert (run + more)[..|run + more| - 1] == run + more[..n];
      NeverExposedAgain(run, more[..n]);
      RunKeepsInv(run + more[..n]);
      StepStaysUnexposed(Exec(run + more[..n]), more[n]);
    }
  }

  /** The daemon can still crash exactly while the launch has not timed out and READY may
      still be read or was read and not delivered, where nothing more arrives once the launch
      has returned: the service then ends, its code is received first, and the notifier sends
      on the closed channel. */
  lemma CrashReachableIff(run: seq<Action>)
    requires Feasible(run) && !Exec(run).crashed
    ensures (exists more :: Feasible(run + more) && Exec(run + more).crashed) <==> Exposed(Exec(run))
  {
    if Exposed(Exec(run)) {
      var more := Crash(run);
    } else {
      forall more | Feasible(run + more) ensures !Exec(run + more).crashed {
        NeverExposedAgain(run, more);
      }
    }
  }

  lemma CodeReceivedFirst(run: seq<Action>, exit: Exit) returns (more: seq<Action>)
    requires Feasible(run) && !Exec(run).crashed && Exposed(Exec(run))
    ensures Feasible(run + more) && !Exec(run + more).crashed && Exec(run + more).waiter.Closed?
    ensures Exec(run + more).notifier == Exec(run).notifier && Exec(run + more).returned == Exec(run).returned
  {
    RunKeepsInv(run);
    more := [];
    assert run + more == run;
    if Exec(run + more).waiter.Running? {
      more := Step(run, more, Ends(exit));
    }
    if Exec(run + more).waiter.Sending? {
      more := Step(run, more, Receives(FromWaiter));
    }
    if Exec(run + more).waiter.Closing? {
      more := Step(run, more, Closes);
    }
  }

  lemma Step(run: seq<Action>, more: seq<Action>, a: Action) returns (more': seq<Action>)
    requires Feasible(run + more) && Enabled(Exec(run + more), a)
    ensures more' == more + [a] && Feasible(run + more') && Exec(run + more') == Apply(Exec(run + more), a)
  {
    more' := more + [a];
    Extend(run + more, a);
    assert run + more' == run + more + [a];
  }

  lemma ReadyText() returns (text: string)
    ensures SaysReady(text)
  {
    text := READY + "=" + "1";
    assert Split(text, '\n') == [text];
    LastLineWins([text], READY, "1");
    assert Sets([text][0], READY, "1");
  }

  lemma Crash(run: seq<Action>) returns (more: seq<Action>)
    requires Feasible(run) && !Exec(run).crashed && Exposed(Exec(run))
    ensures Feasible(run + more) && Exec(run + more).crashed
  {
    more := CodeReceivedFirst(run, Unknown);
    if Exec(run + more).notifier.InHand? && !SaysReady(Exec(run + more).notifier.text) {
      more := Step(run, more, Decodes);
    }
    if Exec(run + more).notifier.Reading? {
      var text := ReadyText();
      more := Step(run, more, Arrives(text));
    }
    if Exec(run + more).notifier.InHand? {
      more := Step(run, more, Decodes);
    }
    more := Step(run, more, SendsOnClosed);
  }

  // ----- when the launch can still succeed -----

  lemma {:induction false} SelectingNotReturned(run: seq<Action>)
    requires Feasible(run)
    ensures Exec(run).launch.Selecting? ==> !Exec(run).returned
    decreases |run|
  {
    if run != [] { SelectingNotReturned(run[..|run| - 1]); }
  }

  /** LaunchService has succeeded, or still waits and the notifier has met no error. */
  predicate Hopeful(s: State) {
    s.launch.Succeeded? || (s.launch.Selecting? && !s.notifier.SendingError?)
  }

  lemma StepStaysHopeless(s: State, a: Action)
    requires Inv(s) && Enabled(s, a) && !Hopeful(s)
    ensures !Hopeful(Apply(s, a))
  {}

  lemma {:induction false} NeverHopefulAgain(run: seq<Action>, more: seq<Action>)
    requires Feasible(run) && Feasible(run + more) && !Hopeful(Exec(run))
    ensures !Hopeful(Exec(run + more))
    decreases |more|
  {
    if more == [] {
      assert run + more == run;
    } else {
      var n := |more| - 1;
      assert (run + more)[..|run + more| - 1] == run + more[..n];
      NeverHopefulAgain(run, more[..n]);
      RunKeepsInv(run + more[..n]);
      StepStaysHopeless(Exec(run + more[..n]), more[n]);
    }
  }

  lemma Succeed(run: seq<Action>) returns (more: seq<Action>)
    requires Feasible(run) && !Exec(run).crashed && Hopeful(Exec(run))
    ensures Feasible(run + more) && Exec(run + more).launch.Succeeded?
  {
    RunKeepsInv(run);
    SelectingNotReturned(run);
    more := [];
    assert run + more == run;
    if Exec(run).launch.Selecting? {
      if Exec(run + more).notifier.InHand? {
        more := Step(run, more, Decodes);
      }
      if Exec(run + more).notifier.Reading? {
        var text := ReadyText();
        more := Step(run, more, Arrives(text));
        more := Step(run, more, Decodes);
      }
      more := Step(run, more, Receives(FromNotifier));
    }
  }

  /** The launch can still succeed exactly when it did, or still waits and the notify socket has
      not failed. */
  lemma CanSucceedIff(run: seq<Action>)
    requires Feasible(run) && !Exec(run).crashed
    ensures (exists more :: Feasible(run + more) && Exec(run + more).launch.Succeeded?) <==> Hopeful(Exec(run))
  {
    if Hopeful(Exec(run)) {
      var more := Succeed(run);
    } else {
      forall more | Feasible(run + more) ensures !Exec(run + more).launch.Succeeded? {
        NeverHopefulAgain(run, more);
      }
    }
  }
}
