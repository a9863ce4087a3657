/** The containerd monitor of internal/host/containerd.go: the set of running tasks it
    keeps and the latch updates it sends. */
module ContainerdMonitor {

  datatype Task = Task(id: string, pid: nat)

  /** What the monitor reacts to: a task of the initial listing, or a decoded event.
      Events it cannot decode and events of other kinds are Other. */
  datatype Event = Listed(task: Task) | Started(task: Task) | Deleted(task: Task) | Other

  /** What one event makes the monitor do. Track is followed by Add(1); Untrack sends
      Add(-1) and then drops it from the set; Crash is the write to a nil map. */
  datatype Reaction = Ignore | Crash | Track(repeat: bool) | Untrack

  /** made: whether the set of tasks was allocated. The shipped declaration leaves it nil. */
  function React(made: bool, tasks: set<Task>, e: Event): Reaction {
    match e
    case Listed(t) => if t in tasks then Ignore else if made then Track(false) else Crash
    case Started(t) => if made then Track(t in tasks) else Crash
    case Deleted(t) => if t in tasks then Untrack else Ignore
    case Other => Ignore
  }

  /** The last event about t says that it runs. */
  predicate Tracked(es: seq<Event>, t: Task) {
    es != [] &&
    var e := es[|es| - 1];
    if e == Listed(t) || e == Started(t) then true
    else if e == Deleted(t) then false
    else Tracked(es[..|es| - 1], t)
  }

  /** Start events for a task that was already tracked when they came. */
  function Repeats(es: seq<Event>): nat {
    if es == [] then 0
    else
      var e := es[|es| - 1];
      Repeats(es[..|es| - 1]) + if e.Started? && Tracked(es[..|es| - 1], e.task) then 1 else 0
  }

  /** The latch updates that the events call for, in order. */
  function Updates(es: seq<Event>): seq<int> {
    if es == [] then []
    else
      var before, e := es[..|es| - 1], es[|es| - 1];
      Updates(before) +
      if e.Started? || (e.Listed? && !Tracked(before, e.task)) then [1]
      else if e.Deleted? && Tracked(before, e.task) then [-1]
      else []
  }

  predicate NeedsMap(e: Event) {
    e.Listed? || e.Started?
  }

  function Sum(adds: seq<int>): int {
    if adds == [] then 0 else Sum(adds[..|adds| - 1]) + adds[|adds| - 1]
  }

  /** No prefix of the sent updates sums below zero. */
  predicate NeverNegative(adds: seq<int>) {
    forall k: nat :: k <= |adds| ==> Sum(adds[..k]) >= 0
  }

  lemma Sends(adds: seq<int>, a: int)
    requires NeverNegative(adds) && Sum(adds) + a >= 0
    ensures Sum(adds + [a]) == Sum(adds) + a && NeverNegative(adds + [a])
  {
    SumGrows(adds, a);
  }

  lemma SumGrows(adds: seq<int>, a: int)
    ensures Sum(adds + [a]) == Sum(adds) + a
    ensures (adds + [a])[..|adds| + 1] == adds + [a]
    ensures forall k: nat :: k <= |adds| ==> (adds + [a])[..k] == adds[..k]
  {
    assert (adds + [a])[..|adds|] == adds;
  }

  lemma OneMoreEvent(es: seq<Event>, e: Event)
    ensures Repeats(es + [e]) == Repeats(es) + if e.Started? && Tracked(es, e.task) then 1 else 0
    ensures forall t :: Tracked(es + [e], t) <==>
              e == Listed(t) || e == Started(t) || (e != Deleted(t) && Tracked(es, t))
  {
    assert (es + [e])[..|es|] == es;
  }

  lemma EventsGrow(es: seq<Event>, i: nat)
    requires i < |es|
    ensures var e := es[i];
            Updates(es[..i + 1]) == Updates(es[..i]) +
              if e.Started? || (e.Listed? && !Tracked(es[..i], e.task)) then [1]
              else if e.Deleted? && Tracked(es[..i], e.task) then [-1]
              else []
    ensures Repeats(es[..i + 1]) == Repeats(es[..i]) + if es[i].Started? && Tracked(es[..i], es[i].task) then 1 else 0
    ensures forall t :: Tracked(es[..i + 1], t) <==>
              es[i] == Listed(t) || es[i] == Started(t) || (es[i] != Deleted(t) && Tracked(es[..i], t))
  {
    assert es[..i + 1][..i] == es[..i];
  }

  lemma Sizes(tasks: set<Task>, t: Task)
    ensures |tasks + {t}| == |tasks| + if t in tasks then 0 else 1
    ensures |tasks - {t}| == |tasks| - if t in tasks then 1 else 0
  {
    if t in tasks {
      assert tasks + {t} == tasks && tasks == (tasks - {t}) + {t};
    } else {
      assert tasks - {t} == tasks;
    }
  }

  /** One event more adds at most one update. */
  lemma Grows(es: seq<Event>, before: seq<int>, more: seq<int>)
    requires NeverNegative(before) && Updates(es) == before + more && |more| <= 1
    ensures Sum(Updates(es)) == Sum(before) + Sum(more)
    ensures Sum(before) + Sum(more) >= 0 ==> NeverNegative(Updates(es))
  {
    if more == [] {
      assert before + more == before;
    } else {
      assert more == [more[0]] && more[..0] == [] && Sum(more) == more[0];
      if Sum(before) + more[0] >= 0 { Sends(before, more[0]); }
      SumGrows(before, more[0]);
    }
  }

  /** The updates never sum below zero, and they over-count the tracked tasks by exactly the
      repeated starts. */
  lemma {:induction false} Balance(es: seq<Event>) returns (tasks: set<Task>)
    ensures forall t :: t in tasks <==> Tracked(es, t)
    ensures Sum(Updates(es)) == |tasks| + Repeats(es) && NeverNegative(Updates(es))
    decreases |es|
  {
    if es == [] {
      tasks := {};
    } else {
      var n := |es| - 1;
      var e := es[n];
      var before := Balance(es[..n]);
      tasks := if e.Started? || e.Listed? then before + {e.task} else if e.Deleted? then before - {e.task} else before;
      if !e.Other? { Sizes(before, e.task); }
      Grows(es, Updates(es[..n]), if e.Started? || (e.Listed? && e.task !in before) then [1]
                                  else if e.Deleted? && e.task in before then [-1]
                                  else []);
    }
  }

  /** MonitorContainerd over everything it ever observes. */
  method Monitor(made: bool, es: seq<Event>) returns (tasks: set<Task>, adds: seq<int>, crashed: bool)
    ensures crashed <==> !made && exists i :: 0 <= i < |es| && NeedsMap(es[i])
    ensures !crashed ==> forall t :: t in tasks <==> Tracked(es, t)
    ensures adds == if crashed then [] else Updates(es)
    ensures !crashed ==> Sum(adds) == |tasks| + Repeats(es)
    ensures NeverNegative(adds)
  {
    tasks, adds, crashed := {}, [], false;
    var i := 0;
    while i < |es|
      invariant 0 <= i <= |es|
      invariant adds == Updates(es[..i])
      invariant !made ==> adds == [] && tasks == {} && forall j :: 0 <= j < i ==> !NeedsMap(es[j])
      invariant !crashed
      invariant forall t :: t in tasks <==> Tracked(es[..i], t)
    {
      var e := es[i];
      EventsGrow(es, i);
      match React(made, tasks, e) {
        case Ignore =>
        case Crash =>
          crashed := true;
          return;
        case Track(_) =>
          tasks := tasks + {e.task};
          adds := adds + [1];
        case Untrack =>
          adds := adds + [-1];
          tasks := tasks - {e.task};
      }
      i := i + 1;
    }
    assert es[..|es|] == es;
    ghost var all := Balance(es);
    assert tasks == all;
  }
}
