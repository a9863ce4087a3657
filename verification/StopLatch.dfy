/** The idle latch of internal/host/stop.go: one goroutine that counts the Adds it
    receives and stops the daemon when its timer fires while the count is zero. */
module StopLatch {

  type int64 = x: int | -0x8000_0000_0000_0000 <= x < 0x8000_0000_0000_0000

  /** Number of values of the uint64 counter, which wraps at this value. */
  const WORD: int := 0x1_0000_0000_0000_0000

  type Word = x: int | 0 <= x < WORD

  /** What one turn of the select loop observes. */
  datatype Select = Received(add: int64) | ChannelClosed | TimerFired

  datatype Phase = Running | Stopped | Closed | Panicked

  datatype Latch = Latch(count: Word, phase: Phase)

  /** Unsigned 64-bit addition of two values of the word. */
  function Add64(a: int, b: int): (c: int)
    requires 0 <= a < WORD && 0 <= b < WORD
    ensures 0 <= c < WORD && c == (a + b) % WORD
  {
    if a + b < WORD then a + b else a + b - WORD
  }

  function Step(l: Latch, e: Select): Latch {
    if l.phase != Running then l
    else match e
      case ChannelClosed => l.(phase := Closed)
      case Received(add) =>
        if add >= 0 then l.(count := Add64(l.count, add))
        else if -(add as int) > l.count then l.(phase := Panicked)
        else l.(count := l.count + add)
      case TimerFired => if l.count == 0 then l.(phase := Stopped) else l
  }

  /** The latch after the given observations, from a fresh one. */
  function After(es: seq<Select>): Latch {
    if es == [] then Latch(0, Running) else Step(After(es[..|es| - 1]), es[|es| - 1])
  }

  function AddOf(e: Select): int {
    if e.Received? then e.add else 0
  }

  /** The sum of every add received, with no wrap-around. */
  function Sum(es: seq<Select>): int {
    if es == [] then 0 else Sum(es[..|es| - 1]) + AddOf(es[|es| - 1])
  }

  /** Observation i ends the loop, said through sums only. */
  predicate Ends(es: seq<Select>, i: nat)
    requires i < |es|
  {
    match es[i]
    case ChannelClosed => true
    case Received(_) => Sum(es[..i + 1]) < 0
    case TimerFired => Sum(es[..i]) == 0
  }

  function EndPhase(e: Select): Phase {
    match e
    case ChannelClosed => Closed
    case Received(_) => Panicked
    case TimerFired => Stopped
  }

  predicate Is(l: Latch, count: int, phase: Phase) {
    l.count == count && l.phase == phase
  }

  /** The first i observations leave the loop running, and i is the last or ends it. */
  predicate FirstEnd(es: seq<Select>, i: nat) {
    && i <= |es|
    && (forall j: nat :: j < i ==> !Ends(es, j))
    && (i < |es| ==> Ends(es, i))
  }

  /** The counter fits its word on every prefix up to i. */
  predicate Fits(es: seq<Select>, i: nat)
    requires i <= |es|
  {
    forall j: nat :: j <= i ==> Sum(es[..j]) < WORD
  }

  lemma {:induction false} RunningPrefix(es: seq<Select>, i: nat)
    requires i <= |es| && Fits(es, i)
    requires forall j: nat :: j < i ==> !Ends(es, j)
    ensures Is(After(es[..i]), Sum(es[..i]), Running)
  {
    if i > 0 {
      RunningPrefix(es, i - 1);
      assert es[..i][..i - 1] == es[..i - 1];
      assert !Ends(es, i - 1) && Sum(es[..i]) < WORD;
      assert After(es[..i]) == Step(After(es[..i - 1]), es[i - 1]);
    }
  }

  lemma {:induction false} EndedStays(es: seq<Select>, i: nat)
    requires i <= |es| && After(es[..i]).phase != Running
    ensures After(es) == After(es[..i])
    decreases |es|
  {
    if i == |es| {
      assert es[..i] == es;
    } else {
      assert es[..|es| - 1][..i] == es[..i];
      EndedStays(es[..|es| - 1], i);
    }
  }

  /** What the loop does on any schedule: it runs to the first observation that ends it,
      its count is the plain sum, and that observation alone decides how it ends. */
  lemma {:induction false} EndsAtFirstEnd(es: seq<Select>, i: nat)
    requires FirstEnd(es, i) && Fits(es, i)
    ensures Is(After(es), Sum(es[..i]), if i == |es| then Running else EndPhase(es[i]))
  {
    RunningPrefix(es, i);
    if i == |es| {
      assert es[..i] == es;
    } else {
      assert es[..i + 1][..i] == es[..i];
      EndedStays(es, i + 1);
    }
  }

  lemma AfterOneMore(es: seq<Select>, n: nat)
    requires n < |es|
    ensures After(es[..n + 1]) == Step(After(es[..n]), es[n])
  {
    assert es[..n + 1][..n] == es[..n];
  }

  lemma AtAnyFirstEnd(es: seq<Select>)
    ensures forall i: nat :: FirstEnd(es, i) && Fits(es, i) ==>
      Is(After(es), Sum(es[..i]), if i == |es| then Running else EndPhase(es[i]))
  {
    forall i: nat | FirstEnd(es, i) && Fits(es, i)
      ensures Is(After(es), Sum(es[..i]), if i == |es| then Running else EndPhase(es[i]))
    {
      EndsAtFirstEnd(es, i);
    }
  }

  /** StopLatch.run on a given schedule of select outcomes. */
  method Run(es: seq<Select>) returns (final: Latch, used: nat)
    ensures used <= |es| && final == After(es[..used]) == After(es)
    ensures final.phase == Running ==> used == |es|
    ensures final.phase != Running ==> used > 0 && After(es[..used - 1]).phase == Running
    ensures forall i: nat :: FirstEnd(es, i) && Fits(es, i) ==>
      Is(final, Sum(es[..i]), if i == |es| then Running else EndPhase(es[i]))
  {
    var count: Word := 0;
    var phase := Running;
    used := 0;
    while used < |es| && phase == Running
      invariant used <= |es|
      invariant After(es[..used]) == Latch(count, phase)
      invariant phase != Running ==> used > 0 && After(es[..used - 1]).phase == Running
    {
      AfterOneMore(es, used);
      match es[used] {
        case ChannelClosed =>
          phase := Closed;
        case Received(add) =>
          if add < 0 {
            var sub := -(add as int);
            if sub > count {
              phase := Panicked;
            } else {
              count := count - sub;
            }
          } else {
            count := Add64(count, add);
          }
        case TimerFired =>
          if count == 0 {
            phase := Stopped;
          }
      }
      used := used + 1;
    }
    final := Latch(count, phase);
    if phase == Running {
      assert es[..used] == es;
    } else {
      EndedStays(es, used);
    }
    AtAnyFirstEnd(es);
  }
}
