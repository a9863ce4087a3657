/** Clock synchronisation: the exchange and threshold of internal/rpc/time.go and the
    adjustment of internal/guest/time_linux.go. All times are nanoseconds. */
module Clock {

  const SECOND: int := 1_000_000_000
  const HALF_MILLI: int := 500_000
  const HALF_SECOND: int := 500_000_000
  const MAX64: int := 0x7fff_ffff_ffff_ffff
  const MIN64: int := -0x8000_0000_0000_0000

  type Duration = x: int | MIN64 <= x <= MAX64

  /** time.Time.Sub saturates at the ends of Duration. */
  function Saturate(x: int): Duration {
    if x > MAX64 then MAX64 else if x < MIN64 then MIN64 else x
  }

  /** Go's integer division, towards zero. */
  function Quo(a: int, b: int): int
    requires b > 0
  {
    if a >= 0 then a / b else -((-a) / b)
  }

  /** The remainder has the sign of the dividend. */
  lemma QuoIs(a: int, b: int)
    requires b > 0
    ensures var r := a - Quo(a, b) * b; (a >= 0 ==> 0 <= r < b) && (a < 0 ==> -b < r <= 0)
  {
    var c := if a >= 0 then a else -a;
    assert c == (c / b) * b + c % b;
  }

  function Abs(x: int): nat {
    if x < 0 then -x else x
  }

  // ----- one exchange -----

  /** The reading of a clock split into seconds and nanoseconds, and put together again. */
  function UnixSec(t: int): int { t / SECOND }
  function UnixNsec(t: int): int { t % SECOND }
  function FromUnix(sec: int, nsec: int): int { sec * SECOND + nsec }

  lemma UnixRoundTrip(t: int)
    ensures FromUnix(UnixSec(t), UnixNsec(t)) == t && 0 <= UnixNsec(t) < SECOND
  {}

  /** Half the round trip. */
  function Latency(start: int, stop: int): Duration {
    Quo(Saturate(stop - start), 2)
  }

  /** serverTime.Sub(start.Add(latency)). */
  function Offset(server: int, start: int, latency: int): Duration {
    Saturate(server - (start + latency))
  }

  /** The guest sends at `start`, the host reads its clock d1 later, the reply arrives d2
      after that; theta is how far the host clock is ahead of the guest clock. The computed
      offset is off by at most latency + 1 ns if and only if theta is within that distance
      of what a Duration can hold, about 292 years either way. */
  lemma OffsetAccuracyIff(start: int, d1: nat, d2: nat, theta: int)
    requires d1 + d2 <= MAX64
    ensures var latency := Latency(start, start + d1 + d2);
            var offset := Offset(start + d1 + theta, start, latency);
            Abs(offset - theta) <= latency + 1 <==> MIN64 - (latency + 1) <= theta <= MAX64 + (latency + 1)
  {
    var latency := Latency(start, start + d1 + d2);
    assert 2 * latency <= d1 + d2 <= 2 * latency + 1;
    assert -(latency + 1) <= d1 - latency <= latency + 1;
  }

  // ----- the adjustment written by adjtime -----

  datatype Timex = Slew(offset: int) | Step(sec: int, nsec: int)

  class Timesync {
    var first: bool

    constructor ()
      ensures first
    {
      first := true;
    }

    /** The first call, and any offset of half a second or more, steps the clock. Go's Abs of
        the least Duration is the greatest. */
    method Adjtime(offset: Duration) returns (delta: Timex)
      modifies this
      ensures !first
      ensures delta.Slew? <==> !old(first) && Abs(offset) < HALF_SECOND
      ensures delta.Slew? ==> delta.offset == offset
      ensures delta.Step? ==> delta.sec * SECOND + delta.nsec == offset && 0 <= delta.nsec < SECOND
    {
      if !first && Abs(offset) < HALF_SECOND {
        delta := Slew(offset);
      } else {
        var sec := Quo(offset, SECOND);
        var nsec := offset - sec * SECOND;
        if nsec < 0 {
          sec := sec - 1;
          nsec := nsec + SECOND;
        }
        delta := Step(sec, nsec);
      }
      first := false;
    }
  }

  /** Euclidean division gives the only seconds and nanoseconds adjtime can have written. */
  lemma StepIsUnique(offset: int, sec: int, nsec: int)
    requires sec * SECOND + nsec == offset && 0 <= nsec < SECOND
    ensures sec == offset / SECOND && nsec == offset % SECOND
  {}

  // ----- syncClock -----

  datatype Sync = TooSlow | WrongId | InSync | Adjust(offset: Duration)

  /** What the host wrote in its reply: its clock, theta ahead of the guest's, as it read it d1
      after the guest began. */
  ghost predicate HostRead(start: int, stop: int, sec: int, nsec: int, d1: nat, theta: int) {
    && start + d1 <= stop && stop - start <= MAX64
    && sec == UnixSec(start + d1 + theta) && nsec == UnixNsec(start + d1 + theta)
  }

  /** One call of syncClock that got a reply; next is the new latency threshold. Whenever the
      host clock is a Duration ahead of the guest's, an adjustment is within latency + 1 ns of
      the truth, and clocks found in sync are half a millisecond more apart at most. */
  method SyncClock(start: int, stop: int, id: int, replyId: int, sec: int, nsec: int, maxLatency: Duration)
    returns (r: Sync, next: int)
    requires start <= stop
    ensures next == 2 * Latency(start, stop)
    ensures MIN64 <= next <= MAX64
    ensures r == TooSlow <==> Latency(start, stop) > maxLatency
    ensures r == WrongId <==> Latency(start, stop) <= maxLatency && replyId != id
    ensures r.Adjust? || r.InSync? ==>
      var offset := Offset(FromUnix(sec, nsec), start, Latency(start, stop));
      r == if Abs(offset) > HALF_MILLI then Adjust(offset) else InSync
    ensures forall d1: nat, theta: Duration :: HostRead(start, stop, sec, nsec, d1, theta) ==>
      && (r.Adjust? ==> Abs(r.offset - theta) <= Latency(start, stop) + 1)
      && (r.InSync? ==> Abs(theta) <= HALF_MILLI + Latency(start, stop) + 1)
  {
    forall d1: nat, theta: Duration | HostRead(start, stop, sec, nsec, d1, theta)
      ensures Abs(Offset(FromUnix(sec, nsec), start, Latency(start, stop)) - theta) <= Latency(start, stop) + 1
    {
      UnixRoundTrip(start + d1 + theta);
      OffsetAccuracyIff(start, d1, stop - start - d1, theta);
    }
    var latency := Quo(Saturate(stop - start), 2);
    next := latency * 2;
    if latency > maxLatency {
      return TooSlow, next;
    }
    if replyId != id {
      return WrongId, next;
    }
    var serverTime := FromUnix(sec, nsec);
    var offset := Saturate(serverTime - (start + latency));
    if Abs(offset) > HALF_MILLI {
      r := Adjust(offset);
    } else {
      r := InSync;
    }
  }

  /** What is left of the true offset theta after a step, and after a call that changed
      nothing because the clocks looked in sync. */
  lemma RemainingError(start: int, d1: nat, d2: nat, theta: Duration, sec: int, nsec: int)
    requires d1 + d2 <= MAX64
    ensures var latency := Latency(start, start + d1 + d2);
            var offset := Offset(start + d1 + theta, start, latency);
            && (sec * SECOND + nsec == offset ==> Abs(theta - (sec * SECOND + nsec)) <= latency + 1)
            && (Abs(offset) <= HALF_MILLI ==> Abs(theta) <= HALF_MILLI + latency + 1)
  {
    OffsetAccuracyIff(start, d1, d2, theta);
  }

  // ----- the adaptive threshold over a run -----

  function Pow2(k: nat): nat {
    if k == 0 then 1 else 2 * Pow2(k - 1)
  }

  /** What one cycle of GuestClock meets: a reply, with whether the adjustment (if any) is
      accepted by the kernel, the end of the stream in the write or the read, or another error
      of either; and whether the context is cancelled by the end of the wait that follows. */
  datatype Exchange =
    | Reply(start: int, stop: int, id: int, sec: int, nsec: int, accepted: bool, cancelled: bool)
    | Eof(cancelled: bool)
    | IOError

  const WORD32: int := 0x1_0000_0000
  const FIRST_THRESHOLD: int := 5_000_000

  predicate Sane(xs: seq<Exchange>) {
    forall i :: 0 <= i < |xs| && xs[i].Reply? ==> xs[i].start <= xs[i].stop
  }

  /** The threshold that cycle i meets: twice the latency of the last reply before it. */
  function Threshold(xs: seq<Exchange>, i: nat): (t: int)
    requires i <= |xs| && Sane(xs)
    ensures MIN64 <= t <= MAX64
  {
    if i == 0 then FIRST_THRESHOLD
    else if !xs[i - 1].Reply? then Threshold(xs, i - 1)
    else 2 * Latency(xs[i - 1].start, xs[i - 1].stop)
  }

  function LatencyAt(xs: seq<Exchange>, i: nat): Duration
    requires i < |xs| && xs[i].Reply?
  {
    Latency(xs[i].start, xs[i].stop)
  }

  function OffsetAt(xs: seq<Exchange>, i: nat): Duration
    requires i < |xs| && xs[i].Reply?
  {
    Offset(FromUnix(xs[i].sec, xs[i].nsec), xs[i].start, LatencyAt(xs, i))
  }

  predicate Rejected(xs: seq<Exchange>, i: nat)
    requires i < |xs| && Sane(xs)
  {
    xs[i].Reply? && LatencyAt(xs, i) > Threshold(xs, i)
  }

  /** The cycle ends the loop with an error: one of the stream, a reply with another id, or a
      refused adjustment. */
  predicate Fails(xs: seq<Exchange>, i: nat)
    requires i < |xs| && Sane(xs)
  {
    var x := xs[i];
    x.IOError? || (x.Reply? && !Rejected(xs, i) &&
    (x.id != i % WORD32 ||
     (Abs(OffsetAt(xs, i)) > HALF_MILLI && !x.accepted)))
  }

  predicate Ends(xs: seq<Exchange>, i: nat)
    requires i < |xs| && Sane(xs)
  {
    Fails(xs, i) || xs[i].cancelled
  }

  /** What cycle i hands to adjtime. */
  function Handed(xs: seq<Exchange>, i: nat): seq<(nat, Duration)>
    requires i < |xs| && Sane(xs)
  {
    if xs[i].Reply? && !Rejected(xs, i) && xs[i].id == i % WORD32 && Abs(OffsetAt(xs, i)) > HALF_MILLI
    then [(i, OffsetAt(xs, i))] else []
  }

  /** The offsets that the first n cycles hand to adjtime, each with its cycle. */
  function Adjustments(xs: seq<Exchange>, n: nat): seq<(nat, Duration)>
    requires n <= |xs| && Sane(xs)
  {
    if n == 0 then [] else Adjustments(xs, n - 1) + Handed(xs, n - 1)
  }

  /** How the loop ended; Open is that it is still going when nothing more is observed. */
  datatype Outcome = Open | Failed | Cancelled

  /** One turn of the loop up to its wait. */
  method Cycle(xs: seq<Exchange>, i: nat, id: int, maxLatency: Duration)
    returns (failed: bool, next: Duration, handed: seq<(nat, Duration)>)
    requires i < |xs| && Sane(xs) && maxLatency == Threshold(xs, i) && id == i % WORD32
    ensures failed <==> Fails(xs, i)
    ensures !failed ==> next == Threshold(xs, i + 1)
    ensures handed == Handed(xs, i)
  {
    var x := xs[i];
    failed, next, handed := x.IOError?, maxLatency, [];
    if x.Reply? {
      var r;
      r, next := SyncClock(x.start, x.stop, id, x.id, x.sec, x.nsec, maxLatency);
      if r.Adjust? {
        handed := [(i, r.offset)];
      }
      failed := r.WrongId? || (r.Adjust? && !x.accepted);
    }
  }

  lemma NextId(cycles: nat)
    ensures (cycles % WORD32 + 1) % WORD32 == (cycles + 1) % WORD32
  {}

  /** GuestClock over the cycles it goes through: it ends at the first cycle that fails or
      after which the context is cancelled. */
  method GuestClock(xs: seq<Exchange>) returns (cycles: nat, out: Outcome, adjusted: seq<(nat, Duration)>)
    requires Sane(xs)
    ensures cycles <= |xs|
    ensures out == Open <==> forall i: nat :: i < |xs| ==> !Ends(xs, i)
    ensures out == Open ==> cycles == |xs|
    ensures out != Open ==> cycles > 0 && Ends(xs, cycles - 1) && (out == Failed <==> Fails(xs, cycles - 1))
    ensures forall i: nat :: i < cycles && !(out != Open && i == cycles - 1) ==> !Ends(xs, i)
    ensures adjusted == Adjustments(xs, cycles)
  {
    var id: int, maxLatency: Duration := 0, FIRST_THRESHOLD;
    cycles, out, adjusted := 0, Open, [];
    while cycles < |xs| && out == Open
      invariant cycles <= |xs| && (out == Open ==> maxLatency == Threshold(xs, cycles) && id == cycles % WORD32)
      invariant out != Open ==> cycles > 0 && Ends(xs, cycles - 1) && (out == Failed <==> Fails(xs, cycles - 1))
      invariant forall i: nat :: i < cycles && !(out != Open && i == cycles - 1) ==> !Ends(xs, i)
      invariant adjusted == Adjustments(xs, cycles)
    {
      var failed, handed;
      failed, maxLatency, handed := Cycle(xs, cycles, id, maxLatency);
      adjusted := adjusted + handed;
      if failed {
        out := Failed;
      } else if xs[cycles].cancelled {
        out := Cancelled;
      }
      NextId(cycles);
      cycles := cycles + 1;
      id := (id + 1) % WORD32;
    }
  }

  lemma HandedAccurate(xs: seq<Exchange>, i: nat, d1: nat, theta: Duration)
    requires i < |xs| && Sane(xs) && Handed(xs, i) != []
    requires HostRead(xs[i].start, xs[i].stop, xs[i].sec, xs[i].nsec, d1, theta)
    ensures Abs(Handed(xs, i)[0].1 - theta) <= LatencyAt(xs, i) + 1
  {
    var x := xs[i];
    UnixRoundTrip(x.start + d1 + theta);
    OffsetAccuracyIff(x.start, d1, x.stop - x.start - d1, theta);
  }

  /** Every offset that is handed over, in any run, is within latency + 1 ns of how far the host
      clock was ahead when it was read for that cycle. */
  lemma {:induction false} AdjustmentsAccurate(xs: seq<Exchange>, n: nat, k: nat, d1: nat, theta: Duration)
    requires n <= |xs| && Sane(xs) && k < |Adjustments(xs, n)|
    ensures var i := Adjustments(xs, n)[k].0;
            && i < n && xs[i].Reply? && !Rejected(xs, i) && xs[i].id == i % WORD32
            && (HostRead(xs[i].start, xs[i].stop, xs[i].sec, xs[i].nsec, d1, theta) ==>
                  Abs(Adjustments(xs, n)[k].1 - theta) <= LatencyAt(xs, i) + 1)
  {
    if k < |Adjustments(xs, n - 1)| {
      AdjustmentsAccurate(xs, n - 1, k, d1, theta);
    } else {
      var x := xs[n - 1];
      if HostRead(x.start, x.stop, x.sec, x.nsec, d1, theta) {
        HandedAccurate(xs, n - 1, d1, theta);
      }
    }
  }

  lemma OneTimes(m: int)
    ensures Pow2(0) * m == m
  {}

  lemma Doubled(k: nat, m: int)
    requires k > 0
    ensures Pow2(k) * m == 2 * (Pow2(k - 1) * m)
  {}

  /** k rejections in a row, from cycle i, force the latency above 2^(k-1) times the
      threshold the first of them met. */
  lemma {:induction false} RejectionsDouble(xs: seq<Exchange>, i: nat, k: nat)
    requires Sane(xs) && k > 0 && i + k <= |xs| && Threshold(xs, i) > 0
    requires forall j: nat :: i <= j < i + k ==> Rejected(xs, j)
    ensures xs[i + k - 1].Reply? && LatencyAt(xs, i + k - 1) > Pow2(k - 1) * Threshold(xs, i)
  {
    assert Rejected(xs, i + k - 1);
    if k == 1 {
      OneTimes(Threshold(xs, i));
    } else {
      RejectionsDouble(xs, i, k - 1);
      assert Rejected(xs, i + k - 1);
      assert Threshold(xs, i + k - 1) == 2 * LatencyAt(xs, i + k - 2);
      Doubled(k - 1, Threshold(xs, i));
      assert LatencyAt(xs, i + k - 1) > 2 * (Pow2(k - 2) * Threshold(xs, i));
    }
  }

  /** So with latencies bounded by b, the number of rejections in a row is logarithmic. */
  lemma RejectionsBounded(xs: seq<Exchange>, i: nat, k: nat, b: int, e: nat)
    requires Sane(xs) && k > 0 && i + k <= |xs| && Threshold(xs, i) > 0
    requires forall j: nat :: i <= j < i + k ==> Rejected(xs, j)
    requires xs[i + k - 1].Reply? && LatencyAt(xs, i + k - 1) <= b <= Pow2(e) * Threshold(xs, i)
    ensures k <= e
  {
    RejectionsDouble(xs, i, k);
    var m := Threshold(xs, i);
    if e <= k - 1 {
      Pow2Grows(e, k - 1);
      Times(Pow2(e), Pow2(k - 1), m);
    }
  }

  lemma Times(p: int, q: int, m: int)
    requires p <= q && m > 0
    ensures p * m <= q * m
  {}

  lemma {:induction false} Pow2Grows(j: nat, k: nat)
    requires j <= k
    ensures 1 <= Pow2(j) <= Pow2(k)
    decreases k
  {
    if j < k { Pow2Grows(j, k - 1); } else if k > 0 { Pow2Grows(k - 1, k - 1); }
  }
}
