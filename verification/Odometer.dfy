/** The mixed-radix counter that internal/host/config/parsers.go steps in place: the last
    variable varies fastest. */
module Odometer {
  import opened Sequences

  predicate Digits(ds: seq<nat>, rs: seq<nat>) {
    |ds| == |rs| && forall i :: 0 <= i < |ds| ==> ds[i] < rs[i]
  }

  function Product(rs: seq<nat>): nat {
    if rs == [] then 1 else Product(rs[..|rs| - 1]) * rs[|rs| - 1]
  }

  /** The number the digits stand for. */
  function Value(ds: seq<nat>, rs: seq<nat>): nat
    requires Digits(ds, rs)
  {
    if ds == [] then 0
    else
      var k := |ds| - 1;
      Value(ds[..k], rs[..k]) * rs[k] + ds[k]
  }

  /** The digits of n. */
  function Of(n: nat, rs: seq<nat>): (ds: seq<nat>)
    requires n < Product(rs)
    ensures Digits(ds, rs)
    decreases |rs|
  {
    if rs == [] then []
    else
      var k := |rs| - 1;
      QuotientFits(n, Product(rs[..k]), rs[k]);
      Of(n / rs[k], rs[..k]) + [n % rs[k]]
  }

  lemma QuotientFits(n: nat, p: nat, r: nat)
    requires n < p * r
    ensures r > 0 && n / r < p && n % r < r
  {
    assert r == 0 ==> p * r == 0;
    var q := n / r;
    assert q >= p ==> q * r >= p * r;
  }

  lemma {:induction false} ValueFits(ds: seq<nat>, rs: seq<nat>)
    requires Digits(ds, rs)
    ensures Value(ds, rs) < Product(rs)
  {
    if ds != [] {
      var k := |ds| - 1;
      ValueFits(ds[..k], rs[..k]);
      var v, p, r := Value(ds[..k], rs[..k]), Product(rs[..k]), rs[k];
      BelowProduct(v, p, r, ds[k]);
    }
  }

  lemma BelowProduct(v: nat, p: nat, r: nat, d: nat)
    requires v < p && d < r
    ensures v * r + d < p * r
  {
    assert (v + 1) * r <= p * r;
  }

  lemma Euclid(n: nat, r: nat)
    requires r > 0
    ensures n / r * r + n % r == n
  {}

  /** Numbers below the product and digit strings are in one-to-one correspondence. */
  lemma {:induction false} ValueOf(n: nat, rs: seq<nat>)
    requires n < Product(rs)
    ensures Value(Of(n, rs), rs) == n
    decreases |rs|
  {
    if rs != [] {
      var k := |rs| - 1;
      QuotientFits(n, Product(rs[..k]), rs[k]);
      ValueOf(n / rs[k], rs[..k]);
      assert Of(n, rs)[..k] == Of(n / rs[k], rs[..k]);
      Euclid(n, rs[k]);
    }
  }

  lemma {:induction false} OfValue(ds: seq<nat>, rs: seq<nat>)
    requires Digits(ds, rs)
    ensures Value(ds, rs) < Product(rs) && Of(Value(ds, rs), rs) == ds
  {
    ValueFits(ds, rs);
    if ds != [] {
      var k := |ds| - 1;
      var v, r := Value(ds[..k], rs[..k]), rs[k];
      OfValue(ds[..k], rs[..k]);
      DivMod(v, r, ds[k]);
      assert ds == ds[..k] + [ds[k]];
    }
  }

  lemma DivMod(v: nat, r: nat, d: nat)
    requires d < r
    ensures (v * r + d) / r == v && (v * r + d) % r == d
  {
    var n := v * r + d;
    var q := n / r;
    assert n == q * r + n % r;
    assert q >= v + 1 ==> q * r >= (v + 1) * r;
    assert q + 1 <= v ==> (q + 1) * r <= v * r;
  }

  /** ds comes before es: at the first position where they differ it has the smaller digit. */
  ghost predicate Before(ds: seq<nat>, es: seq<nat>) {
    exists i :: BeforeAt(ds, es, i)
  }

  predicate BeforeAt(ds: seq<nat>, es: seq<nat>, i: nat) {
    i < |ds| && i < |es| && ds[i] < es[i] && forall j :: 0 <= j < i ==> ds[j] == es[j]
  }

  lemma DigitOrder(v: nat, w: nat, r: nat, d: nat, e: nat)
    requires d < r && e < r
    ensures v * r + d < w * r + e <==> v < w || (v == w && d < e)
  {
    if v < w { assert (v + 1) * r <= w * r; }
    if w < v { assert (w + 1) * r <= v * r; }
  }

  lemma BeforeLast(ds: seq<nat>, es: seq<nat>, k: nat)
    requires |ds| == |es| == k + 1
    ensures Before(ds, es) <==> Before(ds[..k], es[..k]) || (ds[..k] == es[..k] && ds[k] < es[k])
  {
    if i: nat :| BeforeAt(ds, es, i) && i < k {
      assert BeforeAt(ds[..k], es[..k], i);
    }
    if i: nat :| BeforeAt(ds[..k], es[..k], i) {
      assert forall j :: 0 <= j < k ==> ds[j] == ds[..k][j] && es[j] == es[..k][j];
      assert BeforeAt(ds, es, i);
    }
    if ds[..k] == es[..k] && ds[k] < es[k] {
      assert forall j :: 0 <= j < k ==> ds[j] == ds[..k][j] && es[j] == es[..k][j];
      assert BeforeAt(ds, es, k);
    }
  }

  /** The numbers follow the digits from the first one on: the last variable varies fastest. */
  lemma {:induction false} ValueIsLexicographic(ds: seq<nat>, es: seq<nat>, rs: seq<nat>)
    requires Digits(ds, rs) && Digits(es, rs)
    ensures Value(ds, rs) < Value(es, rs) <==> Before(ds, es)
    decreases |rs|
  {
    if rs != [] {
      var k := |rs| - 1;
      ValueIsLexicographic(ds[..k], es[..k], rs[..k]);
      BeforeLast(ds, es, k);
      DigitOrder(Value(ds[..k], rs[..k]), Value(es[..k], rs[..k]), rs[k], ds[k], es[k]);
      if Value(ds[..k], rs[..k]) == Value(es[..k], rs[..k]) {
        OfValue(ds[..k], rs[..k]);
        OfValue(es[..k], rs[..k]);
      }
    }
  }

  function Zeros(n: nat): (ds: seq<nat>)
    ensures |ds| == n && forall i :: 0 <= i < n ==> ds[i] == 0
  {
    if n == 0 then [] else Zeros(n - 1) + [0]
  }

  lemma {:induction false} ZeroValue(rs: seq<nat>)
    requires Digits(Zeros(|rs|), rs)
    ensures Value(Zeros(|rs|), rs) == 0
  {
    if rs != [] {
      var k := |rs| - 1;
      assert Zeros(|rs|)[..k] == Zeros(k);
      ZeroValue(rs[..k]);
    }
  }

  /** One step: the next digits, and whether there was a next number. */
  function Next(ds: seq<nat>, rs: seq<nat>): (r: (seq<nat>, bool))
    requires Digits(ds, rs)
    ensures Digits(r.0, rs)
  {
    if ds == [] then ([], false)
    else
      var k := |ds| - 1;
      if ds[k] + 1 < rs[k] then (ds[..k] + [ds[k] + 1], true)
      else
        var (up, more) := Next(ds[..k], rs[..k]);
        (up + [0], more)
  }

  lemma Carry(v: nat, r: nat)
    ensures v * r + (r - 1) + 1 == (v + 1) * r
  {}

  /** The step adds one, or, on the last number, goes back to all zeros. */
  lemma {:induction false} NextAddsOne(ds: seq<nat>, rs: seq<nat>)
    requires Digits(ds, rs)
    ensures var (ds', more) := Next(ds, rs);
            && (more ==> Value(ds', rs) == Value(ds, rs) + 1)
            && (!more ==> Value(ds, rs) + 1 == Product(rs) && ds' == Zeros(|ds|))
  {
    if ds != [] {
      var k := |ds| - 1;
      var (up, more) := Next(ds[..k], rs[..k]);
      NextAddsOne(ds[..k], rs[..k]);
      if ds[k] + 1 < rs[k] {
        assert (ds[..k] + [ds[k] + 1])[..k] == ds[..k];
      } else {
        assert (up + [0])[..k] == up;
        var v, r := Value(ds[..k], rs[..k]), rs[k];
        Carry(v, r);
      }
    }
  }

  /** A multi-valued path variable; current is stepped in place. */
  class PathVariable {
    const values: seq<string>
    var current: nat

    constructor (values: seq<string>)
      ensures this.values == values && current == 0
    {
      this.values := values;
      current := 0;
    }
  }

  ghost predicate Distinct(pvars: seq<PathVariable>) {
    forall i, j :: 0 <= i < j < |pvars| ==> pvars[i] != pvars[j]
  }

  ghost function Currents(pvars: seq<PathVariable>): (ds: seq<nat>)
    reads pvars
    ensures |ds| == |pvars| && forall i :: 0 <= i < |ds| ==> ds[i] == pvars[i].current
  {
    seq(|pvars|, i requires 0 <= i < |pvars| reads pvars => pvars[i].current)
  }

  ghost function Radices(pvars: seq<PathVariable>): (rs: seq<nat>)
    ensures |rs| == |pvars| && forall i :: 0 <= i < |rs| ==> rs[i] == |pvars[i].values|
  {
    seq(|pvars|, i requires 0 <= i < |pvars| => |pvars[i].values|)
  }

  /** When every digit from i on is at its last value, the step carries to before i. */
  lemma {:induction false} NextCarries(ds: seq<nat>, rs: seq<nat>, i: nat)
    requires Digits(ds, rs) && i <= |ds|
    requires forall k :: i <= k < |ds| ==> ds[k] + 1 == rs[k]
    ensures Next(ds, rs).0 == Next(ds[..i], rs[..i]).0 + Zeros(|ds| - i)
    ensures Next(ds, rs).1 == Next(ds[..i], rs[..i]).1
  {
    if i == |ds| {
      assert ds[..i] == ds && rs[..i] == rs;
    } else {
      var k := |ds| - 1;
      NextCarries(ds[..k], rs[..k], i);
      assert ds[..k][..i] == ds[..i] && rs[..k][..i] == rs[..i];
      assert Zeros(k - i) + [0] == Zeros(k - i + 1);
      Associate(Next(ds[..i], rs[..i]).0, Zeros(k - i), [0]);
    }
  }

  /** What the digits are when the step has carried past i and raised digit i - 1. */
  lemma Raised(ds: seq<nat>, rs: seq<nat>, i: nat, now: seq<nat>)
    requires Digits(ds, rs) && 0 < i <= |ds| == |now|
    requires forall k :: i <= k < |ds| ==> ds[k] + 1 == rs[k] && now[k] == 0
    requires forall k :: 0 <= k < i - 1 ==> now[k] == ds[k]
    requires now[i - 1] == ds[i - 1] + 1 < rs[i - 1]
    ensures Next(ds, rs) == (now, true)
  {
    NextCarries(ds, rs, i);
    assert ds[..i][..i - 1] == ds[..i - 1];
    assert now == (ds[..i - 1] + [ds[i - 1] + 1]) + Zeros(|ds| - i);
  }

  lemma Wrapped(ds: seq<nat>, rs: seq<nat>, now: seq<nat>)
    requires Digits(ds, rs) && |ds| == |now|
    requires forall k :: 0 <= k < |ds| ==> ds[k] + 1 == rs[k] && now[k] == 0
    ensures Next(ds, rs) == (now, false)
  {
    NextCarries(ds, rs, 0);
    assert ds[..0] == [];
    assert now == [] + Zeros(|ds|);
  }

  method Increment(pvars: seq<PathVariable>) returns (more: bool)
    requires Distinct(pvars) && Digits(Currents(pvars), Radices(pvars))
    modifies pvars
    ensures (Currents(pvars), more) == Next(old(Currents(pvars)), Radices(pvars))
  {
    ghost var ds, rs := Currents(pvars), Radices(pvars);
    var i := |pvars|;
    while i > 0
      invariant 0 <= i <= |pvars|
      invariant forall k :: 0 <= k < i ==> pvars[k].current == ds[k]
      invariant forall k :: i <= k < |pvars| ==> pvars[k].current == 0 && ds[k] + 1 == rs[k]
    {
      pvars[i - 1].current := pvars[i - 1].current + 1;
      if pvars[i - 1].current < |pvars[i - 1].values| {
        Raised(ds, rs, i, Currents(pvars));
        return true;
      }
      i := i - 1;
      pvars[i].current := 0;
    }
    more := false;
    Wrapped(ds, rs, Currents(pvars));
  }
}
