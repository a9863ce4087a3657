/** What one log file may hold under the rotation rule of internal/applog/dir.go. */
module LogFile {

  type Bytes = seq<bv8>

  const NEWLINE: bv8 := 10

  predicate Terminated(msg: Bytes) {
    msg != [] && msg[|msg| - 1] == NEWLINE
  }

  /** What is written for one message: all of it, and the newline that it lacks. */
  function Line(msg: Bytes): (line: Bytes)
    ensures |line| == |msg| || |line| == |msg| + 1
  {
    if Terminated(msg) then msg else msg + [NEWLINE]
  }

  /** The message comes first, and the line ends in exactly the newline that it lacked. */
  lemma LineIs(msg: Bytes)
    ensures msg <= Line(msg) && Terminated(Line(msg))
    ensures Line(msg) == if Terminated(msg) then msg else msg + [10]
  {}

  function Lines(msgs: seq<Bytes>): Bytes {
    if msgs == [] then [] else Lines(msgs[..|msgs| - 1]) + Line(msgs[|msgs| - 1])
  }

  /** What the shipped code adds to its byte count: the second Write overwrites n. */
  function Counted(msg: Bytes): nat {
    if Terminated(msg) then |msg| else 1
  }

  function CountedAll(msgs: seq<Bytes>): nat {
    if msgs == [] then 0 else CountedAll(msgs[..|msgs| - 1]) + Counted(msgs[|msgs| - 1])
  }

  /** Bytes that were written and not counted. */
  function Drift(msgs: seq<Bytes>): nat {
    if msgs == [] then 0
    else Drift(msgs[..|msgs| - 1]) + if Terminated(msgs[|msgs| - 1]) then 0 else |msgs[|msgs| - 1]|
  }

  /** The file takes the message without rotating. */
  predicate Takes(counted: int, msg: Bytes, maxSize: int) {
    counted >= 0 && counted + |msg| + 1 <= maxSize
  }

  /** The messages that can end up in one file created by a rotation: the first is written
      in any case, every later one had room by the count. */
  predicate OneFile(msgs: seq<Bytes>, maxSize: int) {
    |msgs| <= 1 ||
    (OneFile(msgs[..|msgs| - 1], maxSize)
     && Takes(CountedAll(msgs[..|msgs| - 1]), msgs[|msgs| - 1], maxSize))
  }

  lemma {:induction false} SizeIsCountPlusDrift(msgs: seq<Bytes>)
    ensures |Lines(msgs)| == CountedAll(msgs) + Drift(msgs)
  {
    if msgs != [] { SizeIsCountPlusDrift(msgs[..|msgs| - 1]); }
  }

  /** The count is the size exactly when every (non-empty) message ended in a newline. */
  lemma {:induction false} CountIsExactIff(msgs: seq<Bytes>)
    requires forall m :: m in msgs ==> m != []
    ensures CountedAll(msgs) == |Lines(msgs)| <==> forall m :: m in msgs ==> Terminated(m)
  {
    SizeIsCountPlusDrift(msgs);
    NoDriftIff(msgs);
  }

  lemma {:induction false} NoDriftIff(msgs: seq<Bytes>)
    requires forall m :: m in msgs ==> m != []
    ensures Drift(msgs) == 0 <==> forall m :: m in msgs ==> Terminated(m)
  {
    if msgs != [] {
      var k := |msgs| - 1;
      assert forall m :: m in msgs <==> m in msgs[..k] || m == msgs[k] by {
        assert msgs == msgs[..k] + [msgs[k]];
      }
      NoDriftIff(msgs[..k]);
    }
  }

  /** A file holds one message, or at most maxSize bytes beyond those not counted. */
  lemma {:induction false} FileSize(msgs: seq<Bytes>, maxSize: int)
    requires OneFile(msgs, maxSize)
    ensures |msgs| <= 1 || |Lines(msgs)| <= maxSize + Drift(msgs)
  {
    if |msgs| > 1 {
      SizeIsCountPlusDrift(msgs[..|msgs| - 1]);
    }
  }

  /** With newline-terminated messages the limit is kept. */
  lemma FileSizeExact(msgs: seq<Bytes>, maxSize: int)
    requires OneFile(msgs, maxSize) && forall m :: m in msgs ==> Terminated(m)
    ensures |msgs| <= 1 || |Lines(msgs)| <= maxSize
  {
    FileSize(msgs, maxSize);
    NoDriftIff(msgs);
  }

  function Copies(msg: Bytes, k: nat): seq<Bytes> {
    if k == 0 then [] else Copies(msg, k - 1) + [msg]
  }

  lemma OneMore(k: int, n: int)
    ensures (k + 1) * n == k * n + n
  {}

  lemma Excess(l: int, m: int)
    requires l >= 1 && m > l + 1
    ensures (m - l) * (l + 1) > m
  {
    var d := m - l - 1;
    assert (m - l) * (l + 1) - m == l * d;
    assert l * d >= d;
  }

  lemma {:induction false} CopiesCounted(msg: Bytes, k: nat)
    requires !Terminated(msg)
    ensures |Copies(msg, k)| == k && CountedAll(Copies(msg, k)) == k
  {
    if k > 0 {
      CopiesCounted(msg, k - 1);
      assert Copies(msg, k)[..k - 1] == Copies(msg, k - 1);
    }
  }

  lemma {:induction false} CopiesCount(msg: Bytes, k: nat)
    requires !Terminated(msg)
    ensures |Copies(msg, k)| == k && CountedAll(Copies(msg, k)) == k
    ensures |Lines(Copies(msg, k))| == k * (|msg| + 1)
  {
    CopiesCounted(msg, k);
    if k > 0 {
      CopiesCount(msg, k - 1);
      OneLineMore(msg, k - 1);
      OneMore(k - 1, |msg| + 1);
    }
  }

  lemma OneLineMore(msg: Bytes, k: nat)
    requires !Terminated(msg)
    ensures |Lines(Copies(msg, k + 1))| == |Lines(Copies(msg, k))| + (|msg| + 1)
  {
    assert Copies(msg, k + 1)[..k] == Copies(msg, k) by { CopiesCounted(msg, k); }
    assert Copies(msg, k + 1)[k] == msg by { CopiesCounted(msg, k); }
  }

  lemma {:induction false} CopiesOneFile(msg: Bytes, k: nat, maxSize: int)
    requires !Terminated(msg) && (k >= 2 ==> k - 1 + |msg| + 1 <= maxSize)
    ensures OneFile(Copies(msg, k), maxSize)
  {
    CopiesCounted(msg, k);
    if k >= 2 {
      CopiesOneFile(msg, k - 1, maxSize);
      CopiesCounted(msg, k - 1);
      assert Copies(msg, k)[..k - 1] == Copies(msg, k - 1) && Copies(msg, k)[k - 1] == msg;
      assert Takes(CountedAll(Copies(msg, k - 1)), msg, maxSize);
    }
  }

  lemma CopiesTooLarge(msg: Bytes, maxSize: int)
    requires msg != [] && !Terminated(msg) && |msg| + 2 <= maxSize
    ensures var copies := Copies(msg, maxSize - |msg|); |copies| > 1 && |Lines(copies)| > maxSize
  {
    CopiesCount(msg, maxSize - |msg|);
    Excess(|msg|, maxSize);
  }

  /** Without the newline the limit fails, for every unterminated message and every limit that
      lets some message follow another one. */
  lemma UnterminatedOverflows(msg: Bytes, next: Bytes, maxSize: int) returns (msgs: seq<Bytes>)
    requires msg != [] && !Terminated(msg) && next != [] && |next| + 2 <= maxSize
    ensures OneFile(msgs, maxSize) && forall m :: m in msgs ==> m == msg || m == next
    ensures |msgs| > 1 && |Lines(msgs)| > maxSize
  {
    if |msg| + 2 <= maxSize {
      var k := maxSize - |msg|;
      msgs := Copies(msg, k);
      CopiesOneFile(msg, k, maxSize);
      CopiesAre(msg, k);
      CopiesTooLarge(msg, maxSize);
    } else {
      msgs := [msg, next];
      assert msgs[..1] == [msg] && [msg][..0] == [];
    }
  }

  lemma {:induction false} CopiesAre(msg: Bytes, k: nat)
    ensures forall m :: m in Copies(msg, k) ==> m == msg
  {
    if k > 0 { CopiesAre(msg, k - 1); }
  }
}
