/** Reading back what one stream of internal/applog/dir.go wrote: cut after each newline, the
    files give the messages. */
module LogRecords {
  import opened LogFile
  import opened LogRotation
  import opened Options
  import opened Sequences

  /** Position of the first newline, or the length. */
  function FirstNewline(b: Bytes): (i: nat)
    ensures i <= |b| && (i < |b| ==> b[i] == 10) && forall j :: 0 <= j < i ==> b[j] != 10
  {
    if b == [] || b[0] == 10 then 0 else 1 + FirstNewline(b[1..])
  }

  /** The text cut at its newlines. */
  function Records(b: Bytes): seq<Bytes>
    decreases |b|
  {
    if b == [] then []
    else
      var i := FirstNewline(b);
      if i == |b| then [b] else [b[..i]] + Records(b[i + 1..])
  }

  /** A message without the newline that may end it. */
  function Bare(msg: Bytes): Bytes {
    if msg != [] && msg[|msg| - 1] == 10 then msg[..|msg| - 1] else msg
  }

  function Bares(msgs: seq<Bytes>): (bs: seq<Bytes>)
    ensures |bs| == |msgs| && forall i :: 0 <= i < |bs| ==> bs[i] == Bare(msgs[i])
  {
    seq(|msgs|, i requires 0 <= i < |msgs| => Bare(msgs[i]))
  }

  /** The last line has its newline. */
  predicate Complete(b: Bytes) {
    b == [] || b[|b| - 1] == 10
  }

  lemma FirstNewlineIs(b: Bytes, i: nat)
    requires i <= |b| && (i < |b| ==> b[i] == 10) && forall j :: 0 <= j < i ==> b[j] != 10
    ensures FirstNewline(b) == i
  {}

  lemma {:induction false} RecordsSplit(a: Bytes, b: Bytes)
    requires Complete(a)
    ensures Records(a + b) == Records(a) + Records(b)
    decreases |a|
  {
    if a == [] {
      assert a + b == b;
    } else {
      var i := FirstNewline(a);
      assert a[|a| - 1] == 10;
      FirstNewlineIs(a + b, i);
      assert (a + b)[..i] == a[..i] && (a + b)[i + 1..] == a[i + 1..] + b;
      RecordsSplit(a[i + 1..], b);
      Associate([a[..i]], Records(a[i + 1..]), Records(b));
    }
  }

  lemma {:induction false} RecordsFree(b: Bytes)
    ensures forall i :: 0 <= i < |Records(b)| ==> 10 !in Records(b)[i]
    decreases |b|
  {
    if b != [] && FirstNewline(b) < |b| { RecordsFree(b[FirstNewline(b) + 1..]); }
  }

  lemma RecordOfLine(msg: Bytes)
    requires 10 !in Bare(msg)
    ensures Records(Line(msg)) == [Bare(msg)]
  {
    var line, bare := Line(msg), Bare(msg);
    assert line == bare + [10];
    FirstNewlineIs(line, |bare|);
    assert line[..|bare|] == bare && line[|bare| + 1..] == [];
  }

  lemma LinesComplete(msgs: seq<Bytes>)
    ensures Complete(Lines(msgs))
  {}

  lemma OneRecordMore(a: Bytes, msg: Bytes)
    requires Complete(a) && 10 !in Bare(msg)
    ensures Records(a + Line(msg)) == Records(a) + [Bare(msg)]
  {
    RecordsSplit(a, Line(msg));
    RecordOfLine(msg);
  }

  lemma BaresGrow(msgs: seq<Bytes>, n: nat)
    requires |msgs| == n + 1
    ensures Bares(msgs) == Bares(msgs[..n]) + [Bare(msgs[n])]
  {}

  lemma {:induction false} RecordsOfLines(msgs: seq<Bytes>)
    requires forall m :: m in msgs ==> 10 !in Bare(m)
    ensures Records(Lines(msgs)) == Bares(msgs)
  {
    if msgs != [] {
      var n := |msgs| - 1;
      RecordsOfLines(msgs[..n]);
      LinesComplete(msgs[..n]);
      OneRecordMore(Lines(msgs[..n]), msgs[n]);
      BaresGrow(msgs, n);
    }
  }

  lemma SameFront<T>(a: seq<T>, b: seq<T>, c: seq<T>)
    requires a + b == a + c
    ensures b == c
  {
    assert b == (a + b)[|a|..] && c == (a + c)[|a|..];
  }

  /** After a run the files, oldest to newest and counting deleted ones, give back the records
      that were there before and then the messages in arrival order, each without its own
      newline, if and only if no message has a newline inside. */
  lemma MessagesReadBack(log: Log, log': Log, msgs: seq<Bytes>, times: seq<Time>, maxSize: int)
    requires LogOk(log, maxSize) && |times| == |msgs| && ClockOk(log.store.order, times)
    requires Turns(log, msgs, times, maxSize) == Some(log') && Complete(Content(log.store))
    ensures Records(Content(log'.store)) == Records(Content(log.store)) + Bares(msgs) <==>
            forall m :: m in msgs ==> 10 !in Bare(m)
  {
    RunContent(log, log', msgs, times, maxSize);
    RecordsSplit(Content(log.store), Lines(msgs));
    if forall m :: m in msgs ==> 10 !in Bare(m) {
      RecordsOfLines(msgs);
    }
    if Records(Content(log'.store)) == Records(Content(log.store)) + Bares(msgs) {
      SameFront(Records(Content(log.store)), Records(Lines(msgs)), Bares(msgs));
      RecordsFree(Lines(msgs));
      forall m | m in msgs ensures 10 !in Bare(m) {
        var i :| 0 <= i < |msgs| && msgs[i] == m;
        assert Bares(msgs)[i] == Bare(m);
      }
    }
  }

  /** In particular for a stream without earlier files. */
  lemma FreshStreamReadsBack(log: Log, msgs: seq<Bytes>, times: seq<Time>, maxSize: int)
    requires |times| == |msgs| && ClockOk([], times) && Turns(Empty(), msgs, times, maxSize) == Some(log)
    ensures Records(Content(log.store)) == Bares(msgs) <==> forall m :: m in msgs ==> 10 !in Bare(m)
  {
    assert Records(Content(Empty().store)) == [];
    MessagesReadBack(Empty(), log, msgs, times, maxSize);
    assert [] + Bares(msgs) == Bares(msgs);
  }
}
