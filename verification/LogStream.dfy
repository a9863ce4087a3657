/** One stream of internal/applog/dir.go from the directory scan to the end of its messages, and
    when the files it makes stay within maxSize. */
module LogStream {
  import opened LogFile
  import opened LogRecords
  import opened LogRotation
  import opened Options

  // ----- what is promised, and the runs it is promised for -----

  /** Every file that a rotation made holds one message or at most maxSize bytes. */
  ghost predicate WithinLimit(log: Log, maxSize: int) {
    forall ts :: ts in log.store.made ==> |log.store.made[ts]| <= 1 || |FileOf(log.store.disk, ts)| <= maxSize
  }

  /** A run over messages of a, from any directory found at the start, with a clock that does
      not go back. */
  ghost predicate RunOf(log: Log, log': Log, msgs: seq<Bytes>, times: seq<Time>, a: iset<Bytes>, maxSize: int) {
    && LogOk(log, maxSize) && log.store.made == map[]
    && (forall m :: m in msgs ==> m in a)
    && |times| == |msgs| && ClockOk(log.store.order, times)
    && Turns(log, msgs, times, maxSize) == Some(log')
  }

  ghost predicate KeepsLimit(a: iset<Bytes>, maxSize: int) {
    forall log, log', msgs, times :: RunOf(log, log', msgs, times, a, maxSize) ==> WithinLimit(log', maxSize)
  }

  ghost predicate AllTerminated(a: iset<Bytes>) {
    forall m :: m in a && m != [] ==> Terminated(m)
  }

  /** No message fits behind another one, whatever the count. */
  ghost predicate NoneFollows(a: iset<Bytes>, maxSize: int) {
    forall m :: m in a && m != [] ==> |m| + 2 > maxSize
  }

  // ----- the files hold non-empty messages of a -----

  ghost predicate From(msgs: seq<Bytes>, a: iset<Bytes>) {
    forall m :: m in msgs ==> m in a && m != []
  }

  ghost predicate MadeFrom(made: map<Time, seq<Bytes>>, a: iset<Bytes>) {
    forall ts :: ts in made ==> From(made[ts], a)
  }

  lemma WrittenFrom(log: Log, msg: Bytes, a: iset<Bytes>)
    requires MadeFrom(log.store.made, a) && msg in a && Written(log, msg).Some?
    ensures MadeFrom(Written(log, msg).value.store.made, a)
  {}

  lemma RotatedFrom(log: Log, ts: Time, a: iset<Bytes>)
    requires MadeFrom(log.store.made, a) && Rotated(log, ts).Some?
    ensures MadeFrom(Rotated(log, ts).value.store.made, a)
  {}

  lemma TurnFrom(log: Log, msg: Bytes, ts: Time, a: iset<Bytes>, maxSize: int)
    requires MadeFrom(log.store.made, a) && msg in a && Turn(log, msg, ts, maxSize).Some?
    ensures MadeFrom(Turn(log, msg, ts, maxSize).value.store.made, a)
  {
    if Takes(log.fileLen, msg, maxSize) {
      WrittenFrom(log, msg, a);
    } else {
      RotatedFrom(log, ts, a);
      WrittenFrom(Rotated(log, ts).value, msg, a);
    }
  }

  /** What a run puts in the files it makes are non-empty messages it was given. */
  lemma {:induction false} TurnsFrom(log: Log, log': Log, msgs: seq<Bytes>, times: seq<Time>, a: iset<Bytes>,
                                     maxSize: int)
    requires MadeFrom(log.store.made, a) && |times| == |msgs| && forall m :: m in msgs ==> m in a
    requires Turns(log, msgs, times, maxSize) == Some(log')
    ensures MadeFrom(log'.store.made, a)
    decreases |msgs|
  {
    if msgs != [] {
      var n := |msgs| - 1;
      var before := Turns(log, msgs[..n], times[..n], maxSize).value;
      TurnsFrom(log, before, msgs[..n], times[..n], a, maxSize);
      TurnFrom(before, msgs[n], times[n], a, maxSize);
    }
  }

  // ----- the limit is kept -----

  /** The last of several messages in a file had room behind a count of at least 1. */
  lemma LastFits(msgs: seq<Bytes>, maxSize: int) returns (msg: Bytes)
    requires OneFile(msgs, maxSize) && |msgs| > 1
    ensures msg in msgs && |msg| + 2 <= maxSize
  {
    msg := msgs[|msgs| - 1];
  }

  lemma OneMessage(msgs: seq<Bytes>, a: iset<Bytes>, maxSize: int)
    requires OneFile(msgs, maxSize) && From(msgs, a) && NoneFollows(a, maxSize)
    ensures |msgs| <= 1
  {
    if |msgs| > 1 {
      var msg := LastFits(msgs, maxSize);
    }
  }

  lemma FileKept(log: Log, ts: Time, a: iset<Bytes>, maxSize: int)
    requires LogOk(log, maxSize) && MadeFrom(log.store.made, a) && ts in log.store.made
    requires AllTerminated(a) || NoneFollows(a, maxSize)
    ensures |log.store.made[ts]| <= 1 || |FileOf(log.store.disk, ts)| <= maxSize
  {
    if AllTerminated(a) {
      MadeFileSize(log, maxSize, ts);
    } else {
      OneMessage(log.store.made[ts], a, maxSize);
    }
  }

  lemma RunKept(log: Log, log': Log, msgs: seq<Bytes>, times: seq<Time>, a: iset<Bytes>, maxSize: int)
    requires RunOf(log, log', msgs, times, a, maxSize) && (AllTerminated(a) || NoneFollows(a, maxSize))
    ensures WithinLimit(log', maxSize)
  {
    RunKeeps(log, log', msgs, times, maxSize);
    TurnsFrom(log, log', msgs, times, a, maxSize);
    forall ts | ts in log'.store.made
      ensures |log'.store.made[ts]| <= 1 || |FileOf(log'.store.disk, ts)| <= maxSize
    {
      FileKept(log', ts, a, maxSize);
    }
  }

  // ----- the limit is broken -----

  lemma EmptyIsOk(maxSize: int)
    ensures LogOk(Empty(), maxSize)
  {}

  lemma Broken(a: iset<Bytes>, maxSize: int)
    requires !AllTerminated(a) && !NoneFollows(a, maxSize)
    ensures !KeepsLimit(a, maxSize)
  {
    var u :| u in a && u != [] && !Terminated(u);
    var s :| s in a && s != [] && |s| + 2 <= maxSize;
    var msgs, log := OverflowingRun(u, s, Time(0, 0), maxSize);
    EmptyIsOk(maxSize);
    assert RunOf(Empty(), log, msgs, Always(Time(0, 0), |msgs|), a, maxSize);
  }

  /** Over the messages of a, no run ever makes a file of several messages over the limit if and
      only if every message ends in a newline or none fits behind another. */
  lemma LimitKeptIff(a: iset<Bytes>, maxSize: int)
    ensures KeepsLimit(a, maxSize) <==> AllTerminated(a) || NoneFollows(a, maxSize)
  {
    if AllTerminated(a) || NoneFollows(a, maxSize) {
      forall log, log', msgs, times | RunOf(log, log', msgs, times, a, maxSize)
        ensures WithinLimit(log', maxSize)
      {
        RunKept(log, log', msgs, times, a, maxSize);
      }
    } else {
      Broken(a, maxSize);
    }
  }

  // ----- a directory and a stream of messages -----

  /** What the scan of a directory leaves to go on from. */
  function Found(entries: seq<Option<Time>>, disk: map<int, Bytes>): Store {
    Store(Parsed(entries), disk, map[])
  }

  lemma StreamKept(log: Log, log': Log, msgs: seq<Bytes>, times: seq<Time>, maxSize: int)
    requires LogOk(log, maxSize) && log.store.made == map[] && |times| == |msgs| && ClockOk(log.store.order, times)
    requires Turns(log, msgs, times, maxSize) == Some(log')
    requires (forall m :: m in msgs ==> Terminated(m)) || (forall m :: m in msgs ==> |m| + 2 > maxSize)
    ensures WithinLimit(log', maxSize)
  {
    var a := iset m | m in msgs;
    RunKept(log, log', msgs, times, a, maxSize);
  }

  /** Scans the directory, goes on with the newest file, and receives all messages. */
  method Serve(entries: seq<Option<Time>>, disk: map<int, Bytes>, maxSize: int, maxFiles: int,
               msgs: seq<Bytes>, times: seq<Time>)
    returns (fl: FileLog, panicked: bool)
    requires maxFiles >= 1 && |times| == |msgs|
    requires StoreOk(Found(entries, disk), maxSize) && ClockOk(Parsed(entries), times)
    ensures panicked <==> Turns(Started(Found(entries, disk)), msgs, times, maxSize).None?
    ensures !panicked ==> LogOk(fl.log, maxSize)
    ensures !panicked ==> Content(fl.log.store) == AllBytes(Parsed(entries), disk) + Lines(msgs)
    ensures !panicked && Complete(AllBytes(Parsed(entries), disk)) ==>
              (Records(Content(fl.log.store)) == Records(AllBytes(Parsed(entries), disk)) + Bares(msgs) <==>
                 forall m :: m in msgs ==> 10 !in Bare(m))
    ensures !panicked && ((forall m :: m in msgs ==> Terminated(m)) || (forall m :: m in msgs ==> |m| + 2 > maxSize))
            ==> WithinLimit(fl.log, maxSize)
    ensures |fl.log.store.order| > |Parsed(entries)| ==> |fl.files.nodes| == Min(maxFiles, |fl.log.store.order|)
    ensures fl.files.Valid() && (fl.files.nodes != [] ==> fl.log.outfile == Some(fl.files.Contents()[0]))
  {
    var files := Scan(entries);
    fl := new FileLog(maxSize, maxFiles, files, Found(entries, disk));
    ghost var start := fl.log;
    panicked := fl.Run(msgs, times);
    if !panicked {
      RunKeeps(start, fl.log, msgs, times, maxSize);
      RunContent(start, fl.log, msgs, times, maxSize);
      if Complete(AllBytes(Parsed(entries), disk)) {
        MessagesReadBack(start, fl.log, msgs, times, maxSize);
      }
      if (forall m :: m in msgs ==> Terminated(m)) || (forall m :: m in msgs ==> |m| + 2 > maxSize) {
        StreamKept(start, fl.log, msgs, times, maxSize);
      }
    }
  }
}
