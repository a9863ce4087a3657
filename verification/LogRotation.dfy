/** The rotating log of internal/applog/dir.go, on top of the linked list of timestamps. */
module LogRotation {
  import opened LinkedList
  import opened LogFile
  import opened Options
  import opened Sequences

  /** A clock reading. A file's name is made from the second alone. */
  datatype Time = Time(sec: int, nsec: nat)

  function Stamp(ts: Time): int {
    ts.sec
  }

  /** File names follow one another: no two files of a stream share a second. */
  ghost predicate Increasing(order: seq<Time>) {
    forall i, j :: 0 <= i < j < |order| ==> Stamp(order[i]) < Stamp(order[j])
  }

  function Last(s: seq<Time>): Time
    requires s != []
  {
    s[|s| - 1]
  }

  /** The newest n of the files, newest first. */
  function Newest(order: seq<Time>, n: nat): (s: seq<Time>)
    requires n <= |order|
    ensures |s| == n && forall i :: 0 <= i < n ==> s[i] == order[|order| - 1 - i]
  {
    if n == 0 then [] else Newest(order, n - 1) + [order[|order| - n]]
  }

  predicate OnDisk(order: seq<Time>, disk: map<int, Bytes>) {
    forall i :: 0 <= i < |order| ==> Stamp(order[i]) in disk
  }

  /** All files, oldest to newest, one after the other. */
  function AllBytes(order: seq<Time>, disk: map<int, Bytes>): Bytes {
    if order == [] then []
    else AllBytes(order[..|order| - 1], disk) + FileOf(disk, Last(order))
  }

  /** What the file called ts holds. */
  function FileOf(disk: map<int, Bytes>, ts: Time): Bytes {
    if Stamp(ts) in disk then disk[Stamp(ts)] else []
  }

  lemma {:induction false} AllBytesSame(order: seq<Time>, disk: map<int, Bytes>, disk': map<int, Bytes>)
    requires forall i :: 0 <= i < |order| ==> FileOf(disk', order[i]) == FileOf(disk, order[i])
    ensures AllBytes(order, disk') == AllBytes(order, disk)
  {
    if order != [] { AllBytesSame(order[..|order| - 1], disk, disk'); }
  }

  lemma NewestGrows(order: seq<Time>, n: nat, ts: Time)
    requires n <= |order|
    ensures [ts] + Newest(order, n) == Newest(order + [ts], n + 1)
  {}

  lemma NewestShrinks(order: seq<Time>, n: nat)
    requires 0 < n <= |order|
    ensures Newest(order, n)[..n - 1] == Newest(order, n - 1)
  {}

  /** The list holds the newest files of order, newest first. */
  ghost predicate Holds(files: List<Time>, order: seq<Time>)
    reads files, files.repr
  {
    files.Valid() && |files.nodes| <= |order| && files.Contents() == Newest(order, |files.nodes|)
  }

  lemma ValuesPrefix<T>(nodes: seq<Node<T>>, n: nat)
    requires n <= |nodes|
    ensures Values(nodes[..n]) == Values(nodes)[..n]
  {}

  /** Of the listed newest files, those that go when only the left newest ones stay. */
  function Dropped(order: seq<Time>, listed: nat, left: nat): seq<Time>
    requires left <= listed <= |order|
  {
    order[|order| - listed..|order| - left]
  }

  method PopOldest(files: List<Time>, ghost order: seq<Time>) returns (ts: Time)
    requires Holds(files, order) && files.nodes != []
    modifies files, files.repr
    ensures Holds(files, order) && files.repr == old(files.repr)
    ensures |files.nodes| == |old(files.nodes)| - 1 && ts == order[|order| - |old(files.nodes)|]
  {
    ghost var n := |files.nodes|;
    NewestShrinks(order, n);
    ValuesPrefix(files.nodes, n - 1);
    var r := files.PopBack();
    ts := r.value;
  }

  /** The trim loop of rotate: pops the oldest while there are more than maxFiles, and hands
      each to os.Remove. */
  method Trim(files: List<Time>, maxFiles: int, ghost order: seq<Time>) returns (removed: seq<Time>)
    requires Holds(files, order) && maxFiles >= 0
    modifies files, files.repr
    ensures Holds(files, order) && files.repr == old(files.repr)
    ensures |files.nodes| == (if |old(files.nodes)| > maxFiles then maxFiles else |old(files.nodes)|)
    ensures removed == Dropped(order, |old(files.nodes)|, |files.nodes|)
  {
    removed := [];
    ghost var n := |files.nodes|;
    while files.length > maxFiles
      invariant Holds(files, order) && files.repr == old(files.repr)
      invariant (if n > maxFiles then maxFiles else n) <= |files.nodes| <= n
      invariant removed == Dropped(order, n, |files.nodes|)
    {
      SliceGrows(order, |order| - n, |order| - |files.nodes|);
      var ts := PopOldest(files, order);
      removed := removed + [ts];
    }
  }

  function Min(a: int, b: int): int {
    if a < b then a else b
  }

  method AddNewest(files: List<Time>, ghost order: seq<Time>, ts: Time)
    requires Holds(files, order)
    modifies files, files.repr
    ensures Holds(files, order + [ts]) && fresh(files.repr - old(files.repr))
    ensures |files.nodes| == |old(files.nodes)| + 1
  {
    NewestGrows(order, |files.nodes|, ts);
    files.PushFront(ts);
  }

  /** A new newest file: the list then holds the newest min(maxFiles, n + 1) files. */
  method PushAndTrim(files: List<Time>, maxFiles: int, ghost order: seq<Time>, ts: Time) returns (removed: seq<Time>)
    requires Holds(files, order) && maxFiles >= 0
    modifies files, files.repr
    ensures Holds(files, order + [ts]) && fresh(files.repr - old(files.repr))
    ensures |files.nodes| == Min(maxFiles, |old(files.nodes)| + 1)
    ensures removed == Dropped(order + [ts], |old(files.nodes)| + 1, |files.nodes|)
  {
    AddNewest(files, order, ts);
    removed := Trim(files, maxFiles, order + [ts]);
  }

  // ----- the files of one stream, as values -----

  /** Every file of the stream, oldest first, and its bytes by the second in its name; deleted
      ones are kept. made records the messages of each file that a rotation created. */
  datatype Store = Store(order: seq<Time>, disk: map<int, Bytes>, made: map<Time, seq<Bytes>>)

  ghost predicate StoreOk(st: Store, maxSize: int) {
    && Increasing(st.order) && OnDisk(st.order, st.disk) && NoneNewer(st.order, st.disk)
    && MadeOk(st.order, st.disk, st.made, maxSize)
  }

  ghost predicate NoneNewer(order: seq<Time>, disk: map<int, Bytes>) {
    forall s :: s in disk ==> order != [] && s <= Stamp(Last(order))
  }

  ghost predicate MadeOk(order: seq<Time>, disk: map<int, Bytes>, made: map<Time, seq<Bytes>>, maxSize: int) {
    forall ts :: ts in made ==>
      ts in order && Stamp(ts) in disk && disk[Stamp(ts)] == Lines(made[ts]) && OneFile(made[ts], maxSize)
  }

  /** All files, oldest to newest, one after the other. */
  function Content(st: Store): Bytes {
    AllBytes(st.order, st.disk)
  }

  /** A new empty file. */
  function Created(st: Store, ts: Time): Store {
    Store(st.order + [ts], st.disk[Stamp(ts) := []], st.made[ts := []])
  }

  /** One line at the end of the file called ts. */
  function Appended(st: Store, ts: Time, msg: Bytes): Store {
    Store(st.order, st.disk[Stamp(ts) := FileOf(st.disk, ts) + Line(msg)],
          if ts in st.made then st.made[ts := st.made[ts] + [msg]] else st.made)
  }

  lemma StampsBelow(order: seq<Time>, disk: map<int, Bytes>, ts: Time)
    requires Increasing(order) && OnDisk(order, disk) && NoneNewer(order, disk)
    requires order != [] ==> Stamp(Last(order)) < Stamp(ts)
    ensures Stamp(ts) !in disk
    ensures Increasing(order + [ts])
    ensures OnDisk(order + [ts], disk[Stamp(ts) := []]) && NoneNewer(order + [ts], disk[Stamp(ts) := []])
  {
    assert forall i :: 0 <= i < |order| ==> Stamp(order[i]) <= Stamp(Last(order));
  }

  lemma CreateMade(order: seq<Time>, disk: map<int, Bytes>, made: map<Time, seq<Bytes>>, maxSize: int, ts: Time)
    requires MadeOk(order, disk, made, maxSize) && Stamp(ts) !in disk
    ensures MadeOk(order + [ts], disk[Stamp(ts) := []], made[ts := []], maxSize)
  {
    assert Lines([]) == [];
  }

  lemma CreateFile(st: Store, maxSize: int, ts: Time)
    requires StoreOk(st, maxSize) && (st.order != [] ==> Stamp(Last(st.order)) < Stamp(ts))
    ensures StoreOk(Created(st, ts), maxSize) && Content(Created(st, ts)) == Content(st)
  {
    StampsBelow(st.order, st.disk, ts);
    CreateMade(st.order, st.disk, st.made, maxSize, ts);
    CreateContent(st, ts);
  }

  lemma CreateContent(st: Store, ts: Time)
    requires Stamp(ts) !in st.disk
    ensures Content(Created(st, ts)) == Content(st)
  {
    AllBytesSame(st.order, st.disk, st.disk[Stamp(ts) := []]);
    assert (st.order + [ts])[..|st.order|] == st.order;
    assert AllBytes(st.order, st.disk) + [] == AllBytes(st.order, st.disk);
  }

  /** With a clock that does not go back, the name of a new file is taken exactly when the
      newest file was made in the same second. */
  lemma NameTakenIff(st: Store, maxSize: int, ts: Time)
    requires StoreOk(st, maxSize) && (st.order != [] ==> Stamp(Last(st.order)) <= Stamp(ts))
    ensures Stamp(ts) in st.disk <==> st.order != [] && Stamp(Last(st.order)) == Stamp(ts)
  {
    if st.order != [] {
      if Stamp(Last(st.order)) == Stamp(ts) {
        assert Stamp(st.order[|st.order| - 1]) in st.disk;
      }
    }
  }

  lemma LastOnDisk(st: Store)
    requires OnDisk(st.order, st.disk) && st.order != []
    ensures Stamp(Last(st.order)) in st.disk
  {
    assert Stamp(st.order[|st.order| - 1]) in st.disk;
  }

  lemma OthersOlder(order: seq<Time>, t: Time)
    requires Increasing(order) && t in order && t != Last(order)
    ensures Stamp(t) < Stamp(Last(order))
  {
    var i :| 0 <= i < |order| && order[i] == t;
    assert Stamp(order[i]) < Stamp(order[|order| - 1]);
  }

  lemma AppendMade(st: Store, maxSize: int, msg: Bytes)
    requires Increasing(st.order) && MadeOk(st.order, st.disk, st.made, maxSize) && st.order != []
    requires Last(st.order) in st.made ==> OneFile(st.made[Last(st.order)] + [msg], maxSize)
    ensures var st' := Appended(st, Last(st.order), msg); MadeOk(st'.order, st'.disk, st'.made, maxSize)
  {
    var ts := Last(st.order);
    var st' := Appended(st, ts, msg);
    if ts in st.made {
      assert (st.made[ts] + [msg])[..|st.made[ts]|] == st.made[ts];
    }
    forall t | t in st'.made
      ensures t in st.order && st'.disk[Stamp(t)] == Lines(st'.made[t]) && OneFile(st'.made[t], maxSize)
    {
      if t != ts { OthersOlder(st.order, t); }
    }
  }

  lemma AppendContent(st: Store, msg: Bytes)
    requires Increasing(st.order) && OnDisk(st.order, st.disk) && st.order != []
    ensures var st' := Appended(st, Last(st.order), msg);
            OnDisk(st'.order, st'.disk) && Content(st') == Content(st) + Line(msg)
  {
    LastOnDisk(st);
    var st' := Appended(st, Last(st.order), msg);
    AllBytesSame(st.order[..|st.order| - 1], st.disk, st'.disk);
  }

  lemma AppendNoneNewer(st: Store, msg: Bytes)
    requires NoneNewer(st.order, st.disk) && st.order != []
    ensures NoneNewer(st.order, Appended(st, Last(st.order), msg).disk)
  {}

  // ----- the run of one stream -----

  /** The open file, by the time in its name, and the byte count kept for it. */
  datatype Log = Log(store: Store, outfile: Option<Time>, fileLen: int)

  /** rotate: opening with O_EXCL panics when the name is taken. */
  function Rotated(log: Log, ts: Time): Option<Log> {
    if Stamp(ts) in log.store.disk then None else Some(Log(Created(log.store, ts), Some(ts), 0))
  }

  /** The writes of one message; the last byte of an empty one does not exist. */
  function Written(log: Log, msg: Bytes): Option<Log> {
    if log.outfile.None? || msg == [] then None
    else Some(Log(Appended(log.store, log.outfile.value, msg), log.outfile, log.fileLen + Counted(msg)))
  }

  /** One turn of run's loop; None is a panic. */
  function Turn(log: Log, msg: Bytes, ts: Time, maxSize: int): Option<Log> {
    if Takes(log.fileLen, msg, maxSize) then Written(log, msg)
    else match Rotated(log, ts)
         case None => None
         case Some(log') => Written(log', msg)
  }

  /** All of run's loop, with the clock reading at each message. */
  function Turns(log: Log, msgs: seq<Bytes>, times: seq<Time>, maxSize: int): Option<Log>
    requires |times| == |msgs|
  {
    if msgs == [] then Some(log)
    else match Turns(log, msgs[..|msgs| - 1], times[..|msgs| - 1], maxSize)
         case None => None
         case Some(log') => Turn(log', msgs[|msgs| - 1], times[|msgs| - 1], maxSize)
  }

  /** The byte count of the open file is the shipped count of what a rotation put in it. */
  ghost predicate CountOk(log: Log) {
    var order, made := log.store.order, log.store.made;
    && log.outfile == (if order == [] then None else Some(Last(order)))
    && (log.fileLen >= 0 <==> order != [])
    && (order != [] && Last(order) in made ==> log.fileLen == CountedAll(made[Last(order)]))
  }

  ghost predicate LogOk(log: Log, maxSize: int) {
    StoreOk(log.store, maxSize) && CountOk(log)
  }

  /** The clock does not go back behind the newest file. */
  predicate NotBefore(order: seq<Time>, ts: Time) {
    order != [] ==> Stamp(Last(order)) <= Stamp(ts)
  }

  lemma RotateOk(log: Log, ts: Time, maxSize: int)
    requires LogOk(log, maxSize) && NotBefore(log.store.order, ts)
    ensures Rotated(log, ts).None? <==> log.store.order != [] && Stamp(Last(log.store.order)) == Stamp(ts)
    ensures Rotated(log, ts).Some? ==>
              && LogOk(Rotated(log, ts).value, maxSize)
              && Content(Rotated(log, ts).value.store) == Content(log.store)
  {
    NameTakenIff(log.store, maxSize, ts);
    if Rotated(log, ts).Some? {
      CreateFile(log.store, maxSize, ts);
    }
  }

  /** The open file was just created, or has room by its count. */
  predicate Room(log: Log, msg: Bytes, maxSize: int) {
    Takes(log.fileLen, msg, maxSize)
    || (log.outfile.Some? && log.outfile.value in log.store.made && log.store.made[log.outfile.value] == [])
  }

  lemma RoomForOne(log: Log, msg: Bytes, maxSize: int)
    requires LogOk(log, maxSize) && Room(log, msg, maxSize) && log.outfile.Some? && log.outfile.value in log.store.made
    ensures OneFile(log.store.made[log.outfile.value] + [msg], maxSize)
    ensures CountedAll(log.store.made[log.outfile.value] + [msg]) == log.fileLen + Counted(msg)
  {
    var msgs := log.store.made[log.outfile.value];
    assert (msgs + [msg])[..|msgs|] == msgs;
  }

  lemma WriteStore(st: Store, msg: Bytes, maxSize: int)
    requires StoreOk(st, maxSize) && st.order != []
    requires Last(st.order) in st.made ==> OneFile(st.made[Last(st.order)] + [msg], maxSize)
    ensures StoreOk(Appended(st, Last(st.order), msg), maxSize)
  {
    AppendMade(st, maxSize, msg);
    AppendContent(st, msg);
    AppendNoneNewer(st, msg);
  }

  lemma WriteOk(log: Log, msg: Bytes, maxSize: int)
    requires LogOk(log, maxSize) && Room(log, msg, maxSize)
    ensures Written(log, msg).None? <==> msg == []
    ensures msg != [] ==>
              && LogOk(Written(log, msg).value, maxSize)
              && Content(Written(log, msg).value.store) == Content(log.store) + Line(msg)
  {
    if log.outfile.value in log.store.made { RoomForOne(log, msg, maxSize); }
    WriteStore(log.store, msg, maxSize);
    AppendContent(log.store, msg);
  }

  /** One turn panics exactly on an empty message or a rotation in the second in which the
      newest file was made. */
  lemma TurnPanicsIff(log: Log, msg: Bytes, ts: Time, maxSize: int)
    requires LogOk(log, maxSize) && NotBefore(log.store.order, ts)
    ensures Turn(log, msg, ts, maxSize).None? <==>
              msg == [] ||
              (!Takes(log.fileLen, msg, maxSize)
               && log.store.order != [] && Stamp(Last(log.store.order)) == Stamp(ts))
  {
    RotateOk(log, ts, maxSize);
  }

  /** Otherwise the line ends up whole at the end of the newest file. */
  lemma TurnKeeps(log: Log, msg: Bytes, ts: Time, maxSize: int)
    requires LogOk(log, maxSize) && NotBefore(log.store.order, ts) && Turn(log, msg, ts, maxSize).Some?
    ensures var log' := Turn(log, msg, ts, maxSize).value;
            LogOk(log', maxSize) && Content(log'.store) == Content(log.store) + Line(msg)
  {
    RotateOk(log, ts, maxSize);
    WriteOk(if Takes(log.fileLen, msg, maxSize) then log else Rotated(log, ts).value, msg, maxSize);
  }

  lemma TurnOrder(log: Log, msg: Bytes, ts: Time, maxSize: int)
    requires Turn(log, msg, ts, maxSize).Some?
    ensures Turn(log, msg, ts, maxSize).value.store.order ==
            if Takes(log.fileLen, msg, maxSize) then log.store.order else log.store.order + [ts]
  {}

  /** The clock readings do not go back, nor behind the newest file. */
  ghost predicate ClockOk(order: seq<Time>, times: seq<Time>) {
    && (forall i, j :: 0 <= i < j < |times| ==> Stamp(times[i]) <= Stamp(times[j]))
    && (forall i :: 0 <= i < |times| ==> NotBefore(order, times[i]))
  }

  lemma {:induction false} RunOrder(log: Log, msgs: seq<Bytes>, times: seq<Time>, maxSize: int, ts: Time)
    requires |times| == |msgs| && Turns(log, msgs, times, maxSize).Some?
    requires NotBefore(log.store.order, ts) && forall i :: 0 <= i < |times| ==> Stamp(times[i]) <= Stamp(ts)
    ensures NotBefore(Turns(log, msgs, times, maxSize).value.store.order, ts)
    decreases |msgs|
  {
    if msgs != [] {
      var n := |msgs| - 1;
      RunOrder(log, msgs[..n], times[..n], maxSize, ts);
      TurnOrder(Turns(log, msgs[..n], times[..n], maxSize).value, msgs[n], times[n], maxSize);
    }
  }

  /** After any run, every file that a rotation made holds whole messages and obeys the size
      rule, and the newest file is the open one. */
  lemma {:induction false} RunKeeps(log: Log, log': Log, msgs: seq<Bytes>, times: seq<Time>, maxSize: int)
    requires LogOk(log, maxSize) && |times| == |msgs| && ClockOk(log.store.order, times)
    requires Turns(log, msgs, times, maxSize) == Some(log')
    ensures LogOk(log', maxSize)
    decreases |msgs|
  {
    if msgs != [] {
      var n := |msgs| - 1;
      var before := Turns(log, msgs[..n], times[..n], maxSize).value;
      RunKeeps(log, before, msgs[..n], times[..n], maxSize);
      RunOrder(log, msgs[..n], times[..n], maxSize, times[n]);
      TurnKeeps(before, msgs[n], times[n], maxSize);
    }
  }

  /** What each turn of a run adds to the content. */
  ghost predicate AddsLines(log: Log, log': Log, msgs: seq<Bytes>, times: seq<Time>, maxSize: int)
    requires |times| == |msgs|
    decreases |msgs|
  {
    if msgs == [] then log' == log
    else
      var n := |msgs| - 1;
      match Turns(log, msgs[..n], times[..n], maxSize)
      case None => false
      case Some(before) =>
        AddsLines(log, before, msgs[..n], times[..n], maxSize)
        && Content(log'.store) == Content(before.store) + Line(msgs[n])
  }

  lemma {:induction false} RunAddsLines(log: Log, log': Log, msgs: seq<Bytes>, times: seq<Time>, maxSize: int)
    requires LogOk(log, maxSize) && |times| == |msgs| && ClockOk(log.store.order, times)
    requires Turns(log, msgs, times, maxSize) == Some(log')
    ensures AddsLines(log, log', msgs, times, maxSize)
    decreases |msgs|
  {
    if msgs != [] {
      var n := |msgs| - 1;
      var before := Turns(log, msgs[..n], times[..n], maxSize).value;
      RunKeeps(log, before, msgs[..n], times[..n], maxSize);
      RunAddsLines(log, before, msgs[..n], times[..n], maxSize);
      RunOrder(log, msgs[..n], times[..n], maxSize, times[n]);
      TurnKeeps(before, msgs[n], times[n], maxSize);
    }
  }

  lemma {:induction false} LinesAdded(log: Log, log': Log, msgs: seq<Bytes>, times: seq<Time>, maxSize: int)
    requires |times| == |msgs| && AddsLines(log, log', msgs, times, maxSize)
    ensures Content(log'.store) == Content(log.store) + Lines(msgs)
    decreases |msgs|
  {
    if msgs != [] {
      var n := |msgs| - 1;
      var before := Turns(log, msgs[..n], times[..n], maxSize).value;
      LinesAdded(log, before, msgs[..n], times[..n], maxSize);
      Chain(Content(log.store), Lines(msgs[..n]), Line(msgs[n]), Content(before.store), Content(log'.store));
    }
  }

  /** The files of the stream, oldest to newest and counting deleted ones, hold what was there
      before and then the lines of the messages in arrival order. */
  lemma RunContent(log: Log, log': Log, msgs: seq<Bytes>, times: seq<Time>, maxSize: int)
    requires LogOk(log, maxSize) && |times| == |msgs| && ClockOk(log.store.order, times)
    requires Turns(log, msgs, times, maxSize) == Some(log')
    ensures Content(log'.store) == Content(log.store) + Lines(msgs)
  {
    RunAddsLines(log, log', msgs, times, maxSize);
    LinesAdded(log, log', msgs, times, maxSize);
  }

  /** With newline-terminated messages, no file that a rotation made is larger than maxSize
      unless it holds one message. */
  lemma MadeFileSize(log: Log, maxSize: int, ts: Time)
    requires LogOk(log, maxSize) && ts in log.store.made
    requires forall m :: m in log.store.made[ts] ==> Terminated(m)
    ensures |log.store.made[ts]| <= 1 || |FileOf(log.store.disk, ts)| <= maxSize
  {
    FileSizeExact(log.store.made[ts], maxSize);
  }

  // ----- a run that breaks the size limit -----

  /** A stream without files. */
  function Empty(): Log {
    Log(Store([], map[], map[]), None, -1)
  }

  function Always(ts: Time, k: nat): (times: seq<Time>)
    ensures |times| == k && forall i :: 0 <= i < k ==> times[i] == ts
  {
    seq(k, i => ts)
  }

  /** One file with k unterminated messages, as the count has it. */
  function OneFileOf(msg: Bytes, k: nat, ts: Time): Log {
    Log(Store([ts], map[Stamp(ts) := Lines(Copies(msg, k))], map[ts := Copies(msg, k)]), Some(ts), k)
  }

  lemma OneMoreCopy(msg: Bytes, k: nat, ts: Time, maxSize: int)
    requires msg != [] && !Terminated(msg) && k > 0 && k + |msg| + 1 <= maxSize
    ensures Turn(OneFileOf(msg, k, ts), msg, ts, maxSize) == Some(OneFileOf(msg, k + 1, ts))
  {
    LinesOfCopies(msg, k);
    SetAgain(Stamp(ts), Lines(Copies(msg, k)), Lines(Copies(msg, k + 1)));
    SetAgain(ts, Copies(msg, k), Copies(msg, k + 1));
  }

  lemma LinesOfCopies(msg: Bytes, k: nat)
    requires !Terminated(msg)
    ensures Copies(msg, k + 1) == Copies(msg, k) + [msg]
    ensures Lines(Copies(msg, k + 1)) == Lines(Copies(msg, k)) + Line(msg)
  {
    CopiesCount(msg, k);
    assert Copies(msg, k + 1)[..k] == Copies(msg, k);
  }

  lemma SetAgain<K, V>(k: K, v: V, w: V)
    ensures map[k := v][k := w] == map[k := w]
  {}

  lemma FirstCopy(msg: Bytes, ts: Time, maxSize: int)
    requires msg != [] && !Terminated(msg)
    ensures Turn(Empty(), msg, ts, maxSize) == Some(OneFileOf(msg, 1, ts))
  {
    LinesOfCopies(msg, 0);
    var st := Created(Empty().store, ts);
    assert st == Store([ts], map[Stamp(ts) := []], map[ts := []]);
    SetAgain(Stamp(ts), [], Lines(Copies(msg, 1)));
    SetAgain(ts, [], Copies(msg, 1));
    assert Appended(st, ts, msg) == OneFileOf(msg, 1, ts).store;
  }

  /** The loop itself puts k copies of an unterminated message in one file, as long as the
      count leaves room for one more. */
  lemma {:induction false} CopiesRun(msg: Bytes, k: nat, ts: Time, maxSize: int)
    requires msg != [] && !Terminated(msg) && k > 0 && (k >= 2 ==> k - 1 + |msg| + 1 <= maxSize)
    ensures |Copies(msg, k)| == k
    ensures Turns(Empty(), Copies(msg, k), Always(ts, k), maxSize) == Some(OneFileOf(msg, k, ts))
  {
    CopiesCount(msg, k);
    CopiesCount(msg, k - 1);
    assert Copies(msg, k)[..k - 1] == Copies(msg, k - 1) && Copies(msg, k)[k - 1] == msg;
    assert Always(ts, k)[..k - 1] == Always(ts, k - 1);
    if k == 1 {
      FirstCopy(msg, ts, maxSize);
    } else {
      CopiesRun(msg, k - 1, ts, maxSize);
      OneMoreCopy(msg, k - 1, ts, maxSize);
    }
  }

  lemma CopiesOverflow(msg: Bytes, ts: Time, maxSize: int) returns (msgs: seq<Bytes>, log: Log)
    requires msg != [] && !Terminated(msg) && |msg| + 2 <= maxSize
    ensures (forall m :: m in msgs ==> m == msg) && Turns(Empty(), msgs, Always(ts, |msgs|), maxSize) == Some(log)
    ensures ts in log.store.made && |log.store.made[ts]| > 1 && |FileOf(log.store.disk, ts)| > maxSize
  {
    var k := maxSize - |msg|;
    msgs, log := Copies(msg, k), OneFileOf(msg, k, ts);
    CopiesRun(msg, k, ts, maxSize);
    CopiesAre(msg, k);
    CopiesTooLarge(msg, maxSize);
  }

  /** A short message behind a long unterminated one, which counts as one byte. */
  lemma LongThenShort(msg: Bytes, next: Bytes, ts: Time, maxSize: int) returns (log: Log)
    requires msg != [] && !Terminated(msg) && |msg| + 2 > maxSize && next != [] && |next| + 2 <= maxSize
    ensures Turns(Empty(), [msg, next], Always(ts, 2), maxSize) == Some(log)
    ensures ts in log.store.made && |log.store.made[ts]| > 1 && |FileOf(log.store.disk, ts)| > maxSize
  {
    CopiesRun(msg, 1, ts, maxSize);
    CopiesCount(msg, 1);
    assert [msg, next][..1] == Copies(msg, 1) && Always(ts, 2)[..1] == Always(ts, 1);
    log := Written(OneFileOf(msg, 1, ts), next).value;
  }

  /** For every unterminated message, and every limit that lets some message follow another one,
      there is a run of these two that makes a file of several messages over the limit. */
  lemma OverflowingRun(msg: Bytes, next: Bytes, ts: Time, maxSize: int) returns (msgs: seq<Bytes>, log: Log)
    requires msg != [] && !Terminated(msg) && next != [] && |next| + 2 <= maxSize
    ensures forall m :: m in msgs ==> m == msg || m == next
    ensures Turns(Empty(), msgs, Always(ts, |msgs|), maxSize) == Some(log)
    ensures ts in log.store.made && |log.store.made[ts]| > 1 && |FileOf(log.store.disk, ts)| > maxSize
  {
    if |msg| + 2 <= maxSize {
      msgs, log := CopiesOverflow(msg, ts, maxSize);
    } else {
      msgs := [msg, next];
      log := LongThenShort(msg, next, ts, maxSize);
    }
  }

  // ----- the object -----

  /** Going on at the end of the newest file, with its size as the count. */
  function Started(store: Store): Log {
    if store.order == [] then Log(store, None, -1)
    else Log(store, Some(Last(store.order)), |FileOf(store.disk, Last(store.order))|)
  }

  /** How many files the list keeps: all that the scan found until the first rotation, the
      newest maxFiles from then on. */
  predicate Retained(listed: nat, total: nat, maxFiles: int) {
    listed == total || listed == Min(maxFiles, total)
  }

  lemma RetainedAfter(listed: nat, total: nat, maxFiles: int)
    requires Retained(listed, total, maxFiles) && maxFiles >= 1
    ensures Min(maxFiles, listed + 1) == Min(maxFiles, total + 1)
    ensures Retained(Min(maxFiles, total + 1), total + 1, maxFiles)
  {}

  /** The list is strictly newest first, and the open file is in front of it. */
  lemma OpenFileInFront(files: List<Time>, log: Log, maxSize: int)
    requires LogOk(log, maxSize) && Holds(files, log.store.order) && files.nodes != []
    ensures log.outfile == Some(files.Contents()[0])
    ensures forall i, j :: 0 <= i < j < |files.Contents()| ==> Stamp(files.Contents()[i]) > Stamp(files.Contents()[j])
  {
    var order, n := log.store.order, |files.nodes|;
    assert forall i :: 0 <= i < n ==> files.Contents()[i] == order[|order| - 1 - i];
  }

  class FileLog {
    const maxSize: int
    const maxFiles: int
    const files: List<Time>
    var log: Log

    ghost predicate Valid()
      reads this, files, files.repr
    {
      && maxFiles >= 1 && Holds(files, log.store.order) && Retained(|files.nodes|, |log.store.order|, maxFiles)
      && log.outfile == (if log.store.order == [] then None else Some(Last(log.store.order)))
    }

    /** newFileLog: goes on at the end of the newest file that the directory scan found. */
    constructor (maxSize: int, maxFiles: int, files: List<Time>, store: Store)
      requires maxFiles >= 1 && Holds(files, store.order) && |files.nodes| == |store.order|
      ensures Valid() && this.files == files && this.maxSize == maxSize && this.maxFiles == maxFiles
      ensures log == Started(store)
      ensures StoreOk(store, maxSize) && store.made == map[] ==> LogOk(log, maxSize)
    {
      var r := files.Front();
      this.maxSize := maxSize;
      this.maxFiles := maxFiles;
      this.files := files;
      log := Log(store, r, if r.Some? then |FileOf(store.disk, r.value)| else -1);
    }

    /** The rest of rotate once the new file is created. */
    method AddFile(ts: Time) returns (removed: seq<Time>)
      requires Valid() && Stamp(ts) !in log.store.disk
      modifies this, files, files.repr
      ensures Valid() && fresh(files.repr - old(files.repr))
      ensures log == Rotated(old(log), ts).value && |files.nodes| == Min(maxFiles, |log.store.order|)
      ensures removed == Dropped(old(log).store.order + [ts], |old(files.nodes)| + 1, |files.nodes|)
    {
      RetainedAfter(|files.nodes|, |log.store.order|, maxFiles);
      ghost var order := log.store.order;
      removed := PushAndTrim(files, maxFiles, order, ts);
      ghost var kept := files.nodes;
      log := Log(Created(log.store, ts), Some(ts), 0);
      assert files.nodes == kept && log.store.order == order + [ts];
    }

    /** rotate: the list then holds the newest maxFiles of all files, the open one among them. */
    method Rotate(ts: Time) returns (panicked: bool, removed: seq<Time>)
      requires Valid()
      modifies this, files, files.repr
      ensures Valid() && fresh(files.repr - old(files.repr))
      ensures panicked <==> Rotated(old(log), ts).None?
      ensures log == if panicked then old(log) else Rotated(old(log), ts).value
      ensures panicked ==> files.nodes == old(files.nodes)
      ensures !panicked ==> |files.nodes| == Min(maxFiles, |log.store.order|)
      ensures !panicked ==> removed == Dropped(old(log).store.order + [ts], |old(files.nodes)| + 1, |files.nodes|)
    {
      panicked, removed := Stamp(ts) in log.store.disk, [];
      if !panicked {
        removed := AddFile(ts);
      }
    }

    /** The writes of one message to the open file. */
    method Put(msg: Bytes) returns (panicked: bool)
      requires Valid()
      modifies this
      ensures Valid() && files.nodes == old(files.nodes) && files.repr == old(files.repr)
      ensures panicked <==> Written(old(log), msg).None?
      ensures log == if panicked then old(log) else Written(old(log), msg).value
    {
      panicked := log.outfile.None? || msg == [];
      if !panicked {
        log := Log(Appended(log.store, log.outfile.value, msg), log.outfile, log.fileLen + Counted(msg));
      }
    }

    /** One turn of run's loop. */
    method Write(msg: Bytes, ts: Time) returns (panicked: bool)
      requires Valid()
      modifies this, files, files.repr
      ensures Valid() && fresh(files.repr - old(files.repr))
      ensures panicked <==> Turn(old(log), msg, ts, maxSize).None?
      ensures !panicked ==> log == Turn(old(log), msg, ts, maxSize).value
      ensures log.store.order == old(log).store.order || log.store.order == old(log).store.order + [ts]
      ensures log.store.order != old(log).store.order ==> |files.nodes| == Min(maxFiles, |log.store.order|)
      ensures log.store.order == old(log).store.order ==> files.nodes == old(files.nodes)
    {
      panicked := false;
      if !Takes(log.fileLen, msg, maxSize) {
        var removed;
        panicked, removed := Rotate(ts);
      }
      if !panicked {
        panicked := Put(msg);
      }
    }

    /** run: receives every message, with the clock reading that a rotation would take. */
    method Run(msgs: seq<Bytes>, times: seq<Time>) returns (panicked: bool)
      requires Valid() && |times| == |msgs|
      modifies this, files, files.repr
      ensures Valid() && fresh(files.repr - old(files.repr))
      ensures panicked <==> Turns(old(log), msgs, times, maxSize).None?
      ensures !panicked ==> log == Turns(old(log), msgs, times, maxSize).value
      ensures |log.store.order| > |old(log).store.order| ==> |files.nodes| == Min(maxFiles, |log.store.order|)
      ensures files.nodes != [] ==> log.outfile == Some(files.Contents()[0])
    {
      var i := 0;
      panicked := false;
      while i < |msgs| && !panicked
        invariant 0 <= i <= |msgs|
        invariant |log.store.order| >= |old(log).store.order|
        invariant |log.store.order| > |old(log).store.order| ==> |files.nodes| == Min(maxFiles, |log.store.order|)
        invariant Valid() && fresh(files.repr - old(files.repr))
        invariant Turns(old(log), msgs[..i], times[..i], maxSize) == if panicked then None else Some(log)
      {
        TurnsGrow(old(log), msgs, times, maxSize, i);
        panicked := Write(msgs[i], times[i]);
        i := i + 1;
      }
      TurnsStay(old(log), msgs, times, maxSize, i);
    }
  }

  lemma TurnsStay(log: Log, msgs: seq<Bytes>, times: seq<Time>, maxSize: int, i: nat)
    requires |times| == |msgs| && i <= |msgs|
    requires i == |msgs| || Turns(log, msgs[..i], times[..i], maxSize).None?
    ensures Turns(log, msgs, times, maxSize) == Turns(log, msgs[..i], times[..i], maxSize)
  {
    assert msgs[..|msgs|] == msgs && times[..|times|] == times;
    if i < |msgs| { TurnsFail(log, msgs, times, maxSize, i); }
  }

  lemma TurnsGrow(log: Log, msgs: seq<Bytes>, times: seq<Time>, maxSize: int, i: nat)
    requires |times| == |msgs| && i < |msgs|
    ensures Turns(log, msgs[..i + 1], times[..i + 1], maxSize) ==
            match Turns(log, msgs[..i], times[..i], maxSize)
            case None => None
            case Some(log') => Turn(log', msgs[i], times[i], maxSize)
  {
    assert msgs[..i + 1][..i] == msgs[..i] && times[..i + 1][..i] == times[..i];
  }

  lemma {:induction false} TurnsFail(log: Log, msgs: seq<Bytes>, times: seq<Time>, maxSize: int, i: nat)
    requires |times| == |msgs| && i <= |msgs| && Turns(log, msgs[..i], times[..i], maxSize).None?
    ensures Turns(log, msgs, times, maxSize).None?
    decreases |msgs| - i
  {
    if i < |msgs| {
      TurnsGrow(log, msgs, times, maxSize, i);
      TurnsFail(log, msgs, times, maxSize, i + 1);
    } else {
      assert msgs[..i] == msgs && times[..i] == times;
    }
  }

  /** scanLogDirectory for one stream: None is a directory or a name that does not parse. */
  method Scan(entries: seq<Option<Time>>) returns (files: List<Time>)
    ensures Holds(files, Parsed(entries)) && |files.nodes| == |Parsed(entries)| && fresh(files) && fresh(files.repr)
  {
    files := new List<Time>(false);
    var i := 0;
    while i < |entries|
      invariant 0 <= i <= |entries|
      invariant Holds(files, Parsed(entries[..i])) && |files.nodes| == |Parsed(entries[..i])|
      invariant fresh(files) && fresh(files.repr)
    {
      ParsedOneMore(entries, i);
      if entries[i].Some? {
        AddNewest(files, Parsed(entries[..i]), entries[i].value);
      }
      i := i + 1;
    }
    assert entries[..i] == entries;
  }

  /** The times in the names, in the order of the directory listing. */
  function Parsed(entries: seq<Option<Time>>): seq<Time> {
    if entries == [] then []
    else Parsed(entries[..|entries| - 1]) + match entries[|entries| - 1] case None => [] case Some(ts) => [ts]
  }

  lemma ParsedOneMore(entries: seq<Option<Time>>, i: nat)
    requires i < |entries|
    ensures Parsed(entries[..i + 1]) == Parsed(entries[..i]) + match entries[i] case None => [] case Some(ts) => [ts]
    ensures entries[i].None? ==> Parsed(entries[..i + 1]) == Parsed(entries[..i])
  {
    assert entries[..i + 1][..i] == entries[..i];
  }
}
