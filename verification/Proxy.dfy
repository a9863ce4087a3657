/** The length-prefixed handshake of internal/rpc/proxy.go. */
module Proxy {
  import opened Options
  import opened Sequences
  import opened Strings

  type Byte = c: char | c as int < 256

  type Bytes = seq<Byte>

  const SIZES: int := 0x1_0000

  // ----- frames -----

  function ByteOf(n: nat): Byte {
    (n % 256) as char
  }

  /** The two size bytes; a larger size loses its upper bits. */
  function Header(size: nat): Bytes {
    [ByteOf(size / 256), ByteOf(size)]
  }

  function Frame(data: Bytes): Bytes {
    Header(|data|) + data
  }

  function SizeOf(high: Byte, low: Byte): nat {
    high as int * 256 + low as int
  }

  lemma SizeOfHeader(size: nat)
    ensures SizeOf(Header(size)[0], Header(size)[1]) == size % SIZES
  {
    var q, r := size / 256, size % 256;
    var a, b := q / 256, q % 256;
    assert size == SIZES * a + (256 * b + r);
    ModIs(size, a, 256 * b + r);
  }

  lemma ModIs(n: nat, a: nat, r: nat)
    requires n == SIZES * a + r && r < SIZES
    ensures n % SIZES == r
  {}

  /** The frame at the head of a stream that is read in full. */
  function Decode(input: Bytes): Option<(Bytes, Bytes)> {
    if |input| < 2 then None
    else
      var size := SizeOf(input[0], input[1]);
      if |input| < 2 + size then None else Some((input[2..2 + size], input[2 + size..]))
  }

  /** What the head of a frame gives, whatever its length. */
  lemma DecodeFrame(data: Bytes, rest: Bytes)
    ensures var n := |data| % SIZES;
            Decode(Frame(data) + rest) == Some((data[..n], data[n..] + rest))
  {
    SizeOfHeader(|data|);
    var n := |data| % SIZES;
    var input := Frame(data) + rest;
    assert input[0] == Header(|data|)[0] && input[1] == Header(|data|)[1];
    assert n <= |data|;
    assert input[2..2 + n] == data[..n] && input[2 + n..] == data[n..] + rest;
  }

  /** A frame decodes to its data, with the following bytes left, exactly when the data is
      shorter than 65536 bytes. */
  lemma FrameRoundTripIff(data: Bytes, rest: Bytes)
    ensures Decode(Frame(data) + rest) == Some((data, rest)) <==> |data| < SIZES
  {
    DecodeFrame(data, rest);
    if |data| < SIZES {
      assert data[..|data|] == data && data[|data|..] + rest == rest;
    }
  }

  function Frames(msgs: seq<Bytes>): Bytes {
    if msgs == [] then [] else Frame(msgs[0]) + Frames(msgs[1..])
  }

  function DecodeMany(input: Bytes, k: nat): Option<(seq<Bytes>, Bytes)> {
    if k == 0 then Some(([], input))
    else match Decode(input)
         case None => None
         case Some((data, rest)) =>
           match DecodeMany(rest, k - 1)
           case None => None
           case Some((msgs, rest')) => Some(([data] + msgs, rest'))
  }

  /** A sequence of frames decodes to itself. */
  lemma {:induction false} FramesRoundTrip(msgs: seq<Bytes>, rest: Bytes)
    requires forall m :: m in msgs ==> |m| < SIZES
    ensures DecodeMany(Frames(msgs) + rest, |msgs|) == Some((msgs, rest))
    decreases |msgs|
  {
    if msgs == [] {
      assert Frames(msgs) + rest == rest;
    } else {
      FrameRoundTripIff(msgs[0], Frames(msgs[1..]) + rest);
      Associate(Frame(msgs[0]), Frames(msgs[1..]), rest);
      FramesRoundTrip(msgs[1..], rest);
      assert [msgs[0]] + msgs[1..] == msgs;
    }
  }

  // ----- a connection whose reads may be short -----

  /** The bytes still to come, in the pieces in which reads see them. */
  type Segments = seq<Bytes>

  predicate NonEmpty(segs: Segments) {
    forall i :: 0 <= i < |segs| ==> segs[i] != []
  }

  function Flat(segs: Segments): Bytes {
    if segs == [] then [] else segs[0] + Flat(segs[1..])
  }

  /** One Read into n bytes gives at most the next piece; None is the error at the end. */
  function ReadOnce(segs: Segments, n: nat): Option<(Bytes, Segments)> {
    if n == 0 then Some(([], segs))
    else if segs == [] then None
    else if |segs[0]| <= n then Some((segs[0], segs[1..]))
    else Some((segs[0][..n], [segs[0][n..]] + segs[1..]))
  }

  function Zeros(n: nat): Bytes {
    seq(n, i => 0 as char)
  }

  /** A buffer of n zero bytes after one read into it. */
  function Filled(got: Bytes, n: nat): (buf: Bytes)
    requires |got| <= n
    ensures |buf| == n
  {
    got + Zeros(n - |got|)
  }

  lemma ReadOnceFits(segs: Segments, n: nat)
    requires ReadOnce(segs, n).Some? && NonEmpty(segs)
    ensures |ReadOnce(segs, n).value.0| <= n && NonEmpty(ReadOnce(segs, n).value.1)
    ensures ReadOnce(segs, n).value.0 + Flat(ReadOnce(segs, n).value.1) == Flat(segs)
  {
    if n > 0 && |segs[0]| > n {
      var segs' := [segs[0][n..]] + segs[1..];
      assert segs'[1..] == segs[1..];
      assert segs[0] == segs[0][..n] + segs[0][n..];
    }
  }

  /** What readProxy makes of a connection: neither of its two reads is repeated. */
  function ReadFrame(segs: Segments): (Option<Bytes>, Segments)
    requires NonEmpty(segs)
  {
    match ReadOnce(segs, 2)
    case None => (None, segs)
    case Some((got, segs1)) =>
      ReadOnceFits(segs, 2);
      var head := Filled(got, 2);
      var size := SizeOf(head[0], head[1]);
      match ReadOnce(segs1, size)
      case None => (None, segs1)
      case Some((got2, segs2)) => ReadOnceFits(segs1, size); (Some(Filled(got2, size)), segs2)
  }

  /** The size is in one piece, and so is the data. */
  predicate InOnePieceEach(segs: Segments, size: nat) {
    segs != [] && |segs[0]| >= 2 &&
    (size == 0 || |segs[0]| >= 2 + size || (|segs[0]| == 2 && |segs| > 1 && |segs[1]| >= size))
  }

  lemma ReadFull(segs: Segments, n: nat)
    requires NonEmpty(segs) && segs != [] && |segs[0]| >= n
    ensures ReadOnce(segs, n).Some?
    ensures var (got, segs') := ReadOnce(segs, n).value;
            NonEmpty(segs') && |Flat(segs)| >= n && got == Flat(segs)[..n] && Flat(segs') == Flat(segs)[n..]
  {
    ReadOnceFits(segs, n);
    var (got, segs') := ReadOnce(segs, n).value;
    assert |got| == n && Flat(segs) == got + Flat(segs');
  }

  lemma ReadFrameFull(segs: Segments, data: Bytes, rest: Bytes)
    requires NonEmpty(segs) && |data| < SIZES && Flat(segs) == Frame(data) + rest
    requires InOnePieceEach(segs, |data|)
    ensures ReadFrame(segs).0 == Some(data) && Flat(ReadFrame(segs).1) == rest
  {
    ReadFull(segs, 2);
    var (got, segs1) := ReadOnce(segs, 2).value;
    SizeOfHeader(|data|);
    assert got == Header(|data|);
    assert Filled(got, 2) == got;
    assert Flat(segs1) == data + rest by {
      assert (Frame(data) + rest)[2..] == data + rest;
    }
    if |data| > 0 {
      assert |segs[0]| == 2 ==> segs1 == segs[1..];
      ReadFull(segs1, |data|);
      var (got2, segs2) := ReadOnce(segs1, |data|).value;
      assert got2 == data && Flat(segs2) == rest;
      assert Filled(got2, |data|) == got2;
    } else {
      assert Filled([], 0) == [];
    }
  }

  lemma ShortHeader(segs: Segments, data: Bytes, rest: Bytes)
    requires NonEmpty(segs) && |data| < SIZES && Flat(segs) == Frame(data) + rest && |segs[0]| < 2
    ensures |Flat(ReadFrame(segs).1)| > |rest|
  {
    ReadOnceFits(segs, 2);
    var (got, segs1) := ReadOnce(segs, 2).value;
    SizeOfHeader(|data|);
    var head := Filled(got, 2);
    assert got[0] == Flat(segs)[0] == Header(|data|)[0];
    var size := SizeOf(head[0], head[1]);
    assert size <= |data|;
    if ReadOnce(segs1, size).Some? {
      ReadOnceFits(segs1, size);
    }
  }

  lemma ShortData(segs: Segments, data: Bytes, rest: Bytes)
    requires NonEmpty(segs) && |data| < SIZES && Flat(segs) == Frame(data) + rest
    requires segs != [] && |segs[0]| >= 2 && !InOnePieceEach(segs, |data|)
    ensures |Flat(ReadFrame(segs).1)| > |rest|
  {
    ReadFull(segs, 2);
    var (got, segs1) := ReadOnce(segs, 2).value;
    SizeOfHeader(|data|);
    assert got == Header(|data|);
    assert Filled(got, 2) == got;
    ReadOnceFits(segs1, |data|);
  }

  /** readProxy returns the data and leaves exactly the following bytes if and only if each of
      its two reads found what it asked for in one piece. */
  lemma ReadFrameExactIff(segs: Segments, data: Bytes, rest: Bytes)
    requires NonEmpty(segs) && |data| < SIZES && Flat(segs) == Frame(data) + rest
    ensures (ReadFrame(segs).0 == Some(data) && Flat(ReadFrame(segs).1) == rest) <==> InOnePieceEach(segs, |data|)
  {
    if InOnePieceEach(segs, |data|) {
      ReadFrameFull(segs, data, rest);
    } else if |segs[0]| < 2 {
      ShortHeader(segs, data, rest);
    } else {
      ShortData(segs, data, rest);
    }
  }

  class Conn {
    var input: Segments
    var sent: Bytes
    var writes: nat      // how many more writes succeed

    constructor (input: Segments, writes: nat)
      ensures this.input == input && sent == [] && this.writes == writes
    {
      this.input, sent, this.writes := input, [], writes;
    }

    /** conn.Read: fills a front part of the buffer. */
    method Read(buf: array<Byte>) returns (ok: bool)
      requires NonEmpty(input)
      modifies this`input, buf
      ensures ok <==> ReadOnce(old(input), buf.Length).Some?
      ensures !ok ==> input == old(input) && buf[..] == old(buf[..])
      ensures ok ==>
                var (got, rest) := ReadOnce(old(input), buf.Length).value;
                && |got| <= buf.Length && NonEmpty(rest)
                && input == rest && buf[..] == got + old(buf[|got|..])
    {
      var r := ReadOnce(input, buf.Length);
      if r.None? {
        return false;
      }
      ReadOnceFits(input, buf.Length);
      var (got, rest) := r.value;
      forall i | 0 <= i < |got| { buf[i] := got[i]; }
      input, ok := rest, true;
    }

    method Write(bs: Bytes) returns (ok: bool)
      modifies this`sent, this`writes
      ensures ok <==> old(writes) > 0
      ensures sent == if ok then old(sent) + bs else old(sent)
      ensures writes == if ok then old(writes) - 1 else 0
    {
      ok := writes > 0;
      if ok { sent, writes := sent + bs, writes - 1; }
    }
  }

  method ReadProxy(conn: Conn) returns (r: Option<Bytes>)
    requires NonEmpty(conn.input)
    modifies conn`input
    ensures (r, conn.input) == ReadFrame(old(conn.input))
    ensures NonEmpty(conn.input)
  {
    var head := new Byte[2](_ => 0 as char);
    ghost var zeros := head[..];
    var ok := conn.Read(head);
    if !ok {
      return None;
    }
    assert head[..] == Filled(ReadOnce(old(conn.input), 2).value.0, 2);
    assert head[0] == head[..][0] && head[1] == head[..][1];
    var size := SizeOf(head[0], head[1]);
    var buf := new Byte[size](_ => 0 as char);
    ghost var segs1 := conn.input;
    ok := conn.Read(buf);
    if !ok {
      return None;
    }
    assert buf[..] == Filled(ReadOnce(segs1, size).value.0, size);
    r := Some(buf[..]);
  }

  /** What gets out of a frame when only so many writes succeed. */
  function Got(data: Bytes, writes: nat): Bytes {
    if writes == 0 then [] else if writes == 1 then Header(|data|) else Frame(data)
  }

  /** The size and the data go out in two writes. */
  method WriteProxy(conn: Conn, data: Bytes) returns (ok: bool)
    modifies conn`sent, conn`writes
    ensures ok <==> old(conn.writes) >= 2
    ensures conn.sent == old(conn.sent) + Got(data, old(conn.writes))
    ensures ok ==> Got(data, old(conn.writes)) == Frame(data)
  {
    ok := conn.Write(Header(|data|));
    if ok {
      ok := conn.Write(data);
    }
  }

  const COLON: Byte := ':'

  /** Dial hands the connection over, or fails with the text of the reply. */
  datatype Dialed = Connected | Refused(text: Bytes) | IOError

  method Dial(proxy: Conn, network: Bytes, addr: Bytes) returns (r: Dialed)
    requires NonEmpty(proxy.input)
    modifies proxy
    ensures NonEmpty(proxy.input)
    ensures proxy.sent == old(proxy.sent) + Got(network + [COLON] + addr, old(proxy.writes))
    ensures old(proxy.writes) < 2 ==> r == IOError && proxy.input == old(proxy.input)
    ensures old(proxy.writes) >= 2 ==>
              var (reply, rest) := ReadFrame(old(proxy.input));
              && proxy.input == rest
              && r == (match reply
                       case None => IOError
                       case Some(text) => if text == [] then Connected else Refused(text))
  {
    var ok := WriteProxy(proxy, network + [COLON] + addr);
    if !ok {
      return IOError;
    }
    var resp := ReadProxy(proxy);
    r := match resp
         case None => IOError
         case Some(text) => if text == [] then Connected else Refused(text);
  }

  /** How ServeStreamProxy ends its part of the handshake. */
  datatype Served =
    | Unread | NoColon
    | Failed(network: string, addr: string, text: Bytes)
    | Tunnel(network: string, addr: string)

  const INVALID: Bytes := "invalid address"

  /** What the server makes of a request; dial gives the text of its error. */
  function Serve(request: Option<Bytes>, dial: (string, string) -> Option<Bytes>): Served {
    match request
    case None => Unread
    case Some(addr) =>
      var parts := SplitOnce(addr, ':');
      if |parts| != 2 then NoColon
      else match dial(parts[0], parts[1])
           case None => Tunnel(parts[0], parts[1])
           case Some(text) => Failed(parts[0], parts[1], text)
  }

  /** The text the server answers with, if it answers. */
  function Answer(r: Served): Option<Bytes> {
    match r
    case Unread => None
    case NoColon => Some(INVALID)
    case Failed(_, _, text) => Some(text)
    case Tunnel(_, _) => Some([])
  }

  function Reply(r: Served): Bytes {
    match Answer(r)
    case None => []
    case Some(text) => Frame(text)
  }

  method ServeStreamProxy(conn: Conn, dial: (string, string) -> Option<Bytes>) returns (r: Served)
    requires NonEmpty(conn.input)
    modifies conn
    ensures NonEmpty(conn.input) && conn.input == ReadFrame(old(conn.input)).1
    ensures r == Serve(ReadFrame(old(conn.input)).0, dial)
    ensures conn.sent == old(conn.sent) + match Answer(r) case None => [] case Some(text) => Got(text, old(conn.writes))
    ensures old(conn.writes) >= 2 ==> conn.sent == old(conn.sent) + Reply(r)
  {
    var request := ReadProxy(conn);
    r := Serve(request, dial);
    match r {
      case Unread =>
      case NoColon => var _ := WriteProxy(conn, INVALID);
      case Failed(_, _, text) => var _ := WriteProxy(conn, text);
      case Tunnel(_, _) => var _ := WriteProxy(conn, []);
    }
  }

  // ----- the handshake -----

  /** For a network without ':', the server splits the request into exactly the two names. */
  lemma RequestSplits(network: Bytes, addr: Bytes)
    requires ':' !in network
    ensures SplitOnce(network + [COLON] + addr, ':') == [network, addr]
  {
    var req: string := network + [COLON] + addr;
    IndexOfIs(req, ':', |network|);
    assert req[..|network|] == network && req[|network| + 1..] == addr;
  }

  /** The server recovers the network and the address, and what it leaves unread is exactly
      what follows the request. */
  lemma ServerRecovers(segs: Segments, network: Bytes, addr: Bytes, rest: Bytes,
                       dial: (string, string) -> Option<Bytes>)
    requires ':' !in network && |network| + 1 + |addr| < SIZES && NonEmpty(segs)
    requires Flat(segs) == Frame(network + [COLON] + addr) + rest && InOnePieceEach(segs, |network| + 1 + |addr|)
    ensures Serve(ReadFrame(segs).0, dial) ==
            match dial(network, addr) case None => Tunnel(network, addr) case Some(text) => Failed(network, addr, text)
    ensures Flat(ReadFrame(segs).1) == rest
  {
    ReadFrameFull(segs, network + [COLON] + addr, rest);
    RequestSplits(network, addr);
  }

  /** The client's view of a reply: it hands the connection over exactly when the size field
      of the reply is zero, and then it has consumed nothing of the tunnel. */
  lemma ConnectedIff(segs: Segments, text: Bytes, rest: Bytes)
    requires NonEmpty(segs) && Flat(segs) == Frame(text) + rest && segs != [] && |segs[0]| >= 2
    ensures ReadFrame(segs).0 == Some([]) <==> |text| % SIZES == 0
    ensures text == [] ==> ReadFrame(segs).0 == Some([]) && Flat(ReadFrame(segs).1) == rest
  {
    ReadFull(segs, 2);
    var (got, segs1) := ReadOnce(segs, 2).value;
    SizeOfHeader(|text|);
    assert got == Header(|text|);
    assert Filled(got, 2) == got;
    var size := |text| % SIZES;
    if ReadOnce(segs1, size).Some? {
      ReadOnceFits(segs1, size);
    }
  }

  /** Both sides together: with a request below 65536 bytes and an error text that is not
      empty and below 65536 bytes, the client's Dial succeeds exactly when the server reached
      the target; both directions of the tunnel are then untouched. */
  lemma Handshake(toServer: Segments, toClient: Segments, network: Bytes, addr: Bytes, up: Bytes, down: Bytes,
                  dial: (string, string) -> Option<Bytes>)
    requires ':' !in network && |network| + 1 + |addr| < SIZES && NonEmpty(toServer) && NonEmpty(toClient)
    requires Flat(toServer) == Frame(network + [COLON] + addr) + up && InOnePieceEach(toServer, |network| + 1 + |addr|)
    requires dial(network, addr).Some? ==> 0 < |dial(network, addr).value| < SIZES
    requires Flat(toClient) == Reply(Serve(ReadFrame(toServer).0, dial)) + down && toClient != [] && |toClient[0]| >= 2
    ensures ReadFrame(toClient).0 == Some([]) <==> dial(network, addr).None?
    ensures dial(network, addr).None? ==> Flat(ReadFrame(toServer).1) == up && Flat(ReadFrame(toClient).1) == down
  {
    ServerRecovers(toServer, network, addr, up, dial);
    var text := if dial(network, addr).None? then [] else dial(network, addr).value;
    assert Reply(Serve(ReadFrame(toServer).0, dial)) == Frame(text);
    ConnectedIff(toClient, text, down);
    SmallMod(|text|);
  }

  /** text is what the server has to say to a request: nothing when it reached the target, the
      text of the dial error when it did not, or that the request had no colon. */
  ghost predicate Answers(request: Bytes, text: Bytes, dial: (string, string) -> Option<Bytes>) {
    if COLON !in request then text == "invalid address"
    else exists network: Bytes, addr: Bytes ::
           && request == network + [COLON] + addr && ':' !in network
           && text == if dial(network, addr).Some? then dial(network, addr).value else []
  }

  lemma AnswerIs(request: Bytes, text: Bytes, dial: (string, string) -> Option<Bytes>)
    requires Answers(request, text, dial)
    ensures Reply(Serve(Some(request), dial)) == Frame(text)
  {
    SplitOnceIs(request, ':');
    if COLON in request {
      var network: Bytes, addr: Bytes :| request == network + [COLON] + addr && ':' !in network
        && text == if dial(network, addr).Some? then dial(network, addr).value else [];
      RequestSplits(network, addr);
    }
  }

  /** Whatever the request, the client reads the answer that belongs to it, as long as each read
      finds what it asks for in one piece. */
  lemma AnswerArrives(toServer: Segments, toClient: Segments, request: Bytes, up: Bytes, down: Bytes, text: Bytes,
                      dial: (string, string) -> Option<Bytes>)
    requires NonEmpty(toServer) && NonEmpty(toClient) && |request| < SIZES && |text| < SIZES
    requires Flat(toServer) == Frame(request) + up && InOnePieceEach(toServer, |request|)
    requires Flat(toClient) == Reply(Serve(ReadFrame(toServer).0, dial)) + down && InOnePieceEach(toClient, |text|)
    requires Answers(request, text, dial)
    ensures ReadFrame(toClient).0 == Some(text) && Flat(ReadFrame(toClient).1) == down
  {
    ReadFrameFull(toServer, request, up);
    AnswerIs(request, text, dial);
    ReadFrameFull(toClient, text, down);
  }

  lemma SmallMod(n: nat)
    requires n < SIZES
    ensures n % SIZES == 0 <==> n == 0
  {}
}
