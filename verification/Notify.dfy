/** The notification datagrams that ReadSDNotify of internal/host/service_darwin.go decodes. */
module Notify {
  import opened Strings

  const READY := "READY"

  /** What one line does to the decoded map; a line without '=' is skipped. */
  function Put(data: map<string, string>, line: string): map<string, string> {
    var parts := SplitOnce(line, '=');
    if |parts| == 2 then data[parts[0] := parts[1]] else data
  }

  function Decoded(lines: seq<string>): map<string, string> {
    if lines == [] then map[] else Put(Decoded(lines[..|lines| - 1]), lines[|lines| - 1])
  }

  /** The text has these lines. */
  ghost predicate OnLines(text: string, lines: seq<string>) {
    lines != [] && (forall i :: 0 <= i < |lines| ==> '\n' !in lines[i]) && text == Join(lines, '\n')
  }

  method ReadNotify(text: string) returns (data: map<string, string>)
    ensures data == Decoded(Split(text, '\n'))
    ensures forall lines :: OnLines(text, lines) ==> data == Decoded(lines)
  {
    forall lines | OnLines(text, lines) ensures Split(text, '\n') == lines { SplitJoin(lines, '\n'); }
    var lines := Split(text, '\n');
    data := map[];
    for i := 0 to |lines|
      invariant data == Decoded(lines[..i])
    {
      assert lines[..i + 1][..i] == lines[..i];
      data := Put(data, lines[i]);
    }
    assert lines[..|lines|] == lines;
  }

  /** A missing key reads as the empty string. */
  predicate IsReady(data: map<string, string>) {
    READY in data && data[READY] == "1"
  }

  /** The line gives key the value v. */
  predicate Sets(line: string, key: string, v: string) {
    line == key + "=" + v
  }

  lemma SplitSets(line: string, key: string, v: string)
    requires '=' !in key
    ensures SplitOnce(line, '=') == [key, v] <==> Sets(line, key, v)
  {
    if Sets(line, key, v) {
      IndexOfIs(line, '=', |key|);
      assert line[..|key|] == key && line[|key| + 1..] == v;
    }
  }

  /** A datagram says that the service is ready exactly when one of its lines is "READY=1" and no
      later line sets READY to something else. */
  lemma ReadyIff(lines: seq<string>)
    ensures IsReady(Decoded(lines)) <==>
              exists i :: 0 <= i < |lines| && Sets(lines[i], "READY", "1")
                && forall j, w :: i < j < |lines| && Sets(lines[j], "READY", w) ==> w == "1"
  {
    LastLineWins(lines, "READY", "1");
  }

  /** A key holds v exactly when some line sets it to v and no later line sets it to another
      value. */
  lemma {:induction false} LastLineWins(lines: seq<string>, key: string, v: string)
    requires '=' !in key
    ensures (key in Decoded(lines) && Decoded(lines)[key] == v) <==>
              exists i :: 0 <= i < |lines| && Sets(lines[i], key, v)
                && forall j, w :: i < j < |lines| && Sets(lines[j], key, w) ==> w == v
  {
    if lines != [] {
      var n := |lines| - 1;
      LastLineWins(lines[..n], key, v);
      var parts := SplitOnce(lines[n], '=');
      if |parts| == 2 && parts[0] == key {
        SplitSets(lines[n], key, parts[1]);
        assert Sets(lines[n], key, parts[1]);
      } else {
        forall w ensures !Sets(lines[n], key, w) { SplitSets(lines[n], key, w); }
      }
    }
  }
}
