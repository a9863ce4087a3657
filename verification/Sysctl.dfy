/** Loading sysctl files (internal/sysctl/sysctl.go) and writing the compiled file
    (tools/rootprep/sysctl.go). */
module Sysctl {
  import opened MapOrder
  import opened Options
  import opened Sequences
  import opened Strings

  type Controls = map<string, string>

  /** A file by name; text is None when it cannot be read. */
  datatype File = File(name: string, text: Option<string>)

  datatype Result = Loaded(ctls: Controls) | Unreadable(name: string) | Invalid(line: string)

  datatype Entry = Skip | Bad(line: string) | Pair(key: string, value: string)

  /** One line: blank lines and comments are skipped, a line without '=' is an error. */
  function ReadLine(line: string): Entry {
    var l := TrimSpace(line);
    if l == "" || HasPrefix(l, "#") || HasPrefix(l, ";") then Skip
    else
      var parts := SplitOnce(l, '=');
      if |parts| != 2 then Bad(l) else Pair(TrimSpace(parts[0]), TrimSpace(parts[1]))
  }

  /** A line, told from the text between its outer spaces: nothing for an empty text or a comment,
      a pair of the two sides of the first '=', and an error naming the text where there is none. */
  lemma ReadLineIs(line: string) returns (before: string, text: string, after: string)
    ensures line == before + text + after && Trimmed(text)
    ensures forall i :: 0 <= i < |before| ==> IsSpace(before[i])
    ensures forall i :: 0 <= i < |after| ==> IsSpace(after[i])
    ensures ReadLine(line).Skip? <==> text == "" || text[0] == '#' || text[0] == ';'
    ensures ReadLine(line) == Bad(text) <==> text != "" && text[0] != '#' && text[0] != ';' && '=' !in text
    ensures ReadLine(line).Pair? ==>
              exists k, v :: text == k + "=" + v && '=' !in k && ReadLine(line) == Pair(TrimSpace(k), TrimSpace(v))
  {
    var i, j := TrimSpaceIs(line);
    before, text, after := line[..i], line[i..j], line[j..];
    assert line == before + text + after;
    SplitOnceIs(text, '=');
    assert text != "" ==> (HasPrefix(text, "#") <==> text[0] == '#') && (HasPrefix(text, ";") <==> text[0] == ';');
    if '=' in text {
      var parts := SplitOnce(text, '=');
      assert text == parts[0] + "=" + parts[1];
    }
  }

  function LoadLines(ctls: Controls, lines: seq<string>): Result
    decreases |lines|
  {
    if lines == [] then Loaded(ctls)
    else match ReadLine(lines[0])
         case Skip => LoadLines(ctls, lines[1..])
         case Bad(line) => Invalid(line)
         case Pair(key, value) => LoadLines(ctls[key := value], lines[1..])
  }

  function LoadFiles(ctls: Controls, files: seq<File>): Result
    decreases |files|
  {
    if files == [] then Loaded(ctls)
    else match files[0].text
         case None => Unreadable(files[0].name)
         case Some(text) =>
           match LoadLines(ctls, Split(text, '\n'))
           case Loaded(ctls') => LoadFiles(ctls', files[1..])
           case Unreadable(_) => LoadLines(ctls, Split(text, '\n'))
           case Invalid(_) => LoadLines(ctls, Split(text, '\n'))
  }

  /** A list of lines loads exactly when none of them is bad; the error is its first bad line. */
  lemma {:induction false} LoadsIff(ctls: Controls, lines: seq<string>)
    ensures LoadLines(ctls, lines).Loaded? <==> forall i :: 0 <= i < |lines| ==> !ReadLine(lines[i]).Bad?
    ensures !LoadLines(ctls, lines).Loaded? ==>
              exists i :: 0 <= i < |lines| && ReadLine(lines[i]).Bad?
                && LoadLines(ctls, lines) == Invalid(ReadLine(lines[i]).line)
                && forall j :: 0 <= j < i ==> !ReadLine(lines[j]).Bad?
    decreases |lines|
  {
    if lines != [] && !ReadLine(lines[0]).Bad? {
      var e := ReadLine(lines[0]);
      var ctls' := if e.Pair? then ctls[e.key := e.value] else ctls;
      LoadsIff(ctls', lines[1..]);
      assert forall i :: 1 <= i < |lines| ==> lines[i] == lines[1..][i - 1];
      if !LoadLines(ctls', lines[1..]).Loaded? {
        var i :| 0 <= i < |lines[1..]| && ReadLine(lines[1..][i]).Bad?
          && LoadLines(ctls', lines[1..]) == Invalid(ReadLine(lines[1..][i]).line)
          && forall j :: 0 <= j < i ==> !ReadLine(lines[1..][j]).Bad?;
        assert lines[i + 1] == lines[1..][i];
      }
    }
  }

  predicate Sets(line: string, key: string) {
    ReadLine(line).Pair? && ReadLine(line).key == key
  }

  /** The lines give key the value v: some line does and no later one sets it again. */
  ghost predicate Gives(lines: seq<string>, key: string, v: string) {
    exists i :: 0 <= i < |lines| && ReadLine(lines[i]) == Pair(key, v)
      && forall j :: i < j < |lines| ==> !Sets(lines[j], key)
  }

  ghost predicate Mentions(lines: seq<string>, key: string) {
    exists i :: 0 <= i < |lines| && Sets(lines[i], key)
  }

  lemma GivesFirst(lines: seq<string>, key: string, v: string)
    requires lines != []
    ensures Gives(lines, key, v) <==>
              Gives(lines[1..], key, v) || (ReadLine(lines[0]) == Pair(key, v) && !Mentions(lines[1..], key))
    ensures Mentions(lines, key) <==> Mentions(lines[1..], key) || Sets(lines[0], key)
  {
    assert forall i :: 1 <= i < |lines| ==> lines[i] == lines[1..][i - 1];
    assert forall i :: 0 <= i < |lines| - 1 ==> lines[1..][i] == lines[i + 1];
  }

  /** A key ends up with the value of the last line that sets it, or keeps the one it had. */
  lemma {:induction false} LastEntryWins(ctls: Controls, lines: seq<string>, key: string, v: string)
    requires LoadLines(ctls, lines).Loaded?
    ensures var r := LoadLines(ctls, lines).ctls;
            (key in r && r[key] == v) <==>
              Gives(lines, key, v) || (!Mentions(lines, key) && key in ctls && ctls[key] == v)
    decreases |lines|
  {
    if lines != [] {
      GivesFirst(lines, key, v);
      var e := ReadLine(lines[0]);
      LastEntryWins(if e.Pair? then ctls[e.key := e.value] else ctls, lines[1..], key, v);
    }
  }

  method LoadSysctls(files: seq<File>) returns (r: Result)
    ensures r == LoadFiles(map[], files)
  {
    var ctls := map[];
    for f := 0 to |files|
      invariant LoadFiles(map[], files) == LoadFiles(ctls, files[f..])
    {
      if files[f].text.None? {
        return Unreadable(files[f].name);
      }
      var lines := Split(files[f].text.value, '\n');
      ghost var before := ctls;
      for i := 0 to |lines|
        invariant LoadLines(before, lines) == LoadLines(ctls, lines[i..])
      {
        match ReadLine(lines[i])
        case Skip =>
        case Bad(line) => return Invalid(line);
        case Pair(key, value) => ctls := ctls[key := value];
      }
    }
    r := Loaded(ctls);
  }

  // ----- the compiled file -----

  function PrintedLines(ctls: Controls, order: seq<string>): (lines: seq<string>)
    requires forall k :: k in order ==> k in ctls
    ensures |lines| == |order| && forall i :: 0 <= i < |lines| ==> lines[i] == order[i] + "=" + ctls[order[i]]
  {
    seq(|order|, i requires 0 <= i < |order| => order[i] + "=" + ctls[order[i]])
  }

  /** Every line with its newline. */
  function Unlines(lines: seq<string>): string {
    if lines == [] then "" else lines[0] + "\n" + Unlines(lines[1..])
  }

  function Print(ctls: Controls, order: seq<string>): string
    requires forall k :: k in order ==> k in ctls
  {
    Unlines(PrintedLines(ctls, order))
  }

  lemma {:induction false} UnlinesGrows(lines: seq<string>, line: string)
    ensures Unlines(lines + [line]) == Unlines(lines) + (line + "\n")
  {
    if lines == [] {
      assert [line][1..] == [];
    } else {
      assert (lines + [line])[1..] == lines[1..] + [line];
      UnlinesGrows(lines[1..], line);
    }
  }

  /** compileSysctls: loads, and writes one line for each key, in the order in which the map
      happens to be enumerated. */
  method CompileSysctls(files: seq<File>) returns (r: Result, text: string, ghost order: seq<string>)
    ensures r == LoadFiles(map[], files)
    ensures r.Loaded? ==> Enumerates(order, r.ctls.Keys) && text == Print(r.ctls, order)
  {
    r := LoadSysctls(files);
    text, order := "", [];
    if !r.Loaded? {
      return;
    }
    var todo := r.ctls.Keys;
    while todo != {}
      invariant todo <= r.ctls.Keys && Enumerates(order, r.ctls.Keys - todo)
      invariant text == Print(r.ctls, order)
    {
      var key :| key in todo;
      EnumerateOneMore(order, r.ctls.Keys, todo, key);
      UnlinesGrows(PrintedLines(r.ctls, order), key + "=" + r.ctls[key]);
      assert PrintedLines(r.ctls, order + [key]) == PrintedLines(r.ctls, order) + [key + "=" + r.ctls[key]];
      text := text + (key + "=" + r.ctls[key] + "\n");
      order, todo := order + [key], todo - {key};
    }
  }

  // ----- what loading yields -----

  predicate CleanKey(key: string) {
    Trimmed(key) && '=' !in key && '\n' !in key && !HasPrefix(key, "#") && !HasPrefix(key, ";")
  }

  predicate CleanValue(value: string) {
    Trimmed(value) && '\n' !in value
  }

  ghost predicate Clean(ctls: Controls) {
    forall k :: k in ctls ==> CleanKey(k) && CleanValue(ctls[k])
  }

  lemma TrimKeeps(s: string, c: char)
    requires c !in s
    ensures c !in TrimSpace(s)
  {
    var i, j := TrimSpaceIs(s);
  }

  lemma KeyKeepsHead(l: string, i: nat)
    requires i <= |l| && l != "" && !IsSpace(l[0])
    ensures TrimSpace(l[..i]) == "" || TrimSpace(l[..i])[0] == l[0]
  {
    var a, b := TrimSpaceIs(l[..i]);
  }

  lemma PairIsClean(line: string)
    requires '\n' !in line && ReadLine(line).Pair?
    ensures CleanKey(ReadLine(line).key) && CleanValue(ReadLine(line).value)
  {
    var l := TrimSpace(line);
    var a, b := TrimSpaceIs(line);
    TrimKeeps(line, '\n');
    var i := IndexOf(l, '=');
    assert '=' !in l[..i];
    TrimKeeps(l[..i], '=');
    TrimKeeps(l[..i], '\n');
    TrimKeeps(l[i + 1..], '\n');
    KeyKeepsHead(l, i);
    var c, d := TrimSpaceIs(l[..i]);
    var e, f := TrimSpaceIs(l[i + 1..]);
  }

  lemma {:induction false} LinesLoadClean(ctls: Controls, lines: seq<string>)
    requires Clean(ctls) && forall i :: 0 <= i < |lines| ==> '\n' !in lines[i]
    ensures LoadLines(ctls, lines).Loaded? ==> Clean(LoadLines(ctls, lines).ctls)
    decreases |lines|
  {
    if lines != [] {
      match ReadLine(lines[0])
      case Skip => LinesLoadClean(ctls, lines[1..]);
      case Bad(_) =>
      case Pair(key, value) =>
        PairIsClean(lines[0]);
        LinesLoadClean(ctls[key := value], lines[1..]);
    }
  }

  /** Whatever loads has trimmed keys and values that fit on a line. */
  lemma {:induction false} FilesLoadClean(ctls: Controls, files: seq<File>)
    requires Clean(ctls)
    ensures LoadFiles(ctls, files).Loaded? ==> Clean(LoadFiles(ctls, files).ctls)
    decreases |files|
  {
    if files != [] && files[0].text.Some? {
      var lines := Split(files[0].text.value, '\n');
      SplitFree(files[0].text.value, '\n');
      LinesLoadClean(ctls, lines);
      if LoadLines(ctls, lines).Loaded? {
        FilesLoadClean(LoadLines(ctls, lines).ctls, files[1..]);
      }
    }
  }

  // ----- the round trip -----

  lemma ReadPrinted(key: string, value: string)
    requires CleanKey(key) && CleanValue(value)
    ensures ReadLine(key + "=" + value) == Pair(key, value)
  {
    var l := key + "=" + value;
    PrintedTrimmed(key, value);
    PrintedSplits(key, value);
    var a, b := TrimSpaceIs(l);
    var c, d := TrimSpaceIs(key);
    var e, f := TrimSpaceIs(value);
    assert key != "" ==> l[0] == key[0];
  }

  lemma PrintedTrimmed(key: string, value: string)
    requires Trimmed(key) && Trimmed(value)
    ensures Trimmed(key + "=" + value)
  {
    assert !IsSpace('=');
  }

  lemma PrintedSplits(key: string, value: string)
    requires '=' !in key
    ensures SplitOnce(key + "=" + value, '=') == [key, value]
  {
    var l := key + "=" + value;
    IndexOfIs(l, '=', |key|);
    assert l[..|key|] == key && l[|key| + 1..] == value;
  }

  lemma {:induction false} SplitUnlines(lines: seq<string>)
    requires forall i :: 0 <= i < |lines| ==> '\n' !in lines[i]
    ensures Split(Unlines(lines), '\n') == lines + [""]
    decreases |lines|
  {
    if lines != [] {
      SplitUnlines(lines[1..]);
      SplitFirst(lines[0], '\n', Unlines(lines[1..]));
      HeadAndTail(lines, [""]);
    }
  }

  function Restricted(ctls: Controls, keys: seq<string>): Controls {
    map k | k in keys && k in ctls :: ctls[k]
  }

  lemma RestrictedGrows(ctls: Controls, order: seq<string>, acc: Controls)
    requires order != [] && order[0] in ctls
    ensures acc[order[0] := ctls[order[0]]] + Restricted(ctls, order[1..]) == acc + Restricted(ctls, order)
  {
    assert order == [order[0]] + order[1..];
  }

  lemma {:induction false} LoadPrinted(ctls: Controls, order: seq<string>, acc: Controls)
    requires Clean(ctls) && forall k :: k in order ==> k in ctls
    ensures LoadLines(acc, PrintedLines(ctls, order) + [""]) == Loaded(acc + Restricted(ctls, order))
    decreases |order|
  {
    if order == [] {
      assert PrintedLines(ctls, order) + [""] == [""] && [""][1..] == [];
      assert acc + Restricted(ctls, order) == acc;
    } else {
      var k := order[0];
      ReadPrinted(k, ctls[k]);
      HeadAndTail(PrintedLines(ctls, order), [""]);
      assert PrintedLines(ctls, order)[1..] == PrintedLines(ctls, order[1..]);
      LoadPrinted(ctls, order[1..], acc[k := ctls[k]]);
      RestrictedGrows(ctls, order, acc);
    }
  }

  /** Whatever loads, printed in any order of its keys and loaded again, is the same map. */
  lemma RoundTrip(files: seq<File>, order: seq<string>, name: string)
    requires LoadFiles(map[], files).Loaded? && Enumerates(order, LoadFiles(map[], files).ctls.Keys)
    ensures var ctls := LoadFiles(map[], files).ctls;
            LoadFiles(map[], [File(name, Some(Print(ctls, order)))]) == Loaded(ctls)
  {
    FilesLoadClean(map[], files);
    CleanRoundTrip(LoadFiles(map[], files).ctls, order, name);
  }

  lemma RestrictedAll(ctls: Controls, order: seq<string>)
    requires Enumerates(order, ctls.Keys)
    ensures map[] + Restricted(ctls, order) == ctls
  {}

  lemma CleanRoundTrip(ctls: Controls, order: seq<string>, name: string)
    requires Clean(ctls) && Enumerates(order, ctls.Keys)
    ensures LoadFiles(map[], [File(name, Some(Print(ctls, order)))]) == Loaded(ctls)
  {
    SplitUnlines(PrintedLines(ctls, order));
    LoadPrinted(ctls, order, map[]);
    RestrictedAll(ctls, order);
    OneFile(File(name, Some(Print(ctls, order))));
  }

  lemma OneFile(file: File)
    requires file.text.Some?
    ensures LoadFiles(map[], [file]) == LoadLines(map[], Split(file.text.value, '\n'))
  {
    assert [file][1..] == [];
    LoadsIff(map[], Split(file.text.value, '\n'));
  }

  // ----- several files -----

  function Over(ctls: Controls, r: Result): Result {
    if r.Loaded? then Loaded(ctls + r.ctls) else r
  }

  lemma SetFirst(a: Controls, key: string, value: string, b: Controls)
    ensures a[key := value] + b == a + (map[key := value] + b)
  {}

  lemma {:induction false} LinesOver(ctls: Controls, lines: seq<string>)
    ensures LoadLines(ctls, lines) == Over(ctls, LoadLines(map[], lines))
    decreases |lines|
  {
    if lines == [] {
      assert ctls + map[] == ctls;
    } else {
      match ReadLine(lines[0])
      case Skip => LinesOver(ctls, lines[1..]);
      case Bad(_) =>
      case Pair(key, value) =>
        LinesOver(ctls[key := value], lines[1..]);
        LinesOver(map[key := value], lines[1..]);
        var rest := LoadLines(map[], lines[1..]);
        if rest.Loaded? { SetFirst(ctls, key, value, rest.ctls); }
    }
  }

  lemma Merge(a: Controls, b: Controls, c: Controls)
    ensures a + b + c == a + (b + c)
  {}

  lemma {:induction false} FilesOver(ctls: Controls, files: seq<File>)
    ensures LoadFiles(ctls, files) == Over(ctls, LoadFiles(map[], files))
    decreases |files|
  {
    if files == [] {
      assert ctls + map[] == ctls;
    } else if files[0].text.Some? {
      var lines := Split(files[0].text.value, '\n');
      LinesOver(ctls, lines);
      var first := LoadLines(map[], lines);
      if first.Loaded? {
        FilesOver(ctls + first.ctls, files[1..]);
        FilesOver(first.ctls, files[1..]);
        var rest := LoadFiles(map[], files[1..]);
        if rest.Loaded? {
          Merge(ctls, first.ctls, rest.ctls);
        }
      }
    }
  }

  /** Loading several files is loading them apart and merging the maps, later ones winning;
      the first error is the result. */
  lemma {:induction false} LaterFilesOverride(ctls: Controls, files: seq<File>, more: seq<File>)
    ensures LoadFiles(ctls, files + more) ==
            (var r := LoadFiles(ctls, files);
             if r.Loaded? then Over(r.ctls, LoadFiles(map[], more)) else r)
    decreases |files|
  {
    if files == [] {
      assert files + more == more;
      FilesOver(ctls, more);
    } else {
      assert (files + more)[1..] == files[1..] + more;
      if files[0].text.Some? {
        var first := LoadLines(ctls, Split(files[0].text.value, '\n'));
        if first.Loaded? { LaterFilesOverride(first.ctls, files[1..], more); }
      }
    }
  }
}
