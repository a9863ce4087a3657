/** The two-pass template substitution of internal/host/config/parsers.go, on strings:
    the regular expression `\$\{[^}]+\}`, matched leftmost first. */
module Template {

  /** Position of the first '}' at or after i, or the length. */
  function CloseAt(s: string, i: nat): (j: nat)
    requires i <= |s|
    ensures i <= j <= |s| && (j < |s| ==> s[j] == '}')
    ensures forall k :: i <= k < j ==> s[k] != '}'
    decreases |s| - i
  {
    if i == |s| || s[i] == '}' then i else CloseAt(s, i + 1)
  }

  /** The expression matches at i: "${", at least one character that is not '}', '}'. */
  predicate MatchAt(s: string, i: nat) {
    i + 2 < |s| && s[i] == '$' && s[i + 1] == '{' && s[i + 2] != '}' && CloseAt(s, i + 2) < |s|
  }

  function FirstMatch(s: string, i: nat): (k: nat)
    requires i <= |s|
    ensures i <= k <= |s| && (k < |s| ==> MatchAt(s, k))
    ensures forall j :: i <= j < k ==> !MatchAt(s, j)
    decreases |s| - i
  {
    if i == |s| || MatchAt(s, i) then i else FirstMatch(s, i + 1)
  }

  /** A string cut at its matches: text, then a matched name, then the rest. */
  datatype Cut = End(text: string) | Var(text: string, name: string, rest: Cut)

  function Parse(s: string): Cut
    decreases |s|
  {
    var k := FirstMatch(s, 0);
    if k == |s| then End(s)
    else
      var j := CloseAt(s, k + 2);
      Var(s[..k], s[k + 2..j], Parse(s[j + 1..]))
  }

  function Token(name: string): string {
    "${" + name + "}"
  }

  /** ReplaceAllStringFunc with f on the names of the matches. */
  function Replace(c: Cut, f: string -> string): string {
    match c
    case End(text) => text
    case Var(text, name, rest) => text + f(name) + Replace(rest, f)
  }

  /** The string a cut stands for. */
  function Render(c: Cut): string {
    Replace(c, Token)
  }

  lemma Pieces(s: string, k: nat, j: nat)
    requires k + 2 <= j < |s| && s[k] == '$' && s[k + 1] == '{' && s[j] == '}'
    ensures s == s[..k] + Token(s[k + 2..j]) + s[j + 1..]
  {
    assert s[k..k + 2] == "${" && s[j..j + 1] == "}";
    assert s == s[..k] + s[k..k + 2] + s[k + 2..j] + s[j..j + 1] + s[j + 1..];
  }

  lemma {:induction false} RenderParse(s: string)
    ensures Render(Parse(s)) == s
    decreases |s|
  {
    var k := FirstMatch(s, 0);
    if k < |s| {
      var j := CloseAt(s, k + 2);
      RenderParse(s[j + 1..]);
      Pieces(s, k, j);
    }
  }

  // ----- which cuts are what scanning their own text gives back -----

  predicate NameOk(name: string) {
    name != "" && '}' !in name
  }

  /** Wherever the text looks like the start of a match, it reads "${}", or it is the last
      text and no '}' follows. */
  predicate Inert(text: string, last: bool) {
    forall p :: 0 <= p < |text| - 1 ==> Harmless(text, p, last)
  }

  predicate Harmless(text: string, p: nat, last: bool)
    requires p < |text| - 1
  {
    text[p] == '$' && text[p + 1] == '{' ==>
      (p + 2 < |text| && text[p + 2] == '}') || (last && '}' !in text[p + 2..])
  }

  predicate Scannable(c: Cut) {
    match c
    case End(text) => Inert(text, true)
    case Var(text, name, rest) => Inert(text, false) && NameOk(name) && Scannable(rest)
  }

  lemma CloseIs(s: string, i: nat, j: nat)
    requires i <= j < |s| && s[j] == '}' && forall k :: i <= k < j ==> s[k] != '}'
    ensures CloseAt(s, i) == j
  {}

  lemma FirstIs(s: string, k: nat)
    requires k <= |s| && (k < |s| ==> MatchAt(s, k)) && forall j :: 0 <= j < k ==> !MatchAt(s, j)
    ensures FirstMatch(s, 0) == k
  {}

  lemma NoClose(s: string, i: nat)
    requires i <= |s| && '}' !in s[i..]
    ensures CloseAt(s, i) == |s|
  {
    assert forall j :: i <= j < |s| ==> s[j] == s[i..][j - i];
  }

  lemma InertAt(text: string, i: nat)
    requires Inert(text, false) && i + 1 < |text| && text[i] == '$' && text[i + 1] == '{'
    ensures i + 2 < |text| && text[i + 2] == '}'
  {
    assert Harmless(text, i, false);
  }

  /** Scanning text + "${name}" + rest finds the token when the text is inert. */
  lemma ParseToken(text: string, name: string, rest: string)
    requires Inert(text, false) && NameOk(name)
    ensures Parse(text + Token(name) + rest) == Var(text, name, Parse(rest))
  {
    var s := text + Token(name) + rest;
    var k := |text|;
    var j := k + 2 + |name|;
    assert s[k] == '$' && s[k + 1] == '{' && s[k + 2] == name[0] && s[j] == '}';
    assert forall i :: k + 2 <= i < j ==> s[i] == name[i - k - 2];
    CloseIs(s, k + 2, j);
    forall i | 0 <= i < k ensures !MatchAt(s, i) {
      if i + 1 < k && text[i] == '$' && text[i + 1] == '{' {
        InertAt(text, i);
        assert s[i + 2] == '}';
      }
    }
    FirstIs(s, k);
    assert s[..k] == text && s[k + 2..j] == name && s[j + 1..] == rest;
  }

  lemma ParseEnd(text: string)
    ensures Parse(text) == End(text) <==> Inert(text, true)
  {
    if Inert(text, true) {
      forall i | 0 <= i < |text| ensures !MatchAt(text, i) {
        assert i < |text| - 1 ==> Harmless(text, i, true);
        if i + 2 < |text| && text[i] == '$' && text[i + 1] == '{' && text[i + 2] != '}' {
          NoClose(text, i + 2);
        }
      }
      FirstIs(text, |text|);
    } else {
      var p :| 0 <= p < |text| - 1 && !Harmless(text, p, true);
      var i :| 0 <= i < |text[p + 2..]| && text[p + 2..][i] == '}';
      assert MatchAt(text, p);
    }
  }

  /** Exactly the cuts that scanning their own rendering gives back. */
  lemma {:induction false} ParseRenderIff(c: Cut)
    ensures Parse(Render(c)) == c <==> Scannable(c)
  {
    match c
    case End(text) =>
      ParseEnd(text);
    case Var(text, name, rest) =>
      ParseRenderIff(rest);
      if Scannable(c) {
        ParseToken(text, name, Render(rest));
      }
      if Parse(Render(c)) == c {
        ParsedVar(Render(c));
        RenderParse(Render(c));
        var s := Render(c);
        var j := CloseAt(s, |text| + 2);
        assert s == text + Token(name) + Render(rest);
        assert s[j + 1..] == Render(rest);
      }
  }

  /** The first text and name of a scanned string. */
  lemma ParsedVar(s: string)
    requires Parse(s).Var?
    ensures Inert(Parse(s).text, false) && NameOk(Parse(s).name)
    ensures |Parse(s).text| + 2 <= |s| && CloseAt(s, |Parse(s).text| + 2) < |s|
    ensures Parse(s).name == s[|Parse(s).text| + 2..CloseAt(s, |Parse(s).text| + 2)]
  {
    var k := FirstMatch(s, 0);
    var text := s[..k];
    forall p: nat | p + 1 < k && text[p] == '$' && text[p + 1] == '{'
      ensures p + 2 < k && text[p + 2] == '}'
    {
      assert !MatchAt(s, p);
      var j := CloseAt(s, k + 2);
      assert s[j] == '}';
      assert s[k] == '$';
    }
  }

  lemma {:induction false} ParseScannable(s: string)
    ensures Scannable(Parse(s))
    decreases |s|
  {
    RenderParse(s);
    ParseRenderIff(Parse(s));
  }
}
