/** The parts of Go's strings package that the modelled files use. */
module Strings {

  /** Position of the first c, or the length. */
  function IndexOf(s: string, c: char): (i: nat)
    ensures i <= |s| && (i < |s| ==> s[i] == c) && forall j :: 0 <= j < i ==> s[j] != c
  {
    if s == "" || s[0] == c then 0 else 1 + IndexOf(s[1..], c)
  }

  /** strings.Split with a one-character separator. */
  function Split(s: string, c: char): (parts: seq<string>)
    ensures |parts| > 0
    decreases |s|
  {
    var i := IndexOf(s, c);
    if i == |s| then [s] else [s[..i]] + Split(s[i + 1..], c)
  }

  /** strings.SplitN(s, c, 2): one part, or the two sides of the first c. */
  function SplitOnce(s: string, c: char): (parts: seq<string>)
    ensures |parts| == 1 || |parts| == 2
  {
    var i := IndexOf(s, c);
    if i == |s| then [s] else [s[..i], s[i + 1..]]
  }

  predicate HasPrefix(s: string, p: string) {
    p <= s
  }

  lemma IndexOfIs(s: string, c: char, i: nat)
    requires i <= |s| && (i < |s| ==> s[i] == c) && forall j :: 0 <= j < i ==> s[j] != c
    ensures IndexOf(s, c) == i
  {}

  lemma {:induction false} SplitFirst(a: string, c: char, b: string)
    requires c !in a
    ensures Split(a + [c] + b, c) == [a] + Split(b, c)
  {
    IndexOfIs(a + [c] + b, c, |a|);
    assert (a + [c] + b)[..|a|] == a && (a + [c] + b)[|a| + 1..] == b;
  }

  lemma {:induction false} SplitFree(s: string, c: char)
    ensures forall i :: 0 <= i < |Split(s, c)| ==> c !in Split(s, c)[i]
    decreases |s|
  {
    var i := IndexOf(s, c);
    if i < |s| { SplitFree(s[i + 1..], c); }
  }

  lemma {:induction false} SplitLast(a: string, c: char, b: string)
    requires c !in b
    ensures Split(a + [c] + b, c) == Split(a, c) + [b]
    decreases |a|
  {
    var s, i := a + [c] + b, IndexOf(a, c);
    IndexOfIs(s, c, i);
    if i == |a| {
      assert s[..i] == a && s[i + 1..] == b;
      IndexOfIs(b, c, |b|);
    } else {
      assert s[..i] == a[..i] && s[i + 1..] == a[i + 1..] + [c] + b;
      SplitLast(a[i + 1..], c, b);
      assert [a[..i]] + (Split(a[i + 1..], c) + [b]) == ([a[..i]] + Split(a[i + 1..], c)) + [b];
    }
  }

  /** strings.Join with the same separator. */
  function Join(parts: seq<string>, c: char): string
    requires parts != []
  {
    if |parts| == 1 then parts[0] else parts[0] + [c] + Join(parts[1..], c)
  }

  /** Nothing is lost: the parts joined again are the string. */
  lemma {:induction false} JoinSplit(s: string, c: char)
    ensures Join(Split(s, c), c) == s
    decreases |s|
  {
    var i := IndexOf(s, c);
    if i < |s| {
      JoinSplit(s[i + 1..], c);
      assert Split(s, c)[1..] == Split(s[i + 1..], c);
      assert s == s[..i] + [c] + s[i + 1..];
    }
  }

  /** Parts without the separator are recovered from the joined string. */
  lemma {:induction false} SplitJoin(parts: seq<string>, c: char)
    requires parts != [] && forall i :: 0 <= i < |parts| ==> c !in parts[i]
    ensures Split(Join(parts, c), c) == parts
  {
    if |parts| == 1 {
      IndexOfIs(parts[0], c, |parts[0]|);
    } else {
      SplitJoin(parts[1..], c);
      SplitFirst(parts[0], c, Join(parts[1..], c));
    }
  }

  /** The two sides of the first c, if there is one. */
  lemma SplitOnceIs(s: string, c: char)
    ensures if c in s then
              var parts := SplitOnce(s, c);
              |parts| == 2 && c !in parts[0] && s == parts[0] + [c] + parts[1]
            else SplitOnce(s, c) == [s]
  {
    var i := IndexOf(s, c);
    if i < |s| {
      assert s == s[..i] + [c] + s[i + 1..];
    }
  }

  /** unicode.IsSpace. */
  predicate IsSpace(c: char) {
    var n := c as int;
    (9 <= n <= 13) || n == 0x20 || n == 0x85 || n == 0xA0 || n == 0x1680
    || (0x2000 <= n <= 0x200A) || n == 0x2028 || n == 0x2029 || n == 0x202F || n == 0x205F || n == 0x3000
  }

  /** Tab, line feed, vertical tab, form feed, carriage return, space, next line, the no-break space
      and the other Unicode spaces. */
  lemma SpacesAre(c: char)
    ensures IsSpace(c) <==>
              c in "\t\n\r " || c as int in
                {11, 12, 0x85, 0xA0, 0x1680, 0x2000, 0x2001, 0x2002, 0x2003, 0x2004, 0x2005, 0x2006, 0x2007, 0x2008,
                 0x2009, 0x200A, 0x2028, 0x2029, 0x202F, 0x205F, 0x3000}
  {
    assert "\t\n\r " == ['\t', '\n', '\r', ' '];
  }

  function TrimLeft(s: string): string {
    if s != "" && IsSpace(s[0]) then TrimLeft(s[1..]) else s
  }

  function TrimRight(s: string): string {
    if s != "" && IsSpace(s[|s| - 1]) then TrimRight(s[..|s| - 1]) else s
  }

  function TrimSpace(s: string): string {
    TrimRight(TrimLeft(s))
  }

  predicate Trimmed(s: string) {
    s == "" || (!IsSpace(s[0]) && !IsSpace(s[|s| - 1]))
  }

  lemma {:induction false} TrimLeftIsSuffix(s: string) returns (k: nat)
    ensures k <= |s| && TrimLeft(s) == s[k..] && (forall i :: 0 <= i < k ==> IsSpace(s[i]))
    ensures TrimLeft(s) != "" ==> !IsSpace(TrimLeft(s)[0])
  {
    k := 0;
    if s != "" && IsSpace(s[0]) {
      k := TrimLeftIsSuffix(s[1..]);
      k := k + 1;
    }
  }

  lemma {:induction false} TrimRightIsPrefix(s: string) returns (k: nat)
    ensures k <= |s| && TrimRight(s) == s[..k] && (forall i :: k <= i < |s| ==> IsSpace(s[i]))
    ensures TrimRight(s) != "" ==> !IsSpace(TrimRight(s)[|TrimRight(s)| - 1])
  {
    k := |s|;
    if s != "" && IsSpace(s[|s| - 1]) {
      k := TrimRightIsPrefix(s[..|s| - 1]);
    }
  }

  /** Trimming leaves the middle of s, up to the first and the last character that is not a
      space, and nothing that is trimmed already changes. */
  lemma TrimSpaceIs(s: string) returns (i: nat, j: nat)
    ensures i <= j <= |s| && TrimSpace(s) == s[i..j] && Trimmed(TrimSpace(s))
    ensures forall k :: 0 <= k < i || j <= k < |s| ==> IsSpace(s[k])
    ensures Trimmed(s) ==> TrimSpace(s) == s
  {
    i := TrimLeftIsSuffix(s);
    var k := TrimRightIsPrefix(s[i..]);
    j := i + k;
    assert s[i..][..k] == s[i..j];
    assert forall m :: j <= m < |s| ==> s[m] == s[i..][m - i];
  }
}
