/** Facts about sequences that the other modules lean on. */
module Sequences {

  lemma Associate<T>(a: seq<T>, b: seq<T>, c: seq<T>)
    ensures (a + b) + c == a + (b + c)
  {}

  /** x followed by y and then z, told step by step. */
  lemma Chain<T>(x: seq<T>, y: seq<T>, z: seq<T>, xy: seq<T>, xyz: seq<T>)
    requires xy == x + y && xyz == xy + z
    ensures xyz == x + (y + z)
  {}

  lemma SliceGrows<T>(s: seq<T>, a: nat, b: nat)
    requires a <= b < |s|
    ensures s[a..b] + [s[b]] == s[a..b + 1]
  {}

  lemma HeadAndTail<T>(s: seq<T>, t: seq<T>)
    requires s != []
    ensures [s[0]] + (s[1..] + t) == s + t && (s + t)[0] == s[0] && (s + t)[1..] == s[1..] + t
  {}
}
