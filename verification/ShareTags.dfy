/** The device tags that setupShares of internal/host/vm_darwin.go gives to the shares. */
module ShareTags {
  import opened MapOrder
  import opened Strings

  datatype Share = Share(source: string, readOnly: bool)

  datatype Device = Device(tag: string, share: Share)

  /** What a later mount call asks the guest for. */
  datatype Mount = Mount(mountpoint: string, tag: string, readOnly: bool)

  // ----- names -----

  predicate ValidBase(name: string) {
    name != "" && name != "." && name != ".." && name != "/"
  }

  function StripSlashes(p: string): string {
    if p != "" && p[|p| - 1] == '/' then StripSlashes(p[..|p| - 1]) else p
  }

  /** What follows the last slash. */
  function LastPart(p: string): string {
    if p == "" || p[|p| - 1] == '/' then "" else LastPart(p[..|p| - 1]) + [p[|p| - 1]]
  }

  /** path.Base. */
  function Base(p: string): string {
    if p == "" then "."
    else
      var part := LastPart(StripSlashes(p));
      if part == "" then "/" else part
  }

  predicate Slashes(s: string) {
    forall i :: 0 <= i < |s| ==> s[i] == '/'
  }

  lemma {:induction false} StripsSlashes(p: string, slashes: string)
    requires Slashes(slashes) && (p == "" || p[|p| - 1] != '/')
    ensures StripSlashes(p + slashes) == p
    decreases |slashes|
  {
    if slashes == "" {
      assert p + slashes == p;
    } else {
      var n := |slashes| - 1;
      assert (p + slashes)[..|p + slashes| - 1] == p + slashes[..n];
      StripsSlashes(p, slashes[..n]);
    }
  }

  lemma {:induction false} LastPartIs(dir: string, name: string)
    requires '/' !in name && (dir == "" || dir[|dir| - 1] == '/')
    ensures LastPart(dir + name) == name
    decreases |name|
  {
    if name == "" {
      assert dir + name == dir;
    } else {
      var n := |name| - 1;
      assert (dir + name)[..|dir + name| - 1] == dir + name[..n];
      LastPartIs(dir, name[..n]);
    }
  }

  /** The base of a path is its last element, whatever slashes follow; that of slashes alone is
      "/", and that of the empty path is ".". */
  lemma BaseIs(dir: string, name: string, slashes: string)
    requires '/' !in name && (dir == "" || dir[|dir| - 1] == '/') && Slashes(slashes)
    ensures name != "" ==> Base(dir + name + slashes) == name
    ensures slashes != "" ==> Base(slashes) == "/"
    ensures Base("") == "."
  {
    if name != "" {
      StripsSlashes(dir + name, slashes);
      LastPartIs(dir, name);
    }
    StripsSlashes("", slashes);
    assert "" + slashes == slashes;
  }

  /** A mountpoint is refused exactly when it is empty, is slashes alone, or its last element is
      "." or "..". */
  lemma InvalidBaseIff(dir: string, name: string, slashes: string)
    requires '/' !in name && (dir == "" || dir[|dir| - 1] == '/') && Slashes(slashes)
    ensures name != "" ==> (!ValidBase(Base(dir + name + slashes)) <==> name == "." || name == "..")
    ensures !ValidBase(Base(slashes))
  {
    assert '/' in "/";
    BaseIs(dir, name, slashes);
  }

  function Decimal(n: nat): (s: string)
    ensures s != "" && forall i :: 0 <= i < |s| ==> '0' <= s[i] <= '9'
  {
    (if n < 10 then "" else Decimal(n / 10)) + [(n % 10 + '0' as int) as char]
  }

  /** The number that decimal digits stand for. */
  function Number(s: string): int {
    if s == "" then 0 else 10 * Number(s[..|s| - 1]) + (s[|s| - 1] as int - '0' as int)
  }

  lemma {:induction false} DecimalReads(n: nat)
    ensures Number(Decimal(n)) == n
    ensures n > 0 ==> Decimal(n)[0] != '0'
  {
    var front := if n < 10 then "" else Decimal(n / 10);
    assert Decimal(n)[..|front|] == front;
    if n >= 10 { DecimalReads(n / 10); }
  }

  function ToLower(s: string, lower: char -> char): (t: string)
    ensures |t| == |s| && forall i :: 0 <= i < |s| ==> t[i] == lower(s[i])
  {
    seq(|s|, i requires 0 <= i < |s| => lower(s[i]))
  }

  /** A simple case mapping: doing it twice changes nothing, and it leaves digits and '-'. */
  ghost predicate CaseMapping(lower: char -> char) {
    (forall c :: lower(lower(c)) == lower(c)) && (forall c :: c == '-' || '0' <= c <= '9' ==> lower(c) == c)
  }

  /** The k-th name that is tried. */
  function Candidate(name: string, k: nat): (s: string)
    ensures |s| >= |name| + k
  {
    if k == 0 then name else Candidate(name, k - 1) + "-" + Decimal(k)
  }

  lemma {:induction false} CandidatesGrow(name: string, j: nat, k: nat)
    requires j < k
    ensures |Candidate(name, j)| < |Candidate(name, k)|
    decreases k
  {
    if j < k - 1 { CandidatesGrow(name, j, k - 1); }
  }

  /** The k-th name is the first one with the numbers from 1 to k behind it, each after a '-':
      the code numbers the name it tried before, not the first one. */
  ghost predicate Numbered(tail: string, k: nat) {
    var parts := Split(tail, '-');
    && |parts| == k + 1 && parts[0] == ""
    && forall i :: 1 <= i <= k ==> Writes(parts[i], i)
  }

  /** The number i in decimal, without leading zeros. */
  predicate Writes(s: string, i: nat) {
    Number(s) == i && s != "" && s[0] != '0'
  }

  lemma DecimalWrites(k: nat)
    requires k > 0
    ensures Writes(Decimal(k), k) && '-' !in Decimal(k)
  {
    DecimalReads(k);
  }

  lemma NumberedOn(tail: string, k: nat, number: string)
    requires k > 0 && Numbered(tail, k - 1) && Writes(number, k) && '-' !in number
    ensures Numbered(tail + "-" + number, k)
  {
    SplitLast(tail, '-', number);
  }

  lemma TailOf(name: string, front: string, more: string)
    requires name <= front
    ensures name <= front + more && (front + more)[|name|..] == front[|name|..] + more
  {}

  lemma {:induction false} CandidateIs(name: string, k: nat)
    ensures name <= Candidate(name, k) && Numbered(Candidate(name, k)[|name|..], k)
  {
    if k == 0 {
      assert Candidate(name, k)[|name|..] == "";
    } else {
      CandidateIs(name, k - 1);
      DecimalWrites(k);
      NumberedOn(Candidate(name, k - 1)[|name|..], k, Decimal(k));
      TailOf(name, Candidate(name, k - 1), "-");
      TailOf(name, Candidate(name, k - 1) + "-", Decimal(k));
    }
  }

  /** tag is the first candidate that is not taken. */
  predicate FirstFree(labels: set<string>, name: string, tag: string, k: nat) {
    && tag == Candidate(name, k) && tag !in labels
    && forall j :: 0 <= j < k ==> Candidate(name, j) in labels
  }

  ghost predicate Fits(labels: set<string>, name: string, tag: string) {
    exists k :: FirstFree(labels, name, tag, k)
  }

  /** The retry loop. Every retry makes the name longer, so that the taken names that are at
      least as long become fewer. */
  method UniqueName(labels: set<string>, lowered: string) returns (tag: string)
    ensures Fits(labels, lowered, tag)
  {
    tag := lowered;
    var counter := 0;
    while tag in labels
      invariant counter >= 0 && tag == Candidate(lowered, counter)
      invariant forall j :: 0 <= j < counter ==> Candidate(lowered, j) in labels
      decreases |AtLeast(labels, |tag|)|
    {
      Shrinks(labels, tag, tag + "-" + Decimal(counter + 1));
      counter := counter + 1;
      tag := tag + "-" + Decimal(counter);
    }
    assert FirstFree(labels, lowered, tag, counter);
  }

  function AtLeast(labels: set<string>, n: nat): set<string> {
    set l <- labels | |l| >= n
  }

  lemma Shrinks(labels: set<string>, name: string, longer: string)
    requires name in labels && |longer| > |name|
    ensures |AtLeast(labels, |longer|)| < |AtLeast(labels, |name|)|
  {
    var a, b := AtLeast(labels, |longer|), AtLeast(labels, |name|);
    assert a <= b - {name};
    SubsetSize(a, b - {name});
  }

  lemma {:induction false} SubsetSize<T>(a: set<T>, b: set<T>)
    requires a <= b
    ensures |a| <= |b|
    decreases a
  {
    if a != {} {
      var x :| x in a;
      SubsetSize(a - {x}, b - {x});
    }
  }

  lemma FirstFreeIsUnique(labels: set<string>, name: string, tag: string, k: nat, tag': string, k': nat)
    requires FirstFree(labels, name, tag, k) && FirstFree(labels, name, tag', k')
    ensures tag == tag' && k == k'
  {
    assert k < k' ==> Candidate(name, k) in labels;
    assert k' < k ==> Candidate(name, k') in labels;
  }

  lemma FreeNameIsTaken(labels: set<string>, name: string, tag: string, k: nat)
    requires FirstFree(labels, name, tag, k) && name !in labels
    ensures tag == name
  {
    assert Candidate(name, 0) == name;
  }

  // ----- the tags of all shares -----

  /** tags are the names given to the mountpoints one after the other. */
  ghost predicate Tagged(order: seq<string>, lower: char -> char, tags: seq<string>) {
    |tags| == |order| && forall i :: 0 <= i < |order| ==> Fits(Taken(tags, i), ToLower(Base(order[i]), lower), tags[i])
  }

  function Taken(tags: seq<string>, n: nat): set<string>
    requires n <= |tags|
  {
    set t | t in tags[..n]
  }

  predicate Distinct(s: seq<string>) {
    forall i, j :: 0 <= i < j < |s| ==> s[i] != s[j]
  }

  lemma TagsDistinct(order: seq<string>, lower: char -> char, tags: seq<string>)
    requires Tagged(order, lower, tags)
    ensures Distinct(tags)
  {
    forall i, j | 0 <= i < j < |tags| ensures tags[i] != tags[j] {
      assert tags[..j][i] == tags[i];
    }
  }

  lemma {:induction false} CandidateIsLower(name: string, lower: char -> char, k: nat)
    requires CaseMapping(lower) && ToLower(name, lower) == name
    ensures ToLower(Candidate(name, k), lower) == Candidate(name, k)
  {
    if k > 0 {
      CandidateIsLower(name, lower, k - 1);
    }
  }

  /** No two devices have tags that differ only in case: the lower-cased tags are pairwise
      distinct, as every tag is in lower case already. */
  lemma TagsDistinctInAnyCase(order: seq<string>, lower: char -> char, tags: seq<string>)
    requires Tagged(order, lower, tags) && CaseMapping(lower)
    ensures forall i :: 0 <= i < |tags| ==> ToLower(tags[i], lower) == tags[i]
    ensures forall i, j :: 0 <= i < j < |tags| ==> ToLower(tags[i], lower) != ToLower(tags[j], lower)
  {
    forall i | 0 <= i < |tags| ensures ToLower(tags[i], lower) == tags[i] {
      var name := ToLower(Base(order[i]), lower);
      var k :| FirstFree(Taken(tags, i), name, tags[i], k);
      assert ToLower(name, lower) == name;
      CandidateIsLower(name, lower, k);
    }
    TagsDistinct(order, lower, tags);
  }

  function Names(order: seq<string>, lower: char -> char): (names: seq<string>)
    ensures |names| == |order| && forall i :: 0 <= i < |order| ==> names[i] == ToLower(Base(order[i]), lower)
  {
    seq(|order|, i requires 0 <= i < |order| => ToLower(Base(order[i]), lower))
  }

  /** Every share has its plain lower-cased basename as its tag, in whatever order the map is
      enumerated, exactly when these names are pairwise distinct. */
  lemma PlainTagsIff(order: seq<string>, lower: char -> char, tags: seq<string>)
    requires Tagged(order, lower, tags)
    ensures tags == Names(order, lower) <==> Distinct(Names(order, lower))
  {
    TagsDistinct(order, lower, tags);
    if Distinct(Names(order, lower)) {
      PlainUpTo(order, lower, tags, |order|);
    }
  }

  lemma {:induction false} PlainUpTo(order: seq<string>, lower: char -> char, tags: seq<string>, n: nat)
    requires Tagged(order, lower, tags) && n <= |order| && Distinct(Names(order, lower))
    ensures forall i :: 0 <= i < n ==> tags[i] == Names(order, lower)[i]
  {
    if n > 0 {
      PlainUpTo(order, lower, tags, n - 1);
      var names := Names(order, lower);
      var k :| FirstFree(Taken(tags, n - 1), names[n - 1], tags[n - 1], k);
      assert names[n - 1] !in Taken(tags, n - 1);
      FreeNameIsTaken(Taken(tags, n - 1), names[n - 1], tags[n - 1], k);
    }
  }

  // ----- setupShares -----

  datatype Outcome = Done | InvalidPath(mountpoint: string) | DeviceError(mountpoint: string)

  function Devices(order: seq<string>, shares: map<string, Share>, tags: seq<string>): (ds: seq<Device>)
    requires |tags| == |order| && forall dst :: dst in order ==> dst in shares
    ensures |ds| == |order| && forall i :: 0 <= i < |ds| ==> ds[i] == Device(tags[i], shares[order[i]])
  {
    seq(|order|, i requires 0 <= i < |order| => Device(tags[i], shares[order[i]]))
  }

  function Mounts(order: seq<string>, shares: map<string, Share>, tags: seq<string>): (ms: seq<Mount>)
    requires |tags| == |order| && forall dst :: dst in order ==> dst in shares
    ensures |ms| == |order|
    ensures forall i :: 0 <= i < |ms| ==> ms[i] == Mount(order[i], tags[i], shares[order[i]].readOnly)
  {
    seq(|order|, i requires 0 <= i < |order| => Mount(order[i], tags[i], shares[order[i]].readOnly))
  }

  class VirtualMachine {
    var shares: seq<Device>
    var mounts: seq<Mount>

    constructor ()
      ensures shares == [] && mounts == []
    {
      shares, mounts := [], [];
    }

    method AddShare(dst: string, share: Share, tag: string)
      modifies this
      ensures shares == old(shares) + [Device(tag, share)]
      ensures mounts == old(mounts) + [Mount(dst, tag, share.readOnly)]
    {
      shares := shares + [Device(tag, share)];
      mounts := mounts + [Mount(dst, tag, share.readOnly)];
    }

    /** accepts: whether the framework takes a device with this tag and directory. */
    method SetupShares(layout: map<string, Share>, lower: char -> char, accepts: (string, Share) -> bool)
      returns (r: Outcome, ghost order: seq<string>, ghost tags: seq<string>)
      modifies this
      ensures (forall dst :: dst in order ==> dst in layout && ValidBase(Base(dst))) && Tagged(order, lower, tags)
      ensures shares == old(shares) + Devices(order, layout, tags)
      ensures mounts == old(mounts) + Mounts(order, layout, tags)
      ensures forall i :: 0 <= i < |order| ==> accepts(tags[i], layout[order[i]])
      ensures r.Done? ==> Enumerates(order, layout.Keys)
      ensures r.InvalidPath? ==> r.mountpoint in layout && r.mountpoint !in order && !ValidBase(Base(r.mountpoint))
      ensures r.DeviceError? ==> r.mountpoint in layout && r.mountpoint !in order && ValidBase(Base(r.mountpoint))
      ensures r.DeviceError? ==>
                exists tag ::
                  && Fits(Taken(tags, |tags|), ToLower(Base(r.mountpoint), lower), tag)
                  && !accepts(tag, layout[r.mountpoint])
    {
      var labels: set<string> := {};
      var todo := layout.Keys;
      order, tags := [], [];
      while todo != {}
        invariant todo <= layout.Keys && Enumerates(order, layout.Keys - todo)
        invariant forall dst :: dst in order ==> dst in layout && ValidBase(Base(dst))
        invariant Tagged(order, lower, tags) && labels == Taken(tags, |tags|)
        invariant shares == old(shares) + Devices(order, layout, tags)
        invariant mounts == old(mounts) + Mounts(order, layout, tags)
        invariant forall i :: 0 <= i < |order| ==> accepts(tags[i], layout[order[i]])
      {
        var dst :| dst in todo;
        var share := layout[dst];
        var name := Base(dst);
        if !ValidBase(name) {
          return InvalidPath(dst), order, tags;
        }
        name := UniqueName(labels, ToLower(name, lower));
        if !accepts(name, share) {
          return DeviceError(dst), order, tags;
        }
        EnumerateOneMore(order, layout.Keys, todo, dst);
        TagOneMore(order, lower, tags, dst, name);
        ShareOneMore(old(shares), old(mounts), order, layout, tags, dst, name);
        labels := labels + {name};
        AddShare(dst, share, name);
        order, tags, todo := order + [dst], tags + [name], todo - {dst};
      }
      r := Done;
    }
  }

  lemma ShareOneMore(ds: seq<Device>, ms: seq<Mount>, order: seq<string>, layout: map<string, Share>, tags: seq<string>,
                     dst: string, tag: string)
    requires |tags| == |order| && dst in layout && forall d :: d in order ==> d in layout
    ensures ds + Devices(order, layout, tags) + [Device(tag, layout[dst])] ==
            ds + Devices(order + [dst], layout, tags + [tag])
    ensures ms + Mounts(order, layout, tags) + [Mount(dst, tag, layout[dst].readOnly)] ==
            ms + Mounts(order + [dst], layout, tags + [tag])
  {}

  lemma TagOneMore(order: seq<string>, lower: char -> char, tags: seq<string>, dst: string, tag: string)
    requires Tagged(order, lower, tags) && Fits(Taken(tags, |tags|), ToLower(Base(dst), lower), tag)
    ensures Tagged(order + [dst], lower, tags + [tag])
    ensures Taken(tags + [tag], |tags| + 1) == Taken(tags, |tags|) + {tag}
  {
    var order', tags' := order + [dst], tags + [tag];
    forall i | 0 <= i < |tags'| ensures Fits(Taken(tags', i), ToLower(Base(order'[i]), lower), tags'[i]) {
      TakenSame(tags, tag, i);
      assert i < |tags| ==> Fits(Taken(tags, i), ToLower(Base(order[i]), lower), tags[i]);
    }
    TakenGrows(tags, tag);
  }

  lemma TakenSame(tags: seq<string>, tag: string, i: nat)
    requires i <= |tags|
    ensures Taken(tags + [tag], i) == Taken(tags, i)
  {
    assert (tags + [tag])[..i] == tags[..i];
  }

  lemma TakenGrows(tags: seq<string>, tag: string)
    ensures Taken(tags + [tag], |tags| + 1) == Taken(tags, |tags|) + {tag}
  {
    assert (tags + [tag])[..|tags| + 1] == tags[..|tags|] + [tag];
  }
}
