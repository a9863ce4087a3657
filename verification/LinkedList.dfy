/** The doubly linked list with cursor nodes of internal/util/list.go. */
module LinkedList {
  import opened Options

  class Node<T> {
    const value: T
    var next: Node?<T>
    var prev: Node?<T>
    var list: List?<T>

    constructor (value: T, prev: Node?<T>, next: Node?<T>, list: List?<T>)
      ensures this.value == value && this.prev == prev && this.next == next && this.list == list
    {
      this.value := value;
      this.prev := prev;
      this.next := next;
      this.list := list;
    }
  }

  function Values<T>(nodes: seq<Node<T>>): (s: seq<T>)
    ensures |s| == |nodes| && forall i :: 0 <= i < |s| ==> s[i] == nodes[i].value
  {
    seq(|nodes|, i requires 0 <= i < |nodes| => nodes[i].value)
  }

  /** after is before with one node put in at position k. */
  ghost predicate Inserted<T>(before: seq<T>, after: seq<T>, k: nat) {
    k <= |before| && |after| == |before| + 1 && after == before[..k] + [after[k]] + before[k..]
  }

  lemma InsertedAt<T>(before: seq<T>, x: T, k: nat)
    requires k <= |before|
    ensures var after := before[..k] + [x] + before[k..];
            && Inserted(before, after, k) && after[k] == x
            && (forall i :: 0 <= i < k ==> after[i] == before[i])
            && forall i :: k < i < |after| ==> after[i] == before[i - 1]
  {}

  lemma RemovedAt<T>(before: seq<T>, k: nat)
    requires k < |before|
    ensures var after := before[..k] + before[k + 1..];
            && (forall i :: 0 <= i < k ==> after[i] == before[i])
            && forall i :: k <= i < |after| ==> after[i] == before[i + 1]
  {}

  /** On the values, the cursor operations are insertion and removal at a position. */
  lemma CursorValues<T>(before: seq<Node<T>>, after: seq<Node<T>>, k: nat)
    requires k <= |before|
    ensures Inserted(before, after, k) ==>
              Values(after) == Values(before)[..k] + [after[k].value] + Values(before)[k..]
    ensures k < |before| && after == before[..k] + before[k + 1..] ==>
              Values(after) == Values(before)[..k] + Values(before)[k + 1..]
  {}

  function FirstOf<T>(nodes: seq<Node<T>>): Node?<T> {
    if nodes == [] then null else nodes[0]
  }

  class List<T> {
    var head: Node?<T>
    var tail: Node?<T>
    var length: int

    /** Whether the push operations record the list in the node. The shipped ones do not;
        every cursor operation dereferences it. */
    const records: bool

    ghost var nodes: seq<Node<T>>
    ghost var repr: set<Node<T>>   // every node the list ever had

    /** head, tail, the links both ways and the length agree, and the chain is acyclic. */
    ghost predicate Valid()
      reads this, repr
    {
      && length == |nodes|
      && (forall i :: 0 <= i < |nodes| ==> nodes[i] in repr)
      && (nodes == [] ==> head == null && tail == null)
      && (nodes != [] ==>
            && head == nodes[0] && tail == nodes[|nodes| - 1]
            && nodes[0].prev == null && nodes[|nodes| - 1].next == null)
      && (forall i, j :: 0 <= i < j < |nodes| ==> nodes[i] != nodes[j])
      && (forall i {:trigger nodes[i].prev} :: 1 <= i < |nodes| ==> nodes[i].prev == nodes[i - 1])
      && (forall i {:trigger nodes[i].next} :: 0 <= i < |nodes| - 1 ==> nodes[i].next == nodes[i + 1])
      && (forall i :: 0 <= i < |nodes| ==> nodes[i].list == if records then this else null)
    }

    ghost function Contents(): seq<T>
      reads this
    {
      Values(nodes)
    }

    constructor (records: bool)
      ensures Valid() && this.records == records && nodes == [] && repr == {}
    {
      this.records := records;
      head, tail, length, nodes, repr := null, null, 0, [], {};
    }

    method PushFront(v: T)
      requires Valid()
      modifies this, repr
      ensures Valid() && nodes != [] && fresh(nodes[0]) && repr == old(repr) + {nodes[0]}
      ensures nodes == [nodes[0]] + old(nodes)
      ensures Contents() == [v] + old(Contents())
    {
      var n := new Node<T>(v, null, null, if records then this else null);
      if head == null {
        head := n;
        tail := n;
      } else {
        n.next := head;
        head.prev := n;
        head := n;
      }
      length := length + 1;
      nodes, repr := [n] + nodes, repr + {n};
    }

    method PushBack(v: T)
      requires Valid()
      modifies this, repr
      ensures Valid() && |nodes| > 0 && fresh(nodes[|nodes| - 1]) && repr == old(repr) + {nodes[|nodes| - 1]}
      ensures nodes == old(nodes) + [nodes[|nodes| - 1]]
      ensures Contents() == old(Contents()) + [v]
    {
      var n := new Node<T>(v, null, null, if records then this else null);
      if tail == null {
        head := n;
        tail := n;
      } else {
        n.prev := tail;
        tail.next := n;
        tail := n;
      }
      length := length + 1;
      nodes, repr := nodes + [n], repr + {n};
    }

    method PopFront() returns (r: Option<T>)
      requires Valid()
      modifies this, repr
      ensures Valid() && repr == old(repr)
      ensures old(nodes) == [] ==> r == None && nodes == []
      ensures old(nodes) != [] ==> nodes == old(nodes)[1..] && r == Some(old(Contents())[0])
    {
      if head == null {
        return None;
      }
      r := Some(head.value);
      head := head.next;
      length := length - 1;
      if head == null {
        tail := null;
      } else {
        head.prev := null;
      }
      nodes := nodes[1..];
    }

    method PopBack() returns (r: Option<T>)
      requires Valid()
      modifies this, repr
      ensures Valid() && repr == old(repr)
      ensures old(nodes) == [] ==> r == None && nodes == []
      ensures old(nodes) != [] ==>
                nodes == old(nodes)[..|old(nodes)| - 1] && r == Some(old(Contents())[|old(nodes)| - 1])
    {
      if tail == null {
        return None;
      }
      r := Some(tail.value);
      tail := tail.prev;
      length := length - 1;
      if tail == null {
        head := null;
      } else {
        tail.next := null;
      }
      nodes := nodes[..|nodes| - 1];
    }

    method Front() returns (r: Option<T>)
      requires Valid()
      ensures r == if nodes == [] then None else Some(Contents()[0])
    {
      r := if head == null then None else Some(head.value);
    }

    method Back() returns (r: Option<T>)
      requires Valid()
      ensures r == if nodes == [] then None else Some(Contents()[|nodes| - 1])
    {
      r := if tail == null then None else Some(tail.value);
    }

    method Clear()
      requires Valid()
      modifies this
      ensures Valid() && nodes == [] && repr == old(repr)
    {
      head, tail, length, nodes := null, null, 0, [];
    }

    /** The walk along next pointers from the head visits the contents in order. */
    method Slice() returns (s: seq<T>)
      requires Valid()
      ensures s == Contents()
    {
      s := [];
      var n := head;
      ghost var i := 0;
      while n != null
        invariant 0 <= i <= |nodes|
        invariant n == if i == |nodes| then null else nodes[i]
        invariant s == Contents()[..i]
        decreases |nodes| - i
      {
        s := s + [n.value];
        n := n.next;
        i := i + 1;
      }
    }

    // ----- cursor operations; k is the position of the node -----

    method InsertBefore(n: Node<T>, v: T, ghost k: nat) returns (panicked: bool)
      requires Valid() && k < |nodes| && nodes[k] == n
      modifies this, repr
      ensures panicked <==> !records
      ensures !panicked ==>
                && Valid() && Inserted(old(nodes), nodes, k)
                && fresh(nodes[k]) && repr == old(repr) + {nodes[k]} && nodes[k].value == v
    {
      assert n.prev == if k == 0 then null else nodes[k - 1];
      var m := new Node<T>(v, n.prev, n, n.list);
      if n.prev == null {
        if n.list == null { return true; }
        n.list.head := m;
      } else {
        n.prev.next := m;
      }
      n.prev := m;
      if n.list == null { return true; }
      n.list.length := n.list.length + 1;
      InsertedAt(nodes, m, k);
      nodes, repr := nodes[..k] + [m] + nodes[k..], repr + {m};
      panicked := false;
    }

    method InsertAfter(n: Node<T>, v: T, ghost k: nat) returns (panicked: bool)
      requires Valid() && k < |nodes| && nodes[k] == n
      modifies this, repr
      ensures panicked <==> !records
      ensures !panicked ==>
                && Valid() && Inserted(old(nodes), nodes, k + 1)
                && fresh(nodes[k + 1]) && repr == old(repr) + {nodes[k + 1]} && nodes[k + 1].value == v
    {
      assert n.next == if k == |nodes| - 1 then null else nodes[k + 1];
      var m := new Node<T>(v, n, n.next, n.list);
      if n.next == null {
        if n.list == null { return true; }
        n.list.tail := m;
      } else {
        n.next.prev := m;
      }
      n.next := m;
      if n.list == null { return true; }
      n.list.length := n.list.length + 1;
      InsertedAt(nodes, m, k + 1);
      nodes, repr := nodes[..k + 1] + [m] + nodes[k + 1..], repr + {m};
      panicked := false;
    }

    method Remove(n: Node<T>, ghost k: nat) returns (panicked: bool)
      requires Valid() && k < |nodes| && nodes[k] == n
      modifies this, repr
      ensures panicked <==> !records
      ensures !panicked ==> Valid() && nodes == old(nodes)[..k] + old(nodes)[k + 1..]
      ensures !panicked ==> n.next == old(n.next) && repr == old(repr)
    {
      assert n.prev == if k == 0 then null else nodes[k - 1];
      assert n.next == if k == |nodes| - 1 then null else nodes[k + 1];
      if n.prev == null {
        if n.list == null { return true; }
        n.list.head := n.next;
      } else {
        n.prev.next := n.next;
      }
      if n.next == null {
        if n.list == null { return true; }
        n.list.tail := n.prev;
      } else {
        n.next.prev := n.prev;
      }
      if n.list == null { return true; }
      n.list.length := n.list.length - 1;
      RemovedAt(nodes, k);
      nodes := nodes[..k] + nodes[k + 1..];
      panicked := false;
    }

    /** One turn of a Cursor loop whose body removes the current node when drop says so:
        kept was visited before, rest is still to come. */
    method Visit(n: Node<T>, drop: T -> bool, ghost kept: seq<Node<T>>, ghost rest: seq<Node<T>>)
      returns (next: Node?<T>, panicked: bool)
      requires Valid() && rest != [] && rest[0] == n && nodes == kept + rest
      modifies this, repr
      ensures panicked <==> drop(n.value) && !records
      ensures !panicked ==> Valid() && nodes == (if drop(n.value) then kept else kept + [n]) + rest[1..]
      ensures !panicked ==> next == FirstOf(rest[1..])
      ensures !panicked ==> repr == old(repr)
    {
      assert nodes[|kept|] == n && (|rest| > 1 ==> nodes[|kept| + 1] == rest[1]);
      assert n.next == if |rest| == 1 then null else rest[1];
      panicked := false;
      if drop(n.value) {
        panicked := Remove(n, |kept|);
      }
      next := n.next;
    }

    /** The whole loop: every element is visited once, and the filtered sequence is left. */
    method RemoveWhere(drop: T -> bool) returns (visited: seq<T>, panicked: bool)
      requires Valid()
      modifies this, repr
      ensures panicked <==> !records && exists v :: v in old(Contents()) && drop(v)
      ensures !panicked ==> Valid() && repr == old(repr)
      ensures !panicked ==> visited == old(Contents()) && Contents() == Filter(old(Contents()), drop)
    {
      ghost var kept: seq<Node<T>>, rest := [], nodes;
      var n := head;
      visited, panicked := [], false;
      WalkStart(nodes, drop);
      while n != null
        invariant Valid() && nodes == kept + rest && repr == old(repr)
        invariant n == FirstOf(rest)
        invariant Walked(old(Contents()), visited, kept, rest, drop)
        invariant !records ==> forall v :: v in visited ==> !drop(v)
        decreases |rest|
      {
        var cur: Node<T> := n;
        n, panicked := Visit(cur, drop, kept, rest);
        WalkOn(old(Contents()), visited, kept, rest, drop);
        if panicked {
          return;
        }
        kept, rest := if drop(cur.value) then kept else kept + [cur], rest[1..];
        visited := visited + [cur.value];
      }
      WalkDone(old(Contents()), visited, kept, nodes, drop);
    }
  }

  /** A walk over all has visited some of it and kept the filtered part of that. */
  ghost predicate Walked<T>(all: seq<T>, visited: seq<T>, kept: seq<Node<T>>, rest: seq<Node<T>>, drop: T -> bool) {
    all == visited + Values(rest) && Values(kept) == Filter(visited, drop)
  }

  lemma WalkStart<T>(nodes: seq<Node<T>>, drop: T -> bool)
    ensures nodes == [] + nodes && Walked(Values(nodes), [], [], nodes, drop)
  {
    assert Values(nodes) == [] + Values(nodes);
  }

  lemma WalkDone<T>(all: seq<T>, visited: seq<T>, kept: seq<Node<T>>, nodes: seq<Node<T>>, drop: T -> bool)
    requires Walked(all, visited, kept, [], drop) && nodes == kept + []
    ensures visited == all && Values(nodes) == Filter(all, drop)
  {
    assert kept + [] == kept;
    assert visited + [] == visited;
  }

  lemma WalkOn<T>(all: seq<T>, visited: seq<T>, kept: seq<Node<T>>, rest: seq<Node<T>>, drop: T -> bool)
    requires rest != [] && Walked(all, visited, kept, rest, drop)
    ensures var n := rest[0];
            && Walked(all, visited + [n.value], if drop(n.value) then kept else kept + [n], rest[1..], drop)
            && n.value in all
  {
    var n := rest[0];
    FilterGrows(visited, n.value, drop);
    assert Values(kept + [n]) == Values(kept) + [n.value];
    assert Values(rest) == [n.value] + Values(rest[1..]);
    assert all[|visited|] == n.value;
  }

  /** The elements that are not dropped, in order. */
  function Filter<T>(s: seq<T>, drop: T -> bool): seq<T> {
    if s == [] then []
    else Filter(s[..|s| - 1], drop) + if drop(s[|s| - 1]) then [] else [s[|s| - 1]]
  }

  lemma FilterGrows<T>(s: seq<T>, v: T, drop: T -> bool)
    ensures Filter(s + [v], drop) == Filter(s, drop) + if drop(v) then [] else [v]
  {
    assert (s + [v])[..|s|] == s;
  }
}
