/** The generic doubly linked list, as a sequence of nodes. */
module Adlist {
  import opened Prelude

  class Node<T> {
    var value: T
    var prev: Node?<T>
    var next: Node?<T>

    constructor (value: T)
      ensures this.value == value && prev == null && next == null
    {
      this.value := value;
      prev, next := null, null;
    }
  }

  /** The i-th node, or nothing beyond the ends. */
  function At<T>(nodes: seq<Node<T>>, i: int): Node?<T> {
    if 0 <= i < |nodes| then nodes[i] else null
  }

  lemma DistinctJoin<T>(a: seq<Node<T>>, b: seq<Node<T>>)
    requires Distinct(a) && Distinct(b) && forall n <- a :: n !in b
    ensures Distinct(a + b)
    ensures forall i, j :: 0 <= i < |a| && 0 <= j < |b| ==> a[i] != b[j]
  {
    forall i, j | 0 <= i < |a| && 0 <= j < |b|
      ensures a[i] != b[j]
    {
      assert a[i] in a;
    }
  }

  class List<T> {
    var head: Node?<T>
    var tail: Node?<T>
    var len: nat
    ghost var nodes: seq<Node<T>>

    ghost predicate LinkOk(i: nat)
      requires i < |nodes|
      reads this, nodes
    {
      nodes[i].prev == At(nodes, i - 1) && nodes[i].next == At(nodes, i + 1)
    }

    ghost predicate Valid()
      reads this, nodes
    {
      && Distinct(nodes) && len == |nodes|
      && head == At(nodes, 0) && tail == At(nodes, |nodes| - 1)
      && forall i :: 0 <= i < |nodes| ==> LinkOk(i)
    }

    /** The values, in order. No operation changes the value of a node. */
    ghost function Values(): seq<T>
      reads this, nodes
    {
      seq(|nodes|, i requires 0 <= i < |nodes| reads this, nodes => nodes[i].value)
    }

    constructor ()
      ensures Valid() && nodes == [] && Values() == []
    {
      head, tail, len, nodes := null, null, 0, [];
    }

    /** listEmpty: the nodes are walked to their end. */
    method Empty()
      requires Valid()
      modifies this
      ensures Valid() && nodes == [] && Values() == []
    {
      var current, left := head, len;
      while left > 0
        invariant 0 <= left <= len && current == At(nodes, len - left)
      {
        assert LinkOk(len - left);
        current := current.next;
        left := left - 1;
      }
      assert current == null;
      head, tail, len, nodes := null, null, 0, [];
    }

    method AddNodeHead(value: T)
      requires Valid()
      modifies this, nodes`prev
      ensures Valid() && |nodes| == |old(nodes)| + 1 && fresh(nodes[0]) && nodes[1..] == old(nodes)
      ensures Values() == [value] + old(Values())
    {
      var node := new Node(value);
      if len == 0 {
        head, tail := node, node;
      } else {
        node.next := head;
        head.prev := node;
        head := node;
      }
      len := len + 1;
      nodes := [node] + nodes;
      forall i | 0 <= i < |nodes| ensures LinkOk(i) {
        if i > 0 { assert old(LinkOk(i - 1)); }
      }
    }

    method AddNodeTail(value: T)
      requires Valid()
      modifies this, nodes`next
      ensures Valid() && |nodes| == |old(nodes)| + 1 && fresh(nodes[|nodes| - 1]) && nodes[..|nodes| - 1] == old(nodes)
      ensures nodes[|nodes| - 1].value == value
      ensures Values() == old(Values()) + [value]
    {
      var node := new Node(value);
      if len == 0 {
        head, tail := node, node;
      } else {
        node.prev := tail;
        tail.next := node;
        tail := node;
      }
      len := len + 1;
      nodes := nodes + [node];
      forall i | 0 <= i < |nodes| ensures LinkOk(i) {
        if i < |nodes| - 1 { assert old(LinkOk(i)); }
      }
    }

    /** listInsertNode, next to the k-th node. */
    method InsertNode(oldNode: Node<T>, value: T, after: bool, ghost k: nat)
      requires Valid() && k < |nodes| && nodes[k] == oldNode
      modifies this, nodes`prev, nodes`next
      ensures
        var at := if after then k + 1 else k;
        && Valid() && |nodes| == |old(nodes)| + 1 && fresh(nodes[at])
        && nodes[at].value == value && nodes == old(nodes)[..at] + [nodes[at]] + old(nodes)[at..]
    {
      var node := new Node(value);
      assert LinkOk(k);
      if after {
        node.prev := oldNode;
        node.next := oldNode.next;
        if tail == oldNode { tail := node; }
      } else {
        node.next := oldNode;
        node.prev := oldNode.prev;
        if head == oldNode { head := node; }
      }
      assert forall i :: 0 <= i < |nodes| ==> old(LinkOk(i)) ==> LinkOk(i);
      Splice(node, if after then k + 1 else k);
    }

    /** Links the neighbours of a node to it. */
    method Splice(node: Node<T>, ghost at: nat)
      requires Distinct(nodes) && len == |nodes| && at <= |nodes| && node !in nodes
      requires head == (if at == 0 then node else At(nodes, 0))
      requires tail == (if at == |nodes| then node else At(nodes, |nodes| - 1))
      requires node.prev == At(nodes, at - 1) && node.next == At(nodes, at)
      requires forall i :: 0 <= i < |nodes| ==> LinkOk(i)
      modifies `len, `nodes, nodes`prev, nodes`next
      ensures Valid() && nodes == old(nodes)[..at] + [node] + old(nodes)[at..]
    {
      if node.prev != null { node.prev.next := node; }
      if node.next != null { node.next.prev := node; }
      len := len + 1;
      nodes := nodes[..at] + [node] + nodes[at..];
      forall i | 0 <= i < |nodes| ensures LinkOk(i) {
        if i < at { assert old(LinkOk(i)); }
        if i > at { assert old(LinkOk(i - 1)); }
      }
    }

    /** listDelNode of the k-th node. */
    method DelNode(node: Node<T>, ghost k: nat)
      requires Valid() && k < |nodes| && nodes[k] == node
      modifies this, nodes`prev, nodes`next
      ensures Valid() && nodes == old(nodes)[..k] + old(nodes)[k + 1..]
      ensures node.prev == old(node.prev) && node.next == old(node.next)
    {
      assert LinkOk(k);
      if node.prev != null { node.prev.next := node.next; } else { head := node.next; }
      if node.next != null { node.next.prev := node.prev; } else { tail := node.prev; }
      len := len - 1;
      nodes := nodes[..k] + nodes[k + 1..];
      forall i | 0 <= i < |nodes| ensures LinkOk(i) {
        assert old(LinkOk(if i < k then i else i + 1));
      }
    }

    /** listIndex: negative indices count from the tail. */
    method Index(index: int) returns (n: Node?<T>)
      requires Valid()
      ensures n == At(nodes, if index < 0 then |nodes| + index else index)
    {
      if index < 0 {
        var i := -index - 1;
        n := tail;
        ghost var at := |nodes| - 1;
        while i != 0 && n != null
          invariant i >= 0 && n == At(nodes, at) && at < |nodes| && (n == null ==> at < 0) && at - i == |nodes| + index
          decreases i
        {
          assert LinkOk(at);
          n := n.prev;
          i, at := i - 1, at - 1;
        }
      } else {
        var i := index;
        n := head;
        ghost var at := 0;
        while i != 0 && n != null
          invariant i >= 0 && at >= 0 && n == At(nodes, at) && at + i == index
          decreases i
        {
          assert LinkOk(at);
          n := n.next;
          i, at := i - 1, at + 1;
        }
      }
    }

    method RotateTailToHead()
      requires Valid()
      modifies this, nodes`prev, nodes`next
      ensures Valid()
      ensures |old(nodes)| > 0 ==> nodes == [old(nodes)[|old(nodes)| - 1]] + old(nodes)[..|old(nodes)| - 1]
      ensures |old(nodes)| == 0 ==> nodes == []
    {
      if len <= 1 { return; }
      assert LinkOk(|nodes| - 1);
      var last := tail;
      tail := last.prev;
      tail.next := null;
      head.prev := last;
      last.prev := null;
      last.next := head;
      head := last;
      nodes := [nodes[|nodes| - 1]] + nodes[..|nodes| - 1];
      forall i | 0 <= i < |nodes| ensures LinkOk(i) {
        if i > 0 { assert old(LinkOk(i - 1)); }
      }
    }

    method RotateHeadToTail()
      requires Valid()
      modifies this, nodes`prev, nodes`next
      ensures Valid()
      ensures |old(nodes)| > 0 ==> nodes == old(nodes)[1..] + [old(nodes)[0]]
      ensures |old(nodes)| == 0 ==> nodes == []
    {
      if len <= 1 { return; }
      assert LinkOk(0);
      var first := head;
      head := first.next;
      head.prev := null;
      tail.next := first;
      first.next := null;
      first.prev := tail;
      tail := first;
      nodes := nodes[1..] + [nodes[0]];
      forall i | 0 <= i < |nodes| ensures LinkOk(i) {
        if i < |nodes| - 1 { assert old(LinkOk(i + 1)); }
      }
    }

    /** listJoin: the other list ends up empty. */
    method Join(o: List<T>)
      requires Valid() && o.Valid() && o != this && forall n <- nodes :: n !in o.nodes
      modifies this, o, nodes`next, o.nodes`prev
      ensures Valid() && o.Valid() && nodes == old(nodes + o.nodes) && o.nodes == []
    {
      DistinctJoin(nodes, o.nodes);
      hide Distinct;
      if o.head != null { o.head.prev := tail; }
      if tail != null { tail.next := o.head; } else { head := o.head; }
      if o.tail != null { tail := o.tail; }
      len := len + o.len;
      nodes := nodes + o.nodes;
      o.head, o.tail, o.len, o.nodes := null, null, 0, [];
      ghost var n := |old(nodes)|;
      forall i | 0 <= i < |nodes| ensures LinkOk(i) {
        if i < n { assert old(LinkOk(i)); } else { assert old(o.LinkOk(i - n)); }
      }
    }
  }

  // ---------------------------------------------------------------------------
  // Iterators
  // ---------------------------------------------------------------------------

  class Iter<T> {
    var next: Node?<T>
    var fromHead: bool

    /** listGetIterator */
    constructor (l: List<T>, fromHead: bool)
      requires l.Valid()
      ensures this.fromHead == fromHead && On(l, if fromHead then 0 else |l.nodes| - 1)
    {
      this.next := if fromHead then l.head else l.tail;
      this.fromHead := fromHead;
    }

    /** The next node to return is the k-th. */
    ghost predicate On(l: List<T>, k: int)
      reads this, l
    {
      -1 <= k <= |l.nodes| && next == At(l.nodes, k)
    }

    /** listNext */
    method Next(ghost l: List<T>, ghost k: int) returns (current: Node?<T>)
      requires l.Valid() && On(l, k)
      modifies this
      ensures current == At(l.nodes, k) && fromHead == old(fromHead)
      ensures On(l, if current == null then k else if fromHead then k + 1 else k - 1)
    {
      current := next;
      if current != null {
        assert l.LinkOk(k);
        next := if fromHead then current.next else current.prev;
      }
    }

    /** Deleting the node just returned leaves the iterator on exactly the remaining nodes. */
    method DelCurrent(l: List<T>, node: Node<T>, ghost k: nat)
      requires l.Valid() && k < |l.nodes| && l.nodes[k] == node && On(l, if fromHead then k + 1 else k - 1)
      modifies l, l.nodes`prev, l.nodes`next
      ensures l.Valid() && l.nodes == old(l.nodes)[..k] + old(l.nodes)[k + 1..]
      ensures On(l, if fromHead then k else k - 1)
    {
      l.DelNode(node, k);
    }
  }

  /** The nodes whose values are to stay. */
  ghost function Kept<T>(nodes: seq<Node<T>>, values: seq<T>, p: T -> bool): (r: seq<Node<T>>)
    requires |values| == |nodes|
    ensures |r| <= |nodes|
  {
    if nodes == [] then []
    else
      var n := |nodes| - 1;
      Kept(nodes[..n], values[..n], p) + (if p(values[n]) then [] else [nodes[n]])
  }

  lemma KeptNext<T>(nodes: seq<Node<T>>, values: seq<T>, p: T -> bool, i: nat)
    requires |values| == |nodes| && i < |nodes|
    ensures Kept(nodes[..i + 1], values[..i + 1], p) ==
            Kept(nodes[..i], values[..i], p) + (if p(values[i]) then [] else [nodes[i]])
  {
    assert nodes[..i + 1][..i] == nodes[..i] && values[..i + 1][..i] == values[..i];
  }

  /** What is left after i nodes were visited; the next one is at the end of those kept. */
  ghost predicate VisitedUpTo<T>(now: seq<Node<T>>, nodes: seq<Node<T>>, values: seq<T>, p: T -> bool, i: nat, k: nat)
    requires |values| == |nodes|
  {
    i <= |nodes| && k == |Kept(nodes[..i], values[..i], p)| && now == Kept(nodes[..i], values[..i], p) + nodes[i..]
  }

  lemma VisitNext<T>(now: seq<Node<T>>, nodes: seq<Node<T>>, values: seq<T>, p: T -> bool, i: nat, k: nat)
    requires |values| == |nodes| && VisitedUpTo(now, nodes, values, p, i, k) && k < |now|
    ensures i < |nodes| && now[k] == nodes[i]
    ensures if p(values[i]) then VisitedUpTo(now[..k] + now[k + 1..], nodes, values, p, i + 1, k)
            else VisitedUpTo(now, nodes, values, p, i + 1, k + 1)
  {
    KeptNext(nodes, values, p, i);
    hide Kept;
    var kept := Kept(nodes[..i], values[..i], p);
    assert nodes[i..] == [nodes[i]] + nodes[i + 1..];
    assert now[..k] == kept && now[k + 1..] == nodes[i + 1..];
    assert kept + [] == kept;
    assert now == kept + [nodes[i]] + nodes[i + 1..];
  }

  lemma VisitEnds<T>(now: seq<Node<T>>, nodes: seq<Node<T>>, values: seq<T>, p: T -> bool, i: nat, k: nat)
    requires |values| == |nodes|
    ensures VisitedUpTo(nodes, nodes, values, p, 0, 0)
    ensures VisitedUpTo(now, nodes, values, p, i, k) && k == |now| ==> now == Kept(nodes, values, p)
  {
    assert nodes[0..] == nodes && nodes[..|nodes|] == nodes && values[..|nodes|] == values;
  }

  /** The iterator returned the k-th node, or there are only k. */
  ghost predicate Visiting<T>(l: List<T>, it: Iter<T>, node: Node?<T>, k: nat)
    reads l, it, l.nodes
  {
    && l.Valid() && it.fromHead && k <= |l.nodes| && node == At(l.nodes, k)
    && it.On(l, if node == null then k else k + 1)
  }

  /** Looks at the node just returned, deletes it if it matches, and moves on. */
  method Visit<T>(l: List<T>, it: Iter<T>, node: Node<T>, p: T -> bool, ghost k: nat)
      returns (next: Node?<T>, ghost k': nat)
    requires Visiting(l, it, node, k)
    modifies it, l, l.nodes`prev, l.nodes`next
    ensures Visiting(l, it, next, k')
    ensures k < |old(l.nodes)| && old(l.nodes)[k] == node
    ensures if p(node.value) then k' == k && l.nodes == old(l.nodes)[..k] + old(l.nodes)[k + 1..]
            else k' == k + 1 && l.nodes == old(l.nodes)
  {
    hide List.Valid;
    k' := k;
    if p(node.value) {
      it.DelCurrent(l, node, k);
    } else {
      k' := k + 1;
    }
    next := it.Next(l, k');
  }

  method Start<T>(l: List<T>) returns (it: Iter<T>, node: Node?<T>)
    requires l.Valid()
    ensures fresh(it) && Visiting(l, it, node, 0)
  {
    it := new Iter(l, true);
    node := it.Next(l, 0);
  }

  lemma VisitingNode<T>(l: List<T>, it: Iter<T>, node: Node?<T>, k: nat)
    requires Visiting(l, it, node, k)
    ensures l.Valid() && k <= |l.nodes| && node == At(l.nodes, k)
  {
  }

  /** The usual loop: every node is visited once, and those deleted on the way are exactly the matching ones. */
  method DeleteWhileIterating<T>(l: List<T>, p: T -> bool)
    requires l.Valid()
    modifies l, l.nodes`prev, l.nodes`next
    ensures l.Valid() && l.nodes == Kept(old(l.nodes), old(l.Values()), p)
  {
    hide List.Valid, Iter.On, VisitedUpTo, Kept, Visiting;
    ghost var all, values := l.nodes, l.Values();
    VisitEnds(l.nodes, all, values, p, 0, 0);
    ghost var i: nat, k: nat := 0, 0;
    var it, node := Start(l);
    while node != null
      invariant fresh(it) && i <= |all| && Visiting(l, it, node, k) && VisitedUpTo(l.nodes, all, values, p, i, k)
      invariant forall j :: 0 <= j < |l.nodes| ==> l.nodes[j] in all
      decreases |all| - i
    {
      VisitingNode(l, it, node, k);
      VisitNext(l.nodes, all, values, p, i, k);
      assert node.value == values[i];
      node, k := Visit(l, it, node, p, k);
      i := i + 1;
    }
    VisitingNode(l, it, node, k);
    VisitEnds(l.nodes, all, values, p, i, k);
  }

  // ---------------------------------------------------------------------------
  // Copying and searching
  // ---------------------------------------------------------------------------

  /** What a value is copied to; nothing if copying fails. */
  function Copied<T>(dup: Option<T -> Option<T>>, v: T): Option<T> {
    if dup.Some? then dup.value(v) else Some(v)
  }

  /** The first nodes of a list and those of its copy, which is new and apart from it. */
  ghost predicate CopiedUpTo<T>(orig: List<T>, dup: Option<T -> Option<T>>, c: List<T>)
    reads orig, orig.nodes, c, c.nodes
  {
    && c.Valid() && |c.nodes| <= |orig.nodes|
    && forall i :: 0 <= i < |c.nodes| ==> Copied(dup, orig.nodes[i].value) == Some(c.nodes[i].value)
  }

  method Dup<T>(orig: List<T>, dup: Option<T -> Option<T>>) returns (copy: List?<T>)
    requires orig.Valid()
    ensures copy == null <==> exists i :: 0 <= i < |orig.nodes| && Copied(dup, orig.nodes[i].value).None?
    ensures copy != null ==>
      fresh(copy) && fresh(copy.nodes) && CopiedUpTo(orig, dup, copy) && |copy.nodes| == |orig.nodes|
  {
    hide List.Valid, Iter.On;
    var c := new List();
    ghost var i: nat := 0;
    var it, node := Start(orig);
    while node != null
      invariant fresh(c) && fresh(it) && fresh(c.nodes) && CopiedUpTo(orig, dup, c) && |c.nodes| == i
      invariant Visiting(orig, it, node, i)
      decreases |orig.nodes| - i
    {
      var value := Copied(dup, node.value);
      if value.None? {
        return null;
      }
      AppendCopy(orig, dup, c, value.value);
      i := i + 1;
      node := it.Next(orig, i);
    }
    return c;
  }

  method AppendCopy<T>(ghost orig: List<T>, ghost dup: Option<T -> Option<T>>, c: List<T>, value: T)
    requires CopiedUpTo(orig, dup, c) && |c.nodes| < |orig.nodes| && c != orig
    requires forall i :: 0 <= i < |orig.nodes| ==> orig.nodes[i] !in c.nodes
    requires Copied(dup, orig.nodes[|c.nodes|].value) == Some(value)
    modifies c, c.nodes`next
    ensures CopiedUpTo(orig, dup, c) && |c.nodes| == |old(c.nodes)| + 1 && fresh(c.nodes[|c.nodes| - 1])
    ensures c.nodes[..|c.nodes| - 1] == old(c.nodes)
  {
    hide List.Valid;
    ghost var before := c.nodes;
    c.AddNodeTail(value);
    assert forall j :: 0 <= j < |before| ==> c.nodes[j] == before[j];
  }

  predicate Matches<T(==)>(match_: Option<(T, T) -> bool>, v: T, key: T) {
    if match_.Some? then match_.value(v, key) else key == v
  }

  /** listSearchKey: the first matching node. */
  method SearchKey<T(==)>(l: List<T>, key: T, match_: Option<(T, T) -> bool>) returns (found: Node?<T>)
    requires l.Valid()
    ensures found == null ==> forall i :: 0 <= i < |l.nodes| ==> !Matches(match_, l.nodes[i].value, key)
    ensures found != null ==> Matches(match_, found.value, key)
    ensures found != null ==>
      exists k :: 0 <= k < |l.nodes| && l.nodes[k] == found &&
        forall i :: 0 <= i < k ==> !Matches(match_, l.nodes[i].value, key)
  {
    var it := new Iter(l, true);
    ghost var i := 0;
    var node := it.Next(l, i);
    while node != null
      invariant 0 <= i <= |l.nodes| && node == At(l.nodes, i) && it.fromHead
      invariant it.On(l, if node == null then i else i + 1)
      invariant forall j :: 0 <= j < i ==> !Matches(match_, l.nodes[j].value, key)
      decreases |l.nodes| - i
    {
      if Matches(match_, node.value, key) {
        return node;
      }
      i := i + 1;
      node := it.Next(l, i);
    }
    return null;
  }
}
