/** Circular doubly linked lists of FutexNode objects, changed in place. */
module FutexNodes {
  import opened Lists
  import opened FutexQueues

  /** The node's own wait queue: its thread sleeps there, or has been unblocked with a status. */
  datatype Waiter = Asleep | Awake(ok: bool)

  class FutexNode {
    var hashKey: Key
    var next: FutexNode?
    var prev: FutexNode?
    var waiter: Waiter

    constructor ()
      ensures next == null && prev == null && waiter == Asleep
    {
      hashKey, next, prev, waiter := 0, null, null, Asleep;
    }

    predicate IsInQueue() reads this {
      next != null
    }

    /** On no list, and with its key cleared. */
    ghost predicate Unlinked() reads this {
      next == null && prev == null && hashKey == 0
    }

    method SetAsSingletonList()
      requires next == null && prev == null
      modifies this`next, this`prev
      ensures Ring([this])
    {
      next, prev := this, this;
    }

    method MarkAsNotInQueue()
      modifies this`next, this`prev
      ensures next == null && prev == null
    {
      next, prev := null, null;
    }

    /** wait_queue_wake_one() unblocks the thread only if it is still asleep. */
    method WakeThread()
      modifies this`next, this`prev, this`waiter
      ensures next == null && prev == null
      ensures waiter == WakeResult(old(waiter))
      ensures old(waiter) == Asleep ==> waiter == Awake(true)
      ensures old(waiter) != Asleep ==> waiter == old(waiter)
    {
      MarkAsNotInQueue();
      if waiter == Asleep {
        waiter := Awake(true);
      }
    }
  }

  function WakeResult(w: Waiter): Waiter {
    if w == Asleep then Awake(true) else w
  }

  /** The nodes of `s`, in this order, are one circular list. */
  ghost predicate Ring(s: seq<FutexNode>)
    reads s
  {
    && |s| > 0
    && Distinct(s)
    && Chain(s)
    && s[|s| - 1].next == s[0]
    && s[0].prev == s[|s| - 1]
  }

  /** Neighbours in `s` are linked both ways; the two ends are left open. */
  ghost predicate Chain(s: seq<FutexNode>)
    reads s
  {
    && (forall i {:trigger s[i].next} :: 0 <= i < |s| - 1 ==> s[i].next == s[i + 1])
    && (forall i {:trigger s[i].prev} :: 1 <= i < |s| ==> s[i].prev == s[i - 1])
  }

  /** A node of a list is in its first part or in its second, and not in both if it is there once. */
  lemma SplitAt(s: seq<FutexNode>, m: nat)
    requires m <= |s| && Distinct(s)
    ensures forall n :: n in s <==> n in s[..m] || n in s[m..]
    ensures forall n :: n in s[..m] ==> n !in s[m..] && exists i :: 0 <= i < m && s[i] == n
    ensures forall n :: n in s[m..] ==> exists i :: m <= i < |s| && s[i] == n
  {
    assert s == s[..m] + s[m..];
    forall n | n in s[m..] ensures exists i :: m <= i < |s| && s[i] == n {
      var i :| 0 <= i < |s[m..]| && s[m..][i] == n;
      assert s[m + i] == n;
    }
  }

  method RelinkAsAdjacent(node1: FutexNode, node2: FutexNode)
    modifies node1`next, node2`prev
    ensures node1.next == node2 && node2.prev == node1
  {
    node1.next := node2;
    node2.prev := node1;
  }

  /** Joins two lists into one, or splits one list into two. */
  method SpliceNodes(node1: FutexNode, node2: FutexNode, ghost a: seq<FutexNode>, ghost b: seq<FutexNode>)
    requires a != [] && b != [] && node1 == a[0] && node2 == b[0]
    requires (Ring(a) && Ring(b) && Distinct(a + b)) || Ring(a + b)
    modifies a`next, a`prev, b`next, b`prev
    ensures old(Ring(a) && Ring(b)) ==> Ring(a + b)
    ensures old(Ring(a + b)) ==> Ring(a) && Ring(b)
  {
    ghost var s := a + b;
    assert forall i :: 0 <= i < |a| ==> s[i] == a[i];
    assert forall i :: 0 <= i < |b| ==> s[|a| + i] == b[i];
    var node1Prev, node2Prev := node1.prev, node2.prev;
    assert (Ring(a) && Ring(b) && node1Prev == a[|a| - 1] && node2Prev == b[|b| - 1])
        || (Ring(s) && node1Prev == b[|b| - 1] && node2Prev == a[|a| - 1]);
    RelinkAsAdjacent(node1Prev, node2);
    RelinkAsAdjacent(node2Prev, node1);
  }

  /** Being the list `s` leaves no freedom in the links of its nodes. */
  twostate lemma RingFixesLinks(s: seq<FutexNode>)
    requires old(Ring(s)) && Ring(s)
    ensures forall n :: n in s ==> n.next == old(n.next) && n.prev == old(n.prev)
  {
    forall i | 0 <= i < |s| ensures s[i].next == old(s[i].next) && s[i].prev == old(s[i].prev) {
      assert s[i].next == (if i == |s| - 1 then s[0] else s[i + 1]) == old(s[i].next);
      assert s[i].prev == (if i == 0 then s[|s| - 1] else s[i - 1]) == old(s[i].prev);
    }
  }

  /** Splicing twice is the identity on every link. */
  method SpliceTwice(node1: FutexNode, node2: FutexNode, ghost a: seq<FutexNode>, ghost b: seq<FutexNode>)
    requires a != [] && b != [] && node1 == a[0] && node2 == b[0]
    requires (Ring(a) && Ring(b) && Distinct(a + b)) || Ring(a + b)
    modifies a`next, a`prev, b`next, b`prev
    ensures forall n :: n in a || n in b ==> n.next == old(n.next) && n.prev == old(n.prev)
  {
    SpliceNodes(node1, node2, a, b);
    SpliceNodes(node1, node2, a, b);
    if old(Ring(a) && Ring(b)) {
      RingFixesLinks(a);
      RingFixesLinks(b);
    } else {
      RingFixesLinks(a + b);
    }
  }

  lemma RingLinked(s: seq<FutexNode>, n: FutexNode)
    requires Ring(s) && n in s
    ensures n.next != null && n.prev != null
  {
    var i :| 0 <= i < |s| && s[i] == n;
    assert n.next == if i == |s| - 1 then s[0] else s[i + 1];
    assert n.prev == if i == 0 then s[|s| - 1] else s[i - 1];
  }

  lemma RotateRing(a: seq<FutexNode>, b: seq<FutexNode>)
    requires Ring(a + b)
    ensures Ring(b + a)
  {
    var s, r := a + b, b + a;
    if a == [] || b == [] {
      assert s == r;
    } else {
      assert forall i :: 0 <= i < |b| ==> r[i] == s[|a| + i];
      assert forall i :: |b| <= i < |r| ==> r[i] == s[i - |b|];
      forall i {:trigger r[i].next} | 0 <= i < |r| - 1 ensures r[i].next == r[i + 1] {}
      forall i {:trigger r[i].prev} | 1 <= i < |r| ensures r[i].prev == r[i - 1] {}
    }
  }

  /** Takes the first node out of a list of at least two. */
  method UnlinkFirst(node: FutexNode, ghost t: seq<FutexNode>)
    requires t != [] && Ring([node] + t)
    modifies t`next, t`prev
    ensures Ring(t)
  {
    ghost var s := [node] + t;
    assert forall i :: 0 <= i < |t| ==> t[i] == s[i + 1];
    assert node == s[0];
    node.next.prev := node.prev;
    node.prev.next := node.next;
  }

  /** A list turned so that node i comes first. */
  lemma RestMembers(s: seq<FutexNode>, i: nat, t: seq<FutexNode>)
    requires Distinct(s) && i < |s| && t == s[i + 1..] + s[..i]
    ensures forall y :: y in t <==> y in s && y != s[i]
    ensures s == s[..i] + ([s[i]] + s[i + 1..]) && ([s[i]] + s[i + 1..]) + s[..i] == [s[i]] + t
  {
    assert s == s[..i] + [s[i]] + s[i + 1..];
  }

  /** Takes out the node at index `i`. */
  method UnlinkAt(node: FutexNode, ghost s: seq<FutexNode>, ghost i: nat)
    requires Ring(s) && |s| > 1 && i < |s| && s[i] == node
    modifies s`next, s`prev
    ensures node.next == null && node.prev == null
    ensures Ring(s[..i] + s[i + 1..])
  {
    ghost var before, after := s[..i], s[i + 1..];
    ghost var t := s[i + 1..] + s[..i];
    RestMembers(s, i, t);
    RotateRing(before, [node] + after);
    UnlinkWithin(node, s, t);
    RotateRing(after, before);
  }

  method UnlinkWithin(node: FutexNode, ghost s: seq<FutexNode>, ghost t: seq<FutexNode>)
    requires t != [] && Ring([node] + t) && node in s && node !in t && forall i :: 0 <= i < |t| ==> t[i] in s
    modifies s`next, s`prev
    ensures node.next == null && node.prev == null && Ring(t)
  {
    UnlinkFirst(node, t);
    node.MarkAsNotInQueue();
  }

  /** Removes `node`; the result is the new head, or null when the list has become empty. */
  method RemoveNodeFromList(listHead: FutexNode, node: FutexNode, ghost s: seq<FutexNode>) returns (head: FutexNode?)
    requires Ring(s) && s[0] == listHead && node in s
    modifies s`next, s`prev
    ensures node.next == null && node.prev == null
    ensures if Without(s, node) == [] then head == null
            else head == Without(s, node)[0] && Ring(Without(s, node))
  {
    ghost var i :| 0 <= i < |s| && s[i] == node;
    WithoutIs(s, node, i);
    head := listHead;
    if node.next == node {
      assert |s| == 1;
      head := null;
      node.MarkAsNotInQueue();
    } else {
      if node == listHead {
        head := node.next;
      }
      UnlinkAt(node, s, i);
    }
  }

  /** Wakes up to `count` threads from the head of the list, in order. The result heads the list of
      the remaining nodes, or is null. */
  method WakeThreads(listHead: FutexNode, count: nat, oldKey: Key, ghost s: seq<FutexNode>) returns (head: FutexNode?)
    requires Ring(s) && s[0] == listHead && count != 0
    requires forall n :: n in s ==> n.hashKey == oldKey
    modifies s
    ensures var m := Min(count, |s|);
            && (forall i :: 0 <= i < m ==> s[i].Unlinked() && s[i].waiter == WakeResult(old(s[i].waiter)))
            && (forall i :: m <= i < |s| ==> s[i].hashKey == oldKey && s[i].waiter == old(s[i].waiter))
            && if m == |s| then head == null else head == s[m] && Ring(s[m..])
  {
    var listEnd := listHead.prev;
    var i, node := WakeFirst(listHead, listEnd, count, oldKey, s);
    if node == null {
      return null;
    }
    RelinkAsAdjacent(listEnd, node);
    assert Ring(s[i..]);
    head := node;
  }

  /** The walk that wakes; the links of the nodes that remain are as before, except at the ends. */
  method WakeFirst(listHead: FutexNode, listEnd: FutexNode, count: nat, oldKey: Key, ghost s: seq<FutexNode>)
    returns (ghost m: nat, rest: FutexNode?)
    requires Ring(s) && s[0] == listHead && s[|s| - 1] == listEnd && count != 0
    requires forall n :: n in s ==> n.hashKey == oldKey
    modifies s
    ensures m == Min(count, |s|) && if m == |s| then rest == null else rest == s[m]
    ensures forall j :: 0 <= j < m ==> s[j].Unlinked() && s[j].waiter == WakeResult(old(s[j].waiter))
    ensures forall j :: m <= j < |s| ==> s[j].hashKey == oldKey && s[j].waiter == old(s[j].waiter)
    ensures forall j {:trigger s[j].next} :: m <= j < |s| - 1 ==> s[j].next == s[j + 1]
    ensures forall j {:trigger s[j].prev} :: m < j < |s| ==> s[j].prev == s[j - 1]
  {
    var node, i := listHead, 0;
    while i < count
      invariant 0 <= i < |s| && i <= count && node == s[i]
      invariant forall j :: 0 <= j < i ==> s[j].Unlinked() && s[j].waiter == WakeResult(old(s[j].waiter))
      invariant forall j :: i <= j < |s| ==> s[j].hashKey == oldKey && s[j].waiter == old(s[j].waiter)
      invariant forall j {:trigger s[j].next} :: i <= j < |s| - 1 ==> s[j].next == s[j + 1]
      invariant forall j {:trigger s[j].prev} :: i < j < |s| ==> s[j].prev == s[j - 1]
    {
      assert node.hashKey == oldKey;
      node.hashKey := 0;
      var isLastNode, next := node == listEnd, node.next;
      node.WakeThread();
      i := i + 1;
      if isLastNode {
        return i, null;
      }
      node := next;
    }
    return i, node;
  }

  /** Gives the first `count` nodes their new key and splits them off; `listHead` heads them. The
      result heads the list of the remaining nodes, or is null. */
  method RemoveFromHead(listHead: FutexNode, count: nat, oldKey: Key, newKey: Key, ghost s: seq<FutexNode>) returns (head: FutexNode?)
    requires Ring(s) && s[0] == listHead && count != 0
    requires forall n :: n in s ==> n.hashKey == oldKey
    modifies s`next, s`prev, s`hashKey
    ensures var m := Min(count, |s|);
            && (forall i :: 0 <= i < m ==> s[i].hashKey == newKey)
            && (forall i :: m <= i < |s| ==> s[i].hashKey == oldKey)
            && Ring(s[..m])
            && if m == |s| then head == null else head == s[m] && Ring(s[m..])
  {
    var i, node := Rekey(listHead, count, oldKey, newKey, s);
    if node == listHead {
      assert s[..i] == s;
      return null;
    }
    assert s[..i] + s[i..] == s;
    SpliceNodes(listHead, node, s[..i], s[i..]);
    head := node;
  }

  /** The walk over the first `count` nodes, or over all of them, which ends at the head again. */
  method Rekey(listHead: FutexNode, count: nat, oldKey: Key, newKey: Key, ghost s: seq<FutexNode>) returns (i: nat, node: FutexNode)
    requires Ring(s) && s[0] == listHead && count != 0
    requires forall n :: n in s ==> n.hashKey == oldKey
    modifies s`hashKey
    ensures i == Min(count, |s|) && Ring(s) && node == if i == |s| then listHead else s[i]
    ensures forall j :: 0 <= j < i ==> s[j].hashKey == newKey
    ensures forall j :: i <= j < |s| ==> s[j].hashKey == oldKey
  {
    node := listHead;
    i := 0;
    while i < count
      invariant 0 <= i < |s| && i <= count && node == s[i] && Ring(s)
      invariant forall j :: 0 <= j < i ==> s[j].hashKey == newKey
      invariant forall j :: i <= j < |s| ==> s[j].hashKey == oldKey
    {
      assert node.hashKey == oldKey;
      node.hashKey := newKey;
      node := node.next;
      i := i + 1;
      if node == listHead {
        return;
      }
    }
  }
}
