/** The table of active futexes of one process, as it stands whenever the context lock is free. */
module FutexContexts {
  import opened Lists
  import opened FutexQueues
  import opened FutexNodes

  datatype Status = Ok | InvalidArgs | BadState | Fault

  const SIZEOF_INT := 4

  /** `s` is one circular list of nodes with key `k`, none of them woken by a wake. */
  ghost predicate IsList(s: seq<FutexNode>, k: Key)
    reads s
  {
    Ring(s) && Keyed(s, k)
  }

  ghost predicate Keyed(s: seq<FutexNode>, k: Key)
    reads s
  {
    forall n :: n in s ==> n.hashKey == k && n.waiter != Awake(true)
  }

  ghost predicate Inside(s: seq<FutexNode>, nodes: set<FutexNode>, loose: set<FutexNode>) {
    forall n :: n in s ==> n in nodes && n !in loose
  }

  twostate lemma ListFrame(list: (seq<FutexNode>, Key))
    requires old(IsList(list.0, list.1))
    requires unchanged(set n | n in list.0)
    ensures IsList(list.0, list.1)
  {
  }

  lemma SplitMembers(s: seq<FutexNode>, m: nat)
    requires Distinct(s) && m <= |s|
    ensures forall n :: n in s[..m] ==> n in s
    ensures forall n :: n in s[m..] ==> n in s
    ensures (set n | n in s) - (set n | n in s[..m]) == set n | n in s[m..]
  {
    assert s == s[..m] + s[m..];
  }

  lemma JoinMembers(p: seq<FutexNode>, s: seq<FutexNode>, loose: set<FutexNode>)
    requires forall n :: n in p ==> n !in loose
    ensures loose - (set n | n in p + s) == loose - set n | n in s
    ensures forall n :: n in p + s <==> n in p || n in s
  {
  }

  ghost predicate NodeOk(n: FutexNode, queues: Queues<FutexNode>)
    reads n
  {
    && (n.next == null <==> n.prev == null)
    && (n.next != null ==> n in At(queues, n.hashKey) && n.waiter != Awake(true))
  }

  method RemoveKeyed(listHead: FutexNode, node: FutexNode, ghost s: seq<FutexNode>, ghost key: Key)
    returns (head: FutexNode?, ghost rest: seq<FutexNode>)
    requires IsList(s, key) && s[0] == listHead && node in s
    modifies s`next, s`prev
    ensures node.next == null && node.prev == null && rest == Without(s, node)
    ensures if rest == [] then head == null else head == rest[0] && IsList(rest, key)
    ensures forall n :: n in rest ==> n in s
    ensures forall n :: n in s && n != node ==> n in rest
  {
    ghost var i :| 0 <= i < |s| && s[i] == node;
    WithoutIs(s, node, i);
    rest := Without(s, node);
    assert Keyed(rest, key);
    head := RemoveNodeFromList(listHead, node, s);
  }

  /** RemoveFromHead(). */
  method SplitKeyed(listHead: FutexNode, count: nat, oldKey: Key, newKey: Key, ghost s: seq<FutexNode>)
    returns (head: FutexNode?, ghost rest: seq<FutexNode>)
    requires IsList(s, oldKey) && s[0] == listHead && count != 0
    modifies s`next, s`prev, s`hashKey
    ensures rest == s[Min(count, |s|)..] && IsList(s[..Min(count, |s|)], newKey)
    ensures if rest == [] then head == null else head == rest[0] && IsList(rest, oldKey)
    ensures forall n :: n in s[..Min(count, |s|)] ==> n in s
    ensures forall n :: n in rest ==> n in s
    ensures (set n | n in s) - (set n | n in s[..Min(count, |s|)]) == set n | n in rest
  {
    ghost var m := Min(count, |s|);
    SplitMembers(s, m);
    rest := s[m..];
    head := RemoveFromHead(listHead, count, oldKey, newKey, s);
  }

  /** AppendList(). */
  method AppendKeyed(first: FutexNode, head: FutexNode, ghost p: seq<FutexNode>, ghost s: seq<FutexNode>, ghost key: Key)
    requires IsList(p, key) && IsList(s, key) && first == p[0] && head == s[0]
    requires forall n :: n in s ==> n !in p
    modifies p`next, p`prev, s`next, s`prev
    ensures IsList(p + s, key)
  {
    DistinctJoin(p, s);
    assert Keyed(p + s, key);
    SpliceNodes(first, head, p, s);
  }

  lemma AppendNothing(q: Queues<FutexNode>, k: Key)
    requires k in q ==> q[k] != []
    ensures Append(q, k, []) == q
  {
    assert At(q, k) + [] == At(q, k);
  }

  class FutexContext {
    var table: map<Key, FutexNode>
    ghost var queues: Queues<FutexNode>
    ghost var nodes: set<FutexNode>  // the nodes of all waits in progress

    constructor ()
      ensures Valid() && queues == map[] && nodes == {}
    {
      table, queues, nodes := map[], map[], {};
    }

    /** The table lists exactly `queues`: one circular list for each active key, holding nodes with
        that key, and a node with links is on the list of its key. The nodes in `loose` are off
        the table for the moment. */
    ghost predicate ValidBut(loose: set<FutexNode>)
      reads this, nodes
    {
      ListsOk(loose) && NodesOk(loose)
    }

    ghost predicate ListsOk(loose: set<FutexNode>)
      reads this, nodes
    {
      && table.Keys == queues.Keys
      && (forall k :: k in queues ==> Inside(queues[k], nodes, loose))
      && (forall k :: k in queues ==> IsList(queues[k], k) && table[k] == queues[k][0])
    }

    ghost predicate NodesOk(loose: set<FutexNode>)
      reads this, nodes
    {
      forall n :: n in nodes && n !in loose ==> NodeOk(n, queues)
    }

    ghost predicate Valid()
      reads this, nodes
    {
      ValidBut({})
    }

    /** Takes the list of `k` off the table. */
    method Erase(k: Key) returns (head: FutexNode?, ghost s: seq<FutexNode>)
      requires Valid()
      modifies this`table, this`queues
      ensures s == old(At(queues, k)) && queues == old(queues) - {k}
      ensures ValidBut(set n | n in s)
      ensures if s == [] then head == null else head == s[0] && IsList(s, k)
      ensures forall n :: n in s ==> n in nodes
    {
      s := At(queues, k);
      if k in table {
        head := table[k];
        table := table - {k};
      } else {
        head := null;
      }
      queues := queues - {k};
      forall n | n in nodes && n !in s ensures NodeOk(n, queues) {
        assert NodeOk(n, old(queues));
      }
    }

    /** Puts a list on the table under the key of its head. */
    method Insert(head: FutexNode, ghost s: seq<FutexNode>, ghost loose: set<FutexNode>)
      requires ValidBut(loose) && IsList(s, head.hashKey) && s[0] == head && head.hashKey !in table
      requires forall n :: n in s ==> n in loose && n in nodes
      modifies this`table, this`queues
      ensures queues == old(queues)[head.hashKey := s]
      ensures ValidBut(loose - set n | n in s)
    {
      table := table[head.hashKey := head];
      queues := queues[head.hashKey := s];
      ghost var loose' := loose - set n | n in s;
      forall n | n in nodes - loose' ensures NodeOk(n, queues) {
        if n in s {
          RingLinked(s, n);
        } else {
          assert NodeOk(n, old(queues));
        }
      }
    }

    lemma QueueInside(k: Key, loose: set<FutexNode>)
      requires ListsOk(loose)
      ensures Inside(At(queues, k), nodes, loose)
    {
    }

    /** Changing loose nodes does not touch the table. */
    twostate lemma LooseFrame(loose: set<FutexNode>)
      requires old(ValidBut(loose)) && unchanged(this) && unchanged(nodes - loose)
      ensures ValidBut(loose)
    {
      forall k | k in queues ensures IsList(queues[k], k) {
        assert Inside(queues[k], nodes, loose);
      }
    }

    /** A loose node without links is as good as one off every queue. */
    lemma Settle(loose: set<FutexNode>, loose': set<FutexNode>)
      requires ValidBut(loose) && loose' <= loose
      requires forall n :: n in loose && n !in loose' ==> n.next == null && n.prev == null
      ensures ValidBut(loose')
    {
    }

    /** Puts what is left of an erased list back into the table under its key, if anything is left. */
    method Restore(head: FutexNode?, key: Key, ghost s: seq<FutexNode>)
      requires ValidBut(set n | n in s) && key !in table
      requires forall n :: n in s ==> n in nodes
      requires if s == [] then head == null else head == s[0] && IsList(s, key)
      modifies this`table, this`queues
      ensures Valid() && queues == Put(old(queues), key, s)
    {
      if head != null {
        Insert(head, s, set n | n in s);
      } else {
        assert (set n | n in s) == {};
      }
    }

    /** WakeThreads() on a list that is off the table. */
    method WakeLoose(node: FutexNode, count: nat, key: Key, ghost s: seq<FutexNode>)
      returns (head: FutexNode?, ghost rest: seq<FutexNode>)
      requires ValidBut(set n | n in s) && IsList(s, key) && s[0] == node && count != 0
      requires forall n :: n in s ==> n in nodes
      modifies s
      ensures rest == s[Min(count, |s|)..] && ValidBut(set n | n in rest)
      ensures if rest == [] then head == null else head == rest[0] && IsList(rest, key)
      ensures forall n :: n in rest ==> n in s
      ensures forall n :: n in nodes ==>
                n.waiter == if n in s[..Min(count, |s|)] then WakeResult(old(n.waiter)) else old(n.waiter)
    {
      head := WakeThreads(node, count, key, s);
      ghost var m := Min(count, |s|);
      rest := s[m..];
      LooseFrame(set n | n in s);
      SplitAt(s, m);
      Settle(set n | n in s, set n | n in rest);
    }

    method FutexWake(key: Key, count: nat) returns (r: Status)
      requires Valid()
      modifies this`table, this`queues, nodes
      ensures Valid()
      ensures r == (if count != 0 && key % SIZEOF_INT != 0 then InvalidArgs else Ok)
      ensures queues == if r == Ok then Take(old(queues), key, count) else old(queues)
      ensures forall n :: n in nodes ==>
                n.waiter == if r == Ok && n in Taken(old(queues), key, count)
                            then WakeResult(old(n.waiter)) else old(n.waiter)
    {
      if count == 0 {
        TakeNothing(queues, key, count);
        return Ok;
      }
      if key % SIZEOF_INT != 0 {
        return InvalidArgs;
      }
      var node, s := Erase(key);
      if node == null {
        TakeNothing(old(queues), key, count);
        return Ok;
      }
      var remaining, rest := WakeLoose(node, count, key, s);
      Restore(remaining, key, rest);
      PutErased(old(queues), key, rest);
      return Ok;
    }

    /** AppendList() on the list of an active key. */
    method AppendLoose(key: Key, head: FutexNode, ghost s: seq<FutexNode>, ghost loose: set<FutexNode>)
      requires ValidBut(loose) && IsList(s, key) && s[0] == head && key in table
      requires forall n :: n in s ==> n in loose && n in nodes
      modifies this`queues, At(queues, key)`next, At(queues, key)`prev, s`next, s`prev
      ensures queues == old(queues)[key := old(queues)[key] + s]
      ensures ValidBut(loose - set n | n in s)
    {
      LinkBehind(key, head, s, loose);
      JoinKeepsLists((key, loose));
      JoinKeepsNodes((key, loose));
    }

    method LinkBehind(key: Key, head: FutexNode, ghost s: seq<FutexNode>, ghost loose: set<FutexNode>)
      requires ValidBut(loose) && IsList(s, key) && s[0] == head && key in table
      requires forall n :: n in s ==> n in loose && n in nodes
      modifies this`queues, At(queues, key)`next, At(queues, key)`prev, s`next, s`prev
      ensures queues == old(queues)[key := old(queues)[key] + s] && Joined((key, loose))
      ensures (loose - set n | n in queues[key]) == loose - set n | n in s
    {
      ghost var p := queues[key];
      assert Inside(p, nodes, loose);
      JoinMembers(p, s, loose);
      ghost var ps := p + s;
      AppendKeyed(table[key], head, p, s, key);
      queues := queues[key := ps];
    }

    /** The list of `at.0` has got some of the loose nodes `at.1` linked behind it, and nothing else
        has changed. */
    twostate predicate Joined(at: (Key, set<FutexNode>))
      reads this, nodes
    {
      && table == old(table) && nodes == old(nodes)
      && at.0 in old(queues) && at.0 in queues
      && queues == old(queues)[at.0 := queues[at.0]] && old(queues)[at.0] <= queues[at.0]
      && (forall n :: n in queues[at.0] && n !in old(queues)[at.0] ==> n in at.1)
      && (forall n :: n in queues[at.0] ==> n in nodes)
      && unchanged(nodes - set n | n in queues[at.0])
      && IsList(queues[at.0], at.0)
    }

    twostate lemma JoinKeepsLists(at: (Key, set<FutexNode>))
      requires old(ListsOk(at.1))
      requires Joined(at)
      ensures ListsOk(at.1 - set n | n in queues[at.0])
    {
      var (key, loose) := at;
      var ps := queues[key];
      var loose' := loose - set n | n in ps;
      forall k | k in queues ensures Inside(queues[k], nodes, loose') {
        assert Inside(old(queues)[k], nodes, loose);
      }
      forall k | k in queues ensures IsList(queues[k], k) && table[k] == queues[k][0] {
        JoinKeepsList((key, loose, k));
      }
    }

    twostate lemma JoinKeepsList(at: (Key, set<FutexNode>, Key))
      requires old(ListsOk(at.1))
      requires Joined((at.0, at.1)) && at.2 in queues
      ensures IsList(queues[at.2], at.2) && table[at.2] == queues[at.2][0]
    {
      var (key, loose, k) := at;
      assert old(IsList(queues[k], k)) && Inside(old(queues)[k], nodes, loose);
      if k != key {
        assert forall n :: n in queues[k] ==> n in nodes - set n | n in queues[key];
      }
    }

    twostate lemma JoinKeepsNodes(at: (Key, set<FutexNode>))
      requires old(NodesOk(at.1))
      requires Joined(at)
      ensures NodesOk(at.1 - set n | n in queues[at.0])
    {
      var (key, loose) := at;
      var ps := queues[key];
      forall n | n in nodes && n !in loose - (set n | n in ps) ensures NodeOk(n, queues) {
        if n in ps {
          RingLinked(ps, n);
        } else {
          assert old(NodeOk(n, queues));
        }
      }
    }

    /** Adds a list that is off the table to the tail of the list of its key. */
    method QueueNodesLocked(head: FutexNode, ghost s: seq<FutexNode>, ghost loose: set<FutexNode>)
      requires ValidBut(loose) && IsList(s, head.hashKey) && s[0] == head
      requires forall n :: n in s ==> n in loose && n in nodes
      modifies this`table, this`queues, s`next, s`prev
      modifies At(queues, head.hashKey)`next, At(queues, head.hashKey)`prev
      ensures queues == Append(old(queues), head.hashKey, s)
      ensures ValidBut(loose - set n | n in s)
      ensures unchanged(loose - set n | n in s)
    {
      var key := head.hashKey;
      QueueInside(key, loose);
      if key !in table {
        Insert(head, s, loose);
        assert [] + s == s;
      } else {
        AppendLoose(key, head, s, loose);
      }
    }

    /** RemoveNodeFromList() on a list that is off the table. */
    method UnlinkLoose(listHead: FutexNode, node: FutexNode, key: Key, ghost s: seq<FutexNode>)
      returns (head: FutexNode?, ghost rest: seq<FutexNode>)
      requires ValidBut(set n | n in s) && IsList(s, key) && s[0] == listHead && node in s
      requires forall n :: n in s ==> n in nodes
      modifies s`next, s`prev
      ensures node.next == null && node.prev == null
      ensures rest == Without(s, node) && ValidBut(set n | n in rest)
      ensures if rest == [] then head == null else head == rest[0] && IsList(rest, key)
      ensures forall n :: n in rest ==> n in s
    {
      head, rest := RemoveKeyed(listHead, node, s, key);
      LooseFrame(set n | n in s);
      Settle(set n | n in s, set n | n in rest);
    }

    /** Takes `node` off the queue of its key, which a requeue may have changed. */
    method UnqueueNodeLocked(node: FutexNode) returns (found: bool)
      requires Valid() && node in nodes
      modifies this`table, this`queues, nodes`next, nodes`prev
      ensures Valid() && node.next == null && node.prev == null
      ensures found <==> old(node.IsInQueue())
      ensures found ==> node in At(old(queues), node.hashKey)
      ensures queues == if found then Unqueue(old(queues), node.hashKey, node) else old(queues)
    {
      if !node.IsInQueue() {
        return false;
      }
      var key := node.hashKey;
      var oldHead, s := Erase(key);
      var newHead, rest := UnlinkLoose(oldHead, node, key, s);
      Restore(newHead, key, rest);
      PutErased(old(queues), key, rest);
      return true;
    }

    /** Moves up to `count` nodes from the head of a loose list to the tail of the queue of `newKey`. */
    method RequeueLoose(node: FutexNode, count: nat, key: Key, newKey: Key, ghost s: seq<FutexNode>)
      returns (head: FutexNode?, ghost rest: seq<FutexNode>)
      requires ValidBut(set n | n in s) && IsList(s, key) && s[0] == node && count != 0
      requires forall n :: n in s ==> n in nodes
      modifies this`table, this`queues, nodes`next, nodes`prev, s`hashKey
      ensures rest == s[Min(count, |s|)..] && ValidBut(set n | n in rest)
      ensures if rest == [] then head == null else head == rest[0] && IsList(rest, key)
      ensures forall n :: n in rest ==> n in s
      ensures queues == Append(old(queues), newKey, s[..Min(count, |s|)])
    {
      ghost var moved, all := s[..Min(count, |s|)], set n | n in s;
      head, rest := SplitLoose(node, count, key, newKey, s);
      QueueMoved(node, key, moved, rest, all);
    }

    /** The split-off nodes join the list of their new key, the others stay off the table. */
    method QueueMoved(node: FutexNode, ghost key: Key, ghost moved: seq<FutexNode>, ghost rest: seq<FutexNode>, ghost all: set<FutexNode>)
      requires ValidBut(all) && IsList(moved, node.hashKey) && moved[0] == node
      requires (forall n :: n in moved ==> n in all && n in nodes) && all - (set n | n in moved) == set n | n in rest
      requires (rest != [] ==> IsList(rest, key)) && Inside(At(queues, node.hashKey), nodes, all)
      modifies this`table, this`queues, nodes`next, nodes`prev
      ensures ValidBut(set n | n in rest) && (rest != [] ==> IsList(rest, key))
      ensures queues == Append(old(queues), node.hashKey, moved)
    {
      ghost var others := all - set n | n in moved;
      assert forall n :: n in rest ==> n in others;
      QueueNodesLocked(node, moved, all);
      assert unchanged(others);
      if rest != [] {
        assert unchanged(set n | n in rest);
        ListFrame((rest, key));
      }
    }

    /** RemoveFromHead() on a list that is off the table. */
    method SplitLoose(node: FutexNode, count: nat, key: Key, newKey: Key, ghost s: seq<FutexNode>)
      returns (head: FutexNode?, ghost rest: seq<FutexNode>)
      requires ValidBut(set n | n in s) && IsList(s, key) && s[0] == node && count != 0
      requires forall n :: n in s ==> n in nodes
      modifies s`next, s`prev, s`hashKey
      ensures ValidBut(set n | n in s)
      ensures rest == s[Min(count, |s|)..] && IsList(s[..Min(count, |s|)], newKey)
      ensures if rest == [] then head == null else head == rest[0] && IsList(rest, key)
      ensures forall n :: n in s[..Min(count, |s|)] ==> n in s
      ensures forall n :: n in rest ==> n in s
      ensures (set n | n in s) - (set n | n in s[..Min(count, |s|)]) == set n | n in rest
      ensures Inside(At(queues, newKey), nodes, set n | n in s)
    {
      head, rest := SplitKeyed(node, count, key, newKey, s);
      LooseFrame(set n | n in s);
      QueueInside(newKey, set n | n in s);
    }

    /** An argument that is wrong whatever the futex holds comes first, then the futex word, then
        arguments that are wrong together. */
    method FutexRequeue(wakeKey: Key, wakeCount: nat, currentValue: int, userValue: Option<int>,
                        requeueKey: Key, requeueCount: nat, newOwner: bool) returns (r: Status)
      requires Valid()
      modifies this`table, this`queues, nodes
      ensures Valid()
      ensures r == Ok <==>
                && userValue == Some(currentValue) && !newOwner && (requeueKey != 0 || requeueCount == 0)
                && wakeKey != requeueKey && wakeKey % SIZEOF_INT == 0 && requeueKey % SIZEOF_INT == 0
      ensures r == Fault <==> userValue == None && !newOwner && (requeueKey != 0 || requeueCount == 0)
      ensures r == BadState <==>
                userValue.Some? && userValue.value != currentValue && !newOwner && (requeueKey != 0 || requeueCount == 0)
      ensures r == InvalidArgs <==>
                || newOwner || (requeueKey == 0 && requeueCount != 0)
                || (userValue == Some(currentValue)
                    && (wakeKey == requeueKey || wakeKey % SIZEOF_INT != 0 || requeueKey % SIZEOF_INT != 0))
      ensures queues == if r == Ok then Requeue(old(queues), wakeKey, wakeCount, requeueKey, requeueCount)
                        else old(queues)
      ensures forall n :: n in nodes ==>
                n.waiter == if r == Ok && n in Taken(old(queues), wakeKey, wakeCount)
                            then WakeResult(old(n.waiter)) else old(n.waiter)
    {
      if requeueKey == 0 && requeueCount != 0 {
        return InvalidArgs;
      }
      if newOwner {
        return InvalidArgs;
      }
      if userValue.None? {
        return Fault;
      }
      if userValue.value != currentValue {
        return BadState;
      }
      if wakeKey == requeueKey {
        return InvalidArgs;
      }
      if wakeKey % SIZEOF_INT != 0 || requeueKey % SIZEOF_INT != 0 {
        return InvalidArgs;
      }
      WakeAndRequeue(wakeKey, wakeCount, requeueKey, requeueCount);
      return Ok;
    }

    /** FutexRequeue() past its checks. */
    method WakeAndRequeue(wakeKey: Key, wakeCount: nat, requeueKey: Key, requeueCount: nat)
      requires Valid() && wakeKey != requeueKey
      modifies this`table, this`queues, nodes
      ensures Valid()
      ensures queues == Requeue(old(queues), wakeKey, wakeCount, requeueKey, requeueCount)
      ensures forall n :: n in nodes ==>
                n.waiter == if n in Taken(old(queues), wakeKey, wakeCount)
                            then WakeResult(old(n.waiter)) else old(n.waiter)
    {
      RequeueByParts(queues, wakeKey, wakeCount, requeueKey, requeueCount);
      var node, s := Erase(wakeKey);
      ghost var q := queues;
      if node == null {
        AppendNothing(q, requeueKey);
        return;
      }
      ghost var rest := s;
      if wakeCount > 0 {
        node, rest := WakeLoose(node, wakeCount, wakeKey, s);
      }
      RequeueRest(node, requeueCount, wakeKey, requeueKey, rest);
    }

    /** Requeues from the remaining waiters of `key` and puts the others back. */
    method RequeueRest(head: FutexNode?, count: nat, key: Key, newKey: Key, ghost s: seq<FutexNode>)
      requires ValidBut(set n | n in s) && key !in table && key != newKey
      requires if s == [] then head == null else head == s[0] && IsList(s, key)
      requires forall n :: n in s ==> n in nodes
      modifies this`table, this`queues, nodes`next, nodes`prev, nodes`hashKey
      ensures Valid()
      ensures var m := Min(count, |s|); queues == Put(Append(old(queues), newKey, s[..m]), key, s[m..])
    {
      var node := head;
      ghost var rest := s;
      if node != null && count > 0 {
        node, rest := RequeueLoose(node, count, key, newKey, s);
      } else {
        AppendNothing(queues, newKey);
      }
      Restore(node, key, rest);
    }

    /** FutexWait() up to BlockThread(). */
    method FutexWaitEnter(key: Key, currentValue: int, userValue: Option<int>, newOwner: bool)
      returns (r: Status, node: FutexNode?)
      requires Valid()
      modifies this, nodes`next, nodes`prev
      ensures Valid()
      ensures r == if key % SIZEOF_INT != 0 || newOwner then InvalidArgs
                   else if userValue.None? then Fault
                   else if userValue.value != currentValue then BadState else Ok
      ensures if r == Ok then node != null && fresh(node) && node.waiter == Asleep && nodes == old(nodes) + {node}
              else node == null && nodes == old(nodes)
      ensures queues == if r == Ok then Append(old(queues), key, [node]) else old(queues)
    {
      node := null;
      if key % SIZEOF_INT != 0 {
        return InvalidArgs, null;
      }
      if newOwner {
        return InvalidArgs, null;
      }
      if userValue.None? {
        return Fault, null;
      }
      if userValue.value != currentValue {
        return BadState, null;
      }
      node := Enqueue(key);
      return Ok, node;
    }

    /** A new node at the tail of its key's list. */
    method Enqueue(key: Key) returns (node: FutexNode)
      requires Valid()
      modifies this, nodes`next, nodes`prev
      ensures Valid() && fresh(node) && node.waiter == Asleep && nodes == old(nodes) + {node}
      ensures queues == Append(old(queues), key, [node])
    {
      node := AddNode(key);
      QueueNodesLocked(node, [node], {node});
      assert {node} - (set n | n in [node]) == {};
    }

    method AddNode(key: Key) returns (node: FutexNode)
      requires Valid()
      modifies this`nodes
      ensures fresh(node) && nodes == old(nodes) + {node} && node.waiter == Asleep
      ensures ValidBut({node}) && IsList([node], key) && node.hashKey == key
    {
      node := new FutexNode();
      node.hashKey := key;
      node.SetAsSingletonList();
      nodes := nodes + {node};
    }

    /** FutexWait() after BlockThread() has returned; true stands for ZX_OK, false for the error. */
    method FutexWaitLeave(node: FutexNode) returns (ok: bool)
      requires Valid() && node in nodes && node.waiter.Awake?
      modifies this, nodes`next, nodes`prev
      ensures Valid() && nodes == old(nodes) - {node}
      ensures ok <==> !old(node.IsInQueue())
      ensures queues == if ok then old(queues) else Unqueue(old(queues), node.hashKey, node)
      ensures !node.IsInQueue()
    {
      if node.waiter == Awake(true) {
        assert !node.IsInQueue();
        ok := true;
      } else {
        var found := UnqueueNodeLocked(node);
        ok := !found;
      }
      DropNode(node);
    }

    /** A node off every queue can be destroyed. */
    ghost method DropNode(node: FutexNode)
      requires Valid() && node in nodes && node.next == null
      modifies this`nodes
      ensures Valid() && nodes == old(nodes) - {node}
    {
      nodes := nodes - {node};
      forall k | k in queues ensures Inside(queues[k], nodes, {}) {
        forall n | n in queues[k] ensures n != node { RingLinked(queues[k], n); }
      }
    }
  }
}
