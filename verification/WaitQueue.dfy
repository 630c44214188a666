/** A wait queue: a list of queue heads, one for each priority in use, each with the list of the
    threads behind it. It stands for one flat queue by priority, first come first served within
    a priority. */
module WaitQueues {
  import opened Lists

  type Tid = nat
  type Priorities = map<Tid, int>

  /** A thread on the list of heads, with the threads of its priority behind it. */
  datatype Level = Level(head: Tid, followers: seq<Tid>)

  function PrioOf(p: Priorities, t: Tid): int {
    if t in p then p[t] else -1
  }

  function Threads(l: Level): seq<Tid> {
    [l.head] + l.followers
  }

  /** The flat queue that the levels stand for. */
  function Flat(levels: seq<Level>): seq<Tid> {
    if levels == [] then [] else Threads(levels[0]) + Flat(levels[1..])
  }

  /** The flat insertion: behind every thread of at least the same priority. */
  function InsertFlat(q: seq<Tid>, t: Tid, p: Priorities): seq<Tid> {
    if q == [] || PrioOf(p, q[0]) < PrioOf(p, t) then [t] + q
    else [q[0]] + InsertFlat(q[1..], t, p)
  }

  ghost predicate ByPriority(q: seq<Tid>, p: Priorities) {
    forall i, j :: 0 <= i < j < |q| ==> PrioOf(p, q[i]) >= PrioOf(p, q[j])
  }

  // ---------- the flat queue ----------

  /** Threads of at least the same priority stay in front. */
  lemma {:induction false} InsertFlatSkips(a: seq<Tid>, b: seq<Tid>, t: Tid, p: Priorities)
    requires forall i :: 0 <= i < |a| ==> PrioOf(p, a[i]) >= PrioOf(p, t)
    ensures InsertFlat(a + b, t, p) == a + InsertFlat(b, t, p)
  {
    if a == [] {
      assert a + b == b;
    } else {
      InsertFlatSkips(a[1..], b, t, p);
      assert (a + b)[1..] == a[1..] + b;
      assert a == [a[0]] + a[1..];
    }
  }

  /** How many threads of a queue by priority go before a new one. */
  function Before(q: seq<Tid>, t: Tid, p: Priorities): nat {
    if q == [] || PrioOf(p, q[0]) < PrioOf(p, t) then 0 else 1 + Before(q[1..], t, p)
  }

  lemma {:induction false} BeforeIs(q: seq<Tid>, t: Tid, p: Priorities)
    requires ByPriority(q, p)
    ensures Before(q, t, p) <= |q|
    ensures forall j :: 0 <= j < |q| ==> (j < Before(q, t, p) <==> PrioOf(p, q[j]) >= PrioOf(p, t))
  {
    if q != [] {
      if PrioOf(p, q[0]) >= PrioOf(p, t) {
        BeforeIs(q[1..], t, p);
        forall j | 0 <= j < |q| ensures j < Before(q, t, p) <==> PrioOf(p, q[j]) >= PrioOf(p, t) {
          if j > 0 { assert q[j] == q[1..][j - 1]; }
        }
      }
    }
  }

  /** Insertion splits the queue into the threads that go first, in order, and those that wait
      behind the new one, in order; the result is again by priority. */
  lemma {:induction false} InsertFlatSplits(q: seq<Tid>, t: Tid, p: Priorities)
    requires ByPriority(q, p)
    ensures var i := Before(q, t, p);
            && i <= |q| && InsertFlat(q, t, p) == q[..i] + [t] + q[i..]
            && (forall j :: 0 <= j < |q| ==> (j < i <==> PrioOf(p, q[j]) >= PrioOf(p, t)))
    ensures ByPriority(InsertFlat(q, t, p), p)
  {
    BeforeIs(q, t, p);
    var i := Before(q, t, p);
    InsertFlatAt(q, t, p, i);
    InsertKeepsOrder(q, t, p, i);
  }

  lemma {:induction false} InsertFlatAt(q: seq<Tid>, t: Tid, p: Priorities, i: nat)
    requires i <= |q| && forall j :: 0 <= j < i ==> PrioOf(p, q[j]) >= PrioOf(p, t)
    requires i < |q| ==> PrioOf(p, q[i]) < PrioOf(p, t)
    ensures InsertFlat(q, t, p) == q[..i] + [t] + q[i..]
  {
    var a, b := q[..i], q[i..];
    assert q == a + b;
    InsertFlatSkips(a, b, t, p);
    assert InsertFlat(b, t, p) == [t] + b;
    assert a + ([t] + b) == a + [t] + b;
  }

  lemma {:induction false} InsertKeepsOrder(q: seq<Tid>, t: Tid, p: Priorities, i: nat)
    requires ByPriority(q, p) && i <= |q|
    requires forall j :: 0 <= j < |q| ==> (j < i <==> PrioOf(p, q[j]) >= PrioOf(p, t))
    ensures ByPriority(q[..i] + [t] + q[i..], p)
  {
    var r := q[..i] + [t] + q[i..];
    forall j, k | 0 <= j < k < |r| ensures PrioOf(p, r[j]) >= PrioOf(p, r[k]) {
      assert r[j] == if j < i then q[j] else if j == i then t else q[j - 1];
      assert r[k] == if k < i then q[k] else if k == i then t else q[k - 1];
    }
  }

  /** Nobody else moves: the new queue without the new thread is the old queue. */
  lemma {:induction false} InsertThenRemove(q: seq<Tid>, t: Tid, p: Priorities)
    requires t !in q
    ensures Without(InsertFlat(q, t, p), t) == q
  {
    if q != [] && PrioOf(p, q[0]) >= PrioOf(p, t) {
      InsertThenRemove(q[1..], t, p);
      assert q == [q[0]] + q[1..];
    }
  }

  lemma {:induction false} InsertFlatMembers(q: seq<Tid>, t: Tid, p: Priorities)
    ensures |InsertFlat(q, t, p)| == |q| + 1
    ensures forall u :: u in InsertFlat(q, t, p) <==> u in q || u == t
    ensures Distinct(q) && t !in q ==> Distinct(InsertFlat(q, t, p))
  {
    if q != [] && PrioOf(p, q[0]) >= PrioOf(p, t) {
      InsertFlatMembers(q[1..], t, p);
      assert q == [q[0]] + q[1..];
      if Distinct(q) && t !in q { DistinctCons(q[0], InsertFlat(q[1..], t, p)); }
    } else if Distinct(q) && t !in q {
      DistinctCons(t, q);
    }
  }

  // ---------- the two-level structure ----------

  /** The threads behind a head have its priority; everything on later levels has less. */
  ghost predicate Ordered(levels: seq<Level>, p: Priorities) {
    levels == [] ||
    (&& (forall u :: u in levels[0].followers ==> PrioOf(p, u) == PrioOf(p, levels[0].head))
     && (forall u :: u in Flat(levels[1..]) ==> PrioOf(p, u) < PrioOf(p, levels[0].head))
     && Ordered(levels[1..], p))
  }

  /** The flat queue of an ordered structure is by priority. */
  lemma {:induction false} OrderedByPriority(levels: seq<Level>, p: Priorities)
    requires Ordered(levels, p)
    ensures ByPriority(Flat(levels), p)
  {
    if levels != [] {
      var first, rest := Threads(levels[0]), Flat(levels[1..]);
      OrderedByPriority(levels[1..], p);
      assert forall u :: u in first ==> PrioOf(p, u) == PrioOf(p, levels[0].head);
      var q := first + rest;
      forall i, j | 0 <= i < j < |q| ensures PrioOf(p, q[i]) >= PrioOf(p, q[j]) {
        assert if i < |first| then q[i] in first else q[i] == rest[i - |first|];
        assert if j < |first| then q[j] in first else q[j] == rest[j - |first|] && q[j] in rest;
      }
    }
  }

  /** The walk of an insertion over the heads. */
  function InsertLevels(levels: seq<Level>, t: Tid, p: Priorities): seq<Level> {
    if levels == [] || PrioOf(p, t) > PrioOf(p, levels[0].head) then [Level(t, [])] + levels
    else if PrioOf(p, levels[0].head) == PrioOf(p, t) then
      [Level(levels[0].head, levels[0].followers + [t])] + levels[1..]
    else [levels[0]] + InsertLevels(levels[1..], t, p)
  }

  /** The insertion is the flat one. */
  lemma {:induction false} InsertRefines(levels: seq<Level>, t: Tid, p: Priorities)
    requires Ordered(levels, p)
    ensures Flat(InsertLevels(levels, t, p)) == InsertFlat(Flat(levels), t, p)
  {
    if levels != [] && PrioOf(p, t) <= PrioOf(p, levels[0].head) {
      var first, rest := Threads(levels[0]), Flat(levels[1..]);
      assert forall u :: u in first ==> PrioOf(p, u) == PrioOf(p, levels[0].head);
      InsertFlatSkips(first, rest, t, p);
      if PrioOf(p, levels[0].head) == PrioOf(p, t) {
        assert InsertFlat(rest, t, p) == [t] + rest;
        assert first + ([t] + rest) == [levels[0].head] + (levels[0].followers + [t]) + rest;
      } else {
        InsertRefines(levels[1..], t, p);
      }
    } else {
      assert Threads(Level(t, [])) == [t];
    }
  }

  lemma {:induction false} InsertKeepsLevels(levels: seq<Level>, t: Tid, p: Priorities)
    requires Ordered(levels, p)
    ensures Ordered(InsertLevels(levels, t, p), p)
  {
    if levels == [] {
    } else if PrioOf(p, t) > PrioOf(p, levels[0].head) {
      assert ([Level(t, [])] + levels)[1..] == levels;
      assert forall u :: u in Threads(levels[0]) ==> PrioOf(p, u) == PrioOf(p, levels[0].head);
    } else if PrioOf(p, t) < PrioOf(p, levels[0].head) {
      InsertKeepsLevels(levels[1..], t, p);
      InsertRefines(levels[1..], t, p);
      InsertFlatMembers(Flat(levels[1..]), t, p);
    }
  }

  /** The level that is left when its head leaves: the first follower moves up, if there is one. */
  function Promote(l: Level): seq<Level> {
    if l.followers == [] then [] else [Level(l.followers[0], l.followers[1..])]
  }

  function Leave(l: Level, t: Tid): seq<Level> {
    if l.head == t then Promote(l) else [Level(l.head, Without(l.followers, t))]
  }

  function RemoveLevels(levels: seq<Level>, t: Tid): seq<Level> {
    if levels == [] then []
    else if t in Threads(levels[0]) then Leave(levels[0], t) + levels[1..]
    else [levels[0]] + RemoveLevels(levels[1..], t)
  }

  lemma LeaveIs(l: Level, t: Tid, rest: seq<Level>)
    requires t in Threads(l)
    ensures Flat(Leave(l, t) + rest) == Without(Threads(l), t) + Flat(rest)
  {
    if Leave(l, t) == [] {
      assert Leave(l, t) + rest == rest;
    } else {
      assert (Leave(l, t) + rest)[1..] == rest;
    }
  }

  /** The removal of any thread is the flat one. */
  lemma {:induction false} RemoveRefines(levels: seq<Level>, t: Tid)
    ensures Flat(RemoveLevels(levels, t)) == Without(Flat(levels), t)
  {
    if levels != [] {
      if t in Threads(levels[0]) {
        WithoutFinds(Threads(levels[0]), Flat(levels[1..]), t);
        LeaveIs(levels[0], t, levels[1..]);
      } else {
        WithoutSkips(Threads(levels[0]), Flat(levels[1..]), t);
        RemoveRefines(levels[1..], t);
      }
    }
  }

  /** Priorities are the same, except perhaps for t. */
  ghost predicate SameBut(p: Priorities, p': Priorities, t: Tid) {
    forall u :: u != t ==> PrioOf(p, u) == PrioOf(p', u)
  }

  lemma {:induction false} OrderedFrame(levels: seq<Level>, p: Priorities, p': Priorities, t: Tid)
    requires Ordered(levels, p) && SameBut(p, p', t) && t !in Flat(levels)
    ensures Ordered(levels, p')
  {
    if levels != [] {
      assert forall u :: u in Threads(levels[0]) ==> u in Flat(levels);
      assert forall u :: u in levels[0].followers ==> u in Threads(levels[0]);
      assert levels[0].head in Threads(levels[0]);
      OrderedFrame(levels[1..], p, p', t);
    }
  }

  /** Taking a thread out keeps the order, even when its own priority has just changed. */
  lemma {:induction false} RemoveKeepsLevels(levels: seq<Level>, t: Tid, p: Priorities, p': Priorities)
    requires Ordered(levels, p) && Distinct(Flat(levels)) && SameBut(p, p', t) && t in Flat(levels)
    ensures Ordered(RemoveLevels(levels, t), p')
  {
    var l, rest := levels[0], levels[1..];
    DistinctParts(Threads(l), Flat(rest));
    if t in Threads(l) {
      OrderedFrame(rest, p, p', t);
      LeaveKeepsLevel(l, t, p, p', rest);
    } else {
      assert l.head in Threads(l) && forall u :: u in l.followers ==> u in Threads(l);
      RemoveKeepsLevels(rest, t, p, p');
      RemoveRefines(rest, t);
      WithoutMembers(Flat(rest), t);
    }
  }

  lemma DistinctParts(a: seq<Tid>, b: seq<Tid>)
    requires Distinct(a + b)
    ensures Distinct(a) && Distinct(b) && forall u :: u in a ==> u !in b
  {
    assert forall i :: 0 <= i < |a| ==> (a + b)[i] == a[i];
    assert forall i :: 0 <= i < |b| ==> (a + b)[|a| + i] == b[i];
  }

  lemma {:induction false} LeaveKeepsLevel(l: Level, t: Tid, p: Priorities, p': Priorities, rest: seq<Level>)
    requires Ordered([l] + rest, p) && Ordered(rest, p') && SameBut(p, p', t)
    requires t in Threads(l) && Distinct(Threads(l)) && t !in Flat(rest)
    ensures Ordered(Leave(l, t) + rest, p')
  {
    assert ([l] + rest)[1..] == rest;
    DistinctParts([l.head], l.followers);
    if l.head == t {
      if l.followers == [] {
        assert Leave(l, t) + rest == rest;
      } else {
        assert l.followers[0] in l.followers;
        assert (Promote(l) + rest)[1..] == rest;
      }
    } else {
      WithoutMembers(l.followers, t);
      assert (Leave(l, t) + rest)[1..] == rest;
    }
  }

  /** Where the walk of an insertion stops. */
  lemma {:induction false} InsertWalk(levels: seq<Level>, i: nat, t: Tid, p: Priorities)
    requires i <= |levels| && forall j :: 0 <= j < i ==> PrioOf(p, t) < PrioOf(p, levels[j].head)
    ensures InsertLevels(levels, t, p) == levels[..i] + InsertLevels(levels[i..], t, p)
  {
    if i > 0 {
      InsertWalk(levels[1..], i - 1, t, p);
      assert levels[1..][..i - 1] == levels[1..i] && levels[1..][i - 1..] == levels[i..];
      assert levels[..i] == [levels[0]] + levels[1..i];
    } else {
      assert levels[..0] == [] && levels[0..] == levels;
    }
  }

  lemma InsertAt(levels: seq<Level>, i: nat, t: Tid, p: Priorities)
    requires i <= |levels| && forall j :: 0 <= j < i ==> PrioOf(p, t) < PrioOf(p, levels[j].head)
    requires i < |levels| ==> PrioOf(p, t) >= PrioOf(p, levels[i].head)
    ensures InsertLevels(levels, t, p) ==
            if i == |levels| || PrioOf(p, t) > PrioOf(p, levels[i].head) then levels[..i] + [Level(t, [])] + levels[i..]
            else levels[..i] + [Level(levels[i].head, levels[i].followers + [t])] + levels[i + 1..]
  {
    InsertWalk(levels, i, t, p);
    if i < |levels| { assert levels[i..][1..] == levels[i + 1..]; }
  }

  /** An insertion keeps the structure and makes the queue one longer. */
  lemma InsertLaw(levels: seq<Level>, t: Tid, p: Priorities)
    requires Ordered(levels, p) && Distinct(Flat(levels)) && t !in Flat(levels)
    ensures var r := InsertLevels(levels, t, p);
            && Ordered(r, p) && Flat(r) == InsertFlat(Flat(levels), t, p)
            && Distinct(Flat(r)) && |Flat(r)| == |Flat(levels)| + 1
  {
    InsertRefines(levels, t, p);
    InsertKeepsLevels(levels, t, p);
    InsertFlatMembers(Flat(levels), t, p);
  }

  /** So does a removal, which makes it one shorter. */
  lemma RemoveLaw(levels: seq<Level>, t: Tid, p: Priorities, p': Priorities)
    requires Ordered(levels, p) && Distinct(Flat(levels)) && SameBut(p, p', t) && t in Flat(levels)
    ensures var r := RemoveLevels(levels, t);
            && Ordered(r, p') && Distinct(Flat(r)) && |Flat(r)| == |Flat(levels)| - 1
            && (forall u :: u in Flat(r) <==> u in Flat(levels) && u != t)
  {
    RemoveKeepsLevels(levels, t, p, p');
    RemoveRefines(levels, t);
    WithoutMembers(Flat(levels), t);
  }

  /** Where the removed thread stands. */
  lemma {:induction false} RemoveAt(levels: seq<Level>, i: nat, t: Tid)
    requires i < |levels| && t in Threads(levels[i])
    requires forall j :: 0 <= j < i ==> t !in Threads(levels[j])
    ensures RemoveLevels(levels, t) == levels[..i] + Leave(levels[i], t) + levels[i + 1..]
  {
    if i > 0 {
      RemoveAt(levels[1..], i - 1, t);
      assert levels[1..][..i - 1] == levels[1..i] && levels[1..][i..] == levels[i + 1..];
      assert levels[..i] == [levels[0]] + levels[1..i];
    } else {
      assert levels[..0] == [];
    }
  }

  lemma {:induction false} OnSomeLevel(levels: seq<Level>, t: Tid)
    requires t in Flat(levels)
    ensures exists i :: 0 <= i < |levels| && t in Threads(levels[i])
  {
    if t !in Threads(levels[0]) {
      OnSomeLevel(levels[1..], t);
      var i :| 0 <= i < |levels[1..]| && t in Threads(levels[1..][i]);
      assert levels[1..][i] == levels[i + 1];
    }
  }

  datatype Unblocked = Ok | BadState

  /** The wait queue with the fields of the threads that it governs: their effective priorities,
      whether they are blocked on it, and the status each will return. */
  class WaitQueue {
    var levels: seq<Level>
    var count: int
    var prio: Priorities
    var blocked: set<Tid>
    var blockedStatus: map<Tid, int>

    ghost function Queue(): seq<Tid>
      reads this
    {
      Flat(levels)
    }

    /** The list structure, with a count that a caller may be about to adjust. */
    ghost predicate Listed(n: int)
      reads this
    {
      Ordered(levels, prio) && Distinct(Queue()) && |Queue()| == n
    }

    ghost predicate Valid()
      reads this
    {
      Listed(count) && forall t :: t in blocked <==> t in Queue()
    }

    constructor (prio: Priorities, status: map<Tid, int>)
      ensures Valid() && Queue() == [] && this.prio == prio && blockedStatus == status
    {
      levels, count, blocked := [], 0, {};
      this.prio, blockedStatus := prio, status;
    }

    /** The first head of no higher priority, walking the heads from the front. */
    method FindPlace(t: Tid) returns (i: nat)
      ensures i <= |levels| && forall j :: 0 <= j < i ==> PrioOf(prio, t) < PrioOf(prio, levels[j].head)
      ensures i < |levels| ==> PrioOf(prio, t) >= PrioOf(prio, levels[i].head)
    {
      i := 0;
      while i < |levels| && PrioOf(prio, t) < PrioOf(prio, levels[i].head)
        invariant i <= |levels|
        invariant forall j :: 0 <= j < i ==> PrioOf(prio, t) < PrioOf(prio, levels[j].head)
      {
        i := i + 1;
      }
    }

    method Insert(t: Tid)
      requires Listed(|Queue()|) && t !in Queue()
      modifies this`levels
      ensures Listed(old(|Queue()|) + 1)
      ensures Queue() == InsertFlat(old(Queue()), t, prio)
    {
      var i := FindPlace(t);
      InsertAt(levels, i, t, prio);
      InsertLaw(levels, t, prio);
      if i == |levels| || PrioOf(prio, t) > PrioOf(prio, levels[i].head) {
        levels := levels[..i] + [Level(t, [])] + levels[i..];
      } else {
        var l := levels[i];
        levels := levels[..i] + [Level(l.head, l.followers + [t])] + levels[i + 1..];
      }
    }

    /** The head of level i leaves; the next thread of its priority takes its place. */
    method RemoveQueueHead(i: nat)
      requires i < |levels|
      requires forall j :: 0 <= j < i ==> levels[i].head !in Threads(levels[j])
      modifies this`levels
      ensures levels == RemoveLevels(old(levels), old(levels[i].head))
      ensures Queue() == Without(old(Queue()), old(levels[i].head))
    {
      var l := levels[i];
      RemoveAt(levels, i, l.head);
      RemoveRefines(levels, l.head);
      if l.followers == [] {
        assert levels[..i] + [] + levels[i + 1..] == levels[..i] + levels[i + 1..];
        levels := levels[..i] + levels[i + 1..];
      } else {
        levels := levels[..i] + [Level(l.followers[0], l.followers[1..])] + levels[i + 1..];
      }
    }

    /** The level on which a queued thread stands. */
    method Locate(t: Tid) returns (i: nat)
      requires t in Queue()
      ensures i < |levels| && t in Threads(levels[i])
      ensures forall j :: 0 <= j < i ==> t !in Threads(levels[j])
    {
      OnSomeLevel(levels, t);
      i := 0;
      while t !in Threads(levels[i])
        invariant i < |levels| && forall j :: 0 <= j < i ==> t !in Threads(levels[j])
        decreases |levels| - i
      {
        i := i + 1;
      }
    }

    method RemoveThread(t: Tid)
      requires t in Queue()
      modifies this`levels
      ensures levels == RemoveLevels(old(levels), t) && Queue() == Without(old(Queue()), t)
    {
      var i := Locate(t);
      var l := levels[i];
      if l.head != t {
        RemoveAt(levels, i, t);
        RemoveRefines(levels, t);
        levels := levels[..i] + [Level(l.head, Without(l.followers, t))] + levels[i + 1..];
      } else {
        RemoveQueueHead(i);
      }
    }

    /** The first thread of the highest priority leaves. */
    method PopHead() returns (t: Tid)
      requires Listed(count) && levels != []
      modifies this`levels
      ensures old(Queue()) == [t] + Queue() && Listed(count - 1)
    {
      t := levels[0].head;
      assert t in Threads(levels[0]);
      RemoveLaw(levels, t, prio, prio);
      RemoveQueueHead(0);
      assert Queue() == old(Queue())[1..];
    }

    /** The numeric priority of the first thread, or -1. */
    method BlockedPriority() returns (pri: int)
      requires Valid()
      ensures Queue() == [] ==> pri == -1
      ensures Queue() != [] ==> pri == PrioOf(prio, Queue()[0])
      ensures forall t :: t in Queue() ==> PrioOf(prio, t) <= pri
    {
      OrderedByPriority(levels, prio);
      if levels == [] { return -1; }
      pri := PrioOf(prio, levels[0].head);
    }

    /** The queue part of blocking; the early returns leave everything alone. */
    method Block(t: Tid, expired: bool, interrupted: bool) returns (queued: bool)
      requires Valid() && t !in blocked
      modifies this
      ensures Valid() && prio == old(prio)
      ensures queued <==> !expired && !interrupted
      ensures queued ==>
                && Queue() == InsertFlat(old(Queue()), t, prio)
                && blocked == old(blocked) + {t} && blockedStatus == old(blockedStatus)[t := 0]
      ensures !queued ==> unchanged(this)
    {
      queued := false;
      if expired || interrupted { return; }
      InsertFlatMembers(Queue(), t, prio);
      Insert(t);
      count := count + 1;
      blocked := blocked + {t};
      blockedStatus := blockedStatus[t := 0];
      queued := true;
    }

    /** Wake one: the first thread, if there is one, with the given status. */
    method DequeueOne(error: int) returns (woken: seq<Tid>)
      requires Valid()
      modifies this
      ensures Valid() && prio == old(prio)
      ensures old(Queue()) == woken + Queue() && |woken| == if old(count) == 0 then 0 else 1
      ensures blocked == old(blocked) - (set t | t in woken)
      ensures forall t :: t in woken ==> t in blockedStatus && blockedStatus[t] == error
      ensures forall t :: t !in woken ==>
                (t in blockedStatus <==> t in old(blockedStatus))
                && (t in blockedStatus ==> blockedStatus[t] == old(blockedStatus)[t])
    {
      woken := [];
      if levels == [] { return; }
      var t := PopHead();
      DistinctParts([t], Queue());
      count := count - 1;
      blocked := blocked - {t};
      blockedStatus := blockedStatus[t := error];
      woken := [t];
    }

    /** Wake all: every thread, in queue order, each once, with the given status. */
    method WakeAll(error: int) returns (woken: seq<Tid>)
      requires Valid()
      modifies this
      ensures Valid() && prio == old(prio)
      ensures woken == old(Queue()) && Queue() == [] && count == 0 && blocked == {}
      ensures forall t :: t in woken ==> t in blockedStatus && blockedStatus[t] == error
      ensures forall t :: t !in woken ==>
                (t in blockedStatus <==> t in old(blockedStatus))
                && (t in blockedStatus ==> blockedStatus[t] == old(blockedStatus)[t])
    {
      woken := [];
      if count == 0 { return; }
      while levels != []
        invariant Valid() && prio == old(prio)
        invariant old(Queue()) == woken + Queue()
        invariant forall t :: t in woken ==> t in blockedStatus && blockedStatus[t] == error
        invariant forall t :: t !in woken ==>
                    (t in blockedStatus <==> t in old(blockedStatus))
                    && (t in blockedStatus ==> blockedStatus[t] == old(blockedStatus)[t])
        decreases |Queue()|
      {
        var one := DequeueOne(error);
        woken := woken + one;
      }
    }

    /** One particular thread is woken, if it is blocked at all. */
    method UnblockThread(t: Tid, error: int) returns (r: Unblocked)
      requires Valid()
      modifies this
      ensures Valid() && prio == old(prio)
      ensures r == Ok <==> old(t in blocked)
      ensures r == Ok ==>
                && Queue() == Without(old(Queue()), t) && blocked == old(blocked) - {t}
                && blockedStatus == old(blockedStatus)[t := error]
      ensures r != Ok ==> unchanged(this)
    {
      if t !in blocked { return BadState; }
      RemoveLaw(levels, t, prio, prio);
      RemoveThread(t);
      count := count - 1;
      blocked := blocked - {t};
      blockedStatus := blockedStatus[t := error];
      return Ok;
    }

    /** A blocked thread whose priority changes is queued behind all others of its new
        priority, the others keeping their order. */
    method PriorityChanged(t: Tid, pri: int)
      requires Valid() && t in blocked
      modifies this
      ensures Valid() && prio == old(prio)[t := pri]
      ensures Queue() == InsertFlat(Without(old(Queue()), t), t, prio)
      ensures blocked == old(blocked) && count == old(count) && blockedStatus == old(blockedStatus)
    {
      var p' := prio[t := pri];
      RemoveLaw(levels, t, prio, p');
      RemoveRefines(levels, t);
      InsertFlatMembers(Without(Queue(), t), t, p');
      prio := p';
      RemoveThread(t);
      Insert(t);
    }
  }
}
