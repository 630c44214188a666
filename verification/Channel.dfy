/** The two endpoints of a channel and the calls on them, in every interleaving. One step is one
    section under the lock that the endpoints share. */
module ChannelProtocol {
  import opened Lists
  import Runs

  const TWO32: nat := 0x1_0000_0000
  const TOP_BIT: nat := 0x8000_0000

  type Tid = nat
  datatype Msg = Msg(id: nat, txid: nat)

  /** The candidate for a counter value: the value with its top bit set. */
  function Candidate(counter: nat): nat {
    TOP_BIT + counter % TOP_BIT
  }

  /** What Call() needs of a transaction id: reserved for the kernel, and not in use. */
  ghost predicate IsFresh(txid: nat, used: set<nat>) {
    TOP_BIT <= txid < TWO32 && txid !in used
  }

  function Nth(counter: nat, n: nat): nat {
    Candidate(counter + n)
  }

  /** The first n candidates after a counter value are different, up to 2^31 of them. */
  lemma {:induction false} TriedAreDifferent(counter: nat, n: nat, used: set<nat>)
    requires n <= TOP_BIT && forall j :: 1 <= j <= n ==> Nth(counter, j) in used
    ensures n <= |used|
  {
    if n > 0 {
      var rest := used - {Nth(counter, n)};
      forall j | 1 <= j <= n - 1 ensures Nth(counter, j) in rest {
        DifferentCandidates(counter + j, counter + n);
      }
      TriedAreDifferent(counter, n - 1, rest);
    }
  }

  lemma DifferentCandidates(a: nat, b: nat)
    requires a < b < a + TOP_BIT
    ensures Candidate(a) != Candidate(b)
  {
  }

  lemma BumpedCounter(b: nat, n: nat)
    ensures (b % TWO32 + n) % TWO32 == (b + n) % TWO32
  {
    var q, x := b / TWO32, b % TWO32 + n;
    var d, y := x / TWO32, x % TWO32;
    assert b + n == (q + d) * TWO32 + y;
  }

  lemma BumpedCandidate(b: nat, n: nat)
    ensures Candidate(b % TWO32 + n) == Candidate(b + n)
  {
    var q, x := b / TWO32, b % TWO32 + n;
    var d, y := x / TOP_BIT, x % TOP_BIT;
    assert b + n == (2 * q + d) * TOP_BIT + y;
  }

  /** The wrap of the 32-bit counter does not disturb the candidates. */
  lemma WrappedCandidate(x: nat)
    ensures Candidate(x % TWO32) == Candidate(x)
    ensures (x % TWO32 + 1) % TWO32 == (x + 1) % TWO32
  {
    BumpedCandidate(x, 0);
    BumpedCounter(x, 1);
  }

  /** alloc_txid: bumps the 32-bit counter until the candidate is not in use, and takes the first
      such candidate. It ends because 2^31 candidates in a row are all different. */
  method AllocTxid(counter: nat, used: set<nat>) returns (txid: nat, counter': nat, ghost n: nat)
    requires counter < TWO32 && |used| < TOP_BIT
    ensures IsFresh(txid, used) && txid == Candidate(counter') == Nth(counter, n)
    ensures n <= |used| + 1 && counter' == (counter + n) % TWO32 && Allocates(counter, n, used)
  {
    n := 1;
    counter' := (counter + 1) % TWO32;
    txid := Candidate(counter');
    WrappedCandidate(counter + n);
    while txid in used
      invariant counter' == (counter + n) % TWO32 && txid == Candidate(counter') == Nth(counter, n)
      invariant 1 <= n <= |used| + 1
      invariant forall j :: 1 <= j < n ==> Nth(counter, j) in used
      decreases |used| + 1 - n
    {
      TriedAreDifferent(counter, n, used);
      WrappedCandidate(counter + n);
      n := n + 1;
      WrappedCandidate(counter + n);
      counter' := (counter' + 1) % TWO32;
      txid := Candidate(counter');
    }
  }

  datatype Status = TimedOut | Delivered | Canceled | PeerClosed

  /** Where a thread is in Call(): not in it, in MessageWaiter::Wait(), returned to user mode by a
      suspend, or back from the wait and about to lock the channel. */
  datatype Phase = Outside | Waiting | Suspended | Finishing

  /** A thread's MessageWaiter, and the history of its call: its number in its endpoint's count of
      transaction ids, the length of the endpoint's log when it began, and the place in the log of the
      message that was delivered to it. */
  datatype Call = Call(phase: Phase, ep: bool, txid: nat, status: Status, msg: Option<Msg>,
                       serial: nat, start: nat, got: nat)

  /** A message written to an endpoint, and the waiting call that it went to, if any. */
  datatype Event = Event(msg: Msg, to: Option<Tid>)

  /** A message that left a call: returned by it, or lost with a thread that died while suspended. */
  datatype Receipt = Receipt(at: nat, t: Tid, msg: Msg, returned: bool)

  datatype Endpoint = Endpoint(
    messages: seq<Msg>, count: nat, readable: bool,
    waiters: seq<Tid>,
    txid: nat,
    peer: bool,                     // peer_ is set
    bumps: nat,                     // history: increments of txid
    taken: seq<Msg>,                // history: messages taken by Read(), in order
    log: seq<Event>,                // history: messages written, in order
    receipts: multiset<Receipt>)    // history: messages that left their calls

  datatype State = State(left: Endpoint, right: Endpoint, calls: map<Tid, Call>)

  datatype Step =
    | Write(e: bool, msg: Msg)
    | BeginCall(t: Tid, e: bool, id: nat, n: nat)      // n increments until the transaction id is free
    | Suspend(t: Tid) | Resume(t: Tid) | WaitReturns(t: Tid)
    | EndCall(t: Tid)
    | Abandon(t: Tid)                                   // the thread dies while suspended
    | Read(e: bool, fits: bool, mayDiscard: bool)
    | Close(e: bool)

  const NO_CALL := Call(Outside, false, 0, TimedOut, None, 0, 0, 0)

  function CallOf(s: State, t: Tid): Call {
    if t in s.calls then s.calls[t] else NO_CALL
  }

  const NEW_ENDPOINT := Endpoint([], 0, false, [], 0, true, 0, [], [], multiset{})

  function Ep(s: State, e: bool): Endpoint {
    if e then s.right else s.left
  }

  function With(s: State, e: bool, ep: Endpoint): State {
    if e then s.(right := ep) else s.(left := ep)
  }

  function WithCall(s: State, t: Tid, c: Call): State {
    s.(calls := s.calls[t := c])
  }

  /** The index of the first waiter with this transaction id, or |ts|. */
  function Find(s: State, ts: seq<Tid>, txid: nat): nat {
    if ts == [] || CallOf(s, ts[0]).txid == txid then 0 else 1 + Find(s, ts[1..], txid)
  }

  function Remove(ts: seq<Tid>, i: nat): seq<Tid>
    requires i < |ts|
  {
    ts[..i] + ts[i + 1..]
  }

  function Deliver(s: State, e: bool, msg: Msg, i: nat): State
    requires i < |Ep(s, e).waiters|
  {
    var ep := Ep(s, e);
    var t := ep.waiters[i];
    WithCall(With(s, e, ep.(waiters := Remove(ep.waiters, i), log := ep.log + [Event(msg, Some(t))])),
             t, CallOf(s, t).(status := Delivered, msg := Some(msg), got := |ep.log|))
  }

  function Enqueue(s: State, e: bool, msg: Msg): State {
    var ep := Ep(s, e);
    With(s, e, ep.(messages := ep.messages + [msg], count := ep.count + 1, readable := true,
                   log := ep.log + [Event(msg, None)]))
  }

  /** WriteSelf(): to the waiting call with the message's transaction id, else to the queue. */
  function WriteSelf(s: State, e: bool, msg: Msg): State {
    var i := Find(s, Ep(s, e).waiters, msg.txid);
    if i < |Ep(s, e).waiters| then Deliver(s, e, msg, i) else Enqueue(s, e, msg)
  }

  /** Cancels every waiting call of an endpoint. */
  function CancelAll(s: State, e: bool, status: Status): State {
    var ep := Ep(s, e);
    With(s, e, ep.(waiters := [], peer := false))
      .(calls := s.calls + map t | t in ep.waiters :: CallOf(s, t).(status := status))
  }

  /** Call() up to the point where its waiter is on the list. */
  function AddWaiter(s: State, t: Tid, e: bool, n: nat): State {
    var ep := Ep(s, e);
    WithCall(With(s, e, ep.(waiters := ep.waiters + [t], txid := (ep.txid + n) % TWO32, bumps := ep.bumps + n)),
             t, Call(Waiting, e, Nth(ep.txid, n), TimedOut, None, ep.bumps + n, |ep.log|, 0))
  }

  ghost function UsedTxids(s: State, e: bool): set<nat> {
    set t | t in Ep(s, e).waiters :: CallOf(s, t).txid
  }

  /** n increments give the first transaction id that is not in use. */
  ghost predicate Allocates(counter: nat, n: nat, used: set<nat>) {
    n > 0 && Nth(counter, n) !in used && forall j :: 1 <= j < n ==> Nth(counter, j) in used
  }

  /** The waiter is off the list if it was still on it, and empty; a delivered message is returned or
      lost. */
  function Leave(s: State, t: Tid, returned: bool): State {
    var c := CallOf(s, t);
    var ep := Ep(s, c.ep);
    var ep' := match c.status
               case TimedOut => ep.(waiters := Without(ep.waiters, t))
               case Delivered =>
                 if c.msg.Some? then ep.(receipts := ep.receipts + multiset{Receipt(c.got, t, c.msg.value, returned)}) else ep
               case _ => ep;
    WithCall(With(s, c.ep, ep'), t, c.(phase := Outside, msg := None))
  }

  ghost predicate Enabled(s: State, step: Step) {
    match step
    case Write(e, _) => Ep(s, e).peer
    case BeginCall(t, e, _, n) => CallOf(s, t).phase == Outside && Ep(s, e).peer && Allocates(Ep(s, e).txid, n, UsedTxids(s, e))
    case Suspend(t) => CallOf(s, t).phase == Waiting
    case Resume(t) => CallOf(s, t).phase == Suspended
    case WaitReturns(t) => CallOf(s, t).phase == Waiting
    case EndCall(t) => CallOf(s, t).phase == Finishing
    case Abandon(t) => CallOf(s, t).phase == Suspended
    case Read(e, fits, mayDiscard) => Ep(s, e).messages != [] && (fits || mayDiscard)
    case Close(e) => true
  }

  ghost function Apply(s: State, step: Step): State
    requires Enabled(s, step)
  {
    match step
    case Write(e, msg) => WriteSelf(s, !e, msg)
    case BeginCall(t, e, id, n) => WriteSelf(AddWaiter(s, t, e, n), !e, Msg(id, Nth(Ep(s, e).txid, n)))
    case Suspend(t) => WithCall(s, t, CallOf(s, t).(phase := Suspended))
    case Resume(t) => WithCall(s, t, CallOf(s, t).(phase := Waiting))
    case WaitReturns(t) => WithCall(s, t, CallOf(s, t).(phase := Finishing))
    case EndCall(t) => Leave(s, t, true)
    case Abandon(t) => Leave(s, t, false)
    case Read(e, _, _) =>
      var ep := Ep(s, e);
      With(s, e, ep.(messages := ep.messages[1..], count := if ep.count > 0 then ep.count - 1 else 0,
                     readable := ep.messages[1..] != [], taken := ep.taken + [ep.messages[0]]))
    case Close(e) =>
      if Ep(s, e).peer then CancelAll(CancelAll(s, e, Canceled), !e, PeerClosed) else CancelAll(s, e, Canceled)
  }

  ghost predicate Init(s: State) {
    s == State(NEW_ENDPOINT, NEW_ENDPOINT, map[])
  }

  ghost predicate Next(s: State, s': State) {
    exists step :: Enabled(s, step) && s' == Apply(s, step)
  }

  // ---------- the invariant ----------

  /** The messages that were queued rather than delivered, in the order of the log. */
  function Kept(log: seq<Event>): seq<Msg> {
    if log == [] then []
    else Kept(log[..|log| - 1]) + if log[|log| - 1].to == None then [log[|log| - 1].msg] else []
  }

  /** No message with this transaction id has been written since log index `start`. */
  ghost predicate NoneSince(log: seq<Event>, start: nat, txid: nat) {
    start <= |log| && forall i :: start <= i < |log| ==> log[i].msg.txid != txid
  }

  /** The first message since `start` with this transaction id is the one at `i`, and went to call t. */
  ghost predicate FirstAt(log: seq<Event>, start: nat, i: nat, txid: nat, msg: Msg, t: Tid) {
    start <= i < |log| && log[i] == Event(msg, Some(t)) && msg.txid == txid && NoneSince(log[..i], start, txid)
  }

  ghost predicate DistinctTxids(s: State, ts: seq<Tid>) {
    forall i, j :: 0 <= i < j < |ts| ==> CallOf(s, ts[i]).txid != CallOf(s, ts[j]).txid
  }

  /** An endpoint by itself. */
  ghost predicate QueueOk(ep: Endpoint) {
    && (ep.readable <==> ep.messages != [])
    && ep.count == |ep.messages|
    && Kept(ep.log) == ep.taken + ep.messages
    && (!ep.peer ==> ep.waiters == [])
    && ep.txid == ep.bumps % TWO32
  }

  ghost predicate EpInv(s: State, e: bool) {
    QueueOk(Ep(s, e)) && DistinctTxids(s, Ep(s, e).waiters) && Ep(s, e).peer == Ep(s, !e).peer
  }

  ghost predicate CallInv(s: State, t: Tid) {
    var c := CallOf(s, t);
    && t !in Ep(s, !c.ep).waiters
    && (t in Ep(s, c.ep).waiters <==> c.phase != Outside && c.status == TimedOut)
    && (c.phase != Outside ==>
          && c.txid == Candidate(c.serial)
          && match c.status
             case TimedOut => c.msg == None && NoneSince(Ep(s, c.ep).log, c.start, c.txid)
             case Delivered => c.msg.Some? && FirstAt(Ep(s, c.ep).log, c.start, c.got, c.txid, c.msg.value, t)
             case _ => c.msg == None && !Ep(s, c.ep).peer)
  }

  ghost predicate Inv(s: State) {
    && EpInv(s, false) && EpInv(s, true)
    && forall t :: CallInv(s, t)
  }

  // ---------- every step keeps it ----------

  lemma {:induction false} FindIs(s: State, ts: seq<Tid>, txid: nat)
    ensures var i := Find(s, ts, txid);
            && i <= |ts|
            && (i < |ts| ==> CallOf(s, ts[i]).txid == txid)
            && forall j :: 0 <= j < i ==> CallOf(s, ts[j]).txid != txid
  {
    if ts != [] && CallOf(s, ts[0]).txid != txid {
      FindIs(s, ts[1..], txid);
      var i := Find(s, ts, txid);
      forall j | 0 <= j < i ensures CallOf(s, ts[j]).txid != txid {
        if j > 0 { assert ts[j] == ts[1..][j - 1]; }
      }
    }
  }

  lemma FirstGrows(log: seq<Event>, ev: Event, start: nat, i: nat, txid: nat, msg: Msg, t: Tid)
    requires FirstAt(log, start, i, txid, msg, t)
    ensures FirstAt(log + [ev], start, i, txid, msg, t)
  {
    assert (log + [ev])[..i] == log[..i];
  }

  lemma BecomesFirst(log: seq<Event>, start: nat, txid: nat, msg: Msg, t: Tid)
    requires NoneSince(log, start, txid) && msg.txid == txid
    ensures FirstAt(log + [Event(msg, Some(t))], start, |log|, txid, msg, t)
  {
    assert (log + [Event(msg, Some(t))])[..|log|] == log;
  }

  lemma KeptGrows(log: seq<Event>, ev: Event)
    ensures Kept(log + [ev]) == Kept(log) + if ev.to == None then [ev.msg] else []
  {
    assert (log + [ev])[..|log|] == log;
  }

  lemma RemoveMembers(ts: seq<Tid>, i: nat, t: Tid)
    requires i < |ts| && forall k :: 0 <= k < |ts| && k != i ==> ts[k] != ts[i]
    ensures t in Remove(ts, i) <==> t in ts && t != ts[i]
  {
    assert ts == ts[..i] + [ts[i]] + ts[i + 1..];
  }

  lemma DeliverKeepsCall(s: State, e: bool, msg: Msg, i: nat, t: Tid)
    requires EpInv(s, e) && CallInv(s, t) && i < |Ep(s, e).waiters| && CallInv(s, Ep(s, e).waiters[i])
    requires CallOf(s, Ep(s, e).waiters[i]).txid == msg.txid
    ensures CallInv(Deliver(s, e, msg, i), t)
  {
    var ep, c := Ep(s, e), CallOf(s, t);
    RemoveMembers(ep.waiters, i, t);
    if c.ep == e && c.phase != Outside && c.status == Delivered {
      FirstGrows(ep.log, Event(msg, Some(ep.waiters[i])), c.start, c.got, c.txid, c.msg.value, t);
    }
    if t == ep.waiters[i] {
      BecomesFirst(ep.log, c.start, c.txid, msg, t);
    } else if t in ep.waiters {
      var k :| 0 <= k < |ep.waiters| && ep.waiters[k] == t;
      assert c.txid != msg.txid;
    }
  }

  lemma EnqueueKeepsCall(s: State, e: bool, msg: Msg, t: Tid)
    requires CallInv(s, t)
    requires forall k :: 0 <= k < |Ep(s, e).waiters| ==> CallOf(s, Ep(s, e).waiters[k]).txid != msg.txid
    ensures CallInv(Enqueue(s, e, msg), t)
  {
    var ep, c := Ep(s, e), CallOf(s, t);
    if c.ep == e && c.phase != Outside && c.status == Delivered {
      FirstGrows(ep.log, Event(msg, None), c.start, c.got, c.txid, c.msg.value, t);
    }
    if t in ep.waiters {
      var k :| 0 <= k < |ep.waiters| && ep.waiters[k] == t;
      assert c.txid != msg.txid;
    }
  }

  lemma SameTxids(s: State, s': State, ts: seq<Tid>, i: nat)
    requires DistinctTxids(s, ts) && forall t :: t in ts ==> CallOf(s', t).txid == CallOf(s, t).txid
    ensures DistinctTxids(s', ts)
    ensures i < |ts| ==> DistinctTxids(s', Remove(ts, i))
  {
    if i < |ts| {
      var r := Remove(ts, i);
      forall j, k | 0 <= j < k < |r| ensures CallOf(s', r[j]).txid != CallOf(s', r[k]).txid {
        assert r[j] == ts[if j < i then j else j + 1] && r[k] == ts[if k < i then k else k + 1];
      }
    }
  }

  lemma DeliverQueue(ep: Endpoint, msg: Msg, i: nat)
    requires QueueOk(ep) && i < |ep.waiters|
    ensures QueueOk(ep.(waiters := Remove(ep.waiters, i), log := ep.log + [Event(msg, Some(ep.waiters[i]))]))
  {
    KeptGrows(ep.log, Event(msg, Some(ep.waiters[i])));
  }

  lemma EnqueueQueue(ep: Endpoint, msg: Msg)
    requires QueueOk(ep)
    ensures QueueOk(ep.(messages := ep.messages + [msg], count := ep.count + 1, readable := true, log := ep.log + [Event(msg, None)]))
  {
    KeptGrows(ep.log, Event(msg, None));
    assert ep.taken + (ep.messages + [msg]) == ep.taken + ep.messages + [msg];
  }

  lemma DeliverKeepsEp(s: State, e: bool, msg: Msg, i: nat, f: bool)
    requires EpInv(s, false) && EpInv(s, true) && i < |Ep(s, e).waiters|
    ensures EpInv(Deliver(s, e, msg, i), f)
  {
    DeliverQueue(Ep(s, e), msg, i);
    SameTxids(s, Deliver(s, e, msg, i), Ep(s, f).waiters, i);
  }

  lemma EnqueueKeepsEp(s: State, e: bool, msg: Msg, f: bool)
    requires EpInv(s, false) && EpInv(s, true)
    ensures EpInv(Enqueue(s, e, msg), f)
  {
    EnqueueQueue(Ep(s, e), msg);
    SameTxids(s, Enqueue(s, e, msg), Ep(s, f).waiters, |Ep(s, f).waiters|);
  }

  lemma WriteSelfKeepsInv(s: State, e: bool, msg: Msg)
    requires Inv(s)
    ensures Inv(WriteSelf(s, e, msg))
  {
    var ep := Ep(s, e);
    var i := Find(s, ep.waiters, msg.txid);
    FindIs(s, ep.waiters, msg.txid);
    if i < |ep.waiters| {
      DeliverKeepsEp(s, e, msg, i, false);
      DeliverKeepsEp(s, e, msg, i, true);
      assert CallInv(s, ep.waiters[i]);
      forall t ensures CallInv(Deliver(s, e, msg, i), t) {
        assert CallInv(s, t);
        DeliverKeepsCall(s, e, msg, i, t);
      }
    } else {
      EnqueueKeepsEp(s, e, msg, false);
      EnqueueKeepsEp(s, e, msg, true);
      forall t ensures CallInv(Enqueue(s, e, msg), t) {
        assert CallInv(s, t);
        EnqueueKeepsCall(s, e, msg, t);
      }
    }
  }

  lemma AddedTxids(s: State, t: Tid, e: bool, n: nat)
    requires Inv(s) && CallOf(s, t).phase == Outside && Allocates(Ep(s, e).txid, n, UsedTxids(s, e))
    ensures DistinctTxids(AddWaiter(s, t, e, n), Ep(s, e).waiters + [t])
  {
    var s', ts := AddWaiter(s, t, e, n), Ep(s, e).waiters;
    var all := ts + [t];
    assert CallInv(s, t);
    forall u | u in ts ensures CallOf(s, u).txid != Nth(Ep(s, e).txid, n) && u != t { assert CallInv(s, u); }
    forall i, j | 0 <= i < j < |all| ensures CallOf(s', all[i]).txid != CallOf(s', all[j]).txid {
      assert all[i] == ts[i] && ts[i] in ts;
      if j < |ts| { assert all[j] == ts[j] && ts[j] in ts; }
    }
  }

  lemma AddWaiterKeepsEp(s: State, t: Tid, e: bool, n: nat, f: bool)
    requires Inv(s) && CallOf(s, t).phase == Outside && Ep(s, e).peer && Allocates(Ep(s, e).txid, n, UsedTxids(s, e))
    ensures EpInv(AddWaiter(s, t, e, n), f)
  {
    assert CallInv(s, t);
    if f == e {
      BumpedCounter(Ep(s, e).bumps, n);
      AddedTxids(s, t, e, n);
    } else {
      SameTxids(s, AddWaiter(s, t, e, n), Ep(s, f).waiters, |Ep(s, f).waiters|);
    }
  }

  lemma AddWaiterKeepsInv(s: State, t: Tid, e: bool, n: nat)
    requires Inv(s) && CallOf(s, t).phase == Outside && Ep(s, e).peer && Allocates(Ep(s, e).txid, n, UsedTxids(s, e))
    ensures Inv(AddWaiter(s, t, e, n))
  {
    AddWaiterKeepsEp(s, t, e, n, false);
    AddWaiterKeepsEp(s, t, e, n, true);
    BumpedCandidate(Ep(s, e).bumps, n);
    forall u ensures CallInv(AddWaiter(s, t, e, n), u) { assert CallInv(s, u) && CallInv(s, t); }
  }

  lemma {:induction false} WithoutIs(ts: seq<Tid>, t: Tid) returns (i: nat)
    requires t in ts
    ensures i < |ts| && ts[i] == t && Without(ts, t) == Remove(ts, i)
  {
    if ts[0] == t {
      i := 0;
      assert Remove(ts, 0) == ts[1..];
    } else {
      var j := WithoutIs(ts[1..], t);
      i := j + 1;
      assert Remove(ts, i) == [ts[0]] + Remove(ts[1..], j);
    }
  }

  lemma LeaveKeepsEp(s: State, t: Tid, returned: bool, f: bool)
    requires Inv(s) && CallOf(s, t).phase != Outside
    ensures EpInv(Leave(s, t, returned), f)
  {
    var s', c := Leave(s, t, returned), CallOf(s, t);
    var ts := Ep(s, f).waiters;
    assert CallInv(s, t);
    if f == c.ep && c.status == TimedOut {
      var i := WithoutIs(ts, t);
      SameTxids(s, s', ts, i);
    } else {
      SameTxids(s, s', ts, |ts|);
    }
  }

  lemma LeaveMembers(s: State, t: Tid, returned: bool, u: Tid, f: bool)
    requires Inv(s) && CallOf(s, t).phase != Outside
    ensures u in Ep(Leave(s, t, returned), f).waiters <==> u in Ep(s, f).waiters && u != t
  {
    var c := CallOf(s, t);
    assert CallInv(s, t);
    if f == c.ep && c.status == TimedOut {
      var i := WithoutIs(Ep(s, f).waiters, t);
      RemoveMembers(Ep(s, f).waiters, i, u);
    }
  }

  lemma LeaveKeepsCall(s: State, t: Tid, returned: bool, u: Tid)
    requires Inv(s) && CallOf(s, t).phase != Outside
    ensures CallInv(Leave(s, t, returned), u)
  {
    LeaveMembers(s, t, returned, u, false);
    LeaveMembers(s, t, returned, u, true);
    assert CallInv(s, u);
    LeaveFrame(s, t, returned, u);
  }

  lemma LeaveFrame(s: State, t: Tid, returned: bool, u: Tid)
    requires CallInv(s, u)
    requires forall f :: u in Ep(Leave(s, t, returned), f).waiters <==> u in Ep(s, f).waiters && u != t
    ensures CallInv(Leave(s, t, returned), u)
  {
    var s' := Leave(s, t, returned);
    assert Ep(s', CallOf(s, u).ep).log == Ep(s, CallOf(s, u).ep).log && Ep(s', CallOf(s, u).ep).peer == Ep(s, CallOf(s, u).ep).peer;
    assert CallOf(s', u) == if u == t then CallOf(s, u).(phase := Outside, msg := None) else CallOf(s, u);
  }

  lemma LeaveKeepsInv(s: State, t: Tid, returned: bool)
    requires Inv(s) && CallOf(s, t).phase != Outside
    ensures Inv(Leave(s, t, returned))
  {
    LeaveKeepsEp(s, t, returned, false);
    LeaveKeepsEp(s, t, returned, true);
    forall u ensures CallInv(Leave(s, t, returned), u) { LeaveKeepsCall(s, t, returned, u); }
  }

  /** After this the endpoint has no peer; the peer flag of the other one is the caller's business. */
  lemma CancelAllCalls(s: State, e: bool, status: Status, t: Tid)
    requires CallInv(s, t) && status != TimedOut && status != Delivered
    requires forall u :: u in Ep(s, e).waiters ==> CallInv(s, u)
    ensures CallInv(CancelAll(s, e, status), t)
  {
    if t in Ep(s, e).waiters { assert CallInv(s, t); }
  }

  lemma CloseKeepsInv(s: State, e: bool)
    requires Inv(s)
    ensures Inv(Apply(s, Close(e)))
  {
    var s1 := CancelAll(s, e, Canceled);
    forall t ensures CallInv(s1, t) {
      assert CallInv(s, t);
      CancelAllCalls(s, e, Canceled, t);
    }
    if Ep(s, e).peer {
      var s2 := CancelAll(s1, !e, PeerClosed);
      forall t ensures CallInv(s2, t) {
        assert CallInv(s1, t);
        CancelAllCalls(s1, !e, PeerClosed, t);
      }
    } else {
      SameTxids(s, s1, Ep(s, !e).waiters, |Ep(s, !e).waiters|);
    }
  }

  lemma PhaseKeepsInv(s: State, t: Tid, phase: Phase)
    requires Inv(s) && CallOf(s, t).phase != Outside && phase != Outside
    ensures Inv(WithCall(s, t, CallOf(s, t).(phase := phase)))
  {
    var s' := WithCall(s, t, CallOf(s, t).(phase := phase));
    SameTxids(s, s', s.left.waiters, |s.left.waiters|);
    SameTxids(s, s', s.right.waiters, |s.right.waiters|);
    forall u ensures CallInv(s', u) { assert CallInv(s, u); }
  }

  lemma TakenFirst(a: seq<Msg>, b: seq<Msg>)
    requires b != []
    ensures a + b == (a + [b[0]]) + b[1..]
  {
  }

  lemma ReadKeepsEp(s: State, e: bool, fits: bool, mayDiscard: bool, side: bool)
    requires Inv(s) && Enabled(s, Read(e, fits, mayDiscard))
    ensures EpInv(Apply(s, Read(e, fits, mayDiscard)), side)
  {
    var s', ep := Apply(s, Read(e, fits, mayDiscard)), Ep(s, e);
    TakenFirst(ep.taken, ep.messages);
    SameTxids(s, s', Ep(s, side).waiters, |Ep(s, side).waiters|);
  }

  lemma ReadKeepsInv(s: State, e: bool, fits: bool, mayDiscard: bool)
    requires Inv(s) && Enabled(s, Read(e, fits, mayDiscard))
    ensures Inv(Apply(s, Read(e, fits, mayDiscard)))
  {
    ReadKeepsEp(s, e, fits, mayDiscard, false);
    ReadKeepsEp(s, e, fits, mayDiscard, true);
    forall u ensures CallInv(Apply(s, Read(e, fits, mayDiscard)), u) { assert CallInv(s, u); }
  }

  lemma StepKeepsInv(s: State, step: Step)
    requires Inv(s) && Enabled(s, step)
    ensures Inv(Apply(s, step))
  {
    match step
    case Write(e, msg) => WriteSelfKeepsInv(s, !e, msg);
    case BeginCall(t, e, id, n) =>
      AddWaiterKeepsInv(s, t, e, n);
      WriteSelfKeepsInv(AddWaiter(s, t, e, n), !e, Msg(id, Nth(Ep(s, e).txid, n)));
    case Suspend(t) => PhaseKeepsInv(s, t, Suspended);
    case Resume(t) => PhaseKeepsInv(s, t, Waiting);
    case WaitReturns(t) => PhaseKeepsInv(s, t, Finishing);
    case EndCall(t) => LeaveKeepsInv(s, t, true);
    case Abandon(t) => LeaveKeepsInv(s, t, false);
    case Read(e, fits, mayDiscard) => ReadKeepsInv(s, e, fits, mayDiscard);
    case Close(e) => CloseKeepsInv(s, e);
  }

  // ---------- what became of a delivered message ----------

  /** Call t of an endpoint is in progress and holds the message at place i of the log. */
  predicate Holds(s: State, t: Tid, e: bool, i: nat) {
    var c := CallOf(s, t);
    c.phase != Outside && c.ep == e && c.status == Delivered && c.got == i
  }

  /** In how many hands the message of an event is: returned by its call, lost with it, or held by it. */
  function Hands(s: State, e: bool, i: nat, msg: Msg, t: Tid): nat {
    Ep(s, e).receipts[Receipt(i, t, msg, true)] + Ep(s, e).receipts[Receipt(i, t, msg, false)] + if Holds(s, t, e, i) then 1 else 0
  }

  ghost predicate EventInv(s: State, e: bool, i: nat) {
    i < |Ep(s, e).log| && Ep(s, e).log[i].to.Some? ==>
      Hands(s, e, i, Ep(s, e).log[i].msg, Ep(s, e).log[i].to.value) == 1
  }

  ghost predicate ReceiptInv(s: State, e: bool, r: Receipt) {
    r in Ep(s, e).receipts ==> r.at < |Ep(s, e).log| && Ep(s, e).log[r.at] == Event(r.msg, Some(r.t))
  }

  ghost predicate Traced(s: State) {
    (forall e, i :: EventInv(s, e, i)) && (forall e, r :: ReceiptInv(s, e, r))
  }

  /** Steps that deliver nothing, end no call that holds a message, and write nothing. */
  lemma TracedFrame(s: State, s': State)
    requires Traced(s)
    requires forall e :: Ep(s', e).log == Ep(s, e).log && Ep(s', e).receipts == Ep(s, e).receipts
    requires forall t, e, i :: Holds(s', t, e, i) <==> Holds(s, t, e, i)
    ensures Traced(s')
  {
    forall e, i ensures EventInv(s', e, i) { assert EventInv(s, e, i); }
    forall e, r ensures ReceiptInv(s', e, r) { assert ReceiptInv(s, e, r); }
  }

  lemma EnqueueTraced(s: State, e: bool, msg: Msg)
    requires Traced(s)
    ensures Traced(Enqueue(s, e, msg))
  {
    var s' := Enqueue(s, e, msg);
    forall f, i ensures EventInv(s', f, i) { assert EventInv(s, f, i); }
    forall f, r ensures ReceiptInv(s', f, r) { assert ReceiptInv(s, f, r); }
  }

  lemma DeliverTraced(s: State, e: bool, msg: Msg, k: nat)
    requires Inv(s) && Traced(s) && k < |Ep(s, e).waiters|
    ensures Traced(Deliver(s, e, msg, k))
  {
    var s', ep := Deliver(s, e, msg, k), Ep(s, e);
    var t := ep.waiters[k];
    assert CallInv(s, t);
    forall f, i ensures EventInv(s', f, i) {
      assert EventInv(s, f, i);
      assert ReceiptInv(s, e, Receipt(|ep.log|, t, msg, true)) && ReceiptInv(s, e, Receipt(|ep.log|, t, msg, false));
    }
    forall f, r ensures ReceiptInv(s', f, r) { assert ReceiptInv(s, f, r); }
  }

  lemma LeaveEvent(s: State, t: Tid, returned: bool, f: bool, i: nat)
    requires EventInv(s, f, i) && CallInv(s, t) && CallOf(s, t).phase != Outside && CallOf(s, t).status == Delivered
    ensures EventInv(Leave(s, t, returned), f, i)
  {
  }

  lemma LeaveReceipt(s: State, t: Tid, returned: bool, f: bool, r: Receipt)
    requires ReceiptInv(s, f, r) && CallInv(s, t) && CallOf(s, t).phase != Outside && CallOf(s, t).status == Delivered
    ensures ReceiptInv(Leave(s, t, returned), f, r)
  {
  }

  lemma LeaveTraced(s: State, t: Tid, returned: bool)
    requires Inv(s) && Traced(s) && CallOf(s, t).phase != Outside
    ensures Traced(Leave(s, t, returned))
  {
    assert CallInv(s, t);
    if CallOf(s, t).status == Delivered {
      forall f, i ensures EventInv(Leave(s, t, returned), f, i) {
        assert EventInv(s, f, i);
        LeaveEvent(s, t, returned, f, i);
      }
      forall f, r ensures ReceiptInv(Leave(s, t, returned), f, r) {
        assert ReceiptInv(s, f, r);
        LeaveReceipt(s, t, returned, f, r);
      }
    } else {
      TracedFrame(s, Leave(s, t, returned));
    }
  }

  lemma WriteSelfTraced(s: State, e: bool, msg: Msg)
    requires Inv(s) && Traced(s)
    ensures Traced(WriteSelf(s, e, msg))
  {
    var i := Find(s, Ep(s, e).waiters, msg.txid);
    if i < |Ep(s, e).waiters| { DeliverTraced(s, e, msg, i); } else { EnqueueTraced(s, e, msg); }
  }

  lemma CancelTraced(s: State, e: bool, status: Status)
    requires Traced(s) && status != Delivered && status != TimedOut
    requires forall t :: t in Ep(s, e).waiters ==> CallOf(s, t).status == TimedOut
    ensures Traced(CancelAll(s, e, status))
  {
    TracedFrame(s, CancelAll(s, e, status));
  }

  lemma CloseTraced(s: State, e: bool)
    requires Inv(s) && Traced(s)
    ensures Traced(Apply(s, Close(e)))
  {
    forall t | t in Ep(s, e).waiters ensures CallOf(s, t).status == TimedOut { assert CallInv(s, t); }
    CancelTraced(s, e, Canceled);
    if Ep(s, e).peer {
      var s1 := CancelAll(s, e, Canceled);
      forall t | t in Ep(s1, !e).waiters ensures CallOf(s1, t).status == TimedOut {
        assert CallInv(s, t) && t !in Ep(s, e).waiters && CallOf(s1, t) == CallOf(s, t);
      }
      CancelTraced(s1, !e, PeerClosed);
    }
  }

  lemma StepKeepsTraced(s: State, step: Step)
    requires Inv(s) && Traced(s) && Enabled(s, step)
    ensures Traced(Apply(s, step))
  {
    match step
    case Write(e, msg) => WriteSelfTraced(s, !e, msg);
    case BeginCall(t, e, id, n) =>
      AddWaiterTraced(s, t, e, n);
      AddWaiterKeepsInv(s, t, e, n);
      WriteSelfTraced(AddWaiter(s, t, e, n), !e, Msg(id, Nth(Ep(s, e).txid, n)));
    case Suspend(t) => PhaseTraced(s, t, Suspended);
    case Resume(t) => PhaseTraced(s, t, Waiting);
    case WaitReturns(t) => PhaseTraced(s, t, Finishing);
    case EndCall(t) => LeaveTraced(s, t, true);
    case Abandon(t) => LeaveTraced(s, t, false);
    case Read(e, fits, mayDiscard) => ReadTraced(s, e, fits, mayDiscard);
    case Close(e) => CloseTraced(s, e);
  }

  lemma ReadTraced(s: State, e: bool, fits: bool, mayDiscard: bool)
    requires Traced(s) && Enabled(s, Read(e, fits, mayDiscard))
    ensures Traced(Apply(s, Read(e, fits, mayDiscard)))
  {
    TracedFrame(s, Apply(s, Read(e, fits, mayDiscard)));
  }

  lemma AddWaiterTraced(s: State, t: Tid, e: bool, n: nat)
    requires Traced(s) && CallOf(s, t).phase == Outside
    ensures Traced(AddWaiter(s, t, e, n))
  {
    TracedFrame(s, AddWaiter(s, t, e, n));
  }

  lemma PhaseTraced(s: State, t: Tid, phase: Phase)
    requires Traced(s) && CallOf(s, t).phase != Outside && phase != Outside
    ensures Traced(WithCall(s, t, CallOf(s, t).(phase := phase)))
  {
    TracedFrame(s, WithCall(s, t, CallOf(s, t).(phase := phase)));
  }

  ghost predicate FullInv(s: State) {
    Inv(s) && Traced(s)
  }

  lemma InvOnRuns(run: seq<State>, n: nat)
    requires Runs.IsRun(Init, Next, run) && n < |run|
    ensures Inv(run[n]) && Traced(run[n])
  {
    forall s, s' | FullInv(s) && Next(s, s') ensures FullInv(s') {
      var step :| Enabled(s, step) && s' == Apply(s, step);
      StepKeepsInv(s, step);
      StepKeepsTraced(s, step);
    }
    Runs.Invariant(Init, Next, FullInv, run, n);
  }

  // ---------- what it gives ----------

  /** Waiting calls have different transaction ids with the top bit set, and a call is listed, on its
      own endpoint, exactly while it is in progress and its status is still "timed out". */
  lemma WaitersLaw(run: seq<State>, n: nat, t: Tid, u: Tid)
    requires Runs.IsRun(Init, Next, run) && n < |run|
    ensures var s, c := run[n], CallOf(run[n], t);
            && (t in Ep(s, c.ep).waiters <==> c.phase != Outside && c.status == TimedOut)
            && t !in Ep(s, !c.ep).waiters
            && (c.phase != Outside ==> c.txid == Candidate(c.serial) && TOP_BIT <= c.txid < TWO32)
            && (t != u && t in Ep(s, c.ep).waiters && u in Ep(s, c.ep).waiters ==> CallOf(s, u).txid != c.txid)
  {
    InvOnRuns(run, n);
    var s, ts := run[n], Ep(run[n], CallOf(run[n], t).ep).waiters;
    assert CallInv(s, t) && EpInv(s, CallOf(s, t).ep);
    if t != u && t in ts && u in ts {
      var i :| 0 <= i < |ts| && ts[i] == t;
      var j :| 0 <= j < |ts| && ts[j] == u;
      assert CallOf(s, ts[i]).txid != CallOf(s, ts[j]).txid;
    }
  }

  /** A call ends in exactly one of three ways: with the first message written to its endpoint since
      it began that carries its transaction id; with a cancel status after a close, and no message;
      or with a timeout, no such message having been written, and it is then on no list. */
  lemma CallResult(run: seq<State>, n: nat, t: Tid)
    requires Runs.IsRun(Init, Next, run) && n < |run| && Enabled(run[n], EndCall(t))
    ensures var s, c := run[n], CallOf(run[n], t);
            var ep, s' := Ep(s, c.ep), Apply(s, EndCall(t));
            && (c.status == Delivered <==> c.msg.Some?)
            && (c.status == Delivered ==> FirstAt(ep.log, c.start, c.got, c.txid, c.msg.value, t))
            && (c.status == TimedOut ==> NoneSince(ep.log, c.start, c.txid))
            && (c.status == Canceled || c.status == PeerClosed ==> !ep.peer)
            && t !in Ep(s', c.ep).waiters && t !in Ep(s', !c.ep).waiters
            && Ep(s', c.ep).messages == ep.messages && Ep(s', c.ep).log == ep.log
  {
    InvOnRuns(run, n);
    assert CallInv(run[n], t);
    StepKeepsInv(run[n], EndCall(t));
    assert CallInv(Apply(run[n], EndCall(t)), t);
  }

  /** Nothing written is lost, duplicated or reordered: of the messages written to an endpoint, those
      that went to no call are the ones read so far followed by the queue. */
  lemma MessagesConserved(run: seq<State>, n: nat, e: bool)
    requires Runs.IsRun(Init, Next, run) && n < |run|
    ensures var ep := Ep(run[n], e);
            && Kept(ep.log) == ep.taken + ep.messages
            && ep.count == |ep.messages|
            && (ep.readable <==> ep.messages != [])
  {
    InvOnRuns(run, n);
    assert EpInv(run[n], e);
  }

  /** Every message that went to a call is, at any time, in exactly one place: returned by that call to
      its caller, lost because the caller's thread died while suspended, or still held by the call,
      unchanged. Nothing else was ever returned. */
  lemma DeliveredOnce(run: seq<State>, n: nat, e: bool, i: nat)
    requires Runs.IsRun(Init, Next, run) && n < |run| && i < |Ep(run[n], e).log| && Ep(run[n], e).log[i].to.Some?
    ensures var s := run[n]; var ev := Ep(run[n], e).log[i]; var t := ev.to.value;
            && Hands(s, e, i, ev.msg, t) == 1
            && (Holds(s, t, e, i) ==> CallOf(s, t).msg == Some(ev.msg))
            && (forall r :: r in Ep(s, e).receipts && r.at == i ==> r.t == t && r.msg == ev.msg)
  {
    InvOnRuns(run, n);
    var s, ev := run[n], Ep(run[n], e).log[i];
    assert EventInv(s, e, i) && CallInv(s, ev.to.value);
    forall r | r in Ep(s, e).receipts && r.at == i ensures r.t == ev.to.value && r.msg == ev.msg {
      assert ReceiptInv(s, e, r);
    }
  }

  /** Both endpoints count their transaction ids from zero, so calls in opposite directions can cross:
      the request of a new call is delivered to a waiting call of the other end, as if it were its
      reply, exactly if the numbers of the two calls agree modulo 2^31. */
  lemma CrossedCalls(run: seq<State>, m: nat, t: Tid, e: bool, id: nat, n: nat, u: Tid)
    requires Runs.IsRun(Init, Next, run) && m < |run| && Enabled(run[m], BeginCall(t, e, id, n)) && u in Ep(run[m], !e).waiters
    ensures var s, s' := run[m], Apply(run[m], BeginCall(t, e, id, n));
            CallOf(s', u).status == Delivered
            <==> CallOf(s, u).serial % TOP_BIT == CallOf(s', t).serial % TOP_BIT
    ensures var s' := Apply(run[m], BeginCall(t, e, id, n));
            CallOf(s', t).serial == Ep(run[m], e).bumps + n && CallOf(s', t).phase == Waiting
  {
    InvOnRuns(run, m);
    CrossedStep(run[m], t, e, id, n, u);
  }

  lemma SameCandidate(a: nat, b: nat)
    ensures Candidate(a) == Candidate(b) <==> a % TOP_BIT == b % TOP_BIT
  {
  }

  lemma CrossedStep(s: State, t: Tid, e: bool, id: nat, n: nat, u: Tid)
    requires Inv(s) && Enabled(s, BeginCall(t, e, id, n)) && u in Ep(s, !e).waiters
    ensures var s' := Apply(s, BeginCall(t, e, id, n));
            && (CallOf(s', u).status == Delivered <==> CallOf(s, u).serial % TOP_BIT == CallOf(s', t).serial % TOP_BIT)
            && CallOf(s', t).serial == Ep(s, e).bumps + n && CallOf(s', t).phase == Waiting
  {
    CrossedIds(s, t, e, id, n, u);
    assert CallInv(s, u);
    SameCandidate(CallOf(s, u).serial, Ep(s, e).bumps + n);
  }

  lemma CrossedIds(s: State, t: Tid, e: bool, id: nat, n: nat, u: Tid)
    requires Inv(s) && Enabled(s, BeginCall(t, e, id, n)) && u in Ep(s, !e).waiters
    ensures var s' := Apply(s, BeginCall(t, e, id, n));
            && (CallOf(s', u).status == Delivered <==> CallOf(s, u).txid == Candidate(Ep(s, e).bumps + n))
            && CallOf(s', t).serial == Ep(s, e).bumps + n && CallOf(s', t).phase == Waiting
  {
    var s1, msg := AddWaiter(s, t, e, n), Msg(id, Nth(Ep(s, e).txid, n));
    assert CallInv(s, u) && CallInv(s, t);
    BumpedCandidate(Ep(s, e).bumps, n);
    AddWaiterKeepsInv(s, t, e, n);
    DeliversTo(s1, !e, msg, u);
  }

  /** A message goes to a waiting call exactly if it carries its transaction id. */
  lemma DeliversTo(s: State, e: bool, msg: Msg, u: Tid)
    requires Inv(s) && u in Ep(s, e).waiters
    ensures CallOf(WriteSelf(s, e, msg), u).status == Delivered <==> CallOf(s, u).txid == msg.txid
    ensures forall t :: t !in Ep(s, e).waiters ==> CallOf(WriteSelf(s, e, msg), t) == CallOf(s, t)
  {
    var ts := Ep(s, e).waiters;
    FindIs(s, ts, msg.txid);
    var i := Find(s, ts, msg.txid);
    var k :| 0 <= k < |ts| && ts[k] == u;
    assert CallInv(s, u) && EpInv(s, e);
    if i < |ts| && k != i { assert CallOf(s, ts[k]).txid != CallOf(s, ts[i]).txid; }
  }

  /** The first calls of the two ends, for example. */
  lemma FirstCallsCross(t: Tid, u: Tid, id: nat, id': nat)
    requires t != u
    ensures exists run: seq<State> ::
              && Runs.IsRun(Init, Next, run) && |run| == 3
              && CallOf(run[2], u).status == Delivered && CallOf(run[2], u).msg == Some(Msg(id, Candidate(1)))
              && Ep(run[2], true).messages == []
  {
    var s0 := State(NEW_ENDPOINT, NEW_ENDPOINT, map[]);
    assert Allocates(0, 1, UsedTxids(s0, true));
    var s1 := Apply(s0, BeginCall(u, true, id', 1));
    assert Allocates(0, 1, UsedTxids(s1, false));
    var s2 := Apply(s1, BeginCall(t, false, id, 1));
    assert Next(s0, s1) && Next(s1, s2);
    assert Runs.IsRun(Init, Next, [s0, s1, s2]);
  }

  // ---------- what each step does ----------

  /** A message has been written to endpoint e: it is logged there; the waiting call with its
      transaction id has it and waits no longer, the queue being as before; without such a call it
      is last in the queue. */
  ghost predicate Arrives(s: State, s': State, e: bool, msg: Msg) {
    var ep, ep' := Ep(s, e), Ep(s', e);
    && |ep'.log| == |ep.log| + 1 && ep'.log[..|ep.log|] == ep.log && ep'.log[|ep.log|].msg == msg
    && (forall u :: u in ep.waiters && CallOf(s, u).txid == msg.txid ==>
          && CallOf(s', u) == CallOf(s, u).(status := Delivered, msg := Some(msg), got := |ep.log|)
          && u !in ep'.waiters && ep'.messages == ep.messages && ep'.readable == ep.readable)
    && (forall u :: u in ep.waiters && CallOf(s, u).txid != msg.txid ==> CallOf(s', u) == CallOf(s, u) && u in ep'.waiters)
    && ((forall u :: u in ep.waiters ==> CallOf(s, u).txid != msg.txid) ==>
          ep'.messages == ep.messages + [msg] && ep'.readable && ep'.waiters == ep.waiters)
  }

  lemma WriteArrives(s: State, e: bool, msg: Msg)
    requires Inv(s)
    ensures Arrives(s, WriteSelf(s, e, msg), e, msg) && Ep(WriteSelf(s, e, msg), !e) == Ep(s, !e)
    ensures forall t :: t !in Ep(s, e).waiters ==> CallOf(WriteSelf(s, e, msg), t) == CallOf(s, t)
  {
    var ts := Ep(s, e).waiters;
    var i := Find(s, ts, msg.txid);
    FindIs(s, ts, msg.txid);
    assert EpInv(s, e);
    if i < |ts| {
      forall k | 0 <= k < |ts| && k != i ensures CallOf(s, ts[k]).txid != msg.txid {
        assert CallOf(s, ts[k]).txid != CallOf(s, ts[i]).txid;
      }
      DeliverArrives(s, e, msg, i);
    } else {
      EnqueueArrives(s, e, msg);
    }
  }

  lemma DeliverArrives(s: State, e: bool, msg: Msg, i: nat)
    requires i < |Ep(s, e).waiters| && CallOf(s, Ep(s, e).waiters[i]).txid == msg.txid
    requires forall k :: 0 <= k < |Ep(s, e).waiters| && k != i ==> CallOf(s, Ep(s, e).waiters[k]).txid != msg.txid
    ensures Arrives(s, Deliver(s, e, msg, i), e, msg)
  {
    var ts := Ep(s, e).waiters;
    forall u ensures u in Remove(ts, i) <==> u in ts && u != ts[i] { RemoveMembers(ts, i, u); }
  }

  lemma EnqueueArrives(s: State, e: bool, msg: Msg)
    requires forall k :: 0 <= k < |Ep(s, e).waiters| ==> CallOf(s, Ep(s, e).waiters[k]).txid != msg.txid
    ensures Arrives(s, Enqueue(s, e, msg), e, msg)
  {
  }

  /** A write by one end of an open channel can always be made; it leaves that end alone and arrives at
      the other one, and no call but the one that it answers changes. */
  lemma WriteLaw(run: seq<State>, n: nat, e: bool, msg: Msg)
    requires Runs.IsRun(Init, Next, run) && n < |run| && Ep(run[n], e).peer
    ensures Enabled(run[n], Write(e, msg))
    ensures var s, s' := run[n], Apply(run[n], Write(e, msg));
            && Ep(s', e) == Ep(s, e) && Arrives(s, s', !e, msg)
            && (forall t :: t !in Ep(s, !e).waiters ==> CallOf(s', t) == CallOf(s, t))
  {
    InvOnRuns(run, n);
    WriteArrives(run[n], !e, msg);
  }

  /** A call waits at its own end under a transaction id that no other call there has, and its request
      arrives at the other end with that id. */
  lemma CallLaw(run: seq<State>, m: nat, t: Tid, e: bool, id: nat, n: nat)
    requires Runs.IsRun(Init, Next, run) && m < |run| && CallOf(run[m], t).phase == Outside && Ep(run[m], e).peer
    requires Allocates(Ep(run[m], e).txid, n, UsedTxids(run[m], e))
    ensures Enabled(run[m], BeginCall(t, e, id, n))
    ensures var s, s' := run[m], Apply(run[m], BeginCall(t, e, id, n));
            && Calls(s, s', t, e) && Arrives(s, s', !e, Msg(id, CallOf(s', t).txid))
            && (forall u :: u != t && u !in Ep(s, !e).waiters ==> CallOf(s', u) == CallOf(s, u))
  {
    InvOnRuns(run, m);
    CallArrives(run[m], t, e, id, n);
  }

  /** t has begun a call at endpoint e: it is the last to wait there, with a transaction id of its own. */
  ghost predicate Calls(s: State, s': State, t: Tid, e: bool) {
    var c := CallOf(s', t);
    && c.phase == Waiting && c.ep == e && c.status == TimedOut && c.msg == None
    && c.txid >= TOP_BIT && (forall u :: u in Ep(s, e).waiters ==> CallOf(s, u).txid != c.txid)
    && Ep(s', e).waiters == Ep(s, e).waiters + [t] && Ep(s', e).messages == Ep(s, e).messages && Ep(s', e).log == Ep(s, e).log
  }

  lemma AddWaiterCalls(s: State, t: Tid, e: bool, n: nat)
    requires Allocates(Ep(s, e).txid, n, UsedTxids(s, e))
    ensures Calls(s, AddWaiter(s, t, e, n), t, e) && Ep(AddWaiter(s, t, e, n), !e) == Ep(s, !e)
    ensures forall u :: u != t ==> CallOf(AddWaiter(s, t, e, n), u) == CallOf(s, u)
  {
    forall u | u in Ep(s, e).waiters ensures CallOf(s, u).txid != Nth(Ep(s, e).txid, n) {
      assert CallOf(s, u).txid in UsedTxids(s, e);
    }
  }

  lemma CallArrives(s: State, t: Tid, e: bool, id: nat, n: nat)
    requires Inv(s) && Enabled(s, BeginCall(t, e, id, n))
    ensures var s' := Apply(s, BeginCall(t, e, id, n));
            && Calls(s, s', t, e) && Arrives(s, s', !e, Msg(id, CallOf(s', t).txid))
            && (forall u :: u != t && u !in Ep(s, !e).waiters ==> CallOf(s', u) == CallOf(s, u))
  {
    var s1, s' := AddWaiter(s, t, e, n), Apply(s, BeginCall(t, e, id, n));
    var msg := Msg(id, Nth(Ep(s, e).txid, n));
    assert CallInv(s, t) && CallOf(s1, t).txid == msg.txid;
    AddWaiterKeepsInv(s, t, e, n);
    AddWaiterCalls(s, t, e, n);
    WriteArrives(s1, !e, msg);
    ArrivesFrame(s, s1, s', !e, msg);
    CallsFrame(s, s1, s', t, e);
  }

  lemma CallsFrame(s: State, s1: State, s': State, t: Tid, e: bool)
    requires Calls(s, s1, t, e) && CallOf(s', t) == CallOf(s1, t) && Ep(s', e) == Ep(s1, e)
    ensures Calls(s, s', t, e)
  {
  }

  /** Only the endpoint itself and its waiting calls matter. */
  lemma ArrivesFrame(s: State, s1: State, s': State, e: bool, msg: Msg)
    requires Arrives(s1, s', e, msg) && Ep(s1, e) == Ep(s, e) && forall u :: u in Ep(s, e).waiters ==> CallOf(s1, u) == CallOf(s, u)
    ensures Arrives(s, s', e, msg)
  {
  }

  /** A reply is returned: written by the other end with the transaction id of a waiting call, it is
      what the call returns when it ends. */
  lemma ReplyReturns(run: seq<State>, n: nat, e: bool, t: Tid, msg: Msg)
    requires Runs.IsRun(Init, Next, run) && n < |run| && t in Ep(run[n], e).waiters && CallOf(run[n], t).phase == Waiting
    requires msg.txid == CallOf(run[n], t).txid
    ensures Enabled(run[n], Write(!e, msg))
    ensures var s1 := Apply(run[n], Write(!e, msg));
            && Enabled(s1, WaitReturns(t)) && Enabled(Apply(s1, WaitReturns(t)), EndCall(t))
            && var s' := Apply(Apply(s1, WaitReturns(t)), EndCall(t));
            && CallOf(s', t).phase == Outside && t !in Ep(s', e).waiters
            && Ep(s', e).receipts == Ep(run[n], e).receipts + multiset{Receipt(|Ep(run[n], e).log|, t, msg, true)}
  {
    InvOnRuns(run, n);
    assert EpInv(run[n], e) && EpInv(run[n], !e) && CallInv(run[n], t);
    WriteLaw(run, n, !e, msg);
    WriteReceipts(run[n], e, msg);
    DeliveredReturns(Apply(run[n], Write(!e, msg)), e, t, msg);
  }

  lemma DeliveredReturns(s: State, e: bool, t: Tid, msg: Msg)
    requires CallOf(s, t).phase == Waiting && CallOf(s, t).ep == e && CallOf(s, t).status == Delivered && CallOf(s, t).msg == Some(msg)
    requires t !in Ep(s, e).waiters
    ensures Enabled(s, WaitReturns(t)) && Enabled(Apply(s, WaitReturns(t)), EndCall(t))
    ensures var s' := Apply(Apply(s, WaitReturns(t)), EndCall(t));
            && CallOf(s', t).phase == Outside && t !in Ep(s', e).waiters
            && Ep(s', e).receipts == Ep(s, e).receipts + multiset{Receipt(CallOf(s, t).got, t, msg, true)}
  {
  }

  lemma WriteReceipts(s: State, e: bool, msg: Msg)
    ensures Ep(WriteSelf(s, e, msg), e).receipts == Ep(s, e).receipts
  {
  }

  /** A call in progress can always come to its end. */
  lemma CallsCanEnd(s: State, t: Tid)
    requires CallOf(s, t).phase != Outside
    ensures CallOf(s, t).phase == Suspended ==> Enabled(s, Resume(t)) && CallOf(Apply(s, Resume(t)), t).phase == Waiting
    ensures CallOf(s, t).phase == Waiting ==> Enabled(s, WaitReturns(t)) && CallOf(Apply(s, WaitReturns(t)), t).phase == Finishing
    ensures CallOf(s, t).phase == Finishing ==> Enabled(s, EndCall(t)) && CallOf(Apply(s, EndCall(t)), t).phase == Outside
  {
  }

  /** Closing an end cancels the calls that wait at it, and ends those at the other end with "peer
      closed"; both are then without a peer, and what was written can still be read. */
  lemma CloseLaw(s: State, e: bool)
    ensures Enabled(s, Close(e))
    ensures var s' := Apply(s, Close(e));
            && Ep(s', e).waiters == [] && !Ep(s', e).peer && Ep(s', e).messages == Ep(s, e).messages
            && (Ep(s, e).peer ==> Ep(s', !e).waiters == [] && !Ep(s', !e).peer && Ep(s', !e).messages == Ep(s, !e).messages)
            && (!Ep(s, e).peer ==> Ep(s', !e) == Ep(s, !e))
    ensures forall t :: CallOf(Apply(s, Close(e)), t) == Closed(s, e, t)
  {
    CancelAllIs(s, e, Canceled);
    if Ep(s, e).peer { CancelAllIs(CancelAll(s, e, Canceled), !e, PeerClosed); }
    forall t ensures CallOf(Apply(s, Close(e)), t) == Closed(s, e, t) { ClosedCall(s, e, t); }
  }

  lemma ClosedCall(s: State, e: bool, t: Tid)
    ensures CallOf(Apply(s, Close(e)), t) == Closed(s, e, t)
  {
    var s1 := CancelAll(s, e, Canceled);
    CancelAllIs(s, e, Canceled);
    if Ep(s, e).peer {
      CancelAllIs(s1, !e, PeerClosed);
      assert CallOf(CancelAll(s1, !e, PeerClosed), t) == if t in Ep(s1, !e).waiters then CallOf(s1, t).(status := PeerClosed) else CallOf(s1, t);
    }
  }

  lemma CancelAllIs(s: State, e: bool, status: Status)
    ensures var s' := CancelAll(s, e, status);
            && Ep(s', e) == Ep(s, e).(waiters := [], peer := false) && Ep(s', !e) == Ep(s, !e)
            && forall t :: CallOf(s', t) == if t in Ep(s, e).waiters then CallOf(s, t).(status := status) else CallOf(s, t)
  {
  }

  function Closed(s: State, e: bool, t: Tid): Call {
    if t in Ep(s, !e).waiters && Ep(s, e).peer then CallOf(s, t).(status := PeerClosed)
    else if t in Ep(s, e).waiters then CallOf(s, t).(status := Canceled)
    else CallOf(s, t)
  }

  /** A call in progress that a close has ended. */
  ghost predicate Aborted(s: State, t: Tid, e: bool, status: Status) {
    CallOf(s, t).phase != Outside && CallOf(s, t).ep == e && CallOf(s, t).status == status
  }

  /** The step closes endpoint e while t waits at endpoint f. */
  ghost predicate ClosesOn(s: State, s': State, e: bool, t: Tid, f: bool) {
    t in Ep(s, f).waiters && s' == Apply(s, Close(e))
  }

  lemma AbortedByWrite(s: State, e: bool, msg: Msg, t: Tid, f: bool, status: Status)
    requires Inv(s) && status != TimedOut && status != Delivered && Aborted(WriteSelf(s, e, msg), t, f, status)
    ensures Aborted(s, t, f, status)
  {
    WriteArrives(s, e, msg);
  }

  lemma AbortedByCall(s: State, u: Tid, e: bool, id: nat, n: nat, t: Tid, f: bool, status: Status)
    requires Inv(s) && Enabled(s, BeginCall(u, e, id, n)) && status != TimedOut && status != Delivered
    requires Aborted(Apply(s, BeginCall(u, e, id, n)), t, f, status)
    ensures Aborted(s, t, f, status)
  {
    AddWaiterKeepsInv(s, u, e, n);
    AddWaiterCalls(s, u, e, n);
    AbortedByWrite(AddWaiter(s, u, e, n), !e, Msg(id, Nth(Ep(s, e).txid, n)), t, f, status);
  }

  lemma AbortedByClose(s: State, e: bool, t: Tid, f: bool, status: Status)
    requires Inv(s) && status != TimedOut && status != Delivered && Aborted(Apply(s, Close(e)), t, f, status)
    ensures Aborted(s, t, f, status) || (t in Ep(s, f).waiters && e == (if status == Canceled then f else !f))
  {
    CloseLaw(s, e);
    assert CallOf(Apply(s, Close(e)), t) == Closed(s, e, t) && CallInv(s, t);
  }

  lemma AbortedStep(s: State, step: Step, t: Tid, f: bool, status: Status)
    requires Inv(s) && Enabled(s, step) && status != TimedOut && status != Delivered && Aborted(Apply(s, step), t, f, status)
    ensures Aborted(s, t, f, status) || ClosesOn(s, Apply(s, step), if status == Canceled then f else !f, t, f)
  {
    match step
    case Write(e, msg) => AbortedByWrite(s, !e, msg, t, f, status);
    case BeginCall(u, e, id, n) => AbortedByCall(s, u, e, id, n, t, f, status);
    case Close(e) => AbortedByClose(s, e, t, f, status);
    case _ =>
  }

  ghost predicate StepsAt(run: seq<State>, i: nat) {
    i + 1 < |run| && Inv(run[i]) && Next(run[i], run[i + 1])
  }

  lemma {:induction false} AbortedBy(run: seq<State>, n: nat, t: Tid, f: bool, status: Status) returns (i: nat)
    requires n < |run| && status != TimedOut && status != Delivered && Aborted(run[n], t, f, status) && CallOf(run[0], t).phase == Outside
    requires forall j :: 0 <= j < n ==> StepsAt(run, j)
    ensures i < n && ClosesOn(run[i], run[i + 1], if status == Canceled then f else !f, t, f)
    ensures forall j :: i < j <= n ==> Aborted(run[j], t, f, status)
  {
    assert n > 0 && StepsAt(run, n - 1);
    var step :| Enabled(run[n - 1], step) && run[n] == Apply(run[n - 1], step);
    AbortedStep(run[n - 1], step, t, f, status);
    i := n - 1;
    if Aborted(run[n - 1], t, f, status) { i := AbortedBy(run, n - 1, t, f, status); }
  }

  /** Which end was closed: a call ends with "canceled" exactly if its own end was closed while it waited,
      and with "peer closed" if the other end was. */
  lemma AbortCause(run: seq<State>, n: nat, t: Tid) returns (i: nat)
    requires Runs.IsRun(Init, Next, run) && n < |run| && CallOf(run[n], t).phase != Outside
    requires CallOf(run[n], t).status == Canceled || CallOf(run[n], t).status == PeerClosed
    ensures var c := CallOf(run[n], t);
            && i < n && ClosesOn(run[i], run[i + 1], if c.status == Canceled then c.ep else !c.ep, t, c.ep)
            && forall j :: i < j <= n ==> Aborted(run[j], t, c.ep, c.status)
  {
    forall j | 0 <= j < n ensures StepsAt(run, j) {
      InvOnRuns(run, j);
      assert Next(run[j], run[j + 1]);
    }
    i := AbortedBy(run, n, t, CallOf(run[n], t).ep, CallOf(run[n], t).status);
  }
}
