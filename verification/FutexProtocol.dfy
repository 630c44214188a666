/** Waits, wakes, requeues, timeouts and kills on one FutexContext, interleaved in every order.

    One step is one section under the context lock or under the thread lock. A waker keeps the
    context lock while it wakes the waiters it has taken off their queue, one thread-lock section
    each, so timeouts and kills can fall between the two halves of WakeThread(). */
module FutexProtocol {
  import opened Lists
  import opened FutexQueues
  import Runs

  type Tid = nat

  datatype Status = Ok | TimedOut | Killed | Retry

  /** Where a thread is in FutexWait(): not in it, asleep in BlockThread(), or past BlockThread()
      with the status that it returned. */
  datatype Phase = Outside | Blocked | Unblocked(status: Status)

  datatype State = State(
    queues: Queues<Tid>,     // futex_table_
    key: map<Tid, Key>,      // hash_key_ of each node
    linked: set<Tid>,        // nodes whose queue_next_ and queue_prev_ are set
    phase: map<Tid, Phase>,
    toWake: seq<Tid>,        // marked as not in queue, wait_queue_ not yet woken
    locked: bool,            // a waker holds lock_
    taken: multiset<Tid>,    // history: waiters taken off a queue by a wake
    oks: multiset<Tid>)      // history: waits that returned ZX_OK after queueing

  datatype Step =
    | WaitEnter(t: Tid, k: Key, immediate: Status)
    | Expire(t: Tid, status: Status)
    | Wake(k: Key, n: nat)
    | WakeRequeue(wk: Key, w: nat, rk: Key, r: nat)
    | WakeOne
    | Unlock
    | ReturnOk(t: Tid)
    | ReturnError(t: Tid)

  function PhaseOf(s: State, t: Tid): Phase {
    if t in s.phase then s.phase[t] else Outside
  }

  function KeyOf(s: State, t: Tid): Key {
    if t in s.key then s.key[t] else 0
  }

  function SetKeys(m: map<Tid, Key>, ts: seq<Tid>, k: Key): map<Tid, Key> {
    m + map t | t in ts :: k
  }

  function Unlink(linked: set<Tid>, ts: seq<Tid>): set<Tid> {
    linked - set t | t in ts
  }

  ghost predicate Init(s: State) {
    s == State(map[], map[], {}, map[], [], false, multiset{}, multiset{})
  }

  ghost predicate Enabled(s: State, step: Step) {
    match step
    case WaitEnter(t, k, _) => !s.locked && PhaseOf(s, t) == Outside
    case Expire(t, status) => PhaseOf(s, t) == Blocked && status != Ok
    case Wake(_, n) => !s.locked && n > 0
    case WakeRequeue(wk, _, rk, _) => !s.locked && wk != rk
    case WakeOne => s.toWake != []
    case Unlock => s.locked && s.toWake == []
    case ReturnOk(t) => PhaseOf(s, t) == Unblocked(Ok)
    case ReturnError(t) => !s.locked && PhaseOf(s, t).Unblocked? && PhaseOf(s, t) != Unblocked(Ok)
  }

  /** What ReturnError returns: the error if the node was still queued, otherwise ZX_OK. */
  ghost function Returned(s: State, t: Tid): Status
    requires PhaseOf(s, t).Unblocked?
  {
    if PhaseOf(s, t).status == Ok || t !in s.linked then Ok else PhaseOf(s, t).status
  }

  ghost function Apply(s: State, step: Step): State
    requires Enabled(s, step)
  {
    match step
    // immediate == Ok is a thread that really blocks; otherwise wait_queue_.Block() returns at once
    case WaitEnter(t, k, immediate) =>
      s.(queues := Append(s.queues, k, [t]), key := s.key[t := k], linked := s.linked + {t},
         phase := s.phase[t := if immediate == Ok then Blocked else Unblocked(immediate)])
    case Expire(t, status) => s.(phase := s.phase[t := Unblocked(status)])
    case Wake(k, n) =>
      var w := Taken(s.queues, k, n);
      s.(queues := Take(s.queues, k, n), key := SetKeys(s.key, w, 0),
         linked := Unlink(s.linked, w), toWake := w, locked := true, taken := s.taken + multiset(w))
    case WakeRequeue(wk, n, rk, r) =>
      var w := Taken(s.queues, wk, n);
      s.(queues := Requeue(s.queues, wk, n, rk, r),
         key := SetKeys(SetKeys(s.key, w, 0), Taken(Take(s.queues, wk, n), wk, r), rk),
         linked := Unlink(s.linked, w), toWake := w, locked := true, taken := s.taken + multiset(w))
    case WakeOne =>
      var t := s.toWake[0];
      // wait_queue_wake_one() finds nobody if the thread has been unblocked by its deadline
      s.(toWake := s.toWake[1..],
         phase := if PhaseOf(s, t) == Blocked then s.phase[t := Unblocked(Ok)] else s.phase)
    case Unlock => s.(locked := false)
    case ReturnOk(t) => s.(phase := s.phase[t := Outside], oks := s.oks + multiset{t})
    case ReturnError(t) =>
      if t in s.linked then
        s.(queues := Unqueue(s.queues, KeyOf(s, t), t), linked := s.linked - {t},
           phase := s.phase[t := Outside])
      else
        s.(phase := s.phase[t := Outside], oks := s.oks + multiset{t})
  }

  ghost predicate Next(s: State, s': State) {
    exists step :: Enabled(s, step) && s' == Apply(s, step)
  }

  /** Asleep, or already unblocked with an error: the node is still on the thread's stack. */
  ghost predicate Waiting(s: State, t: Tid) {
    PhaseOf(s, t) != Outside && PhaseOf(s, t) != Unblocked(Ok)
  }

  /** In FutexWait() and taken off the queue by a wake that this wait has not yet returned. */
  ghost predicate InFlight(s: State, t: Tid) {
    PhaseOf(s, t) != Outside && t !in s.linked
  }

  ghost predicate ThreadInv(s: State, t: Tid) {
    && (t in s.linked ==> t in At(s.queues, KeyOf(s, t)) && Waiting(s, t))
    && (t in s.toWake ==> t !in s.linked && Waiting(s, t))
    && (PhaseOf(s, t) == Blocked ==> t in s.linked || t in s.toWake)
    && s.taken[t] == s.oks[t] + if InFlight(s, t) then 1 else 0
  }

  ghost predicate PlaceInv(s: State, k: Key, t: Tid) {
    t in At(s.queues, k) ==> t in s.linked && KeyOf(s, t) == k
  }

  ghost predicate Inv(s: State) {
    && WellFormed(s.queues)
    && Distinct(s.toWake)
    && (s.toWake != [] ==> s.locked)
    && (forall k, t :: PlaceInv(s, k, t))
    && (forall t :: ThreadInv(s, t))
  }

  lemma {:induction false} CountDistinct(ts: seq<Tid>, t: Tid)
    requires Distinct(ts)
    ensures multiset(ts)[t] == if t in ts then 1 else 0
  {
    if ts != [] {
      CountDistinct(ts[1..], t);
      assert ts == [ts[0]] + ts[1..];
      assert ts[0] !in ts[1..];
    }
  }

  lemma WaitEnterKeepsInv(s: State, t: Tid, k: Key, immediate: Status)
    requires Inv(s) && Enabled(s, WaitEnter(t, k, immediate))
    ensures Inv(Apply(s, WaitEnter(t, k, immediate)))
  {
    var s' := Apply(s, WaitEnter(t, k, immediate));
    assert ThreadInv(s, t);
    forall j ensures t !in At(s.queues, j) { assert PlaceInv(s, j, t); }
    AppendConserves(s.queues, k, [t]);
    forall j, u ensures PlaceInv(s', j, u) { assert PlaceInv(s, j, u); }
    forall u ensures ThreadInv(s', u) { assert ThreadInv(s, u); }
  }

  lemma WakeKeepsInv(s: State, k: Key, n: nat)
    requires Inv(s) && Enabled(s, Wake(k, n))
    ensures Inv(Apply(s, Wake(k, n)))
  {
    var s' := Apply(s, Wake(k, n));
    TakeConserves(s.queues, k, n);
    forall j, u ensures PlaceInv(s', j, u) { WakePlace(s, k, n, j, u); }
    forall u ensures ThreadInv(s', u) { WakeThread(s, k, n, u); }
  }

  lemma WakePlace(s: State, k: Key, n: nat, j: Key, u: Tid)
    requires Inv(s) && Enabled(s, Wake(k, n))
    ensures PlaceInv(Apply(s, Wake(k, n)), j, u)
  {
    TakeConserves(s.queues, k, n);
    assert PlaceInv(s, j, u) && PlaceInv(s, k, u);
  }

  lemma WakeThread(s: State, k: Key, n: nat, u: Tid)
    requires Inv(s) && Enabled(s, Wake(k, n))
    ensures ThreadInv(Apply(s, Wake(k, n)), u)
  {
    TakeConserves(s.queues, k, n);
    CountDistinct(Taken(s.queues, k, n), u);
    assert ThreadInv(s, u) && PlaceInv(s, k, u);
  }

  lemma RequeueKeyOf(s: State, wk: Key, w: nat, rk: Key, r: nat, u: Tid)
    requires Inv(s) && Enabled(s, WakeRequeue(wk, w, rk, r))
    ensures var s', Q := Apply(s, WakeRequeue(wk, w, rk, r)), At(s.queues, wk);
            var a, b := Min(w, |Q|), Min(w + r, |Q|);
            KeyOf(s', u) == if u in Q[a..b] then rk else if u in Q[..a] then 0 else KeyOf(s, u)
  {
    var Q := At(s.queues, wk);
    RequeueLaw(s.queues, wk, w, rk, r);
    ThreeParts(Q, Min(w, |Q|), Min(w + r, |Q|));
    assert PlaceInv(s, wk, u);
  }

  lemma RequeuePlace(s: State, wk: Key, w: nat, rk: Key, r: nat, j: Key, u: Tid)
    requires Inv(s) && Enabled(s, WakeRequeue(wk, w, rk, r))
    ensures PlaceInv(Apply(s, WakeRequeue(wk, w, rk, r)), j, u)
  {
    var Q := At(s.queues, wk);
    RequeueLaw(s.queues, wk, w, rk, r);
    ThreeParts(Q, Min(w, |Q|), Min(w + r, |Q|));
    RequeueKeyOf(s, wk, w, rk, r, u);
    assert PlaceInv(s, j, u) && PlaceInv(s, wk, u) && PlaceInv(s, rk, u);
  }

  lemma RequeueThread(s: State, wk: Key, w: nat, rk: Key, r: nat, u: Tid)
    requires Inv(s) && Enabled(s, WakeRequeue(wk, w, rk, r))
    ensures ThreadInv(Apply(s, WakeRequeue(wk, w, rk, r)), u)
  {
    var Q := At(s.queues, wk);
    RequeueLaw(s.queues, wk, w, rk, r);
    ThreeParts(Q, Min(w, |Q|), Min(w + r, |Q|));
    CountDistinct(Q[..Min(w, |Q|)], u);
    RequeueKeyOf(s, wk, w, rk, r, u);
    assert PlaceInv(s, wk, u) && PlaceInv(s, rk, u) && ThreadInv(s, u);
  }

  lemma WakeRequeueKeepsInv(s: State, wk: Key, w: nat, rk: Key, r: nat)
    requires Inv(s) && Enabled(s, WakeRequeue(wk, w, rk, r))
    ensures Inv(Apply(s, WakeRequeue(wk, w, rk, r)))
  {
    var s' := Apply(s, WakeRequeue(wk, w, rk, r));
    RequeueLaw(s.queues, wk, w, rk, r);
    forall j, u ensures PlaceInv(s', j, u) { RequeuePlace(s, wk, w, rk, r, j, u); }
    forall u ensures ThreadInv(s', u) { RequeueThread(s, wk, w, rk, r, u); }
  }

  lemma ThreeParts(Q: seq<Tid>, a: nat, b: nat)
    requires Distinct(Q) && a <= b <= |Q|
    ensures forall u :: u in Q <==> u in Q[..a] || u in Q[a..b] || u in Q[b..]
    ensures forall u :: u in Q[..a] ==> u !in Q[a..b] && u !in Q[b..]
    ensures forall u :: u in Q[a..b] ==> u !in Q[b..]
  {
    assert Q == Q[..a] + Q[a..b] + Q[b..];
  }

  lemma ReturnErrorKeepsInv(s: State, t: Tid)
    requires Inv(s) && Enabled(s, ReturnError(t))
    ensures Inv(Apply(s, ReturnError(t)))
  {
    var s' := Apply(s, ReturnError(t));
    assert ThreadInv(s, t);
    if t in s.linked {
      UnqueueConserves(s.queues, KeyOf(s, t), t);
    }
    forall j, u ensures PlaceInv(s', j, u) { assert PlaceInv(s, j, u); }
    forall u ensures ThreadInv(s', u) { assert ThreadInv(s, u); }
  }

  lemma WakeOneKeepsInv(s: State)
    requires Inv(s) && Enabled(s, WakeOne)
    ensures Inv(Apply(s, WakeOne))
  {
    var s' := Apply(s, WakeOne);
    assert s.toWake == [s.toWake[0]] + s.toWake[1..];
    forall j, u ensures PlaceInv(s', j, u) { assert PlaceInv(s, j, u); }
    forall u ensures ThreadInv(s', u) { assert ThreadInv(s, u); }
  }

  /** Every step keeps the invariant. */
  lemma StepKeepsInv(s: State, step: Step)
    requires Inv(s) && Enabled(s, step)
    ensures Inv(Apply(s, step))
  {
    match step
    case WaitEnter(t, k, immediate) => WaitEnterKeepsInv(s, t, k, immediate);
    case Wake(k, n) => WakeKeepsInv(s, k, n);
    case WakeRequeue(wk, w, rk, r) => WakeRequeueKeepsInv(s, wk, w, rk, r);
    case ReturnError(t) => ReturnErrorKeepsInv(s, t);
    case WakeOne => WakeOneKeepsInv(s);
    case _ =>
      forall j, u ensures PlaceInv(Apply(s, step), j, u) { assert PlaceInv(s, j, u); }
      forall u ensures ThreadInv(Apply(s, step), u) { assert ThreadInv(s, u); }
  }

  lemma InvOnRuns(run: seq<State>, n: nat)
    requires Runs.IsRun(Init, Next, run) && n < |run|
    ensures Inv(run[n])
  {
    forall s, s' | Inv(s) && Next(s, s') ensures Inv(s') {
      var step :| Enabled(s, step) && s' == Apply(s, step);
      StepKeepsInv(s, step);
    }
    Runs.Invariant(Init, Next, Inv, run, n);
  }

  /** No wake is lost and none is counted twice, in any run: the wakes that have taken a thread off
      a queue are its successful returns, plus one while such a return is still to come. */
  lemma WakesAreReturns(run: seq<State>, n: nat, t: Tid)
    requires Runs.IsRun(Init, Next, run) && n < |run|
    ensures var s := run[n]; s.taken[t] == s.oks[t] + if InFlight(s, t) then 1 else 0
    ensures PhaseOf(run[n], t) == Outside ==> run[n].taken[t] == run[n].oks[t]
  {
    InvOnRuns(run, n);
    assert ThreadInv(run[n], t);
  }

  /** A waiter that a wake has taken returns ZX_OK whatever BlockThread() returned; a waiter that
      returns an error was still on the queue of its key, and is then on no queue. */
  lemma ReturnLaw(run: seq<State>, n: nat, t: Tid)
    requires Runs.IsRun(Init, Next, run) && n < |run| && PhaseOf(run[n], t).Unblocked?
    ensures InFlight(run[n], t) <==> Returned(run[n], t) == Ok
    ensures !run[n].locked && Returned(run[n], t) != Ok ==>
              && t in At(run[n].queues, KeyOf(run[n], t))
              && (forall k :: t !in At(Apply(run[n], ReturnError(t)).queues, k))
              && Apply(run[n], ReturnError(t)).oks == run[n].oks
    ensures !run[n].locked && Returned(run[n], t) == Ok && PhaseOf(run[n], t) != Unblocked(Ok) ==>
              Apply(run[n], ReturnError(t)).oks == run[n].oks + multiset{t}
    ensures PhaseOf(run[n], t) == Unblocked(Ok) ==>
              && Enabled(run[n], ReturnOk(t)) && PhaseOf(Apply(run[n], ReturnOk(t)), t) == Outside
              && Apply(run[n], ReturnOk(t)).oks == run[n].oks + multiset{t}
  {
    InvOnRuns(run, n);
    assert ThreadInv(run[n], t);
    if !run[n].locked && t in run[n].linked {
      UnqueueConserves(run[n].queues, KeyOf(run[n], t), t);
    }
  }

  /** A sleeping thread is never stranded: it is on the queue of its own key, or a waker that holds
      the lock is about to wake it. A node a waker still has to touch has not been freed. */
  lemma SleepersAreReachable(run: seq<State>, n: nat, t: Tid)
    requires Runs.IsRun(Init, Next, run) && n < |run|
    ensures PhaseOf(run[n], t) == Blocked ==> t in At(run[n].queues, KeyOf(run[n], t)) || t in run[n].toWake
    ensures t in run[n].toWake ==> run[n].locked && Waiting(run[n], t)
    ensures forall k :: t in At(run[n].queues, k) ==> Waiting(run[n], t) && t in run[n].linked
  {
    InvOnRuns(run, n);
    assert ThreadInv(run[n], t);
    forall k ensures t in At(run[n].queues, k) ==> t in run[n].linked { assert PlaceInv(run[n], k, t); }
  }

  /** The waker's remaining steps. */
  ghost function Drain(s: State): (s': State)
    decreases |s.toWake|
  {
    if s.toWake != [] then Drain(Apply(s, WakeOne))
    else if s.locked then Apply(s, Unlock) else s
  }

  /** Once the waker has finished, everyone it took is awake and can return, with ZX_OK. */
  lemma {:induction false} DrainReleases(s: State)
    requires Inv(s)
    ensures Inv(Drain(s)) && !Drain(s).locked && Drain(s).queues == s.queues
    ensures forall t :: InFlight(s, t) ==>
              PhaseOf(Drain(s), t).Unblocked? && Returned(Drain(s), t) == Ok
    decreases |s.toWake|
  {
    if s.toWake != [] {
      StepKeepsInv(s, WakeOne);
      DrainReleases(Apply(s, WakeOne));
      assert forall t :: InFlight(s, t) ==> InFlight(Apply(s, WakeOne), t);
    } else {
      if s.locked { StepKeepsInv(s, Unlock); }
      forall t | InFlight(s, t) ensures PhaseOf(s, t).Unblocked? { assert ThreadInv(s, t); }
    }
  }

  /** It unblocks nobody else, and with success whoever still slept. */
  lemma {:induction false} DrainPhase(s: State, t: Tid)
    requires Inv(s)
    ensures PhaseOf(Drain(s), t) ==
            if t in s.toWake && PhaseOf(s, t) == Blocked then Unblocked(Ok) else PhaseOf(s, t)
    ensures KeyOf(Drain(s), t) == KeyOf(s, t) && (t in Drain(s).linked <==> t in s.linked)
    decreases |s.toWake|
  {
    if s.toWake != [] {
      StepKeepsInv(s, WakeOne);
      DrainPhase(Apply(s, WakeOne), t);
      assert s.toWake == [s.toWake[0]] + s.toWake[1..];
    }
  }

  /** A wake, with all its steps: the first `n` waiters of the key, or all if there are fewer, are
      taken in queue order and their waits return ZX_OK, each that slept being unblocked with
      success; the others keep their places, their keys and their sleep. */
  lemma WakeLaw(run: seq<State>, i: nat, k: Key, n: nat)
    requires Runs.IsRun(Init, Next, run) && i < |run| && !run[i].locked && n > 0
    ensures Enabled(run[i], Wake(k, n))
    ensures var s, d := run[i], Drain(Apply(run[i], Wake(k, n)));
            var Q := At(s.queues, k); var m := Min(n, |Q|);
            && At(d.queues, k) == Q[m..] && (forall j :: j != k ==> At(d.queues, j) == At(s.queues, j))
            && (forall t :: t in Q[..m] ==>
                  && (PhaseOf(s, t) == Blocked ==> PhaseOf(d, t) == Unblocked(Ok))
                  && PhaseOf(d, t).Unblocked? && Returned(d, t) == Ok)
            && (forall t :: t !in Q[..m] ==> PhaseOf(d, t) == PhaseOf(s, t) && KeyOf(d, t) == KeyOf(s, t))
  {
    InvOnRuns(run, i);
    var s, s' := run[i], Apply(run[i], Wake(k, n));
    var Q := At(s.queues, k);
    var m := Min(n, |Q|);
    TakeConserves(s.queues, k, n);
    WakeKeepsInv(s, k, n);
    DrainReleases(s');
    AtPut(s.queues, k, Q[m..]);
    forall t | t in Q[..m]
      ensures PhaseOf(s, t) == Blocked ==> PhaseOf(Drain(s'), t) == Unblocked(Ok)
      ensures PhaseOf(Drain(s'), t).Unblocked? && Returned(Drain(s'), t) == Ok
    {
      DrainPhase(s', t);
      assert PlaceInv(s, k, t) && ThreadInv(s, t);
      assert InFlight(s', t);
    }
    forall t | t !in Q[..m] ensures PhaseOf(Drain(s'), t) == PhaseOf(s, t) && KeyOf(Drain(s'), t) == KeyOf(s, t) {
      DrainPhase(s', t);
    }
  }

  /** A requeue, with all its steps: as a wake for the first `w`; the next `r` still wait as before,
      in order behind the waiters of the other key and under that key. */
  lemma WakeRequeueLaw(run: seq<State>, i: nat, wk: Key, w: nat, rk: Key, r: nat)
    requires Runs.IsRun(Init, Next, run) && i < |run| && !run[i].locked && wk != rk
    ensures Enabled(run[i], WakeRequeue(wk, w, rk, r))
    ensures var s, d := run[i], Drain(Apply(run[i], WakeRequeue(wk, w, rk, r)));
            var Q := At(s.queues, wk); var a, b := Min(w, |Q|), Min(w + r, |Q|);
            && At(d.queues, rk) == At(s.queues, rk) + Q[a..b] && At(d.queues, wk) == Q[b..]
            && (forall j :: j != wk && j != rk ==> At(d.queues, j) == At(s.queues, j))
            && (forall t :: RequeuedTo(s, d, Q[..a], Q[a..b], rk, t))
  {
    InvOnRuns(run, i);
    var s, s' := run[i], Apply(run[i], WakeRequeue(wk, w, rk, r));
    var Q := At(s.queues, wk);
    WakeRequeueKeepsInv(s, wk, w, rk, r);
    RequeueLaw(s.queues, wk, w, rk, r);
    DrainReleases(s');
    var woken, moved := Q[..Min(w, |Q|)], Q[Min(w, |Q|)..Min(w + r, |Q|)];
    forall t ensures RequeuedTo(s, Drain(s'), woken, moved, rk, t) { RequeuedThread(s, wk, w, rk, r, t); }
  }

  /** What a requeue that wakes and moves the given waiters means for a thread. */
  ghost predicate RequeuedTo(s: State, d: State, woken: seq<Tid>, moved: seq<Tid>, rk: Key, t: Tid) {
    if t in woken then
      (PhaseOf(s, t) == Blocked ==> PhaseOf(d, t) == Unblocked(Ok)) && PhaseOf(d, t).Unblocked? && Returned(d, t) == Ok
    else PhaseOf(d, t) == PhaseOf(s, t) && KeyOf(d, t) == if t in moved then rk else KeyOf(s, t)
  }

  lemma RequeuedThread(s: State, wk: Key, w: nat, rk: Key, r: nat, t: Tid)
    requires Inv(s) && Enabled(s, WakeRequeue(wk, w, rk, r))
    ensures var Q := At(s.queues, wk); var a, b := Min(w, |Q|), Min(w + r, |Q|);
            RequeuedTo(s, Drain(Apply(s, WakeRequeue(wk, w, rk, r))), Q[..a], Q[a..b], rk, t)
  {
    var s' := Apply(s, WakeRequeue(wk, w, rk, r));
    var Q := At(s.queues, wk);
    WakeRequeueKeepsInv(s, wk, w, rk, r);
    RequeueLaw(s.queues, wk, w, rk, r);
    RequeueKeyOf(s, wk, w, rk, r, t);
    ThreeParts(Q, Min(w, |Q|), Min(w + r, |Q|));
    DrainPhase(s', t);
    if t in Q[..Min(w, |Q|)] {
      DrainReleases(s');
      assert PlaceInv(s, wk, t) && ThreadInv(s, t);
      assert InFlight(s', t);
    }
  }

  /** A waiter is last in the queue of its key, where the first wake of enough threads finds it. */
  lemma WaitLaw(run: seq<State>, i: nat, t: Tid, k: Key, immediate: Status)
    requires Runs.IsRun(Init, Next, run) && i < |run| && !run[i].locked && PhaseOf(run[i], t) == Outside
    ensures Enabled(run[i], WaitEnter(t, k, immediate))
    ensures var s, s' := run[i], Apply(run[i], WaitEnter(t, k, immediate));
            && At(s'.queues, k) == At(s.queues, k) + [t] && (forall j :: j != k ==> At(s'.queues, j) == At(s.queues, j))
            && KeyOf(s', t) == k && PhaseOf(s', t) == (if immediate == Ok then Blocked else Unblocked(immediate))
            && (forall u :: u != t ==> PhaseOf(s', u) == PhaseOf(s, u) && KeyOf(s', u) == KeyOf(s, u))
  {
    InvOnRuns(run, i);
    var s := run[i];
    assert ThreadInv(s, t);
    forall j ensures t !in At(s.queues, j) { assert PlaceInv(s, j, t); }
    AppendConserves(s.queues, k, [t]);
  }

  /** The step that ended a thread's sleep with the given error. */
  ghost predicate Fails(s: State, s': State, t: Tid, e: Status) {
    || (Enabled(s, Expire(t, e)) && s' == Apply(s, Expire(t, e)))
    || (exists k :: Enabled(s, WaitEnter(t, k, e)) && s' == Apply(s, WaitEnter(t, k, e)))
  }

  /** A sleeper can time out, be killed or be suspended at any time, and then returns as soon as no
      waker holds the lock. */
  lemma ExpireLaw(s: State, t: Tid, e: Status)
    requires PhaseOf(s, t) == Blocked && e != Ok
    ensures Enabled(s, Expire(t, e))
    ensures var s' := Apply(s, Expire(t, e));
            && PhaseOf(s', t) == Unblocked(e) && s'.queues == s.queues && s'.toWake == s.toWake
            && (forall u :: u != t ==> PhaseOf(s', u) == PhaseOf(s, u))
            && (!s.locked ==> Enabled(s', ReturnError(t)) && PhaseOf(Apply(s', ReturnError(t)), t) == Outside)
  {
  }

  lemma FailsStep(s: State, step: Step, t: Tid, e: Status)
    requires Enabled(s, step) && PhaseOf(Apply(s, step), t) == Unblocked(e) && e != Ok
    ensures PhaseOf(s, t) == Unblocked(e) || Fails(s, Apply(s, step), t, e)
  {
    PhaseAfter(s, step, t);
  }

  /** Which steps change the phase of a thread to an error. */
  lemma PhaseAfter(s: State, step: Step, t: Tid)
    requires Enabled(s, step)
    ensures var p, p' := PhaseOf(s, t), PhaseOf(Apply(s, step), t);
            p' == p || p' == Outside || p' == Blocked || p' == Unblocked(Ok) || (step.Expire? && step.t == t && p' == Unblocked(step.status))
            || (step.WaitEnter? && step.t == t && p' == Unblocked(step.immediate))
  {
    match step
    case Wake(_, _) => assert Apply(s, step).phase == s.phase;
    case WakeRequeue(_, _, _, _) => assert Apply(s, step).phase == s.phase;
    case ReturnError(u) => assert Apply(s, step).phase == s.phase[u := Outside];
    case _ =>
  }

  /** The sleep of the thread ended with the error at i, and nothing has happened to it since. */
  ghost predicate FailedAt(run: seq<State>, i: nat, n: nat, t: Tid, e: Status) {
    i < n < |run| && Fails(run[i], run[i + 1], t, e) && forall j :: i < j <= n ==> PhaseOf(run[j], t) == Unblocked(e)
  }

  lemma {:induction false} FailedBefore(run: seq<State>, n: nat, t: Tid, e: Status) returns (i: nat)
    requires n < |run| && PhaseOf(run[0], t) == Outside && PhaseOf(run[n], t) == Unblocked(e) && e != Ok
    requires forall j :: 0 <= j < n ==> StepsAt(run, j)
    ensures FailedAt(run, i, n, t, e)
  {
    assert n > 0 && StepsAt(run, n - 1);
    if PhaseOf(run[n - 1], t) == Unblocked(e) {
      i := FailedBefore(run, n - 1, t, e);
    } else {
      var step :| Enabled(run[n - 1], step) && run[n] == Apply(run[n - 1], step);
      FailsStep(run[n - 1], step, t, e);
      i := n - 1;
    }
  }

  ghost predicate StepsAt(run: seq<State>, i: nat) {
    i + 1 < |run| && Next(run[i], run[i + 1])
  }

  /** The error that a wait returns is the one that ended its sleep: the last step that changed the
      thread's phase was its timeout, kill or suspension with that error; and it is returned exactly
      if no wake has taken the thread. */
  lemma ErrorLaw(run: seq<State>, n: nat, t: Tid, e: Status) returns (i: nat)
    requires Runs.IsRun(Init, Next, run) && n < |run| && PhaseOf(run[n], t) == Unblocked(e) && e != Ok
    ensures FailedAt(run, i, n, t, e)
    ensures Returned(run[n], t) == if InFlight(run[n], t) then Ok else e
  {
    forall j | 0 <= j < n ensures StepsAt(run, j) { assert Next(run[j], run[j + 1]); }
    i := FailedBefore(run, n, t, e);
  }
}
