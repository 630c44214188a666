/** mutex_acquire() and mutex_release() by any number of threads on one mutex.

    Every compare-and-swap on the mutex word is one step; a section under the thread lock is cut at
    each access to the word, because the lock-free fast paths can fall in between. */
module MutexProtocol {
  import opened Lists
  import Runs

  /** Thread structures are aligned, so the low bit of their address is free for the flag. */
  type Thread = a: nat | a > 0 && a % 2 == 0 witness 2

  datatype Pc =
    | Outside
    | AcqTry                                          // at the compare-and-swap of the fast path
    | AcqContend                                      // it failed; wants the thread lock
    | AcqLocked | AcqLoaded(seen: nat) | AcqFlagged     // holds the thread lock
    | Asleep | Woken                                  // in wait_queue_block()
    | Holding(locked: bool)                           // owns the mutex, maybe under the thread lock
    | RelTry(locked: bool)                            // at the compare-and-swap of the fast path
    | RelContend                                      // it failed; wants the thread lock
    | RelLocked(locked: bool)                         // holds the thread lock
    | RelDequeued(locked: bool, t: Thread, val: nat)
    | RelWake(locked: bool, t: Thread)
    | Done                                            // released, still under the caller's thread lock

  datatype State = State(
    val: nat,                   // the mutex word
    wait: seq<Thread>,          // the wait queue
    lock: Option<Thread>,       // the owner of the thread lock
    pc: map<Thread, Pc>,
    panicked: bool)

  function Flagged(val: nat): bool { val % 2 == 1 }

  /** val | MUTEX_FLAG_QUEUED, and val & ~MUTEX_FLAG_QUEUED. */
  function OrFlag(val: nat): nat { if Flagged(val) then val else val + 1 }
  function HolderWord(val: nat): nat { if Flagged(val) then val - 1 else val }

  function PcOf(s: State, t: Thread): Pc {
    if t in s.pc then s.pc[t] else Outside
  }

  function Goto(s: State, t: Thread, pc: Pc): State {
    s.(pc := s.pc[t := pc])
  }

  function Unlock(s: State): State { s.(lock := None) }

  /** The end of a release: the thread lock stays with a caller that already held it. */
  function EndRelease(s: State, t: Thread, locked: bool): State {
    if locked then Goto(s, t, Done) else Unlock(Goto(s, t, Outside))
  }

  /** One step of thread t; `i` picks the waiter that wait_queue_dequeue_one() returns, and `choice`
      is what the thread decides where the mutex code does not. */
  ghost predicate Enabled(s: State, t: Thread, i: nat, choice: bool) {
    match PcOf(s, t)
    case AcqContend => s.lock == None
    case RelContend => s.lock == None
    case Asleep => false
    case Holding(locked) => !locked && choice ==> s.lock == None
    case RelLocked(_) => s.wait != [] ==> i < |s.wait|
    case _ => true
  }

  ghost function Step(s: State, t: Thread, i: nat, choice: bool): State
    requires Enabled(s, t, i, choice)
  {
    match PcOf(s, t)
    case Outside => Goto(s, t, AcqTry)
    case AcqTry =>
      if s.val == 0 then Goto(s.(val := t), t, Holding(false)) else Goto(s, t, AcqContend)
    case AcqContend =>
      // acquiring a mutex that the thread already owns panics
      Goto(s.(lock := Some(t), panicked := s.panicked || HolderWord(s.val) == t), t, AcqLocked)
    case AcqLocked =>
      if s.val == 0 then Unlock(Goto(s, t, AcqTry)) else Goto(s, t, AcqLoaded(s.val))
    case AcqLoaded(seen) =>
      if s.val == seen then Goto(s.(val := OrFlag(seen)), t, AcqFlagged) else Unlock(Goto(s, t, AcqTry))
    case AcqFlagged => Unlock(Goto(s.(wait := s.wait + [t]), t, Asleep))
    case Woken => Goto(s.(panicked := s.panicked || HolderWord(s.val) != t), t, Holding(false))
    case Holding(locked) =>
      if !locked && choice then Goto(s.(lock := Some(t)), t, Holding(true)) else Goto(s, t, RelTry(locked))
    case RelTry(locked) =>
      if s.val == t then Goto(s.(val := 0), t, if locked then Done else Outside)
      else if locked then Goto(s, t, RelLocked(true)) else Goto(s, t, RelContend)
    case RelContend =>
      Goto(s.(lock := Some(t), panicked := s.panicked || HolderWord(s.val) != t), t, RelLocked(false))
    case RelLocked(locked) =>
      if s.wait == [] then s.(panicked := true)
      else
        var rest := s.wait[..i] + s.wait[i + 1..];
        var newval := if rest == [] then s.wait[i] else OrFlag(s.wait[i]);
        Goto(s.(wait := rest), t, RelDequeued(locked, s.wait[i], newval))
    case RelDequeued(locked, w, newval) =>
      if s.val == OrFlag(t) then Goto(s.(val := newval), t, RelWake(locked, w))
      else s.(panicked := true)
    case RelWake(locked, w) => EndRelease(Goto(s, w, Woken), t, locked)
    case Done => Unlock(Goto(s, t, Outside))
  }

  ghost predicate Init(s: State) {
    s == State(0, [], None, map[], false)
  }

  ghost predicate Next(s: State, s': State) {
    exists t: Thread, i: nat, choice: bool :: Enabled(s, t, i, choice) && s' == Step(s, t, i, choice)
  }

  /** The thread owns the thread lock at this point. */
  predicate HasLock(pc: Pc) {
    match pc
    case AcqLocked => true
    case AcqLoaded(_) => true
    case AcqFlagged => true
    case Holding(locked) => locked
    case RelTry(locked) => locked
    case RelLocked(_) => true
    case RelDequeued(_, _, _) => true
    case RelWake(_, _) => true
    case Done => true
    case _ => false
  }

  /** The thread owns the mutex at this point. */
  predicate Owns(pc: Pc) {
    pc.Woken? || pc.Holding? || pc.RelTry? || pc.RelContend? || pc.RelLocked? || pc.RelDequeued?
  }

  /** The releaser that is about to hand the mutex to w. */
  predicate HandsTo(pc: Pc, w: Thread) {
    (pc.RelDequeued? || pc.RelWake?) && pc.t == w
  }

  ghost predicate ThreadInv(s: State, t: Thread) {
    var pc := PcOf(s, t);
    && (s.lock == Some(t) <==> HasLock(pc))
    && (Owns(pc) ==> HolderWord(s.val) == t)
    && (pc.RelContend? || pc.RelLocked? || pc.RelDequeued? ==> s.val == OrFlag(t))
    && (t in s.wait ==> pc == Asleep)
    && (pc.AcqLoaded? ==> pc.seen != 0)
    && (pc.RelDequeued? ==> pc.t != t && pc.val == if s.wait == [] then pc.t else OrFlag(pc.t))
    && (pc.RelDequeued? || pc.RelWake? ==> pc.t !in s.wait && PcOf(s, pc.t) == Asleep)
    && (pc.RelWake? ==> HolderWord(s.val) == pc.t)
    && (pc == Asleep ==> t in s.wait || (s.lock.Some? && HandsTo(PcOf(s, s.lock.value), t)))
    && (HolderWord(s.val) == t ==> Owns(pc) || (s.lock.Some? && PcOf(s, s.lock.value).RelWake?))
  }

  /** The lock owner is between setting the flag and queueing, or between dequeueing and storing. */
  predicate InTransit(pc: Pc) {
    pc.AcqFlagged? || pc.RelDequeued?
  }

  ghost predicate Inv(s: State) {
    && !s.panicked
    && Distinct(s.wait)
    && s.val != 1
    && (if s.lock.Some? && InTransit(PcOf(s, s.lock.value)) then Flagged(s.val)
        else Flagged(s.val) <==> s.wait != [])
    && (forall t: Thread :: ThreadInv(s, t))
  }

  lemma FastAcquire(s: State, t: Thread, i: nat, choice: bool)
    requires Inv(s) && Enabled(s, t, i, choice) && PcOf(s, t).AcqTry?
    ensures Inv(Step(s, t, i, choice))
  {
    var s' := Step(s, t, i, choice);
    assert ThreadInv(s, t);
    if s.lock.Some? { assert ThreadInv(s, s.lock.value); }
    forall u: Thread ensures ThreadInv(s', u) { assert ThreadInv(s, u); }
  }

  lemma SlowAcquire(s: State, t: Thread, i: nat, choice: bool)
    requires Inv(s) && Enabled(s, t, i, choice) && (PcOf(s, t).AcqContend? || PcOf(s, t).AcqLocked? || PcOf(s, t).AcqLoaded?)
    ensures Inv(Step(s, t, i, choice))
  {
    var s' := Step(s, t, i, choice);
    assert ThreadInv(s, t);
    if s.lock.Some? { assert ThreadInv(s, s.lock.value); }
    forall u: Thread ensures ThreadInv(s', u) { assert ThreadInv(s, u); }
  }

  lemma Enqueue(s: State, t: Thread, i: nat, choice: bool)
    requires Inv(s) && Enabled(s, t, i, choice) && PcOf(s, t).AcqFlagged?
    ensures Inv(Step(s, t, i, choice))
  {
    var s' := Step(s, t, i, choice);
    assert ThreadInv(s, t);
    forall u: Thread ensures ThreadInv(s', u) { assert ThreadInv(s, u); }
  }

  lemma FastRelease(s: State, t: Thread, i: nat, choice: bool)
    requires Inv(s) && Enabled(s, t, i, choice) && PcOf(s, t).RelTry?
    ensures Inv(Step(s, t, i, choice))
  {
    var s' := Step(s, t, i, choice);
    assert ThreadInv(s, t);
    if s.lock.Some? { assert ThreadInv(s, s.lock.value); }
    forall u: Thread ensures ThreadInv(s', u) { assert ThreadInv(s, u); }
  }

  lemma Dequeue(s: State, t: Thread, i: nat, choice: bool)
    requires Inv(s) && Enabled(s, t, i, choice) && PcOf(s, t).RelLocked?
    ensures Inv(Step(s, t, i, choice))
  {
    var s' := Step(s, t, i, choice);
    assert ThreadInv(s, t);
    assert s.wait == s.wait[..i] + [s.wait[i]] + s.wait[i + 1..];
    assert ThreadInv(s, s.wait[i]);
    forall u: Thread ensures ThreadInv(s', u) { assert ThreadInv(s, u); }
  }

  lemma HandOver(s: State, t: Thread, i: nat, choice: bool)
    requires Inv(s) && Enabled(s, t, i, choice) && (PcOf(s, t).RelDequeued? || PcOf(s, t).RelWake?)
    ensures Inv(Step(s, t, i, choice))
  {
    var s' := Step(s, t, i, choice);
    assert ThreadInv(s, t);
    assert ThreadInv(s, PcOf(s, t).t);
    forall u: Thread ensures ThreadInv(s', u) { assert ThreadInv(s, u); }
  }

  lemma EdgeSteps(s: State, t: Thread, i: nat, choice: bool)
    requires Inv(s) && Enabled(s, t, i, choice) && (PcOf(s, t).Outside? || PcOf(s, t).Holding? || PcOf(s, t).RelContend?)
    ensures Inv(Step(s, t, i, choice))
  {
    var s' := Step(s, t, i, choice);
    assert ThreadInv(s, t);
    if s.lock.Some? { assert ThreadInv(s, s.lock.value); }
    forall u: Thread ensures ThreadInv(s', u) { assert ThreadInv(s, u); }
  }

  lemma LastSteps(s: State, t: Thread, i: nat, choice: bool)
    requires Inv(s) && Enabled(s, t, i, choice) && (PcOf(s, t).Woken? || PcOf(s, t).Done?)
    ensures Inv(Step(s, t, i, choice))
  {
    var s' := Step(s, t, i, choice);
    assert ThreadInv(s, t);
    if s.lock.Some? { assert ThreadInv(s, s.lock.value); }
    forall u: Thread ensures ThreadInv(s', u) { assert ThreadInv(s, u); }
  }

  lemma StepKeepsInv(s: State, t: Thread, i: nat, choice: bool)
    requires Inv(s) && Enabled(s, t, i, choice)
    ensures Inv(Step(s, t, i, choice))
  {
    match PcOf(s, t)
    case AcqTry => FastAcquire(s, t, i, choice);
    case AcqFlagged => Enqueue(s, t, i, choice);
    case RelTry(_) => FastRelease(s, t, i, choice);
    case RelLocked(_) => Dequeue(s, t, i, choice);
    case AcqContend => SlowAcquire(s, t, i, choice);
    case AcqLocked => SlowAcquire(s, t, i, choice);
    case AcqLoaded(_) => SlowAcquire(s, t, i, choice);
    case RelDequeued(_, _, _) => HandOver(s, t, i, choice);
    case RelWake(_, _) => HandOver(s, t, i, choice);
    case Woken => LastSteps(s, t, i, choice);
    case Done => LastSteps(s, t, i, choice);
    case _ => EdgeSteps(s, t, i, choice);
  }

  lemma InvOnRuns(run: seq<State>, n: nat)
    requires Runs.IsRun(Init, Next, run) && n < |run|
    ensures Inv(run[n])
  {
    forall s, s' | Inv(s) && Next(s, s') ensures Inv(s') {
      var t: Thread, i: nat, choice: bool :| Enabled(s, t, i, choice) && s' == Step(s, t, i, choice);
      StepKeepsInv(s, t, i, choice);
    }
    Runs.Invariant(Init, Next, Inv, run, n);
  }

  /** At most one thread owns the mutex, and the mutex word names it. */
  lemma MutualExclusion(run: seq<State>, n: nat, t: Thread, u: Thread)
    requires Runs.IsRun(Init, Next, run) && n < |run|
    ensures Owns(PcOf(run[n], t)) && Owns(PcOf(run[n], u)) ==> t == u
    ensures Owns(PcOf(run[n], t)) ==> HolderWord(run[n].val) == t
  {
    InvOnRuns(run, n);
    assert ThreadInv(run[n], t) && ThreadInv(run[n], u);
  }

  /** Whenever the thread lock is free, the flag says exactly whether somebody waits, every waiter is
      asleep in the queue, and an owner exists that will find the flag. */
  lemma FlagLaw(run: seq<State>, n: nat, t: Thread)
    requires Runs.IsRun(Init, Next, run) && n < |run| && run[n].lock == None
    ensures Flagged(run[n].val) <==> run[n].wait != []
    ensures t in run[n].wait <==> PcOf(run[n], t) == Asleep
    ensures run[n].wait != [] ==> HolderWord(run[n].val) > 0 && Owns(PcOf(run[n], HolderWord(run[n].val)))
  {
    InvOnRuns(run, n);
    assert ThreadInv(run[n], t);
    if run[n].wait != [] {
      assert ThreadInv(run[n], HolderWord(run[n].val));
    }
  }

  /** No run panics: a slow release finds a waiter, its compare-and-swap succeeds, the woken thread
      finds that it owns the mutex, and only owners release. */
  lemma NeverPanics(run: seq<State>, n: nat)
    requires Runs.IsRun(Init, Next, run) && n < |run|
    ensures !run[n].panicked
  {
    InvOnRuns(run, n);
  }

  /** Direct hand-off: with somebody waiting a release cannot take the fast path, it removes one
      waiter, and the mutex goes from the releaser to that waiter without ever being free. */
  lemma HandOff(run: seq<State>, n: nat, t: Thread, i: nat, choice: bool)
    requires Runs.IsRun(Init, Next, run) && n < |run| && Enabled(run[n], t, i, choice)
    ensures var s, s' := run[n], Step(run[n], t, i, choice);
            && (PcOf(s, t).RelTry? && s.wait != [] ==> s'.val == s.val != 0)
            && (PcOf(s, t).RelLocked? ==>
                  && s.wait != [] && s'.val == s.val
                  && PcOf(s', t).RelDequeued? && PcOf(s', t).t == s.wait[i]
                  && multiset(s'.wait) + multiset{s.wait[i]} == multiset(s.wait))
            && (PcOf(s, t).RelDequeued? ==>
                  && HolderWord(s.val) == t && HolderWord(s'.val) == PcOf(s, t).t
                  && (Flagged(s'.val) <==> s'.wait != []))
            && (PcOf(s, t).RelWake? ==>
                  && PcOf(s', PcOf(s, t).t) == Woken && s'.val == s.val
                  && HolderWord(s.val) == PcOf(s, t).t)
  {
    InvOnRuns(run, n);
    HandOffStep(run[n], t, i, choice);
  }

  lemma TakenOut(w: seq<Thread>, i: nat)
    requires i < |w|
    ensures multiset(w[..i] + w[i + 1..]) + multiset{w[i]} == multiset(w)
  {
    assert w == w[..i] + [w[i]] + w[i + 1..];
  }

  lemma HandOffStep(s: State, t: Thread, i: nat, choice: bool)
    requires Inv(s) && Enabled(s, t, i, choice)
    ensures var s' := Step(s, t, i, choice);
            && (PcOf(s, t).RelTry? && s.wait != [] ==> s'.val == s.val != 0)
            && (PcOf(s, t).RelLocked? ==>
                  && s.wait != [] && s'.val == s.val
                  && PcOf(s', t).RelDequeued? && PcOf(s', t).t == s.wait[i]
                  && multiset(s'.wait) + multiset{s.wait[i]} == multiset(s.wait))
            && (PcOf(s, t).RelDequeued? ==>
                  && HolderWord(s.val) == t && HolderWord(s'.val) == PcOf(s, t).t
                  && (Flagged(s'.val) <==> s'.wait != []))
            && (PcOf(s, t).RelWake? ==>
                  && PcOf(s', PcOf(s, t).t) == Woken && s'.val == s.val
                  && HolderWord(s.val) == PcOf(s, t).t)
  {
    assert ThreadInv(s, t);
    if PcOf(s, t).RelLocked? { TakenOut(s.wait, i); }
  }

  // ---------- a mutex is acquired ----------

  /** t takes the step that is next for it; of several waiters a release picks the first. */
  ghost function Go(s: State, t: Thread, choice: bool): State {
    if Enabled(s, t, 0, choice) then Step(s, t, 0, choice) else s
  }

  /** A thread that tries a free mutex owns it at once, and the word names it; one that tries a held
      mutex goes on to the slow path and changes nothing. */
  lemma TryAcquires(run: seq<State>, n: nat, t: Thread)
    requires Runs.IsRun(Init, Next, run) && n < |run| && PcOf(run[n], t) == AcqTry
    ensures Enabled(run[n], t, 0, false)
    ensures var s, s' := run[n], Go(run[n], t, false);
            && (s.val == 0 ==> s'.val == t && PcOf(s', t) == Holding(false) && s'.wait == s.wait && s'.lock == s.lock)
            && (s.val != 0 ==> s' == Goto(s, t, AcqContend))
  {
  }

  /** A thread that comes to a free mutex holds it after two steps of its own, and two more release
      it again. */
  lemma AloneAcquires(run: seq<State>, n: nat, t: Thread)
    requires Runs.IsRun(Init, Next, run) && n < |run| && PcOf(run[n], t) == Outside && run[n].val == 0
    ensures var held := Go(Go(run[n], t, false), t, false);
            var free := Go(Go(held, t, false), t, false);
            && PcOf(held, t) == Holding(false) && held.val == t
            && PcOf(free, t) == Outside && free.val == 0 && free.wait == run[n].wait && free.lock == run[n].lock
  {
  }

  /** On the slow path behind the holder h, or already asleep. */
  ghost predicate Blocking(s: State, t: Thread, h: Thread) {
    && HolderWord(s.val) == h != t
    && (PcOf(s, t).AcqContend? || PcOf(s, t).AcqLocked? || PcOf(s, t) == AcqLoaded(s.val) || PcOf(s, t).AcqFlagged? || PcOf(s, t).Asleep?)
  }

  lemma BlockingOwnStep(s: State, t: Thread, h: Thread, i: nat, choice: bool)
    requires Inv(s) && Enabled(s, t, i, choice) && Blocking(s, t, h)
    ensures Blocking(Step(s, t, i, choice), t, h)
  {
    assert ThreadInv(s, t);
  }

  lemma BlockingOtherStep(s: State, t: Thread, h: Thread, u: Thread, i: nat, choice: bool)
    requires Inv(s) && Enabled(s, u, i, choice) && u != t && Blocking(s, t, h) && HolderWord(Step(s, u, i, choice).val) == h
    ensures Blocking(Step(s, u, i, choice), t, h)
  {
    assert ThreadInv(s, t) && ThreadInv(s, u);
  }

  /** A step of a run after which h is the holder. */
  ghost predicate StepsAt(run: seq<State>, i: nat, h: Thread) {
    i + 1 < |run| && Inv(run[i]) && Next(run[i], run[i + 1]) && HolderWord(run[i + 1].val) == h
  }

  lemma {:induction false} KeepsBlocking(run: seq<State>, n: nat, m: nat, t: Thread, h: Thread)
    requires n <= m < |run| && Blocking(run[n], t, h)
    requires forall i :: n <= i < m ==> StepsAt(run, i, h)
    ensures Blocking(run[m], t, h)
  {
    if n < m {
      KeepsBlocking(run, n, m - 1, t, h);
      assert StepsAt(run, m - 1, h);
      var s := run[m - 1];
      var u: Thread, i: nat, choice: bool :| Enabled(s, u, i, choice) && run[m] == Step(s, u, i, choice);
      if u == t { BlockingOwnStep(s, t, h, i, choice); } else { BlockingOtherStep(s, t, h, u, i, choice); }
    }
  }

  /** A thread that has found the mutex held goes on to sleep and does not try again, in any run, as
      long as the mutex stays with that holder; so it is back at its first try only because the word
      has changed. */
  lemma RetryNeedsChange(run: seq<State>, n: nat, m: nat, t: Thread, h: Thread)
    requires Runs.IsRun(Init, Next, run) && n <= m < |run|
    requires PcOf(run[n], t) == AcqContend && forall i :: n <= i <= m ==> HolderWord(run[i].val) == h
    ensures Blocking(run[m], t, h) && PcOf(run[m], t) != AcqTry
  {
    InvOnRuns(run, n);
    assert ThreadInv(run[n], t) && HolderWord(run[n].val) == h;
    if run[n].lock.Some? { assert ThreadInv(run[n], run[n].lock.value); }
    forall i | n <= i < m ensures StepsAt(run, i, h) {
      InvOnRuns(run, i);
      assert Next(run[i], run[i + 1]);
    }
    KeepsBlocking(run, n, m, t, h);
  }

  /** With the thread lock free it takes four steps of its own to be asleep, last in the queue, with
      the flag set and the thread lock free again. */
  lemma FallsAsleep(run: seq<State>, n: nat, t: Thread)
    requires Runs.IsRun(Init, Next, run) && n < |run| && PcOf(run[n], t) == AcqContend
    requires run[n].val != 0 && run[n].lock == None
    ensures var s, s' := run[n], Go(Go(Go(Go(run[n], t, false), t, false), t, false), t, false);
            && PcOf(s', t) == Asleep && s'.wait == s.wait + [t] && s'.lock == None
            && Flagged(s'.val) && HolderWord(s'.val) == HolderWord(s.val)
  {
    InvOnRuns(run, n);
    assert ThreadInv(run[n], t);
  }

  /** A holder with waiters and the thread lock free hands over in six steps of its own: the first
      waiter is awake and owns the mutex, the others still wait behind it in their order, and one
      more step lets it go on. */
  lemma ServesWaiter(run: seq<State>, n: nat, t: Thread)
    requires Runs.IsRun(Init, Next, run) && n < |run| && PcOf(run[n], t) == Holding(false)
    requires run[n].wait != [] && run[n].lock == None
    ensures var s := run[n];
            var s3 := Go(Go(Go(s, t, false), t, false), t, false);
            var s' := Go(Go(Go(s3, t, false), t, false), t, false);
            var w := s.wait[0];
            && PcOf(s', t) == Outside && s'.lock == None && s'.wait == s.wait[1..] && HolderWord(s'.val) == w
            && PcOf(s', w) == Woken && PcOf(Go(s', w, false), w) == Holding(false)
  {
    InvOnRuns(run, n);
    var s := run[n];
    var w := s.wait[0];
    assert ThreadInv(s, t) && ThreadInv(s, w) && w in s.wait;
    assert s.wait[..0] + s.wait[1..] == s.wait[1..];
    assert s.val == OrFlag(t) != t;
    var s3 := Go(Go(Go(s, t, false), t, false), t, false);
    assert s3 == s.(lock := Some(t), pc := s3.pc) && PcOf(s3, t) == RelLocked(false) && PcOf(s3, w) == Asleep;
    ServesFirst(s3, t);
  }

  lemma ServesFirst(s: State, t: Thread)
    requires PcOf(s, t) == RelLocked(false) && s.wait != [] && s.val == OrFlag(t) && s.wait[0] != t
    ensures var s' := Go(Go(Go(s, t, false), t, false), t, false);
            var w := s.wait[0];
            && PcOf(s', t) == Outside && s'.lock == None && s'.wait == s.wait[1..] && HolderWord(s'.val) == w
            && PcOf(s', w) == Woken && PcOf(Go(s', w, false), w) == Holding(false)
  {
    var w, rest := s.wait[0], s.wait[1..];
    assert s.wait[..0] + s.wait[1..] == rest;
    var newval: nat := if rest == [] then w else OrFlag(w);
    var s1 := Goto(s.(wait := rest), t, RelDequeued(false, w, newval));
    assert Go(s, t, false) == s1;
    WakesWaiter(s1, t, w, newval);
  }

  lemma WakesWaiter(s: State, t: Thread, w: Thread, newval: nat)
    requires PcOf(s, t) == RelDequeued(false, w, newval) && s.val == OrFlag(t) && w != t && HolderWord(newval) == w
    ensures var s' := Go(Go(s, t, false), t, false);
            && PcOf(s', t) == Outside && s'.lock == None && s'.wait == s.wait && s'.val == newval
            && PcOf(s', w) == Woken && PcOf(Go(s', w, false), w) == Holding(false)
  {
  }

  /** The mutex never locks up: while any thread is in it, some thread in it can take a step. */
  lemma NoDeadlock(run: seq<State>, n: nat, t: Thread) returns (u: Thread)
    requires Runs.IsRun(Init, Next, run) && n < |run| && PcOf(run[n], t) != Outside
    ensures PcOf(run[n], u) != Outside && Enabled(run[n], u, 0, false)
  {
    InvOnRuns(run, n);
    var s := run[n];
    assert ThreadInv(s, t);
    u := t;
    if s.lock.Some? {
      u := s.lock.value;
      assert ThreadInv(s, u);
    } else if PcOf(s, t) == Asleep {
      assert t in s.wait && Flagged(s.val) && s.val > 1;
      u := s.val - 1;
      assert ThreadInv(s, u);
    }
  }

  /** One more step of t at the end of a run. */
  lemma Goes(run: seq<State>, t: Thread) returns (run': seq<State>)
    requires Runs.IsRun(Init, Next, run) && Enabled(run[|run| - 1], t, 0, false)
    ensures Runs.IsRun(Init, Next, run') && run' == run + [Go(run[|run| - 1], t, false)]
  {
    var s := run[|run| - 1];
    assert Next(s, Step(s, t, 0, false));
    Runs.Grows(Init, Next, run, Step(s, t, 0, false));
    run' := run + [Step(s, t, 0, false)];
  }

  /** For example: one thread takes the mutex, and another one that wants it sleeps behind it. */
  lemma HolderAndWaiter(t: Thread, u: Thread) returns (run: seq<State>)
    requires t != u
    ensures Runs.IsRun(Init, Next, run)
    ensures var s := run[|run| - 1];
            PcOf(s, t) == Holding(false) && HolderWord(s.val) == t && PcOf(s, u) == Asleep && s.wait == [u] && Flagged(s.val)
  {
    run := FirstTakes(t);
    run := SecondTries(run, t, u);
    FallsAsleep(run, |run| - 1, u);
    run := SleepsNext(run, t, u);
  }

  lemma FirstTakes(t: Thread) returns (run: seq<State>)
    ensures Runs.IsRun(Init, Next, run) && run[|run| - 1] == State(t, [], None, map[t := Holding(false)], false)
  {
    run := [State(0, [], None, map[], false)];
    run := Goes(run, t);
    run := Goes(run, t);
    assert map[t := AcqTry][t := Holding(false)] == map[t := Holding(false)];
  }

  lemma SecondTries(run: seq<State>, t: Thread, u: Thread) returns (run': seq<State>)
    requires Runs.IsRun(Init, Next, run) && run[|run| - 1] == State(t, [], None, map[t := Holding(false)], false) && t != u
    ensures Runs.IsRun(Init, Next, run')
    ensures run'[|run'| - 1] == State(t, [], None, map[t := Holding(false), u := AcqContend], false)
  {
    run' := Goes(run, u);
    run' := Goes(run', u);
    assert map[t := Holding(false)][u := AcqTry][u := AcqContend] == map[t := Holding(false), u := AcqContend];
  }

  lemma SleepsNext(run: seq<State>, t: Thread, u: Thread) returns (run': seq<State>)
    requires Runs.IsRun(Init, Next, run) && PcOf(run[|run| - 1], u) == AcqContend && t != u
    requires run[|run| - 1].val != 0 && run[|run| - 1].lock == None
    ensures Runs.IsRun(Init, Next, run')
    ensures run'[|run'| - 1] == Go(Go(Go(Go(run[|run| - 1], u, false), u, false), u, false), u, false)
    ensures PcOf(run'[|run'| - 1], t) == PcOf(run[|run| - 1], t)
  {
    run' := Goes(run, u);
    run' := Goes(run', u);
    run' := Goes(run', u);
    run' := Goes(run', u);
  }
}
