/** What becomes of one thread's priority and time slice over any sequence of wakeups, yields,
    ticks, preemptions, reschedules, switches and changes of its priority. */
module ThreadHistories {
  import opened RunQueues
  import opened Schedulers

  datatype Happening =
    | Wakes
    | Yields
    | Ticks(delta: nat)
    | Preempts
    | Reschedules
    | Starts(cpu: Cpu)
    | Stops(used: nat)
    | Inherits(pri: int)
    | Rebases(pri: int)

  /** The preemption timer: an ordinary thread that has run for its whole slice has none left. */
  function Ticked(t: Thread, delta: nat): Thread {
    if !t.realtime && !t.idle && delta >= t.slice then t.(slice := 0) else t
  }

  function After(t: Thread, h: Happening): Thread {
    match h
    case Wakes => Boosted(t).(state := Ready)
    case Yields => Yielding(t)
    case Ticks(delta) => Ticked(t, delta)
    case Preempts => Preempted(t)
    case Reschedules => Rescheduling(t)
    case Starts(cpu) => On(t, cpu)
    case Stops(used) => Off(t, used)
    case Inherits(pri) => Inheriting(t, pri)
    case Rebases(pri) => Rebased(t, pri)
  }

  function History(t: Thread, hs: seq<Happening>): Thread
    decreases hs
  {
    if hs == [] then t else History(After(t, hs[0]), hs[1..])
  }

  /** A base priority is not below the lowest. */
  ghost predicate Proper(hs: seq<Happening>) {
    forall h :: h in hs && h.Rebases? ==> h.pri >= LOWEST_PRIORITY
  }

  /** Neither the base priority nor the inherited one is set. */
  ghost predicate Natural(hs: seq<Happening>) {
    forall h :: h in hs ==> !h.Inherits? && !h.Rebases?
  }

  /** How far the boost can sink: to four below for a base of at least four; otherwise it does not
      become negative. */
  function Floor(t: Thread): int {
    if t.base >= MAX_PRIORITY_ADJ then -MAX_PRIORITY_ADJ
    else if t.boost < 0 then t.boost
    else 0
  }

  /** How far it can rise: to four above, and not over the highest priority. */
  function Ceiling(t: Thread): int {
    if HIGHEST_PRIORITY - t.base < MAX_PRIORITY_ADJ then HIGHEST_PRIORITY - t.base else MAX_PRIORITY_ADJ
  }

  lemma AfterKeeps(t: Thread, h: Happening)
    requires PrioOk(t) && (h.Rebases? ==> h.pri >= LOWEST_PRIORITY)
    ensures var u := After(t, h);
            && PrioOk(u) && u.realtime == t.realtime && u.idle == t.idle && u.affinity == t.affinity
            && u.slice <= Max(t.slice, THREAD_INITIAL_TIME_SLICE)
            && (!h.Rebases? ==> u.base == t.base && Floor(t) <= u.boost <= Ceiling(t) && Floor(t) <= Floor(u))
            && (!h.Rebases? && (t.realtime || t.idle) ==> u.boost == t.boost)
            && (!h.Inherits? ==> u.inherited == t.inherited)
  {
  }

  /** Whatever happens to a thread, its effective priority stays in range, and is the larger of the
      adjusted base and what it inherits; its slice never exceeds what it started with or a fresh
      quantum. */
  lemma {:induction false} AlwaysInRange(t: Thread, hs: seq<Happening>)
    requires PrioOk(t) && Proper(hs)
    ensures var u := History(t, hs);
            && PrioOk(u) && u.realtime == t.realtime && u.idle == t.idle && u.affinity == t.affinity
            && LOWEST_PRIORITY <= u.effec <= HIGHEST_PRIORITY
            && u.slice <= Max(t.slice, THREAD_INITIAL_TIME_SLICE)
    decreases hs
  {
    if hs != [] {
      assert hs[0] in hs;
      AfterKeeps(t, hs[0]);
      AlwaysInRange(After(t, hs[0]), hs[1..]);
    }
  }

  /** While nobody sets its priorities, the effective priority of a thread that inherits nothing
      stays within four levels of its base; it never sinks below a base under four, unless it
      was below already; and that of a real-time or idle thread does not move at all. */
  lemma {:induction false} StaysNearBase(t: Thread, hs: seq<Happening>)
    requires PrioOk(t) && Natural(hs)
    ensures var u := History(t, hs);
            && u.base == t.base && u.inherited == t.inherited && u.effec == Max(u.base + u.boost, t.inherited)
            && Floor(t) <= u.boost <= Ceiling(t)
            && (t.inherited < 0 ==> t.base - MAX_PRIORITY_ADJ <= u.effec <= t.base + MAX_PRIORITY_ADJ)
            && (t.base < MAX_PRIORITY_ADJ && t.boost >= 0 ==> u.effec >= t.base)
            && (t.realtime || t.idle ==> u.effec == t.effec)
    decreases hs
  {
    if hs != [] {
      assert hs[0] in hs;
      AfterKeeps(t, hs[0]);
      StaysNearBase(After(t, hs[0]), hs[1..]);
    }
  }

  function Repeated(hs: seq<Happening>, k: nat): seq<Happening> {
    if k == 0 then [] else hs + Repeated(hs, k - 1)
  }

  lemma {:induction false} HistoryConcat(t: Thread, a: seq<Happening>, b: seq<Happening>)
    ensures History(t, a + b) == History(History(t, a), b)
    decreases a
  {
    if a == [] {
      assert a + b == b;
    } else {
      HistoryConcat(After(t, a[0]), a[1..], b);
      assert (a + b)[0] == a[0] && (a + b)[1..] == a[1..] + b;
    }
  }

  /** A thread is run until the tick that ends its slice, and is preempted. */
  function WholeQuantum(cpu: Cpu, delta: nat, used: nat): seq<Happening> {
    [Starts(cpu), Ticks(delta), Preempts, Stops(used)]
  }

  lemma WholeQuantumIs(t: Thread, cpu: Cpu, delta: nat, used: nat)
    requires PrioOk(t) && !t.realtime && !t.idle && delta >= Max(t.slice, THREAD_INITIAL_TIME_SLICE)
    ensures var u := History(t, WholeQuantum(cpu, delta, used));
            && u.slice == 0 && u.base == t.base && u.realtime == t.realtime && u.idle == t.idle && PrioOk(u)
            && u.boost == Deboosted(t, true).boost
  {
    var w := WholeQuantum(cpu, delta, used);
    var t1 := On(t, cpu);
    var t2 := Ticked(t1, delta);
    var t3 := Preempted(t2);
    assert w[1..] == [Ticks(delta), Preempts, Stops(used)];
    assert w[1..][1..] == [Preempts, Stops(used)];
    assert w[1..][1..][1..] == [Stops(used)];
    assert w[1..][1..][1..][1..] == [];
    assert History(t, w) == History(t1, w[1..]);
    assert History(t1, w[1..]) == History(t2, w[1..][1..]);
    assert History(t2, w[1..][1..]) == History(t3, w[1..][1..][1..]);
    assert History(t3, w[1..][1..][1..]) == Off(t3, used);
  }

  /** A thread that uses up k whole quanta loses a level each time, down to four below its base; but
      a base under four stops the fall at a boost of as much as the base, and a boost at or below
      that is never worn down. */
  lemma {:induction false} WornDown(t: Thread, cpu: Cpu, delta: nat, used: nat, k: nat)
    requires PrioOk(t) && !t.realtime && !t.idle && delta >= Max(t.slice, THREAD_INITIAL_TIME_SLICE)
    ensures History(t, Repeated(WholeQuantum(cpu, delta, used), k)).boost ==
            if t.base >= MAX_PRIORITY_ADJ then Max(t.boost - k, -MAX_PRIORITY_ADJ)
            else if t.boost > t.base then Max(t.boost - k, t.base)
            else t.boost
    decreases k
  {
    if k > 0 {
      var w := WholeQuantum(cpu, delta, used);
      WholeQuantumIs(t, cpu, delta, used);
      HistoryConcat(t, w, Repeated(w, k - 1));
      WornDown(History(t, w), cpu, delta, used, k - 1);
    }
  }

  /** A thread that is woken, runs and blocks k times gains a level each time, up to four above its
      base and the highest priority. */
  lemma {:induction false} BuiltUp(t: Thread, cpu: Cpu, used: nat, k: nat)
    requires PrioOk(t) && !t.realtime && !t.idle
    ensures History(t, Repeated([Wakes, Starts(cpu), Stops(used)], k)).boost ==
            if t.boost + k < Ceiling(t) then t.boost + k else Ceiling(t)
    decreases k
  {
    if k > 0 {
      var w := [Wakes, Starts(cpu), Stops(used)];
      HistoryConcat(t, w, Repeated(w, k - 1));
      var t1 := After(t, Wakes);
      var t2 := On(t1, cpu);
      assert w[1..] == [Starts(cpu), Stops(used)] && w[1..][1..] == [Stops(used)] && w[1..][1..][1..] == [];
      assert History(t, w) == History(t1, w[1..]);
      assert History(t1, w[1..]) == History(t2, w[1..][1..]);
      assert History(t2, w[1..][1..]) == Off(t2, used);
      BuiltUp(Off(t2, used), cpu, used, k - 1);
    }
  }
}
