/** The scheduler: choice of a CPU, the run queues, what happens to the running thread, migration,
    priority changes, and taking a CPU offline. */
module Schedulers {
  import opened Lists
  import opened RunQueues

  const THREAD_INITIAL_TIME_SLICE := 10_000_000
  const INVALID_CPU: Cpu := 0xFFFF_FFFF

  lemma Member<T>(s: set<T>) returns (x: T)
    requires s != {}
    ensures x in s
  {
    x :| x in s;
  }

  lemma {:induction false} MaxExists(s: set<int>)
    requires s != {}
    ensures exists m :: m in s && forall x :: x in s ==> x <= m
  {
    var x := Member(s);
    var r := s - {x};
    if r == {} {
      assert s == {x};
    } else {
      MaxExists(r);
      var m :| m in r && forall y :: y in r ==> y <= m;
      var top := if x > m then x else m;
      assert forall y :: y in s ==> y in r || y == x;
      assert top in s && forall y :: y in s ==> y <= top;
    }
  }

  method Highest(s: set<int>) returns (m: int)
    requires s != {}
    ensures m in s && forall x :: x in s ==> x <= m
  {
    MaxExists(s);
    m :| m in s && forall x :: x in s ==> x <= m;
  }

  /** The next member of the mask after r, going round. */
  ghost predicate NextAfter(mask: set<Cpu>, r: nat, c: Cpu) {
    && c in mask
    && (forall m :: m in mask && m > r ==> r < c <= m)
    && ((forall m :: m in mask ==> m <= r) ==> forall m :: m in mask ==> c <= m)
  }

  /** What a choice of CPU promises: an idle permitted CPU if there is one, the current one or
      else the last one first; otherwise the last one, or any other permitted one, before the
      current one; and a permitted CPU exactly if there is a choice of one. */
  ghost predicate Chosen(c: Cpu, aff: set<Cpu>, last: Cpu, cpu: Cpu, active: set<Cpu>, idle: set<Cpu>) {
    && (aff * idle != {} ==> c in aff * idle)
    && (cpu in aff * idle ==> c == cpu)
    && (last in aff * idle && cpu !in aff * idle ==> c == last)
    && (aff * idle == {} && last in aff * active && last != cpu ==> c == last)
    && (c == cpu ==> cpu in aff * idle || aff * active <= {cpu})
    && (c == cpu || c in aff * active)
    && (c in aff <==> cpu in aff || aff * active != {})
  }

  /** For example: a thread that may run on CPU 1 only, while only CPU 0 is active, is put on CPU 0. */
  lemma OutsideAffinity(c: Cpu, last: Cpu)
    requires Chosen(c, {1}, last, 0, {0}, {})
    ensures c == 0 && c !in {1}
  {
    assert {1} * {0} == {};
  }

  ghost predicate AllPrio(th: Threads) {
    forall t :: t in th ==> PrioOk(th[t])
  }

  /** A CPU runs one thread, which is marked running on it; its idle thread is its own. */
  ghost predicate RunsHere(th: Threads, cur: map<Cpu, Tid>, idles: map<Cpu, Tid>, c: Cpu) {
    c in cur ==>
      && cur[c] in th && th[cur[c]].state == Running && th[cur[c]].cpu == c
      && (th[cur[c]].idle ==> c in idles && cur[c] == idles[c])
  }

  /** A thread marked running is the current one of its CPU. */
  ghost predicate RunsBack(th: Threads, cur: map<Cpu, Tid>, t: Tid) {
    t in th && th[t].state == Running ==> th[t].cpu in cur && cur[th[t].cpu] == t
  }

  ghost predicate IdleOk(th: Threads, cur: map<Cpu, Tid>, idles: map<Cpu, Tid>, c: Cpu) {
    c in cur ==>
      && c in idles && idles[c] in th && th[idles[c]].idle
      && forall d :: d in idles && idles[d] == idles[c] ==> d == c
  }

  /** Everything about the running threads, except what happens on the given CPU. */
  ghost predicate RunsBut(th: Threads, cur: map<Cpu, Tid>, idles: map<Cpu, Tid>, cpu: Cpu) {
    && (forall c :: c != cpu ==> RunsHere(th, cur, idles, c))
    && (forall t :: RunsBack(th, cur, t))
    && (forall c :: IdleOk(th, cur, idles, c))
  }

  ghost predicate RunsAll(th: Threads, cur: map<Cpu, Tid>, idles: map<Cpu, Tid>) {
    && (forall c :: RunsHere(th, cur, idles, c))
    && (forall t :: RunsBack(th, cur, t))
    && (forall c :: IdleOk(th, cur, idles, c))
  }

  /** Changes that do not start, stop or move a running thread. */
  lemma RunsFrame(th: Threads, th': Threads, cur: map<Cpu, Tid>, idles: map<Cpu, Tid>, t: Tid)
    requires RunsAll(th, cur, idles) && SameBut(th, th', t) && t in th && t in th'
    requires th[t].idle == th'[t].idle && (th[t].state == Running <==> th'[t].state == Running)
    requires th[t].state == Running ==> th[t].cpu == th'[t].cpu
    ensures RunsAll(th', cur, idles)
  {
    forall c ensures RunsHere(th', cur, idles, c) { assert RunsHere(th, cur, idles, c); }
    forall u ensures RunsBack(th', cur, u) { assert RunsBack(th, cur, u); }
    forall c ensures IdleOk(th', cur, idles, c) { assert IdleOk(th, cur, idles, c); }
  }

  /** The current thread of a CPU stops running. */
  lemma RunsStops(th: Threads, th': Threads, cur: map<Cpu, Tid>, idles: map<Cpu, Tid>, cpu: Cpu)
    requires RunsAll(th, cur, idles) && cpu in cur && SameBut(th, th', cur[cpu])
    requires cur[cpu] in th && cur[cpu] in th'
    requires th[cur[cpu]].idle == th'[cur[cpu]].idle && th'[cur[cpu]].state != Running
    ensures RunsBut(th', cur, idles, cpu)
  {
    assert RunsHere(th, cur, idles, cpu);
    forall c | c != cpu ensures RunsHere(th', cur, idles, c) { assert RunsHere(th, cur, idles, c); }
    forall u ensures RunsBack(th', cur, u) { assert RunsBack(th, cur, u); }
    forall c ensures IdleOk(th', cur, idles, c) { assert IdleOk(th, cur, idles, c); }
  }

  /** As RunsFrame, while the current thread of one CPU has stopped. */
  lemma RunsButFrame(th: Threads, th': Threads, cur: map<Cpu, Tid>, idles: map<Cpu, Tid>, cpu: Cpu, t: Tid)
    requires RunsBut(th, cur, idles, cpu) && SameBut(th, th', t) && t in th && t in th'
    requires th[t].idle == th'[t].idle && th[t].state != Running && th'[t].state != Running
    ensures RunsBut(th', cur, idles, cpu)
  {
    forall c | c != cpu ensures RunsHere(th', cur, idles, c) { assert RunsHere(th, cur, idles, c); }
    forall u ensures RunsBack(th', cur, u) { assert RunsBack(th, cur, u); }
    forall c ensures IdleOk(th', cur, idles, c) { assert IdleOk(th, cur, idles, c); }
  }

  /** The idle thread of a CPU whose current thread has stopped does not run elsewhere. */
  lemma IdleRests(th: Threads, cur: map<Cpu, Tid>, idles: map<Cpu, Tid>, cpu: Cpu)
    requires RunsBut(th, cur, idles, cpu) && cpu in cur && cur[cpu] in th && th[cur[cpu]].state != Running
    ensures cpu in idles && idles[cpu] in th && th[idles[cpu]].idle && th[idles[cpu]].state != Running
  {
    assert IdleOk(th, cur, idles, cpu);
    var i := idles[cpu];
    if th[i].state == Running {
      assert RunsBack(th, cur, i) && RunsHere(th, cur, idles, th[i].cpu);
    }
  }

  /** A switch: the CPU's current thread is again one that runs on it. */
  lemma Switched(th: Threads, th': Threads, cur: map<Cpu, Tid>, idles: map<Cpu, Tid>, cpu: Cpu, n: Tid)
    requires RunsBut(th, cur, idles, cpu) && cpu in cur && cur[cpu] in th && n in th
    requires th[cur[cpu]].state != Running && th[n].state != Running && th.Keys == th'.Keys
    requires forall u :: u in th && u != n && u != cur[cpu] ==> th'[u] == th[u]
    requires forall u :: u in th ==> th'[u].idle == th[u].idle
    requires th'[n].state == Running && th'[n].cpu == cpu && (cur[cpu] != n ==> th'[cur[cpu]].state != Running)
    requires th[n].idle ==> cpu in idles && n == idles[cpu]
    ensures RunsAll(th', cur[cpu := n], idles)
  {
    var cur' := cur[cpu := n];
    forall c ensures RunsHere(th', cur', idles, c) { assert c != cpu ==> RunsHere(th, cur, idles, c); }
    forall u ensures RunsBack(th', cur', u) { assert RunsBack(th, cur, u); }
    forall c ensures IdleOk(th', cur', idles, c) { assert IdleOk(th, cur, idles, c); }
  }

  lemma OtherLines(q: Queues, s: Slot, x: seq<Tid>)
    ensures forall d :: d != s.0 ==> Line(q[s := x], d) == Line(q, d)
  {
    forall d | d != s.0 ensures Line(q[s := x], d) == Line(q, d) {
      BelowFrame(q, q[s := x], d, NUM_PRIORITIES);
    }
  }

  /** A thread that is not queued may get any fields, and is then loose. */
  lemma Loosened(th: Threads, th': Threads, q: Queues, b: Bits, t: Tid)
    requires Sound(th, q, b, {}) && t in th && SameBut(th, th', t)
    requires th[t].state != Ready || th[t].idle
    ensures Sound(th', q, b, {t})
    ensures t in th' && (th'[t].state != Ready || th'[t].idle) ==> Sound(th', q, b, {})
  {
    Homeless(th, q, b, t);
    LooseFrame(th, th', q, b, t, {t});
    if t in th' && (th'[t].state != Ready || th'[t].idle) { Homeless(th', q, b, t); }
  }

  /** The line after t is queued: to the front of its priority if it has time left. */
  function Queued(line: seq<Tid>, t: Tid, th: Threads): seq<Tid> {
    if t in th && th[t].slice > 0 then Front(line, t, th) else Behind(line, t, th)
  }

  lemma QueuedSome(line: seq<Tid>, t: Tid, th: Threads)
    ensures Queued(line, t, th) != []
  {
  }

  lemma QueuedMembers(line: seq<Tid>, t: Tid, th: Threads)
    ensures forall u :: u in Queued(line, t, th) <==> u == t || u in line
  {
    JoinsMembers(line, t, th);
  }

  lemma {:induction false} JoinsMembers(line: seq<Tid>, t: Tid, th: Threads)
    ensures forall u :: u in Front(line, t, th) <==> u == t || u in line
    ensures forall u :: u in Behind(line, t, th) <==> u == t || u in line
  {
    if line != [] {
      JoinsMembers(line[1..], t, th);
      assert line == [line[0]] + line[1..];
    }
  }

  /** After a switch the old thread has paid for the time it ran, as far as it had any, and has no CPU
      unless it is still ready; the new one runs here, has this as its last CPU, and has time left,
      a fresh quantum if it had none. Both keep their priorities; no other thread has changed. */
  ghost predicate Charged(th: Threads, th': Threads, prev: Tid, n: Tid, cpu: Cpu, used: nat) {
    && prev in th && n in th && th'.Keys == th.Keys
    && th'[prev].slice == Max(th[prev].slice - used, 0) && th'[prev].state == th[prev].state && th'[prev].effec == th[prev].effec
    && (th[prev].state == Ready ==> th'[prev].cpu == th[prev].cpu) && (th[prev].state != Ready ==> th'[prev].cpu == INVALID_CPU)
    && th'[n].state == Running && th'[n].cpu == cpu && th'[n].lastCpu == cpu && th'[n].effec == th[n].effec
    && th'[n].slice == (if th[n].slice > 0 then th[n].slice else THREAD_INITIAL_TIME_SLICE)
    && (forall u :: u in th && u != prev && u != n ==> th'[u] == th[u])
  }

  /** t has joined a line at the front or the back of priority p: behind everybody above it, or of at
      least that priority, and before everybody else. */
  ghost predicate SitsAt(line: seq<Tid>, line': seq<Tid>, t: Tid, p: int, th: Threads, front: bool) {
    exists a, b :: SitsBetween(line, line', t, p, th, front, a, b)
  }

  ghost predicate SitsBetween(line: seq<Tid>, line': seq<Tid>, t: Tid, p: int, th: Threads, front: bool, a: seq<Tid>, b: seq<Tid>) {
    && line == a + b && line' == a + [t] + b
    && (forall u :: u in a ==> if front then Prio(th, u) > p else Prio(th, u) >= p)
    && (forall u :: u in b ==> if front then Prio(th, u) <= p else Prio(th, u) < p)
  }

  /** The current thread t was put back into its CPU's line, after which the head of the line runs; with
      somebody before t in it this is the old head. */
  ghost predicate PutInLine(line: seq<Tid>, line': seq<Tid>, n: Tid, t: Tid, p: int, th: Threads, front: bool) {
    && SitsAt(line, [n] + line', t, p, th, front)
    && (line != [] && Prio(th, line[0]) > p ==> n == line[0])
    && (line != [] && Prio(th, line[0]) == p ==> n == if front then t else line[0])
    && (line == [] || Prio(th, line[0]) < p ==> n == t)
  }

  lemma QueuedPlace(line: seq<Tid>, t: Tid, th: Threads, th0: Threads)
    requires ByPrio(line, th0) && t !in line && SameBut(th, th0, t) && t in th
    ensures SitsAt(line, Queued(line, t, th), t, th[t].effec, th0, th[t].slice > 0)
  {
    forall u | u in line ensures Prio(th, u) == Prio(th0, u) { }
    ByPrioFrame(line, th0, th);
    var a, b;
    if th[t].slice > 0 { a, b := FrontPlace(line, t, th); } else { a, b := BehindPlace(line, t, th); }
    assert forall u :: u in a || u in b ==> u in line;
    assert SitsBetween(line, Queued(line, t, th), t, th[t].effec, th0, th[t].slice > 0, a, b);
  }

  lemma SitsHead(line: seq<Tid>, line': seq<Tid>, n: Tid, t: Tid, p: int, th: Threads, front: bool)
    requires SitsAt(line, [n] + line', t, p, th, front) && t !in line
    ensures PutInLine(line, line', n, t, p, th, front)
  {
    var a, b :| SitsBetween(line, [n] + line', t, p, th, front, a, b);
    if a == [] {
      assert ([n] + line')[0] == t;
      if line != [] { assert line[0] in b; }
    } else {
      assert ([n] + line')[0] == a[0] == line[0] && line[0] in a;
    }
  }

  /** What became of the current thread t, which was o, when it gave up its CPU with the given time left:
      it lost at most one level, was charged if another thread runs now, and, if it may use the CPU,
      was put back into the line, to the front of its priority exactly if it had time left. */
  ghost predicate WentBack(o: Thread, slice: nat, th: Threads, line: seq<Tid>, t: Tid, cpu: Cpu, th': Threads, line': seq<Tid>, n: Tid, used: nat) {
    && t in th' && o.effec - 1 <= th'[t].effec <= o.effec
    && th'[t].slice == (if n == t then slice else Max(slice - used, 0))
    && (cpu in o.affinity ==> PutInLine(line, line', n, t, th'[t].effec, th, slice > 0))
  }

  /** A thread that gives up its CPU of its own accord loses a level of boost, if it has any. */
  function LessBoost(t: Thread): int {
    if t.boost > 0 && !t.realtime then t.boost - 1 else t.boost
  }

  lemma GaveUpBack(th0: Threads, th: Threads, q: Queues, active: set<Cpu>, idle: set<Cpu>, t: Tid, cpu: Cpu, at: Cpu,
                   th': Threads, q': Queues, n: Tid, idleThread: Tid, used: nat)
    requires GaveUp(th, q, active, idle, t, cpu, at, th', q', n, idleThread, used)
    requires ByPrio(Line(q, cpu), th0) && t !in Line(q, cpu) && SameBut(th, th0, t) && t in th0
    requires th0[t].effec - 1 <= th[t].effec <= th0[t].effec && th[t].affinity == th0[t].affinity
    ensures WentBack(th0[t], th[t].slice, th0, Line(q, cpu), t, cpu, th', Line(q', cpu), n, used)
    ensures th'[t].effec == th[t].effec && th'[t].boost == th[t].boost
  {
    if cpu in th[t].affinity {
      QueuedPlace(Line(q, cpu), t, th[t := th[t].(cpu := at)], th0);
      SitsHead(Line(q, cpu), Line(q', cpu), n, t, th[t].effec, th0, th[t].slice > 0);
    }
  }

  /** A running thread is in no line, and lines are by priority. */
  lemma RunnerIsOut(th: Threads, q: Queues, b: Bits, cpu: Cpu, t: Tid)
    requires Sound(th, q, b, {}) && t in th && th[t].state == Running
    ensures t !in Line(q, cpu) && ByPrio(Line(q, cpu), th)
  {
    SoundGraded(th, q, b, {}, cpu);
    BelowPrio(q, cpu, NUM_PRIORITIES, th);
    BelowByPrio(q, cpu, NUM_PRIORITIES, th);
    assert Fits(th, q, t, (cpu, Prio(th, t)));
  }

  /** The next thread of a line runs, or the idle thread if there is none. */
  ghost predicate Next(line: seq<Tid>, line': seq<Tid>, t: Tid, idle: Tid) {
    if line == [] then t == idle && line' == [] else line == [t] + line'
  }

  /** The current thread t of a CPU, ready again with the fields it has in th, was put in line at
      a CPU: its own if permitted, another one's otherwise. Then n, the first of this CPU's line,
      runs. All other lines are as before. */
  ghost predicate GaveUp(th: Threads, q: Queues, active: set<Cpu>, idle: set<Cpu>, t: Tid, cpu: Cpu, at: Cpu,
                         th': Threads, q': Queues, n: Tid, idleThread: Tid, used: nat)
  {
    && t in th && n in th
    && var placed := th[t := th[t].(cpu := at)];
    && (if cpu in th[t].affinity then at == cpu
        else Chosen(at, th[t].affinity, th[t].lastCpu, cpu, active, idle))
    && th' == Switch(placed, t, n, cpu, used)
    && (at == cpu ==> [n] + Line(q', cpu) == Queued(Line(q, cpu), t, placed))
    && (at != cpu ==> Line(q', at) == Queued(Line(q, at), t, placed) && Next(Line(q, cpu), Line(q', cpu), n, idleThread))
    && (forall d :: d != cpu && d != at ==> Line(q', d) == Line(q, d))
  }

  /** The current idle thread made way: the first of this CPU's line runs, if there is one. */
  ghost predicate MadeWay(th: Threads, q: Queues, t: Tid, cpu: Cpu, th': Threads, q': Queues, n: Tid, idleThread: Tid, used: nat) {
    && t in th && n in th && th' == Switch(th, t, n, cpu, used)
    && Next(Line(q, cpu), Line(q', cpu), n, idleThread)
    && (forall d :: d != cpu ==> Line(q', d) == Line(q, d))
  }

  /** The current thread t of a CPU let the scheduler run. */
  ghost predicate Rescheduled(th: Threads, q: Queues, active: set<Cpu>, idle: set<Cpu>, t: Tid, cpu: Cpu, at: Cpu,
                              th': Threads, q': Queues, n: Tid, idleThread: Tid, used: nat)
  {
    && t in th
    && if th[t].idle then MadeWay(th[t := th[t].(state := Ready)], q, t, cpu, th', q', n, idleThread, used)
       else GaveUp(th[t := Rescheduling(th[t])], q, active, idle, t, cpu, at, th', q', n, idleThread, used)
  }

  /** The ready thread t left the line of one CPU and joined that of another, or of the same. */
  ghost predicate Moved(q: Queues, q': Queues, t: Tid, from: Cpu, c: Cpu, th: Threads) {
    var left := Without(Line(q, from), t);
    && (c != from ==> Line(q', from) == left)
    && Line(q', c) == Queued(if c == from then left else Line(q, c), t, th)
    && (forall d :: d != c && d != from ==> Line(q', d) == Line(q, d))
  }

  /** After its effective priority changed, a ready thread is at the front of its new priority if
      it rose and at the back if it fell; nobody else has moved. */
  ghost predicate Placed(q: Queues, q': Queues, t: Tid, was: int, th: Threads)
    requires t in th
  {
    var c, left := th[t].cpu, Without(Line(q, th[t].cpu), t);
    if th[t].state == Ready && th[t].effec != was then
      && Line(q', c) == (if th[t].effec > was then Front(left, t, th) else Behind(left, t, th))
      && (forall d :: d != c ==> Line(q', d) == Line(q, d))
    else forall d :: Line(q', d) == Line(q, d)
  }

  /** A CPU must let its scheduler run exactly if its thread fell or a thread of its line rose. */
  ghost predicate Asks(th: Threads, t: Tid, was: int, cpu: Cpu, cur: map<Cpu, Tid>, local: bool, remote: set<Cpu>)
    requires t in th
  {
    var x := th[t];
    var wanted := (x.state == Running && x.effec < was) || (x.state == Ready && x.effec > was);
    var here := if x.state == Running then cpu in cur && cur[cpu] == t else x.cpu == cpu;
    local == (wanted && here) && remote == if wanted && !here then {x.cpu} else {}
  }

  /** What a thread becomes that yields, is preempted, or lets the scheduler run. */
  function Yielding(t: Thread): Thread {
    Deboosted(t.(slice := 0), false).(state := Ready)
  }

  function Preempted(t: Thread): Thread {
    (if t.slice <= 0 then Deboosted(t, true) else t).(state := Ready)
  }

  function Rescheduling(t: Thread): Thread {
    Deboosted(t, false).(state := Ready)
  }

  /** A running thread that becomes ready is loose, and only its CPU has stopped. */
  lemma Stops(th: Threads, th': Threads, q: Queues, b: Bits, cur: map<Cpu, Tid>, idles: map<Cpu, Tid>, cpu: Cpu, x: Thread)
    requires Sound(th, q, b, {}) && AllPrio(th) && RunsAll(th, cur, idles) && cpu in cur && cur[cpu] in th
    requires th' == th[cur[cpu] := x] && x.idle == th[cur[cpu]].idle && x.state != Running && PrioOk(x)
    requires x.cpu == th[cur[cpu]].cpu
    ensures Sound(th', q, b, {cur[cpu]}) && (x.idle || x.state != Ready ==> Sound(th', q, b, {}))
    ensures AllPrio(th') && RunsBut(th', cur, idles, cpu) && x.cpu == cpu
  {
    assert RunsHere(th, cur, idles, cpu);
    Loosened(th, th', q, b, cur[cpu]);
    RunsStops(th, th', cur, idles, cpu);
  }

  function Inheriting(t: Thread, pri: int): Thread {
    var p := if pri > HIGHEST_PRIORITY then HIGHEST_PRIORITY else pri;
    if p >= 0 && p <= t.inherited then t else Recomputed(t.(inherited := p))
  }

  /** Inheriting raises the effective priority to the inherited one if that is higher; ending it
      goes back to the adjusted base. */
  lemma InheritLaw(t: Thread, pri: int)
    requires PrioOk(t)
    ensures var i := Inheriting(t, pri);
            && PrioOk(i) && i == t.(inherited := i.inherited, effec := i.effec)
            && (pri < 0 ==> i.effec == t.base + t.boost)
            && (0 <= pri <= HIGHEST_PRIORITY ==> i.effec == if pri > t.effec then pri else t.effec)
  {
  }

  function Rebased(t: Thread, pri: int): Thread {
    Recomputed(t.(base := if pri > HIGHEST_PRIORITY then HIGHEST_PRIORITY else pri, boost := 0))
  }

  /** New priorities leave a thread where its old effective priority says, until it is moved. */
  lemma Reprioritized(th: Threads, th': Threads, q: Queues, b: Bits, t: Tid)
    requires Sound(th, q, b, {}) && t in th && t in th' && SameBut(th, th', t)
    requires th'[t] == th[t].(base := th'[t].base, boost := th'[t].boost, inherited := th'[t].inherited, effec := th'[t].effec)
    ensures Sound(th'[t := th'[t].(effec := th[t].effec)], q, b, {})
    ensures th'[t].effec == th[t].effec ==> Sound(th', q, b, {})
  {
    var x := th'[t := th'[t].(effec := th[t].effec)];
    forall u, s ensures Fits(x, q, u, s) { assert Fits(th, q, u, s); }
    if th'[t].effec == th[t].effec { assert x == th'; }
  }

  /** The listed threads are boosted and ready, on a permitted CPU if there is one; no other
      thread has changed. */
  ghost predicate Woken(th: Threads, th': Threads, list: seq<Tid>, cpu: Cpu, active: set<Cpu>) {
    && th'.Keys == th.Keys
    && (forall t :: t in th && t !in list ==> th'[t] == th[t])
    && (forall t :: t in th && t in list ==> WokenUp(th[t], th'[t], cpu, active))
  }

  ghost predicate WokenUp(t: Thread, t': Thread, cpu: Cpu, active: set<Cpu>) {
    && t' == Boosted(t).(state := Ready, cpu := t'.cpu)
    && (t'.cpu == cpu || t'.cpu in t.affinity * active)
    && (t'.cpu in t.affinity <==> cpu in t.affinity || t.affinity * active != {})
  }

  /** The line of a CPU after the listed threads, last first, have joined the line of the CPU that
      each has in th. */
  function Joined(line: seq<Tid>, list: seq<Tid>, c: Cpu, th: Threads): seq<Tid> {
    if list == [] then line
    else
      var l := Joined(line, list[1..], c, th);
      if list[0] in th && th[list[0]].cpu == c then Queued(l, list[0], th) else l
  }

  lemma {:induction false} QueuedFrame(line: seq<Tid>, u: Tid, th: Threads, th': Threads, t: Tid)
    requires SameBut(th, th', t) && t !in line && t != u
    ensures Front(line, u, th) == Front(line, u, th') && Behind(line, u, th) == Behind(line, u, th')
    ensures t !in Front(line, u, th) && t !in Behind(line, u, th)
  {
    if line != [] {
      assert line[0] in line;
      QueuedFrame(line[1..], u, th, th', t);
    }
  }

  /** A thread that is in no line and not listed has no part in it. */
  lemma {:induction false} JoinedFrame(line: seq<Tid>, list: seq<Tid>, c: Cpu, th: Threads, th': Threads, t: Tid)
    requires SameBut(th, th', t) && t !in line && t !in list
    ensures Joined(line, list, c, th) == Joined(line, list, c, th') && t !in Joined(line, list, c, th)
  {
    if list != [] {
      JoinedFrame(line, list[1..], c, th, th', t);
      QueuedFrame(Joined(line, list[1..], c, th), list[0], th, th', t);
    }
  }

  /** Last first: the last of the list joins before all the others do. */
  lemma {:induction false} JoinedLast(line: seq<Tid>, list: seq<Tid>, t: Tid, c: Cpu, th: Threads)
    ensures Joined(line, list + [t], c, th) ==
            Joined(if t in th && th[t].cpu == c then Queued(line, t, th) else line, list, c, th)
  {
    if list == [] {
      assert list + [t] == [t] && [t][1..] == [];
      assert Joined(line, [], c, th) == line;
    } else {
      assert (list + [t])[0] == list[0] && (list + [t])[1..] == list[1..] + [t];
      JoinedLast(line, list[1..], t, c, th);
    }
  }

  lemma JoinedStep(line: seq<Tid>, list: seq<Tid>, c: Cpu, th: Threads, th': Threads, t: Tid)
    requires SameBut(th, th', t) && t !in line && t !in list && t in th'
    ensures var l := Joined(line, list, c, th);
            Joined(line, [t] + list, c, th') == if th'[t].cpu == c then Queued(l, t, th') else l
  {
    JoinedFrame(line, list, c, th, th', t);
    assert ([t] + list)[1..] == list;
  }

  lemma WokenStep(th: Threads, th1: Threads, th2: Threads, list: seq<Tid>, t: Tid, cpu: Cpu, active: set<Cpu>, c: Cpu)
    requires Woken(th, th1, list, cpu, active) && t in th && t !in list
    requires th2 == th1[t := Boosted(th1[t]).(state := Ready, cpu := c)] && WokenUp(th1[t], th2[t], cpu, active)
    ensures Woken(th, th2, [t] + list, cpu, active)
  {
  }

  function IdleThread(c: Cpu): Thread {
    Thread(LOWEST_PRIORITY, 0, -1, LOWEST_PRIORITY, Running, true, false, {c}, c, c, 0)
  }

  /** A new thread that neither runs nor is ready. */
  lemma Added(th: Threads, th': Threads, q: Queues, b: Bits, cur: map<Cpu, Tid>, idles: map<Cpu, Tid>, t: Tid)
    requires Sound(th, q, b, {}) && RunsAll(th, cur, idles) && t !in th && t in th' && SameBut(th, th', t)
    requires th'[t].state != Running && th'[t].state != Ready
    ensures Sound(th', q, b, {}) && RunsAll(th', cur, idles)
  {
    forall u, s ensures Fits(th', q, u, s) { assert Fits(th, q, u, s); }
    forall c ensures RunsHere(th', cur, idles, c) { assert RunsHere(th, cur, idles, c); }
    forall u ensures RunsBack(th', cur, u) { assert RunsBack(th, cur, u); }
    forall c ensures IdleOk(th', cur, idles, c) { assert IdleOk(th, cur, idles, c); }
  }

  class Scheduler {
    var threads: Threads
    var runQueue: Queues
    var bitmap: Bits
    var active: set<Cpu>
    var idle: set<Cpu>
    var rot: nat
    var current: map<Cpu, Tid>
    const idleThread: map<Cpu, Tid>

    ghost predicate Valid()
      reads this
    {
      Sound(threads, runQueue, bitmap, {}) && AllPrio(threads) && RunsAll(threads, current, idleThread)
    }

    /** The given CPUs, all active and each running its idle thread. */
    constructor (cpus: set<Cpu>)
      ensures Valid() && idle <= active == cpus && current.Keys == cpus
      ensures forall c :: c in cpus ==> c in idleThread && current[c] == idleThread[c] && Line(runQueue, c) == []
    {
      threads := map c | c in cpus :: IdleThread(c);
      runQueue, bitmap, rot := map[], map[], 0;
      active, idle := cpus, cpus;
      current, idleThread := map c | c in cpus :: c, map c | c in cpus :: c;
      new;
      forall c | c in cpus ensures Line(runQueue, c) == [] { EmptyLine(runQueue, c, NUM_PRIORITIES); }
    }

    /** A new thread, at its base priority and in no line. */
    method InitThread(t: Tid, priority: int, affinity: set<Cpu>, realtime: bool)
      requires Valid() && t !in threads && LOWEST_PRIORITY <= priority <= HIGHEST_PRIORITY
      modifies this`threads
      ensures Valid() && t in threads && threads[t].effec == priority && threads == old(threads)[t := threads[t]]
      ensures threads[t].base == priority && threads[t].boost == 0 && threads[t].inherited == -1 && threads[t].slice == 0
    {
      var x := Recomputed(Thread(priority, 0, -1, priority, Other, false, realtime, affinity, INVALID_CPU, INVALID_CPU, 0));
      Added(threads, threads[t := x], runQueue, bitmap, current, idleThread, t);
      threads := threads[t := x];
    }

    // ---------- choice of a CPU ----------

    /** Round robin over the active CPUs of a mask. */
    method RandCpu(mask: set<Cpu>) returns (c: Option<Cpu>)
      modifies this`rot
      ensures c.None? <==> mask * active == {}
      ensures c.Some? ==> NextAfter(mask * active, old(rot), c.value) && rot == c.value
    {
      var m := mask * active;
      if m == {} { return None; }
      var highest := Highest(m);
      ghost var wrapped := false;
      while true
        invariant !wrapped ==> rot >= old(rot) && forall x :: x in m && x > old(rot) ==> x > rot
        invariant wrapped ==> (forall x :: x in m ==> x <= old(rot) && x > rot)
        decreases if wrapped then 0 else 1, highest - rot
      {
        rot := rot + 1;
        if rot > highest {
          rot := 0;
          if 0 !in m {
            assert forall x :: x in m ==> x != 0;
          }
          wrapped := true;
        }
        if rot in m {
          return Some(rot);
        }
      }
    }

    /** The CPU on which to wake a thread. */
    method FindCpu(t: Tid, cpu: Cpu) returns (c: Option<Cpu>)
      requires t in threads
      modifies this`rot
      ensures var aff, last := threads[t].affinity, threads[t].lastCpu;
              && (c.None? <==> aff * idle != {} && aff * idle * active == {} && cpu !in aff * idle && last !in aff * idle)
              && (idle <= active ==> c.Some? && Chosen(c.value, aff, last, cpu, active, idle))
    {
      var aff, last := threads[t].affinity, threads[t].lastCpu;
      var idles := aff * idle;
      if idles != {} {
        if cpu in idles { return Some(cpu); }
        if last in idles { return Some(last); }
        c := RandCpu(idles);
        assert idle <= active ==> idles * active == idles;
        return;
      }
      if last in aff * active && last != cpu { return Some(last); }
      var mask := aff - {cpu};
      if mask == {} { return Some(cpu); }
      c := RandCpu(mask);
      if c.None? { return Some(cpu); }
    }

    // ---------- run queues ----------

    method InsertHead(c: Cpu, t: Tid, ghost loose: set<Tid>)
      requires Sound(threads, runQueue, bitmap, loose) && t in loose && t in threads
      requires PrioOk(threads[t]) && IsHome(threads[t], (c, threads[t].effec))
      modifies this`runQueue, this`bitmap, this`idle
      ensures Sound(threads, runQueue, bitmap, loose - {t}) && idle == old(idle) - {c}
      ensures Line(runQueue, c) == Front(old(Line(runQueue, c)), t, threads)
      ensures forall d :: d != c ==> Line(runQueue, d) == old(Line(runQueue, d))
    {
      var s := (c, threads[t].effec);
      var x := [t] + At(runQueue, s);
      Queueing(threads, runQueue, bitmap, t, s, x, loose);
      SoundGraded(threads, runQueue, bitmap, loose, c);
      HeadRefines(runQueue, runQueue[s := x], c, NUM_PRIORITIES, t, threads);
      OtherLines(runQueue, s, x);
      runQueue := runQueue[s := x];
      bitmap := bitmap[c := BitsOf(bitmap, c) + {s.1}];
      idle := idle - {c};
    }

    method InsertTail(c: Cpu, t: Tid, ghost loose: set<Tid>)
      requires Sound(threads, runQueue, bitmap, loose) && t in loose && t in threads
      requires PrioOk(threads[t]) && IsHome(threads[t], (c, threads[t].effec))
      modifies this`runQueue, this`bitmap, this`idle
      ensures Sound(threads, runQueue, bitmap, loose - {t}) && idle == old(idle) - {c}
      ensures Line(runQueue, c) == Behind(old(Line(runQueue, c)), t, threads)
      ensures forall d :: d != c ==> Line(runQueue, d) == old(Line(runQueue, d))
    {
      var s := (c, threads[t].effec);
      var x := At(runQueue, s) + [t];
      Queueing(threads, runQueue, bitmap, t, s, x, loose);
      SoundGraded(threads, runQueue, bitmap, loose, c);
      TailRefines(runQueue, runQueue[s := x], c, NUM_PRIORITIES, t, threads);
      OtherLines(runQueue, s, x);
      runQueue := runQueue[s := x];
      bitmap := bitmap[c := BitsOf(bitmap, c) + {s.1}];
      idle := idle - {c};
    }

    /** Takes a thread off the list of its CPU and the given priority, which need no longer be
        its own. */
    method RemoveFromRunQueue(t: Tid, p: int)
      requires t in threads && 0 <= p < NUM_PRIORITIES
      requires Sound(threads[t := threads[t].(effec := p)], runQueue, bitmap, {})
      requires threads[t].state == Ready && !threads[t].idle
      modifies this`runQueue, this`bitmap
      ensures Sound(threads, runQueue, bitmap, {t})
      ensures Line(runQueue, threads[t].cpu) == Without(old(Line(runQueue, threads[t].cpu)), t)
      ensures forall d :: d != threads[t].cpu ==> Line(runQueue, d) == old(Line(runQueue, d))
    {
      var c := threads[t].cpu;
      var s: Slot := (c, p);
      ghost var th := threads[t := threads[t].(effec := p)];
      assert Fits(th, runQueue, t, s);
      OnlyHome(th, runQueue, bitmap, t, s, {});
      var x := Without(At(runQueue, s), t);
      Unqueueing(th, runQueue, bitmap, t, s, {});
      LooseFrame(th, threads, runQueue[s := x], Cleared(bitmap, s, x), t, {t});
      RemoveRefines(runQueue, runQueue[s := x], c, NUM_PRIORITIES, p, t);
      OtherLines(runQueue, s, x);
      runQueue := runQueue[s := x];
      if x == [] { bitmap := bitmap[c := BitsOf(bitmap, c) - {p}]; }
    }

    /** The head of the line of a CPU, taken off; its idle thread if the line is empty. */
    method GetTopThread(c: Cpu, ghost loose: set<Tid>) returns (t: Tid)
      requires Sound(threads, runQueue, bitmap, loose) && AllPrio(threads) && c in idleThread
      modifies this`runQueue, this`bitmap
      ensures Next(old(Line(runQueue, c)), Line(runQueue, c), t, idleThread[c])
      ensures old(Line(runQueue, c)) == [] ==> unchanged(this)
      ensures old(Line(runQueue, c)) != [] ==>
                && t !in loose && t in threads && IsHome(threads[t], (c, threads[t].effec))
                && Sound(threads, runQueue, bitmap, loose + {t})
      ensures forall d :: d != c ==> Line(runQueue, d) == old(Line(runQueue, d))
    {
      var bits := BitsOf(bitmap, c);
      if bits == {} {
        forall p | 0 <= p < NUM_PRIORITIES ensures At(runQueue, (c, p)) == [] {
          assert QueueOk(runQueue, bitmap, (c, p));
        }
        EmptyLine(runQueue, c, NUM_PRIORITIES);
        return idleThread[c];
      }
      var p := Highest(bits);
      var s: Slot := (c, p);
      assert QueueOk(runQueue, bitmap, s);
      var x := At(runQueue, s);
      t := x[0];
      OnlyHome(threads, runQueue, bitmap, t, s, loose);
      forall r | p < r < NUM_PRIORITIES ensures At(runQueue, (c, r)) == [] {
        assert QueueOk(runQueue, bitmap, (c, r));
      }
      TopRefines(runQueue, c, NUM_PRIORITIES, p);
      Unqueueing(threads, runQueue, bitmap, t, s, loose);
      OtherLines(runQueue, s, x[1..]);
      runQueue := runQueue[s := x[1..]];
      if x[1..] == [] { bitmap := bitmap[c := BitsOf(bitmap, c) - {p}]; }
    }

    method FindCpuAndInsert(t: Tid, cpu: Cpu, ghost loose: set<Tid>) returns (c: Cpu)
      requires Sound(threads, runQueue, bitmap, loose) && t in loose && t in threads
      requires threads[t].state == Ready && !threads[t].idle && PrioOk(threads[t]) && idle <= active
      modifies this`threads, this`runQueue, this`bitmap, this`idle, this`rot
      ensures threads == old(threads)[t := old(threads[t]).(cpu := c)]
      ensures Chosen(c, threads[t].affinity, threads[t].lastCpu, cpu, active, old(idle))
      ensures Sound(threads, runQueue, bitmap, loose - {t}) && idle == old(idle) - {c}
      ensures Line(runQueue, c) == Queued(old(Line(runQueue, c)), t, threads)
      ensures forall d :: d != c ==> Line(runQueue, d) == old(Line(runQueue, d))
    {
      var found := FindCpu(t, cpu);
      c := found.value;
      ghost var th := threads;
      threads := threads[t := threads[t].(cpu := c)];
      LooseFrame(th, threads, runQueue, bitmap, t, loose);
      if threads[t].slice > 0 {
        InsertHead(c, t, loose);
      } else {
        InsertTail(c, t, loose);
      }
    }

    // ---------- the running thread ----------

    /** Picks the next thread and switches to it. The current thread has already been put where
        it belongs. */
    method Resched(cpu: Cpu, used: nat)
      requires Sound(threads, runQueue, bitmap, {}) && AllPrio(threads)
      requires cpu in current && current[cpu] in threads && threads[current[cpu]].state != Running
      requires RunsBut(threads, current, idleThread, cpu)
      requires threads[current[cpu]].idle ==> threads[current[cpu]].cpu == cpu
      modifies this`threads, this`runQueue, this`bitmap, this`idle, this`current
      ensures Valid() && cpu in idleThread && cpu in current && current[cpu] in old(threads)
      ensures current == old(current)[cpu := current[cpu]]
      ensures Next(old(Line(runQueue, cpu)), Line(runQueue, cpu), current[cpu], idleThread[cpu])
      ensures forall d :: d != cpu ==> Line(runQueue, d) == old(Line(runQueue, d))
      ensures threads == Switch(old(threads), old(current[cpu]), current[cpu], cpu, used)
      ensures current[cpu] == old(current[cpu]) || threads[current[cpu]].slice > 0
      ensures idle == if current[cpu] != old(current[cpu]) && threads[current[cpu]].idle then old(idle) + {cpu} else old(idle)
    {
      var prev := current[cpu];
      IdleRests(threads, current, idleThread, cpu);
      var n := GetTopThread(cpu, {});
      SwitchLaw(threads, runQueue, bitmap, current, idleThread, cpu, n, used);
      if n == prev {
        threads := threads[n := threads[n].(state := Running)];
        assert current == current[cpu := n];
        return;
      }
      threads := threads[prev := Off(threads[prev], used)];
      threads := threads[n := On(threads[n], cpu)];
      if threads[n].idle { idle := idle + {cpu}; }
      current := current[cpu := n];
    }

    /** Puts the current thread, which is ready again, back into a line: its own CPU's if that is
        permitted, another one's otherwise; then switches. */
    method PutBack(cpu: Cpu, used: nat) returns (at: Cpu)
      requires cpu in current && current[cpu] in threads && AllPrio(threads) && idle <= active
      requires Sound(threads, runQueue, bitmap, {current[cpu]}) && RunsBut(threads, current, idleThread, cpu)
      requires threads[current[cpu]].state == Ready && !threads[current[cpu]].idle && threads[current[cpu]].cpu == cpu
      modifies this
      ensures Valid() && active == old(active) && idle <= active + {cpu}
      ensures cpu in current && cpu in idleThread && current == old(current)[cpu := current[cpu]]
      ensures GaveUp(old(threads), old(runQueue), active, old(idle), old(current[cpu]), cpu, at,
                     threads, runQueue, current[cpu], idleThread[cpu], used)
    {
      var t := current[cpu];
      ghost var th := threads;
      if threads[t].cpu !in threads[t].affinity {
        at := FindCpuAndInsert(t, cpu, {t});
        RunsButFrame(th, threads, current, idleThread, cpu, t);
      } else {
        at := cpu;
        assert threads[t := threads[t].(cpu := at)] == threads;
        if threads[t].slice > 0 {
          InsertHead(cpu, t, {t});
        } else {
          InsertTail(cpu, t, {t});
        }
      }
      assert {t} - {t} == {};
      QueuedSome(old(Line(runQueue, at)), t, threads);
      Resched(cpu, used);
    }

    /** The current thread becomes x, which is ready, and goes back into a line. */
    method GiveUp(cpu: Cpu, x: Thread, used: nat) returns (at: Cpu)
      requires Valid() && cpu in current && current[cpu] in threads && !threads[current[cpu]].idle && idle <= active
      requires x.state == Ready && !x.idle && PrioOk(x) && x.cpu == threads[current[cpu]].cpu && x.affinity == threads[current[cpu]].affinity
      requires threads[current[cpu]].effec - 1 <= x.effec <= threads[current[cpu]].effec
      modifies this
      ensures Valid() && active == old(active) && idle <= active + {cpu}
      ensures cpu in current && cpu in idleThread && current == old(current)[cpu := current[cpu]]
      ensures GaveUp(old(threads)[old(current[cpu]) := x], old(runQueue), active, old(idle), old(current[cpu]), cpu, at,
                     threads, runQueue, current[cpu], idleThread[cpu], used)
      ensures WentBack(old(threads[current[cpu]]), x.slice, old(threads), old(Line(runQueue, cpu)), old(current[cpu]), cpu,
                       threads, Line(runQueue, cpu), current[cpu], used)
      ensures threads[old(current[cpu])].effec == x.effec && threads[old(current[cpu])].boost == x.boost
    {
      var t := current[cpu];
      assert RunsHere(threads, current, idleThread, cpu);
      RunnerIsOut(threads, runQueue, bitmap, cpu, t);
      Stops(threads, threads[t := x], runQueue, bitmap, current, idleThread, cpu, x);
      ghost var th0 := threads;
      threads := threads[t := x];
      ghost var th, q, i := threads, runQueue, idle;
      at := PutBack(cpu, used);
      GaveUpBack(th0, th, q, active, i, t, cpu, at, threads, runQueue, current[cpu], idleThread[cpu], used);
    }

    /** The current thread gives up the rest of its slice. */
    method Yield(cpu: Cpu, used: nat) returns (at: Cpu)
      requires Valid() && cpu in current && current[cpu] in threads && !threads[current[cpu]].idle && idle <= active
      modifies this
      ensures Valid() && active == old(active) && idle <= active + {cpu}
      ensures cpu in current && cpu in idleThread && current == old(current)[cpu := current[cpu]]
      ensures var t := old(current[cpu]);
              GaveUp(old(threads)[t := Yielding(old(threads[t]))], old(runQueue), active, old(idle), t, cpu, at,
                     threads, runQueue, current[cpu], idleThread[cpu], used)
      ensures WentBack(old(threads[current[cpu]]), 0, old(threads), old(Line(runQueue, cpu)), old(current[cpu]), cpu,
                       threads, Line(runQueue, cpu), current[cpu], used)
      ensures threads[old(current[cpu])].boost == LessBoost(old(threads[current[cpu]]))
    {
      var x := Yielding(threads[current[cpu]]);
      DeboostLaw(threads[current[cpu]].(slice := 0), false);
      at := GiveUp(cpu, x, used);
    }

    /** The current thread is preempted; an idle thread is not queued. */
    method Preempt(cpu: Cpu, used: nat) returns (at: Cpu)
      requires Valid() && cpu in current && current[cpu] in threads && idle <= active
      modifies this
      ensures Valid() && active == old(active) && idle <= active + {cpu}
      ensures cpu in current && cpu in idleThread && current == old(current)[cpu := current[cpu]]
      ensures var t := old(current[cpu]);
              if old(threads[t]).idle then
                MadeWay(old(threads)[t := old(threads[t]).(state := Ready)], old(runQueue), t, cpu,
                        threads, runQueue, current[cpu], idleThread[cpu], used)
              else GaveUp(old(threads)[t := Preempted(old(threads[t]))], old(runQueue), active, old(idle), t, cpu, at,
                          threads, runQueue, current[cpu], idleThread[cpu], used)
      ensures var t, o := old(current[cpu]), old(threads[current[cpu]]);
              !o.idle ==>
                && WentBack(o, o.slice, old(threads), old(Line(runQueue, cpu)), t, cpu, threads, Line(runQueue, cpu), current[cpu], used)
                && (o.slice > 0 ==> threads[t].effec == o.effec && threads[t].boost == o.boost)
                && (o.slice == 0 ==> threads[t].boost == Deboosted(o, true).boost)
    {
      var t := current[cpu];
      DeboostLaw(threads[t], true);
      if threads[t].idle {
        var x := threads[t].(state := Ready);
        Stops(threads, threads[t := x], runQueue, bitmap, current, idleThread, cpu, x);
        threads := threads[t := x];
        at := cpu;
        Resched(cpu, used);
      } else {
        at := GiveUp(cpu, Preempted(threads[t]), used);
      }
    }

    /** The current thread lets the scheduler run, unless preemption is disabled. */
    method Reschedule(cpu: Cpu, disabled: bool, used: nat) returns (at: Cpu)
      requires Valid() && cpu in current && current[cpu] in threads && idle <= active
      modifies this
      ensures Valid() && active == old(active) && idle <= active + {cpu}
      ensures disabled ==> unchanged(this)
      ensures cpu in current && cpu in idleThread && current == old(current)[cpu := current[cpu]]
      ensures !disabled ==> Rescheduled(old(threads), old(runQueue), active, old(idle), old(current[cpu]), cpu, at,
                                        threads, runQueue, current[cpu], idleThread[cpu], used)
      ensures var t, o := old(current[cpu]), old(threads[current[cpu]]);
              !disabled && !o.idle ==>
                && WentBack(o, o.slice, old(threads), old(Line(runQueue, cpu)), t, cpu, threads, Line(runQueue, cpu), current[cpu], used)
                && threads[t].boost == LessBoost(o)
    {
      at := cpu;
      assert IdleOk(threads, current, idleThread, cpu);
      assert current == current[cpu := current[cpu]];
      if disabled { return; }
      var t := current[cpu];
      DeboostLaw(threads[t], false);
      if threads[t].idle {
        var x := threads[t].(state := Ready);
        Stops(threads, threads[t := x], runQueue, bitmap, current, idleThread, cpu, x);
        threads := threads[t := x];
        Resched(cpu, used);
      } else {
        at := GiveUp(cpu, Rescheduling(threads[t]), used);
      }
    }

    /** The current thread stops: it is blocked, asleep, suspended or dead, and whoever stops it has
        put it where it waits, if anywhere. */
    method Block(cpu: Cpu, state: State, used: nat)
      requires state != Running && state != Ready
      requires Valid() && cpu in current && current[cpu] in threads && !threads[current[cpu]].idle
      modifies this
      ensures Valid() && active == old(active) && idle <= old(idle) + {cpu}
      ensures cpu in current && cpu in idleThread && current == old(current)[cpu := current[cpu]]
      ensures Next(old(Line(runQueue, cpu)), Line(runQueue, cpu), current[cpu], idleThread[cpu])
      ensures forall d :: d != cpu ==> Line(runQueue, d) == old(Line(runQueue, d))
      ensures var t := old(current[cpu]);
              && current[cpu] in old(threads) && t in threads && threads[t].state == state && current[cpu] != t
              && threads == Switch(old(threads)[t := old(threads[t]).(state := state)], t, current[cpu], cpu, used)
    {
      var t := current[cpu];
      var x := threads[t].(state := state);
      Stops(threads, threads[t := x], runQueue, bitmap, current, idleThread, cpu, x);
      threads := threads[t := x];
      SoundGraded(threads, runQueue, bitmap, {}, cpu);
      BelowPrio(runQueue, cpu, NUM_PRIORITIES, threads);
      assert t !in Line(runQueue, cpu) by { assert Fits(threads, runQueue, t, (cpu, Prio(threads, t))); }
      assert threads[t].state == state && !threads[t].idle;
      assert IdleOk(threads, current, idleThread, cpu);
      Resched(cpu, used);
    }

    // ---------- waking ----------

    /** A woken thread is boosted, made ready and put in a line. */
    method Unblock(t: Tid, cpu: Cpu) returns (c: Cpu)
      requires Valid() && t in threads && !threads[t].idle && threads[t].state !in {Running, Ready} && idle <= active
      modifies this`threads, this`runQueue, this`bitmap, this`idle, this`rot
      ensures Valid() && idle == old(idle) - {c}
      ensures threads == old(threads)[t := Boosted(old(threads[t])).(state := Ready, cpu := c)]
      ensures Chosen(c, threads[t].affinity, threads[t].lastCpu, cpu, active, old(idle))
      ensures Line(runQueue, c) == Queued(old(Line(runQueue, c)), t, threads)
      ensures forall d :: d != c ==> Line(runQueue, d) == old(Line(runQueue, d))
    {
      ghost var th := threads;
      BoostLaw(threads[t]);
      threads := threads[t := Boosted(threads[t])];
      threads := threads[t := threads[t].(state := Ready)];
      Loosened(th, threads, runQueue, bitmap, t);
      c := FindCpuAndInsert(t, cpu, {t});
      assert {t} - {t} == {};
      RunsFrame(th, threads, current, idleThread, t);
    }

    /** Wakes a list of threads, last first: each is ready afterwards and joins one line. */
    method UnblockList(list: seq<Tid>, cpu: Cpu)
      requires Valid() && idle <= active && Distinct(list)
      requires forall t :: t in list ==> t in threads && !threads[t].idle && threads[t].state !in {Running, Ready}
      modifies this`threads, this`runQueue, this`bitmap, this`idle, this`rot
      ensures Valid() && idle <= old(idle) && Woken(old(threads), threads, list, cpu, active)
      ensures forall d :: Line(runQueue, d) == Joined(old(Line(runQueue, d)), list, d, threads)
    {
      var n := |list|;
      while n > 0
        invariant 0 <= n <= |list| && Valid() && idle <= old(idle)
        invariant Woken(old(threads), threads, list[n..], cpu, active)
        invariant forall d :: Line(runQueue, d) == Joined(old(Line(runQueue, d)), list[n..], d, threads)
      {
        n := n - 1;
        var t := list[n];
        assert t !in list[n + 1..] && list[n..] == [t] + list[n + 1..];
        ghost var th := threads;
        var c := Unblock(t, cpu);
        WokenStep(old(threads), th, threads, list[n + 1..], t, cpu, active, c);
        forall d ensures Line(runQueue, d) == Joined(old(Line(runQueue, d)), list[n..], d, threads) {
          LineMembers(old(threads), old(runQueue), old(bitmap), d);
          JoinedStep(old(Line(runQueue, d)), list[n + 1..], d, th, threads, t);
        }
      }
      assert list[0..] == list;
    }

    // ---------- migration and priorities ----------

    /** A ready thread whose CPU is no longer permitted moves to another line. */
    method MigrateReady(t: Tid, cpu: Cpu) returns (c: Cpu)
      requires Valid() && t in threads && threads[t].state == Ready && !threads[t].idle && idle <= active
      modifies this`threads, this`runQueue, this`bitmap, this`idle, this`rot
      ensures Valid() && idle == old(idle) - {c} && threads == old(threads)[t := old(threads[t]).(cpu := c)]
      ensures Chosen(c, threads[t].affinity, threads[t].lastCpu, cpu, active, old(idle))
      ensures Moved(old(runQueue), runQueue, t, old(threads[t]).cpu, c, threads)
    {
      ghost var th := threads;
      assert PrioOk(threads[t]);
      assert threads[t := threads[t].(effec := threads[t].effec)] == threads;
      RemoveFromRunQueue(t, threads[t].effec);
      c := FindCpuAndInsert(t, cpu, {t});
      assert {t} - {t} == {};
      RunsFrame(th, threads, current, idleThread, t);
    }

    /** After a change of affinity. The CPUs in remote are to be interrupted. A ready thread is
        first moved to the line of CPU c, as in mid; a running one, and this CPU's thread if the
        line is this CPU's, is put in line at a CPU. */
    method Migrate(t: Tid, cpu: Cpu, disabled: bool, used: nat) returns (remote: set<Cpu>, ghost c: Cpu, ghost mid: Queues, ghost at: Cpu)
      requires Valid() && t in threads && !threads[t].idle && cpu in current && current[cpu] in threads && idle <= active
      modifies this
      ensures Valid() && active == old(active) && idle <= active + {cpu}
      ensures cpu in current && cpu in idleThread && current == old(current)[cpu := current[cpu]]
      ensures var o := old(threads[t]);
              && (o.state !in {Running, Ready} || o.cpu in o.affinity ==> unchanged(this) && remote == {})
              && (o.state == Running && o.cpu !in o.affinity && o.cpu != cpu ==> unchanged(this) && remote == {o.cpu})
              && (o.state in {Running, Ready} && o.cpu !in o.affinity && (o.state == Ready || o.cpu == cpu) ==>
                    t in threads && Chosen(threads[t].cpu, o.affinity, o.lastCpu, cpu, active, old(idle)))
      ensures var o := old(threads[t]);
              o.state == Running && o.cpu !in o.affinity && o.cpu == cpu ==>
                remote == {} && GaveUp(old(threads)[t := o.(state := Ready)], old(runQueue), active, old(idle), t, cpu, at,
                                       threads, runQueue, current[cpu], idleThread[cpu], used)
      ensures var o := old(threads[t]);
              var th := old(threads)[t := o.(cpu := c)];
              o.state == Ready && o.cpu !in o.affinity ==>
                && remote == (if c == cpu then {} else {c})
                && Chosen(c, o.affinity, o.lastCpu, cpu, active, old(idle)) && Moved(old(runQueue), mid, t, o.cpu, c, th)
                && (if c == cpu && !disabled then
                      Rescheduled(th, mid, active, old(idle) - {c}, old(current[cpu]), cpu, at,
                                  threads, runQueue, current[cpu], idleThread[cpu], used)
                    else threads == th && runQueue == mid && current == old(current))
    {
      remote, c, mid, at := {}, cpu, runQueue, cpu;
      assert RunsBack(threads, current, t) && RunsHere(threads, current, idleThread, cpu);
      assert IdleOk(threads, current, idleThread, cpu) && current == current[cpu := current[cpu]];
      var o := threads[t];
      if o.state == Running {
        if o.cpu in o.affinity { return; }
        if t == current[cpu] {
          var x := o.(state := Ready);
          Stops(threads, threads[t := x], runQueue, bitmap, current, idleThread, cpu, x);
          threads := threads[t := x];
          at := PutBack(cpu, used);
        } else {
          remote := {o.cpu};
        }
      } else if o.state == Ready {
        if o.cpu in o.affinity { return; }
        var found := MigrateReady(t, cpu);
        c, mid := found, runQueue;
        if found == cpu {
          ghost var th, i, cur := threads, idle, current[cpu];
          assert PrioOk(threads[t]) && threads[cur].state == Running;
          at := Reschedule(cpu, disabled, used);
          if !disabled { RescheduleKeeps(th, mid, active, i, cur, cpu, at, threads, runQueue, current[cpu], idleThread[cpu], used, t); }
        } else {
          remote := {found};
        }
      }
    }

    /** The effective priority of a thread has changed: a ready thread moves to the front of its
        new priority if it rose, to the back if it fell. Says which CPU must reschedule. */
    method PriorityChanged(t: Tid, was: int, cpu: Cpu) returns (local: bool, remote: set<Cpu>)
      requires t in threads && PrioOk(threads[t]) && !threads[t].idle && 0 <= was < NUM_PRIORITIES
      requires was != threads[t].effec
      requires Sound(threads[t := threads[t].(effec := was)], runQueue, bitmap, {})
      modifies this`runQueue, this`bitmap, this`idle
      ensures Sound(threads, runQueue, bitmap, {}) && Placed(old(runQueue), runQueue, t, was, threads)
      ensures if threads[t].state == Ready then idle == old(idle) - {threads[t].cpu} else unchanged(this)
      ensures Asks(threads, t, was, cpu, current, local, remote)
    {
      local, remote := false, {};
      match threads[t].state
      case Running =>
        Homeless(threads, runQueue, bitmap, t);
        Homeless(threads[t := threads[t].(effec := was)], runQueue, bitmap, t);
        LooseFrame(threads[t := threads[t].(effec := was)], threads, runQueue, bitmap, t, {t});
        if threads[t].effec < was {
          if cpu in current && t == current[cpu] { local := true; } else { remote := {threads[t].cpu}; }
        }
      case Ready =>
        RemoveFromRunQueue(t, was);
        if threads[t].effec > was {
          InsertHead(threads[t].cpu, t, {t});
          if threads[t].cpu == cpu { local := true; } else { remote := {threads[t].cpu}; }
        } else {
          InsertTail(threads[t].cpu, t, {t});
        }
        assert {t} - {t} == {};
      case _ =>
        Homeless(threads, runQueue, bitmap, t);
        Homeless(threads[t := threads[t].(effec := was)], runQueue, bitmap, t);
        LooseFrame(threads[t := threads[t].(effec := was)], threads, runQueue, bitmap, t, {t});
    }

    /** Priority inheritance: raises the inherited priority, or ends it. */
    method InheritPriority(t: Tid, pri: int, cpu: Cpu) returns (local: bool, remote: set<Cpu>)
      requires Valid() && t in threads && !threads[t].idle
      modifies this`threads, this`runQueue, this`bitmap, this`idle
      ensures Valid() && threads == old(threads)[t := Inheriting(old(threads[t]), pri)]
      ensures Placed(old(runQueue), runQueue, t, old(threads[t]).effec, threads)
      ensures Asks(threads, t, old(threads[t]).effec, cpu, current, local, remote)
      ensures idle == if threads[t].state == Ready && threads[t].effec != old(threads[t]).effec then old(idle) - {threads[t].cpu} else old(idle)
    {
      local, remote := false, {};
      ghost var th := threads;
      var was := threads[t].effec;
      assert PrioOk(threads[t]);
      InheritLaw(threads[t], pri);
      var p := if pri > HIGHEST_PRIORITY then HIGHEST_PRIORITY else pri;
      if p >= 0 && p <= threads[t].inherited {
        assert threads == threads[t := threads[t]];
        return;
      }
      threads := threads[t := Recomputed(threads[t].(inherited := p))];
      RunsFrame(th, threads, current, idleThread, t);
      Reprioritized(th, threads, runQueue, bitmap, t);
      if threads[t].effec == was { return; }
      local, remote := PriorityChanged(t, was, cpu);
    }

    /** A new base priority, without the old boost; a ready thread moves to its new place. */
    method Rebase(t: Tid, pri: int, cpu: Cpu) returns (local: bool, remote: set<Cpu>)
      requires Valid() && t in threads && !threads[t].idle && pri >= LOWEST_PRIORITY
      modifies this`threads, this`runQueue, this`bitmap, this`idle
      ensures Valid() && threads == old(threads)[t := Rebased(old(threads[t]), pri)]
      ensures Placed(old(runQueue), runQueue, t, old(threads[t]).effec, threads)
      ensures Asks(threads, t, old(threads[t]).effec, cpu, current, local, remote)
      ensures idle == if threads[t].state == Ready && threads[t].effec != old(threads[t]).effec then old(idle) - {threads[t].cpu} else old(idle)
    {
      local, remote := false, {};
      ghost var th := threads;
      var was := threads[t].effec;
      assert PrioOk(threads[t]);
      threads := threads[t := Rebased(threads[t], pri)];
      RunsFrame(th, threads, current, idleThread, t);
      Reprioritized(th, threads, runQueue, bitmap, t);
      if threads[t].effec == was { return; }
      local, remote := PriorityChanged(t, was, cpu);
    }

    /** A new base priority: the thread takes its new place, as in mid; then, if asked, the thread of
        this CPU lets the scheduler run and is put in line at a CPU. */
    method ChangePriority(t: Tid, pri: int, cpu: Cpu, disabled: bool, used: nat)
      returns (remote: set<Cpu>, ghost local: bool, ghost mid: Queues, ghost at: Cpu)
      requires Valid() && t in threads && !threads[t].idle && pri >= LOWEST_PRIORITY
      requires cpu in current && current[cpu] in threads && idle <= active
      modifies this
      ensures Valid() && active == old(active) && idle <= active + {cpu}
      ensures cpu in current && cpu in idleThread && current == old(current)[cpu := current[cpu]]
      ensures old(threads[t]).state == Death ==> unchanged(this) && remote == {}
      ensures t in threads && threads[t].inherited == old(threads[t]).inherited
      ensures old(threads[t]).state != Death ==>
                var base := if pri > HIGHEST_PRIORITY then HIGHEST_PRIORITY else pri;
                threads[t].base == base && threads[t].boost == 0 && threads[t].effec == Max(base, threads[t].inherited)
      ensures old(threads[t]).state != Death ==>
                var was, r := old(threads[t]).effec, Rebased(old(threads[t]), pri);
                var th, i := old(threads)[t := r], if r.state == Ready && r.effec != was then old(idle) - {r.cpu} else old(idle);
                && Placed(old(runQueue), mid, t, was, th) && Asks(th, t, was, cpu, old(current), local, remote)
                && (if local && !disabled then
                      Rescheduled(th, mid, active, i, old(current[cpu]), cpu, at,
                                  threads, runQueue, current[cpu], idleThread[cpu], used)
                    else threads == th && runQueue == mid && current == old(current))
    {
      remote, local, mid, at := {}, false, runQueue, cpu;
      assert IdleOk(threads, current, idleThread, cpu) && current == current[cpu := current[cpu]];
      if threads[t].state == Death { return; }
      var here;
      here, remote := Rebase(t, pri, cpu);
      local, mid := here, runQueue;
      if here {
        ghost var th, i, c := threads, idle, current[cpu];
        assert PrioOk(threads[t]);
        at := Reschedule(cpu, disabled, used);
        if !disabled { RescheduleKeeps(th, mid, active, i, c, cpu, at, threads, runQueue, current[cpu], idleThread[cpu], used, t); }
      }
    }

    // ---------- taking a CPU offline ----------

    /** One thread of a departing CPU's line, already taken off it: if it is pinned it goes on a
        list, otherwise to another CPU. */
    method MoveOff(t: Tid, cpu: Cpu, pinned: seq<Tid>, ghost stay: set<Tid>, ghost others: set<Tid>) returns (pinned': seq<Tid>)
      requires Sound(threads, runQueue, bitmap, SetOf(pinned) + {t}) && t in threads && t !in pinned && t !in others
      requires AllPrio(threads) && threads[t].state == Ready && !threads[t].idle
      requires idle <= active && cpu !in active && Distinct(pinned)
      requires if t in stay then threads[t].affinity == {cpu}
               else threads[t].affinity != {cpu} && threads[t].affinity * active != {}
      modifies this`threads, this`runQueue, this`bitmap, this`idle, this`rot
      ensures pinned' == (if t in stay then [t] + pinned else pinned) && Distinct(pinned')
      ensures Sound(threads, runQueue, bitmap, SetOf(pinned')) && AllPrio(threads) && idle <= active
      ensures Drained(old(threads), threads, [t], stay, active)
      ensures Line(runQueue, cpu) == old(Line(runQueue, cpu)) && SameOthers(old(runQueue), runQueue, cpu, others)
    {
      SetOfCons(t, pinned);
      DistinctCons(t, pinned);
      if threads[t].affinity != {cpu} {
        pinned' := pinned;
        var c := FindCpuAndInsert(t, cpu, SetOf(pinned) + {t});
        assert SetOf(pinned) + {t} - {t} == SetOf(pinned);
        RestrictFront(old(Line(runQueue, c)), t, threads, others);
        RestrictBehind(old(Line(runQueue, c)), t, threads, others);
      } else {
        pinned' := [t] + pinned;
      }
    }

    /** The line of a CPU is emptied: threads pinned to it go on a list, last first, and all
        others to other CPUs. */
    method DrainLine(cpu: Cpu, ghost stay: set<Tid>, ghost others: set<Tid>) returns (pinned: seq<Tid>)
      requires Sound(threads, runQueue, bitmap, {}) && AllPrio(threads)
      requires idle <= active && cpu !in active && cpu in idleThread
      requires idleThread[cpu] in threads && threads[idleThread[cpu]].idle
      requires forall t :: t in Line(runQueue, cpu) ==> Leaves(threads, t, cpu, stay, others, active)
      modifies this`threads, this`runQueue, this`bitmap, this`idle, this`rot
      ensures Rev(pinned) == Restrict(old(Line(runQueue, cpu)), stay) && Line(runQueue, cpu) == []
      ensures Sound(threads, runQueue, bitmap, SetOf(pinned)) && Distinct(pinned)
      ensures AllPrio(threads) && idle <= active
      ensures Drained(old(threads), threads, old(Line(runQueue, cpu)), stay, active)
      ensures SameOthers(old(runQueue), runQueue, cpu, others)
    {
      pinned := [];
      ghost var done := [];
      ghost var line := Line(runQueue, cpu);
      assert line == done + line;
      var more := true;
      while more
        invariant Draining(old(threads), old(runQueue), threads, runQueue, bitmap, line, done, pinned, stay, active, cpu, others)
        invariant idleThread[cpu] in threads && threads[idleThread[cpu]].idle
        invariant idle <= active && (!more ==> done == line && Line(runQueue, cpu) == [])
        decreases |line| - |done|, more
      {
        more, done, pinned := DrainStep(cpu, pinned, stay, others, line, done, old(threads), old(runQueue));
      }
    }

    /** One round of the loop: the first thread of the line leaves it, if there is one. */
    method DrainStep(cpu: Cpu, pinned: seq<Tid>, ghost stay: set<Tid>, ghost others: set<Tid>,
                     ghost line: seq<Tid>, ghost done: seq<Tid>, ghost th0: Threads, ghost q0: Queues)
      returns (more: bool, ghost done': seq<Tid>, pinned': seq<Tid>)
      requires Draining(th0, q0, threads, runQueue, bitmap, line, done, pinned, stay, active, cpu, others)
      requires idle <= active && cpu !in active && cpu in idleThread && idleThread[cpu] in threads && threads[idleThread[cpu]].idle
      requires forall t :: t in line ==> Leaves(th0, t, cpu, stay, others, active)
      modifies this`threads, this`runQueue, this`bitmap, this`idle, this`rot
      ensures Draining(th0, q0, threads, runQueue, bitmap, line, done', pinned', stay, active, cpu, others) && idle <= active
      ensures if more then |done| < |done'| <= |line| else done' == done == line && Line(runQueue, cpu) == []
      ensures idleThread[cpu] in threads && threads[idleThread[cpu]].idle
    {
      ghost var th, q := threads, runQueue;
      var t := GetTopThread(cpu, SetOf(pinned));
      if threads[t].idle {
        assert done + [] == done;
        return false, done, pinned;
      }
      ghost var q1 := runQueue;
      Popped(th0, q0, th, q, q1, line, done, pinned, stay, active, cpu, others, t);
      pinned' := MoveOff(t, cpu, pinned, stay, others);
      DrainingNext(Line(q1, cpu), line, done, pinned, pinned', stay, t);
      DrainedJoin(th0, th, threads, done, t, stay, active);
      SameOthersJoin(q0, q, q1, runQueue, cpu, others);
      more, done' := true, done + [t];
    }

    /** A thread that is not pinned to a departing CPU and is permitted on no active CPU is put back
        into the line it came from: however often the loop that empties the line goes round, the
        thread is in that line again, and the loop does not end. */
    method NeverDrains(cpu: Cpu, rounds: nat, ghost u: Tid)
      requires Sound(threads, runQueue, bitmap, {}) && AllPrio(threads)
      requires idle <= active && cpu !in active && cpu in idleThread && u in threads
      requires u in Line(runQueue, cpu) && threads[u].affinity != {cpu} && threads[u].affinity * active == {}
      modifies this`threads, this`runQueue, this`bitmap, this`idle, this`rot
      ensures u in Line(runQueue, cpu)
    {
      var pinned := [];
      var i := 0;
      while i < rounds
        invariant u in Line(runQueue, cpu) && u in threads && idle <= active
        invariant threads[u].affinity != {cpu} && threads[u].affinity * active == {}
        invariant Sound(threads, runQueue, bitmap, SetOf(pinned)) && AllPrio(threads)
      {
        pinned := PutAround(cpu, pinned, u);
        i := i + 1;
      }
    }

    /** One round of that loop. */
    method PutAround(cpu: Cpu, pinned: seq<Tid>, ghost u: Tid) returns (pinned': seq<Tid>)
      requires Sound(threads, runQueue, bitmap, SetOf(pinned)) && AllPrio(threads)
      requires idle <= active && cpu !in active && cpu in idleThread && u in threads
      requires u in Line(runQueue, cpu) && threads[u].affinity != {cpu} && threads[u].affinity * active == {}
      modifies this`threads, this`runQueue, this`bitmap, this`idle, this`rot
      ensures Sound(threads, runQueue, bitmap, SetOf(pinned')) && AllPrio(threads) && idle <= active
      ensures u in Line(runQueue, cpu) && u in threads && threads[u].affinity == old(threads[u]).affinity
    {
      var t := GetTopThread(cpu, SetOf(pinned));
      if threads[t].affinity != {cpu} {
        ghost var line := Line(runQueue, cpu);
        var c := FindCpuAndInsert(t, cpu, SetOf(pinned) + {t});
        assert SetOf(pinned) + {t} - {t} == SetOf(pinned);
        QueuedMembers(line, t, threads);
        pinned' := pinned;
      } else {
        SetOfCons(t, pinned);
        pinned' := [t] + pinned;
      }
    }

    /** Taking a CPU offline: pinned threads stay in its line, in their order; every other thread
        of its line is now in the line of exactly one other active CPU that is permitted to it;
        no other thread is disturbed. */
    method TransitionOff(cpu: Cpu)
      requires Valid() && idle <= active && cpu !in idle && cpu in current
      requires forall t :: t in Line(runQueue, cpu) && t in threads && threads[t].affinity != {cpu} ==>
                 threads[t].affinity * (active - {cpu}) != {}
      modifies this`threads, this`runQueue, this`bitmap, this`idle, this`rot, this`active
      ensures Valid() && active == old(active) - {cpu} && idle <= active
      ensures var stay := set t | t in old(threads) && old(threads)[t].affinity == {cpu};
              var others := old(threads).Keys - SetOf(old(Line(runQueue, cpu)));
              && Line(runQueue, cpu) == Restrict(old(Line(runQueue, cpu)), stay)
              && Drained(old(threads), threads, old(Line(runQueue, cpu)), stay, active)
              && (forall d :: d != cpu ==> Restrict(Line(runQueue, d), others) == old(Line(runQueue, d)))
    {
      active := active - {cpu};
      ghost var stay := set t | t in threads && threads[t].affinity == {cpu};
      ghost var others := threads.Keys - SetOf(Line(runQueue, cpu));
      assert IdleOk(threads, current, idleThread, cpu);
      Apart(threads, runQueue, bitmap, cpu);
      Depart(cpu, stay, others);
      DrainedRuns(old(threads), threads, old(Line(runQueue, cpu)), stay, active, current, idleThread);
    }

    /** As DrainLine; the pinned threads are as before and by priority. */
    method DrainKept(cpu: Cpu, ghost stay: set<Tid>, ghost others: set<Tid>, ghost kept: seq<Tid>) returns (pinned: seq<Tid>)
      requires Sound(threads, runQueue, bitmap, {}) && AllPrio(threads)
      requires idle <= active && cpu !in active && cpu in idleThread
      requires idleThread[cpu] in threads && threads[idleThread[cpu]].idle
      requires forall t :: t in Line(runQueue, cpu) ==> Leaves(threads, t, cpu, stay, others, active)
      requires kept == Restrict(Line(runQueue, cpu), stay)
      modifies this`threads, this`runQueue, this`bitmap, this`idle, this`rot
      ensures Emptied(threads, runQueue, bitmap, cpu, pinned, kept) && idle <= active
      ensures Drained(old(threads), threads, old(Line(runQueue, cpu)), stay, active)
      ensures SameOthers(old(runQueue), runQueue, cpu, others)
    {
      KeptByPrio(threads, runQueue, bitmap, cpu, stay);
      pinned := DrainLine(cpu, stay, others);
      KeptAsBefore(old(threads), threads, old(Line(runQueue, cpu)), stay, active, kept, pinned);
    }

    method Depart(cpu: Cpu, ghost stay: set<Tid>, ghost others: set<Tid>)
      requires Sound(threads, runQueue, bitmap, {}) && AllPrio(threads)
      requires idle <= active && cpu !in active && cpu in idleThread
      requires idleThread[cpu] in threads && threads[idleThread[cpu]].idle
      requires forall t :: t in Line(runQueue, cpu) ==> Leaves(threads, t, cpu, stay, others, active)
      modifies this`threads, this`runQueue, this`bitmap, this`idle, this`rot
      ensures Sound(threads, runQueue, bitmap, {}) && idle <= active
      ensures Line(runQueue, cpu) == Restrict(old(Line(runQueue, cpu)), stay)
      ensures Drained(old(threads), threads, old(Line(runQueue, cpu)), stay, active)
      ensures SameOthers(old(runQueue), runQueue, cpu, others)
    {
      ghost var kept := Restrict(Line(runQueue, cpu), stay);
      var pinned := DrainKept(cpu, stay, others, kept);
      ghost var q := runQueue;
      PutPinned(cpu, pinned, kept);
      SameOthersKept(old(runQueue), q, runQueue, cpu, others);
    }

    /** The pinned threads return, last first, each to the front. */
    method PutPinned(cpu: Cpu, list: seq<Tid>, ghost kept: seq<Tid>)
      requires Emptied(threads, runQueue, bitmap, cpu, list, kept)
      modifies this`runQueue, this`bitmap, this`idle
      ensures Sound(threads, runQueue, bitmap, {}) && Line(runQueue, cpu) == kept && idle <= old(idle)
      ensures forall d :: d != cpu ==> Line(runQueue, d) == old(Line(runQueue, d))
    {
      var pinned := list;
      while pinned != []
        invariant Sound(threads, runQueue, bitmap, SetOf(pinned)) && Distinct(pinned) && idle <= old(idle)
        invariant forall t :: t in pinned ==> t in list
        invariant Rev(pinned) + Line(runQueue, cpu) == kept
        invariant forall d :: d != cpu ==> Line(runQueue, d) == old(Line(runQueue, d))
        decreases |pinned|
      {
        var t := pinned[0];
        ghost var line := Line(runQueue, cpu);
        assert kept == Rev(pinned[1..]) + ([t] + line);
        ByPrioSplit(Rev(pinned[1..]), t, line, threads);
        assert pinned == [t] + pinned[1..];
        SetOfCons(t, pinned[1..]);
        assert SetOf(pinned) - {t} == SetOf(pinned[1..]);
        InsertHead(cpu, t, SetOf(pinned));
        pinned := pinned[1..];
      }
    }
  }

  /** Of the threads of a line, the staying ones are as before, and the others differ in their CPU
      only, which is active and permitted; all other threads are as before. */
  ghost predicate Drained(th: Threads, th': Threads, line: seq<Tid>, stay: set<Tid>, active: set<Cpu>) {
    && th.Keys == th'.Keys
    && (forall t :: t in th && (t !in line || t in stay) ==> th'[t] == th[t])
    && (forall t :: t in th && t in line && t !in stay ==>
          th'[t] == th[t].(cpu := th'[t].cpu) && th'[t].cpu in th[t].affinity * active)
  }

  /** In the lines of the other CPUs, the given threads are as before. */
  ghost predicate SameOthers(q: Queues, q': Queues, cpu: Cpu, others: set<Tid>) {
    forall d :: d != cpu ==> Restrict(Line(q', d), others) == Restrict(Line(q, d), others)
  }

  /** The line of the CPU is empty, and the listed threads wait to be put back, in order. */
  ghost predicate Emptied(th: Threads, q: Queues, b: Bits, cpu: Cpu, list: seq<Tid>, kept: seq<Tid>) {
    && Sound(th, q, b, SetOf(list)) && Line(q, cpu) == []
    && Rev(list) == kept && ByPrio(kept, th) && AllPrio(th) && Distinct(list)
    && forall t :: t in list ==> t in th && IsHome(th[t], (cpu, th[t].effec))
  }

  lemma SameOthersJoin(q: Queues, q1: Queues, q2: Queues, q3: Queues, cpu: Cpu, others: set<Tid>)
    requires SameOthers(q, q1, cpu, others) && SameOthers(q2, q3, cpu, others)
    requires forall d :: d != cpu ==> Line(q2, d) == Line(q1, d)
    ensures SameOthers(q, q3, cpu, others)
  {
    forall d | d != cpu ensures Restrict(Line(q3, d), others) == Restrict(Line(q, d), others) {
      assert Line(q2, d) == Line(q1, d);
    }
  }

  lemma SameOthersKept(q: Queues, q1: Queues, q2: Queues, cpu: Cpu, others: set<Tid>)
    requires SameOthers(q, q1, cpu, others) && forall d :: d != cpu ==> Line(q2, d) == Line(q1, d)
    ensures SameOthers(q, q2, cpu, others)
  {
  }

  /** The threads `done` have left the line, the pinned ones among them for a list. */
  ghost predicate Draining(th0: Threads, q0: Queues, th: Threads, q: Queues, b: Bits, line: seq<Tid>, done: seq<Tid>, pinned: seq<Tid>,
                           stay: set<Tid>, active: set<Cpu>, cpu: Cpu, others: set<Tid>)
  {
    && line == done + Line(q, cpu) && Rev(pinned) == Restrict(done, stay) && Distinct(pinned)
    && Sound(th, q, b, SetOf(pinned)) && AllPrio(th)
    && Drained(th0, th, done, stay, active) && SameOthers(q0, q, cpu, others)
  }

  /** The thread taken off the line is one that leaves, as it was at first. */
  lemma Popped(th0: Threads, q0: Queues, th: Threads, q: Queues, q1: Queues, line: seq<Tid>, done: seq<Tid>, pinned: seq<Tid>,
               stay: set<Tid>, active: set<Cpu>, cpu: Cpu, others: set<Tid>, t: Tid)
    requires line == done + Line(q, cpu) && Line(q, cpu) == [t] + Line(q1, cpu)
    requires Rev(pinned) == Restrict(done, stay) && Drained(th0, th, done, stay, active) && cpu !in active
    requires forall u :: u in line ==> Leaves(th0, u, cpu, stay, others, active)
    requires t in th && th[t].cpu == cpu && t !in SetOf(pinned)
    ensures t !in done && t !in pinned && th[t] == th0[t] && Leaves(th, t, cpu, stay, others, active)
  {
    assert line[|done|] == t && t in line;
    PoppedOnce(th0, th, done, stay, active, cpu, pinned, t);
  }

  lemma DrainingNext(rest: seq<Tid>, line: seq<Tid>, done: seq<Tid>, pinned: seq<Tid>, pinned': seq<Tid>, stay: set<Tid>, t: Tid)
    requires line == done + ([t] + rest)
    requires Rev(pinned) == Restrict(done, stay) && pinned' == if t in stay then [t] + pinned else pinned
    ensures line == (done + [t]) + rest && Rev(pinned') == Restrict(done + [t], stay)
  {
    assert done + ([t] + rest) == (done + [t]) + rest;
    RestrictSnoc(done, t, stay);
    assert ([t] + pinned)[1..] == pinned;
    assert Restrict(done, stay) + [] == Restrict(done, stay);
  }

  /** Threads that run do so as before. */
  lemma DrainedRuns(th: Threads, th': Threads, line: seq<Tid>, stay: set<Tid>, active: set<Cpu>, cur: map<Cpu, Tid>, idles: map<Cpu, Tid>)
    requires Drained(th, th', line, stay, active) && RunsAll(th, cur, idles) && AllPrio(th)
    requires forall t :: t in line ==> t in th && th[t].state == Ready
    ensures RunsAll(th', cur, idles) && AllPrio(th')
  {
    forall c ensures RunsHere(th', cur, idles, c) { assert RunsHere(th, cur, idles, c); }
    forall u ensures RunsBack(th', cur, u) { assert RunsBack(th, cur, u); }
    forall c ensures IdleOk(th', cur, idles, c) { assert IdleOk(th, cur, idles, c); }
  }

  /** A thread of a departing CPU's line: it stays exactly if it is pinned, and if not it has
      somewhere to go. */
  ghost predicate Leaves(th: Threads, t: Tid, cpu: Cpu, stay: set<Tid>, others: set<Tid>, active: set<Cpu>) {
    && t in th && t !in others
    && if t in stay then th[t].affinity == {cpu} else th[t].affinity != {cpu} && th[t].affinity * active != {}
  }

  lemma DrainedJoin(th: Threads, th1: Threads, th2: Threads, done: seq<Tid>, t: Tid, stay: set<Tid>, active: set<Cpu>)
    requires Drained(th, th1, done, stay, active) && Drained(th1, th2, [t], stay, active) && t in th && t !in done
    ensures Drained(th, th2, done + [t], stay, active)
  {
  }

  /** A thread taken off the line was not taken off before. */
  lemma PoppedOnce(th: Threads, th': Threads, done: seq<Tid>, stay: set<Tid>, active: set<Cpu>, cpu: Cpu, pinned: seq<Tid>, t: Tid)
    requires Drained(th, th', done, stay, active) && Rev(pinned) == Restrict(done, stay) && cpu !in active
    requires t in th' && th'[t].cpu == cpu && t !in SetOf(pinned)
    ensures t !in done && t !in pinned && th'[t] == th[t]
  {
    RevMembers(pinned);
    RestrictMembers(done, stay);
  }

  lemma KeptByPrio(th: Threads, q: Queues, b: Bits, c: Cpu, stay: set<Tid>)
    requires Sound(th, q, b, {}) && AllPrio(th)
    ensures ByPrio(Restrict(Line(q, c), stay), th)
    ensures forall t :: t in Restrict(Line(q, c), stay) ==> t in th && t in stay && IsHome(th[t], (c, th[t].effec))
  {
    SoundGraded(th, q, b, {}, c);
    BelowByPrio(q, c, NUM_PRIORITIES, th);
    RestrictByPrio(Line(q, c), th, stay);
    RestrictMembers(Line(q, c), stay);
    LineMembers(th, q, b, c);
  }

  lemma KeptAsBefore(th: Threads, th': Threads, line: seq<Tid>, stay: set<Tid>, active: set<Cpu>, kept: seq<Tid>, pinned: seq<Tid>)
    requires Drained(th, th', line, stay, active) && kept == Rev(pinned)
    requires ByPrio(kept, th) && forall t :: t in kept ==> t in th && t in stay
    ensures ByPrio(kept, th') && forall t :: t in pinned ==> t in th && t in th' && th'[t] == th[t] && t in kept
  {
    RevMembers(pinned);
    ByPrioFrame(kept, th, th');
  }

  lemma {:induction false} ByPrioFrame(line: seq<Tid>, th: Threads, th': Threads)
    requires ByPrio(line, th) && forall t :: t in line ==> Prio(th, t) == Prio(th', t)
    ensures ByPrio(line, th')
  {
    if line != [] { ByPrioFrame(line[1..], th, th'); }
  }

  /** The lines of different CPUs have no thread in common. */
  lemma Apart(th: Threads, q: Queues, b: Bits, c: Cpu)
    requires Sound(th, q, b, {}) && AllPrio(th)
    ensures var others := th.Keys - SetOf(Line(q, c));
            && (forall t :: t in Line(q, c) ==> t in th && t !in others && IsHome(th[t], (c, th[t].effec)))
            && (forall d :: d != c ==> Restrict(Line(q, d), others) == Line(q, d))
  {
    var others := th.Keys - SetOf(Line(q, c));
    LineMembers(th, q, b, c);
    forall d | d != c ensures Restrict(Line(q, d), others) == Line(q, d) {
      LineMembers(th, q, b, d);
      RestrictAll(Line(q, d), others);
    }
  }

  /** The thread that is switched from is charged for its time, and is on no CPU unless it is
      still ready. */
  function Off(t: Thread, used: nat): Thread {
    t.(slice := t.slice - if used < t.slice then used else t.slice,
       cpu := if t.state != Ready then INVALID_CPU else t.cpu)
  }

  /** The thread that is switched to runs here, with a new quantum if it had none left. */
  function On(t: Thread, cpu: Cpu): Thread {
    t.(state := Running, lastCpu := cpu, cpu := cpu,
       slice := if t.slice == 0 then THREAD_INITIAL_TIME_SLICE else t.slice)
  }

  function Switch(th: Threads, prev: Tid, n: Tid, cpu: Cpu, used: nat): Threads
    requires prev in th && n in th
  {
    if prev == n then th[n := th[n].(state := Running)]
    else th[prev := Off(th[prev], used)][n := On(th[n], cpu)]
  }

  lemma SwitchCharges(th: Threads, prev: Tid, n: Tid, cpu: Cpu, used: nat)
    requires prev in th && n in th && prev != n
    ensures Charged(th, Switch(th, prev, n, cpu, used), prev, n, cpu, used)
  {
  }

  /** A switch leaves priorities alone, and a thread that is not switched from on its CPU or on
      the one it now runs on. */
  lemma SwitchKeeps(th: Threads, prev: Tid, n: Tid, cpu: Cpu, used: nat, u: Tid)
    requires prev in th && n in th && u in th
    ensures var th' := Switch(th, prev, n, cpu, used);
            && u in th' && th'[u].base == th[u].base && th'[u].boost == th[u].boost
            && th'[u].inherited == th[u].inherited && th'[u].effec == th[u].effec
            && (u != prev ==> th'[u].cpu == th[u].cpu || th'[u].cpu == cpu)
  {
  }

  /** After the current thread of a CPU has let the scheduler run, every thread has its priorities,
      except that the current one may have lost a boost. */
  lemma RescheduleKeeps(th: Threads, q: Queues, active: set<Cpu>, idle: set<Cpu>, t: Tid, cpu: Cpu, at: Cpu,
                        th': Threads, q': Queues, n: Tid, idleThread: Tid, used: nat, u: Tid)
    requires u in th && PrioOk(th[u])
    requires Rescheduled(th, q, active, idle, t, cpu, at, th', q', n, idleThread, used)
    ensures u in th' && th'[u].base == th[u].base && th'[u].inherited == th[u].inherited
    ensures u != t || th[u].boost <= 0 ==> th'[u].boost == th[u].boost && th'[u].effec == th[u].effec
    ensures u != t ==> th'[u].cpu == th[u].cpu || th'[u].cpu == cpu
  {
    if th[t].idle {
      SwitchKeeps(th[t := th[t].(state := Ready)], t, n, cpu, used, u);
    } else {
      SwitchKeeps(th[t := Rescheduling(th[t]).(cpu := at)], t, n, cpu, used, u);
      assert th[t := Rescheduling(th[t])][t := Rescheduling(th[t]).(cpu := at)] == th[t := Rescheduling(th[t]).(cpu := at)];
    }
  }

  lemma SwitchLaw(th: Threads, q: Queues, b: Bits, cur: map<Cpu, Tid>, idles: map<Cpu, Tid>, cpu: Cpu, n: Tid, used: nat)
    requires AllPrio(th) && RunsBut(th, cur, idles, cpu) && cpu in cur && cur[cpu] in th && n in th
    requires Sound(th, q, b, {n}) || (Sound(th, q, b, {}) && (th[n].state != Ready || th[n].idle))
    requires th[cur[cpu]].state != Running && th[n].state != Running
    requires th[n].idle ==> cpu in idles && n == idles[cpu]
    requires n == cur[cpu] ==> th[n].cpu == cpu
    ensures var th' := Switch(th, cur[cpu], n, cpu, used);
            Sound(th', q, b, {}) && RunsAll(th', cur[cpu := n], idles) && AllPrio(th')
  {
    var th' := Switch(th, cur[cpu], n, cpu, used);
    SwitchSound(th, th', q, b, n, cur[cpu]);
    Switched(th, th', cur, idles, cpu, n);
  }

  /** Running the thread that has been taken off keeps the queues sound, whatever becomes of its
      slice and of those of a thread that keeps its place. */
  lemma SwitchSound(th: Threads, th': Threads, q: Queues, b: Bits, n: Tid, prev: Tid)
    requires n in th && prev in th && th'.Keys == th.Keys && th'[n].state == Running
    requires Sound(th, q, b, {n}) || (Sound(th, q, b, {}) && (th[n].state != Ready || th[n].idle))
    requires forall u :: u in th && u != n && u != prev ==> th'[u] == th[u]
    requires prev != n ==> forall s :: IsHome(th'[prev], s) <==> IsHome(th[prev], s)
    ensures Sound(th', q, b, {})
  {
    if !Sound(th, q, b, {n}) { Homeless(th, q, b, n); }
    forall t, s ensures Fits(th', q, t, s) {
      if t == n { assert t !in At(q, s); } else { assert t !in {n} && Fits(th, q, t, s); }
    }
  }
}
