/** Threads as the scheduler sees them, and the run queues of the CPUs: one list for each CPU and
    priority, with a bitmap of the lists in use. The lists of one CPU stand for one line, by
    priority, first come first served within a priority. */
module RunQueues {
  import opened Lists

  const NUM_PRIORITIES := 32
  const LOWEST_PRIORITY := 0
  const HIGHEST_PRIORITY := NUM_PRIORITIES - 1
  const MAX_PRIORITY_ADJ := 4

  type Tid = nat
  type Cpu = nat

  datatype State = Running | Ready | Blocked | Other | Death

  /** The fields of a thread that the scheduler reads or writes; cpu is meaningful only while the
      thread runs or is ready. */
  datatype Thread = Thread(
    base: int, boost: int, inherited: int, effec: int,
    state: State, idle: bool, realtime: bool,
    affinity: set<Cpu>, cpu: Cpu, lastCpu: Cpu, slice: nat)

  type Threads = map<Tid, Thread>

  // ---------- priorities ----------

  function Effective(t: Thread): int {
    if t.inherited > t.base + t.boost then t.inherited else t.base + t.boost
  }

  /** The effective priority is the larger of the adjusted base and the inherited priority, and
      nothing has left its range. */
  ghost predicate PrioOk(t: Thread) {
    && LOWEST_PRIORITY <= t.base <= HIGHEST_PRIORITY
    && -MAX_PRIORITY_ADJ <= t.boost <= MAX_PRIORITY_ADJ
    && LOWEST_PRIORITY <= t.base + t.boost <= HIGHEST_PRIORITY
    && t.inherited <= HIGHEST_PRIORITY
    && t.effec == Effective(t)
  }

  function Recomputed(t: Thread): Thread {
    t.(effec := Effective(t))
  }

  function Boosted(t: Thread): Thread {
    if t.realtime || t.idle then t
    else if t.boost < MAX_PRIORITY_ADJ && t.base + t.boost < HIGHEST_PRIORITY then
      Recomputed(t.(boost := t.boost + 1))
    else t
  }

  function BoostFloor(base: int, quantumExpired: bool): int {
    if !quantumExpired then 0
    else if base - MAX_PRIORITY_ADJ < LOWEST_PRIORITY then base - LOWEST_PRIORITY
    else -MAX_PRIORITY_ADJ
  }

  function Deboosted(t: Thread, quantumExpired: bool): Thread {
    if t.realtime || t.idle || t.boost <= BoostFloor(t.base, quantumExpired) then t
    else Recomputed(t.(boost := t.boost - 1))
  }

  function Max(a: int, b: int): int {
    if a > b then a else b
  }

  /** A boost adds one level up to four above the base and the highest priority, for ordinary
      threads only; the effective priority rises by at most one and stays in range. */
  lemma BoostLaw(t: Thread)
    requires PrioOk(t)
    ensures var u := Boosted(t);
            && PrioOk(u) && t.effec <= u.effec <= t.effec + 1
            && u == t.(boost := u.boost, effec := Max(t.base + u.boost, t.inherited))
            && u.boost == if t.realtime || t.idle || t.boost == MAX_PRIORITY_ADJ || t.base + t.boost == HIGHEST_PRIORITY
                          then t.boost else t.boost + 1
  {
  }

  /** A deboost takes one level off, down to no boost, or on quantum expiry down to four below a
      base priority of at least four; the effective priority falls by at most one and stays in
      range. */
  lemma DeboostLaw(t: Thread, quantumExpired: bool)
    requires PrioOk(t)
    ensures var d := Deboosted(t, quantumExpired);
            && PrioOk(d) && t.effec - 1 <= d.effec <= t.effec
            && d == t.(boost := d.boost, effec := Max(t.base + d.boost, t.inherited))
            && (t.realtime || t.idle ==> d.boost == t.boost)
            && (!t.realtime && !t.idle && !quantumExpired ==> d.boost == if t.boost > 0 then t.boost - 1 else t.boost)
            && (!t.realtime && !t.idle && quantumExpired && t.base >= MAX_PRIORITY_ADJ ==>
                  d.boost == Max(t.boost - 1, -MAX_PRIORITY_ADJ))
  {
  }

  /** The floor that is meant: four levels down, but not below the lowest priority. */
  function MeantFloor(base: int): int {
    if LOWEST_PRIORITY - base > -MAX_PRIORITY_ADJ then LOWEST_PRIORITY - base else -MAX_PRIORITY_ADJ
  }

  /** On quantum expiry the code drops a level exactly when it should, except for base
      priorities below four with a boost strictly above minus the base and at most the base:
      there the sign of the floor is wrong and the boost stays. */
  lemma DeboostFloor(t: Thread)
    requires PrioOk(t) && !t.realtime && !t.idle
    ensures (Deboosted(t, true).boost == if t.boost > MeantFloor(t.base) then t.boost - 1 else t.boost)
            <==> t.base >= MAX_PRIORITY_ADJ || t.boost > t.base || t.boost <= -t.base
  {
  }

  /** For example: base priority two with a boost of one is never worn down. */
  lemma DeboostStuck(t: Thread)
    requires PrioOk(t) && !t.realtime && !t.idle && t.base == 2 && t.boost == 1
    ensures t.boost > MeantFloor(t.base) && Deboosted(t, true) == t
  {
  }

  // ---------- run queues ----------

  type Slot = (Cpu, int)
  type Queues = map<Slot, seq<Tid>>
  type Bits = map<Cpu, set<int>>

  function At(q: Queues, s: Slot): seq<Tid> {
    if s in q then q[s] else []
  }

  function BitsOf(b: Bits, c: Cpu): set<int> {
    if c in b then b[c] else {}
  }

  /** The one place where a thread may be queued. */
  predicate IsHome(t: Thread, s: Slot) {
    t.state == Ready && !t.idle && t.cpu == s.0 && t.effec == s.1
  }

  /** A thread is queued at s exactly if it is ready, not an idle thread, and s is its CPU and
      effective priority. */
  ghost predicate Fits(th: Threads, q: Queues, t: Tid, s: Slot) {
    t in At(q, s) <==> t in th && IsHome(th[t], s)
  }

  /** No thread is twice on a list, and the bitmap shows which lists are in use. */
  ghost predicate QueueOk(q: Queues, b: Bits, s: Slot) {
    Distinct(At(q, s)) && (s.1 in BitsOf(b, s.0) <==> At(q, s) != [])
  }

  /** Every thread fits, except the loose ones, which are on no list whatever their fields say. */
  ghost predicate Sound(th: Threads, q: Queues, b: Bits, loose: set<Tid>) {
    && (forall t, s :: t !in loose ==> Fits(th, q, t, s))
    && (forall t, s :: t in loose ==> t !in At(q, s))
    && (forall s :: QueueOk(q, b, s))
  }

  ghost predicate SameBut(th: Threads, th': Threads, t: Tid) {
    forall u :: u != t ==> (u in th <==> u in th') && (u in th ==> th[u] == th'[u])
  }

  lemma LooseFrame(th: Threads, th': Threads, q: Queues, b: Bits, t: Tid, loose: set<Tid>)
    requires Sound(th, q, b, loose) && SameBut(th, th', t) && t in loose
    ensures Sound(th', q, b, loose)
  {
    forall u, s | u !in loose ensures Fits(th', q, u, s) { assert Fits(th, q, u, s); }
  }

  /** A thread that has no home is loose, and the other way round. */
  lemma Homeless(th: Threads, q: Queues, b: Bits, t: Tid)
    requires forall s :: !(t in th && IsHome(th[t], s))
    ensures Sound(th, q, b, {}) <==> Sound(th, q, b, {t})
  {
    if Sound(th, q, b, {}) {
      forall s ensures t !in At(q, s) { assert Fits(th, q, t, s); }
    }
    if Sound(th, q, b, {t}) {
      forall u, s ensures Fits(th, q, u, s) { assert u != t ==> u !in {t}; }
    }
  }

  lemma Queueing(th: Threads, q: Queues, b: Bits, t: Tid, s: Slot, x: seq<Tid>, loose: set<Tid>)
    requires Sound(th, q, b, loose) && t in loose && t in th && IsHome(th[t], s)
    requires x == [t] + At(q, s) || x == At(q, s) + [t]
    ensures Sound(th, q[s := x], b[s.0 := BitsOf(b, s.0) + {s.1}], loose - {t})
  {
    var q', b' := q[s := x], b[s.0 := BitsOf(b, s.0) + {s.1}];
    forall u, z | u !in loose - {t} ensures Fits(th, q', u, z) {
      assert u != t ==> Fits(th, q, u, z);
      assert t !in At(q, z);
    }
    forall u, z | u in loose - {t} ensures u !in At(q', z) { assert u !in At(q, z); }
    forall z ensures QueueOk(q', b', z) {
      assert QueueOk(q, b, z) && QueueOk(q, b, s) && t !in At(q, s);
    }
  }

  function Cleared(b: Bits, s: Slot, x: seq<Tid>): Bits {
    if x == [] then b[s.0 := BitsOf(b, s.0) - {s.1}] else b
  }

  /** Taking t off its list, wherever its fields now say that it belongs. */
  lemma Unqueueing(th: Threads, q: Queues, b: Bits, t: Tid, s: Slot, loose: set<Tid>)
    requires forall u, z :: u !in loose && u != t ==> Fits(th, q, u, z)
    requires forall u, z :: u in loose ==> u !in At(q, z)
    requires forall z :: QueueOk(q, b, z)
    requires forall z :: t in At(q, z) <==> z == s
    ensures Sound(th, q[s := Without(At(q, s), t)], Cleared(b, s, Without(At(q, s), t)), loose + {t})
  {
    assert QueueOk(q, b, s);
    WithoutMembers(At(q, s), t);
    var x := Without(At(q, s), t);
    var q', b' := q[s := x], Cleared(b, s, x);
    forall u, z | u !in loose + {t} ensures Fits(th, q', u, z) { assert Fits(th, q, u, z); }
    forall u, z | u in loose + {t} ensures u !in At(q', z) { assert t in At(q, z) <==> z == s; }
    forall z ensures QueueOk(q', b', z) { assert QueueOk(q, b, z); }
  }

  /** A queued thread is on its own list only. */
  lemma OnlyHome(th: Threads, q: Queues, b: Bits, t: Tid, s: Slot, loose: set<Tid>)
    requires Sound(th, q, b, loose) && t in At(q, s)
    ensures t !in loose && t in th && IsHome(th[t], s) && forall z :: t in At(q, z) <==> z == s
  {
    assert Fits(th, q, t, s);
    forall z ensures t in At(q, z) <==> z == s { assert Fits(th, q, t, z); }
  }

  // ---------- the line of a CPU ----------

  function Prio(th: Threads, t: Tid): int {
    if t in th then th[t].effec else -1
  }

  /** The threads queued on c below priority n, highest first. */
  function Below(q: Queues, c: Cpu, n: nat): seq<Tid> {
    if n == 0 then [] else At(q, (c, n - 1)) + Below(q, c, n - 1)
  }

  /** The line of a CPU. */
  function Line(q: Queues, c: Cpu): seq<Tid> {
    Below(q, c, NUM_PRIORITIES)
  }

  /** To the back of one's priority, or to its front. */
  function Behind(line: seq<Tid>, t: Tid, th: Threads): seq<Tid> {
    if line == [] || Prio(th, line[0]) < Prio(th, t) then [t] + line
    else [line[0]] + Behind(line[1..], t, th)
  }

  function Front(line: seq<Tid>, t: Tid, th: Threads): seq<Tid> {
    if line == [] || Prio(th, line[0]) <= Prio(th, t) then [t] + line
    else [line[0]] + Front(line[1..], t, th)
  }

  lemma ConsConcat(a: seq<Tid>, x: seq<Tid>)
    requires a != []
    ensures [a[0]] + (a[1..] + x) == a + x
  {
  }

  lemma {:induction false} BehindSkips(a: seq<Tid>, b: seq<Tid>, t: Tid, th: Threads)
    requires forall u :: u in a ==> Prio(th, u) >= Prio(th, t)
    ensures Behind(a + b, t, th) == a + Behind(b, t, th)
  {
    if a == [] {
      assert a + b == b;
    } else {
      BehindSkips(a[1..], b, t, th);
      assert a[0] in a && (a + b)[0] == a[0] && (a + b)[1..] == a[1..] + b;
      ConsConcat(a, Behind(b, t, th));
    }
  }

  lemma {:induction false} FrontSkips(a: seq<Tid>, b: seq<Tid>, t: Tid, th: Threads)
    requires forall u :: u in a ==> Prio(th, u) > Prio(th, t)
    ensures Front(a + b, t, th) == a + Front(b, t, th)
  {
    if a == [] {
      assert a + b == b;
    } else {
      FrontSkips(a[1..], b, t, th);
      assert a[0] in a && (a + b)[0] == a[0] && (a + b)[1..] == a[1..] + b;
      ConsConcat(a, Front(b, t, th));
    }
  }

  /** Lists of c hold threads of their priority. */
  ghost predicate Graded(q: Queues, c: Cpu, th: Threads) {
    forall p, t :: t in At(q, (c, p)) ==> Prio(th, t) == p
  }

  lemma SoundGraded(th: Threads, q: Queues, b: Bits, loose: set<Tid>, c: Cpu)
    requires Sound(th, q, b, loose)
    ensures Graded(q, c, th)
  {
    forall p, u | u in At(q, (c, p)) ensures Prio(th, u) == p { assert Fits(th, q, u, (c, p)); }
  }

  lemma {:induction false} BelowFrame(q: Queues, q': Queues, c: Cpu, n: nat)
    requires forall p :: 0 <= p < n ==> At(q, (c, p)) == At(q', (c, p))
    ensures Below(q, c, n) == Below(q', c, n)
  {
    if n > 0 { BelowFrame(q, q', c, n - 1); }
  }

  lemma {:induction false} BelowPrio(q: Queues, c: Cpu, n: nat, th: Threads)
    requires Graded(q, c, th)
    ensures forall t :: t in Below(q, c, n) ==> 0 <= Prio(th, t) < n && t in At(q, (c, Prio(th, t)))
  {
    if n > 0 { BelowPrio(q, c, n - 1, th); }
  }

  lemma {:induction false} AtBelow(q: Queues, c: Cpu, n: nat, p: nat, t: Tid)
    requires p < n && t in At(q, (c, p))
    ensures t in Below(q, c, n)
  {
    if p < n - 1 { AtBelow(q, c, n - 1, p, t); }
  }

  lemma PlaceCons(x: Tid, a: seq<Tid>, t: Tid, b: seq<Tid>)
    ensures ([x] + a) + b == [x] + (a + b) && ([x] + a) + [t] + b == [x] + (a + [t] + b)
    ensures forall u :: u in [x] + a <==> u == x || u in a
  {
  }

  /** In a line by priority, the back of a priority is behind everybody of at least that priority and
      before everybody else; the front is behind those above and before all others. */
  lemma {:induction false} BehindPlace(line: seq<Tid>, t: Tid, th: Threads) returns (a: seq<Tid>, b: seq<Tid>)
    requires ByPrio(line, th)
    ensures line == a + b && Behind(line, t, th) == a + [t] + b
    ensures (forall u :: u in a ==> Prio(th, u) >= Prio(th, t)) && (forall u :: u in b ==> Prio(th, u) < Prio(th, t))
  {
    if line == [] || Prio(th, line[0]) < Prio(th, t) {
      a, b := [], line;
    } else {
      var a1;
      a1, b := BehindPlace(line[1..], t, th);
      a := [line[0]] + a1;
      PlaceCons(line[0], a1, t, b);
    }
  }

  lemma {:induction false} FrontPlace(line: seq<Tid>, t: Tid, th: Threads) returns (a: seq<Tid>, b: seq<Tid>)
    requires ByPrio(line, th)
    ensures line == a + b && Front(line, t, th) == a + [t] + b
    ensures (forall u :: u in a ==> Prio(th, u) > Prio(th, t)) && (forall u :: u in b ==> Prio(th, u) <= Prio(th, t))
  {
    if line == [] || Prio(th, line[0]) <= Prio(th, t) {
      a, b := [], line;
    } else {
      var a1;
      a1, b := FrontPlace(line[1..], t, th);
      a := [line[0]] + a1;
      PlaceCons(line[0], a1, t, b);
    }
  }

  lemma BehindLevel(a: seq<Tid>, b: seq<Tid>, t: Tid, th: Threads)
    requires forall u :: u in a ==> Prio(th, u) == Prio(th, t)
    requires forall u :: u in b ==> Prio(th, u) < Prio(th, t)
    ensures Behind(a + b, t, th) == a + [t] + b
  {
    BehindSkips(a, b, t, th);
    assert a + [t] + b == a + ([t] + b);
    if b != [] { assert b[0] in b; }
  }

  lemma FrontLevel(a: seq<Tid>, b: seq<Tid>, t: Tid, th: Threads)
    requires forall u :: u in a || u in b ==> Prio(th, u) <= Prio(th, t)
    ensures Front(a + b, t, th) == [t] + a + b
  {
    assert [t] + a + b == [t] + (a + b);
    if a + b != [] { assert (a + b)[0] in a || (a + b)[0] in b; }
  }

  /** The tail of a list is the back of that priority in the line, the head its front. */
  lemma {:induction false} TailRefines(q: Queues, q': Queues, c: Cpu, n: nat, t: Tid, th: Threads)
    requires Graded(q, c, th) && 0 <= Prio(th, t) < n
    requires q' == q[(c, Prio(th, t)) := At(q, (c, Prio(th, t))) + [t]]
    ensures Below(q', c, n) == Behind(Below(q, c, n), t, th)
  {
    var a, b := At(q, (c, n - 1)), Below(q, c, n - 1);
    if Prio(th, t) == n - 1 {
      BelowFrame(q, q', c, n - 1);
      BelowPrio(q, c, n - 1, th);
      BehindLevel(a, b, t, th);
    } else {
      BehindSkips(a, b, t, th);
      TailRefines(q, q', c, n - 1, t, th);
    }
  }

  lemma {:induction false} HeadRefines(q: Queues, q': Queues, c: Cpu, n: nat, t: Tid, th: Threads)
    requires Graded(q, c, th) && 0 <= Prio(th, t) < n
    requires q' == q[(c, Prio(th, t)) := [t] + At(q, (c, Prio(th, t)))]
    ensures Below(q', c, n) == Front(Below(q, c, n), t, th)
  {
    var a, b := At(q, (c, n - 1)), Below(q, c, n - 1);
    if Prio(th, t) == n - 1 {
      BelowFrame(q, q', c, n - 1);
      BelowPrio(q, c, n - 1, th);
      FrontLevel(a, b, t, th);
    } else {
      FrontSkips(a, b, t, th);
      HeadRefines(q, q', c, n - 1, t, th);
    }
  }

  /** The head of the highest list in use is the head of the line. */
  lemma {:induction false} TopRefines(q: Queues, c: Cpu, n: nat, p: nat)
    requires p < n && At(q, (c, p)) != [] && forall r :: p < r < n ==> At(q, (c, r)) == []
    ensures Below(q, c, n) == [At(q, (c, p))[0]] + Below(q[(c, p) := At(q, (c, p))[1..]], c, n)
  {
    var q' := q[(c, p) := At(q, (c, p))[1..]];
    if p == n - 1 {
      BelowFrame(q, q', c, p);
      var x, b := At(q, (c, p)), Below(q, c, p);
      assert x + b == [x[0]] + (x[1..] + b);
    } else {
      TopRefines(q, c, n - 1, p);
      assert Below(q, c, n) == Below(q, c, n - 1) && Below(q', c, n) == Below(q', c, n - 1);
    }
  }

  lemma {:induction false} EmptyLine(q: Queues, c: Cpu, n: nat)
    requires forall p :: 0 <= p < n ==> At(q, (c, p)) == []
    ensures Below(q, c, n) == []
  {
    if n > 0 { EmptyLine(q, c, n - 1); }
  }

  lemma {:induction false} RemoveRefines(q: Queues, q': Queues, c: Cpu, n: nat, p: nat, t: Tid)
    requires p < n && q' == q[(c, p) := Without(At(q, (c, p)), t)]
    requires forall r :: t in At(q, (c, r)) <==> r == p
    ensures Below(q', c, n) == Without(Below(q, c, n), t)
  {
    assert t in At(q, (c, n - 1)) <==> n - 1 == p;
    if p == n - 1 {
      WithoutFinds(At(q, (c, p)), Below(q, c, p), t);
      BelowFrame(q, q', c, p);
    } else {
      WithoutSkips(At(q, (c, n - 1)), Below(q, c, n - 1), t);
      RemoveRefines(q, q', c, n - 1, p, t);
    }
  }

  /** Membership of the line is being ready on that CPU. */
  lemma LineMembers(th: Threads, q: Queues, b: Bits, c: Cpu)
    requires Sound(th, q, b, {}) && forall t :: t in th ==> PrioOk(th[t])
    ensures forall t :: t in Line(q, c) <==> t in th && IsHome(th[t], (c, th[t].effec))
  {
    forall p, u | u in At(q, (c, p)) ensures Prio(th, u) == p { assert Fits(th, q, u, (c, p)); }
    BelowPrio(q, c, NUM_PRIORITIES, th);
    forall t ensures t in Line(q, c) <==> t in th && IsHome(th[t], (c, th[t].effec)) {
      assert Fits(th, q, t, (c, Prio(th, t)));
      if t in th && IsHome(th[t], (c, th[t].effec)) {
        assert PrioOk(th[t]);
        AtBelow(q, c, NUM_PRIORITIES, th[t].effec, t);
      }
    }
  }

  // ---------- parts of a line ----------

  /** The members of a line that are in a set, in order. */
  function Restrict(line: seq<Tid>, keep: set<Tid>): seq<Tid> {
    if line == [] then []
    else (if line[0] in keep then [line[0]] else []) + Restrict(line[1..], keep)
  }

  function Rev(s: seq<Tid>): seq<Tid> {
    if s == [] then [] else Rev(s[1..]) + [s[0]]
  }

  function SetOf(s: seq<Tid>): set<Tid> {
    set t | t in s
  }

  lemma SetOfCons(t: Tid, s: seq<Tid>)
    ensures SetOf([t] + s) == SetOf(s) + {t}
  {
  }

  lemma {:induction false} RevMembers(s: seq<Tid>)
    ensures forall t :: t in Rev(s) <==> t in s
  {
    if s != [] {
      RevMembers(s[1..]);
      assert s == [s[0]] + s[1..];
    }
  }

  lemma {:induction false} RestrictSnoc(line: seq<Tid>, t: Tid, keep: set<Tid>)
    ensures Restrict(line + [t], keep) == Restrict(line, keep) + if t in keep then [t] else []
  {
    if line == [] {
      assert (line + [t])[1..] == [];
    } else {
      RestrictSnoc(line[1..], t, keep);
      assert (line + [t])[1..] == line[1..] + [t];
    }
  }

  lemma {:induction false} RestrictMembers(line: seq<Tid>, keep: set<Tid>)
    ensures forall t :: t in Restrict(line, keep) <==> t in line && t in keep
  {
    if line != [] {
      RestrictMembers(line[1..], keep);
      assert line == [line[0]] + line[1..];
    }
  }

  lemma {:induction false} RestrictAll(line: seq<Tid>, keep: set<Tid>)
    requires forall t :: t in line ==> t in keep
    ensures Restrict(line, keep) == line
  {
    if line != [] {
      RestrictAll(line[1..], keep);
      assert line == [line[0]] + line[1..];
    }
  }

  /** Somebody who joins does not disturb the others. */
  lemma {:induction false} RestrictBehind(line: seq<Tid>, t: Tid, th: Threads, keep: set<Tid>)
    requires t !in keep
    ensures Restrict(Behind(line, t, th), keep) == Restrict(line, keep)
  {
    if line == [] || Prio(th, line[0]) < Prio(th, t) {
      assert ([t] + line)[1..] == line;
    } else {
      RestrictBehind(line[1..], t, th, keep);
    }
  }

  lemma {:induction false} RestrictFront(line: seq<Tid>, t: Tid, th: Threads, keep: set<Tid>)
    requires t !in keep
    ensures Restrict(Front(line, t, th), keep) == Restrict(line, keep)
  {
    if line == [] || Prio(th, line[0]) <= Prio(th, t) {
      assert ([t] + line)[1..] == line;
    } else {
      RestrictFront(line[1..], t, th, keep);
    }
  }

  ghost predicate ByPrio(line: seq<Tid>, th: Threads) {
    line == [] || ((forall t :: t in line[1..] ==> Prio(th, line[0]) >= Prio(th, t)) && ByPrio(line[1..], th))
  }

  lemma {:induction false} ByPrioConcat(a: seq<Tid>, b: seq<Tid>, th: Threads, p: int)
    requires ByPrio(b, th) && forall t :: t in a ==> Prio(th, t) == p
    requires forall t :: t in b ==> Prio(th, t) <= p
    ensures ByPrio(a + b, th)
  {
    if a == [] {
      assert a + b == b;
    } else {
      ByPrioConcat(a[1..], b, th, p);
      assert (a + b)[1..] == a[1..] + b;
    }
  }

  /** A line is by priority. */
  lemma {:induction false} BelowByPrio(q: Queues, c: Cpu, n: nat, th: Threads)
    requires Graded(q, c, th)
    ensures ByPrio(Below(q, c, n), th)
  {
    if n > 0 {
      BelowByPrio(q, c, n - 1, th);
      BelowPrio(q, c, n - 1, th);
      ByPrioConcat(At(q, (c, n - 1)), Below(q, c, n - 1), th, n - 1);
    }
  }

  lemma {:induction false} RestrictByPrio(line: seq<Tid>, th: Threads, keep: set<Tid>)
    requires ByPrio(line, th)
    ensures ByPrio(Restrict(line, keep), th)
  {
    if line != [] {
      RestrictByPrio(line[1..], th, keep);
      RestrictMembers(line[1..], keep);
      if line[0] in keep {
        assert Restrict(line, keep)[1..] == Restrict(line[1..], keep);
      } else {
        assert Restrict(line, keep) == Restrict(line[1..], keep);
      }
    }
  }

  /** In a line by priority, a thread goes to the front of those behind it. */
  lemma {:induction false} ByPrioSplit(a: seq<Tid>, t: Tid, b: seq<Tid>, th: Threads)
    requires ByPrio(a + ([t] + b), th)
    ensures Front(b, t, th) == [t] + b
  {
    if a == [] {
      assert a + ([t] + b) == [t] + b && ([t] + b)[1..] == b;
      if b != [] { assert b[0] in b; }
    } else {
      assert (a + ([t] + b))[1..] == a[1..] + ([t] + b);
      ByPrioSplit(a[1..], t, b, th);
    }
  }

  lemma {:induction false} RestrictConcat(a: seq<Tid>, b: seq<Tid>, keep: set<Tid>)
    ensures Restrict(a + b, keep) == Restrict(a, keep) + Restrict(b, keep)
  {
    if a == [] {
      assert a + b == b;
    } else {
      RestrictConcat(a[1..], b, keep);
      assert (a + b)[1..] == a[1..] + b;
      var h := if a[0] in keep then [a[0]] else [];
      assert Restrict(a + b, keep) == h + (Restrict(a[1..], keep) + Restrict(b, keep));
    }
  }

  lemma {:induction false} RestrictNone(line: seq<Tid>, keep: set<Tid>)
    requires forall t :: t in line ==> t !in keep
    ensures Restrict(line, keep) == []
  {
    if line != [] { RestrictNone(line[1..], keep); }
  }

  /** The line of a CPU determines its lists: each is the part of the line with that priority. */
  lemma {:induction false} ListOfLine(q: Queues, c: Cpu, n: nat, p: nat, th: Threads, keep: set<Tid>)
    requires Graded(q, c, th) && p < n
    requires forall t :: t in Below(q, c, n) ==> (t in keep <==> Prio(th, t) == p)
    ensures At(q, (c, p)) == Restrict(Below(q, c, n), keep)
  {
    var a, b := At(q, (c, n - 1)), Below(q, c, n - 1);
    RestrictConcat(a, b, keep);
    if p == n - 1 {
      RestrictAll(a, keep);
      BelowPrio(q, c, n - 1, th);
      RestrictNone(b, keep);
      assert a + [] == a;
    } else {
      RestrictNone(a, keep);
      ListOfLine(q, c, n - 1, p, th, keep);
      assert [] + Restrict(b, keep) == Restrict(b, keep);
    }
  }
}
