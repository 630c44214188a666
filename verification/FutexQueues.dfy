/** The futex table as a value: each active futex key with its waiters, first to be woken first. */
module FutexQueues {
  import opened Lists

  type Key = nat
  type Queues<T> = map<Key, seq<T>>

  function At<T>(q: Queues<T>, k: Key): seq<T> {
    if k in q then q[k] else []
  }

  /** A futex without waiters is not in the table. */
  function Put<T>(q: Queues<T>, k: Key, s: seq<T>): Queues<T> {
    if s == [] then q - {k} else q[k := s]
  }

  function Append<T>(q: Queues<T>, k: Key, s: seq<T>): Queues<T> {
    Put(q, k, At(q, k) + s)
  }

  /** The waiters that a wake of `n` takes off key `k`, and the table it leaves. */
  function Taken<T>(q: Queues<T>, k: Key, n: nat): seq<T> {
    At(q, k)[..Min(n, |At(q, k)|)]
  }

  function Take<T>(q: Queues<T>, k: Key, n: nat): Queues<T> {
    Put(q, k, At(q, k)[Min(n, |At(q, k)|)..])
  }

  /** Wake `w` waiters of `wk`, then move the next `r` of them to the end of `rk`. */
  function Requeue<T>(q: Queues<T>, wk: Key, w: nat, rk: Key, r: nat): Queues<T> {
    var q1 := Take(q, wk, w);
    Append(Take(q1, wk, r), rk, Taken(q1, wk, r))
  }

  function Unqueue<T(==)>(q: Queues<T>, k: Key, x: T): Queues<T> {
    Put(q, k, Without(At(q, k), x))
  }

  /** Every listed futex has a waiter, and every waiter is at exactly one place of the table. */
  ghost predicate WellFormed<T>(q: Queues<T>) {
    && (forall k :: k in q ==> q[k] != [])
    && (forall k :: Distinct(At(q, k)))
    && (forall j, k, t :: t in At(q, j) && t in At(q, k) ==> j == k)
  }

  lemma AtPut<T>(q: Queues<T>, k: Key, s: seq<T>)
    ensures forall j :: At(Put(q, k, s), j) == if j == k then s else At(q, j)
  {}

  lemma PutErased<T>(q: Queues<T>, k: Key, s: seq<T>)
    ensures Put(q - {k}, k, s) == Put(q, k, s)
  {}

  lemma TakeNothing<T>(q: Queues<T>, k: Key, n: nat)
    requires k in q ==> q[k] != []
    requires n == 0 || At(q, k) == []
    ensures Take(q, k, n) == q && Taken(q, k, n) == []
  {}

  /** Requeueing one list at a time: erase, append what moves to `rk`, put the rest back. */
  lemma RequeueByParts<T>(q: Queues<T>, wk: Key, w: nat, rk: Key, r: nat)
    requires wk != rk && (rk in q ==> q[rk] != [])
    ensures var rest := At(q, wk)[Min(w, |At(q, wk)|)..];
            var m := Min(r, |rest|);
            Requeue(q, wk, w, rk, r) == Put(Append(q - {wk}, rk, rest[..m]), wk, rest[m..])
  {
    var rest := At(q, wk)[Min(w, |At(q, wk)|)..];
    AtPut(q, wk, rest);
    var m := Min(r, |rest|);
    var q2 := Put(Put(q, wk, rest), wk, rest[m..]);
    assert q2 == Put(q, wk, rest[m..]);
    AtPut(q, wk, rest[m..]);
    assert At(q2, rk) == At(q, rk) == At(q - {wk}, rk);
  }

  lemma DistinctJoin<T>(a: seq<T>, b: seq<T>)
    requires Distinct(a) && Distinct(b) && forall t :: t in b ==> t !in a
    ensures Distinct(a + b)
  {
    forall i, j | 0 <= i < j < |a + b| ensures (a + b)[i] != (a + b)[j] {
      if i < |a| <= j {
        assert (a + b)[i] == a[i] && (a + b)[j] == b[j - |a|];
        assert b[j - |a|] in b;
      }
    }
  }

  /** Replacing the waiters of `k` by others that are on no other futex keeps the table well formed. */
  lemma PutKeepsWellFormed<T>(q: Queues<T>, k: Key, s: seq<T>)
    requires WellFormed(q) && Distinct(s)
    requires forall j, t :: t in s && t in At(q, j) ==> j == k
    ensures WellFormed(Put(q, k, s))
  {
    AtPut(q, k, s);
  }

  lemma {:induction false} WithoutIs<T>(s: seq<T>, x: T, i: nat)
    requires Distinct(s) && i < |s| && s[i] == x
    ensures Without(s, x) == s[..i] + s[i + 1..]
    ensures Distinct(Without(s, x))
    ensures forall y :: y in Without(s, x) <==> y in s && y != x
  {
    if i > 0 {
      var t := s[1..];
      WithoutIs(t, x, i - 1);
      assert s[..i] + s[i + 1..] == [s[0]] + (t[..i - 1] + t[i..]);
    } else {
      assert s == [s[0]] + s[1..];
    }
    assert Without(s, x) == s[..i] + s[i + 1..];
  }

  /** A wake conserves waiters: each is either taken, or still where it was. */
  lemma TakeConserves<T>(q: Queues<T>, k: Key, n: nat)
    requires WellFormed(q)
    ensures WellFormed(Take(q, k, n))
    ensures Taken(q, k, n) + At(Take(q, k, n), k) == At(q, k)
    ensures Distinct(Taken(q, k, n)) && |Taken(q, k, n)| == Min(n, |At(q, k)|)
    ensures forall t :: t in At(q, k) <==> t in Taken(q, k, n) || t in At(Take(q, k, n), k)
    ensures forall t :: t in Taken(q, k, n) ==> t !in At(Take(q, k, n), k)
    ensures forall j :: j != k ==> At(Take(q, k, n), j) == At(q, j)
  {
    var s, m := At(q, k), Min(n, |At(q, k)|);
    assert s == s[..m] + s[m..];
    AtPut(q, k, s[m..]);
    PutKeepsWellFormed(q, k, s[m..]);
  }

  /** Appending waiters that are on no queue keeps the table well formed and adds exactly them. */
  lemma AppendConserves<T>(q: Queues<T>, k: Key, s: seq<T>)
    requires WellFormed(q) && Distinct(s) && forall j, t :: t in s ==> t !in At(q, j)
    ensures WellFormed(Append(q, k, s))
    ensures At(Append(q, k, s), k) == At(q, k) + s
    ensures forall j :: j != k ==> At(Append(q, k, s), j) == At(q, j)
  {
    DistinctJoin(At(q, k), s);
    AtPut(q, k, At(q, k) + s);
    PutKeepsWellFormed(q, k, At(q, k) + s);
  }

  /** The requeue law: the first `w` are woken, the next `r` follow the target's own waiters in
      order, the rest stay in order, and no other futex changes. */
  lemma RequeueLaw<T>(q: Queues<T>, wk: Key, w: nat, rk: Key, r: nat)
    requires WellFormed(q) && wk != rk
    ensures var Q, P, q' := At(q, wk), At(q, rk), Requeue(q, wk, w, rk, r);
            var a := Min(w, |Q|); var b := Min(w + r, |Q|);
            && WellFormed(q')
            && Taken(q, wk, w) == Q[..a]
            && Taken(Take(q, wk, w), wk, r) == Q[a..b]
            && At(q', rk) == P + Q[a..b]
            && At(q', wk) == Q[b..]
            && (forall j :: j != wk && j != rk ==> At(q', j) == At(q, j))
  {
    var q1 := Take(q, wk, w);
    TakeConserves(q, wk, w);
    TakeConserves(q1, wk, r);
    TakeTwice(q, wk, w, r);
    AppendConserves(Take(q1, wk, r), rk, Taken(q1, wk, r));
  }

  lemma TakeTwice<T>(q: Queues<T>, k: Key, w: nat, r: nat)
    ensures var Q, q1 := At(q, k), Take(q, k, w);
            var a, b := Min(w, |Q|), Min(w + r, |Q|);
            Taken(q1, k, r) == Q[a..b] && At(Take(q1, k, r), k) == Q[b..]
  {
    var Q, q1 := At(q, k), Take(q, k, w);
    var a, b := Min(w, |Q|), Min(w + r, |Q|);
    AtPut(q, k, Q[a..]);
    AtPut(q1, k, Q[a..][b - a..]);
    SliceAgain(Q, a, b);
    assert Min(r, |Q[a..]|) == b - a;
  }

  lemma SliceAgain<T>(Q: seq<T>, a: nat, b: nat)
    requires a <= b <= |Q|
    ensures Q[a..][..b - a] == Q[a..b] && Q[a..][b - a..] == Q[b..]
  {
  }

  /** Unqueueing removes exactly the one waiter. */
  lemma UnqueueConserves<T>(q: Queues<T>, k: Key, x: T)
    requires WellFormed(q) && x in At(q, k)
    ensures WellFormed(Unqueue(q, k, x))
    ensures forall t :: t in At(Unqueue(q, k, x), k) <==> t in At(q, k) && t != x
    ensures forall j :: j != k ==> At(Unqueue(q, k, x), j) == At(q, j)
  {
    var i :| 0 <= i < |q[k]| && q[k][i] == x;
    var s := Without(q[k], x);
    WithoutIs(q[k], x, i);
    AtPut(q, k, s);
    PutKeepsWellFormed(q, k, s);
  }
}
