/** The timer queue of one CPU and its hardware deadline. */
module Timers {
  import opened Deadlines

  type Id = nat

  /** A queued timer with its scheduled_time, which does not change while it is queued. */
  datatype Entry = Entry(id: Id, time: Time)

  ghost predicate Sorted(q: seq<Entry>) {
    forall i, j :: 0 <= i < j < |q| ==> q[i].time <= q[j].time
  }

  function Abs(x: int): nat { if x < 0 then -x else x }

  /** Some queued timer lies in the window of the new one. */
  ghost predicate Overlaps(q: seq<Entry>, earliest: int, latest: int) {
    exists i :: 0 <= i < |q| && earliest <= q[i].time <= latest
  }

  /** The first timer after `when` is exactly at `latest` and nearer than the last one before. */
  ghost predicate NearerAtLatest(q: seq<Entry>, when: int, earliest: int, latest: int) {
    exists i :: 0 <= i < |q| - 1 && earliest <= q[i].time < when && q[i + 1].time == latest > when
                && latest - when < when - q[i].time
  }

  ghost predicate Closest(q: seq<Entry>, time: int, when: int, earliest: int, latest: int) {
    forall i :: 0 <= i < |q| && earliest <= q[i].time <= latest ==> Abs(time - when) <= Abs(q[i].time - when)
  }

  /** What the walk along the queue has found: nothing to the left of `pos` reaches into the window
      and nothing from `pos` on starts in it, or the timer before `pos` is joined, from the left or
      from the right, being at least as near as its neighbour on the other side. */
  ghost predicate Fits(q: seq<Entry>, when: int, earliest: int, latest: int, pos: nat, time: int) {
    && pos <= |q|
    && if pos == 0 || q[pos - 1].time < earliest then
         time == when && (pos < |q| ==> q[pos].time > latest)
       else if q[pos - 1].time < when then
         && time == q[pos - 1].time
         && (pos < |q| ==> q[pos].time > when && (q[pos].time < latest ==> when - time <= q[pos].time - when))
       else
         && time == q[pos - 1].time <= latest
         && (pos > 1 ==> q[pos - 2].time < when)
         && (pos > 1 && q[pos - 2].time >= earliest && time != when ==>
               time < latest && time - when < when - q[pos - 2].time)
  }

  function Put(q: seq<Entry>, pos: nat, e: Entry): seq<Entry>
    requires pos <= |q|
  {
    q[..pos] + [e] + q[pos..]
  }

  lemma FitsSorted(q: seq<Entry>, when: int, earliest: int, latest: int, pos: nat, e: Entry)
    requires Sorted(q) && earliest <= when <= latest && Fits(q, when, earliest, latest, pos, e.time)
    ensures Sorted(Put(q, pos, e)) && earliest <= e.time <= latest
  {
    var r := Put(q, pos, e);
    forall i, j | 0 <= i < j < |r| ensures r[i].time <= r[j].time {
      assert r[i] == if i < pos then q[i] else if i == pos then e else q[i - 1];
      assert r[j] == if j < pos then q[j] else if j == pos then e else q[j - 1];
    }
  }

  /** The new timer is coalesced exactly when some timer lies in its window. */
  lemma FitsCoalesces(q: seq<Entry>, when: int, earliest: int, latest: int, pos: nat, time: int)
    requires Sorted(q) && earliest <= when <= latest && Fits(q, when, earliest, latest, pos, time)
    ensures if Overlaps(q, earliest, latest) then pos > 0 && q[pos - 1].time == time else time == when
  {
    if pos > 0 && q[pos - 1].time >= earliest {
      assert Overlaps(q, earliest, latest);
    }
  }

  /** No timer in the window before `latest` is nearer than the chosen one. */
  lemma FitsNearest(q: seq<Entry>, when: int, earliest: int, latest: int, pos: nat, time: int, i: nat)
    requires Sorted(q) && earliest <= when <= latest && Fits(q, when, earliest, latest, pos, time)
    requires i < |q| && earliest <= q[i].time <= latest
    ensures q[i].time < latest ==> Abs(time - when) <= Abs(q[i].time - when)
    ensures time >= when ==> Abs(time - when) <= Abs(q[i].time - when)
  {
    FitsCoalesces(q, when, earliest, latest, pos, time);
    assert pos > 0;
    if i < pos - 1 { assert q[i].time <= q[pos - 2].time <= q[pos - 1].time; }
    if i > pos { assert q[pos].time <= q[i].time; }
    if pos <= i { assert q[pos - 1].time <= q[pos].time; }
  }

  /** A nearer timer is passed over exactly when it lies at `latest` itself. */
  lemma FitsClosest(q: seq<Entry>, when: int, earliest: int, latest: int, pos: nat, time: int)
    requires Sorted(q) && earliest <= when <= latest && Fits(q, when, earliest, latest, pos, time)
    ensures Closest(q, time, when, earliest, latest) <==> !NearerAtLatest(q, when, earliest, latest)
  {
    if !NearerAtLatest(q, when, earliest, latest) {
      forall i | 0 <= i < |q| && earliest <= q[i].time <= latest
        ensures Abs(time - when) <= Abs(q[i].time - when)
      {
        FitsNearest(q, when, earliest, latest, pos, time, i);
        FitsCoalesces(q, when, earliest, latest, pos, time);
        if time < when && q[i].time == latest > when {
          assert pos <= i;
          assert q[pos].time <= q[i].time;
        }
      }
    } else {
      var i :| 0 <= i < |q| - 1 && earliest <= q[i].time < when && q[i + 1].time == latest > when
               && latest - when < when - q[i].time;
      assert earliest <= q[i + 1].time <= latest;
      FitsCoalesces(q, when, earliest, latest, pos, time);
      assert pos == i + 1;
    }
  }

  /** The new timer joins another if and only if one lies in its window; no timer in the window before
      its end is nearer; and the nearest of all is joined unless it lies exactly at that end. */
  ghost predicate Coalesced(q: seq<Entry>, when: int, earliest: int, latest: int, pos: nat, time: int)
    requires pos <= |q|
  {
    && (if Overlaps(q, earliest, latest) then pos > 0 && q[pos - 1].time == time else time == when)
    && (forall i :: 0 <= i < |q| && earliest <= q[i].time < latest ==> Abs(time - when) <= Abs(q[i].time - when))
    && (Closest(q, time, when, earliest, latest) <==> !NearerAtLatest(q, when, earliest, latest))
  }

  lemma FitsLaw(q: seq<Entry>, when: int, earliest: int, latest: int, pos: nat, time: int)
    requires Sorted(q) && earliest <= when <= latest && Fits(q, when, earliest, latest, pos, time)
    ensures Coalesced(q, when, earliest, latest, pos, time)
  {
    FitsCoalesces(q, when, earliest, latest, pos, time);
    FitsClosest(q, when, earliest, latest, pos, time);
    forall i | 0 <= i < |q| && earliest <= q[i].time < latest ensures Abs(time - when) <= Abs(q[i].time - when) {
      FitsNearest(q, when, earliest, latest, pos, time, i);
    }
  }

  /** For example: with timers at 10 and 25, a new one for 20 that may be early by 10 or late by 5
      joins the one at 10. */
  lemma PassedOver(a: Id, b: Id)
    ensures var q := [Entry(a, 10), Entry(b, 25)];
            && Sorted(q) && Fits(q, 20, 10, 25, 1, 10) && NearerAtLatest(q, 20, 10, 25) && !Closest(q, 10, 20, 10, 25)
  {
    var q := [Entry(a, 10), Entry(b, 25)];
    assert q[0].time == 10 && q[0 + 1].time == 25;
    FitsClosest(q, 20, 10, 25, 1, 10);
  }

  lemma PutIsPermutation(q: seq<Entry>, pos: nat, e: Entry)
    requires pos <= |q|
    ensures multiset(Put(q, pos, e)) == multiset(q) + multiset{e}
  {
    assert q == q[..pos] + q[pos..];
  }

  lemma RemovalLosesOne(q: seq<Entry>, k: nat)
    requires k < |q|
    ensures multiset(q[..k] + q[k + 1..]) + multiset{q[k]} == multiset(q)
  {
    assert q == q[..k] + [q[k]] + q[k + 1..];
  }

  /** The queue has gone from q to q' by gaining and losing exactly these timers. */
  ghost predicate Moves(q: seq<Entry>, q': seq<Entry>, added: multiset<Entry>, removed: multiset<Entry>) {
    multiset(q') + removed == multiset(q) + added
  }

  lemma HeadMoves(q: seq<Entry>)
    requires q != []
    ensures Moves(q, q[1..], multiset{}, multiset{q[0]})
  {
    assert q == [q[0]] + q[1..];
  }

  lemma MovesCompose(q: seq<Entry>, q1: seq<Entry>, q2: seq<Entry>, a: multiset<Entry>, r: multiset<Entry>,
                     a1: multiset<Entry>, r1: multiset<Entry>)
    requires Moves(q, q1, a, r) && Moves(q1, q2, a1, r1)
    ensures Moves(q, q2, a + a1, r + r1)
  {
    assert multiset(q2) + (r + r1) == (multiset(q2) + r1) + r == multiset(q1) + a1 + r;
    assert multiset(q) + (a + a1) == (multiset(q1) + r) + a1;
  }

  /** Two queues hold together what two others did. */
  ghost predicate Shared(a: seq<Entry>, b: seq<Entry>, a0: seq<Entry>, b0: seq<Entry>) {
    multiset(a) + multiset(b) == multiset(a0) + multiset(b0)
  }

  lemma HandedOver(a: seq<Entry>, b: seq<Entry>, a0: seq<Entry>, b0: seq<Entry>, pos: nat)
    requires Shared(a, b, a0, b0) && b != [] && pos <= |a|
    ensures Shared(Put(a, pos, b[0]), b[1..], a0, b0)
  {
    PutIsPermutation(a, pos, b[0]);
    assert b == [b[0]] + b[1..];
  }

  /** What happens during a callback: a timer is set on this CPU, or one is cancelled, on this CPU or
      on another one. */
  datatype Action = Add(id: Id, deadline: Deadline) | Remove(id: Id, here: bool)

  ghost predicate Queued(q: seq<Entry>, id: Id) {
    exists i :: 0 <= i < |q| && q[i].id == id
  }

  /** Some action arms a timer like this, within the window that the action asks for. */
  ghost predicate Arms(actions: seq<Action>, e: Entry) {
    exists i :: 0 <= i < |actions| && actions[i].Add? && actions[i].id == e.id
                && Earliest(actions[i].deadline) <= e.time <= Latest(actions[i].deadline)
  }

  ghost predicate Cancels(actions: seq<Action>, id: Id) {
    exists i :: 0 <= i < |actions| && actions[i].Remove? && actions[i].id == id
  }

  /** All that happens during the callbacks. */
  function All(actions: seq<seq<Action>>): seq<Action> {
    if actions == [] then [] else actions[0] + All(actions[1..])
  }

  /** Timers come and go by actions only, each by one. */
  ghost predicate Accounts(actions: seq<Action>, added: multiset<Entry>, removed: multiset<Entry>) {
    && (forall e :: e in added ==> Arms(actions, e))
    && (forall e :: e in removed ==> Cancels(actions, e.id))
    && |added| + |removed| <= |actions|
  }

  lemma NoAction(q: seq<Entry>, action: Action)
    ensures Changes(q, q, [action], multiset{}, multiset{})
  {
  }

  lemma AddAction(action: Action, e: Entry)
    requires action.Add? && action.id == e.id && Earliest(action.deadline) <= e.time <= Latest(action.deadline)
    ensures Accounts([action], multiset{e}, multiset{})
  {
    assert [action][0] == action;
  }

  lemma RemoveAction(action: Action, e: Entry)
    requires action.Remove? && action.id == e.id
    ensures Accounts([action], multiset{}, multiset{e})
  {
    assert [action][0] == action;
  }

  lemma AccountsCompose(acts: seq<Action>, a: multiset<Entry>, r: multiset<Entry>,
                        acts1: seq<Action>, a1: multiset<Entry>, r1: multiset<Entry>)
    requires Accounts(acts, a, r) && Accounts(acts1, a1, r1)
    ensures Accounts(acts + acts1, a + a1, r + r1)
  {
    var both := acts + acts1;
    assert forall i :: 0 <= i < |acts| ==> both[i] == acts[i];
    assert forall i :: 0 <= i < |acts1| ==> both[|acts| + i] == acts1[i];
    forall e | e in a + a1 ensures Arms(both, e) {
      if e in a {
        var i :| 0 <= i < |acts| && acts[i].Add? && acts[i].id == e.id
                 && Earliest(acts[i].deadline) <= e.time <= Latest(acts[i].deadline);
        assert both[i] == acts[i];
      } else {
        var i :| 0 <= i < |acts1| && acts1[i].Add? && acts1[i].id == e.id
                 && Earliest(acts1[i].deadline) <= e.time <= Latest(acts1[i].deadline);
        assert both[|acts| + i] == acts1[i];
      }
    }
    forall e | e in r + r1 ensures Cancels(both, e.id) {
      if e in r {
        var i :| 0 <= i < |acts| && acts[i].Remove? && acts[i].id == e.id;
        assert both[i] == acts[i];
      } else {
        var i :| 0 <= i < |acts1| && acts1[i].Remove? && acts1[i].id == e.id;
        assert both[|acts| + i] == acts1[i];
      }
    }
  }

  /** The queue has changed by these timers, and the actions account for them. */
  ghost predicate Changes(q: seq<Entry>, q': seq<Entry>, actions: seq<Action>, added: multiset<Entry>, removed: multiset<Entry>) {
    Moves(q, q', added, removed) && Accounts(actions, added, removed)
  }

  lemma ChangesStep(q: seq<Entry>, q1: seq<Entry>, q2: seq<Entry>, actions: seq<Action>, n: nat,
                    added: multiset<Entry>, removed: multiset<Entry>, a: multiset<Entry>, r: multiset<Entry>)
    requires n < |actions| && Changes(q, q1, actions[..n], added, removed) && Changes(q1, q2, [actions[n]], a, r)
    ensures Changes(q, q2, actions[..n + 1], added + a, removed + r)
  {
    MovesCompose(q, q1, q2, added, removed, a, r);
    AccountsCompose(actions[..n], added, removed, [actions[n]], a, r);
    assert actions[..n] + [actions[n]] == actions[..n + 1];
  }

  lemma {:induction false} AllSnoc(actions: seq<seq<Action>>, n: nat)
    requires n < |actions|
    ensures All(actions[..n + 1]) == All(actions[..n]) + actions[n]
  {
    if n == 0 {
      assert actions[..1] == [actions[0]] && actions[..0] == [];
    } else {
      AllSnoc(actions[1..], n - 1);
      assert actions[..n + 1][1..] == actions[1..][..n] && actions[..n][1..] == actions[1..][..n - 1];
    }
  }

  /** Actions that did not come to pass change nothing in the account. */
  lemma {:induction false} AllPrefix(actions: seq<seq<Action>>, n: nat)
    requires n <= |actions|
    ensures All(actions[..n]) <= All(actions)
  {
    if n > 0 {
      AllPrefix(actions[1..], n - 1);
      assert actions[..n][1..] == actions[1..][..n - 1];
    } else {
      assert actions[..0] == [];
    }
  }

  lemma AccountsGrow(acts: seq<Action>, more: seq<Action>, a: multiset<Entry>, r: multiset<Entry>)
    requires Accounts(acts, a, r) && acts <= more
    ensures Accounts(more, a, r)
  {
    assert forall i :: 0 <= i < |acts| ==> more[i] == acts[i];
    forall e | e in a ensures Arms(more, e) {
      var i :| 0 <= i < |acts| && acts[i].Add? && acts[i].id == e.id
               && Earliest(acts[i].deadline) <= e.time <= Latest(acts[i].deadline);
      assert more[i] == acts[i];
    }
    forall e | e in r ensures Cancels(more, e.id) {
      var i :| 0 <= i < |acts| && acts[i].Remove? && acts[i].id == e.id;
      assert more[i] == acts[i];
    }
  }

  // ---------- the hardware deadline ----------

  /** The soonest of a time and of the times that were asked for. */
  ghost predicate IsSoonest(r: Time, x: Time, asks: seq<Time>) {
    r <= x && (forall a :: a in asks ==> r <= a) && (r == x || r in asks)
  }

  /** Only a timer that is set, and a cancel on this CPU, asks the hardware for anything. */
  ghost predicate Asks(action: Action, a: Time) {
    if action.Add? then a == action.deadline.when else action.here
  }

  ghost predicate AskedBy(actions: seq<Action>, asks: seq<Time>) {
    forall a :: a in asks ==> exists i :: 0 <= i < |actions| && Asks(actions[i], a)
  }

  lemma AskedCompose(acts: seq<Action>, asks: seq<Time>, acts1: seq<Action>, asks1: seq<Time>)
    requires AskedBy(acts, asks) && AskedBy(acts1, asks1)
    ensures AskedBy(acts + acts1, asks + asks1)
  {
    var both := acts + acts1;
    forall a | a in asks + asks1 ensures exists i :: 0 <= i < |both| && Asks(both[i], a) {
      if a in asks {
        var i :| 0 <= i < |acts| && Asks(acts[i], a);
        assert both[i] == acts[i];
      } else {
        var i :| 0 <= i < |acts1| && Asks(acts1[i], a);
        assert both[|acts| + i] == acts1[i];
      }
    }
  }

  lemma AskedGrow(acts: seq<Action>, more: seq<Action>, asks: seq<Time>)
    requires AskedBy(acts, asks) && acts <= more
    ensures AskedBy(more, asks)
  {
    forall a | a in asks ensures exists i :: 0 <= i < |more| && Asks(more[i], a) {
      var i :| 0 <= i < |acts| && Asks(acts[i], a);
      assert more[i] == acts[i];
    }
  }

  /** What the hardware deadline has become: as early as the actions asked, and no earlier. */
  ghost predicate Hurried(x: Time, x': Time, actions: seq<Action>, asks: seq<Time>) {
    IsSoonest(x', x, asks) && AskedBy(actions, asks)
  }

  lemma HurriedStep(x: Time, x1: Time, x2: Time, acts: seq<Action>, acts1: seq<Action>, asks: seq<Time>, asks1: seq<Time>)
    requires Hurried(x, x1, acts, asks) && Hurried(x1, x2, acts1, asks1)
    ensures Hurried(x, x2, acts + acts1, asks + asks1)
  {
    AskedCompose(acts, asks, acts1, asks1);
  }

  /** What actions have done to a queue and to the hardware deadline. */
  ghost predicate Went(q: seq<Entry>, q': seq<Entry>, x: Time, x': Time, actions: seq<Action>,
                       added: multiset<Entry>, removed: multiset<Entry>, asks: seq<Time>)
  {
    Changes(q, q', actions, added, removed) && Hurried(x, x', actions, asks) && (actions == [] ==> q' == q)
  }

  lemma WentNowhere(q: seq<Entry>, x: Time, actions: seq<Action>)
    ensures Went(q, q, x, x, actions[..0], multiset{}, multiset{}, [])
  {
    assert actions[..0] == [];
  }

  lemma WentStep(q: seq<Entry>, q1: seq<Entry>, q2: seq<Entry>, x: Time, x1: Time, x2: Time, actions: seq<Action>, n: nat,
                 added: multiset<Entry>, removed: multiset<Entry>, a: multiset<Entry>, r: multiset<Entry>, asks: seq<Time>, b: seq<Time>)
    requires n < |actions| && Went(q, q1, x, x1, actions[..n], added, removed, asks) && Went(q1, q2, x1, x2, [actions[n]], a, r, b)
    ensures Went(q, q2, x, x2, actions[..n + 1], added + a, removed + r, asks + b)
  {
    ChangesStep(q, q1, q2, actions, n, added, removed, a, r);
    HurriedStep(x, x1, x2, actions[..n], [actions[n]], asks, b);
    assert actions[..n] + [actions[n]] == actions[..n + 1];
  }

  /** The time at which the hardware timer should go off next. */
  function NextDue(q: seq<Entry>, preempt: Time): Time {
    if q != [] && q[0].time < preempt then q[0].time else preempt
  }

  /** The account of the firing loop so far. */
  ghost predicate Firing(q: seq<Entry>, q': seq<Entry>, fired: seq<Entry>, actions: seq<Action>,
                         added: multiset<Entry>, removed: multiset<Entry>)
  {
    && Moves(q, q', added, removed + multiset(fired)) && Accounts(actions, added, removed)
    && (actions == [] ==> q == fired + q')
  }

  lemma FiringStep(q: seq<Entry>, q1: seq<Entry>, q2: seq<Entry>, fired: seq<Entry>, timer: Entry, actions: seq<Action>,
                   acts: seq<Action>, added: multiset<Entry>, removed: multiset<Entry>, a: multiset<Entry>, r: multiset<Entry>)
    requires Firing(q, q1, fired, actions, added, removed) && q1 != [] && timer == q1[0]
    requires Moves(q1, q2, a, r + multiset{timer}) && Accounts(acts, a, r) && (acts == [] ==> q2 == q1[1..])
    ensures Firing(q, q2, fired + [timer], actions + acts, added + a, removed + r)
  {
    MovesCompose(q, q1, q2, added, removed + multiset(fired), a, r + multiset{timer});
    assert (removed + multiset(fired)) + (r + multiset{timer}) == (removed + r) + multiset(fired + [timer]);
    AccountsCompose(actions, added, removed, acts, a, r);
    if actions + acts == [] { assert fired + q1 == (fired + [timer]) + q1[1..]; }
  }

  /** What a tick has done to the queue: fired what was due, kept what was not, and otherwise only
      what the actions say, no timer twice. */
  ghost predicate Ticked(q: seq<Entry>, q': seq<Entry>, fired: seq<Entry>, now: Time, actions: seq<Action>) {
    && (forall e :: e in q && e.time <= now && !Cancels(actions, e.id) ==> e in fired)
    && (forall e :: e in q && e.time > now && !Cancels(actions, e.id) ==> e in q')
    && (forall e :: e in fired ==> e.time <= now && (e in q || Arms(actions, e)))
    && (forall e :: e in q' ==> e.time > now && (e in q || Arms(actions, e)))
    && (exists added, removed :: Accounts(actions, added, removed) && Moves(q, q', added, removed + multiset(fired)))
  }

  lemma TickAccount(q: seq<Entry>, q': seq<Entry>, fired: seq<Entry>, now: Time, actions: seq<Action>,
                    added: multiset<Entry>, removed: multiset<Entry>)
    requires Moves(q, q', added, removed + multiset(fired)) && Accounts(actions, added, removed)
    requires (forall e :: e in q' ==> e.time > now) && (forall e :: e in fired ==> e.time <= now)
    ensures Ticked(q, q', fired, now, actions)
  {
    forall e ensures (e in q ==> e in q' || e in fired || e in removed) && (e in q' || e in fired ==> e in q || e in added) {
      assert (multiset(q') + (removed + multiset(fired)))[e] == multiset(q')[e] + removed[e] + multiset(fired)[e];
      assert (multiset(q) + added)[e] == multiset(q)[e] + added[e];
    }
  }

  class PerCpu {
    var timerQueue: seq<Entry>
    var preemptDeadline: Time
    var nextDeadline: Time     // deadline of the platform timer

    constructor ()
      ensures timerQueue == [] && preemptDeadline == TIME_INFINITE && nextDeadline == TIME_INFINITE
    {
      timerQueue, preemptDeadline, nextDeadline := [], TIME_INFINITE, TIME_INFINITE;
    }

    /** The platform timer goes off no later than the first timer and the preemption timer. */
    ghost predicate Armed()
      reads this
    {
      && (timerQueue != [] ==> nextDeadline <= timerQueue[0].time)
      && nextDeadline <= preemptDeadline
    }

    /** The walk of insert_timer_in_queue(): the index for the new timer, and its time and slack. */
    method FindPlace(when: Time, earliest: Time, latest: Time) returns (pos: nat, time: Time, slack: Time)
      requires Sorted(timerQueue) && earliest <= when <= latest
      ensures Fits(timerQueue, when, earliest, latest, pos, time)
      ensures slack == SubTime(time, when)
    {
      var q := timerQueue;
      var i := 0;
      while i < |q|
        invariant 0 <= i <= |q|
        invariant i > 0 ==> q[i - 1].time < when
        invariant i > 0 && q[i - 1].time >= earliest ==>
                    && i < |q| && q[i].time <= latest
                    && (q[i].time > when ==> q[i].time < latest && q[i].time - when < when - q[i - 1].time)
      {
        var entry := q[i];
        if entry.time > latest {
          return i, when, 0;
        }
        if entry.time >= when {
          return i + 1, entry.time, SubTime(entry.time, when);
        }
        if entry.time < earliest {
          i := i + 1;
          continue;
        }
        if i + 1 < |q| {
          var next := q[i + 1];
          if next.time <= when {
            i := i + 1;
            continue;
          }
          if next.time < latest {
            var deltaEntry := SubTime(when, entry.time);
            var deltaNext := SubTime(next.time, when);
            SaturateClamps(when - entry.time);
            SaturateClamps(next.time - when);
            if deltaNext < deltaEntry {
              i := i + 1;
              continue;
            }
          }
        }
        return i + 1, entry.time, SubTime(entry.time, when);
      }
      return |q|, when, 0;
    }

    /** insert_timer_in_queue(). */
    method Insert(id: Id, when: Time, earliest: Time, latest: Time) returns (pos: nat, time: Time, slack: Time)
      requires Sorted(timerQueue) && earliest <= when <= latest
      modifies this`timerQueue
      ensures pos <= |old(timerQueue)| && timerQueue == Put(old(timerQueue), pos, Entry(id, time))
      ensures Sorted(timerQueue) && earliest <= time <= latest && slack == SubTime(time, when)
      ensures Coalesced(old(timerQueue), when, earliest, latest, pos, time)
    {
      pos, time, slack := FindPlace(when, earliest, latest);
      FitsSorted(timerQueue, when, earliest, latest, pos, Entry(id, time));
      FitsLaw(timerQueue, when, earliest, latest, pos, time);
      timerQueue := Put(timerQueue, pos, Entry(id, time));
    }

    /** update_platform_timer(): only ever moves the platform timer forward. */
    method UpdatePlatformTimer(newDeadline: Time)
      modifies this`nextDeadline
      ensures nextDeadline == if newDeadline < old(nextDeadline) then newDeadline else old(nextDeadline)
    {
      if newDeadline < nextDeadline {
        nextDeadline := newDeadline;
      }
    }

    /** timer_set() on this CPU, for a timer that is not queued. */
    method Set(id: Id, deadline: Deadline) returns (ghost e: Entry)
      requires Sorted(timerQueue) && deadline.amount >= 0 && forall x :: x in timerQueue ==> x.id != id
      modifies this`timerQueue, this`nextDeadline
      ensures Sorted(timerQueue) && (old(Armed()) ==> Armed())
      ensures e.id == id && Earliest(deadline) <= e.time <= Latest(deadline)
      ensures multiset(timerQueue) == multiset(old(timerQueue)) + multiset{e}
      ensures nextDeadline == if timerQueue[0].id == id && deadline.when < old(nextDeadline) then deadline.when else old(nextDeadline)
    {
      WindowLaw(deadline);
      var pos, time, slack := Insert(id, deadline.when, Earliest(deadline), Latest(deadline));
      e := Entry(id, time);
      PutIsPermutation(old(timerQueue), pos, e);
      if timerQueue[0].id == id {
        UpdatePlatformTimer(deadline.when);
      } else {
        assert pos > 0 && timerQueue[0] == old(timerQueue)[0];
      }
    }

    method PreemptReset(deadline: Time)
      modifies this`preemptDeadline, this`nextDeadline
      ensures preemptDeadline == deadline && nextDeadline == if deadline < old(nextDeadline) then deadline else old(nextDeadline)
      ensures old(Armed()) ==> Armed()
    {
      preemptDeadline := deadline;
      UpdatePlatformTimer(deadline);
    }

    method PreemptCancel()
      modifies this`preemptDeadline
      ensures preemptDeadline == TIME_INFINITE && (old(Armed()) ==> Armed())
    {
      preemptDeadline := TIME_INFINITE;
    }

    /** timer_cancel() by this CPU of the timer at index k of `owner`'s queue. */
    method Cancel(owner: PerCpu, k: nat)
      requires Sorted(timerQueue) && Sorted(owner.timerQueue) && k < |owner.timerQueue|
      requires forall i :: 0 <= i < |timerQueue| && timerQueue[i].id == owner.timerQueue[k].id ==> owner == this && i == k
      modifies owner`timerQueue, this`nextDeadline
      ensures owner.timerQueue == old(owner.timerQueue)[..k] + old(owner.timerQueue)[k + 1..]
      ensures Sorted(timerQueue) && Sorted(owner.timerQueue)
      ensures (old(Armed()) ==> Armed()) && (old(owner.Armed()) ==> owner.Armed())
    {
      var q := owner.timerQueue;
      var wasHead := timerQueue != [] && timerQueue[0].id == q[k].id;
      owner.timerQueue := q[..k] + q[k + 1..];
      if wasHead && timerQueue != [] {
        UpdatePlatformTimer(timerQueue[0].time);
      }
    }

    /** timer_thaw_percpu(). */
    method Thaw()
      modifies this`nextDeadline
      ensures Armed() && nextDeadline == NextDue(timerQueue, preemptDeadline)
    {
      nextDeadline := TIME_INFINITE;
      var deadline := preemptDeadline;
      if timerQueue != [] && timerQueue[0].time < deadline {
        deadline := timerQueue[0].time;
      }
      UpdatePlatformTimer(deadline);
    }

    /** One action of a callback on this CPU, or of another CPU meanwhile, on this queue: a timer that
        is not queued is added within its window, a queued one is taken off. */
    method Act(action: Action) returns (ghost added: multiset<Entry>, ghost removed: multiset<Entry>, ghost asks: seq<Time>)
      requires Sorted(timerQueue)
      modifies this`timerQueue, this`nextDeadline
      ensures Sorted(timerQueue) && Went(old(timerQueue), timerQueue, old(nextDeadline), nextDeadline, [action], added, removed, asks)
      ensures action.Add? && action.deadline.amount >= 0 && !old(Queued(timerQueue, action.id)) ==> |added| == 1 && removed == multiset{}
      ensures action.Remove? && old(Queued(timerQueue, action.id)) ==> added == multiset{} && |removed| == 1
    {
      added, removed, asks := multiset{}, multiset{}, [];
      NoAction(timerQueue, action);
      var k := Find(action.id);
      match action
      case Add(id, deadline) =>
        if deadline.amount >= 0 && k == |timerQueue| {
          ghost var e;
          e, asks := ActSet(action);
          added := multiset{e};
        }
      case Remove(id, here) =>
        if k < |timerQueue| {
          removed := multiset{timerQueue[k]};
          asks := ActCancel(action, k);
        }
    }

    method ActSet(action: Action) returns (ghost e: Entry, ghost asks: seq<Time>)
      requires Sorted(timerQueue) && action.Add? && action.deadline.amount >= 0 && forall x :: x in timerQueue ==> x.id != action.id
      modifies this`timerQueue, this`nextDeadline
      ensures Sorted(timerQueue)
      ensures Went(old(timerQueue), timerQueue, old(nextDeadline), nextDeadline, [action], multiset{e}, multiset{}, asks)
    {
      e := Set(action.id, action.deadline);
      AddAction(action, e);
      asks := if timerQueue[0].id == action.id then [action.deadline.when] else [];
      assert [action][0] == action;
    }

    method ActCancel(action: Action, k: nat) returns (ghost asks: seq<Time>)
      requires Sorted(timerQueue) && action.Remove? && k < |timerQueue| && timerQueue[k].id == action.id
      modifies this`timerQueue, this`nextDeadline
      ensures Sorted(timerQueue)
      ensures Went(old(timerQueue), timerQueue, old(nextDeadline), nextDeadline, [action], multiset{}, multiset{old(timerQueue)[k]}, asks)
    {
      RemovalLosesOne(timerQueue, k);
      RemoveAction(action, timerQueue[k]);
      asks := [];
      assert [action][0] == action;
      timerQueue := timerQueue[..k] + timerQueue[k + 1..];
      if action.here && k == 0 && timerQueue != [] {
        asks := [timerQueue[0].time];
        UpdatePlatformTimer(timerQueue[0].time);
      }
    }

    /** The index of a timer, or the length of the queue. */
    method Find(id: Id) returns (k: nat)
      ensures k <= |timerQueue| && (k < |timerQueue| <==> Queued(timerQueue, id))
      ensures if k < |timerQueue| then timerQueue[k].id == id else forall x :: x in timerQueue ==> x.id != id
    {
      k := 0;
      while k < |timerQueue| && timerQueue[k].id != id
        invariant k <= |timerQueue| && forall i :: 0 <= i < k ==> timerQueue[i].id != id
      {
        k := k + 1;
      }
    }

    method RunCallback(actions: seq<Action>) returns (ghost added: multiset<Entry>, ghost removed: multiset<Entry>, ghost asks: seq<Time>)
      requires Sorted(timerQueue)
      modifies this`timerQueue, this`nextDeadline
      ensures Sorted(timerQueue) && Went(old(timerQueue), timerQueue, old(nextDeadline), nextDeadline, actions, added, removed, asks)
    {
      added, removed, asks := multiset{}, multiset{}, [];
      WentNowhere(timerQueue, nextDeadline, actions);
      for n := 0 to |actions|
        invariant Sorted(timerQueue)
        invariant Went(old(timerQueue), timerQueue, old(nextDeadline), nextDeadline, actions[..n], added, removed, asks)
      {
        ghost var q, x := timerQueue, nextDeadline;
        ghost var a, r, b := Act(actions[n]);
        WentStep(old(timerQueue), q, timerQueue, old(nextDeadline), x, nextDeadline, actions, n, added, removed, a, r, asks, b);
        added, removed, asks := added + a, removed + r, asks + b;
      }
      assert actions[..|actions|] == actions;
    }

    /** timer_tick(): `preempt` is the preemption deadline that the scheduler asks for if its timer
        has expired, and actions[n] is what happens during the n-th callback. Afterwards the hardware
        timer goes off exactly when it should, unless a callback has asked for an earlier time, which
        it then keeps even if the timer that was meant is gone. */
    method Tick(now: Time, preempt: Time, actions: seq<seq<Action>>) returns (fired: seq<Entry>, ghost asks: seq<Time>)
      requires Sorted(timerQueue)
      modifies this
      ensures Sorted(timerQueue) && Armed()
      ensures preemptDeadline == if now >= old(preemptDeadline) then preempt else old(preemptDeadline)
      ensures Ticked(old(timerQueue), timerQueue, fired, now, All(actions))
      ensures All(actions) == [] ==> old(timerQueue) == fired + timerQueue
      ensures Hurried(NextDue(timerQueue, preemptDeadline), nextDeadline, All(actions), asks)
      ensures nextDeadline == NextDue(timerQueue, preemptDeadline) <==> forall a :: a in asks ==> NextDue(timerQueue, preemptDeadline) <= a
    {
      nextDeadline := TIME_INFINITE;
      if now >= preemptDeadline {
        preemptDeadline := TIME_INFINITE;
        PreemptReset(preempt);
      }
      fired, asks := FireDue(now, actions);
      var deadline := TIME_INFINITE;
      if timerQueue != [] {
        deadline := timerQueue[0].time;
      }
      if preemptDeadline < deadline {
        deadline := preemptDeadline;
      }
      UpdatePlatformTimer(deadline);
    }

    /** The first timer is taken off and its callback called. */
    method FireHead(actions: seq<Action>)
      returns (timer: Entry, ghost added: multiset<Entry>, ghost removed: multiset<Entry>, ghost asks: seq<Time>)
      requires Sorted(timerQueue) && timerQueue != []
      modifies this`timerQueue, this`nextDeadline
      ensures timer == old(timerQueue)[0] && Sorted(timerQueue) && Accounts(actions, added, removed)
      ensures Moves(old(timerQueue), timerQueue, added, removed + multiset{timer})
      ensures actions == [] ==> timerQueue == old(timerQueue)[1..]
      ensures Hurried(old(nextDeadline), nextDeadline, actions, asks)
    {
      timer := timerQueue[0];
      HeadMoves(timerQueue);
      timerQueue := timerQueue[1..];
      ghost var q := timerQueue;
      added, removed, asks := RunCallback(actions);
      MovesCompose(old(timerQueue), q, timerQueue, multiset{}, multiset{timer}, added, removed);
      assert multiset{} + added == added && multiset{timer} + removed == removed + multiset{timer};
    }

    /** The loop of timer_tick(). */
    method FireDue(now: Time, actions: seq<seq<Action>>) returns (fired: seq<Entry>, ghost asks: seq<Time>)
      requires Sorted(timerQueue)
      modifies this`timerQueue, this`nextDeadline
      ensures Sorted(timerQueue)
      ensures Ticked(old(timerQueue), timerQueue, fired, now, All(actions))
      ensures All(actions) == [] ==> old(timerQueue) == fired + timerQueue
      ensures Hurried(old(nextDeadline), nextDeadline, All(actions), asks)
    {
      fired, asks := [], [];
      ghost var added, removed := multiset{}, multiset{};
      var n := 0;
      assert actions[..0] == [];
      while timerQueue != [] && timerQueue[0].time <= now
        invariant Sorted(timerQueue) && n <= |actions| && forall e :: e in fired ==> e.time <= now
        invariant Firing(old(timerQueue), timerQueue, fired, All(actions[..n]), added, removed)
        invariant Hurried(old(nextDeadline), nextDeadline, All(actions[..n]), asks)
        decreases |actions| - n, |timerQueue|
      {
        ghost var q, x, done := timerQueue, nextDeadline, All(actions[..n]);
        var acts := if n < |actions| then actions[n] else [];
        var timer;
        ghost var a, r, b;
        timer, a, r, b := FireHead(acts);
        HurriedStep(old(nextDeadline), x, nextDeadline, done, acts, asks, b);
        asks := asks + b;
        FiringStep(old(timerQueue), q, timerQueue, fired, timer, done, acts, added, removed, a, r);
        fired := fired + [timer];
        added, removed := added + a, removed + r;
        if n < |actions| {
          AllSnoc(actions, n);
          n := n + 1;
        } else {
          assert done + acts == done;
        }
      }
      assert forall e :: e in timerQueue ==> timerQueue[0].time <= e.time;
      AllPrefix(actions, n);
      AccountsGrow(All(actions[..n]), All(actions), added, removed);
      AskedGrow(All(actions[..n]), All(actions), asks);
      TickAccount(old(timerQueue), timerQueue, fired, now, All(actions), added, removed);
    }

    /** timer_transition_off_cpu(): takes over all timers of a CPU that goes offline. */
    method TransitionOff(oldCpu: PerCpu)
      requires oldCpu != this && Sorted(timerQueue) && Sorted(oldCpu.timerQueue)
      modifies this`timerQueue, this`nextDeadline, oldCpu
      ensures Sorted(timerQueue) && multiset(timerQueue) == multiset(old(timerQueue)) + multiset(old(oldCpu.timerQueue))
      ensures oldCpu.timerQueue == [] && oldCpu.Armed()
      ensures old(Armed()) ==> Armed()
    {
      var oldHead := timerQueue[..if timerQueue == [] then 0 else 1];
      while oldCpu.timerQueue != []
        invariant Sorted(timerQueue) && preemptDeadline == old(preemptDeadline) && nextDeadline == old(nextDeadline)
        invariant Shared(timerQueue, oldCpu.timerQueue, old(timerQueue), old(oldCpu.timerQueue))
        decreases |oldCpu.timerQueue|
      {
        var entry := oldCpu.timerQueue[0];
        ghost var q, rest := timerQueue, oldCpu.timerQueue;
        oldCpu.timerQueue := oldCpu.timerQueue[1..];
        var pos, time, slack := Insert(entry.id, entry.time, entry.time, entry.time);
        HandedOver(q, rest, old(timerQueue), old(oldCpu.timerQueue), pos);
      }
      if timerQueue != [] && (oldHead == [] || timerQueue[0] != oldHead[0]) {
        UpdatePlatformTimer(timerQueue[0].time);
      }
      oldCpu.preemptDeadline := TIME_INFINITE;
      oldCpu.nextDeadline := TIME_INFINITE;
    }
  }
}
