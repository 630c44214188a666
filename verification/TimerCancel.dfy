/** One kernel timer on any number of CPUs: set, fired, re-armed by its own callback, moved off a
    CPU and cancelled, in every order. One step is one section under the timer lock. */
module TimerCancelProtocol {
  import opened Lists
  import Runs

  type Cpu = nat

  /** The one client that may set and cancel the timer from outside its callback. */
  datatype Client = Idle | Canceling(dequeued: bool)

  datatype State = State(
    queuedOn: Option<Cpu>,   // the CPU whose queue holds the timer
    active: Option<Cpu>,     // active_cpu
    cancel: bool,
    hasCallback: bool,       // callback != NULL
    client: Client,
    quiet: bool,             // history: never set, or timer_cancel() has returned since
    panicked: bool,
    arms: nat, fires: nat, cancels: nat)   // history: times queued, fired, and dequeued by a cancel

  datatype Step =
    | Set(c: Cpu)             // timer_set() by the client, running on CPU c
    | Fire(c: Cpu)            // timer_tick() on c takes the timer off its queue
    | CallbackSet             // timer_set() by the running callback
    | CallbackCancel          // timer_cancel() by the running callback
    | CallbackDone            // timer_tick() marks the timer not busy
    | CancelBegin(c: Cpu)     // timer_cancel() by the client on CPU c, up to the end of its lock
    | CancelEnd               // it has seen the timer inactive
    | MoveOff(c: Cpu)         // timer_transition_off_cpu() brings it to CPU c

  ghost predicate Init(s: State) {
    s == State(None, None, false, false, Idle, true, false, 0, 0, 0)
  }

  /** timer_set() on CPU c. */
  function TimerSet(s: State, c: Cpu): State {
    if s.queuedOn.Some? then s.(panicked := true)
    else if s.active == Some(c) && s.cancel then s
    else if s.active.Some? && s.active != Some(c) then s.(panicked := true)
    else s.(cancel := false, hasCallback := true, queuedOn := Some(c), arms := s.arms + 1)
  }

  /** timer_cancel() on CPU c, before any wait; called by the running callback it returns here and
      leaves the queue alone. */
  function TimerCancel(s: State, c: Cpu): State {
    if s.active == Some(c) then s.(cancel := true, hasCallback := false)
    else s.(cancel := true, queuedOn := None, cancels := s.cancels + if s.queuedOn.Some? then 1 else 0)
  }

  /** The client sets the timer only when it knows it quiet, runs on a CPU that is not in the
      callback, and does one thing at a time; the callback does not set a timer that it has set
      already. A panic is the end. */
  ghost predicate Enabled(s: State, step: Step) {
    && !s.panicked
    && match step
       case Set(c) => s.client == Idle && s.quiet
       case Fire(c) => s.queuedOn == Some(c) && s.active != Some(c)
       case CallbackSet => s.active.Some? && s.queuedOn == None
       case CallbackCancel => s.active.Some?
       case CallbackDone => s.active.Some?
       case CancelBegin(c) => s.client == Idle && s.active != Some(c)
       case CancelEnd => s.client.Canceling? && s.active == None
       case MoveOff(c) => s.queuedOn.Some? && s.active != s.queuedOn
  }

  ghost function Apply(s: State, step: Step): State
    requires Enabled(s, step)
  {
    match step
    case Set(c) => TimerSet(s, c).(quiet := false)
    case Fire(c) =>
      s.(queuedOn := None, active := Some(c), fires := s.fires + 1, panicked := s.panicked || !s.hasCallback)
    case CallbackSet => TimerSet(s, s.active.value)
    case CallbackCancel => TimerCancel(s, s.active.value)
    case CallbackDone => s.(active := None)
    case CancelBegin(c) => TimerCancel(s, c).(client := Canceling(s.queuedOn.Some?))
    case CancelEnd => s.(hasCallback := false, client := Idle, quiet := true)
    case MoveOff(c) => s.(queuedOn := Some(c))
  }

  ghost predicate Next(s: State, s': State) {
    exists step :: Enabled(s, step) && s' == Apply(s, step)
  }

  /** The timer is queued and has no callback to call. */
  predicate Orphaned(s: State) {
    s.queuedOn.Some? && !s.hasCallback
  }

  ghost predicate Inv(s: State) {
    && (s.queuedOn.Some? ==> s.client == Idle && (s.cancel <==> !s.hasCallback))
    && (s.queuedOn.Some? && s.active.Some? ==> s.queuedOn == s.active)
    && (s.client.Canceling? ==> s.cancel && s.queuedOn == None)
    && (s.quiet ==> s.active == None && s.queuedOn == None)
    && s.arms == s.fires + s.cancels + if s.queuedOn.Some? then 1 else 0
  }

  lemma StepKeepsInv(s: State, step: Step)
    requires Inv(s) && Enabled(s, step)
    ensures Inv(Apply(s, step))
    ensures Apply(s, step).panicked <==> step.Fire? && Orphaned(s)
    ensures Orphaned(Apply(s, step)) && !Orphaned(s) ==> step == CallbackCancel && s.queuedOn.Some?
    ensures Orphaned(s) && !step.CancelBegin? && !step.Fire? ==> Orphaned(Apply(s, step))
  {
  }

  lemma InvOnRuns(run: seq<State>, n: nat)
    requires Runs.IsRun(Init, Next, run) && n < |run|
    ensures Inv(run[n])
  {
    forall s, s' | Inv(s) && Next(s, s') ensures Inv(s') {
      var step :| Enabled(s, step) && s' == Apply(s, step);
      StepKeepsInv(s, step);
    }
    Runs.Invariant(Init, Next, Inv, run, n);
  }

  /** From the moment the client's timer_cancel() has released its lock no queue holds the timer and
      a callback that re-arms it is refused; when it returns, the timer is also active nowhere. */
  lemma CancelQuiesces(run: seq<State>, n: nat)
    requires Runs.IsRun(Init, Next, run) && n < |run|
    ensures run[n].client.Canceling? ==> run[n].queuedOn == None
    ensures run[n].client.Canceling? && Enabled(run[n], CallbackSet) ==> Apply(run[n], CallbackSet) == run[n]
    ensures Enabled(run[n], CancelEnd) ==>
              Apply(run[n], CancelEnd).queuedOn == None && Apply(run[n], CancelEnd).active == None
  {
    InvOnRuns(run, n);
  }

  /** It stays so: between the return of timer_cancel() and the client's next timer_set() nothing
      queues or runs the timer, over any stretch of the run. */
  lemma {:induction false} StaysQuiet(run: seq<State>, n: nat, m: nat)
    requires Runs.IsRun(Init, Next, run) && n <= m < |run| && run[n].quiet
    requires forall i :: n <= i < m ==> !ClientSets(run[i], run[i + 1])
    ensures run[m].queuedOn == None && run[m].active == None
    ensures run[m].arms == run[n].arms && run[m].fires == run[n].fires && run[m].quiet
  {
    InvOnRuns(run, n);
    if n < m {
      StaysQuiet(run, n, m - 1);
      InvOnRuns(run, m - 1);
      var s, s' := run[m - 1], run[m - 1 + 1];
      assert Next(s, s') && !ClientSets(s, s');
      var step :| Enabled(s, step) && s' == Apply(s, step);
      assert !step.Set?;
    }
  }

  ghost predicate ClientSets(s: State, s': State) {
    exists c :: Enabled(s, Set(c)) && s' == Apply(s, Set(c))
  }

  /** Every arming ends exactly once, by firing or by a cancel that dequeued the timer. */
  lemma ArmingsBalance(run: seq<State>, n: nat)
    requires Runs.IsRun(Init, Next, run) && n < |run|
    ensures run[n].arms == run[n].fires + run[n].cancels + if run[n].queuedOn.Some? then 1 else 0
  {
    InvOnRuns(run, n);
  }

  ghost predicate ClientCancels(s: State, s': State) {
    exists c :: Enabled(s, CancelBegin(c)) && s' == Apply(s, CancelBegin(c))
  }

  ghost predicate NoCancelAt(run: seq<State>, i: nat) {
    i + 1 < |run| && !ClientCancels(run[i], run[i + 1])
  }

  ghost predicate OwnCancels(s: State, s': State) {
    Enabled(s, CallbackCancel) && s' == Apply(s, CallbackCancel)
  }

  /** No longer queued, and a callback that re-arms it is refused. */
  ghost predicate Stopped(s: State, s0: State) {
    s.queuedOn == None && s.cancel && !s.panicked && s.fires == s0.fires && s.arms == s0.arms
  }

  /** Queued with no callback, or a panic at the next firing. */
  ghost predicate Doomed(s: State, s0: State) {
    if s.panicked then s.fires == s0.fires + 1 else Orphaned(s) && s.fires == s0.fires
  }

  lemma OwnCancelStep(s: State, s': State)
    requires Inv(s) && OwnCancels(s, s')
    ensures if s.queuedOn == None then Stopped(s', s) else Doomed(s', s)
  {
  }

  lemma StoppedStep(s: State, s': State, s0: State)
    requires Inv(s) && Next(s, s') && Stopped(s, s0) && !ClientSets(s, s')
    ensures Stopped(s', s0)
  {
    var step :| Enabled(s, step) && s' == Apply(s, step);
    assert !step.Set?;
  }

  /** One step of a run that is not the client's cancel. */
  ghost predicate CalmAt(run: seq<State>, i: nat) {
    i + 1 < |run| && Inv(run[i]) && Next(run[i], run[i + 1]) && !ClientCancels(run[i], run[i + 1])
  }

  lemma DoomedStep(run: seq<State>, i: nat, s0: State)
    requires CalmAt(run, i) && Doomed(run[i], s0)
    ensures Doomed(run[i + 1], s0)
  {
    var step :| Enabled(run[i], step) && run[i + 1] == Apply(run[i], step);
    assert !step.CancelBegin?;
  }

  lemma {:induction false} StaysDoomed(run: seq<State>, n: nat, m: nat, s0: State)
    requires n <= m < |run| && Doomed(run[n], s0) && forall i :: n <= i < m ==> CalmAt(run, i)
    ensures Doomed(run[m], s0)
  {
    if n < m {
      StaysDoomed(run, n, m - 1, s0);
      DoomedStep(run, m - 1, s0);
    }
  }

  /** timer_cancel() by the running callback stops a timer that the callback has not re-armed before:
      until the client's next timer_set() no later state has it queued and it never fires, whatever
      else the callback or the client does. */
  lemma {:induction false} OwnCancelStops(run: seq<State>, n: nat, m: nat)
    requires Runs.IsRun(Init, Next, run) && n < m < |run| && OwnCancels(run[n], run[n + 1]) && run[n].queuedOn == None
    requires forall i :: n < i < m ==> !ClientSets(run[i], run[i + 1])
    ensures Stopped(run[m], run[n])
  {
    InvOnRuns(run, m - 1);
    if m == n + 1 {
      OwnCancelStep(run[n], run[n + 1]);
    } else {
      OwnCancelStops(run, n, m - 1);
      assert Next(run[m - 1], run[m - 1 + 1]);
      StoppedStep(run[m - 1], run[m - 1 + 1], run[n]);
    }
  }

  /** A timer that the callback has re-armed before is not stopped: until the client cancels it, it
      stays queued with no callback, and its next firing is a panic. */
  lemma {:induction false} OwnCancelOrphans(run: seq<State>, n: nat, m: nat)
    requires Runs.IsRun(Init, Next, run) && n < m < |run| && OwnCancels(run[n], run[n + 1]) && run[n].queuedOn.Some?
    requires forall i :: n < i < m ==> NoCancelAt(run, i)
    ensures Doomed(run[m], run[n])
  {
    InvOnRuns(run, n);
    OwnCancelStep(run[n], run[n + 1]);
    forall i | n < i < m ensures CalmAt(run, i) {
      InvOnRuns(run, i);
      assert Next(run[i], run[i + 1]) && NoCancelAt(run, i);
    }
    StaysDoomed(run, n + 1, m, run[n]);
  }

  /** The orphaned timer does fire, as soon as the callback has returned. */
  lemma OrphanFires(run: seq<State>, n: nat)
    requires Runs.IsRun(Init, Next, run) && n < |run| && Orphaned(run[n]) && !run[n].panicked
    ensures var s := if run[n].active.Some? then Apply(run[n], CallbackDone) else run[n];
            && (run[n].active.Some? ==> Enabled(run[n], CallbackDone))
            && Enabled(s, Fire(s.queuedOn.value)) && Apply(s, Fire(s.queuedOn.value)).panicked
  {
    InvOnRuns(run, n);
  }

  /** Nothing else panics: before a panic the callback has cancelled its own timer after re-arming
      it, and the client has not cancelled it since. */
  lemma PanicNeedsOwnCancel(run: seq<State>, m: nat) returns (n: nat)
    requires Runs.IsRun(Init, Next, run) && m < |run| && (run[m].panicked || Orphaned(run[m]))
    ensures n < m && OwnCancels(run[n], run[n + 1]) && run[n].queuedOn.Some?
    ensures forall i :: n < i < m ==> NoCancelAt(run, i)
  {
    forall i | 0 <= i < m ensures StepsAt(run, i) {
      InvOnRuns(run, i);
      assert Next(run[i], run[i + 1]);
    }
    n := OrphanedBy(run, m);
  }

  ghost predicate StepsAt(run: seq<State>, i: nat) {
    i + 1 < |run| && Inv(run[i]) && Next(run[i], run[i + 1])
  }

  /** A step after which the timer is orphaned, or that panics: it was orphaned before and the client
      has not cancelled it, or this step is the callback's cancel. */
  lemma OrphanedStep(run: seq<State>, i: nat)
    requires StepsAt(run, i) && (run[i + 1].panicked || Orphaned(run[i + 1]))
    ensures if Orphaned(run[i]) then NoCancelAt(run, i) else OwnCancels(run[i], run[i + 1]) && run[i].queuedOn.Some?
  {
    var step :| Enabled(run[i], step) && run[i + 1] == Apply(run[i], step);
  }

  lemma {:induction false} OrphanedBy(run: seq<State>, m: nat) returns (n: nat)
    requires m < |run| && !run[0].panicked && !Orphaned(run[0]) && (run[m].panicked || Orphaned(run[m]))
    requires forall i :: 0 <= i < m ==> StepsAt(run, i)
    ensures n < m && OwnCancels(run[n], run[n + 1]) && run[n].queuedOn.Some?
    ensures forall i :: n < i < m ==> NoCancelAt(run, i)
  {
    OrphanedStep(run, m - 1);
    n := m - 1;
    if Orphaned(run[m - 1]) { n := OrphanedBy(run, m - 1); }
  }

  /** A run in which that happens: set, fire, re-arm in the callback, cancel in the callback, return
      from it, fire. */
  lemma OwnCancelAfterRearm()
    ensures exists run: seq<State> ::
              Runs.IsRun(Init, Next, run) && |run| == 7 && OwnCancels(run[3], run[4]) && run[3].queuedOn == Some(0) && run[6].panicked
  {
    var s0 := State(None, None, false, false, Idle, true, false, 0, 0, 0);
    var s1 := Apply(s0, Set(0));
    var s2 := Apply(s1, Fire(0));
    var s3 := Apply(s2, CallbackSet);
    var s4 := Apply(s3, CallbackCancel);
    var s5 := Apply(s4, CallbackDone);
    var s6 := Apply(s5, Fire(0));
    var run := [s0, s1, s2, s3, s4, s5, s6];
    assert Next(s0, s1) && Next(s1, s2) && Next(s2, s3) && Next(s3, s4) && Next(s4, s5) && Next(s5, s6);
    assert Runs.IsRun(Init, Next, run);
  }

  // ---------- what a client gets ----------

  /** A client that has nothing pending can set the timer on any CPU; it is then queued there, can be
      moved to any other CPU, fires where it is queued, once, and is idle again. */
  lemma SetFires(run: seq<State>, n: nat, c: Cpu, d: Cpu)
    requires Runs.IsRun(Init, Next, run) && n < |run| && !run[n].panicked && run[n].client == Idle && run[n].quiet
    ensures Enabled(run[n], Set(c))
    ensures var s1 := Apply(run[n], Set(c));
            && s1.queuedOn == Some(c) && !s1.panicked && s1.arms == run[n].arms + 1 && Enabled(s1, MoveOff(d))
            && var s2 := Apply(s1, MoveOff(d));
            && s2 == s1.(queuedOn := Some(d)) && Enabled(s2, Fire(d))
            && var s3 := Apply(s2, Fire(d));
            && s3.queuedOn == None && s3.active == Some(d) && !s3.panicked && s3.fires == run[n].fires + 1 && Enabled(s3, CallbackDone)
            && Apply(s3, CallbackDone).active == None && Apply(s3, CallbackDone).queuedOn == None
  {
    InvOnRuns(run, n);
  }

  /** A callback can re-arm its timer, which is then queued on the same CPU and fires again; after a
      cancel it is refused. */
  lemma RearmFires(run: seq<State>, n: nat)
    requires Runs.IsRun(Init, Next, run) && n < |run| && !run[n].panicked && run[n].active.Some? && run[n].queuedOn == None
    ensures Enabled(run[n], CallbackSet)
    ensures var s, s1 := run[n], Apply(run[n], CallbackSet);
            && (s.cancel ==> s1 == s)
            && (!s.cancel ==>
                  && s1.queuedOn == s.active && s1.arms == s.arms + 1 && !s1.panicked && Enabled(s1, CallbackDone)
                  && var s2 := Apply(s1, CallbackDone);
                  && Enabled(s2, Fire(s.active.value))
                  && Apply(s2, Fire(s.active.value)).fires == s.fires + 1 && !Apply(s2, Fire(s.active.value)).panicked)
  {
    InvOnRuns(run, n);
  }

  /** timer_cancel() by the client can always begin and comes to its end as soon as a callback that is
      running has: nothing else can keep it waiting. */
  lemma CancelReturns(run: seq<State>, n: nat, c: Cpu)
    requires Runs.IsRun(Init, Next, run) && n < |run| && !run[n].panicked && run[n].client == Idle && run[n].active != Some(c)
    ensures Enabled(run[n], CancelBegin(c))
    ensures var s1 := Apply(run[n], CancelBegin(c));
            && (s1.active.Some? ==> Enabled(s1, CallbackDone))
            && var s2 := if s1.active.Some? then Apply(s1, CallbackDone) else s1;
            && Enabled(s2, CancelEnd) && Apply(s2, CancelEnd).client == Idle && Apply(s2, CancelEnd).quiet
  {
    InvOnRuns(run, n);
  }

  /** The answer of a cancel that is in progress does not change. */
  lemma {:induction false} AnswerStays(run: seq<State>, n: nat, m: nat)
    requires n <= m < |run| && forall i :: n <= i < m ==> WaitsAt(run, i)
    requires run[n].client.Canceling? && run[m].client.Canceling?
    ensures run[m].client == run[n].client
  {
    if n < m {
      assert WaitsAt(run, m - 1);
      var step :| Enabled(run[m - 1], step) && run[m] == Apply(run[m - 1], step);
      AnswerStays(run, n, m - 1);
    }
  }

  ghost predicate WaitsAt(run: seq<State>, i: nat) {
    i + 1 < |run| && Next(run[i], run[i + 1]) && run[i].client.Canceling?
  }

  /** timer_cancel() answers that it has prevented a firing exactly if it took the timer off a queue. */
  lemma CancelAnswer(run: seq<State>, n: nat, m: nat, c: Cpu)
    requires Runs.IsRun(Init, Next, run) && n < m < |run|
    requires Enabled(run[n], CancelBegin(c)) && run[n + 1] == Apply(run[n], CancelBegin(c))
    requires forall i :: n < i <= m ==> run[i].client.Canceling?
    ensures run[m].client == Canceling(run[n].queuedOn.Some?) && run[n + 1].queuedOn == None
    ensures run[n + 1].cancels == run[n].cancels + if run[m].client == Canceling(true) then 1 else 0
  {
    InvOnRuns(run, n);
    forall i | n + 1 <= i < m ensures WaitsAt(run, i) { assert Next(run[i], run[i + 1]); }
    AnswerStays(run, n + 1, m);
  }
}
