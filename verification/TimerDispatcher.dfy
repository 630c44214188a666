/** A TimerDispatcher, its kernel timer and its DPC, under every interleaving.

    The dispatcher lock is held over a whole operation, which may stop inside timer_cancel() to wait
    for a timer callback on another CPU; interrupt, DPC-list and reference-count steps need no
    dispatcher lock and can fall anywhere. */
module TimerDispatcherProtocol {
  import Runs

  /** The timer callback on some CPU: not running, before dpc_queue(), or after it. */
  datatype Callback = Inactive | BeforeDpc | AfterDpc

  datatype Op = Set(deadline: nat, due: bool) | Cancel | ZeroHandles | Fired

  /** Who holds the dispatcher lock: nobody, or an operation waiting in timer_cancel() called by
      CancelTimerLocked() (with what it found), or called as "cancel first". */
  datatype Holder = Free | Canceling(op: Op, canceled: bool) | CancelFirst(op: Op)

  /** The thread that has brought the handle count to zero: none so far; about to call
      on_zero_handles(); in it or back from it, still with its reference; and gone. */
  datatype Closer = Nobody | Owes | Called | Gone

  datatype State = State(
    deadline: nat,          // deadline_, 0 when not set
    cancelPending: bool,    // cancel_pending_
    signaled: bool,         // ZX_TIMER_SIGNALED
    queued: bool,           // timer_ is on a CPU's timer queue
    callback: Callback,
    dpcListed: bool,        // timer_dpc_ is on a DPC list
    dpcRunning: nat,        // DPC threads about to lock the dispatcher in OnTimerFired()
    releasing: nat,         // OnTimerFired() past its lock, before Release()
    refs: nat,              // the reference count
    handles: nat,           // handles, each with a reference
    calls: nat,             // system calls in progress, each with a reference
    closer: Closer,         // the thread that closes the last handle
    holder: Holder,
    destroyed: bool,
    panicked: bool,         // an assertion, panic() or lost DPC has been reached
    epoch: nat,             // history: calls of CancelTimerLocked() so far
    armed: (nat, nat))      // history: deadline and epoch of the last timer_set()

  datatype Step =
    | Begin(op: Op) | EndCancel                       // under the dispatcher lock
    | Fire | QueueDpc | CallbackDone | PopDpc          // interrupt and DPC list
    | Release                                         // OnTimerFired() drops its reference
    | AddHandle | CloseHandle | DropCloser             // handles
    | EnterCall | LeaveCall                            // system calls

  ghost predicate Init(s: State) {
    && s.deadline == 0 && !s.cancelPending && !s.signaled && !s.queued && s.callback == Inactive
    && !s.dpcListed && s.dpcRunning == 0 && s.releasing == 0 && s.refs == 1 && s.handles == 1 && s.calls == 0 && s.closer == Nobody
    && s.holder == Free && !s.destroyed && !s.panicked && s.epoch == 0 && s.armed == (0, 0)
  }

  /** timer_set(): panics when the timer is queued, or active on another CPU. */
  function TimerSet(s: State): State {
    s.(queued := true, armed := (s.deadline, s.epoch), holder := Free,
       panicked := s.panicked || s.queued || s.callback != Inactive)
  }

  function DropRef(s: State): State {
    if s.refs == 0 then s.(panicked := true)
    else s.(refs := s.refs - 1, destroyed := s.destroyed || s.refs == 1,
            panicked := s.panicked || (s.refs == 1 && s.deadline != 0))
  }

  /** What an operation does once CancelTimerLocked() has returned `didCancel`. */
  function AfterCancel(s: State, op: Op, didCancel: bool): State {
    match op
    case Set(d, due) =>
      if d == 0 || due then s.(signaled := true, holder := Free)
      else if s.cancelPending then s.(deadline := d, holder := Free)
      else
        var s1 := s.(deadline := d, refs := s.refs + 1);
        if didCancel then TimerSet(s1) else s1.(queued := false, holder := CancelFirst(op))
    case ZeroHandles =>
      if didCancel then s.(holder := Free) else s.(queued := false, holder := CancelFirst(op))
    case _ => s.(holder := Free)
  }

  function BeginOp(s: State, op: Op): State {
    if op == Fired then
      var s1 := s.(dpcRunning := if s.dpcRunning > 0 then s.dpcRunning - 1 else 0);
      if s.cancelPending then
        if s.deadline != 0 then s1.(cancelPending := false, queued := false, holder := CancelFirst(op))
        else s1.(cancelPending := false, releasing := s.releasing + 1)
      else s1.(signaled := true, deadline := 0, releasing := s.releasing + 1)
    else
      // CancelTimerLocked(), up to the locked part of timer_cancel()
      var s1 := s.(signaled := false, deadline := 0, epoch := s.epoch + 1,
                   closer := if op == ZeroHandles then Called else s.closer);
      if s.deadline != 0 && !s.cancelPending then s1.(queued := false, holder := Canceling(op, s.queued))
      else AfterCancel(s1, op, false)
  }

  /** timer_cancel() has seen the callback inactive and returns. */
  function FinishCancel(s: State): State {
    match s.holder
    case Free => s
    case Canceling(op, canceled) =>
      // Release() must not drop the last reference here
      var s1 := if canceled then DropRef(s).(panicked := s.panicked || s.refs <= 1)
                else s.(cancelPending := true);
      AfterCancel(s1, op, true)
    case CancelFirst(op) => if op == ZeroHandles then s.(holder := Free) else TimerSet(s)
  }

  /** What the threads, interrupts and DPCs that exist can do next. A handle or a call comes from a
      handle; the thread in a call keeps its reference. The DPC thread is pinned to the CPU whose
      interrupt handler runs the callback, so it pops the DPC only after the handler is done. */
  ghost predicate Enabled(s: State, step: Step) {
    match step
    case Begin(op) =>
      s.holder == Free && (match op case Fired => s.dpcRunning > 0 case ZeroHandles => s.closer == Owes case _ => s.calls > 0)
    case EndCancel => s.holder != Free && s.callback == Inactive
    case Fire => s.queued
    case QueueDpc => s.callback == BeforeDpc
    case CallbackDone => s.callback == AfterDpc
    case PopDpc => s.dpcListed && s.callback == Inactive
    case Release => s.releasing > 0
    case AddHandle => s.handles > 0
    case CloseHandle => s.handles > 0
    case DropCloser => s.closer == Called && (s.holder == Free || HolderOp(s) != ZeroHandles)
    case EnterCall => s.handles > 0
    case LeaveCall => s.calls > if s.holder != Free && HolderOp(s) != Fired && HolderOp(s) != ZeroHandles then 1 else 0
  }

  function HolderOp(s: State): Op {
    if s.holder == Free then Cancel else s.holder.op
  }

  function Apply(s: State, step: Step): State {
    match step
    case Begin(op) => BeginOp(s, op)
    case EndCancel => FinishCancel(s)
    case Fire => s.(queued := false, callback := BeforeDpc)
    case QueueDpc =>
      // dpc_queue() refuses a DPC that is already listed
      s.(dpcListed := true, callback := AfterDpc, panicked := s.panicked || s.dpcListed)
    case CallbackDone => s.(callback := Inactive)
    case PopDpc => s.(dpcListed := false, dpcRunning := s.dpcRunning + 1)
    case Release =>
      if s.releasing > 0 then DropRef(s.(releasing := s.releasing - 1)) else s
    case AddHandle => s.(handles := s.handles + 1, refs := s.refs + 1)
    case CloseHandle =>
      if s.handles > 1 then DropRef(s.(handles := s.handles - 1)) else s.(handles := 0, closer := Owes)
    case DropCloser => DropRef(s.(closer := Gone))
    case EnterCall => s.(calls := s.calls + 1, refs := s.refs + 1)
    case LeaveCall => if s.calls > 0 then DropRef(s.(calls := s.calls - 1)) else s
  }

  ghost predicate Next(s: State, s': State) {
    exists step :: Enabled(s, step) && s' == Apply(s, step)
  }

  function One(b: bool): nat {
    if b then 1 else 0
  }

  /** The places of a firing on its way to OnTimerFired(). */
  function DpcPending(s: State): nat {
    One(s.callback == BeforeDpc) + One(s.dpcListed) + s.dpcRunning
  }

  /** An operation in mid-flight that holds the extra reference itself. */
  predicate HolderHasRef(s: State) {
    match s.holder
    case Free => false
    case Canceling(_, canceled) => canceled
    case CancelFirst(op) => op != ZeroHandles
  }

  /** References of handles, system calls and the thread that closes the last handle. */
  function Users(s: State): nat {
    s.handles + s.calls + One(s.closer == Owes || s.closer == Called)
  }

  ghost predicate Inv(s: State) {
    && !s.panicked
    && s.refs == Users(s) + One(s.queued) + DpcPending(s) + One(HolderHasRef(s)) + s.releasing
    && One(s.queued) + DpcPending(s) + One(HolderHasRef(s)) <= 1
    && (s.queued ==> s.callback == Inactive && s.deadline != 0 && !s.cancelPending)
    && (s.callback == AfterDpc ==> s.dpcListed)
    && (s.cancelPending ==> DpcPending(s) == 1)
    && (s.holder == Free ==> (s.deadline != 0 || s.cancelPending <==> One(s.queued) + DpcPending(s) == 1))
    && (s.holder != Free ==> HolderInv(s))
    && (s.handles > 0 <==> s.closer == Nobody)
    && (s.destroyed <==> s.refs == 0)
    && (s.signaled ==> s.deadline == 0)
    && ((s.queued || DpcPending(s) == 1) && !s.cancelPending && s.holder == Free ==> s.armed == (s.deadline, s.epoch))
  }

  /** While the lock is held in timer_cancel(). */
  ghost predicate HolderInv(s: State)
    requires s.holder != Free
  {
    && !s.queued && !s.signaled
    && (match s.holder.op case Fired => true case ZeroHandles => s.closer == Called case _ => s.calls > 0)
    && match s.holder
       case Canceling(op, canceled) =>
         op != Fired && s.deadline == 0 && !s.cancelPending && (!canceled ==> DpcPending(s) == 1)
       case CancelFirst(op) =>
         && op != Cancel
         && (op == ZeroHandles ==> s.deadline == 0 && (s.cancelPending <==> DpcPending(s) == 1))
         && (op != ZeroHandles ==> s.deadline != 0 && !s.cancelPending)
  }

  /** Steps of the interrupt handler and the DPC list. */
  predicate Interrupt(step: Step) {
    step.Fire? || step.QueueDpc? || step.CallbackDone? || step.PopDpc?
  }

  lemma InterruptKeepsInv(s: State, step: Step)
    requires Inv(s) && Enabled(s, step) && Interrupt(step)
    ensures Inv(Apply(s, step))
  {
  }

  lemma HandleKeepsInv(s: State, step: Step)
    requires Inv(s) && Enabled(s, step) && (step.AddHandle? || step.CloseHandle? || step.DropCloser?)
    ensures Inv(Apply(s, step))
  {
  }

  lemma CallKeepsInv(s: State, step: Step)
    requires Inv(s) && Enabled(s, step) && (step.Release? || step.EnterCall? || step.LeaveCall?)
    ensures Inv(Apply(s, step))
  {
  }

  lemma FiredKeepsInv(s: State)
    requires Inv(s) && Enabled(s, Begin(Fired))
    ensures Inv(Apply(s, Begin(Fired)))
  {
  }

  lemma BeginKeepsInv(s: State, op: Op)
    requires Inv(s) && Enabled(s, Begin(op)) && op != Fired
    ensures Inv(Apply(s, Begin(op)))
  {
  }

  lemma EndCancelKeepsInv(s: State)
    requires Inv(s) && Enabled(s, EndCancel)
    ensures Inv(Apply(s, EndCancel))
  {
  }

  lemma StepKeepsInv(s: State, step: Step)
    requires Inv(s) && Enabled(s, step)
    ensures Inv(Apply(s, step))
  {
    if Interrupt(step) {
      InterruptKeepsInv(s, step);
    } else if step.EndCancel? {
      EndCancelKeepsInv(s);
    } else if step.Begin? {
      if step.op == Fired { FiredKeepsInv(s); } else { BeginKeepsInv(s, step.op); }
    } else if step.Release? || step.EnterCall? || step.LeaveCall? {
      CallKeepsInv(s, step);
    } else {
      HandleKeepsInv(s, step);
    }
  }

  lemma InvOnRuns(run: seq<State>, n: nat)
    requires Runs.IsRun(Init, Next, run) && n < |run|
    ensures Inv(run[n])
  {
    forall s, s' | Inv(s) && Next(s, s') ensures Inv(s') {
      var step :| Enabled(s, step) && s' == Apply(s, step);
      StepKeepsInv(s, step);
    }
    Runs.Invariant(Init, Next, Inv, run, n);
  }

  /** Whenever the lock is free, the reference taken by Set() is held exactly while the timer is
      queued or one firing is on its way to OnTimerFired(), never both; a pending cancellation
      means the latter. */
  lemma ExtraReference(run: seq<State>, n: nat)
    requires Runs.IsRun(Init, Next, run) && n < |run| && run[n].holder == Free
    ensures var s := run[n];
            && s.refs == Users(s) + s.releasing + One(s.queued || DpcPending(s) > 0)
            && One(s.queued) + DpcPending(s) <= 1
            && (s.cancelPending ==> DpcPending(s) == 1 && !s.queued)
            && (s.queued || DpcPending(s) > 0 <==> s.deadline != 0 || s.cancelPending)
  {
    InvOnRuns(run, n);
  }

  /** No run reaches a panic: timer_set() never finds the timer queued or active, Release() in
      CancelTimerLocked() never drops the last reference, and no DPC is lost. */
  lemma NeverPanics(run: seq<State>, n: nat)
    requires Runs.IsRun(Init, Next, run) && n < |run|
    ensures !run[n].panicked
  {
    InvOnRuns(run, n);
  }

  /** OnTimerFired() raises the signal exactly when no cancellation is pending, and then for the
      deadline that is still set, with no Set() or Cancel() since that timer was armed. */
  lemma OnlyTheLastSetSignals(run: seq<State>, n: nat)
    requires Runs.IsRun(Init, Next, run) && n < |run| && Enabled(run[n], Begin(Fired))
    ensures var s, s' := run[n], Apply(run[n], Begin(Fired));
            && (!s.cancelPending ==> s'.signaled && s.deadline != 0 && s.armed == (s.deadline, s.epoch))
            && (s.cancelPending ==> s'.signaled == s.signaled)
  {
    InvOnRuns(run, n);
  }

  /** The dispatcher is destroyed only after on_zero_handles() has returned, with no deadline set and
      nothing outstanding, the timer callback included: no thread, interrupt or DPC is left that
      could take a step on it. */
  lemma DestroyedQuietly(run: seq<State>, n: nat)
    requires Runs.IsRun(Init, Next, run) && n < |run| && run[n].destroyed
    ensures var s := run[n];
            && s.handles == 0 && s.calls == 0 && s.closer == Gone && s.releasing == 0
            && !s.queued && s.callback == Inactive && DpcPending(s) == 0
            && s.holder == Free && s.deadline == 0 && !s.cancelPending
    ensures forall step :: !Enabled(run[n], step)
  {
    InvOnRuns(run, n);
  }

  /** When on_zero_handles() returns, the timer is off every queue and its callback has ended. */
  lemma ZeroHandlesQuiesces(run: seq<State>, n: nat)
    requires Runs.IsRun(Init, Next, run) && n < |run| && Enabled(run[n], EndCancel)
    requires HolderOp(run[n]) == ZeroHandles
    ensures var s' := Apply(run[n], EndCancel);
            s'.holder == Free && !s'.queued && s'.callback == Inactive && s'.deadline == 0
  {
    InvOnRuns(run, n);
  }

  /** The wait in timer_cancel() ends by steps of the callback alone, which need no lock. */
  function FinishCallback(s: State): State {
    var s1 := if s.callback == BeforeDpc then Apply(s, QueueDpc) else s;
    if s1.callback == AfterDpc then Apply(s1, CallbackDone) else s1
  }

  lemma CancelTerminates(run: seq<State>, n: nat)
    requires Runs.IsRun(Init, Next, run) && n < |run| && run[n].holder != Free
    ensures !run[n].destroyed && Enabled(FinishCallback(run[n]), EndCancel)
    ensures FinishCallback(run[n]).holder == run[n].holder && Inv(FinishCallback(run[n]))
  {
    InvOnRuns(run, n);
  }

  // ---------- what Set() and Cancel() promise ----------

  /** Set(), Cancel() or on_zero_handles() is inside CancelTimerLocked(). */
  predicate InCancel(s: State) {
    s.holder.Canceling?
  }

  /** SetTimerLocked() waits for an old callback before it arms the timer again. */
  predicate Rearming(s: State) {
    s.holder.CancelFirst? && s.holder.op != ZeroHandles
  }

  /** What holds from an operation until the next call of Set(), Cancel() or on_zero_handles(). The
      operation itself may still be waiting. A deadline in the future is either set, with the timer
      queued for it, a firing on its way that signals or re-arms, or an operation about to arm it;
      or it has been signaled. A due deadline has been signaled. Without a deadline there is no
      signal, and none will come. */
  ghost predicate Promised(s: State, op: Op) {
    if InCancel(s) then s.holder.op == op && !s.signaled && s.deadline == 0 && !s.queued
    else
      match op
      case Set(d, due) =>
        if d == 0 || due then s.signaled && s.deadline == 0 && !s.queued
        else if s.signaled then s.deadline == 0 && !s.queued && s.armed == (d, s.epoch)
        else
          && s.deadline == d
          && (s.queued || DpcPending(s) == 1 || Rearming(s))
          && (s.queued || (DpcPending(s) == 1 && !s.cancelPending && !Rearming(s)) ==> s.armed == (d, s.epoch))
      case _ => !s.signaled && s.deadline == 0 && !s.queued
  }

  /** The step begins an operation of a client. */
  ghost predicate Begins(s: State, s': State, op: Op) {
    op != Fired && Enabled(s, Begin(op)) && s' == Apply(s, Begin(op))
  }

  lemma PromisedAtOnce(s: State, s': State, op: Op)
    requires Inv(s) && Begins(s, s', op)
    ensures Promised(s', op) && s'.epoch == s.epoch + 1
  {
  }

  lemma AfterCancelEpoch(s: State, op: Op, didCancel: bool)
    ensures AfterCancel(s, op, didCancel).epoch == s.epoch
  {
  }

  lemma BeginEpoch(s: State, op: Op)
    ensures BeginOp(s, op).epoch == if op == Fired then s.epoch else s.epoch + 1
  {
    if op != Fired {
      AfterCancelEpoch(s.(signaled := false, deadline := 0, epoch := s.epoch + 1, closer := if op == ZeroHandles then Called else s.closer), op, false);
    }
  }

  lemma EndEpoch(s: State)
    ensures FinishCancel(s).epoch == s.epoch
  {
    if s.holder.Canceling? {
      var s1 := if s.holder.canceled then DropRef(s).(panicked := s.panicked || s.refs <= 1) else s.(cancelPending := true);
      AfterCancelEpoch(s1, s.holder.op, true);
    }
  }

  /** Only a client's operation begins a new epoch. */
  lemma EpochStep(s: State, step: Step)
    requires Enabled(s, step)
    ensures Apply(s, step).epoch == if step.Begin? && step.op != Fired then s.epoch + 1 else s.epoch
  {
    if step.Begin? {
      BeginEpoch(s, step.op);
    } else if step.EndCancel? {
      EndEpoch(s);
    } else {
      OtherEpoch(s, step);
    }
  }

  lemma OtherEpoch(s: State, step: Step)
    requires !step.Begin? && !step.EndCancel?
    ensures Apply(s, step).epoch == s.epoch
  {
    match step
    case Release => DropRefEpoch(s.(releasing := if s.releasing > 0 then s.releasing - 1 else 0));
    case CloseHandle => DropRefEpoch(s.(handles := if s.handles > 0 then s.handles - 1 else 0));
    case DropCloser => DropRefEpoch(s.(closer := Gone));
    case LeaveCall => DropRefEpoch(s.(calls := if s.calls > 0 then s.calls - 1 else 0));
    case _ =>
  }

  lemma DropRefEpoch(s: State)
    ensures DropRef(s).epoch == s.epoch
  {
  }

  lemma PromisedInterrupt(s: State, step: Step, op: Op)
    requires Inv(s) && Enabled(s, step) && Interrupt(step) && Promised(s, op) && op != Fired
    ensures Promised(Apply(s, step), op)
  {
  }

  lemma PromisedCount(s: State, step: Step, op: Op)
    requires Inv(s) && Enabled(s, step) && !Interrupt(step) && !step.Begin? && !step.EndCancel? && Promised(s, op) && op != Fired
    ensures Promised(Apply(s, step), op)
  {
  }

  lemma PromisedFired(s: State, op: Op)
    requires Inv(s) && Enabled(s, Begin(Fired)) && Promised(s, op) && op != Fired
    ensures Promised(Apply(s, Begin(Fired)), op)
  {
  }

  lemma PromisedEnd(s: State, op: Op)
    requires Inv(s) && Enabled(s, EndCancel) && Promised(s, op) && op != Fired
    ensures Promised(Apply(s, EndCancel), op)
  {
  }

  lemma PromisedStep(s: State, step: Step, op: Op)
    requires Inv(s) && Enabled(s, step) && Promised(s, op) && op != Fired && Apply(s, step).epoch == s.epoch
    ensures Promised(Apply(s, step), op)
  {
    EpochStep(s, step);
    if Interrupt(step) {
      PromisedInterrupt(s, step, op);
    } else if step.Begin? {
      PromisedFired(s, op);
    } else if step.EndCancel? {
      PromisedEnd(s, op);
    } else {
      PromisedCount(s, step, op);
    }
  }

  ghost predicate StepsAt(run: seq<State>, i: nat) {
    i + 1 < |run| && Inv(run[i]) && Next(run[i], run[i + 1])
  }

  lemma {:induction false} PromisedLater(run: seq<State>, n: nat, m: nat, op: Op)
    requires n <= m < |run| && op != Fired && Promised(run[n], op)
    requires forall i :: n <= i < m ==> StepsAt(run, i)
    ensures run[m].epoch >= run[n].epoch && (run[m].epoch == run[n].epoch ==> Promised(run[m], op))
  {
    if n < m {
      PromisedLater(run, n, m - 1, op);
      assert StepsAt(run, m - 1);
      var step :| Enabled(run[m - 1], step) && run[m] == Apply(run[m - 1], step);
      EpochStep(run[m - 1], step);
      if run[m].epoch == run[n].epoch { PromisedStep(run[m - 1], step, op); }
    }
  }

  /** In every run, from the moment that Set(), Cancel() or on_zero_handles() has the lock until the
      next such call, the promise holds: a deadline is never forgotten and a cancelled one never
      signals. */
  lemma PromiseKept(run: seq<State>, n: nat, m: nat, op: Op)
    requires Runs.IsRun(Init, Next, run) && n < m < |run| && Begins(run[n], run[n + 1], op)
    requires run[m].epoch == run[n].epoch + 1
    ensures Promised(run[m], op)
  {
    InvOnRuns(run, n);
    PromisedAtOnce(run[n], run[n + 1], op);
    forall i | n + 1 <= i < m ensures StepsAt(run, i) {
      InvOnRuns(run, i);
      assert Next(run[i], run[i + 1]);
    }
    PromisedLater(run, n + 1, m, op);
  }

  /** A firing that finds a pending cancel and a deadline set meanwhile keeps the deadline, and the
      timer is armed for it when the old callback has ended; without a deadline it arms nothing. */
  lemma FiringRearms(run: seq<State>, n: nat)
    requires Runs.IsRun(Init, Next, run) && n < |run| && Enabled(run[n], Begin(Fired)) && run[n].cancelPending
    ensures var s, s' := run[n], Apply(run[n], Begin(Fired));
            && s'.deadline == s.deadline && s'.epoch == s.epoch && !s'.cancelPending && s'.signaled == s.signaled
            && (s.deadline == 0 ==> s'.holder == Free && !s'.queued && s'.releasing == s.releasing + 1)
            && (s.deadline != 0 ==>
                  && s'.holder == CancelFirst(Fired) && s'.releasing == s.releasing && Enabled(s', EndCancel)
                  && var e := Apply(s', EndCancel);
                  && e.queued && e.armed == (s.deadline, s.epoch) && e.deadline == s.deadline && e.holder == Free && !e.signaled)
  {
    InvOnRuns(run, n);
  }

  /** What the kernel does next by itself, without any client: the callback, the DPC and the operation
      that holds the lock go on; when nothing else is left the timer expires. */
  function KernelStep(s: State): Step {
    if s.callback == BeforeDpc then QueueDpc
    else if s.callback == AfterDpc then CallbackDone
    else if s.holder != Free then EndCancel
    else if s.dpcListed then PopDpc
    else if s.dpcRunning > 0 then Begin(Fired)
    else Fire
  }

  /** After k such steps the signal is raised, in the same epoch. */
  ghost predicate Signals(s: State, k: nat)
    decreases k
  {
    if k == 0 then s.signaled
    else
      && Enabled(s, KernelStep(s)) && Apply(s, KernelStep(s)).epoch == s.epoch
      && Signals(Apply(s, KernelStep(s)), k - 1)
  }

  /** A deadline is set, or a Set() is waiting that has one to set. */
  ghost predicate Awaited(s: State) {
    if s.holder.Canceling? then s.holder.op.Set? else s.deadline != 0
  }

  /** How far the callback and the DPC of a firing are. */
  function Remaining(s: State): nat {
    if s.callback == BeforeDpc then 4 else if s.callback == AfterDpc then 3 else if s.dpcListed then 2 else 1
  }

  /** The number of steps from a deadline to its signal, at most. */
  function Distance(s: State): nat {
    if s.holder.Canceling? then 8 + Remaining(s)
    else if s.holder != Free then 6
    else if s.queued then 5
    else Remaining(s) + if s.cancelPending then 6 else 0
  }

  lemma CloserToSignal(s: State)
    requires Inv(s) && Awaited(s)
    ensures var s' := Apply(s, KernelStep(s));
            && Enabled(s, KernelStep(s)) && (s'.signaled || (Awaited(s') && Distance(s') < Distance(s)))
  {
  }

  lemma {:induction false} AwaitedSignals(s: State) returns (k: nat)
    requires Inv(s) && Awaited(s)
    ensures 0 < k <= Distance(s) && Signals(s, k)
    decreases Distance(s)
  {
    CloserToSignal(s);
    EpochStep(s, KernelStep(s));
    StepKeepsInv(s, KernelStep(s));
    var s' := Apply(s, KernelStep(s));
    k := 1;
    if !s'.signaled {
      k := AwaitedSignals(s');
      k := k + 1;
    }
  }

  /** So every Set() is signaled, unless another call comes first: from any later state of its epoch
      at most twelve steps of the kernel, all possible, raise the signal. */
  lemma SetSignals(run: seq<State>, n: nat, m: nat, d: nat, due: bool) returns (k: nat)
    requires Runs.IsRun(Init, Next, run) && n < m < |run| && Begins(run[n], run[n + 1], Set(d, due))
    requires run[m].epoch == run[n].epoch + 1
    ensures k <= 12 && Signals(run[m], k)
  {
    PromiseKept(run, n, m, Set(d, due));
    InvOnRuns(run, m);
    k := 0;
    if !run[m].signaled { k := AwaitedSignals(run[m]); }
  }

  /** What a client can do: enter a call while there is a handle, and Set() or Cancel() in it whenever
      the lock is free, also before anything else has happened. */
  lemma ClientsCan(s: State, d: nat, due: bool)
    ensures s.handles > 0 ==> Enabled(s, EnterCall) && Apply(s, EnterCall).calls == s.calls + 1 && Enabled(s, CloseHandle)
    ensures s.calls > 0 && s.holder == Free ==> Enabled(s, Begin(Set(d, due))) && Enabled(s, Begin(Cancel)) && Enabled(s, LeaveCall)
    ensures s.handles == 1 ==> Apply(s, CloseHandle).handles == 0 && Apply(s, CloseHandle).closer == Owes
    ensures Init(s) ==> s.handles > 0 && s.holder == Free
  {
  }

  // ---------- the end of a dispatcher ----------

  /** What is left to do once no handle and no call is left: the callback and the operation that holds
      the lock go on, on_zero_handles() is called, and then the DPC and the references go. Only a
      Set() that came after on_zero_handles() is waited for. */
  function ClosingStep(s: State): Step {
    if s.callback == BeforeDpc then QueueDpc
    else if s.callback == AfterDpc then CallbackDone
    else if s.holder != Free then EndCancel
    else if s.closer == Owes then Begin(ZeroHandles)
    else if s.closer == Called then DropCloser
    else if s.dpcListed then PopDpc
    else if s.dpcRunning > 0 then Begin(Fired)
    else if s.queued then Fire
    else Release
  }

  ghost predicate Dies(s: State, k: nat)
    decreases k
  {
    if k == 0 then s.destroyed else Enabled(s, ClosingStep(s)) && Dies(Apply(s, ClosingStep(s)), k - 1)
  }

  function Left(s: State): nat {
    (if s.closer == Owes then 30 else if s.closer == Called then 15 else 0)
    + (if s.holder == Free then 0 else if s.holder.Canceling? then 12 else 7)
    + 6 * One(s.queued) + 10 * One(s.cancelPending)
    + (if s.callback == BeforeDpc then 5 else if s.callback == AfterDpc then 1 else 0)
    + 3 * One(s.dpcListed) + 2 * s.dpcRunning + s.releasing
  }

  lemma CloserToEnd(s: State)
    requires Inv(s) && s.handles == 0 && s.calls == 0 && !s.destroyed
    ensures var s' := Apply(s, ClosingStep(s));
            && Enabled(s, ClosingStep(s)) && s'.handles == 0 && s'.calls == 0 && Left(s') < Left(s)
  {
  }

  lemma {:induction false} ClosedDies(s: State) returns (k: nat)
    requires Inv(s) && s.handles == 0 && s.calls == 0
    ensures Dies(s, k)
    decreases Left(s)
  {
    k := 0;
    if !s.destroyed {
      CloserToEnd(s);
      StepKeepsInv(s, ClosingStep(s));
      k := ClosedDies(Apply(s, ClosingStep(s)));
      k := k + 1;
    }
  }

  /** No dispatcher leaks: once its last handle is closed and its calls have returned, finitely many
      further steps, all possible, destroy it. */
  lemma NoLeak(run: seq<State>, n: nat) returns (k: nat)
    requires Runs.IsRun(Init, Next, run) && n < |run| && run[n].handles == 0 && run[n].calls == 0
    ensures Dies(run[n], k)
  {
    InvOnRuns(run, n);
    k := ClosedDies(run[n]);
  }
}
