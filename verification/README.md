# Zircon kernel primitives in Dafny

A model of the blocking, timing, scheduling and inter-process primitives of the Zircon kernel, and
of the Internet checksum of its boot loader, with proofs of what they promise. `dafny verify
dfyconfig.toml` checks the whole project.

- **Futexes.** `FutexNode.dfy` and `FutexContext.dfy` keep the circular doubly linked wait lists and
  the table on the heap and tie every operation to the sequence functions of `FutexQueues.dfy`.
  `FutexProtocol.dfy` is the protocol between waiters, wakers, timeouts and kills.
- **Timers.** `Deadline.dfy` has the slack window, `Timer.dfy` the sorted queue of a CPU with its
  hardware deadline, `TimerCancel.dfy` the cancel protocol across CPUs, and `TimerDispatcher.dfy` the
  reference-counted dispatcher above it.
- **Mutex, wait queue, scheduler.** `Mutex.dfy` is the compare-and-swap lock with direct hand-off,
  `WaitQueue.dfy` the two-level wait list, `RunQueues.dfy` and `Sched.dfy` the run queues with their
  bitmap, CPU choice, priorities, migration and taking a CPU offline, and `History.dfy` what becomes
  of a thread's priority over any sequence of scheduling events.
- **Buffers.** `Channel.dfy` is call and reply matching on a channel pair, `MBuf.dfy` the buffer chain
  of a socket, `Fifo.dfy` the ring of the FIFO dispatcher.
- **Checksum.** `Checksum.dfy` has the ones' complement sum (RFC 1071, section 8.1 of RFC 8200,
  section 2.3 of RFC 4443), the senders and the receivers.

Concurrent code is a state machine. A section under a lock is one step, a lock-free
compare-and-swap is a step of its own, and `Runs.dfy` carries an invariant of all steps to all
states of all runs. `Lists.dfy` holds the few definitions that the modules share. Code that changes one object is a class whose methods are proved against
functions on sequences. Things outside the code are parameters: whether a copy to or from user
memory fails, whether memory runs out, the time, how long a thread has run, what a timer callback
does, whether a neighbour's hardware address is known.

Six properties that one might expect are false of the code. Each comes with the exact condition
under which it holds, and with a concrete case or the whole family of failing ones:

- A thread that used up its time slice should lose a level of boost down to the lowest priority.
  The floor has the wrong sign for base priorities below four (`DeboostFloor`, `DeboostStuck`).
- The affinity mask should be binding. A thread with no active permitted CPU is put on the current
  one (`FindCpu`, `OutsideAffinity`).
- A datagram read that is too short should discard the rest of its packet. Recycled buffers keep
  the length of a packet that they once began (`ShortRead`, `StaleLength`).
- Cancelling a timer in its own callback should stop it. If the callback has re-armed it before, it
  stays queued without a callback, and firing it is a panic unless the client cancels it first
  (`OwnCancelStops`, `OwnCancelOrphans`, `PanicNeedsOwnCancel`, `OwnCancelAfterRearm`).
- A channel call should be answered by a reply. Both ends count their transaction ids from zero, so
  the request of a call in the other direction is taken for the reply if the numbers of the two
  calls agree modulo 2^31 (`CrossedCalls`, `FirstCallsCross`).
- Taking a CPU offline should end. A thread that is not pinned to it and is permitted on no other
  active CPU is put back into the line that is being emptied, for ever (`NeverDrains`); without such
  a thread the loop ends (`TransitionOff`).

Three more promises hold only under a condition: an ICMPv6 message must come with a checksum field of
zero or all ones (`SealLaw`, `SealFails`); the nearest timer in the window is joined unless it lies
exactly at the window's end (`FitsClosest`, `PassedOver`); and after a tick the hardware timer is set for
exactly the next expiry unless a callback asked for an earlier time meanwhile (`Tick`).

Safety alone would be met by code that does nothing. Each protocol therefore also has laws of what its
operations achieve: a set timer is signaled (`SetSignals`), a free mutex is acquired and a waiter served
(`TryAcquires`, `ServesWaiter`, `NoDeadlock`), a wake wakes (`WakeLaw`), a message arrives and a reply is
returned (`WriteLaw`, `ReplyReturns`), a dispatcher does not leak (`NoLeak`).

The scheduler's contracts that choose a CPU take it as given that idle CPUs are active, which the
code asserts (kernel/kernel/sched.cpp:181).

## Model

| member | source | states |
|---|---|---|
| FutexQueues.RequeueLaw | kernel/object/futex_context.cpp:174-206 | wakes the first of the queue, moves the next ones behind the target's own waiters in order, keeps the rest in order, touches no other key, loses and duplicates nobody |
| FutexQueues.TakeConserves | kernel/object/futex_context.cpp:119-132 | waking takes exactly a prefix and leaves every other queue alone |
| FutexQueues.UnqueueConserves | kernel/object/futex_context.cpp:232-250 | unqueueing removes exactly one waiter |
| FutexProtocol.StepKeepsInv | kernel/object/futex_context.cpp:24-209 | every step of waits, wakes, requeues, timeouts and kills keeps the protocol invariant |
| FutexProtocol.WakesAreReturns | kernel/object/futex_context.cpp:45-99 | in every run a thread has been taken off a queue exactly as often as it returned ZX_OK, plus one while such a return is still to come |
| FutexProtocol.ReturnLaw | kernel/object/futex_context.cpp:63-99 | a waiter returns ZX_OK if and only if a wake took it, even if its deadline raced; one that returns an error was still queued and is then on no queue |
| FutexProtocol.WaitLaw | kernel/object/futex_context.cpp:24-63 | a thread that waits is last in the queue of its key, asleep unless blocking failed at once, and nobody else is disturbed |
| FutexProtocol.WakeLaw | kernel/object/futex_context.cpp:102-135 | a wake with all its steps takes exactly the first waiters of its key, in order; their waits return ZX_OK, and everybody else keeps place, key and sleep |
| FutexProtocol.WakeRequeueLaw | kernel/object/futex_context.cpp:137-209 | a requeue with all its steps wakes the first waiters, leaves the next ones asleep in order behind the waiters of the other key, under that key, and disturbs nobody else |
| FutexProtocol.ExpireLaw | kernel/object/futex_node.cpp:144-165 | a sleeper can be ended by an error at any time, keeps its place in the queue until it has the lock, and then leaves |
| FutexProtocol.ErrorLaw | kernel/object/futex_context.cpp:63-99 | in every run the error that a wait returns is the one that ended its sleep, with nothing since, and it is returned if and only if no wake took the thread |
| FutexProtocol.SleepersAreReachable | kernel/object/futex_node.cpp:144-185 | a sleeping thread is on the queue of its key or about to be woken, and no waker touches a freed node |
| FutexProtocol.DrainReleases | kernel/object/futex_node.cpp:73-102 | once the waker has finished, everybody it took is awake and returns ZX_OK |
| FutexNodes.FutexNode.SetAsSingletonList | kernel/object/futex_node.cpp:30-34 | a node alone is a ring of one |
| FutexNodes.FutexNode.WakeThread | kernel/object/futex_node.cpp:167-185 | the node is off every list, and a sleeper wakes with success while one already awake keeps its result |
| FutexNodes.SpliceNodes | kernel/object/futex_node.cpp:198-203 | the same four link changes join two rings or cut one ring in two |
| FutexNodes.SpliceTwice | kernel/object/futex_node.cpp:198-203 | splicing is its own inverse: every link of every node is back |
| FutexNodes.RemoveNodeFromList | kernel/object/futex_node.cpp:42-62 | the ring without one node, in order, headed as it should be, or null when it has become empty |
| FutexNodes.WakeThreads | kernel/object/futex_node.cpp:73-102 | the first nodes are unlinked, lose their key and are woken, the rest is a well-formed ring in order, headed by the result |
| FutexNodes.RemoveFromHead | kernel/object/futex_node.cpp:114-139 | splits a ring into a re-keyed ring of the first nodes and a ring of the rest |
| FutexContexts.FutexContext.QueueNodesLocked | kernel/object/futex_context.cpp:216-227 | a list off the table is appended to its key's queue, and the table stays a set of disjoint well-formed rings under their own keys |
| FutexContexts.FutexContext.UnqueueNodeLocked | kernel/object/futex_context.cpp:232-250 | finds the node if and only if it is still queued, under the key it has now, and removes it from that queue only |
| FutexContexts.FutexContext.FutexWake | kernel/object/futex_context.cpp:102-135 | queues change as waking a prefix says, exactly those waiters wake, and the heap structure stays valid |
| FutexContexts.FutexContext.FutexRequeue | kernel/object/futex_context.cpp:137-209 | each of the four answers is given if and only if its condition on value, owner, keys and counts holds; queues change as the requeue law says, errors change nothing, and the heap structure stays valid |
| FutexContexts.FutexContext.FutexWaitEnter | kernel/object/futex_context.cpp:24-63 | each error has its cause and queues nothing; otherwise a new node is last in its key's queue |
| FutexContexts.FutexContext.FutexWaitLeave | kernel/object/futex_context.cpp:63-100 | success if and only if the node was no longer queued; an error return takes it off |
| TimerDispatcherProtocol.StepKeepsInv | kernel/object/timer_dispatcher.cpp:66-189 | every interleaving of handles, system calls, Set, Cancel, on_zero_handles, interrupt and DPC keeps the invariant |
| TimerDispatcherProtocol.ExtraReference | kernel/object/timer_dispatcher.cpp:129-157 | whenever the lock is free the extra reference is held if and only if the timer is armed or one firing is pending, never both; a pending cancel means the latter |
| TimerDispatcherProtocol.NeverPanics | kernel/object/timer_dispatcher.cpp:121-157 | in no run is a queued timer set again, the last reference dropped under the lock, or a DPC lost |
| TimerDispatcherProtocol.OnlyTheLastSetSignals | kernel/object/timer_dispatcher.cpp:159-189 | a firing raises the signal if and only if no cancel is pending, and then for the last deadline set |
| TimerDispatcherProtocol.PromiseKept | kernel/object/timer_dispatcher.cpp:78-189 | in every run, from a Set, Cancel or on_zero_handles until the next: a future deadline is set and queued, on its way, about to be armed, or has been signaled; a due one has been signaled; a cancelled one never signals |
| TimerDispatcherProtocol.FiringRearms | kernel/object/timer_dispatcher.cpp:159-177 | a firing that finds a pending cancel arms the timer for a deadline set meanwhile, and arms nothing without one |
| TimerDispatcherProtocol.SetSignals | kernel/object/timer_dispatcher.cpp:78-189 | from any later state of its epoch at most twelve kernel steps, all possible, signal a Set |
| TimerDispatcherProtocol.NoLeak | kernel/object/timer_dispatcher.cpp:62-76 | once handles and calls are gone finitely many steps, all possible, destroy the dispatcher |
| TimerDispatcherProtocol.ClientsCan | kernel/object/timer_dispatcher.cpp:78-127 | a client with a handle can enter a call, and in it can set and cancel whenever the lock is free |
| TimerDispatcherProtocol.DestroyedQuietly | kernel/object/timer_dispatcher.cpp:62-76 | destruction comes after on_zero_handles, with no deadline, no handle, no call, no DPC and no running callback left: nothing can take a further step on the object |
| TimerDispatcherProtocol.ZeroHandlesQuiesces | kernel/object/timer_dispatcher.cpp:66-76 | when the last handle is gone the timer is on no queue and its callback has ended |
| TimerDispatcherProtocol.CancelTerminates | kernel/object/timer_dispatcher.cpp:129-157 | a cancel that waits for the callback is released by the callback's own steps, which need no lock |
| TimerCancelProtocol.CancelQuiesces | kernel/kernel/timer.cpp:268-334 | from the moment the cancel releases its lock no queue holds the timer and a re-arming callback is refused; when it returns the timer is active nowhere |
| TimerCancelProtocol.StaysQuiet | kernel/kernel/timer.cpp:215-229 | until the client's next set nothing queues or fires the timer, over any stretch of any run |
| TimerCancelProtocol.ArmingsBalance | kernel/kernel/timer.cpp:376-399 | every arming ends once, by firing or by a cancel that dequeued it |
| TimerCancelProtocol.SetFires | kernel/kernel/timer.cpp:193-241 | a client with nothing pending can set the timer; it is queued, survives a move to another CPU, and fires there once |
| TimerCancelProtocol.RearmFires | kernel/kernel/timer.cpp:215-229 | a callback that re-arms its timer gets it queued on its CPU and fired again, unless it was cancelled |
| TimerCancelProtocol.CancelReturns | kernel/kernel/timer.cpp:268-334 | a cancel can begin at any time and ends as soon as a running callback has |
| TimerCancelProtocol.CancelAnswer | kernel/kernel/timer.cpp:289-334 | the answer of a cancel is true if and only if it took the timer off a queue |
| TimerCancelProtocol.OwnCancelStops | kernel/kernel/timer.cpp:268-334 | after a cancel by the callback of a timer that it has not re-armed, the timer is in no later state queued or fired until the client's next set, whatever else happens |
| TimerCancelProtocol.OwnCancelOrphans | kernel/kernel/timer.cpp:268-334 | after a cancel by the callback of a timer that it has re-armed, the timer stays queued with no callback and its next firing panics, until the client cancels it |
| TimerCancelProtocol.OrphanFires | kernel/kernel/timer.cpp:359-399 | such a timer does fire: at most the callback's return stands between it and the panic |
| TimerCancelProtocol.PanicNeedsOwnCancel | kernel/kernel/timer.cpp:193-399 | every panic has that cause: a cancel by the callback after a re-arm, with no cancel by the client since |
| TimerCancelProtocol.OwnCancelAfterRearm | kernel/kernel/timer.cpp:193-241 | a run in which that happens |
| MutexProtocol.StepKeepsInv | kernel/kernel/mutex.cpp:53-197 | every step of any number of threads keeps the invariant of word, queue and program counters |
| MutexProtocol.MutualExclusion | kernel/kernel/mutex.cpp:53-111 | in every run at most one thread owns the mutex, and the word names it |
| MutexProtocol.TryAcquires | kernel/kernel/mutex.cpp:61-67 | in every run a try at a free mutex succeeds at once, and a try at a held one changes nothing |
| MutexProtocol.AloneAcquires | kernel/kernel/mutex.cpp:53-140 | a thread that comes to a free mutex holds it after two steps of its own and has released it after two more |
| MutexProtocol.RetryNeedsChange | kernel/kernel/mutex.cpp:75-92 | over any stretch of any run in which the mutex stays with one holder, a thread that found it held goes to sleep and does not try again |
| MutexProtocol.FallsAsleep | kernel/kernel/mutex.cpp:75-101 | with the thread lock free such a thread is asleep after four steps, last in the queue, with the flag set |
| MutexProtocol.ServesWaiter | kernel/kernel/mutex.cpp:114-197 | a holder with waiters hands over in six steps: the first waiter is awake and owns the mutex, the others wait behind it in order |
| MutexProtocol.NoDeadlock | kernel/kernel/mutex.cpp:53-197 | in every reachable state with a thread in the mutex some such thread can take a step |
| MutexProtocol.HolderAndWaiter | kernel/kernel/mutex.cpp:53-111 | a run in which one thread holds the mutex and another sleeps behind it |
| MutexProtocol.FlagLaw | kernel/kernel/mutex.cpp:75-110 | whenever the thread lock is free the flag is set if and only if somebody waits, all waiters are asleep in the queue, and an owner exists that will see the flag |
| MutexProtocol.NeverPanics | kernel/kernel/mutex.cpp:114-197 | a slow release finds a waiter, its exchange succeeds, and the woken thread owns the mutex |
| MutexProtocol.HandOff | kernel/kernel/mutex.cpp:122-197 | with a waiter present the mutex goes from the releaser to one waiter without ever being free |
| Deadlines.SaturateClamps | system/public/zircon/time.h:22-56 | judging an overflow by the sign of the wrapped sum clamps to the nearer end of time |
| Deadlines.WindowLaw | kernel/kernel/deadline.cpp:10-34 | the window contains the deadline, lies within the slack, has none on the side that the mode forbids, and is cut short only where time ends |
| Timers.FitsCoalesces | kernel/kernel/timer.cpp:78-191 | a new timer joins another if and only if one lies in its window |
| Timers.FitsNearest | kernel/kernel/timer.cpp:140-182 | no timer in the window before its end is nearer than the one joined |
| Timers.FitsClosest | kernel/kernel/timer.cpp:140-182 | the nearest timer is joined if and only if no nearer one lies exactly at the window's end |
| Timers.PassedOver | kernel/kernel/timer.cpp:153-168 | a queue in which the nearer timer is passed over |
| Timers.PerCpu.FindPlace | kernel/kernel/timer.cpp:78-191 | the walk along the sorted queue finds the place, time and slack that these laws describe |
| Timers.PerCpu.Insert | kernel/kernel/timer.cpp:78-191 | the queue stays sorted, no existing timer changes, and the new one is within its window, coalesced and nearest as above |
| Timers.PerCpu.Set | kernel/kernel/timer.cpp:193-241 | exactly one timer is added, within its window, and no expiry can be missed |
| Timers.PerCpu.PreemptReset | kernel/kernel/timer.cpp:243-253 | the preemption deadline is covered by the hardware deadline |
| Timers.PerCpu.PreemptCancel | kernel/kernel/timer.cpp:255-266 | no expiry can be missed afterwards |
| Timers.PerCpu.Cancel | kernel/kernel/timer.cpp:292-317 | exactly one timer leaves its owner's queue, and no expiry can be missed on either CPU |
| Timers.PerCpu.Tick | kernel/kernel/timer.cpp:337-420 | every timer that was due and that no callback cancelled fires, every one that was not due and not cancelled is still queued, nothing fires early or comes from nowhere, arms and cancels account for all the rest; the hardware deadline is exactly the next expiry if and only if no callback asked for an earlier time |
| Timers.PerCpu.FireDue | kernel/kernel/timer.cpp:359-399 | the firing loop does the same to the queue; with callbacks that set and cancel nothing the old queue is what fired followed by the new one |
| Timers.PerCpu.TransitionOff | kernel/kernel/timer.cpp:438-466 | the queue is a sorted permutation of both, with every time unchanged, and no expiry can be missed |
| Timers.PerCpu.Thaw | kernel/kernel/timer.cpp:468-488 | the hardware deadline is exactly the earlier of the queue head and the preemption timer |
| WaitQueues.InsertFlatSplits | kernel/kernel/wait.cpp:90-118 | the flat queue's insertion goes behind everybody of at least the same priority and before everybody else, and keeps the order by priority |
| WaitQueues.InsertThenRemove | kernel/kernel/wait.cpp:90-161 | removing what was inserted gives the old queue back |
| WaitQueues.OrderedByPriority | kernel/kernel/wait.cpp:56-87 | the two levels stand for a queue by priority |
| WaitQueues.InsertRefines | kernel/kernel/wait.cpp:90-118 | insertion on the two levels is the flat insertion |
| WaitQueues.RemoveRefines | kernel/kernel/wait.cpp:122-161 | removal of any thread, with promotion of a new head, is the flat removal |
| WaitQueues.RemoveKeepsLevels | kernel/kernel/wait.cpp:153-161 | removal keeps the levels even if the thread's own priority has just changed |
| WaitQueues.WaitQueue.Insert | kernel/kernel/wait.cpp:90-118 | the walk over the heads performs the flat insertion |
| WaitQueues.WaitQueue.RemoveQueueHead | kernel/kernel/wait.cpp:122-136 | a head leaves and the next thread of its priority takes its place |
| WaitQueues.WaitQueue.RemoveThread | kernel/kernel/wait.cpp:153-161 | exactly one thread leaves the flat queue, the others keeping their order |
| WaitQueues.WaitQueue.PopHead | kernel/kernel/wait.cpp:139-150 | the first thread of the flat queue leaves |
| WaitQueues.WaitQueue.BlockedPriority | kernel/kernel/wait.cpp:164-171 | the highest priority of all that wait, or -1 |
| WaitQueues.WaitQueue.Block | kernel/kernel/wait.cpp:218-254 | an early return changes nothing; otherwise the thread is queued as the flat insertion says and counted |
| WaitQueues.WaitQueue.DequeueOne | kernel/kernel/wait.cpp:310-364 | the first thread, if there is one, with the given status, and nobody else |
| WaitQueues.WaitQueue.WakeAll | kernel/kernel/wait.cpp:380-425 | everybody, in the flat queue's order, each once, with the given status, and the count is zero |
| WaitQueues.WaitQueue.UnblockThread | kernel/kernel/wait.cpp:466-493 | one particular thread if it is blocked, an error that changes nothing otherwise |
| WaitQueues.WaitQueue.PriorityChanged | kernel/kernel/wait.cpp:495-519 | the thread goes behind all others of its new priority, the others keep their order, and the count stays |
| RunQueues.BoostLaw | kernel/kernel/sched.cpp:54-80 | one level more, up to four above the base and the highest priority, for ordinary threads only, with the effective priority in range |
| RunQueues.DeboostLaw | kernel/kernel/sched.cpp:85-117 | one level less, down to no boost, or to four below the base on quantum expiry, with the effective priority in range |
| RunQueues.DeboostFloor | kernel/kernel/sched.cpp:95-117 | on quantum expiry the boost drops exactly when it should if and only if the base priority is at least four, or the boost is above the base or not above its negative |
| RunQueues.DeboostStuck | kernel/kernel/sched.cpp:95-117 | a thread whose boost should drop and does not |
| RunQueues.Queueing | kernel/kernel/sched.cpp:211-229 | queueing a ready thread at its own CPU and priority gives a state in which every ready thread is on exactly one list, its own, and the bitmap shows the lists in use |
| RunQueues.Unqueueing | kernel/kernel/sched.cpp:232-243 | taking a thread off keeps that for all others |
| RunQueues.TailRefines | kernel/kernel/sched.cpp:221-229 | the tail of a list is the back of that priority in the CPU's line |
| RunQueues.HeadRefines | kernel/kernel/sched.cpp:211-219 | the head of a list is the front of that priority in the CPU's line |
| RunQueues.BehindPlace | kernel/kernel/sched.cpp:221-229 | the back of a priority is behind everybody of at least that priority and before everybody else |
| RunQueues.FrontPlace | kernel/kernel/sched.cpp:211-219 | the front of a priority is behind everybody above it and before everybody else |
| RunQueues.TopRefines | kernel/kernel/sched.cpp:246-278 | the head of the highest list in use is the head of the CPU's line |
| RunQueues.ListOfLine | kernel/kernel/sched.cpp:246-278 | the line of a CPU determines each of its lists |
| RunQueues.LineMembers | kernel/kernel/sched.cpp:303-324 | a thread is in a CPU's line if and only if it is ready there and not an idle thread |
| Schedulers.Scheduler.InitThread | kernel/kernel/sched.cpp:280-285 | a new thread has its base priority as effective priority, is in no line, and all invariants hold |
| Schedulers.Scheduler.RandCpu | kernel/kernel/sched.cpp:120-148 | the rotation ends at the next active CPU of the mask, going round |
| Schedulers.Scheduler.FindCpu | kernel/kernel/sched.cpp:151-208 | an idle permitted CPU if there is one, the current and the last one first; the current one last otherwise; a permitted CPU if and only if the current one or an active one is permitted; no CPU only if an idle one is not active |
| Schedulers.OutsideAffinity | kernel/kernel/sched.cpp:190-203 | a thread that is put on a CPU outside its affinity |
| Schedulers.Scheduler.InsertHead | kernel/kernel/sched.cpp:211-219 | the thread is at the front of its priority in the CPU's line, all other lines are as before, and bitmap and lists agree |
| Schedulers.Scheduler.InsertTail | kernel/kernel/sched.cpp:221-229 | the thread is at the back of its priority in the CPU's line, all other lines are as before, and bitmap and lists agree |
| Schedulers.Scheduler.RemoveFromRunQueue | kernel/kernel/sched.cpp:232-243 | the thread leaves its CPU's line even after its priority has changed |
| Schedulers.Scheduler.GetTopThread | kernel/kernel/sched.cpp:251-278 | the first of the CPU's line, taken off, or the idle thread if and only if the line is empty |
| Schedulers.Scheduler.FindCpuAndInsert | kernel/kernel/sched.cpp:303-324 | the thread is in the chosen CPU's line, at the front of its priority if it has time left, and in no other |
| Schedulers.QueuedPlace | kernel/kernel/sched.cpp:318-323 | in a line by priority a thread joins before its equals if it has time left and behind them if not |
| Schedulers.SwitchLaw | kernel/kernel/sched.cpp:775-895 | after a switch each CPU runs one thread, no thread runs on two, and the run queues are sound |
| Schedulers.SwitchKeeps | kernel/kernel/sched.cpp:775-895 | a switch changes no priority |
| Schedulers.Scheduler.Resched | kernel/kernel/sched.cpp:775-895 | the first of the line runs next, or the idle thread; a thread that starts to run has time left; the CPU is marked idle if and only if it switches to its idle thread; all invariants hold |
| Schedulers.SwitchCharges | kernel/kernel/sched.cpp:811-826 | a switch charges the old thread for its time and takes its CPU away unless it is ready, records the CPU and gives a quantum to the new one, and changes nothing else |
| Schedulers.Scheduler.PutBack | kernel/kernel/sched.cpp:489-551 | the current thread goes back into a line that is permitted to it, and the first of this CPU's line runs |
| Schedulers.Scheduler.Block | kernel/kernel/sched.cpp:287-299 | a thread that blocks, sleeps, is suspended or dies is in no line and the first of the line runs |
| Schedulers.Scheduler.Unblock | kernel/kernel/sched.cpp:326-347 | the thread is boosted, ready, and in the chosen CPU's line only |
| Schedulers.Scheduler.UnblockList | kernel/kernel/sched.cpp:349-376 | every listed thread is boosted and ready, permitted where it is if it can be; each line is the old one with its new members inserted last first; no other thread changes |
| Schedulers.JoinedLast | kernel/kernel/sched.cpp:357-367 | the last thread of the list joins its line before all the others do |
| Schedulers.Scheduler.Yield | kernel/kernel/sched.cpp:394-414 | the thread has no time left, loses a level of boost if it has any, and is in the line behind everybody of at least its new priority and before everybody else; with such a thread in the line its old head runs |
| Schedulers.Scheduler.Preempt | kernel/kernel/sched.cpp:417-448 | with time left the thread keeps its level and is in front of its equals, otherwise it is deboosted and behind them, and the head of the line runs; an idle thread is not queued |
| Schedulers.Scheduler.Reschedule | kernel/kernel/sched.cpp:451-486 | the thread loses a level of boost if it has any, keeps its time, is in front of its equals if it has any time and behind them if not, and the head of the line runs; nothing at all happens if preemption is disabled |
| Schedulers.Scheduler.MigrateReady | kernel/kernel/sched.cpp:579-591 | a ready thread leaves one line and joins the chosen one, no other line changes |
| Schedulers.Scheduler.Migrate | kernel/kernel/sched.cpp:555-604 | a thread that may stay stays; one running elsewhere causes an interrupt there; one running here goes to a permitted line and the first of this line runs; a ready one moves between lines, after which its new CPU is interrupted or, if it is this one, reschedules |
| Schedulers.Scheduler.PriorityChanged | kernel/kernel/sched.cpp:608-656 | a ready thread moves to the front of its new priority if it rose, to the back if it fell, and exactly the CPU of a running thread that fell or a ready one that rose must reschedule |
| Schedulers.InheritLaw | kernel/kernel/sched.cpp:660-677 | inheriting raises the effective priority to the larger of the two, ending it restores the adjusted base, in range |
| Schedulers.Scheduler.InheritPriority | kernel/kernel/sched.cpp:660-689 | the thread's place follows its effective priority, nobody else moves, and the right CPU must reschedule |
| Schedulers.Scheduler.Rebase | kernel/kernel/sched.cpp:694-719 | new base, no boost, and the thread's place follows its effective priority |
| Schedulers.Scheduler.ChangePriority | kernel/kernel/sched.cpp:694-728 | the effective priority is the larger of the new base, cut at the highest, and the inherited one; lines, other threads and interrupts are those of taking the new place and then, if asked, of a reschedule; a dead thread is left alone |
| Schedulers.Scheduler.DrainLine | kernel/kernel/sched.cpp:505-527 | the draining loop ends with an empty line, the pinned threads on the list last first, everybody else on another CPU |
| Schedulers.Scheduler.PutPinned | kernel/kernel/sched.cpp:529-532 | returning them one by one to the front restores their order |
| Schedulers.Scheduler.TransitionOff | kernel/kernel/sched.cpp:505-537 | pinned threads stay in the line in their order, every other thread of it is in the line of exactly one other active permitted CPU, and nobody else is disturbed |
| Schedulers.Scheduler.NeverDrains | kernel/kernel/sched.cpp:517-527 | with a thread in the line that is not pinned and permitted on no active CPU, the line is not empty after any number of rounds |
| ThreadHistories.AlwaysInRange | kernel/kernel/sched.cpp:54-117 | after any sequence of wakeups, yields, ticks, preemptions, reschedules, switches, inheritances and new bases the effective priority is in range and the larger of adjusted base and inherited one, and the slice is bounded |
| ThreadHistories.StaysNearBase | kernel/kernel/sched.cpp:65-117 | while nobody sets priorities, the effective priority of a thread that inherits nothing stays within four levels of its base, does not sink below a base under four unless its boost was negative, and does not move at all for real-time and idle threads |
| ThreadHistories.WornDown | kernel/kernel/sched.cpp:417-448 | a thread that uses up k whole quanta loses k levels of boost, down to exactly the floor that the code has |
| ThreadHistories.BuiltUp | kernel/kernel/sched.cpp:326-347 | a thread that is woken k times gains k levels, up to exactly the ceiling |
| ChannelProtocol.AllocTxid | kernel/object/channel_dispatcher.cpp:247-260 | the loop ends and gives the first candidate after the counter, across its wrap, that is not in use, with the top bit set |
| ChannelProtocol.TriedAreDifferent | kernel/object/channel_dispatcher.cpp:247-260 | up to 2^31 candidates in a row are different |
| ChannelProtocol.StepKeepsInv | kernel/object/channel_dispatcher.cpp:112-404 | every write, read, call step, destruction of a waiter and close keeps the invariant of both endpoints |
| ChannelProtocol.StepKeepsTraced | kernel/object/channel_dispatcher.cpp:262-404 | every step keeps the account of delivered messages: each is held by one call or was handed out once |
| ChannelProtocol.WaitersLaw | kernel/object/channel_dispatcher.cpp:362-404 | waiting transaction ids are different with the top bit set, and a call is listed if and only if its status is still timed out |
| ChannelProtocol.CallResult | kernel/object/channel_dispatcher.cpp:262-320 | a call ends with the first message since it began that carries its id, or with a cancel status after a close, or with a timeout and no such message, and is then on no list |
| ChannelProtocol.MessagesConserved | kernel/object/channel_dispatcher.cpp:322-347 | what was written and went to no call is what was read so far followed by the queue, in order, and count and signal agree |
| ChannelProtocol.WriteLaw | kernel/object/channel_dispatcher.cpp:199-218 | a write by one end leaves that end alone and arrives at the other: at the waiting call with its transaction id if there is one, last in the queue otherwise, and no other call changes |
| ChannelProtocol.CallLaw | kernel/object/channel_dispatcher.cpp:220-272 | a call waits last at its own end under a transaction id that no other call there has, and its request arrives at the other end with that id |
| ChannelProtocol.ReplyReturns | kernel/object/channel_dispatcher.cpp:283-347 | a reply written with the transaction id of a waiting call is what that call returns |
| ChannelProtocol.CallsCanEnd | kernel/object/channel_dispatcher.cpp:283-320 | a call in progress can always come to its end |
| ChannelProtocol.CloseLaw | kernel/object/channel_dispatcher.cpp:120-162 | closing an end cancels the calls that wait at it, ends those at the other end with peer closed, and leaves what was written to be read |
| ChannelProtocol.AbortCause | kernel/object/channel_dispatcher.cpp:120-162 | in every run a call has status canceled only after its own end, and peer closed only after the other end, was closed while it waited |
| ChannelProtocol.DeliveredOnce | kernel/object/channel_dispatcher.cpp:322-404 | what was written and went to a call is in exactly one place: returned by that call, lost with a caller that was destroyed while suspended, or still held by the call, unchanged |
| ChannelProtocol.CrossedCalls | kernel/object/channel_dispatcher.cpp:233-347 | the request of a new call is delivered to a waiting call of the other end if and only if the numbers of the two calls agree modulo 2^31 |
| ChannelProtocol.FirstCallsCross | kernel/object/channel_dispatcher.cpp:233-347 | a run in which the first calls of the two ends cross |
| MBufs.MBufChain.AllocMBuf | kernel/object/mbuf.cpp:184-191 | a free buffer first, a new one if memory allows, and it is on no list |
| MBufs.MBufChain.FreeMBuf | kernel/object/mbuf.cpp:193-197 | the buffer is empty and free but keeps its packet length |
| MBufs.MBufChain.WriteStream | kernel/object/mbuf.cpp:146-182 | appends a prefix to the byte queue, all that fits if nothing fails, and never exceeds the bound |
| MBufs.MBufChain.ReadStream | kernel/object/mbuf.cpp:45-93 | returns and removes a prefix of the byte queue, all that was asked for and is there if no copy fails |
| MBufs.MBufChain.Peek | kernel/object/mbuf.cpp:40-93 | returns the same prefix and changes nothing |
| MBufs.MBufChain.ReadDatagram | kernel/object/mbuf.cpp:45-93 | exactly which bytes are returned and which buffers remain, from any state; after a copy fault exactly the copied bytes are gone; no buffer is lost |
| MBufs.MBufChain.WriteDatagram | kernel/object/mbuf.cpp:95-144 | the whole packet behind all others or nothing in the chain changes; an empty packet or a failed copy, one that is too long, and no room or memory each have their own error |
| MBufs.WholeRead | kernel/object/mbuf.cpp:50-91 | a read with room for the packet takes its buffers and nothing else, whatever buffers were recycled |
| MBufs.ShortRead | kernel/object/mbuf.cpp:79-91 | a short read leaves exactly the later packets if and only if every buffer it did not copy from has a packet length of zero |
| MBufs.StaleLength | kernel/object/mbuf.cpp:193-197 | a sequence of writes and reads after which a packet that nobody wrote is left |
| MBufs.MBufChain.Send | kernel/object/mbuf.cpp:95-144 | the queue of packets gains the packet at its end, or nothing |
| MBufs.MBufChain.Receive | kernel/object/mbuf.cpp:45-93 | the first packet is returned whole and leaves the queue of packets |
| Fifos.OnlyPowers | kernel/object/fifo_dispatcher.cpp:19-23 | the bit test accepts exactly the powers of two |
| Fifos.MaskIsMod | kernel/object/fifo_dispatcher.cpp:127-130 | masking a counter is its remainder by the ring size |
| Fifos.WrapKeepsPlace | kernel/object/fifo_dispatcher.cpp:143-146 | a counter's place in the ring survives its 32-bit wrap |
| Fifos.RingGrows | kernel/object/fifo_dispatcher.cpp:126-148 | elements written behind the queue join it and touch nothing in it |
| Fifos.RingShrinks | kernel/object/fifo_dispatcher.cpp:187-209 | moving the tail counter takes elements off the front |
| Fifos.FifoDispatcher.Create | kernel/object/fifo_dispatcher.cpp:12-56 | a pair of empty ends if memory allows, refused exactly for sizes that are zero, not a power of two, or too large |
| Fifos.FifoDispatcher.WriteSelf | kernel/object/fifo_dispatcher.cpp:103-160 | appends as many elements as fit, for ever across counter wraps; a failed copy, also a second one, leaves the queue as it was; the signals stay exact |
| Fifos.FifoDispatcher.WriteFromUser | kernel/object/fifo_dispatcher.cpp:92-101 | the other end's queue grows by all that fits, or each error has its cause and nothing happens: closed peer, wrong size or nothing to write, full, failed copy |
| Fifos.FifoDispatcher.ReadToUser | kernel/object/fifo_dispatcher.cpp:162-221 | takes a prefix; a failed copy takes nothing; empty means wait if the peer is open and peer closed if not, and nothing else does; readable if and only if not empty, the open peer writable if and only if not full |
| Fifos.FifoDispatcher.OnZeroHandles | kernel/object/include/object/dispatcher.h:350-363 | the other end is no longer writable and can still read what is left |
| Checksums.FoldIsOnesSum | bootloader/src/inet6.c:137-151 | adding all words and folding once at the end is the sum with end-around carries |
| Checksums.ChainedSums | bootloader/src/inet6.c:169-172 | sums split at an even offset chain to one sum |
| Checksums.Checksum | bootloader/src/inet6.c:137-151 | the ones' complement sum for every length up to 131072 bytes, odd ones included, with no overflow of the 32-bit accumulator |
| Checksums.Ip6Checksum | bootloader/src/inet6.c:166-180 | the complement of the sum over pseudo-header and payload |
| Checksums.SealLaw | bootloader/src/inet6.c:166-180 | the stored checksum is never zero, and the receiver's test passes if and only if the field held zero or all ones when the sum was taken |
| Checksums.SealFails | bootloader/src/inet6.c:255-257 | a message that is rejected |
| Checksums.Udp6Send | bootloader/src/inet6.c:207-235 | every UDP packet that is sent passes the test, for every payload length, and carries its fields and payload |
| Checksums.Icmp6Send | bootloader/src/inet6.c:239-263 | an ICMPv6 packet passes if and only if its checksum field was given as zero or all ones; a message that ends before its checksum field is sent with as much of the checksum as fits |
| Checksums.TestSum | bootloader/src/inet6.c:307-319 | the receivers' test accepts exactly the packets that pass, and none with a checksum of zero |
| Checksums.Udp6Recv | bootloader/src/inet6.c:265-305 | a packet is taken if and only if it has a header, passes and its length field fits, and its payload is what that field says |
| Checksums.UdpRoundTrip | bootloader/src/inet6.c:207-305 | what is sent over UDP is received, for all addresses, ports and payloads |

## Left out

- Reader-writer locks, semaphores and port wake-ups (kernel/kernel/brwlock.cpp, kernel/kernel/semaphore.cpp, kernel/object/port_dispatcher.cpp): not modelled.
- The order of priority inheritance between a mutex holder and its waiters: only the range of effective priorities is stated, because later deboosts and the hand-off do not keep an order.
- MutexProtocol: which waiter a release picks is left open (the wait queue has its own model), and the count of mutexes held is not part of the state.
- TimerDispatcherProtocol, MutexProtocol, ChannelProtocol and FutexProtocol model objects on values, step by step; memory ordering is not modelled.
- TimerCancelProtocol: one timer with one client that does not call timer_set() and timer_cancel() at the same time; callbacks of other timers appear only as steps that leave this one alone. The panic is the call of a callback that is null.
- ChannelProtocol: calls past the owner and peer checks; the early return of kernel/object/channel_dispatcher.cpp:239-240 is not modelled, and neither are handles inside messages.
- AllocTxid: takes fewer than 2^31 calls to be waiting, since with all ids in use the loop does not end.
- WaitQueues: the two linked lists of a thread are values, a list of levels with a head and followers each, so link fields and aliasing are not modelled.
- RunQueues: the bitmap is the set of its bits, the run queues are sequences, and counting leading zeros is taking the maximum.
- Schedulers: idle threads made ready at boot (kernel/kernel/sched.cpp:379-391), preemption timers, accounting, address spaces and the context switch itself.
- MBufs: a buffer is a value under a name, in a map; reading with and without packets is two methods for the one template of the source.
- Fifos: an element is one value, so a copy that fails in the middle of an element is a copy that fails at it.
- Checksums: the receiver's dispatch to netboot and TFTP, and neighbour discovery replies.
- Console commands, traces, counters, dumps, firmware, PCI, and the dispatchers of VMOs, guests and IOMMUs.
