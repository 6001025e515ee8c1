# FreeRTOS kernel: a verified model

This project models the FreeRTOS kernel in `FreeRTOS-Kernel/` in Dafny and proves what its
scheduler, software timers, queues, mutexes, stream and message buffers, event groups and the
intrusive list under all of them keep over every run.

The configuration is the single core build with preemption, generic task selection, 32-bit ticks,
32 priorities, `INCLUDE_vTaskSuspend` and `INCLUDE_xTaskAbortDelay` on, mutexes and timers on, and
no queue in a queue set.

Three ideas run through it.

- **True time.** The kernel keeps time in a counter that wraps at 2^32. Every claim about timing is
  made in an unbounded ghost time, of which the kernel's values are the stored form (`Ticks`).
- **Steps.** What the kernel does at once (a critical section, a section with the scheduler
  suspended, an interrupt) is one step of a machine, and the main results are about every run of
  such steps. For the stream buffer a step is one access to shared memory.
- **In place.** The kernel's code changes lists, counters and task fields in place, so each component
  has a class whose methods do the same. Their contracts tie the new fields to a transition
  function, and the lemmas say what that transition means.

| component | files |
|---|---|
| configuration values shared by components | `KernelConfig` |
| tick arithmetic, timeouts, periodic delays | `Ticks`, `Timeouts` |
| lists, on the heap and as values | `KernelLists`, `ListModel` |
| task lists, tick, suspension, task life cycle | `Banks`, `Scheduler`, `SchedulerTick`, `SchedulerBlocking`, `SchedulerTasks`, `SchedulerSuspension`, `SchedulerRuns`, `SchedulerEvents`, `SchedulerTransparency`, `SchedulerWaits`, `SchedulerKernel` |
| software timers | `Timers` |
| queues | `QueueModel`, `QueueOrder`, `Queues` |
| mutexes and priority inheritance | `Mutexes`, `MutexRuns`, `MutexLending`, `MutexKernels` |
| stream and message buffers | `StreamRing`, `StreamBuffers`, `StreamConcurrency` |
| event groups and the rendezvous | `EventGroups`, `EventCalls`, `Rendezvous` |

Eight results are conditions under which the code meets its intent. Each is proved in both directions, and a
concrete input or a run from an initial state shows a case on the other side of it:

- a timeout check is right exactly when no whole lap is hidden from it (`Timeouts.CheckExact`, `HiddenLapMissesExpiry`);
- a periodic delay that is a lap or more late is decided by the remainder only (`Timeouts.DelayUntilLateExact`,
  `LateCallerBlocks`);
- a timer command handled a lap or more late is seen as late by the remainder only (`Timers.PlaceExact`,
  `LateStartIsMissed`);
- `vTaskStepTick` asserts on wrapped values, which admits a step across the wrap that leaves the delayed lists the
  wrong way round (`SchedulerSuspension.StepTickExact`, `SchedulerWaits.CrossingStepIsAdmitted`);
- a precondition of `prvAddCurrentTaskToDelayedList`: a block of zero ticks at the last tick before the wrap would leave
  a task on the current delayed list when the lists are switched (`SchedulerBlocking.BlockExact`,
  `SchedulerWaits.ZeroBlockAtLastTick`). Every caller meets it: the only one that can ask for zero ticks is the timer
  daemon, and only at tick count zero (`Timers.TimerService.ProcessTimerOrBlockTask`);
- a mutex holder can come to be outranked by a task that waits for the mutex, by three kinds of step and no others
  (`MutexRuns.StepOutranksExact`, `RunOutranksExact`), and a run shows each kind (`OwningWaiterOutranksItsHolder`,
  `RaisedWaiterOutranksItsHolder`, `TimeoutLeavesTooLittle`);
- the holder of a mutex can come to keep a lent priority that nobody waiting or settling accounts for, by two kinds of
  step and no others (`MutexLending.OverlentExact`), and a run shows each kind (`SecondMutexKeepsTheLoan`,
  `OvertakenWaiterLeavesALoan`); over runs without their causes it never does (`NothingStaysLent`);
- deleting a task that a queue has woken can lose the wake-up (`QueueModel.DeletionExact`,
  `DeletingAWokenTaskLosesItsWakeUp`).

`dafny verify dfyconfig.toml` checks the whole project.

## Model

| member | source | states |
|---|---|---|
| `Timeouts.CheckInTrueTime` | FreeRTOS-Kernel/tasks.c:5539-5605 | Which ticks a timeout check charges: all true ticks since the stamp, except the whole laps that the wrapped comparison cannot see. |
| `Timeouts.CheckExact` | FreeRTOS-Kernel/tasks.c:5563-5590 | A finite budget is reported expired exactly when it is used up, if and only if no hidden lap is followed by less than the budget of visible ticks. |
| `Timeouts.HiddenLapMissesExpiry` | FreeRTOS-Kernel/tasks.c:5577-5590 | The excluded family is real: with two tick overflows between checks an expired budget looks fresh. |
| `Timeouts.BudgetTelescopes` | FreeRTOS-Kernel/tasks.c:5539-5605 | Over any sequence of checks, at most one overflow apart, remaining budget plus true elapsed time is the original budget until it is used up. |
| `Timeouts.ExpiryReportedInTime` | FreeRTOS-Kernel/tasks.c:5577-5605 | Each check reports expiry exactly when the total true elapsed time has reached the budget, so the first such call reports it. |
| `Timeouts.InfiniteNeverExpires` | FreeRTOS-Kernel/tasks.c:5567-5576 | A budget of `portMAX_DELAY` is never used up and never expires, whatever the times. |
| `Timeouts.TimeBase.CheckForTimeOut` | FreeRTOS-Kernel/tasks.c:5539-5605 | In place, with the abort flag: an aborted delay is reported and forgotten and changes nothing else; otherwise verdict, stamp and remaining time are those of the check in true time. |
| `Timeouts.TimeBase.SetTimeOutState` | FreeRTOS-Kernel/tasks.c:5511-5537 | The stamp is the stored form of the current true time. |
| `Timeouts.ShouldDelayInTrueTime` | FreeRTOS-Kernel/tasks.c:2346-2400 | The four wrapped comparisons decide by the time since the previous wake modulo one lap. |
| `Timeouts.DelayUntilExact` | FreeRTOS-Kernel/tasks.c:2357-2414 | Less than a lap after the previous wake, the call blocks exactly when the next nominal wake is ahead, and for exactly the missing time. |
| `Timeouts.DelayUntilLateExact` | FreeRTOS-Kernel/tasks.c:2368-2395 | A lap or more late, the decision is right if and only if the remainder of the lateness already covers the increment. |
| `Timeouts.LateCallerBlocks` | FreeRTOS-Kernel/tasks.c:2368-2395 | Such a caller exists: five ticks more than a lap late, with its next wake long past, it blocks. |
| `Timeouts.NoDrift` | FreeRTOS-Kernel/tasks.c:2357-2414 | After any number of calls over any number of wraps the stored wake time is the start plus the sum of the increments, and the next block ends at the next nominal wake. |
| `KernelLists.KernelList.constructor` | FreeRTOS-Kernel/list.c:49-86 | A new list is a well-formed ring of its end marker alone. |
| `KernelLists.KernelList.InsertEnd` | FreeRTOS-Kernel/list.c:105-136 | On the heap: the ring stays well formed, with container and count, and the item is linked just before the index. |
| `KernelLists.KernelList.Insert` | FreeRTOS-Kernel/list.c:139-213 | On the heap: the search ends for every value, and the item is linked after exactly the items whose value does not exceed its own, the largest tick value included. |
| `KernelLists.RemoveItem` | FreeRTOS-Kernel/list.c:217-247 | On the heap: the item leaves the list its container names, the index steps back if it pointed there, and the remaining count is returned. |
| `KernelLists.KernelList.GetOwnerOfNextEntry` | FreeRTOS-Kernel/include/list.h:286-297 | On the heap: the index advances past the end marker to the next item. |
| `ListModel.SortedInsertIsStable` | FreeRTOS-Kernel/list.c:139-213 | Insertion keeps a list sorted, behind all equal values and before all larger ones. |
| `ListModel.RoundVisitsEachOnce` | FreeRTOS-Kernel/include/list.h:262-297 | As many next-entry calls as there are items return each item exactly once and start over in the same order. |
| `ListModel.RemoveKeepsVisitOrder` | FreeRTOS-Kernel/list.c:217-247 | Removing any item leaves the visiting order of the others as it was. |
| `ListModel.InsertEndVisitsLast` | FreeRTOS-Kernel/list.c:105-136 | An item put at the end is visited after all others, except the one the index points at. |
| `SchedulerTick.WakeDueExact` | FreeRTOS-Kernel/tasks.c:4713-4791 | The loop readies the tasks of the current delayed list whose true wake time has come, takes them off their event lists, and touches no other task. |
| `SchedulerTick.EmptyAtSwitch` | FreeRTOS-Kernel/tasks.c:249-261 | The current delayed list is empty whenever the tick count wraps, so the assertion in the list switch holds. |
| `SchedulerTick.TickExact` | FreeRTOS-Kernel/tasks.c:4696-4809 | A tick readies exactly the tasks whose true wake time has come, on whichever list and in whichever epoch, and the invariant of both epochs, their order and the next unblock time is kept. |
| `SchedulerBlocking.BlockExact` | FreeRTOS-Kernel/tasks.c:8420-8530 | The current task goes to the list of the epoch of its true wake time (or the suspended list), and the invariant of both lists and of the next unblock time is kept if and only if the block is not one of zero ticks at the last tick before the wrap. |
| `SchedulerBlocking.BlockedBehindEquals` | FreeRTOS-Kernel/tasks.c:8420-8530 | A blocked task joins its delayed list by wake time, behind all that wake no later: of tasks that wake together the one that blocked first is in front. |
| `SchedulerBlocking.PlaceOnEventListExact` | FreeRTOS-Kernel/tasks.c:5248-5340 | A task that waits for an event is on that event's list and on the delayed list of its timeout; an ordered wait joins behind all items of no larger value and in front of the first larger one, and the others keep their order. |
| `SchedulerBlocking.RemoveFromEventListExact` | FreeRTOS-Kernel/tasks.c:5346-5436 | The first waiting task is readied, or while the scheduler is suspended moved to the pending list with its state item untouched. |
| `SchedulerBlocking.RemoveFromUnorderedKeeps` | FreeRTOS-Kernel/tasks.c:5439-5508 | The named waiter is readied although the scheduler is suspended, leaves its event list and keeps its new item value; a yield becomes pending exactly if it outranks the current task. |
| `SchedulerTasks.SuspendTaskExact` | FreeRTOS-Kernel/tasks.c:3124-3215 | The task is on the suspended list and on no event list, and the next unblock time is the first wake time of the current delayed list. |
| `SchedulerTasks.ResumeTaskExact` | FreeRTOS-Kernel/tasks.c:3286-3410 | Only a task that was suspended by request becomes ready; a blocked task, or one an interrupt resumed already, stays where it is. |
| `SchedulerTasks.ResumeFromISRExact` | FreeRTOS-Kernel/tasks.c:3417-3506 | As for a resume from a task, but held on the pending list while the scheduler is suspended; a yield becomes pending exactly if the task was readied and outranks the current one. |
| `SchedulerTasks.AbortDelayExact` | FreeRTOS-Kernel/tasks.c:4581-4671 | A blocked task stops waiting for both its timeout and its event, and a yield becomes pending exactly if it outranks the current one; any other task is left alone. |
| `SchedulerTasks.ChangePriorityExact` | FreeRTOS-Kernel/tasks.c:2870-2926 | A ready task ends on the ready list of its new priority, a blocked one stays on its list, the event item takes its new value unless it is in use, and the invariant is kept. |
| `SchedulerTasks.SelectExact` | FreeRTOS-Kernel/tasks.c:183-194 | The task chosen is ready and no ready task has a higher priority; the lists hold what they held. |
| `SchedulerTasks.EqualShares` | FreeRTOS-Kernel/tasks.c:179-194 | The tasks of the highest ready priority take turns: in one round of choices each is chosen exactly once, in the order of the list, and a whole round leaves that order. |
| `SchedulerTasks.ReadiedGoesLast` | FreeRTOS-Kernel/tasks.c:269-275 | A task that becomes ready has its turn after all tasks ready with its priority, except the one whose turn it is. |
| `SchedulerTasks.AddTaskExact` | FreeRTOS-Kernel/tasks.c:2022-2096 | A new task is ready at its capped priority and counted once. |
| `SchedulerTasks.DeleteOtherExact` | FreeRTOS-Kernel/tasks.c:2194-2317 | Deleting another task removes it from every list and record and keeps the invariant, the next unblock time included. |
| `SchedulerTasks.DeleteSelfExact` | FreeRTOS-Kernel/tasks.c:2194-2300 | A task that deletes itself is on the termination list only and still counted. |
| `SchedulerTasks.CleanUpExact` | FreeRTOS-Kernel/tasks.c:6048-6077 | The idle task removes exactly the tasks on the termination list, and both counts agree with the lists afterwards. |
| `SchedulerSuspension.MovePendingExact` | FreeRTOS-Kernel/tasks.c:3995-4023 | Exactly the tasks on the pending list become ready, and the list is empty. |
| `SchedulerSuspension.TickManyExact` | FreeRTOS-Kernel/tasks.c:4045-4070 | Any number of held ticks, one by one, ready exactly the tasks due by the last of them. |
| `SchedulerSuspension.ResumeAllExact` | FreeRTOS-Kernel/tasks.c:3961-4107 | After the outermost resume no tick and no task is held, and the tasks readied are exactly those that events woke and those due by the end of the held ticks. |
| `SchedulerSuspension.CatchUpTicksExact` | FreeRTOS-Kernel/tasks.c:4551-4576 | Caught-up ticks ready exactly the tasks due by the end of them. |
| `SchedulerSuspension.SwitchRequiredExact` | FreeRTOS-Kernel/tasks.c:4780-4875 | A tick asks for a switch exactly when a yield is pending, a task that comes due outranks the current one, or two tasks of the current priority are ready after it. |
| `SchedulerSuspension.MovePendingYield` | FreeRTOS-Kernel/tasks.c:4003-4014 | Moving the pending tasks leaves a yield pending exactly if one was before or one of them outranks the current task. |
| `SchedulerSuspension.ResumeYieldExact` | FreeRTOS-Kernel/tasks.c:3995-4089 | The outermost resume leaves a yield pending exactly if one was before, a task on the pending list or due by the end of the held ticks outranks the current one, or a tick was held and two tasks of the current priority are ready. |
| `SchedulerSuspension.CatchUpYieldExact` | FreeRTOS-Kernel/tasks.c:4551-4576 | The same of caught-up ticks. |
| `SchedulerSuspension.StepTickExact` | FreeRTOS-Kernel/tasks.c:4509-4545 | Time is conserved by a step; the asserted comparison admits a step across the wrap, and the scheduler's invariant is kept if and only if the step does not cross it. |
| `SchedulerRuns.InvStep` | FreeRTOS-Kernel/tasks.c:4675-4915 | Every step of the scheduler keeps the whole invariant and advances tick count plus held ticks by exactly its ticks. |
| `SchedulerRuns.TasksAreConserved` | FreeRTOS-Kernel/tasks.c:2022-2317 | In every reachable state each state item is on one list and each event item on one at most, list lengths add up to the number of tasks, each ready task is on the list of its priority, and no list above `uxTopReadyPriority` has a task. |
| `SchedulerRuns.SuspendedTimeIsConserved` | FreeRTOS-Kernel/tasks.c:3986-4075 | Over any run with any nesting of suspensions, tick count plus held ticks advance by one per tick interrupt plus what is stepped or caught up. |
| `SchedulerEvents.InLineStep` | FreeRTOS-Kernel/tasks.c:5248-5436 | A list of waiting tasks in order of priority stays so through every step, unless a task enters it unordered or changes its priority while it is on it. |
| `SchedulerEvents.MostUrgentIsWoken` | FreeRTOS-Kernel/tasks.c:5248-5436 | Over any run in which the list of an event is entered in order and no waiting task's priority changes, whenever the event comes exactly one task leaves the list, and no task that waits has a higher priority. |
| `SchedulerEvents.StandsStep` | FreeRTOS-Kernel/tasks.c:2893-2900 | The event item of a task stands for its priority from its creation on, unless an event group uses it or one is set without the other. |
| `SchedulerTransparency.SuspensionsAreTransparent` | FreeRTOS-Kernel/tasks.c:3961-4107 | Any interleaving of tick interrupts with suspensions and resumptions, nested to any depth and all resumed at the end, leaves the same state as the same ticks taken with the scheduler running, the order of every list included, but for the pending yield. |
| `SchedulerWaits.WaitStep` | FreeRTOS-Kernel/tasks.c:4696-4809 | Unless it is suspended, aborted or deleted, a task blocked with a time limit or without one becomes ready at a step exactly when the step brings its event or its time. |
| `SchedulerWaits.WaitsUntilWokenOrDue` | FreeRTOS-Kernel/tasks.c:5346-5436 | Over any run a task blocked with a time limit or without one is blocked in every state until the step that brings its time or its event (the resume, for an event of a suspension), and ready and on no event list after that step. |
| `SchedulerWaits.EventWaitIsExact` | FreeRTOS-Kernel/tasks.c:5248-5340 | The same from the call that waits for an event, ordered or not, with a timeout or without. |
| `SchedulerWaits.DelayIsExact` | FreeRTOS-Kernel/tasks.c:2438-2482 | A task that delays itself sleeps in every state before its true wake time and is ready in the first one at or after it, through wraps, suspensions and whatever other tasks do. |
| `SchedulerWaits.SleepsUntilDue` | FreeRTOS-Kernel/tasks.c:4696-4809 | The same from any state in which a task sleeps: only suspending, aborting or deleting it wakes it early, and no step lets it oversleep. |
| `SchedulerWaits.PeriodicWakeIsExact` | FreeRTOS-Kernel/tasks.c:2346-2414 | After any number of periodic delays, the next one, made in time, blocks, and over any run the task sleeps in every state before the start plus the sum of the increments and is ready in the first one at or after it. |
| `SchedulerWaits.PendingYieldIsHonoured` | FreeRTOS-Kernel/tasks.c:4862-4875 | A pending yield survives every run until the scheduler switches, and any tick taken while the scheduler runs asks for the switch. |
| `SchedulerWaits.HigherWakeUpIsHonoured` | FreeRTOS-Kernel/tasks.c:5397-5410 | From an event whose first waiter outranks the current task, over any run until the scheduler switches, every tick taken while it runs asks for the switch. |
| `SchedulerWaits.CrossingStepIsAdmitted` | FreeRTOS-Kernel/tasks.c:4509-4545 | A reachable state, sixteen ticks before the wrap, in which the asserted comparison admits a step of thirty-two and the step breaks the invariant. |
| `SchedulerWaits.ZeroBlockAtLastTick` | FreeRTOS-Kernel/tasks.c:8420-8530 | A reachable state, at the last tick before the wrap, in which a block of zero ticks leaves a task on the list that must be empty at the next tick. |
| `SchedulerKernel.Kernel.IncrementTick` | FreeRTOS-Kernel/tasks.c:4675-4915 | In place: the tick transition, the tasks made ready, and a switch requested exactly when one of them outranks the current task, the current one shares its list, or a yield is pending. |
| `SchedulerKernel.Kernel.ResetNextTaskUnblockTime` | FreeRTOS-Kernel/tasks.c:6461-6479 | In place: the next unblock time is that of the first task on the current delayed list, or the largest tick value. |
| `SchedulerKernel.Kernel.SwitchDelayedLists` | FreeRTOS-Kernel/tasks.c:249-261 | In place: the two lists trade places and the overflow count advances. |
| `SchedulerKernel.Kernel.UnblockDue` | FreeRTOS-Kernel/tasks.c:4719-4800 | In place: the loop over the current list, and whether one of the tasks readied outranks the current task. |
| `SchedulerKernel.Kernel.AddCurrentTaskToDelayedList` | FreeRTOS-Kernel/tasks.c:8420-8530 | In place: the block transition, with the list on which the task ends. |
| `SchedulerKernel.Kernel.PlaceOnEventList` | FreeRTOS-Kernel/tasks.c:5248-5340 | In place: both lists on which the task ends, and on an ordered event list its place by item value, behind equals. |
| `SchedulerKernel.Kernel.RemoveFromEventList` | FreeRTOS-Kernel/tasks.c:5346-5436 | In place: the wake-up transition, and whether the woken task outranks the current one. |
| `SchedulerKernel.Kernel.RemoveFromUnorderedEventList` | FreeRTOS-Kernel/tasks.c:5439-5508 | In place: the wake-up of a named waiter. |
| `SchedulerKernel.Kernel.SuspendScheduler` | FreeRTOS-Kernel/tasks.c:3816-3850 | In place: one more level of suspension. |
| `SchedulerKernel.Kernel.ResumeScheduler` | FreeRTOS-Kernel/tasks.c:3961-4107 | In place: both loops of the resume; a yield is reported exactly when, at the end of the outermost suspension, one was pending, a task readied outranks the current one, or a held tick finds the current priority shared. |
| `SchedulerKernel.Kernel.DelayUntil` | FreeRTOS-Kernel/tasks.c:2346-2428 | In place: the block transition for the missing ticks exactly when the comparisons decide to delay, no change otherwise, and the next wake time. |
| `SchedulerKernel.Kernel.CatchUpTicks` | FreeRTOS-Kernel/tasks.c:4551-4576 | In place: all the ticks are taken before the call returns, and a yield is reported exactly when one was pending, a task that came due outranks the current one, or two tasks of the current priority are ready. |
| `SchedulerKernel.Kernel.StepTick` | FreeRTOS-Kernel/tasks.c:4509-4545 | In place: the step, and the exact condition under which it keeps the invariant. |
| `SchedulerKernel.Kernel.TaskSuspend` | FreeRTOS-Kernel/tasks.c:3124-3215 | In place: the task's new list, and its event item on none. |
| `SchedulerKernel.Kernel.TaskResume` | FreeRTOS-Kernel/tasks.c:3356-3410 | In place: the resume transition. |
| `SchedulerKernel.Kernel.TaskResumeFromISR` | FreeRTOS-Kernel/tasks.c:3417-3506 | In place: the resume transition; a switch is requested exactly when the scheduler runs and a suspended task that outranks the current one was made ready. |
| `SchedulerKernel.Kernel.AbortDelayOf` | FreeRTOS-Kernel/tasks.c:4581-4671 | In place: success exactly when the task was blocked. |
| `SchedulerKernel.Kernel.TaskDelete` | FreeRTOS-Kernel/tasks.c:2194-2317 | In place: both ways to delete a task. |
| `SchedulerKernel.Kernel.CheckTasksWaitingTermination` | FreeRTOS-Kernel/tasks.c:6048-6077 | In place: the loop ends with no deleted task left. |
| `SchedulerKernel.Kernel.AddNewTask` | FreeRTOS-Kernel/tasks.c:2022-2096 | In place: creation with the scheduler running. |
| `SchedulerKernel.Kernel.SetPriorityOf` | FreeRTOS-Kernel/tasks.c:2870-2943 | In place: what a change of priority does to the lists. |
| `SchedulerKernel.Kernel.SwitchContext` | FreeRTOS-Kernel/tasks.c:5061-5125 | In place: the current task after an unsuspended switch is a ready task of the highest priority there is. |
| `SchedulerKernel.Kernel.SelectHighestPriorityTask` | FreeRTOS-Kernel/tasks.c:179-194 | In place: the search loop and the next-entry call. |
| `Banks.LengthsAddUp` | FreeRTOS-Kernel/list.c:217-247 | Lists whose items record their container have lengths that add up to the number of items on them. |
| `Timers.PlaceExact` | FreeRTOS-Kernel/timers.c:894-935 | A timer is processed at once exactly when it has expired, if and only if less than a lap has passed since the command or the visible part of it covers the period. |
| `Timers.LateStartIsMissed` | FreeRTOS-Kernel/timers.c:894-935 | Such a command exists: handled five ticks more than a lap after it was issued, a start with a period of ten is not seen to have expired. |
| `Timers.PlaceInTrueTime` | FreeRTOS-Kernel/timers.c:894-935 | What the wrapped insert decision is in true time: processed, current list or overflow list by the epoch of the expiry as seen. |
| `Timers.ScheduleIsExact` | FreeRTOS-Kernel/timers.c:699-745 | A queued timer that is not due has been called back exactly once for each nominal expiry that has passed. |
| `Timers.QueuedBehindEquals` | FreeRTOS-Kernel/timers.c:894-935 | A timer is queued behind all that expire no later and before all that expire later; the others keep their order. |
| `Timers.TimerService.CreateTimer` | FreeRTOS-Kernel/timers.c:417-445 | A new timer is inactive and queued nowhere. |
| `Timers.TimerService.InsertTimerInActiveList` | FreeRTOS-Kernel/timers.c:894-935 | In place: processed now exactly when expired, else on the list of the epoch of its expiry, in order. |
| `Timers.TimerService.ReloadTimer` | FreeRTOS-Kernel/timers.c:699-715 | In place: the backlog loop ends, with one callback for every further expiry that has passed, and the timer queued for the first that has not. |
| `Timers.TimerService.ProcessExpiredTimer` | FreeRTOS-Kernel/timers.c:718-745 | In place: the first timer goes off once for each of its expiries that has passed and is queued again or becomes inactive. |
| `Timers.TimerService.SwitchTimerLists` | FreeRTOS-Kernel/timers.c:1086-1108 | In place: the loop ends because reloads enter the overflow list only; every timer of the old epoch has gone off, none if there was none, and the lists are those of the next epoch. |
| `Timers.TimerService.SampleTimeNow` | FreeRTOS-Kernel/timers.c:871-892 | In place: sampled at least once per wrap while a timer is queued, the lists are switched exactly when the epoch has changed, and the epoch invariant of both lists is kept; with no timer queued any time may have passed and nothing changes. |
| `Timers.TimerService.GetNextExpireTime` | FreeRTOS-Kernel/timers.c:844-868 | The time returned is the stored form of the first expiry of this epoch, which no active timer precedes; with nothing queued on the current list it is zero. |
| `Timers.TimerService.ProcessTimerOrBlockTask` | FreeRTOS-Kernel/timers.c:782-841 | In place: the daemon blocks only when every callback that is due has been made, and then until the first expiry of this epoch, the wrap, or for ever if no timer is queued, after which any time may have passed; otherwise the epoch changed and the old epoch's timers went off, or the first timer went off once per expiry passed and no other changed. |
| `Timers.TimerService.StartTimer` | FreeRTOS-Kernel/timers.c:999-1028 | In place: a start or reset counts from the time it was issued, with one callback per expiry passed since. |
| `Timers.TimerService.ChangePeriod` | FreeRTOS-Kernel/timers.c:1036-1049 | In place: a new period counts from now, and the timer is queued. |
| `Timers.TimerService.Deactivate` | FreeRTOS-Kernel/timers.c:1030-1034 | In place: a stopped timer is inactive. |
| `Timers.TimerService.ProcessCommand` | FreeRTOS-Kernel/timers.c:976-1080 | In place: one command, with the exact callbacks and the queue position of its timer, any time after the last sample if no other timer is active; every other timer is as before, or went off for each of its expiries passed when the epoch changed, and stays queued exactly while it is active. |
| `Timers.TimerService.ObeyCommand` | FreeRTOS-Kernel/timers.c:997-1075 | In place: the command itself, after the time has been sampled, changes its own timer only. |
| `Timers.TimerService.TimerTask` | FreeRTOS-Kernel/timers.c:748-776 | Over any run of passes through the daemon's loop, commands and creations, up to the first that comes a lap or more after the last sample although a timer is active: whenever the daemon blocks, each timer started and not stopped since has had exactly one callback for each nominal expiry passed since its start, a one-shot timer one in all; a pass that does not block changes the epoch or makes a callback; and nothing changes while no timer is active. |
| `QueueModel.InvStep` | FreeRTOS-Kernel/queue.c:258-300 | Every step of senders, receivers, interrupts, locking, unlocking and changes of priority keeps the cover of waiting tasks by wake-ups and counts. |
| `QueueModel.UnlockCovers` | FreeRTOS-Kernel/queue.c:2494-2611 | Unlocking wakes as many waiters as events were counted, and a count that was capped at the number of tasks loses none. |
| `QueueModel.NoLostWakeUp` | FreeRTOS-Kernel/queue.c:1033-1064 | In every reachable unlocked state, waiting receivers imply no more messages than receivers already woken, and dually for senders and free slots. |
| `QueueModel.DeletionExact` | FreeRTOS-Kernel/tasks.c:2194-2317 | Deleting a woken task loses a wake-up if and only if another task waits on its side and there are at least as many messages (for a sender, free slots) as tasks woken there; otherwise all that holds of reachable states still holds. |
| `QueueModel.LockCountsFit` | FreeRTOS-Kernel/queue.c:258-300 | With at most 127 tasks the lock counts fit their 8-bit fields in every reachable state. |
| `QueueModel.DeletingAWokenTaskLosesItsWakeUp` | FreeRTOS-Kernel/queue.c:1526-1648 | A run from the new queue after which a woken receiver is deleted: another receiver waits, a message is there, and nobody is woken for it. |
| `QueueModel.FirstInFirstOut` | FreeRTOS-Kernel/queue.c:2390-2492 | With sends to the back only, over any run the items accepted are the items delivered followed by the contents, in order. |
| `QueueOrder.SendExact` | FreeRTOS-Kernel/queue.c:960-1064 | A send is accepted exactly with room or as an overwrite; the item is then behind all others, before all others, or alone, and exactly the first receiver in line is woken. |
| `QueueOrder.ReceiveExact` | FreeRTOS-Kernel/queue.c:1526-1567 | A receive takes the oldest item and wakes exactly the first sender in line; on an empty queue it changes nothing but that its caller has retried. |
| `QueueOrder.PeekExact` | FreeRTOS-Kernel/queue.c:1901-1940 | A peek changes no item and wakes exactly the next receiver in line. |
| `QueueOrder.SendFromISRExact` | FreeRTOS-Kernel/queue.c:1157-1325 | The same of a send from an interrupt, which while the queue is locked wakes nobody and counts up to the number of tasks. |
| `QueueOrder.ReceiveFromISRExact` | FreeRTOS-Kernel/queue.c:2035-2130 | The same of a receive from an interrupt. |
| `QueueOrder.LockExact` | FreeRTOS-Kernel/queue.c:241-256 | A lock starts both counts from zero and changes no line. |
| `QueueOrder.UnlockExact` | FreeRTOS-Kernel/queue.c:2494-2611 | An unlock wakes the first waiters in line, as many as events were counted or all there are, and nobody else. |
| `QueueOrder.BlockExact` | FreeRTOS-Kernel/tasks.c:5248-5282 | The locker joins the line of its side; in a line in order, behind all that are at least as urgent and before all that are less so. |
| `QueueOrder.GiveUpExact` | FreeRTOS-Kernel/tasks.c:4761-4776 | A waiter that times out leaves its place in line, and no other waiter moves. |
| `QueueOrder.ReprioritiseExact` | FreeRTOS-Kernel/tasks.c:2893-2900 | A change of priority gives the item of the task, and no other, its new value, and leaves the line as it was. |
| `QueueOrder.OrderStep` | FreeRTOS-Kernel/queue.c:258-300 | Both lines in order of urgency stay so through every step but a change of priority. |
| `QueueOrder.MostUrgentIsWoken` | FreeRTOS-Kernel/tasks.c:5346-5436 | Over any run without a change of priority, whoever the next step wakes, be it a task's, an interrupt's or an unlock, is at least as urgent as every task it leaves waiting on that side. |
| `Queues.KernelQueue.constructor` | FreeRTOS-Kernel/queue.c:303-347 | A new queue is an empty ring. |
| `Queues.KernelQueue.CopyDataToQueue` | FreeRTOS-Kernel/queue.c:2390-2470 | In the slots: send to back appends, send to front prepends, overwrite of a one-slot queue replaces. |
| `Queues.KernelQueue.CopyDataFromQueue` | FreeRTOS-Kernel/queue.c:2473-2491 | In the slots: the read position moves to the oldest item, which is copied. |
| `Queues.KernelQueue.TrySend` | FreeRTOS-Kernel/queue.c:960-1064 | The item is accepted exactly when there is room or it overwrites, and one receiver is woken. |
| `Queues.KernelQueue.TryReceive` | FreeRTOS-Kernel/queue.c:1526-1567 | The oldest item is removed and returned, and one sender is woken. |
| `Queues.KernelQueue.TryPeek` | FreeRTOS-Kernel/queue.c:1901-1940 | The oldest item is returned and stays, and the wake-up is handed on to the next receiver. |
| `Queues.KernelQueue.SendFromISR` | FreeRTOS-Kernel/queue.c:1157-1325 | From an interrupt: accepted as from a task, with the wake-up made or counted up to the number of tasks. |
| `Queues.KernelQueue.ReceiveFromISR` | FreeRTOS-Kernel/queue.c:2035-2130 | From an interrupt: the oldest item, with the sender's wake-up made or counted. |
| `Queues.KernelQueue.PeekFromISR` | FreeRTOS-Kernel/queue.c:2135-2190 | From an interrupt: the oldest item, the read position put back, nothing changed. |
| `Queues.KernelQueue.LockQueue` | FreeRTOS-Kernel/queue.c:241-256 | A lock starts both counts unless they are started. |
| `Queues.KernelQueue.IsQueueEmpty` | FreeRTOS-Kernel/queue.c:2614-2632 | True exactly when the queue holds nothing; the task that has locked the queue may block on the answer, any other call changes nothing. |
| `Queues.KernelQueue.IsQueueFull` | FreeRTOS-Kernel/queue.c:2659-2677 | True exactly when no slot is free; the task that has locked the queue may block on the answer, any other call changes nothing. |
| `Queues.KernelQueue.PlaceOnReceivers` | FreeRTOS-Kernel/queue.c:1606-1610 | The locker that saw an empty queue joins the receivers, in front of the first that is less urgent. |
| `Queues.KernelQueue.PlaceOnSenders` | FreeRTOS-Kernel/queue.c:1113-1123 | The locker that saw a full queue joins the senders, in front of the first that is less urgent. |
| `Queues.KernelQueue.WakeCountedReceivers` | FreeRTOS-Kernel/queue.c:2503-2575 | The loop wakes the smaller of the posts counted and the receivers that wait. |
| `Queues.KernelQueue.WakeCountedSenders` | FreeRTOS-Kernel/queue.c:2582-2606 | The loop wakes the smaller of the receives counted and the senders that wait. |
| `Queues.KernelQueue.UnlockReceivers` | FreeRTOS-Kernel/queue.c:2494-2579 | In place: the first half of the unlock. |
| `Queues.KernelQueue.UnlockSenders` | FreeRTOS-Kernel/queue.c:2582-2611 | In place: the second half of the unlock. |
| `Mutexes.InvStep` | FreeRTOS-Kernel/queue.c:1652-1870 | Every take, block, wake, timeout, give, change of priority and wait for an event group keeps the accounts of holders, counts, priorities and event item values; a call whose time has run out may find the mutex available, try once more and fail. |
| `MutexRuns.AccountsBalance` | FreeRTOS-Kernel/queue.c:1690-1712 | In every reachable state the held count of a task is the number of mutexes that name it, a mutex is available exactly when it has no holder, and a task that holds none has its base priority. |
| `MutexRuns.RecursiveBalance` | FreeRTOS-Kernel/queue.c:756-855 | A recursive mutex is free after a run exactly when the run gave back every take. |
| `MutexRuns.HeldUntilBalanced` | FreeRTOS-Kernel/queue.c:756-855 | Until its takes are balanced a recursive mutex stays with the task that took it. |
| `MutexRuns.BlockOutranks` | FreeRTOS-Kernel/tasks.c:6585-6681 | A task that starts to wait leaves the holder with a priority no lower than its own. |
| `MutexRuns.StepKeepsOutranking` | FreeRTOS-Kernel/tasks.c:6688-6895 | No give of another mutex and no timeout of another waiter takes the holder below a task that goes on waiting. |
| `MutexRuns.StepOutranksExact` | FreeRTOS-Kernel/tasks.c:6585-6895 | In any state and for any step through which the wait goes on, the holder still outranks the waiter if and only if the step is not: another task's wait for a mutex of the waiter's own, above the holder; a timeout that leaves the holder, with this mutex only, below the waiter, or the waiter above the holder; or a priority set across the other's. |
| `MutexRuns.RunOutranksExact` | FreeRTOS-Kernel/tasks.c:6585-6895 | Over any run through which the wait goes on, the holder outranks the waiter in every state if and only if no step of the run is one of those. |
| `MutexRuns.HolderOutranksWaiter` | FreeRTOS-Kernel/queue.c:1784-1859 | Over any run in which waiters own no mutex and no priority is set, the holder is at least as urgent as each task that has waited for it since, with any number of mutexes and timeouts. |
| `MutexRuns.OwningWaiterOutranksItsHolder` | FreeRTOS-Kernel/tasks.c:6585-6681 | The exclusion is needed: a run in which a waiter that owns a mutex is lent a priority and then outranks the holder it waits for. |
| `MutexRuns.RaisedWaiterOutranksItsHolder` | FreeRTOS-Kernel/tasks.c:2858-2900 | A run in which a waiter's priority is set past that of the holder it waits for. |
| `MutexRuns.TimeoutLeavesTooLittle` | FreeRTOS-Kernel/queue.c:2365-2385 | A run in which a timeout leaves the holder below a waiter whose priority was raised behind the first in line. |
| `MutexLending.BlockEffect` | FreeRTOS-Kernel/tasks.c:6585-6681 | To wait makes the holder's priority the larger of its own and the waiter's, and changes nobody else's; the waiter knows whether it lends, or stands above the holder's base priority. |
| `MutexLending.TakeEffect` | FreeRTOS-Kernel/queue.c:1687-1730 | A take makes the task the holder with one mutex more, and changes no priority. |
| `MutexLending.GiveEffect` | FreeRTOS-Kernel/tasks.c:6688-6775 | With its last mutex a holder is back at its base priority; with another one left it keeps what it has. |
| `MutexLending.SettleEffect` | FreeRTOS-Kernel/tasks.c:6782-6895 | Settling leaves a holder of this mutex alone with the larger of its base priority and what the first task in line stands for, a holder of more with what it has, and nobody else changed. |
| `MutexLending.SetPriorityEffect` | FreeRTOS-Kernel/tasks.c:2858-2900 | The base priority is the one set; the priority in use too, unless a higher one is lent; the event item stands for it unless it is in use. |
| `MutexLending.WakesMostUrgent` | FreeRTOS-Kernel/tasks.c:5346-5410 | While the line is in order, of the tasks that wait for a mutex the one woken has the highest priority, and the others stay in line. |
| `MutexLending.TimeoutSettles` | FreeRTOS-Kernel/queue.c:1824-1866 | A waiter that lent and times out can always settle, and then a holder of this mutex alone has the larger of its base priority and what the first task still in line stands for. |
| `MutexLending.OverlentExact` | FreeRTOS-Kernel/queue.c:1784-1866 | In any state and for any step: the holder of this mutex alone comes to have a priority above its base with nobody that waits, retries after it lent or has still to settle, if and only if the step is one of two: it gives the second of two mutexes back, or the last task in line leaves that is not known to have lent. |
| `MutexLending.NothingStaysLent` | FreeRTOS-Kernel/tasks.c:6585-6895 | Over any run in which no priority is set, and a task takes a mutex only if it holds none and overtakes nobody more urgent that waits, a holder has its base priority, or a task that waits, retries after it lent or has still to settle has as high a one; with no such task, its base priority. |
| `MutexLending.SecondMutexKeepsTheLoan` | FreeRTOS-Kernel/tasks.c:6782-6895 | The first kind of step is reachable: a task holds two mutexes when the one that lent to it times out and settles, gives one back, and keeps the priority lent. |
| `MutexLending.OvertakenWaiterLeavesALoan` | FreeRTOS-Kernel/queue.c:1784-1866 | So is the second: a task takes the mutex ahead of a waiter, is left with what that one stands for when another settles, and keeps it when that one times out. |
| `MutexKernels.MutexKernel.PriorityInherit` | FreeRTOS-Kernel/tasks.c:6585-6681 | In place: the holder's priority and, unless it is in use, event item value, and whether inheritance occurred now or before. |
| `MutexKernels.MutexKernel.PriorityDisinherit` | FreeRTOS-Kernel/tasks.c:6688-6775 | In place: one mutex less, the base priority with the last one, and a switch asked for exactly when the priority changed. |
| `MutexKernels.MutexKernel.PriorityDisinheritAfterTimeout` | FreeRTOS-Kernel/tasks.c:6782-6895 | In place: what the remaining waiters justify, if this is the only mutex held. |
| `MutexKernels.MutexKernel.GetDisinheritPriorityAfterTimeout` | FreeRTOS-Kernel/queue.c:2365-2385 | The priority the head of the waiting list stands for, always a valid one. |
| `MutexKernels.MutexKernel.PrioritySet` | FreeRTOS-Kernel/tasks.c:2877-2900 | In place: base priority, the priority in use, and the event item value unless it is in use. |
| `MutexKernels.MutexKernel.ResetEventItemValue` | FreeRTOS-Kernel/tasks.c:7574-7589 | In place: back from an event group, the item's value is returned and stands for the priority again, whatever was lent meanwhile. |
| `MutexKernels.MutexKernel.TryTake` | FreeRTOS-Kernel/queue.c:1687-1730 | In place: an available mutex is taken and counted, an unavailable one left alone. |
| `MutexKernels.MutexKernel.BlockOrRetry` | FreeRTOS-Kernel/queue.c:1773-1822 | In place: if the mutex is still not available its holder inherits and the task joins the waiters. |
| `MutexKernels.MutexKernel.SettleAfterTimeout` | FreeRTOS-Kernel/queue.c:1824-1866 | In place: the holder's priority after a waiter gave up. |
| `MutexKernels.MutexKernel.TakeRecursive` | FreeRTOS-Kernel/queue.c:815-855 | In place: the holder's take is counted, another task's is an ordinary take. |
| `MutexKernels.MutexKernel.GiveMutex` | FreeRTOS-Kernel/queue.c:2401-2416 | In place: the holder disinherits and the mutex is available. |
| `MutexKernels.MutexKernel.GiveMutexRecursive` | FreeRTOS-Kernel/queue.c:756-810 | In place: only the holder can give, and the mutex becomes available exactly at the give that balances the takes. |
| `StreamRing.FramesUnique` | FreeRTOS-Kernel/stream_buffer.c:1009-1030 | Length-prefixed bytes parse into messages in one way only. |
| `StreamRing.FramesPrefix` | FreeRTOS-Kernel/stream_buffer.c:1285-1327 | Framed bytes at the start of a framed stream are its first messages, and the rest is framed too. |
| `StreamRing.MessageRead` | FreeRTOS-Kernel/stream_buffer.c:1285-1327 | Where the length and the body of the next message lie in the ring, and what remains without it. |
| `StreamBuffers.StreamBuffer.constructor` | FreeRTOS-Kernel/stream_buffer.c:1587-1632 | A new buffer is empty, and a trigger level of zero becomes one. |
| `StreamBuffers.StreamBuffer.BytesInBuffer` | FreeRTOS-Kernel/stream_buffer.c:1566-1584 | The number of unread bytes. |
| `StreamBuffers.StreamBuffer.SpacesAvailable` | FreeRTOS-Kernel/stream_buffer.c:754-788 | Unread bytes and space make up the length less one. |
| `StreamBuffers.StreamBuffer.WriteBytesToBuffer` | FreeRTOS-Kernel/stream_buffer.c:1476-1519 | In place: the two copies store the bytes around the end of the ring and change no other byte. |
| `StreamBuffers.StreamBuffer.ReadBytesFromBuffer` | FreeRTOS-Kernel/stream_buffer.c:1522-1563 | The two copies return the bytes from the given index on, around the end of the ring. |
| `StreamBuffers.StreamBuffer.WriteMessageToBuffer` | FreeRTOS-Kernel/stream_buffer.c:1000-1050 | In place: a message is appended whole or not at all, an empty one is not published, a stream takes what fits; the buffer still parses as whole messages. |
| `StreamBuffers.StreamBuffer.ReadMessageFromBuffer` | FreeRTOS-Kernel/stream_buffer.c:1276-1328 | In place: the first message is returned intact or, if the caller's room is too small, nothing changes; a stream gives what there is. |
| `StreamBuffers.StreamBuffer.NextMessageLengthBytes` | FreeRTOS-Kernel/stream_buffer.c:1169-1210 | The length of the first message, and zero for an empty buffer or a stream. |
| `StreamBuffers.StreamBuffer.Send` | FreeRTOS-Kernel/stream_buffer.c:808-940 | In place: the send after its wait, and the reader woken exactly when bytes were written and the trigger level is reached. |
| `StreamBuffers.StreamBuffer.Receive` | FreeRTOS-Kernel/stream_buffer.c:1053-1166 | In place: the receive after its wait, with the threshold of a batching buffer, and the writer woken exactly when bytes were read. |
| `StreamBuffers.StreamBuffer.ReceiveFromISR` | FreeRTOS-Kernel/stream_buffer.c:1213-1273 | In place: the receive from an interrupt, which ignores the threshold of a batching buffer. |
| `StreamConcurrency.InvStep` | FreeRTOS-Kernel/stream_buffer.c:1476-1584 | Every single read and write of shared memory by one writer and one reader keeps the bytes sent equal to the bytes received and those in between. |
| `StreamConcurrency.StoredByteIsFree` | FreeRTOS-Kernel/stream_buffer.c:1476-1519 | Whatever the reader is doing, the byte being stored is not unread. |
| `StreamConcurrency.LoadedByteIsUnread` | FreeRTOS-Kernel/stream_buffer.c:1522-1563 | Whatever the writer is doing, the byte being loaded is unread. |
| `StreamConcurrency.NoByteIsShared` | FreeRTOS-Kernel/stream_buffer.c:1476-1563 | The byte being stored and the byte being loaded are never the same. |
| `StreamConcurrency.StepsAreDefined` | FreeRTOS-Kernel/stream_buffer.c:754-788 | No unsigned subtraction goes below zero and no copy leaves the storage, whenever the reader moves the tail. |
| `StreamConcurrency.SpaceIsExact` | FreeRTOS-Kernel/stream_buffer.c:754-788 | The writer goes by a space exactly when the tail has not moved while it computed it, and that space is then what there is; it stays at most what there is whatever the reader does. |
| `StreamConcurrency.ReceivedIsPrefixOfSent` | FreeRTOS-Kernel/stream_buffer.c:1000-1050 | Under every interleaving: the bytes received are the first of those that the sends wrote, each the start of what its caller gave, cut to the space it last computed; messages arrive whole and in order, each one given that fitted. With both sides idle as many have arrived as the receives asked for. |
| `EventGroups.WaitValueDecodes` | FreeRTOS-Kernel/event_groups.c:369-394 | The bits waited for and both wait options survive their encoding in the list item value. |
| `EventGroups.SnapshotDecodes` | FreeRTOS-Kernel/event_groups.c:621-627 | The bits handed to an unblocked task survive their encoding and are told from a timeout. |
| `EventGroups.SetBitsExact` | FreeRTOS-Kernel/event_groups.c:547-644 | One set unblocks exactly the waiters met by the old and new bits, gives each the same snapshot taken before the clear, and clears exactly what the unblocked asked for. |
| `EventGroups.ClearMaskIsUnion` | FreeRTOS-Kernel/event_groups.c:609-637 | The bits cleared are the union of the clear requests of the waiters that are met. |
| `EventGroups.FewerBitsMeetLess` | FreeRTOS-Kernel/event_groups.c:775-809 | A wait that is not met stays unmet when bits are cleared. |
| `EventGroups.InvStep` | FreeRTOS-Kernel/event_groups.c:185-500 | Every step keeps the invariant that no waiter is satisfied. |
| `EventGroups.ResumeReturnsMetBits` | FreeRTOS-Kernel/event_groups.c:403-468 | A wait ended by its bits returns bits that meet its condition, whatever happened since; one that timed out returns the current bits. |
| `EventGroups.MeetsExact` | FreeRTOS-Kernel/event_groups.c:775-809 | Bits meet a wait exactly when they have all of its bits, or for a wait for any, one of them; the condition and its encoding in the item value agree on it. |
| `EventCalls.WaitExact` | FreeRTOS-Kernel/event_groups.c:336-400 | A wait that is met clears its bits if it is to, and touches nobody; one that is not leaves the bits alone, and joins the waiters with its bits and options if it may. |
| `EventCalls.ClearExact` | FreeRTOS-Kernel/event_groups.c:472-500 | A bit is left exactly if it was set and not cleared, and no waiter is touched. |
| `EventCalls.SyncExact` | FreeRTOS-Kernel/event_groups.c:185-248 | After the set, a caller that finds all its bits among the old and the new takes them; any other joins the waiters if it may. |
| `EventCalls.TimeOutExact` | FreeRTOS-Kernel/tasks.c:4761-4776 | A waiter that times out leaves the list, keeps its item value, and changes no bit and no other waiter. |
| `EventCalls.ResumeExact` | FreeRTOS-Kernel/event_groups.c:403-468 | A task woken by its bits leaves the bits alone; one that timed out clears them exactly if it is to and they meet its condition by now. |
| `EventGroups.NoSatisfiedWaiter` | FreeRTOS-Kernel/event_groups.c:336-403 | Over any run of sets, clears, waits, rendezvous, timeouts and resumptions no task waits for bits that are set. |
| `EventGroups.EventGroup.SetBits` | FreeRTOS-Kernel/event_groups.c:547-644 | In place: the walk that removes entries as it goes has the exact effect of the set. |
| `EventGroups.EventGroup.ClearBits` | FreeRTOS-Kernel/event_groups.c:472-500 | In place: exactly these bits go, and the value before is returned. |
| `EventGroups.EventGroup.WaitBits` | FreeRTOS-Kernel/event_groups.c:312-400 | In place: the call blocks exactly when it may and its condition is not met; the bits it was to clear on exit go exactly if the condition is met, and no others do. |
| `EventGroups.EventGroup.Sync` | FreeRTOS-Kernel/event_groups.c:185-248 | In place: the set comes first, the call blocks exactly when the rendezvous is not complete and it may, and otherwise returns all the bits or, incomplete, the current ones. |
| `EventGroups.EventGroup.TimeOut` | FreeRTOS-Kernel/tasks.c:4761-4776 | In place: a waiter leaves the list with its item value. |
| `EventGroups.EventGroup.Resume` | FreeRTOS-Kernel/event_groups.c:403-468 | In place: what a call that blocked returns, and that it clears bits only if it timed out, was to clear, and its condition is met by now. |
| `Rendezvous.SyncLast` | FreeRTOS-Kernel/event_groups.c:205-230 | The last arrival releases every waiter with all the bits and leaves the group empty. |
| `Rendezvous.SyncEarly` | FreeRTOS-Kernel/event_groups.c:205-248 | An earlier arrival releases nobody and waits. |
| `Rendezvous.ReusableBarrier` | FreeRTOS-Kernel/event_groups.c:185-248 | Over any number of rounds and any interleaving the group's bits are those of the participants that wait, and no participant is more than one round ahead of another. |

## Left out

- Multi-core scheduling, the port layer, context-switch assembly, stacks, MPU, thread-local storage, trace, run-time statistics and formatting. Critical sections are atomic steps and `configASSERT` is a precondition.
- Task notifications: `prvTaskIsTaskSuspended` and `eTaskGetState` are modelled for tasks that wait for none, and a stream buffer's wait is only its outcome.
- Queue sets, and queue reset with tasks blocked on the queue.
- Queue storage is a ring of slots that hold one item each, not bytes; semaphores are queues whose items carry nothing.
- The retry loops of the blocking queue calls are the steps of the queue machine, in any order the kernel allows, not loops.
- Creation and deletion of mutexes and event groups, timers' names and identifiers, `vTimerSetReloadMode`, pended function calls, and allocation. A deleted timer is one that was allocated statically: it becomes inactive.
- The scheduler before it is started (`xSchedulerRunning` false) and after it is stopped. The `xNumOfOverflows` and `xPendedTicks` counters are unbounded.
- The round robin (`ListModel.RoundVisitsEachOnce`, `SchedulerTasks.EqualShares`) is proved of a list that does not change between choices; removing the indexed item moves the index back.
- Timer callbacks are entries in a log; what they do is not modelled.
- Event bits are sets of bit positions rather than 32-bit words.
- The two heap-level list macros `listINSERT_END` and `listREMOVE_ITEM` are taken as the functions they inline.
- The scheduler, timers, queues and event groups use lists as values; only `KernelLists` has the pointers, and its lists hold items rather than task blocks.
- SchedulerTasks.AbortDelayExact: leaves out the flag that tells an event waiter its delay was aborted; what a timeout check does with the flag is in `Timeouts.TimeBase.CheckForTimeOut`.
- SchedulerSuspension.StepTickExact: `vTaskStepTick` exists only with `configUSE_TICKLESS_IDLE` other than 0, and in that build an event's wake-up also recomputes the next unblock time (tasks.c:5376-5389, 5460-5473); the wake-ups modelled are those of the configured build, where the option is 0.
- SchedulerTasks.ChangePriorityExact: says what happens to the lists for any new priority; which priority is set is in `Mutexes`, and the two machines are not combined.
- MutexRuns.RecursiveBalance: the take of a free recursive mutex and the first increment of its call count are one step, since no other task reads the count in between.
- MutexKernels.MutexKernel.GiveMutex: waking the first waiter is a step of its own, which may come any time later, as it does when the queue is locked.
- SchedulerTasks.SuspendTaskExact: the two critical sections of `vTaskSuspend` (tasks.c:3124-3215, 3226-3232) are one step; the second one recomputes the next unblock time, and a tick between them finds the earlier value, which is still a lower bound.
- Deletion of a task that holds a mutex.
- EventGroups.EventGroup.SetBits: returns the bits as they are at the end of the set; the source reads them after it has resumed the scheduler, when another task may have changed them.
- QueueModel.NoLostWakeUp: its runs delete no woken task; `QueueModel.DeletionExact` says when such a deletion would keep what is proved.
- StreamBuffers.StreamBuffer.Send: a message length that overflows with its prefix is excluded for the interrupt form too, where the code does not assert it, and the buffer's length is taken to be below half the range of `size_t`.
- `croutine.c`, and the headers under `api/`.
