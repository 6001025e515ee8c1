/** How long a blocked task waits, over whole runs: until its event comes or its time does, and no longer; and
    how long a pending yield waits. */
module SchedulerWaits {

  import opened Ticks
  import opened ListModel
  import opened KernelConfig
  import opened Banks
  import opened Scheduler
  import opened SchedulerTick
  import opened SchedulerBlocking
  import opened SchedulerTasks
  import opened SchedulerSuspension
  import opened SchedulerRuns
  import Timeouts

  // ---------- one step ----------

  /** The step takes `t` out of a delay before its time, or removes it. */
  predicate Disturbs(step: Step, t: Task) {
    match step
    case SuspendOne(u) => u == t
    case Abort(u) => u == t
    case Delete(u) => u == t
    case _ => false
  }

  /** The time at which a wait ends at the latest. */
  datatype Due = At(time: nat) | Never

  predicate Past(s: Sched, due: Due) {
    due.At? && due.time <= s.time
  }

  /** A task is blocked until `due` at the latest; without a limit it is on the suspended list, and waits for an
      event. */
  predicate Waiting(s: Sched, t: Task, due: Due) {
    && t in s.priority && t in s.states.container && t in s.wake
    && match due
       case At(time) => s.states.container[t].Delayed? && s.wake[t] == time
       case Never => s.states.container[t] == Suspended && t in s.events.container
  }

  predicate IsReady(s: Sched, t: Task) {
    t in s.priority && t in s.states.container && s.states.container[t] == Ready(s.priority[t])
  }

  /** The step is what an event of the task needs to make it ready: the event itself while the scheduler runs or
      for an event group, the end of the suspension for an event that came during it. */
  ghost predicate EventWakes(s: Sched, step: Step, t: Task)
    requires Inv(s) && Enabled(s, step)
  {
    match step
    case EventComes(id) => s.depth == 0 && Items(s.events, Event(id))[0] == t
    case FlagsCome(u, itemValue) => u == t
    case ResumeScheduler => s.depth == 1 && t in Pending(s)
    case _ => false
  }

  /** The task is ready and on no event list if it was woken or its time has come, and goes on waiting if not. */
  predicate Waited(r: Sched, t: Task, due: Due, woken: bool) {
    if woken || Past(r, due) then IsReady(r, t) && t !in r.events.container else Waiting(r, t, due)
  }

  /** A task that waits for no event does not come to wait for one. */
  predicate Eventless(s: Sched, r: Sched, t: Task) {
    t !in s.events.container ==> t !in r.events.container
  }

  lemma WaitsThroughTicks(s: Sched, r: Sched, t: Task, due: Due)
    requires Waiting(s, t, due) && !Past(s, due) && r.priority == s.priority && r.wake == s.wake
    requires r.states.container == Readied(s, if r.time > s.time then DueBy(s, r.time) else {})
    requires r.events.container == s.events.container - if r.time > s.time then DueBy(s, r.time) else {}
    requires r.time >= s.time
    ensures Waited(r, t, due, false) && Eventless(s, r, t)
  {
  }

  lemma WaitsThroughEvents(s: Sched, step: Step, t: Task, due: Due)
    requires Inv(s) && Enabled(s, step) && Waiting(s, t, due) && !Past(s, due) && (step.EventComes? || step.FlagsCome?)
    ensures Waited(Next(s, step), t, due, EventWakes(s, step, t)) && Eventless(s, Next(s, step), t)
  {
    hide ReadyInv, EventInv, CountInv, Timed, HeadBound, NothingDueAtWrap, Items, Settled, Valid, Unblock, Move;
    match step
    case EventComes(id) => HeadWaits(s, id); RemoveFromEventListExact(s, id); EventPriority(s, id);
    case FlagsCome(u, itemValue) => RemoveFromUnorderedKeeps(s, u, itemValue); FlagsPriority(s, u, itemValue);
  }

  lemma WaitsThroughBlocks(s: Sched, step: Step, t: Task, due: Due)
    requires Inv(s) && Enabled(s, step) && Waiting(s, t, due) && !Past(s, due) && (step.Block? || step.WaitForEvent?)
    ensures Waited(Next(s, step), t, due, false) && Eventless(s, Next(s, step), t)
  {
    hide Placed, ReadyInv, EventInv, CountInv, Timed, HeadBound, NothingDueAtWrap, Settled, Waiting, Waited,
         BlockCurrent, PlaceOnEventList, MayBlock;
    WaitsWhileCurrentBlocks(s, step.ticks, step.indefinitely, t, due);
    if step.WaitForEvent? {
      WaitingIsBlocking(s, step.id, step.ordered, step.ticks, step.indefinitely);
      OneEventMore(s, BlockCurrent(s, step.ticks, step.indefinitely), Next(s, step), step.id, t, due);
    }
  }

  lemma WaitsWhileCurrentBlocks(s: Sched, ticks: Tick, indefinitely: bool, t: Task, due: Due)
    requires Core(s) && s.states.container[s.current].Ready? && MayBlock(s, ticks, indefinitely)
    requires Waiting(s, t, due) && !Past(s, due)
    ensures t != s.current && Waited(BlockCurrent(s, ticks, indefinitely), t, due, false)
    ensures BlockCurrent(s, ticks, indefinitely).events == s.events && !Past(BlockCurrent(s, ticks, indefinitely), due)
  {
    hide ReadyInv, EventInv, CountInv, Timed, HeadBound, NothingDueAtWrap, Items, Valid, BlockCurrent;
    BlockExact(s, ticks, indefinitely);
    OthersWake(s, ticks, indefinitely, t);
  }

  lemma OneEventMore(s: Sched, b: Sched, r: Sched, id: nat, t: Task, due: Due)
    requires Waited(b, t, due, false) && !Past(b, due) && t != s.current && b.events == s.events
    requires r == b.(events := r.events) && r.events.container == s.events.container[s.current := Event(id)]
    ensures Waited(r, t, due, false) && Eventless(s, r, t)
  {
  }

  /** To wait for an event is to block, and to be on one list more. */
  lemma WaitingIsBlocking(s: Sched, id: nat, ordered: bool, ticks: Tick, indefinitely: bool)
    requires Core(s) && s.states.container[s.current].Ready? && MayBlock(s, ticks, indefinitely)
    ensures var b, r := BlockCurrent(s, ticks, indefinitely), PlaceOnEventList(s, id, ordered, ticks, indefinitely);
            r == b.(events := r.events) && r.events.container == s.events.container[s.current := Event(id)]
  {
    hide Placed, ReadyInv, EventInv, CountInv, Timed, HeadBound, NothingDueAtWrap, Items, BlockCurrent;
    PlaceOnEventListExact(s, id, ordered, ticks, indefinitely);
    BlockExact(s, ticks, indefinitely);
  }

  lemma EventPriority(s: Sched, id: nat)
    requires Placed(s) && Items(s.events, Event(id)) != []
    ensures RemoveFromEventList(s, id).priority == s.priority
  {
    HeadWaits(s, id);
  }

  lemma FlagsPriority(s: Sched, t: Task, itemValue: nat)
    requires Placed(s) && t in s.priority
    ensures RemoveFromUnordered(s, t, itemValue).priority == s.priority
  {
  }

  lemma OthersWake(s: Sched, ticks: Tick, indefinitely: bool, t: Task)
    requires Placed(s) && s.states.container[s.current].Ready? && t in s.wake && t != s.current
    ensures t in BlockCurrent(s, ticks, indefinitely).wake && BlockCurrent(s, ticks, indefinitely).wake[t] == s.wake[t]
  {
  }

  lemma WaitsThroughTasks(s: Sched, step: Step, t: Task, due: Due)
    requires Inv(s) && Enabled(s, step) && Waiting(s, t, due) && !Past(s, due) && !Disturbs(step, t)
    requires step.SuspendOne? || step.ResumeOne? || step.ResumeOneFromISR? || step.Abort?
    ensures Waited(Next(s, step), t, due, false) && Eventless(s, Next(s, step), t)
  {
    hide ReadyInv, EventInv, CountInv, Timed, HeadBound, NothingDueAtWrap, Items, Settled, Valid, Move, Unblock;
    match step
    case SuspendOne(u) => SuspendTaskExact(s, u);
    case ResumeOne(u) => WaitsThroughResumption(s, step, t, due);
    case ResumeOneFromISR(u) => WaitsThroughResumption(s, step, t, due);
    case Abort(u) => AbortDelayExact(s, u);
  }

  lemma WaitsThroughResumption(s: Sched, step: Step, t: Task, due: Due)
    requires Inv(s) && Enabled(s, step) && Waiting(s, t, due) && !Past(s, due)
             && (step.ResumeOne? || step.ResumeOneFromISR?)
    ensures Waited(Next(s, step), t, due, false) && Eventless(s, Next(s, step), t)
  {
    hide ReadyInv, EventInv, CountInv, Timed, HeadBound, NothingDueAtWrap, Items, Settled, Valid, Move, Unblock;
    if step.ResumeOne? {
      ResumeTaskExact(s, step.t);
    } else {
      ResumeFromISRExact(s, step.t);
    }
  }

  lemma WaitsThroughNews(s: Sched, step: Step, t: Task, due: Due)
    requires Inv(s) && Enabled(s, step) && Waiting(s, t, due) && !Past(s, due) && !Disturbs(step, t)
    requires step.Create? || step.Delete?
    ensures Waited(Next(s, step), t, due, false) && Eventless(s, Next(s, step), t)
  {
    hide ReadyInv, EventInv, CountInv, Timed, HeadBound, NothingDueAtWrap, Items, Settled, Valid, Move, InsertLast;
    match step
    case Create(u, priority) => AddTaskExact(s, u, priority);
    case Delete(u) => WaitsThroughDeletion(s, u, t, due);
  }

  lemma WaitsThroughDeletion(s: Sched, u: Task, t: Task, due: Due)
    requires Inv(s) && Alive(s, u) && Waiting(s, t, due) && !Past(s, due) && u != t
    ensures Waited(DeleteTask(s, u), t, due, false) && Eventless(s, DeleteTask(s, u), t)
  {
    hide ReadyInv, EventInv, CountInv, Timed, HeadBound, NothingDueAtWrap, Items, Settled, Valid, Move, InsertLast;
    if u == s.current {
      DeleteSelfExact(s);
    } else {
      DeleteOtherExact(s, u);
    }
  }

  lemma WaitsThroughSuspension(s: Sched, step: Step, t: Task, due: Due)
    requires Inv(s) && Enabled(s, step) && Waiting(s, t, due) && !Past(s, due)
    requires step.TickComes? || step.SuspendScheduler? || step.ResumeScheduler? || step.CatchUp?
    ensures Waited(Next(s, step), t, due, EventWakes(s, step, t)) && Eventless(s, Next(s, step), t)
  {
    hide Placed, ReadyInv, EventInv, CountInv, Timed, HeadBound, NothingDueAtWrap, Items, Settled, ResumeAll,
         CatchUpTicks, IncrementTick;
    match step
    case TickComes =>
      if s.depth == 0 {
        TickExact(s);
        WaitsThroughTicks(s, IncrementTick(s), t, due);
      }
    case SuspendScheduler =>
    case ResumeScheduler =>
      if s.depth == 1 {
        ResumeAllExact(s);
        WaitsThroughResume(s, ResumeAll(s), t, due);
      } else {
        ResumeNested(s);
      }
    case CatchUp(n) =>
      CatchUpTicksExact(s, n);
      CatchUpEvents(s, n);
      WaitsThroughTicks(s, CatchUpTicks(s, n), t, due);
  }

  lemma CatchUpEvents(s: Sched, n: nat)
    requires Inv(s) && s.depth == 0
    ensures CatchUpTicks(s, n).events.container == s.events.container - if n > 0 then DueBy(s, s.time + n) else {}
  {
    hide Placed, ReadyInv, EventInv, CountInv, Timed, HeadBound, NothingDueAtWrap, Items, ResumeAll, Readied, DueBy,
         Pending;
    var h := SuspendAll(s).(pended := s.pended + n);
    FieldsOnly(s, 1, s.pended + n, s.yieldPending);
    ResumeAllExact(h);
    RunningHasNonePending(s, h, n);
    assert {} + DueBy(s, s.time + n) == DueBy(s, s.time + n);
  }

  lemma WaitsThroughResume(s: Sched, r: Sched, t: Task, due: Due)
    requires Waiting(s, t, due) && !Past(s, due) && r.priority == s.priority && r.wake == s.wake
    requires r.time == s.time + s.pended
    requires var woken := Pending(s) + if s.pended > 0 then DueBy(s, s.time + s.pended) else {};
             r.states.container == Readied(s, woken) && r.events.container == s.events.container - woken
    ensures Waited(r, t, due, t in Pending(s)) && Eventless(s, r, t)
  {
  }

  lemma WaitsThroughRest(s: Sched, step: Step, t: Task, due: Due)
    requires Inv(s) && Enabled(s, step) && Waiting(s, t, due) && !Past(s, due)
    requires step.IdleCleansUp? || step.SetPriority? || step.Switch? || step.StepTicks?
    ensures Waited(Next(s, step), t, due, false) && Eventless(s, Next(s, step), t)
  {
    hide ReadyInv, EventInv, CountInv, Timed, HeadBound, NothingDueAtWrap, Items, Settled, Valid, Move;
    match step
    case IdleCleansUp => CleanUpExact(s); CleanUpTime(s); CleanUpOthers(s, t);
    case SetPriority(u, p, itemValue) => ChangePriorityExact(s, u, p, itemValue);
    case Switch => SwitchContextKeeps(s);
    case StepTicks(n) => StepTickExact(s, n); if due.At? { NotDueYet(s, StepTick(s, n), t); }
  }

  lemma NotDueYet(s: Sched, r: Sched, t: Task)
    requires DueBy(r, r.time) == {} && t in r.states.container && t in r.wake && r.states.container[t].Delayed?
    ensures r.time < r.wake[t]
  {
    assert t !in DueBy(r, r.time);
  }

  lemma {:induction false} CleanUpOthers(s: Sched, t: Task)
    requires Lists(s) && s.states.container[s.current] != Termination
    requires t in s.priority && t in s.wake && s.states.container[t] != Termination
    ensures t in CleanUp(s).priority && t in CleanUp(s).wake && CleanUp(s).wake[t] == s.wake[t]
    ensures CleanUp(s).priority[t] == s.priority[t]
    decreases s.deletedWaiting
  {
    hide Valid, ReadyInv, EventInv, Items;
    if s.deletedWaiting > 0 {
      FirstDead(s);
      CleanUpOthers(CleanUpOne(s), t);
    }
  }

  /** Apart from a direct intervention, a blocked task becomes ready at a step exactly when the step brings its
      event or its time. */
  lemma WaitStep(s: Sched, step: Step, t: Task, due: Due)
    requires Inv(s) && Enabled(s, step) && Waiting(s, t, due) && !Past(s, due) && !Disturbs(step, t)
    ensures Waited(Next(s, step), t, due, EventWakes(s, step, t)) && Eventless(s, Next(s, step), t)
  {
    hide Inv, Next, Enabled, Waiting, Waited, Eventless;
    match step
    case EventComes(_) => WaitsThroughEvents(s, step, t, due);
    case FlagsCome(_, _) => WaitsThroughEvents(s, step, t, due);
    case Block(_, _) => WaitsThroughBlocks(s, step, t, due);
    case WaitForEvent(_, _, _, _) => WaitsThroughBlocks(s, step, t, due);
    case TickComes => WaitsThroughSuspension(s, step, t, due);
    case SuspendScheduler => WaitsThroughSuspension(s, step, t, due);
    case ResumeScheduler => WaitsThroughSuspension(s, step, t, due);
    case CatchUp(_) => WaitsThroughSuspension(s, step, t, due);
    case IdleCleansUp => WaitsThroughRest(s, step, t, due);
    case SetPriority(_, _, _) => WaitsThroughRest(s, step, t, due);
    case Switch => WaitsThroughRest(s, step, t, due);
    case StepTicks(_) => WaitsThroughRest(s, step, t, due);
    case Create(_, _) => WaitsThroughNews(s, step, t, due);
    case Delete(_) => WaitsThroughNews(s, step, t, due);
    case _ => WaitsThroughTasks(s, step, t, due);
  }

  // ---------- whole runs ----------

  /** No step of the run touches the task directly. */
  predicate Undisturbed(steps: seq<Step>, t: Task) {
    forall i :: 0 <= i < |steps| ==> !Disturbs(steps[i], t)
  }

  /** In every state of the run but the last the time has not come, and no step but the last wakes the task. */
  ghost predicate StillWaits(s: Sched, steps: seq<Step>, t: Task, due: Due)
    requires Inv(s) && CanRun(s, steps)
    decreases |steps|
  {
    steps != [] ==>
      && !Past(s, due)
      && (|steps| > 1 ==> !EventWakes(s, steps[0], t))
      && (InvStep(s, steps[0]); StillWaits(Next(s, steps[0]), steps[1..], t, due))
  }

  /** The last step of the run is the one that the task's event needs to make it ready. */
  ghost predicate WokenAtLast(s: Sched, steps: seq<Step>, t: Task)
    requires Inv(s) && CanRun(s, steps)
    decreases |steps|
  {
    && steps != []
    && (if |steps| == 1 then EventWakes(s, steps[0], t)
        else (InvStep(s, steps[0]); WokenAtLast(Next(s, steps[0]), steps[1..], t)))
  }

  /** A blocked task waits in every state of a run until the step that brings its event or its time, and is ready
      after that step, however often the tick count wraps, the scheduler is suspended or other tasks come, go
      and change priority. */
  lemma {:induction false} WaitsUntilWokenOrDue(s: Sched, steps: seq<Step>, t: Task, due: Due)
    requires Inv(s) && CanRun(s, steps) && Undisturbed(steps, t) && StillWaits(s, steps, t, due)
    requires Waiting(s, t, due) && !Past(s, due)
    ensures Waited(After(s, steps), t, due, WokenAtLast(s, steps, t))
    decreases |steps|
  {
    hide Inv, Next, Enabled, IsReady, EventWakes;
    if steps != [] {
      InvStep(s, steps[0]);
      WaitStep(s, steps[0], t, due);
      if |steps| == 1 {
        assert steps[1..] == [];
      } else {
        WaitsUntilWokenOrDue(Next(s, steps[0]), steps[1..], t, due);
      }
    }
  }

  /** When a block that a task asks for ends at the latest. */
  function DueAfter(s: Sched, ticks: Tick, indefinitely: bool): Due {
    if ticks == PORT_MAX_DELAY && indefinitely then Never else At(s.time + ticks)
  }

  lemma FallsAsleep(s: Sched, step: Step)
    requires Inv(s) && Enabled(s, step) && (step.Block? || step.WaitForEvent?)
    requires step.ticks > 0 && (step.Block? ==> !(step.ticks == PORT_MAX_DELAY && step.indefinitely))
    ensures var r := Next(s, step);
            && Waiting(r, s.current, DueAfter(s, step.ticks, step.indefinitely)) && r.time == s.time
            && (step.Block? ==> s.current !in r.events.container)
            && (step.WaitForEvent? ==>
                  s.current in r.events.container && r.events.container[s.current] == Event(step.id))
  {
    hide Placed, ReadyInv, EventInv, CountInv, Timed, HeadBound, NothingDueAtWrap, Items, BlockCurrent,
         PlaceOnEventList;
    CurrentIsThere(s);
    ReadyWaitsForNothing(s, s.current);
    BlockExact(s, step.ticks, step.indefinitely);
    if step.WaitForEvent? {
      WaitingIsBlocking(s, step.id, step.ordered, step.ticks, step.indefinitely);
    }
  }

  /** From the call that waits for an event, with a timeout or without: the task is blocked in every state until the
      step that brings its event or its time, and ready after it. */
  lemma EventWaitIsExact(s: Sched, id: nat, ordered: bool, ticks: Tick, indefinitely: bool, steps: seq<Step>)
    requires Inv(s) && Enabled(s, WaitForEvent(id, ordered, ticks, indefinitely)) && ticks > 0
    requires Undisturbed(steps, s.current)
    requires (InvStep(s, WaitForEvent(id, ordered, ticks, indefinitely));
              var b := Next(s, WaitForEvent(id, ordered, ticks, indefinitely));
              CanRun(b, steps) && StillWaits(b, steps, s.current, DueAfter(s, ticks, indefinitely)))
    ensures (InvStep(s, WaitForEvent(id, ordered, ticks, indefinitely));
             var b := Next(s, WaitForEvent(id, ordered, ticks, indefinitely));
             Waited(After(b, steps), s.current, DueAfter(s, ticks, indefinitely), WokenAtLast(b, steps, s.current)))
  {
    hide Inv, CanRun, StillWaits, After, Waited, Waiting, Next, Enabled, WokenAtLast;
    var step := WaitForEvent(id, ordered, ticks, indefinitely);
    InvStep(s, step);
    FallsAsleep(s, step);
    WaitsUntilWokenOrDue(Next(s, step), steps, s.current, DueAfter(s, ticks, indefinitely));
  }

  // ---------- delays ----------

  /** Every state of the run is before `due`, except perhaps the last. */
  ghost predicate Before(s: Sched, steps: seq<Step>, due: nat)
    requires Inv(s) && CanRun(s, steps)
    decreases |steps|
  {
    steps != [] ==>
      s.time < due && (InvStep(s, steps[0]); Before(Next(s, steps[0]), steps[1..], due))
  }

  /** A task that is delayed and waits for nothing else sleeps on, or is awake because its time has come. */
  predicate SleptWell(r: Sched, t: Task, due: nat) {
    if r.time < due then Waiting(r, t, At(due)) && t !in r.events.container else IsReady(r, t)
  }

  /** No event is the one of a task that waits for none. */
  lemma NothingWakes(s: Sched, step: Step, t: Task)
    requires Inv(s) && Enabled(s, step) && t !in s.events.container
    ensures !EventWakes(s, step, t)
  {
    if step.EventComes? {
      HeadWaits(s, step.id);
    }
  }

  /** A delayed task sleeps in every state of a run in which its time has not come, and is ready in the first one in
      which it has. */
  lemma {:induction false} SleepsUntilDue(s: Sched, steps: seq<Step>, t: Task, due: nat)
    requires Inv(s) && CanRun(s, steps) && Before(s, steps, due)
    requires SleptWell(s, t, due) && Undisturbed(steps, t)
    ensures SleptWell(After(s, steps), t, due)
    decreases |steps|
  {
    hide Inv, Next, Enabled, Waiting, IsReady, EventWakes;
    if steps != [] {
      InvStep(s, steps[0]);
      NothingWakes(s, steps[0], t);
      WaitStep(s, steps[0], t, At(due));
      SleepsUntilDue(Next(s, steps[0]), steps[1..], t, due);
    }
  }

  /** From the call that delays to the state in which the time has come. */
  lemma DelayIsExact(s: Sched, ticks: Tick, indefinitely: bool, steps: seq<Step>)
    requires Inv(s) && Enabled(s, Block(ticks, indefinitely)) && ticks > 0
    requires !(ticks == PORT_MAX_DELAY && indefinitely) && Undisturbed(steps, s.current)
    requires (InvStep(s, Block(ticks, indefinitely));
              var b := Next(s, Block(ticks, indefinitely));
              CanRun(b, steps) && Before(b, steps, s.time + ticks))
    ensures (InvStep(s, Block(ticks, indefinitely));
             SleptWell(After(Next(s, Block(ticks, indefinitely)), steps), s.current, s.time + ticks))
  {
    hide Inv, CanRun, Before, After, Next, Enabled, Waiting, IsReady;
    InvStep(s, Block(ticks, indefinitely));
    FallsAsleep(s, Block(ticks, indefinitely));
    SleepsUntilDue(Next(s, Block(ticks, indefinitely)), steps, s.current, s.time + ticks);
  }

  /** The wakes of a periodic task, over runs of the scheduler. After any number of calls of `xTaskDelayUntil`, the next
      one, made in time, blocks; and the task sleeps in every state before the next nominal wake, the start plus
      the sum of all increments, and is ready in the first state at or after it. */
  lemma PeriodicWakeIsExact(s: Sched, start: nat, increments: seq<Tick>, increment: Tick, steps: seq<Step>)
    requires Inv(s) && increment > 0 && Undisturbed(steps, s.current)
    requires start + Timeouts.Sum(increments) <= s.time < start + Timeouts.Sum(increments) + increment
    requires var ticks := SubTicks(AddTicks(Timeouts.StoredWake(Wrap(start), increments), increment), s.tickCount);
             && Enabled(s, Block(ticks, false))
             && (InvStep(s, Block(ticks, false));
                 var b := Next(s, Block(ticks, false));
                 CanRun(b, steps) && Before(b, steps, start + Timeouts.Sum(increments) + increment))
    ensures var previous := Timeouts.StoredWake(Wrap(start), increments);
            var ticks := SubTicks(AddTicks(previous, increment), s.tickCount);
            && Timeouts.ShouldDelay(previous, increment, s.tickCount)
            && (InvStep(s, Block(ticks, false));
                SleptWell(After(Next(s, Block(ticks, false)), steps), s.current,
                          start + Timeouts.Sum(increments) + increment))
  {
    hide Placed, ReadyInv, EventInv, CountInv, HeadBound, NothingDueAtWrap, OnTime, CanRun, Before, After, Next,
         Enabled, Wrap;
    Timeouts.NoDrift(start, increments, increment, s.time);
    var ticks := SubTicks(AddTicks(Timeouts.StoredWake(Wrap(start), increments), increment), s.tickCount);
    assert s.time + ticks == start + Timeouts.Sum(increments) + increment;
    DelayIsExact(s, ticks, false, steps);
  }

  // ---------- a pending yield ----------

  lemma {:induction false} MovePendingYields(s: Sched)
    requires Core(s) && s.yieldPending
    ensures MovePending(s).yieldPending
    decreases |Items(s.events, PendingReady)|
  {
    hide Placed, ReadyInv, EventInv, CountInv, Timed, HeadBound, NothingDueAtWrap, Unblock;
    if Items(s.events, PendingReady) != [] {
      FirstPending(s);
      MovePendingYields(MovePendingOne(s));
    }
  }

  lemma {:induction false} TickManyYields(s: Sched, n: nat)
    requires Core(s) && s.yieldPending
    ensures TickMany(s, n).yieldPending
    decreases n
  {
    hide Placed, ReadyInv, EventInv, CountInv, Timed, HeadBound, NothingDueAtWrap, IncrementTick, SwitchRequired;
    if n > 0 {
      TickExact(s);
      var r := IncrementTick(s).(yieldPending := true);
      YieldOnly(IncrementTick(s), true);
      TickManyYields(r, n - 1);
    }
  }

  lemma ResumeYields(s: Sched)
    requires Core(s) && s.depth > 0 && s.yieldPending
    ensures ResumeAll(s).yieldPending
  {
    hide Placed, ReadyInv, EventInv, CountInv, Timed, HeadBound, NothingDueAtWrap, TickMany, MovePending, Items;
    var d := s.(depth := s.depth - 1);
    FieldsOnly(s, d.depth, s.pended, s.yieldPending);
    if d.depth == 0 {
      MovePendingExact(d);
      MovePendingYields(d);
      var m := if Items(d.events, PendingReady) != [] then ResetNextUnblock(MovePending(d)) else MovePending(d);
      ResetCore(MovePending(d));
      TickManyYields(m, s.pended);
    }
  }

  lemma {:induction false} CleanUpYields(s: Sched)
    requires Lists(s) && s.states.container[s.current] != Termination
    ensures CleanUp(s).yieldPending == s.yieldPending
    decreases s.deletedWaiting
  {
    hide Placed, ReadyInv, EventInv;
    if s.deletedWaiting > 0 {
      FirstDead(s);
      CleanUpYields(CleanUpOne(s));
    }
  }

  /** A pending yield is forgotten by nothing but a switch while the scheduler runs. */
  lemma YieldStep(s: Sched, step: Step)
    requires Inv(s) && Enabled(s, step) && s.yieldPending && !(step.Switch? && s.depth == 0)
    ensures Next(s, step).yieldPending
  {
    hide ReadyInv, EventInv, CountInv, Timed, HeadBound, NothingDueAtWrap, Settled, Items, Valid, Move, MovePending,
         TickMany, InsertDelayed, InsertLast;
    match step
    case TickComes => if s.depth == 0 { TickExact(s); }
    case Block(ticks, indefinitely) => BlockExact(s, ticks, indefinitely);
    case WaitForEvent(id, ordered, ticks, indefinitely) =>
      BlockExact(s, ticks, indefinitely);
      WaitingIsBlocking(s, id, ordered, ticks, indefinitely);
    case IdleCleansUp => CleanUpYields(s);
    case ResumeScheduler => ResumeYields(s);
    case CatchUp(n) =>
      HeldCore(s, n);
      ResumeYields(SuspendAll(s).(pended := s.pended + n));
    case _ =>
  }

  /** There is no switch in the run while the scheduler runs. */
  ghost predicate NoSwitch(s: Sched, steps: seq<Step>)
    requires Inv(s) && CanRun(s, steps)
    decreases |steps|
  {
    steps != [] ==>
      !(steps[0].Switch? && s.depth == 0) && (InvStep(s, steps[0]); NoSwitch(Next(s, steps[0]), steps[1..]))
  }

  /** A yield that an interrupt or a kernel call leaves pending survives every run until the scheduler switches, and
      any tick that comes while the scheduler runs asks for the switch. */
  lemma {:induction false} PendingYieldIsHonoured(s: Sched, steps: seq<Step>)
    requires Inv(s) && CanRun(s, steps) && NoSwitch(s, steps) && s.yieldPending
    ensures var r := After(s, steps); Inv(r) && r.yieldPending && SwitchRequired(r)
    decreases |steps|
  {
    hide Core, Settled, Next, Enabled;
    if steps != [] {
      InvStep(s, steps[0]);
      YieldStep(s, steps[0]);
      PendingYieldIsHonoured(Next(s, steps[0]), steps[1..]);
    } else {
      YieldIsRequired(s);
    }
  }

  lemma YieldIsRequired(s: Sched)
    requires Inv(s) && s.yieldPending
    ensures Placed(s) && SwitchRequired(s)
  {
  }

  lemma HigherWakeUpPends(s: Sched, id: nat)
    requires Inv(s) && Enabled(s, EventComes(id)) && HeadOutranks(s, id)
    ensures Next(s, EventComes(id)).yieldPending
  {
    HeadWaits(s, id);
    CurrentIsThere(s);
  }

  /** From the event to the switch: an event that wakes a task of higher priority than the current one has a switch
      asked for at every tick, through any run, until the scheduler switches. */
  lemma HigherWakeUpIsHonoured(s: Sched, id: nat, steps: seq<Step>)
    requires Inv(s) && Enabled(s, EventComes(id)) && HeadOutranks(s, id)
    requires (InvStep(s, EventComes(id));
              CanRun(Next(s, EventComes(id)), steps) && NoSwitch(Next(s, EventComes(id)), steps))
    ensures (InvStep(s, EventComes(id));
             var r := After(Next(s, EventComes(id)), steps);
             Inv(r) && r.yieldPending && SwitchRequired(r))
  {
    hide Core, Settled, CanRun, NoSwitch, After, SwitchRequired, HeadOutranks, Next;
    InvStep(s, EventComes(id));
    HigherWakeUpPends(s, id);
    PendingYieldIsHonoured(Next(s, EventComes(id)), steps);
  }

  // ---------- states that the code can reach ----------

  /** The assertion of `vTaskStepTick` holds of a step across the wrap: sixteen ticks before it, a step of thirty-two
      passes, and the tick count and the overflow count part. */
  lemma CrossingStepIsAdmitted(idle: Task)
    ensures Inv(Start(idle))
    ensures var far := StepTicks(0xFFFF_FFF0);
            && Enabled(Start(idle), far)
            && (InvStep(Start(idle), far);
                var s := Next(Start(idle), far);
                && MayStep(s, 0x20)
                && !Inv(StepTick(s, 0x20)))
  {
    StartInv(idle);
    var s0 := Start(idle);
    StepTickExact(s0, 0xFFFF_FFF0);
    StepTickExact(StepTick(s0, 0xFFFF_FFF0), 0x20);
  }

  /** One tick short of the last one, and then the last one. */
  lemma LastTickReached(idle: Task) returns (s1: Sched, s2: Sched)
    ensures Inv(Start(idle)) && Enabled(Start(idle), StepTicks(0xFFFF_FFFE))
    ensures s1 == StepTick(Start(idle), 0xFFFF_FFFE) && Inv(s1) && s1.depth == 0
    ensures s2 == IncrementTick(s1) && Inv(s2)
    ensures s2.tickCount == PORT_MAX_DELAY && s2.current == idle
    ensures idle in s2.states.container && s2.states.container[idle] == Ready(0)
  {
    hide Placed, ReadyInv, EventInv, CountInv, Timed, HeadBound, NothingDueAtWrap, Items, IncrementTick;
    StartInv(idle);
    s1 := FarFromStart(idle);
    LastTickAfter(s1, idle);
    s2 := IncrementTick(s1);
  }

  lemma FarFromStart(idle: Task) returns (s1: Sched)
    ensures Inv(Start(idle)) && Enabled(Start(idle), StepTicks(0xFFFF_FFFE))
    ensures s1 == StepTick(Start(idle), 0xFFFF_FFFE) && Inv(s1)
    ensures s1.time == 0xFFFF_FFFE && s1.depth == 0 && s1.current == idle
            && s1.states.container == map[idle := Ready(0)]
  {
    StartInv(idle);
    StepTickExact(Start(idle), 0xFFFF_FFFE);
    s1 := StepTick(Start(idle), 0xFFFF_FFFE);
  }

  lemma LastTickAfter(s1: Sched, idle: Task)
    requires Inv(s1) && s1.time == 0xFFFF_FFFE && s1.depth == 0 && s1.current == idle
    requires s1.states.container == map[idle := Ready(0)]
    ensures var s2 := IncrementTick(s1);
            && Inv(s2) && s2.tickCount == PORT_MAX_DELAY && s2.current == idle
            && s2.states.container == map[idle := Ready(0)]
  {
    hide Placed, ReadyInv, EventInv, CountInv, HeadBound, NothingDueAtWrap, Items, IncrementTick;
    TickStep(s1);
    TickExact(s1);
    assert DueBy(s1, s1.time + 1) == {};
    assert Readied(s1, {}) == s1.states.container;
  }

  /** At the last tick before the wrap a block of no ticks is possible, and leaves a task on the list that must be
      empty at the next tick. */
  lemma ZeroBlockAtLastTick(idle: Task)
    ensures Inv(Start(idle))
    ensures var steps := [StepTicks(0xFFFF_FFFE), TickComes];
            && CanRun(Start(idle), steps)
            && (InvAlways(Start(idle), steps);
                var s := After(Start(idle), steps);
                && s.tickCount == PORT_MAX_DELAY
                && s.current in s.states.container && s.states.container[s.current].Ready?
                && !Core(BlockCurrent(s, 0, false)) && DelayedNow(BlockCurrent(s, 0, false)) != [])
  {
    hide Placed, ReadyInv, EventInv, CountInv, Timed, HeadBound, NothingDueAtWrap, Settled, Items, IncrementTick,
         StepTick, BlockCurrent, Start;
    var s1, s2 := LastTickReached(idle);
    var steps := [StepTicks(0xFFFF_FFFE), TickComes];
    assert steps[1..] == [TickComes] && [TickComes][1..] == [];
    assert CanRun(s2, []);
    assert CanRun(s1, [TickComes]) && After(s1, [TickComes]) == s2;
    BlockExact(s2, 0, false);
  }
}
