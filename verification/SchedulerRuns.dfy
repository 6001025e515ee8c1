/** The scheduler over whole runs of interrupts and calls. */
module SchedulerRuns {

  import opened Ticks
  import opened ListModel
  import opened KernelConfig
  import opened Banks
  import opened Scheduler
  import opened SchedulerTick
  import opened SchedulerBlocking
  import opened SchedulerTasks
  import opened SchedulerSuspension

  datatype Step =
    | TickComes
    /** `vTaskDelay` and `xTaskDelayUntil`, once they have decided to block. */
    | Block(ticks: Tick, indefinitely: bool)
    | WaitForEvent(id: nat, ordered: bool, ticks: Tick, indefinitely: bool)
    | EventComes(id: nat)
    | FlagsCome(t: Task, itemValue: nat)
    | SuspendOne(t: Task)
    | ResumeOne(t: Task)
    | ResumeOneFromISR(t: Task)
    | Abort(t: Task)
    | Create(t: Task, priority: nat)
    | Delete(t: Task)
    | IdleCleansUp
    | SetPriority(t: Task, priority: nat, itemValue: nat)
    | Switch
    | SuspendScheduler
    | ResumeScheduler
    | CatchUp(n: nat)
    | StepTicks(jump: Tick)
  {
    predicate IsOfScheduler() {
      IdleCleansUp? || Switch? || SuspendScheduler? || ResumeScheduler? || CatchUp? || StepTicks?
    }

    predicate IsOfTask() {
      EventComes? || FlagsCome? || SuspendOne? || ResumeOne? || ResumeOneFromISR? || Abort?
    }
  }

  ghost predicate Enabled(s: Sched, step: Step)
    requires Inv(s)
  {
    if step.IsOfScheduler() then EnabledOfScheduler(s, step)
    else if step.IsOfTask() then EnabledOfTask(s, step)
    else EnabledOfOthers(s, step)
  }

  ghost function Next(s: Sched, step: Step): Sched
    requires Inv(s) && Enabled(s, step)
  {
    if step.IsOfScheduler() then NextOfScheduler(s, step)
    else if step.IsOfTask() then NextOfTask(s, step)
    else NextOfOthers(s, step)
  }

  ghost predicate EnabledOfOthers(s: Sched, step: Step)
    requires Core(s)
  {
    match step
    case TickComes => true
    case Block(ticks, indefinitely) => s.states.container[s.current].Ready? && MayBlock(s, ticks, indefinitely)
    case WaitForEvent(id, ordered, ticks, indefinitely) =>
      s.states.container[s.current].Ready? && MayBlock(s, ticks, indefinitely)
    case Create(t, priority) => t !in s.priority
    case Delete(t) => Alive(s, t)
    case SetPriority(t, p, itemValue) => t in s.priority && p < MAX_PRIORITIES
    case _ => false
  }

  ghost function NextOfOthers(s: Sched, step: Step): Sched
    requires Core(s) && EnabledOfOthers(s, step)
  {
    match step
    case TickComes => TickInterrupt(s)
    case Block(ticks, indefinitely) => BlockCurrent(s, ticks, indefinitely)
    case WaitForEvent(id, ordered, ticks, indefinitely) => PlaceOnEventList(s, id, ordered, ticks, indefinitely)
    case Create(t, priority) => AddTask(s, t, priority)
    case Delete(t) => DeleteTask(s, t)
    case SetPriority(t, p, itemValue) => ChangePriority(s, t, p, itemValue)
  }

  /** A task that exists is woken, suspended or resumed. */
  ghost predicate EnabledOfTask(s: Sched, step: Step)
    requires Core(s)
  {
    match step
    case EventComes(id) => Items(s.events, Event(id)) != []
    case FlagsCome(t, itemValue) => t in s.events.container && s.depth > 0
    case SuspendOne(t) => Alive(s, t) && (t == s.current ==> s.depth == 0)
    case ResumeOne(t) => t in s.priority
    case ResumeOneFromISR(t) => t in s.priority
    case Abort(t) => t in s.priority
    case _ => false
  }

  ghost function NextOfTask(s: Sched, step: Step): Sched
    requires Core(s) && EnabledOfTask(s, step)
  {
    match step
    case EventComes(id) => RemoveFromEventList(s, id)
    case FlagsCome(t, itemValue) => RemoveFromUnordered(s, t, itemValue)
    case SuspendOne(t) => SuspendTask(s, t)
    case ResumeOne(t) => ResumeTask(s, t)
    case ResumeOneFromISR(t) => ResumeFromISR(s, t)
    case Abort(t) => AbortDelay(s, t)
  }

  ghost predicate EnabledOfScheduler(s: Sched, step: Step)
    requires Core(s)
  {
    match step
    case IdleCleansUp => s.states.container[s.current] != Termination
    case Switch => SomeReady(s)
    case SuspendScheduler => true
    case ResumeScheduler => s.depth > 0
    case CatchUp(n) => s.depth == 0
    case StepTicks(n) => MayStep(s, n) && s.tickCount + Jump(s, n) < TICK_MOD
    case _ => false
  }

  ghost function NextOfScheduler(s: Sched, step: Step): Sched
    requires Core(s) && EnabledOfScheduler(s, step)
  {
    match step
    case IdleCleansUp => CleanUp(s)
    case Switch => SwitchContext(s)
    case SuspendScheduler => SuspendAll(s)
    case ResumeScheduler => ResumeAll(s)
    case CatchUp(n) => CatchUpTicks(s, n)
    case StepTicks(n) => StepTick(s, n)
  }

  /** The ticks that a step adds. */
  function Elapsed(step: Step): nat {
    match step
    case TickComes => 1
    case CatchUp(n) => n
    case StepTicks(n) => n
    case _ => 0
  }

  // ---------- one step ----------

  lemma TickStep(s: Sched)
    requires Inv(s)
    ensures var r := TickInterrupt(s); Inv(r) && r.time + r.pended == s.time + s.pended + 1
  {
    hide Placed, ReadyInv, EventInv, CountInv, Timed, HeadBound, NothingDueAtWrap, IncrementTick, Items, DueBy, Readied;
    if s.depth == 0 {
      TickExact(s);
      TickPendsNothing(s);
    } else {
      FieldsOnly(s, s.depth, s.pended + 1, s.yieldPending);
    }
  }

  lemma TickPendsNothing(s: Sched)
    requires Inv(s) && Core(IncrementTick(s))
             && IncrementTick(s).events.container == s.events.container - DueBy(s, s.time + 1)
    ensures Items(s.events, PendingReady) == [] ==> Items(IncrementTick(s).events, PendingReady) == []
  {
    EmptyList(s.events, PendingReady);
    EmptyList(IncrementTick(s).events, PendingReady);
  }

  lemma BlockStep(s: Sched, step: Step)
    requires Inv(s) && Enabled(s, step) && (step.Block? || step.WaitForEvent?)
    ensures var r := Next(s, step); Inv(r) && r.time + r.pended == s.time + s.pended
  {
    hide Placed, ReadyInv, EventInv, CountInv, Timed, HeadBound, NothingDueAtWrap, BlockCurrent;
    if step.Block? {
      BlockExact(s, step.ticks, step.indefinitely);
    } else {
      BlockExact(s, step.ticks, step.indefinitely);
      PlaceOnEventListExact(s, step.id, step.ordered, step.ticks, step.indefinitely);
      PlacedNotPending(s, Next(s, step), step.id);
    }
  }

  lemma PlacedNotPending(s: Sched, r: Sched, id: nat)
    requires Core(s) && Core(r) && r.events.container == s.events.container[s.current := Event(id)]
    ensures Items(s.events, PendingReady) == [] ==> Items(r.events, PendingReady) == []
  {
    EmptyList(s.events, PendingReady);
    EmptyList(r.events, PendingReady);
  }

  lemma SuspensionStep(s: Sched, step: Step)
    requires Inv(s) && Enabled(s, step)
    requires step.SuspendScheduler? || step.ResumeScheduler? || step.CatchUp? || step.StepTicks?
    ensures var r := Next(s, step); Inv(r) && r.time + r.pended == s.time + s.pended + Elapsed(step)
  {
    hide Placed, ReadyInv, EventInv, CountInv, Timed, HeadBound, NothingDueAtWrap, ResumeAll, CatchUpTicks;
    match step
    case SuspendScheduler => FieldsOnly(s, s.depth + 1, s.pended, s.yieldPending);
    case ResumeScheduler =>
      if s.depth == 1 { ResumeAllExact(s); } else { ResumeNested(s); }
    case CatchUp(n) => CatchUpTicksExact(s, n);
    case StepTicks(n) => StepTickExact(s, n);
  }

  lemma InvStep(s: Sched, step: Step)
    requires Inv(s) && Enabled(s, step)
    ensures var r := Next(s, step); Inv(r) && r.time + r.pended == s.time + s.pended + Elapsed(step)
  {
    hide Placed, ReadyInv, EventInv, CountInv, Timed, HeadBound, NothingDueAtWrap, Settled;
    match step
    case TickComes => TickStep(s);
    case Block(ticks, indefinitely) => BlockStep(s, step);
    case WaitForEvent(id, ordered, ticks, indefinitely) => BlockStep(s, step);
    case EventComes(id) => RemoveFromEventListExact(s, id);
    case FlagsCome(t, itemValue) => RemoveFromUnorderedKeeps(s, t, itemValue);
    case SuspendOne(t) => SuspendTaskExact(s, t);
    case ResumeOne(t) => ResumeTaskExact(s, t);
    case ResumeOneFromISR(t) => ResumeFromISRExact(s, t);
    case Abort(t) => AbortDelayExact(s, t);
    case Create(t, priority) => AddTaskExact(s, t, priority);
    case Delete(t) => if t == s.current { DeleteSelfExact(s); } else { DeleteOtherExact(s, t); }
    case IdleCleansUp => CleanUpExact(s); CleanUpTime(s);
    case SetPriority(t, p, itemValue) => ChangePriorityExact(s, t, p, itemValue);
    case Switch => SwitchContextKeeps(s);
    case _ => SuspensionStep(s, step);
  }

  lemma {:induction false} CleanUpTime(s: Sched)
    requires Lists(s) && s.states.container[s.current] != Termination
    ensures CleanUp(s).time == s.time && CleanUp(s).pended == s.pended && CleanUp(s).depth == s.depth
    decreases s.deletedWaiting
  {
    hide Placed, ReadyInv, EventInv;
    if s.deletedWaiting > 0 {
      FirstDead(s);
      CleanUpTime(CleanUpOne(s));
    }
  }

  // ---------- runs ----------

  ghost predicate CanRun(s: Sched, steps: seq<Step>)
    requires Inv(s)
    decreases |steps|
  {
    steps == [] || (Enabled(s, steps[0]) && (InvStep(s, steps[0]); CanRun(Next(s, steps[0]), steps[1..])))
  }

  ghost function After(s: Sched, steps: seq<Step>): Sched
    requires Inv(s) && CanRun(s, steps)
    decreases |steps|
  {
    if steps == [] then s else (InvStep(s, steps[0]); After(Next(s, steps[0]), steps[1..]))
  }

  function TotalElapsed(steps: seq<Step>): nat {
    if steps == [] then 0 else Elapsed(steps[0]) + TotalElapsed(steps[1..])
  }

  /** The scheduler is started with the idle task only. */
  function Start(idle: Task): Sched {
    Sched(Bank(map[Ready(0) := ListState([idle], 0)], map[idle := Ready(0)]), Bank(map[], map[]),
          map[idle := 0], map[idle := 0], map[idle := MAX_PRIORITIES], idle, 0, 0, PORT_MAX_DELAY, false, 0, 0, 0,
          false,
          1, 0, 0, map[idle := 0])
  }

  lemma StartInv(idle: Task)
    ensures Inv(Start(idle))
  {
    hide Lists, Valid, Sorted;
    var s := Start(idle);
    assert Wrap(0) == 0 && Epoch(0) == 0;
    StartLists(idle);
  }

  lemma StartLists(idle: Task)
    ensures Lists(Start(idle))
    ensures Items(Start(idle).states, Delayed(false)) == [] && Items(Start(idle).states, Delayed(true)) == []
    ensures Sorted(Values([], Start(idle).value))
  {
    var s := Start(idle);
    assert s.priority == map[idle := 0] && |s.priority| == 1;
  }

  lemma {:induction false} InvAlways(s: Sched, steps: seq<Step>)
    requires Inv(s) && CanRun(s, steps)
    ensures Inv(After(s, steps))
    decreases |steps|
  {
    hide Inv, Next, Enabled;
    if steps != [] {
      InvStep(s, steps[0]);
      InvAlways(Next(s, steps[0]), steps[1..]);
    }
  }

  /** Through any nesting of suspensions, the tick count and the ticks held advance together by one for each tick
      that comes and by what is stepped or caught up; while the scheduler runs no tick is held. */
  lemma {:induction false} SuspendedTimeIsConserved(s: Sched, steps: seq<Step>)
    requires Inv(s) && CanRun(s, steps)
    ensures var r := After(s, steps);
            && r.time + r.pended == s.time + s.pended + TotalElapsed(steps)
            && (r.depth == 0 ==> r.time == s.time + s.pended + TotalElapsed(steps))
            && r.tickCount == Wrap(r.time)
    decreases |steps|
  {
    if steps != [] {
      InvStep(s, steps[0]);
      hide Inv, Next, Enabled;
      SuspendedTimeIsConserved(Next(s, steps[0]), steps[1..]);
    }
  }

  /** The lists a state list item can be on. */
  ghost function StateLists(): set<ListId> {
    (set p: nat | p < MAX_PRIORITIES :: Ready(p)) + {Delayed(false), Delayed(true), Suspended, Termination}
  }

  /** Each task is on one state list and on one event list at most, the lengths of the state lists add up to the
      number of tasks, each ready task is on the list of its priority, and no list above the highest ready
      priority has a task. */
  ghost predicate Conserved(r: Sched) {
    Counted(r) && OneListEach(r.states) && OneListEach(r.events) && OnOwnLists(r)
  }

  ghost predicate Counted(r: Sched) {
    && TotalLength(r.states, StateLists()) == r.numberOfTasks == |r.priority|
    && (forall t :: t in r.priority ==> t in r.states.container && r.states.container[t] in StateLists())
  }

  ghost predicate OneListEach(b: Bank) {
    forall l, t :: t in Items(b, l) <==> t in b.container && b.container[t] == l
  }

  ghost predicate OnOwnLists(r: Sched) {
    forall t, p: nat :: t in Items(r.states, Ready(p)) ==> t in r.priority && r.priority[t] == p <= r.topReady
  }

  lemma ConservedByInv(r: Sched)
    requires Lists(r)
    ensures Conserved(r)
  {
    hide Counted, OneListEach, OnOwnLists, Valid, ReadyInv, EventInv;
    CountedByInv(r);
    OnOneList(r.states);
    OnOneList(r.events);
    ReadyOnOwnList(r);
  }

  lemma CountedByInv(r: Sched)
    requires Lists(r)
    ensures Counted(r)
  {
    hide Valid, Items, StateLists, TotalLength, TasksOn, ReadyInv, EventInv;
    InStateLists(r);
    LengthsAddUp(r.states, StateLists());
  }

  lemma OnOneList(b: Bank)
    requires Valid(b)
    ensures OneListEach(b)
  {
  }

  lemma ReadyOnOwnList(r: Sched)
    requires Lists(r)
    ensures OnOwnLists(r)
  {
    forall t, p: nat | t in Items(r.states, Ready(p))
      ensures t in r.priority && r.priority[t] == p <= r.topReady
    {
      assert t in r.states.container && r.states.container[t] == Ready(p);
    }
  }

  /** In every reachable state the tasks are conserved. */
  lemma TasksAreConserved(s: Sched, steps: seq<Step>)
    requires Inv(s) && CanRun(s, steps)
    ensures Conserved(After(s, steps))
  {
    InvAlways(s, steps);
    hide Lists, After, Conserved;
    ConservedByInv(After(s, steps));
  }

  lemma InStateLists(r: Sched)
    requires Lists(r)
    ensures forall t :: t in r.states.container ==> r.states.container[t] in StateLists()
    ensures TasksOn(r.states, StateLists()) == r.priority.Keys
    ensures |r.priority.Keys| == |r.priority|
  {
    forall t | t in r.states.container
      ensures r.states.container[t] in StateLists()
    {
      assert StateListsOnly(r, t);
    }
  }

  lemma CurrentIsThere(s: Sched)
    requires Placed(s)
    ensures s.current in s.priority && s.current in s.states.container && s.current in s.wake
  {
  }
}
