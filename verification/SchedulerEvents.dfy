/** The lines of tasks that wait for an event: in order of priority over whole runs, so that an event wakes the most
    urgent task. */
module SchedulerEvents {

  import opened Ticks
  import opened ListModel
  import opened KernelConfig
  import opened Banks
  import opened Scheduler
  import opened SchedulerTick
  import opened SchedulerBlocking
  import opened SchedulerTasks
  import opened SchedulerSuspension
  import opened SchedulerRuns

  function Line(s: Sched, id: nat): seq<Task> {
    Items(s.events, Event(id))
  }

  /** The task's event item stands for its priority, as it does unless it is lent to an event group. */
  predicate Stands(s: Sched, t: Task) {
    t in s.priority && t in s.eventValue && s.eventValue[t] + s.priority[t] == MAX_PRIORITIES
  }

  /** The tasks that wait for an event are in line by their priorities. */
  ghost predicate InLine(s: Sched, id: nat) {
    && (forall t :: t in Line(s, id) ==> Stands(s, t))
    && Sorted(Values(Line(s, id), s.eventValue))
  }

  /** At most one task has left the line. */
  ghost predicate OneLess(before: seq<Task>, after: seq<Task>) {
    after == before || exists k :: 0 <= k < |before| && after == RemoveAt(before, k)
  }

  lemma Shorter(s: Sched, r: Sched, id: nat)
    requires InLine(s, id) && OneLess(Line(s, id), Line(r, id))
    requires forall t :: t in Line(r, id) && Stands(s, t) ==> Stands(r, t) && r.eventValue[t] == s.eventValue[t]
    ensures InLine(r, id)
  {
    var before, after := Line(s, id), Line(r, id);
    if after != before {
      var k :| 0 <= k < |before| && after == RemoveAt(before, k);
      ValuesRemove(before, k, s.eventValue);
      forall i | 0 <= i < |after|
        ensures after[i] in before
      {
        assert after[i] == before[if i < k then i else i + 1];
      }
    }
    ValuesElsewhere(after, s.eventValue, r.eventValue);
  }

  lemma LeftLine(b: Bank, t: Task, id: nat)
    requires Valid(b)
    ensures OneLess(Items(b, Event(id)), Items(RemoveIfThere(b, t), Event(id)))
  {
    if t in b.container {
      RemoveKeeps(b, t);
      assert t in Items(b, b.container[t]);
    }
  }

  lemma MovedFromLine(b: Bank, t: Task, id: nat)
    requires Valid(b) && t in b.container
    ensures OneLess(Items(b, Event(id)), Items(Move(b, PendingReady, t), Event(id)))
  {
    hide Move;
    MoveKeeps(b, PendingReady, t);
    assert t in Items(b, b.container[t]);
  }

  lemma PendedBesideLine(b: Bank, t: Task, id: nat)
    requires Valid(b) && t !in b.container
    ensures Items(InsertLast(b, PendingReady, t), Event(id)) == Items(b, Event(id))
  {
    InsertKeeps(b, PendingReady, LastPlace(b, PendingReady), t);
  }

  lemma Leaves(s: Sched, r: Sched, t: Task, id: nat)
    requires Valid(s.events) && InLine(s, id)
    requires r.events == RemoveIfThere(s.events, t) && r.priority == s.priority && r.eventValue == s.eventValue
    ensures InLine(r, id)
  {
    hide Valid, RemoveIfThere, Sorted, Values, OneLess;
    LeftLine(s.events, t, id);
    Shorter(s, r, id);
  }

  lemma Stays(s: Sched, r: Sched, id: nat)
    requires InLine(s, id) && r.events == s.events && r.priority == s.priority && r.eventValue == s.eventValue
    ensures InLine(r, id)
  {
  }

  // ---------- ticks and resumptions ----------

  lemma {:induction false} WakeDueInLine(s: Sched, low: int, id: nat)
    requires Lists(s) && Timed(s, low) && InLine(s, id)
    ensures InLine(WakeDue(s), id)
    decreases |DelayedNow(s)|
  {
    hide Unblock, ReadyInv, EventInv, CountInv, Timed, DelayedNow, InLine, Valid;
    if DelayedNow(s) == [] || s.tickCount < ValueOf(s.value, DelayedNow(s)[0]) {
      EndOfLoop(s, low);
      Stays(s, WakeDue(s), id);
    } else {
      var h := DelayedNow(s)[0];
      WakeOne(s, low);
      UnblockInLine(s, h, id);
      WakeDueInLine(Unblock(s, h), low, id);
    }
  }

  lemma UnblockInLine(s: Sched, t: Task, id: nat)
    requires Placed(s) && t in s.priority && InLine(s, id)
    ensures InLine(Unblock(s, t), id)
  {
    hide InLine, Valid, Move, RemoveIfThere;
    Leaves(s, Unblock(s, t), t, id);
  }

  lemma TickInLine(s: Sched, id: nat)
    requires Core(s) && InLine(s, id)
    ensures InLine(IncrementTick(s), id)
  {
    hide ReadyInv, EventInv, CountInv, HeadBound, NothingDueAtWrap, InLine, Placed, OnTime, WakeDue;
    if s.tickCount == PORT_MAX_DELAY {
      AdvanceWithWrap(s);
    } else {
      AdvanceWithoutWrap(s);
    }
    var a := AdvanceClock(s);
    Stays(s, a, id);
    WakeDueInLine(a, s.time, id);
  }

  lemma {:induction false} MovePendingInLine(s: Sched, id: nat)
    requires Core(s) && InLine(s, id)
    ensures InLine(MovePending(s), id)
    decreases |Items(s.events, PendingReady)|
  {
    hide ReadyInv, EventInv, CountInv, Timed, HeadBound, NothingDueAtWrap, InLine, Valid, Unblock, Items;
    if Items(s.events, PendingReady) != [] {
      FirstPending(s);
      var h := Items(s.events, PendingReady)[0];
      UnblockInLine(s, h, id);
      Stays(Unblock(s, h), MovePendingOne(s), id);
      MovePendingInLine(MovePendingOne(s), id);
    }
  }

  lemma {:induction false} TickManyInLine(s: Sched, n: nat, id: nat)
    requires Core(s) && InLine(s, id)
    ensures InLine(TickMany(s, n), id)
    decreases n
  {
    hide Placed, ReadyInv, EventInv, CountInv, Timed, HeadBound, NothingDueAtWrap, InLine, IncrementTick,
         SwitchRequired;
    if n > 0 {
      TickExact(s);
      TickInLine(s, id);
      var m := IncrementTick(s).(yieldPending := s.yieldPending || SwitchRequired(s));
      YieldOnly(IncrementTick(s), m.yieldPending);
      Stays(IncrementTick(s), m, id);
      TickManyInLine(m, n - 1, id);
    }
  }

  lemma ResumeInLine(s: Sched, id: nat)
    requires Core(s) && s.depth > 0 && InLine(s, id)
    ensures InLine(ResumeAll(s), id)
  {
    hide Placed, ReadyInv, EventInv, CountInv, Timed, HeadBound, NothingDueAtWrap, InLine, TickMany, MovePending, Items;
    var d := s.(depth := s.depth - 1);
    FieldsOnly(s, d.depth, s.pended, s.yieldPending);
    Stays(s, d, id);
    if d.depth == 0 {
      MovePendingExact(d);
      MovePendingInLine(d, id);
      var m := if Items(d.events, PendingReady) != [] then ResetNextUnblock(MovePending(d)) else MovePending(d);
      ResetCore(MovePending(d));
      Stays(MovePending(d), m, id);
      TickManyInLine(m, s.pended, id);
      Stays(TickMany(m, s.pended), ResumeAll(s), id);
    }
  }

  lemma {:induction false} CleanUpInLine(s: Sched, id: nat)
    requires Lists(s) && s.states.container[s.current] != Termination && InLine(s, id)
    ensures InLine(CleanUp(s), id)
    decreases s.deletedWaiting
  {
    hide ReadyInv, CountInv, InLine, Valid;
    if s.deletedWaiting > 0 {
      FirstDead(s);
      ForgetInLine(s, Items(s.states, Termination)[0], id);
      Stays(Forget(s, Items(s.states, Termination)[0]), CleanUpOne(s), id);
      CleanUpInLine(CleanUpOne(s), id);
    }
  }

  lemma ForgetInLine(s: Sched, t: Task, id: nat)
    requires Placed(s) && t in s.priority && s.numberOfTasks > 0 && InLine(s, id)
    ensures InLine(Forget(s, t), id)
  {
    hide Sorted, Values, RemoveItem;
    LeftLine(s.events, t, id);
    RemoveIfThereKeeps(s.events, t);
    GoneFromLine(s.events, t, id);
    hide Valid, RemoveIfThere, OneLess, Items;
    Shorter(s, Forget(s, t), id);
  }

  lemma GoneFromLine(b: Bank, t: Task, id: nat)
    requires Valid(b)
    ensures t !in Items(RemoveIfThere(b, t), Event(id))
  {
    RemoveIfThereKeeps(b, t);
  }

  // ---------- one step ----------

  /** The line of the event is entered by priority, by tasks whose items stand for theirs, and no task changes its
      priority while it is in it. */
  predicate KeepsLine(s: Sched, step: Step, id: nat) {
    match step
    case WaitForEvent(event, ordered, _, _) => event == id ==> ordered && Stands(s, s.current)
    case SetPriority(t, _, _) => t !in Line(s, id)
    case _ => true
  }

  lemma EntersLine(s: Sched, r: Sched, id: nat)
    requires InLine(s, id) && Stands(s, s.current)
    requires EnteredByValue(Line(s, id), s.current, Line(r, id), s.eventValue)
    requires r.priority == s.priority && r.eventValue == s.eventValue
    ensures InLine(r, id)
  {
    var before, t := Line(s, id), s.current;
    var v, values := ValueOf(s.eventValue, t), Values(before, s.eventValue);
    var k :| 0 <= k <= |before| && Line(r, id) == InsertAt(before, k, t)
             && (forall i :: 0 <= i < k ==> ValueOf(s.eventValue, before[i]) <= v)
             && (k < |before| ==> v < ValueOf(s.eventValue, before[k]));
    InsertPositionUnique(values, v, k);
    SortedInsertIsStable(values, v);
    ValuesInsert(before, k, t, s.eventValue);
    hide Sorted, Values;
    forall u | u in Line(r, id)
      ensures u == t || u in before
    {
      InsertedMember(before, k, t, u);
    }
  }

  lemma InsertedMember(items: seq<Task>, k: nat, t: Task, u: Task)
    requires k <= |items| && u in InsertAt(items, k, t)
    ensures u == t || u in items
  {
  }

  lemma WakesInLine(s: Sched, step: Step, id: nat)
    requires Inv(s) && Enabled(s, step) && InLine(s, id)
    requires step.EventComes? || step.FlagsCome? || step.SuspendOne? || step.Abort?
    ensures InLine(Next(s, step), id)
  {
    hide ReadyInv, EventInv, CountInv, Timed, HeadBound, NothingDueAtWrap, Settled, InLine, Valid, Items, Unblock, Move;
    match step
    case EventComes(event) => EventInLine(s, event, id);
    case FlagsCome(t, itemValue) => FlagsInLine(s, t, itemValue, id);
    case SuspendOne(t) => SuspendInLine(s, t, id);
    case Abort(t) =>
      if IsBlocked(s, t) {
        UnblockInLine(s, t, id);
        Stays(Unblock(s, t), AbortDelay(s, t), id);
      }
  }

  lemma EventInLine(s: Sched, event: nat, id: nat)
    requires Core(s) && Items(s.events, Event(event)) != [] && InLine(s, id)
    ensures InLine(SchedulerBlocking.RemoveFromEventList(s, event), id)
  {
    hide ReadyInv, EventInv, CountInv, Timed, HeadBound, NothingDueAtWrap, InLine, Valid, Unblock, Move, OneLess;
    var t, r := Items(s.events, Event(event))[0], SchedulerBlocking.RemoveFromEventList(s, event);
    HeadWaits(s, event);
    if s.depth == 0 {
      UnblockInLine(s, t, id);
      Stays(Unblock(s, t), r, id);
    } else {
      MovedFromLine(s.events, t, id);
      SameStanding(s, r);
      Shorter(s, r, id);
    }
  }

  lemma SameStanding(s: Sched, r: Sched)
    requires r.priority == s.priority && r.eventValue == s.eventValue
    ensures forall t :: Stands(s, t) ==> Stands(r, t) && r.eventValue[t] == s.eventValue[t]
  {
  }

  lemma FlagsInLine(s: Sched, t: Task, itemValue: nat, id: nat)
    requires Placed(s) && t in s.priority && InLine(s, id)
    ensures InLine(RemoveFromUnordered(s, t, itemValue), id)
  {
    hide Sorted, Values, RemoveItem, Move;
    LeftLine(s.events, t, id);
    GoneFromLine(s.events, t, id);
    hide Valid, RemoveIfThere, OneLess, Items;
    Shorter(s, RemoveFromUnordered(s, t, itemValue), id);
  }

  lemma SuspendInLine(s: Sched, t: Task, id: nat)
    requires Placed(s) && t in s.priority && InLine(s, id)
    ensures InLine(SuspendTask(s, t), id)
  {
    hide InLine, Valid, Move, RemoveIfThere;
    Leaves(s, SuspendTask(s, t), t, id);
  }

  lemma ResumesInLine(s: Sched, step: Step, id: nat)
    requires Inv(s) && Enabled(s, step) && InLine(s, id) && (step.ResumeOne? || step.ResumeOneFromISR?)
    ensures InLine(Next(s, step), id)
  {
    hide ReadyInv, EventInv, CountInv, Timed, HeadBound, NothingDueAtWrap, Settled, InLine, Valid, Items, Move,
         InsertLast;
    var t, r := step.t, Next(s, step);
    if step.ResumeOneFromISR? && IsSuspended(s, t) && s.depth > 0 {
      PendedBesideLine(s.events, t, id);
      SameStanding(s, r);
      SameLine(s, r, id);
    } else {
      Stays(s, r, id);
    }
  }

  lemma SameLine(s: Sched, r: Sched, id: nat)
    requires InLine(s, id) && Line(r, id) == Line(s, id)
    requires forall t :: t in Line(r, id) && Stands(s, t) ==> Stands(r, t) && r.eventValue[t] == s.eventValue[t]
    ensures InLine(r, id)
  {
    Shorter(s, r, id);
  }

  lemma WaitsInLine(s: Sched, step: Step, id: nat)
    requires Inv(s) && Enabled(s, step) && InLine(s, id) && KeepsLine(s, step, id)
             && (step.Block? || step.WaitForEvent?)
    ensures InLine(Next(s, step), id)
  {
    hide ReadyInv, EventInv, CountInv, Timed, HeadBound, NothingDueAtWrap, Settled, InLine, Valid, BlockCurrent,
         EnteredByValue, Insert, EventPlace, Items;
    BlockExact(s, step.ticks, step.indefinitely);
    CurrentWaitsForNothing(s);
    var r := Next(s, step);
    if step.WaitForEvent? {
      PlaceOnEventListExact(s, step.id, step.ordered, step.ticks, step.indefinitely);
      if step.id == id {
        EntersLine(s, r, id);
      } else {
        OtherLine(s, BlockCurrent(s, step.ticks, step.indefinitely), step.id, step.ordered, id);
        SameStanding(s, r);
        SameLine(s, r, id);
      }
    } else {
      Stays(s, r, id);
    }
  }

  lemma CurrentWaitsForNothing(s: Sched)
    requires Core(s) && s.states.container[s.current].Ready?
    ensures s.current !in s.events.container
  {
    ReadyWaitsForNothing(s, s.current);
  }

  lemma OtherLine(s: Sched, b: Sched, event: nat, ordered: bool, id: nat)
    requires Core(s) && Core(b) && event != id && b.events == s.events && s.current !in b.events.container
    requires b.current == s.current
    ensures Items(EnterEvent(b, event, ordered).events, Event(id)) == Items(s.events, Event(id))
  {
    hide ReadyInv, EventInv, CountInv, Timed, HeadBound, NothingDueAtWrap, Insert, Valid, EventPlace;
    InsertKeeps(b.events, Event(event), EventPlace(b, event, ordered), b.current);
  }

  lemma TasksInLine(s: Sched, step: Step, id: nat)
    requires Inv(s) && Enabled(s, step) && InLine(s, id) && KeepsLine(s, step, id)
    requires step.Create? || step.SetPriority?
    ensures InLine(Next(s, step), id)
  {
    hide ReadyInv, CountInv, EventInv, Timed, HeadBound, NothingDueAtWrap, Settled, InLine, Valid, Move, InsertLast,
         Items;
    match step
    case Create(t, priority) => SameLine(s, Next(s, step), id);
    case SetPriority(t, p, itemValue) => SameLine(s, Next(s, step), id);
  }

  lemma SwitchInLine(s: Sched, id: nat)
    requires Inv(s) && SomeReady(s) && InLine(s, id)
    ensures InLine(SwitchContext(s), id)
  {
    hide Placed, ReadyInv, EventInv, CountInv, Timed, HeadBound, NothingDueAtWrap, Settled, InLine, SwitchContext;
    SwitchContextKeeps(s);
    Stays(s, SwitchContext(s), id);
  }

  lemma DeleteInLine(s: Sched, t: Task, id: nat)
    requires Lists(s) && t in s.priority && InLine(s, id)
    ensures InLine(DeleteTask(s, t), id)
  {
    hide ReadyInv, CountInv, EventInv, InLine, Valid, Move, RemoveIfThere;
    if t == s.current {
      Leaves(s, DeleteTask(s, t), t, id);
    } else {
      ForgetLists(s, t);
      ForgetInLine(s, t, id);
      Stays(Forget(s, t), DeleteTask(s, t), id);
    }
  }

  lemma InLineStep(s: Sched, step: Step, id: nat)
    requires Inv(s) && Enabled(s, step) && InLine(s, id) && KeepsLine(s, step, id)
    ensures InLine(Next(s, step), id)
  {
    hide Placed, ReadyInv, EventInv, CountInv, Timed, HeadBound, NothingDueAtWrap, Settled, InLine, KeepsLine,
         ResumeAll,
         IncrementTick;
    var r := Next(s, step);
    match step
    case TickComes => if s.depth == 0 { TickInLine(s, id); } else { Stays(s, r, id); }
    case Block(_, _) => WaitsInLine(s, step, id);
    case WaitForEvent(_, _, _, _) => WaitsInLine(s, step, id);
    case EventComes(_) => WakesInLine(s, step, id);
    case FlagsCome(_, _) => WakesInLine(s, step, id);
    case SuspendOne(_) => WakesInLine(s, step, id);
    case Abort(_) => WakesInLine(s, step, id);
    case ResumeOne(_) => ResumesInLine(s, step, id);
    case ResumeOneFromISR(_) => ResumesInLine(s, step, id);
    case Create(_, _) => TasksInLine(s, step, id);
    case Delete(t) => DeleteInLine(s, t, id);
    case SetPriority(_, _, _) => TasksInLine(s, step, id);
    case Switch => SwitchInLine(s, id);
    case IdleCleansUp => CleanUpInLine(s, id);
    case SuspendScheduler => Stays(s, r, id);
    case ResumeScheduler => ResumeInLine(s, id);
    case CatchUp(n) =>
      HeldCore(s, n);
      Stays(s, SuspendAll(s).(pended := s.pended + n), id);
      ResumeInLine(SuspendAll(s).(pended := s.pended + n), id);
    case StepTicks(_) => Stays(s, r, id);
  }

  // ---------- runs ----------

  ghost predicate LineKept(s: Sched, steps: seq<Step>, id: nat)
    requires Inv(s) && CanRun(s, steps)
    decreases |steps|
  {
    steps != [] ==>
      KeepsLine(s, steps[0], id) && (InvStep(s, steps[0]); LineKept(Next(s, steps[0]), steps[1..], id))
  }

  lemma {:induction false} InLineAlways(s: Sched, steps: seq<Step>, id: nat)
    requires Inv(s) && InLine(s, id) && CanRun(s, steps) && LineKept(s, steps, id)
    ensures Inv(After(s, steps)) && InLine(After(s, steps), id)
    decreases |steps|
  {
    hide Inv, Next, Enabled, InLine, KeepsLine;
    if steps != [] {
      InvStep(s, steps[0]);
      InLineStep(s, steps[0], id);
      InLineAlways(Next(s, steps[0]), steps[1..], id);
    }
  }

  /** An event that nobody waits for at first is entered by priority over any run. Whenever it comes, one task leaves
      its list, and no task that waits for it has a higher priority. */
  lemma MostUrgentIsWoken(s: Sched, steps: seq<Step>, id: nat)
    requires Inv(s) && Line(s, id) == [] && CanRun(s, steps) && LineKept(s, steps, id)
    requires (InvAlways(s, steps); Enabled(After(s, steps), EventComes(id)))
    ensures (InvAlways(s, steps);
             var a := After(s, steps);
             var r := Next(a, EventComes(id));
             exists t ::
               && t in a.priority && IsOn(a.events, t, Event(id)) && !IsOn(r.events, t, Event(id))
               && forall u :: IsOn(a.events, u, Event(id)) ==>
                                && u in a.priority && a.priority[u] <= a.priority[t]
                                && (u != t ==> IsOn(r.events, u, Event(id))))
  {
    hide Next, Enabled, CanRun, LineKept, Core, Settled;
    InLineAlways(s, steps, id);
    HeadIsMostUrgent(After(s, steps), id);
  }

  lemma HeadIsMostUrgent(a: Sched, id: nat)
    requires Inv(a) && InLine(a, id) && Enabled(a, EventComes(id))
    ensures var r := Next(a, EventComes(id));
            exists t ::
              && t in a.priority && IsOn(a.events, t, Event(id)) && !IsOn(r.events, t, Event(id))
              && forall u :: IsOn(a.events, u, Event(id)) ==>
                               && u in a.priority && a.priority[u] <= a.priority[t]
                               && (u != t ==> IsOn(r.events, u, Event(id)))
  {
    hide ReadyInv, EventInv, CountInv, Timed, HeadBound, NothingDueAtWrap, Settled, Unblock, Move;
    HeadWaits(a, id);
    RemoveFromEventListExact(a, id);
    var line, t := Line(a, id), Line(a, id)[0];
    var values := Values(line, a.eventValue);
    forall u | IsOn(a.events, u, Event(id))
      ensures u in a.priority && a.priority[u] <= a.priority[t]
    {
      assert u in line;
      var i :| 0 <= i < |line| && line[i] == u;
      assert values[0] <= values[i] && Stands(a, line[0]) && Stands(a, line[i]);
    }
  }

  // ---------- whose item stands for its priority ----------

  /** A step leaves the task's item alone, or changes it with the priority. */
  predicate KeepsStanding(step: Step, t: Task) {
    match step
    case FlagsCome(u, _) => u != t
    case SetPriority(u, p, itemValue) => u == t ==> itemValue + p == MAX_PRIORITIES
    case _ => true
  }

  lemma WokenStands(s: Sched, step: Step, t: Task)
    requires Inv(s) && Enabled(s, step) && step.IsOfTask() && KeepsStanding(step, t) && Stands(s, t)
    ensures Stands(Next(s, step), t)
  {
    hide Placed, ReadyInv, EventInv, CountInv, Timed, HeadBound, NothingDueAtWrap, Settled, Move, RemoveIfThere,
         InsertLast, RecordReady;
    if step.EventComes? {
      HeadWaits(s, step.id);
    }
  }

  lemma CreatedStands(s: Sched, u: Task, priority: nat, t: Task)
    requires Placed(s) && u !in s.priority && (u == t || Stands(s, t))
    ensures Stands(AddTask(s, u, priority), t)
  {
    hide Placed, InsertLast, RecordReady;
  }

  lemma DeletedStands(s: Sched, u: Task, t: Task)
    requires Lists(s) && u in s.priority && Stands(s, t)
    ensures t in DeleteTask(s, u).priority ==> Stands(DeleteTask(s, u), t)
  {
    hide ReadyInv, EventInv, CountInv, Valid, Move, RemoveIfThere, RemoveItem, Items;
    LeaveEventKeeps(s, u);
    if u != s.current {
      ForgetLists(s, u);
    }
  }

  lemma ChangedStands(s: Sched, u: Task, p: nat, itemValue: nat, t: Task)
    requires Placed(s) && u in s.priority && p < MAX_PRIORITIES && Stands(s, t)
             && (u == t ==> itemValue + p == MAX_PRIORITIES)
    ensures Stands(ChangePriority(s, u, p, itemValue), t)
  {
    hide Valid, Move, RecordReady;
  }

  /** A new task's item stands for its priority, and goes on doing so unless an event group lends it or somebody sets
      one without the other. */
  lemma StandsStep(s: Sched, step: Step, t: Task)
    requires Inv(s) && Enabled(s, step) && KeepsStanding(step, t) && ((step.Create? && step.t == t) || Stands(s, t))
    ensures t in Next(s, step).priority ==> Stands(Next(s, step), t)
  {
    hide Placed, ReadyInv, EventInv, CountInv, Timed, HeadBound, NothingDueAtWrap, Settled, ResumeAll, IncrementTick,
         Move, RemoveIfThere, RemoveItem, InsertLast, BlockCurrent, SwitchContext, NextOfTask, EnabledOfTask, AddTask,
         DeleteTask, ChangePriority, CleanUp, CatchUpTicks, PlaceOnEventList;
    match step
    case TickComes => if s.depth == 0 { TickExact(s); }
    case Block(ticks, indefinitely) => BlockExact(s, ticks, indefinitely);
    case WaitForEvent(id, ordered, ticks, indefinitely) => PlaceOnEventListExact(s, id, ordered, ticks, indefinitely);
    case EventComes(_) => WokenStands(s, step, t);
    case FlagsCome(_, _) => WokenStands(s, step, t);
    case SuspendOne(_) => WokenStands(s, step, t);
    case ResumeOne(_) => WokenStands(s, step, t);
    case ResumeOneFromISR(_) => WokenStands(s, step, t);
    case Abort(_) => WokenStands(s, step, t);
    case Create(u, priority) => CreatedStands(s, u, priority, t);
    case Delete(u) => DeletedStands(s, u, t);
    case SetPriority(u, p, itemValue) => ChangedStands(s, u, p, itemValue, t);
    case IdleCleansUp => CleanUpStands(s, t);
    case ResumeScheduler => if s.depth == 1 { ResumeAllExact(s); } else { ResumeNested(s); }
    case CatchUp(n) => CatchUpTicksExact(s, n);
    case Switch => SwitchContextKeeps(s);
    case _ =>
  }

  lemma {:induction false} CleanUpStands(s: Sched, t: Task)
    requires Lists(s) && s.states.container[s.current] != Termination && Stands(s, t)
    ensures t in CleanUp(s).priority ==> Stands(CleanUp(s), t)
    decreases s.deletedWaiting
  {
    hide Placed, ReadyInv, EventInv, RemoveItem, RemoveIfThere;
    if s.deletedWaiting > 0 {
      FirstDead(s);
      if t in CleanUpOne(s).priority {
        CleanUpStands(CleanUpOne(s), t);
      } else {
        CleanUpGone(CleanUpOne(s), t);
      }
    }
  }

  lemma {:induction false} CleanUpGone(s: Sched, t: Task)
    requires Lists(s) && s.states.container[s.current] != Termination && t !in s.priority
    ensures t !in CleanUp(s).priority
    decreases s.deletedWaiting
  {
    hide Placed, ReadyInv, EventInv, RemoveItem, RemoveIfThere;
    if s.deletedWaiting > 0 {
      FirstDead(s);
      CleanUpGone(CleanUpOne(s), t);
    }
  }
}
