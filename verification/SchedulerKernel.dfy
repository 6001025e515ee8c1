/** The scheduler as tasks.c keeps it: global lists, counters and task fields that are changed in place. Each
    method is one of the transitions of the modules before, and so keeps their invariant. */
module SchedulerKernel {

  import opened Ticks
  import opened ListModel
  import opened KernelConfig
  import opened Banks
  import opened Scheduler
  import opened SchedulerTick
  import opened SchedulerBlocking
  import opened SchedulerTasks
  import opened SchedulerSuspension
  import opened SchedulerRuns
  import opened Timeouts

  class Kernel {

    var states: Bank
    var events: Bank
    var priority: map<Task, nat>
    var value: map<Task, nat>
    var eventValue: map<Task, nat>
    var current: Task
    var topReady: nat
    var tickCount: Tick
    var nextUnblock: Tick
    var second: bool
    var overflows: nat
    var depth: nat
    var pended: nat
    var yieldPending: bool
    var numberOfTasks: nat
    var deletedWaiting: nat

    ghost var time: nat
    ghost var wake: map<Task, nat>

    ghost function View(): Sched
      reads this
    {
      Sched(states, events, priority, value, eventValue, current, topReady, tickCount, nextUnblock, second, overflows,
            depth, pended, yieldPending, numberOfTasks, deletedWaiting, time, wake)
    }

    constructor (idle: Task)
      ensures View() == Start(idle) && Inv(View())
    {
      states := Bank(map[Ready(0) := ListState([idle], 0)], map[idle := Ready(0)]);
      events := Bank(map[], map[]);
      priority, value, eventValue := map[idle := 0], map[idle := 0], map[idle := MAX_PRIORITIES];
      current, topReady, tickCount, nextUnblock := idle, 0, 0, PORT_MAX_DELAY;
      second, overflows, depth, pended, yieldPending := false, 0, 0, 0, false;
      numberOfTasks, deletedWaiting := 1, 0;
      time, wake := 0, map[idle := 0];
      new;
      StartInv(idle);
    }

    // ---------- the tick ----------

    method ResetNextTaskUnblockTime()
      modifies this`nextUnblock
      ensures View() == ResetNextUnblock(old(View()))
    {
      var delayed := Items(states, Delayed(second));
      if |delayed| == 0 {
        nextUnblock := PORT_MAX_DELAY;
      } else {
        nextUnblock := ValueOf(value, delayed[0]) % TICK_MOD;
      }
    }

    method AddTaskToReadyList(t: Task)
      requires Valid(states) && t in priority && t !in states.container
      modifies this`states, this`topReady
      ensures states == InsertLast(old(states), Ready(priority[t]), t)
      ensures topReady == RecordReady(old(topReady), priority[t])
    {
      if priority[t] > topReady {
        topReady := priority[t];
      }
      states := InsertLast(states, Ready(priority[t]), t);
    }

    /** `uxListRemove` of a task's state item. */
    method RemoveStateItem(t: Task)
      requires Valid(states) && t in states.container
      modifies this`states
      ensures old(t in Items(states, states.container[t])) && states == RemoveItem(old(states), t)
      ensures Valid(states) && states.container == old(states.container) - {t}
    {
      RemoveKeeps(states, t);
      RemovedContainer(states, t);
      hide Valid, Items;
      states := RemoveItem(states, t);
    }

    /** `uxListRemove` of a task's state item, and then `prvAddTaskToReadyList`. */
    method MoveToReadyList(t: Task)
      requires Valid(states) && t in states.container && t in priority
      modifies this`states, this`topReady
      ensures Valid(RemoveItem(old(states), t))
      ensures states == InsertLast(RemoveItem(old(states), t), Ready(priority[t]), t)
      ensures topReady == RecordReady(old(topReady), priority[t])
    {
      hide Valid, Items, RemoveItem, InsertLast, RecordReady;
      RemoveStateItem(t);
      AddTaskToReadyList(t);
    }

    /** `uxListRemove` of a task's event item, if it is on a list. */
    method RemoveEventItem(t: Task)
      requires Valid(events)
      modifies this`events
      ensures events == RemoveIfThere(old(events), t)
    {
      if t in events.container {
        events := RemoveItem(events, t);
      }
    }

    /** A blocked task leaves its lists and becomes ready. */
    method MakeReady(t: Task)
      requires Placed(View()) && t in priority
      modifies this`states, this`events, this`topReady
      ensures View() == Unblock(old(View()), t)
    {
      hide Placed, Valid, Items, RemoveItem, RemoveIfThere, InsertLast, Unblock, RecordReady;
      PlacedItems(View(), t);
      UnblockIs(View(), t);
      RemoveStateItem(t);
      RemoveEventItem(t);
      AddTaskToReadyList(t);
    }

    /** The loop of `xTaskIncrementTick` over the current delayed list. */
    method UnblockDue(ghost low: int) returns (switchRequired: bool)
      requires Lists(View()) && Timed(View(), low)
      modifies this`states, this`events, this`topReady, this`nextUnblock
      ensures View() == WakeDue(old(View()))
      ensures old(current in priority) && (switchRequired <==> AnyAbove(old(View()), DueOnCurrent(old(View()))))
    {
      hide Placed, ReadyInv, EventInv, CountInv, Timed, DueOnCurrent, Unblock;
      ghost var s0 := View();
      CurrentIsThere(s0);
      switchRequired := false;
      while true
        invariant Lists(View()) && Timed(View(), low) && OnlyListsDiffer(s0, View())
        invariant WakeDue(View()) == WakeDue(s0)
        invariant DueOnCurrent(View()) <= DueOnCurrent(s0)
        invariant switchRequired <==> AnyAbove(s0, DueOnCurrent(s0) - DueOnCurrent(View()))
        decreases |Items(states, Delayed(second))|
      {
        var delayed := Items(states, Delayed(second));
        if |delayed| == 0 || tickCount < ValueOf(value, delayed[0]) {
          EndOfLoop(View(), low);
          if |delayed| == 0 {
            nextUnblock := PORT_MAX_DELAY;
          } else {
            nextUnblock := ValueOf(value, delayed[0]) % TICK_MOD;
          }
          break;
        }
        ghost var s := View();
        WakeOne(s, low);
        var t := delayed[0];
        MakeReady(t);
        OneMoreReadied(s, View(), t);
        WokeOneMore(s0, s, View(), t);
        if priority[t] > priority[current] {
          switchRequired := true;
        }
      }
    }

    /** `taskSWITCH_DELAYED_LISTS`. */
    method SwitchDelayedLists()
      requires |Items(states, Delayed(second))| == 0
      modifies this`second, this`overflows, this`nextUnblock
      ensures View() == SwitchLists(old(View()))
    {
      second := !second;
      overflows := overflows + 1;
      ResetNextTaskUnblockTime();
    }

    /** `xTaskIncrementTick`. The tasks made ready are exactly those whose time has come. */
    method IncrementTick() returns (switchRequired: bool)
      requires Core(View())
      modifies this
      ensures View() == TickInterrupt(old(View())) && Core(View())
      ensures switchRequired <==> old(depth) == 0 && SwitchRequired(old(View()))
      ensures old(depth) == 0 ==>
                && states.container == Readied(old(View()), DueBy(old(View()), old(time) + 1))
                && events.container == old(events.container) - DueBy(old(View()), old(time) + 1)
    {
      hide Core, SwitchRequired, Readied, DueBy, SchedulerTick.IncrementTick;
      switchRequired := false;
      ghost var s := View();
      ItemsOf(s, current);
      if depth == 0 {
        TickExact(s);
        switchRequired := TickNow();
      } else {
        FieldsOnly(s, depth, pended + 1, yieldPending);
        pended := pended + 1;
      }
    }

    method TickNow() returns (switchRequired: bool)
      requires Core(View())
      modifies this
      ensures old(Placed(View())) && View() == SchedulerTick.IncrementTick(old(View()))
      ensures switchRequired <==> SwitchRequired(old(View()))
    {
      hide Core, Placed, ReadyInv, EventInv, CountInv, Timed, HeadBound, DueOnCurrent, DueBy, WakeDue, AnyAbove,
           Items, AdvanceClock;
      ghost var s := View();
      switchRequired := false;
      ItemsOf(s, current);
      AdvanceFacts(s);
      DueAfterAdvance(s);
      EmptyWhenNextIsZero(s);
      CountTick();
      ghost var a := View();
      SameAbove(s, a, DueOnCurrent(a));
      if tickCount >= nextUnblock {
        WakeDueLists(a, s.time);
        switchRequired := UnblockDue(s.time);
      } else {
        NotYet(a, s.time);
        NoneAbove(a);
      }
      if |Items(states, Ready(priority[current]))| > 1 {
        switchRequired := true;
      }
      if yieldPending {
        switchRequired := true;
      }
    }

    /** The tick count advances, and at zero the lists are switched. */
    method CountTick()
      requires AddTicks(tickCount, 1) == 0 ==> DelayedNow(View()) == []
      modifies this`tickCount, this`time, this`second, this`overflows, this`nextUnblock
      ensures View() == AdvanceClock(old(View()))
    {
      tickCount := AddTicks(tickCount, 1);
      time := time + 1;
      if tickCount == 0 {
        SwitchDelayedLists();
      }
    }

    // ---------- blocking and waking ----------

    /** `prvAddCurrentTaskToDelayedList`. */
    method AddCurrentTaskToDelayedList(ticks: Tick, indefinitely: bool)
      requires Core(View()) && states.container[current].Ready? && MayBlock(View(), ticks, indefinitely)
      modifies this
      ensures View() == BlockCurrent(old(View()), ticks, indefinitely) && Core(View())
      ensures states.container == old(states.container)[current := BlockList(old(View()), ticks, indefinitely)]
    {
      hide Core, Valid, Items, RemoveItem, Insert, InsertLast, Placed, BlockCurrent, InsertPosition, Values,
           BlockList, EnqueueDelayed;
      BlockExact(View(), ticks, indefinitely);
      ghost var s := View();
      PlacedOf(s);
      PlacedItems(s, current);
      if ticks == PORT_MAX_DELAY && indefinitely {
        BlockForEverIs(s);
      } else {
        BlockForTimeIs(s, ticks, indefinitely);
      }
      RemoveStateItem(current);
      if ticks == PORT_MAX_DELAY && indefinitely {
        states := InsertLast(states, Suspended, current);
      } else {
        DelayCurrent(ticks);
      }
    }

    /** The list of the epoch of the wake time, and the next unblock time. */
    method DelayCurrent(ticks: Tick)
      modifies this`states, this`value, this`nextUnblock, this`wake
      ensures View() == EnqueueDelayed(old(View()), ticks)
    {
      hide Items, Insert, InsertPosition, Values, AddTicks;
      var timeToWake := AddTicks(tickCount, ticks);
      wake := wake[current := time + ticks];
      if timeToWake < tickCount {
        InsertByTime(Delayed(!second), timeToWake);
      } else {
        InsertByTime(Delayed(second), timeToWake);
        if timeToWake < nextUnblock {
          nextUnblock := timeToWake;
        }
      }
    }

    /** `vListInsert` of the current task's state item. */
    method InsertByTime(l: ListId, timeToWake: Tick)
      modifies this`states, this`value
      ensures value == old(value)[current := timeToWake]
      ensures var items := Items(old(states), l);
              states == Insert(old(states), l, InsertPosition(Values(items, old(value)), timeToWake), current)
    {
      var k := InsertPosition(Values(Items(states, l), value), timeToWake);
      value := value[current := timeToWake];
      states := Insert(states, l, k, current);
    }

    /** `vTaskPlaceOnEventList`, with the scheduler suspended. */
    method PlaceOnEventList(id: nat, ordered: bool, ticks: Tick, indefinitely: bool)
      requires Core(View()) && states.container[current].Ready? && MayBlock(View(), ticks, indefinitely)
      modifies this
      ensures View() == SchedulerBlocking.PlaceOnEventList(old(View()), id, ordered, ticks, indefinitely)
              && Core(View())
      ensures states.container == old(states.container)[current := BlockList(old(View()), ticks, indefinitely)]
      ensures events.container == old(events.container)[current := Event(id)]
      ensures ordered ==> EnteredByValue(old(Items(events, Event(id))), current, Items(events, Event(id)), eventValue)
    {
      hide Core, Valid, Items, Insert, BlockCurrent, Placed, EnteredByValue;
      PlaceOnEventListExact(View(), id, ordered, ticks, indefinitely);
      BlockExact(View(), ticks, indefinitely);
      AddCurrentTaskToDelayedList(ticks, indefinitely);
      ItemsOf(View(), current);
      if ordered {
        var k := InsertPosition(Values(Items(events, Event(id)), eventValue), eventValue[current]);
        events := Insert(events, Event(id), k, current);
      } else {
        events := InsertLast(events, Event(id), current);
      }
    }

    /** `xTaskRemoveFromEventList`. */
    method RemoveFromEventList(id: nat) returns (higher: bool)
      requires Inv(View()) && Items(events, Event(id)) != []
      modifies this
      ensures View() == SchedulerBlocking.RemoveFromEventList(old(View()), id) && Inv(View())
      ensures higher <==> old(HeadOutranks(View(), id))
    {
      hide Core, Settled, Placed, Valid, RemoveItem, Unblock;
      RemoveFromEventListExact(View(), id);
      ItemsOf(View(), current);
      HeadWaits(View(), id);
      var t := Items(events, Event(id))[0];
      ItemsOf(View(), t);
      hide Items;
      if depth == 0 {
        MakeReady(t);
      } else {
        RemoveKeeps(events, t);
        events := RemoveItem(events, t);
        events := InsertLast(events, PendingReady, t);
      }
      higher := priority[t] > priority[current];
      if higher {
        yieldPending := true;
      }
    }

    /** `vTaskRemoveFromUnorderedEventList`, with the scheduler suspended. */
    method RemoveFromUnorderedEventList(t: Task, itemValue: nat)
      requires Inv(View()) && t in events.container && depth > 0
      modifies this
      ensures old(t in priority) && View() == RemoveFromUnordered(old(View()), t, itemValue) && Inv(View())
    {
      hide Core, Settled, Placed, Unblock, Items, Valid, RemoveItem;
      RemoveFromUnorderedKeeps(View(), t, itemValue);
      ItemsOf(View(), t);
      eventValue := eventValue[t := itemValue];
      EventValueIgnored(old(View()), t, itemValue);
      UnblockShape(old(View()), t);
      MakeReady(t);
      if priority[t] > priority[current] {
        yieldPending := true;
      }
    }

    // ---------- suspension of the scheduler ----------

    method SuspendScheduler()
      requires Inv(View())
      modifies this`depth
      ensures View() == SuspendAll(old(View())) && Inv(View())
    {
      hide Core;
      FieldsOnly(View(), depth + 1, pended, yieldPending);
      depth := depth + 1;
    }

    /** The first loop of `xTaskResumeAll`. */
    method MovePendingTasks() returns (any: bool)
      requires Core(View())
      modifies this`states, this`events, this`topReady, this`yieldPending
      ensures View() == MovePending(old(View()))
      ensures any <==> old(Items(events, PendingReady) != [])
    {
      hide Placed, ReadyInv, EventInv, CountInv, Timed, HeadBound, NothingDueAtWrap, Unblock;
      ghost var s0 := View();
      CurrentIsThere(s0);
      any := false;
      while |Items(events, PendingReady)| != 0
        invariant Core(View()) && MovePending(View()) == MovePending(s0)
        invariant any ==> Items(s0.events, PendingReady) != []
        invariant !any ==> View() == s0
        invariant s0.current in s0.priority
        decreases |Items(events, PendingReady)|
      {
        ghost var s := View();
        FirstPending(s);
        CurrentIsThere(s);
        var t := Items(events, PendingReady)[0];
        MakeReady(t);
        if priority[t] > priority[current] {
          yieldPending := true;
        }
        any := true;
      }
    }

    /** The second loop: the ticks that were held are processed one by one. */
    method ProcessPendedTicks()
      requires Core(View()) && depth == 0
      modifies this
      ensures View() == TickMany(old(View()), old(pended)).(pended := 0)
    {
      hide Core, SwitchRequired, Readied, DueBy, SchedulerTick.IncrementTick;
      ghost var s0 := View();
      TickManyExact(s0, pended);
      var n := pended;
      if n > 0 {
        while n > 0
          invariant Core(View()) && depth == 0 && pended == s0.pended
          invariant TickMany(View(), n) == TickMany(s0, s0.pended)
        {
          ghost var s := View();
          ItemsOf(s, current);
          TickExact(s);
          var switchRequired := IncrementTick();
          YieldOnly(View(), s.yieldPending || SwitchRequired(s));
          if switchRequired {
            yieldPending := true;
          }
          n := n - 1;
        }
        pended := 0;
      }
    }

    /** `xTaskResumeAll`. */
    method ResumeScheduler() returns (alreadyYielded: bool)
      requires Core(View()) && depth > 0
      modifies this
      ensures View() == ResumeAll(old(View())) && Inv(View())
      ensures alreadyYielded <==> depth == 0 && yieldPending
      ensures old(depth) == 1 ==> old(current in priority) && (alreadyYielded <==> old(OwesYield(View())))
    {
      hide Core, Items, TickMany, MovePending, OwesYield;
      ghost var s := View();
      FieldsOnly(s, depth - 1, pended, yieldPending);
      if depth == 1 {
        ResumeAllExact(s);
        ResumeYieldExact(s);
      } else {
        ResumeNested(s);
      }
      alreadyYielded := false;
      depth := depth - 1;
      if depth == 0 {
        MakeGood();
        if yieldPending {
          alreadyYielded := true;
        }
      }
    }

    /** `xTaskDelayUntil`, up to the yield that follows; `nextWake` is what it stores for the next call. */
    method DelayUntil(previousWake: Tick, increment: Tick) returns (nextWake: Tick, delayed: bool)
      requires Inv(View()) && depth == 0 && states.container[current].Ready? && increment > 0
      modifies this
      ensures Inv(View()) && nextWake == AddTicks(previousWake, increment)
      ensures delayed <==> ShouldDelay(previousWake, increment, old(tickCount))
      ensures View() == if delayed then BlockCurrent(old(View()), SubTicks(nextWake, old(tickCount)), false)
              else old(View())
    {
      hide Core, Items, BlockCurrent, ResumeAll, AddTicks;
      ghost var s := View();
      SuspendScheduler();
      var timeToWake := AddTicks(previousWake, increment);
      delayed := false;
      if tickCount < previousWake {
        if timeToWake < previousWake && timeToWake > tickCount {
          delayed := true;
        }
      } else if timeToWake < previousWake || timeToWake > tickCount {
        delayed := true;
      }
      nextWake := timeToWake;
      if delayed {
        PlacedOf(s);
        BlockSuspended(s, SubTicks(timeToWake, tickCount), false);
        BlockKeeps(s, SubTicks(timeToWake, tickCount), false);
        NothingHeld(BlockCurrent(s, SubTicks(timeToWake, tickCount), false));
        AddCurrentTaskToDelayedList(SubTicks(timeToWake, tickCount), false);
      } else {
        NothingHeld(s);
      }
      var _ := ResumeScheduler();
    }

    /** The tasks and the ticks that were held are dealt with. */
    method MakeGood()
      requires Core(View()) && depth == 0
      modifies this
      ensures Core(old(View()))
      ensures var d := old(View());
              && Core(MovePending(d))
              && Core(ResetNextUnblock(MovePending(d)))
              && View() == TickMany(if Items(d.events, PendingReady) != [] then ResetNextUnblock(MovePending(d))
                                    else MovePending(d),
                                    d.pended).(pended := 0)
    {
      hide Core, Items, TickMany, MovePending;
      ghost var d := View();
      MovePendingExact(d);
      ResetOfCore(MovePending(d));
      var any := MovePendingTasks();
      if any {
        ResetNextTaskUnblockTime();
      }
      ProcessPendedTicks();
    }

    method CatchUpTicks(ticks: nat) returns (yielded: bool)
      requires Inv(View()) && depth == 0
      modifies this
      ensures View() == SchedulerSuspension.CatchUpTicks(old(View()), ticks) && Inv(View())
      ensures time == old(time) + ticks && pended == 0
      ensures yielded <==> yieldPending
      ensures old(current in priority) && (yielded <==> old(OwesYieldAfter(View(), ticks)))
    {
      hide Core, ResumeAll;
      CatchUpTicksExact(View(), ticks);
      CatchUpYieldExact(View(), ticks);
      HeldCore(View(), ticks);
      SuspendScheduler();
      pended := pended + ticks;
      yielded := ResumeScheduler();
    }

    /** `vTaskStepTick`: right exactly when the step does not cross the wrap of the tick count. */
    method StepTick(ticks: Tick)
      requires Inv(View()) && MayStep(View(), ticks)
      modifies this
      ensures View() == SchedulerSuspension.StepTick(old(View()), ticks)
      ensures Inv(View()) <==> old(tickCount + Jump(View(), ticks)) < TICK_MOD
    {
      hide Core, Settled;
      StepTickExact(View(), ticks);
      var jump := ticks;
      if AddTicks(tickCount, ticks) == nextUnblock {
        pended := pended + 1;
        jump := jump - 1;
      }
      tickCount := AddTicks(tickCount, jump);
      time := time + jump;
    }

    // ---------- tasks ----------

    method TaskSuspend(t: Task)
      requires Inv(View()) && Alive(View(), t)
      modifies this
      ensures View() == SuspendTask(old(View()), t) && Inv(View())
      ensures states.container == old(states.container)[t := Suspended]
      ensures events.container == old(events.container) - {t}
    {
      hide Core, Settled, Placed, Valid, RemoveItem, RemoveIfThere, InsertLast, Items;
      SuspendTaskExact(View(), t);
      ItemsOf(View(), t);
      RemoveStateItem(t);
      RemoveEventItem(t);
      states := InsertLast(states, Suspended, t);
      ResetNextTaskUnblockTime();
    }

    method TaskResume(t: Task)
      requires Inv(View()) && t in priority
      modifies this
      ensures View() == ResumeTask(old(View()), t) && Inv(View())
    {
      hide Core, Settled, Placed, Valid, RemoveItem, RemoveIfThere, InsertLast, Items;
      ResumeTaskExact(View(), t);
      InStates(View(), t);
      ItemsOf(View(), t);
      if t != current && IsOn(states, t, Suspended) && t !in events.container {
        MoveToReadyList(t);
      }
    }

    method TaskResumeFromISR(t: Task) returns (yieldRequired: bool)
      requires Inv(View()) && t in priority
      modifies this
      ensures View() == ResumeFromISR(old(View()), t) && Inv(View())
      ensures yieldRequired <==>
                && old(depth) == 0 && old(IsSuspended(View(), t))
                && current in priority && t in priority && priority[t] > priority[current]
    {
      hide Core, Settled, Placed, Valid, RemoveItem, RemoveIfThere, InsertLast, Items;
      hide ResumeFromISR, RecordReady;
      ResumeFromISRExact(View(), t);
      ResumeFromISRIs(View(), t);
      yieldRequired := false;
      if IsOn(states, t, Suspended) && t !in events.container {
        if depth == 0 {
          if priority[t] > priority[current] {
            yieldRequired := true;
            yieldPending := true;
          }
          MoveToReadyList(t);
        } else {
          events := InsertLast(events, PendingReady, t);
        }
      }
    }

    /** The body of `xTaskAbortDelay`, with the scheduler suspended. */
    method AbortDelayOf(t: Task) returns (aborted: bool)
      requires Inv(View()) && t in priority
      modifies this
      ensures View() == AbortDelay(old(View()), t) && Inv(View())
      ensures aborted <==> IsBlocked(old(View()), t)
    {
      hide Core, Settled, Placed, Unblock;
      AbortDelayExact(View(), t);
      InStates(View(), t);
      ItemsOf(View(), t);
      UnblockShape(View(), t);
      aborted := t != current && !IsOn(events, t, PendingReady)
                 && (states.container[t].Delayed? || (states.container[t].Suspended? && t in events.container));
      if aborted {
        MakeReady(t);
        if priority[t] > priority[current] {
          yieldPending := true;
        }
      }
    }

    method TaskDelete(t: Task)
      requires Inv(View()) && Alive(View(), t)
      modifies this
      ensures View() == DeleteTask(old(View()), t) && Inv(View())
    {
      hide Core, Settled, Placed, Valid, RemoveItem, RemoveIfThere, InsertLast, Items, DeleteTask, ResetNextUnblock;
      ghost var s := View();
      DeleteTaskKeeps(s, t);
      DeletedItems(s, t);
      RemoveStateItem(t);
      RemoveEventItem(t);
      if t == current {
        DeleteSelfIs(s, t);
        states := InsertLast(states, Termination, t);
        deletedWaiting := deletedWaiting + 1;
      } else {
        DeleteOtherIs(s, t);
        DropFields(t);
      }
    }

    method DropFields(t: Task)
      requires numberOfTasks > 0
      modifies this`numberOfTasks, this`priority, this`value, this`eventValue, this`wake, this`nextUnblock
      ensures View() == ResetNextUnblock(
                          old(View()).(numberOfTasks := old(numberOfTasks) - 1, priority := old(priority) - {t},
                                       value := old(value) - {t}, eventValue := old(eventValue) - {t},
                                       wake := old(wake) - {t}))
    {
      ForgetFields(t);
      ResetNextTaskUnblockTime();
    }

    /** The task's control block is freed. */
    method ForgetFields(t: Task)
      requires numberOfTasks > 0
      modifies this`numberOfTasks, this`priority, this`value, this`eventValue, this`wake
      ensures View() == old(View()).(numberOfTasks := old(numberOfTasks) - 1, priority := old(priority) - {t},
                                     value := old(value) - {t}, eventValue := old(eventValue) - {t},
                                     wake := old(wake) - {t})
    {
      numberOfTasks := numberOfTasks - 1;
      priority, value, eventValue, wake := priority - {t}, value - {t}, eventValue - {t}, wake - {t};
    }

    method CheckTasksWaitingTermination()
      requires Inv(View()) && View().states.container[current] != Termination
      modifies this
      ensures View() == CleanUp(old(View())) && Inv(View()) && deletedWaiting == 0
    {
      hide Placed, ReadyInv, EventInv, CountInv, Timed, HeadBound, NothingDueAtWrap, Settled, Items, CleanUpOne;
      ghost var s0 := View();
      CleanUpExact(s0);
      ItemsOf(s0, current);
      while deletedWaiting > 0
        invariant Inv(View()) && current in states.container && states.container[current] != Termination
        invariant CleanUp(View()) == CleanUp(s0)
        decreases deletedWaiting
      {
        ghost var s := View();
        FirstDead(s);
        CleanUpOneKeeps(s);
        DropFirstDead();
        ItemsOf(View(), current);
      }
    }

    method DropFirstDead()
      requires Core(View()) && states.container[current] != Termination && deletedWaiting > 0
      modifies this
      ensures old(Items(states, Termination) != [] && numberOfTasks > 0 && Items(states, Termination)[0] in priority)
      ensures View() == CleanUpOne(old(View()))
    {
      hide Core, Placed, Valid, Items, RemoveItem, RemoveIfThere, CleanUpOne;
      FirstDeadOf(View());
      CleanUpOneIs(View());
      var t := Items(states, Termination)[0];
      RemoveStateItem(t);
      ForgetFields(t);
      deletedWaiting := deletedWaiting - 1;
    }

    /** `prvAddNewTaskToReadyList`, with the scheduler running. */
    method AddNewTask(t: Task, newPriority: nat)
      requires Inv(View()) && t !in priority
      modifies this
      ensures View() == AddTask(old(View()), t, newPriority) && Inv(View())
    {
      hide Core, Settled, Placed, Valid, Items, InsertLast, AddTask, RecordReady;
      AddTaskKeeps(View(), t, newPriority);
      AddTaskIs(View(), t, newPriority);
      var p := if newPriority >= MAX_PRIORITIES then MAX_PRIORITIES - 1 else newPriority;
      InitialiseFields(t, p);
      AddTaskToReadyList(t);
    }

    /** `prvInitialiseNewTask`, as far as the lists need it. */
    method InitialiseFields(t: Task, p: nat)
      requires p < MAX_PRIORITIES
      modifies this`numberOfTasks, this`priority, this`value, this`eventValue, this`wake
      ensures View() == old(View()).(numberOfTasks := old(numberOfTasks) + 1, priority := old(priority)[t := p],
                                     value := old(value)[t := 0],
                                     eventValue := old(eventValue)[t := MAX_PRIORITIES - p],
                                     wake := old(wake)[t := 0])
    {
      priority, eventValue := priority[t := p], eventValue[t := MAX_PRIORITIES - p];
      value, wake := value[t := 0], wake[t := 0];
      numberOfTasks := numberOfTasks + 1;
    }

    /** What `vTaskPrioritySet` and priority inheritance do to the lists. */
    method SetPriorityOf(t: Task, p: nat, itemValue: nat)
      requires Inv(View()) && t in priority && p < MAX_PRIORITIES
      modifies this
      ensures View() == ChangePriority(old(View()), t, p, itemValue) && Inv(View())
    {
      hide Core, Settled, Placed, Valid, RemoveItem, RemoveIfThere, InsertLast, Items;
      hide ChangePriority, RecordReady;
      ChangePriorityExact(View(), t, p, itemValue);
      ChangePriorityIs(View(), t, p, itemValue);
      var usedOnEntry := priority[t];
      priority := priority[t := p];
      if eventValue[t] < ITEM_VALUE_IN_USE {
        eventValue := eventValue[t := itemValue];
      }
      if IsOn(states, t, Ready(usedOnEntry)) {
        MoveToReadyList(t);
      }
    }

    /** `vTaskSwitchContext`: the task that runs next is a ready task of the highest priority there is. */
    method SwitchContext()
      requires Inv(View()) && SomeReady(View())
      modifies this
      ensures View() == SchedulerTasks.SwitchContext(old(View())) && Inv(View())
      ensures depth == 0 ==>
                && current in priority && IsOn(states, current, Ready(priority[current]))
                && (forall t :: t in states.container && states.container[t].Ready? ==>
                                  t in priority && priority[t] <= priority[current])
    {
      hide Core, Settled, Select;
      SwitchContextKeeps(View());
      ghost var s := View();
      if depth == 0 {
        SelectExact(s);
        YieldOnly(s, false);
        SelectIgnoresYield(s, false);
      }
      if depth != 0 {
        yieldPending := true;
      } else {
        yieldPending := false;
        SelectHighestPriorityTask();
      }
    }

    method SelectHighestPriorityTask()
      requires Core(View()) && SomeReady(View())
      modifies this
      ensures old(Lists(View())) && View() == Select(old(View()))
    {
      hide Placed, ReadyInv, EventInv, CountInv, Timed, HeadBound, NothingDueAtWrap, Items, At;
      ghost var s := View();
      SearchStarts(s);
      var top: nat := topReady;
      while |Items(states, Ready(top))| == 0
        invariant View() == s && top <= s.topReady && SomeUpTo(s, top)
        invariant HighestReady(s, top) == HighestReady(s, s.topReady)
        decreases top
      {
        OneLower(s, top);
        top := top - 1;
      }
      RingIsThere(s, top);
      var l := Advance(At(states, Ready(top)));
      states := Bank(states.lists[Ready(top) := l], states.container);
      current := EntryAt(l);
      topReady := top;
    }
  }

  lemma PlacedItems(s: Sched, t: Task)
    requires Placed(s) && t in s.priority
    ensures Valid(s.states) && Valid(s.events) && t in s.states.container && t in Items(s.states, s.states.container[t])
  {
  }

  /** Unblocking field by field. */
  lemma UnblockIs(s: Sched, t: Task)
    requires Placed(s) && t in s.priority
    ensures Valid(s.states) && Valid(s.events) && t in s.states.container && t in Items(s.states, s.states.container[t])
    ensures Valid(RemoveItem(s.states, t))
    ensures Unblock(s, t) == s.(states := InsertLast(RemoveItem(s.states, t), Ready(s.priority[t]), t),
                                events := RemoveIfThere(s.events, t),
                                topReady := RecordReady(s.topReady, s.priority[t]))
  {
    RemoveKeeps(s.states, t);
  }

  lemma DeleteTaskKeeps(s: Sched, t: Task)
    requires Inv(s) && Alive(s, t)
    ensures Inv(DeleteTask(s, t))
  {
    if t == s.current {
      DeleteSelfExact(s);
    } else {
      DeleteOtherExact(s, t);
    }
  }

  /** Deletion field by field. */
  lemma DeletedItems(s: Sched, t: Task)
    requires Core(s) && t in s.priority
    ensures Valid(s.states) && Valid(s.events) && t in s.states.container && t in Items(s.states, s.states.container[t])
    ensures Valid(RemoveItem(s.states, t))
  {
    RemoveKeeps(s.states, t);
  }

  lemma DeleteSelfIs(s: Sched, t: Task)
    requires Core(s) && t == s.current
    ensures t in s.priority && Valid(s.states) && Valid(RemoveItem(s.states, t)) && t in s.states.container
            && Valid(s.events)
    ensures DeleteTask(s, t) == s.(states := InsertLast(RemoveItem(s.states, t), Termination, t),
                                   events := RemoveIfThere(s.events, t), deletedWaiting := s.deletedWaiting + 1)
  {
    RemoveKeeps(s.states, t);
  }

  lemma DeleteOtherIs(s: Sched, t: Task)
    requires Core(s) && t in s.priority && t != s.current
    ensures Valid(s.states) && Valid(s.events) && t in s.states.container && s.numberOfTasks > 0
    ensures DeleteTask(s, t)
         == ResetNextUnblock(s.(states := RemoveItem(s.states, t), events := RemoveIfThere(s.events, t),
                                priority := s.priority - {t}, value := s.value - {t},
                                eventValue := s.eventValue - {t}, wake := s.wake - {t},
                                numberOfTasks := s.numberOfTasks - 1))
  {
    ForgetLists(s, t);
  }

  lemma CleanUpOneIs(s: Sched)
    requires Core(s) && s.states.container[s.current] != Termination && s.deletedWaiting > 0
    ensures Items(s.states, Termination) != [] && s.numberOfTasks > 0
    ensures var t := Items(s.states, Termination)[0];
            && Valid(s.states) && t in s.priority && t in s.states.container
                 && t in Items(s.states, s.states.container[t])
            && CleanUpOne(s) == s.(states := RemoveItem(s.states, t), priority := s.priority - {t},
                                   value := s.value - {t},
                                   eventValue := s.eventValue - {t}, wake := s.wake - {t},
                                   numberOfTasks := s.numberOfTasks - 1, deletedWaiting := s.deletedWaiting - 1)
  {
    FirstDeadOf(s);
    ForgottenItem(s, Items(s.states, Termination)[0]);
  }

  lemma AddTaskKeeps(s: Sched, t: Task, priority: nat)
    requires Inv(s) && t !in s.priority
    ensures Inv(AddTask(s, t, priority))
  {
    AddTaskExact(s, t, priority);
  }

  lemma AddTaskIs(s: Sched, t: Task, priority: nat)
    requires Core(s) && t !in s.priority
    ensures Valid(s.states) && t !in s.states.container
    ensures var p := if priority >= MAX_PRIORITIES then MAX_PRIORITIES - 1 else priority;
            AddTask(s, t, priority)
            == s.(states := InsertLast(s.states, Ready(p), t), topReady := RecordReady(s.topReady, p),
                  priority := s.priority[t := p], value := s.value[t := 0],
                  eventValue := s.eventValue[t := MAX_PRIORITIES - p], wake := s.wake[t := 0],
                  numberOfTasks := s.numberOfTasks + 1)
  {
    hide ReadyInv, EventInv, CountInv, Timed, HeadBound, NothingDueAtWrap, Items, Insert;
  }

  lemma PlacedOf(s: Sched)
    requires Core(s)
    ensures Placed(s) && s.current in s.priority
  {
  }

  lemma BlockForEverIs(s: Sched)
    requires Placed(s) && s.states.container[s.current].Ready?
    ensures Valid(RemoveItem(s.states, s.current))
    ensures BlockCurrent(s, PORT_MAX_DELAY, true)
         == s.(states := InsertLast(RemoveItem(s.states, s.current), Suspended, s.current))
  {
    RemoveKeeps(s.states, s.current);
  }

  /** The current task, on no list, goes to the delayed list of its wake time. */
  ghost function EnqueueDelayed(s: Sched, ticks: Tick): Sched {
    var at := AddTicks(s.tickCount, ticks);
    var l := Delayed(if at < s.tickCount then !s.second else s.second);
    s.(states := Insert(s.states, l, InsertPosition(Values(Items(s.states, l), s.value), at), s.current),
       value := s.value[s.current := at], wake := s.wake[s.current := s.time + ticks],
       nextUnblock := if s.tickCount <= at < s.nextUnblock then at else s.nextUnblock)
  }

  lemma BlockForTimeIs(s: Sched, ticks: Tick, indefinitely: bool)
    requires Placed(s) && s.states.container[s.current].Ready? && !(ticks == PORT_MAX_DELAY && indefinitely)
    ensures Valid(RemoveItem(s.states, s.current))
    ensures BlockCurrent(s, ticks, indefinitely) == EnqueueDelayed(s.(states := RemoveItem(s.states, s.current)), ticks)
  {
    hide Valid, Insert, InsertPosition, Values, InsertLast, RemoveItem;
    PlacedItems(s, s.current);
    RemoveKeeps(s.states, s.current);
    SameDelayed(s.states, s.current);
  }

  /** Nothing is held over by a suspension in which nothing came. */
  lemma NothingHeld(s: Sched)
    requires Inv(s) && s.depth == 0
    ensures Core(SuspendAll(s)) && ResumeAll(SuspendAll(s)) == s
  {
    hide Placed, ReadyInv, EventInv, CountInv, Timed, HeadBound, NothingDueAtWrap, Items;
    FieldsOnly(s, 1, s.pended, s.yieldPending);
  }

  /** To block does not depend on the suspension. */
  lemma BlockSuspended(s: Sched, ticks: Tick, indefinitely: bool)
    requires Placed(s) && s.states.container[s.current].Ready?
    ensures Placed(SuspendAll(s))
    ensures BlockCurrent(SuspendAll(s), ticks, indefinitely) == SuspendAll(BlockCurrent(s, ticks, indefinitely))
  {
    hide Placed, InsertDelayed, Move, AddTicks;
    PlacedSuspended(s);
    if !(ticks == PORT_MAX_DELAY && indefinitely) {
      InsertSuspended(s, s.second, AddTicks(s.tickCount, ticks), s.time + ticks);
      InsertSuspended(s, !s.second, AddTicks(s.tickCount, ticks), s.time + ticks);
    }
  }

  lemma InsertSuspended(s: Sched, second: bool, at: Tick, due: nat)
    requires Placed(s) && s.states.container[s.current].Ready?
    ensures Placed(SuspendAll(s))
    ensures InsertDelayed(SuspendAll(s), second, at, due) == SuspendAll(InsertDelayed(s, second, at, due))
    ensures InsertDelayed(s, second, at, due).nextUnblock == s.nextUnblock
  {
    hide Placed, Items, InsertPosition, Values, MoveTo;
    PlacedSuspended(s);
  }

  lemma PlacedSuspended(s: Sched)
    requires Placed(s)
    ensures Placed(SuspendAll(s))
  {
    hide Valid;
  }

  lemma BlockKeeps(s: Sched, ticks: Tick, indefinitely: bool)
    requires Inv(s) && s.depth == 0 && s.states.container[s.current].Ready? && MayBlock(s, ticks, indefinitely)
    ensures Inv(BlockCurrent(s, ticks, indefinitely)) && BlockCurrent(s, ticks, indefinitely).depth == 0
  {
    hide Core, Items, BlockCurrent, MayBlock;
    BlockExact(s, ticks, indefinitely);
  }

  lemma SameDelayed(b: Bank, t: Task)
    requires Valid(b) && t in b.container && !b.container[t].Delayed? && t in Items(b, b.container[t])
    ensures forall second :: Items(RemoveItem(b, t), Delayed(second)) == Items(b, Delayed(second))
  {
    RemoveKeeps(b, t);
  }

  lemma ChangePriorityIs(s: Sched, t: Task, p: nat, itemValue: nat)
    requires Core(s) && t in s.priority
    ensures Valid(s.states) && t in s.states.container && t in Items(s.states, s.states.container[t])
            && t in s.eventValue
    ensures Valid(RemoveItem(s.states, t))
    ensures var r := s.(priority := s.priority[t := p],
                        eventValue := if s.eventValue[t] < ITEM_VALUE_IN_USE then s.eventValue[t := itemValue]
                                      else s.eventValue);
            ChangePriority(s, t, p, itemValue)
            == if IsOn(s.states, t, Ready(s.priority[t]))
               then r.(states := InsertLast(RemoveItem(s.states, t), Ready(p), t),
                       topReady := RecordReady(s.topReady, p))
               else r
  {
    RemoveKeeps(s.states, t);
  }

  lemma ResumeFromISRIs(s: Sched, t: Task)
    requires Core(s) && t in s.priority
    ensures Valid(s.states) && Valid(s.events) && t in s.states.container && t in Items(s.states, s.states.container[t])
    ensures Valid(RemoveItem(s.states, t)) && s.current in s.priority
    ensures ResumeFromISR(s, t)
         == if !IsOn(s.states, t, Suspended) || t in s.events.container then s
            else if s.depth == 0 then
              s.(states := InsertLast(RemoveItem(s.states, t), Ready(s.priority[t]), t),
                 topReady := RecordReady(s.topReady, s.priority[t]),
                 yieldPending := s.yieldPending || s.priority[t] > s.priority[s.current])
            else s.(events := InsertLast(s.events, PendingReady, t))
  {
    RemoveKeeps(s.states, t);
  }

  /** What is known of a task and its list items. */
  lemma ItemsOf(s: Sched, t: Task)
    requires Core(s) && (t == s.current || t in s.states.container || t in s.events.container)
    ensures Placed(s) && Valid(s.states) && Valid(s.events)
    ensures t in s.priority && t in s.states.container && t in s.eventValue
    ensures s.current in s.priority && s.current in s.states.container && s.current in s.eventValue
    ensures t in Items(s.states, s.states.container[t])
    ensures t in s.events.container ==> t in Items(s.events, s.events.container[t])
    ensures Valid(RemoveItem(s.states, t)) && RemoveItem(s.states, t).container == s.states.container - {t}
    ensures forall l :: l != s.states.container[t] ==> Items(RemoveItem(s.states, t), l) == Items(s.states, l)
  {
    RemoveKeeps(s.states, t);
    RemovedContainer(s.states, t);
    hide Valid;
  }

  lemma ResetOfCore(s: Sched)
    requires Core(s)
    ensures Core(ResetNextUnblock(s))
  {
    ResetCore(s);
  }

  lemma InStates(s: Sched, t: Task)
    requires Core(s) && t in s.priority
    ensures t in s.states.container
  {
  }

  /** A task that waits for the idle task is on no event list. */
  lemma ForgottenItem(s: Sched, t: Task)
    requires Core(s) && t in s.states.container && s.states.container[t] == Termination
    ensures t in s.priority && t !in s.events.container && t in Items(s.states, Termination)
    ensures RemoveIfThere(s.events, t) == s.events
  {
  }

  lemma FirstDeadOf(s: Sched)
    requires Core(s) && s.states.container[s.current] != Termination && s.deletedWaiting > 0
    ensures Items(s.states, Termination) != [] && s.numberOfTasks > 0
    ensures var t := Items(s.states, Termination)[0];
            t in s.priority && t in s.states.container && s.states.container[t] == Termination
  {
    FirstDead(s);
    DeadHead(s);
  }

  ghost predicate SomeUpTo(s: Sched, top: nat) {
    exists q: nat :: q <= top && Items(s.states, Ready(q)) != []
  }

  lemma SearchStarts(s: Sched)
    requires Core(s) && SomeReady(s)
    ensures Lists(s) && SomeUpTo(s, s.topReady)
  {
    SomeListReady(s);
  }

  lemma OneLower(s: Sched, top: nat)
    requires SomeUpTo(s, top) && Items(s.states, Ready(top)) == []
    ensures top > 0 && SomeUpTo(s, top - 1)
    ensures HighestReady(s, top) == HighestReady(s, top - 1)
  {
    var q: nat :| q <= top && Items(s.states, Ready(q)) != [];
    assert q <= top - 1;
  }

  lemma RingIsThere(s: Sched, top: nat)
    requires Core(s) && Items(s.states, Ready(top)) != []
    ensures At(s.states, Ready(top)).items != []
    ensures var a := Advance(At(s.states, Ready(top))); 0 < a.index <= |a.items|
  {
    AdvanceKeeps(s.states, Ready(top));
  }

  lemma SelectIgnoresYield(s: Sched, yieldPending: bool)
    requires Core(s) && SomeReady(s) && Core(s.(yieldPending := yieldPending))
    ensures SomeReady(s.(yieldPending := yieldPending))
    ensures Select(s.(yieldPending := yieldPending)) == Select(s).(yieldPending := yieldPending)
  {
    SomeListReady(s);
    SearchIgnoresYield(s, s.topReady, yieldPending);
  }

  lemma {:induction false} SearchIgnoresYield(s: Sched, top: nat, yieldPending: bool)
    requires exists q :: 0 <= q <= top && Items(s.states, Ready(q)) != []
    ensures exists q :: 0 <= q <= top && Items(s.(yieldPending := yieldPending).states, Ready(q)) != []
    ensures HighestReady(s.(yieldPending := yieldPending), top) == HighestReady(s, top)
  {
    if Items(s.states, Ready(top)) == [] {
      SearchIgnoresYield(s, top - 1, yieldPending);
    }
  }

  lemma EmptyWhenNextIsZero(s: Sched)
    requires Core(s)
    ensures AddTicks(s.tickCount, 1) == 0 ==> DelayedNow(s) == []
  {
    if AddTicks(s.tickCount, 1) == 0 {
      EmptyAtSwitch(s);
    }
  }

  lemma NoneAbove(s: Sched)
    requires s.current in s.priority
    ensures !AnyAbove(s, {})
  {
  }

  lemma UnblockShape(s: Sched, t: Task)
    requires Placed(s) && t in s.priority
    ensures OnlyListsDiffer(s, Unblock(s, t))
  {
  }

  lemma EventValueIgnored(s: Sched, t: Task, itemValue: nat)
    requires Placed(s) && t in s.priority
    ensures var e := s.(eventValue := s.eventValue[t := itemValue]);
            Placed(e) && Unblock(e, t) == Unblock(s, t).(eventValue := s.eventValue[t := itemValue])
  {
  }

  /** The tasks woken so far are one more. */
  lemma WokeOneMore(s0: Sched, s: Sched, r: Sched, t: Task)
    requires OnlyListsDiffer(s0, s) && OnlyListsDiffer(s, r) && s0.current in s0.priority && t in s0.priority
    requires DueOnCurrent(s) <= DueOnCurrent(s0) && DueOnCurrent(s) == DueOnCurrent(r) + {t}
    requires r.states.container == s.states.container[t := Ready(s.priority[t])]
    ensures DueOnCurrent(r) <= DueOnCurrent(s0)
    ensures AnyAbove(s0, DueOnCurrent(s0) - DueOnCurrent(r))
         <==> AnyAbove(s0, DueOnCurrent(s0) - DueOnCurrent(s)) || s0.priority[t] > s0.priority[s0.current]
  {
    assert t !in DueOnCurrent(r);
    assert DueOnCurrent(s0) - DueOnCurrent(r) == (DueOnCurrent(s0) - DueOnCurrent(s)) + {t};
  }
}
