/** How a task blocks, for a time or for an event, and how an event wakes it. */
module SchedulerBlocking {

  import opened Ticks
  import opened ListModel
  import opened KernelConfig
  import opened Banks
  import opened Scheduler
  import opened SchedulerTick

  // ---------- blocking ----------

  /** A time to wait for can be stored: it is not already past when the tick count wraps. */
  predicate MayBlock(s: Sched, ticks: Tick, indefinitely: bool) {
    (ticks == PORT_MAX_DELAY && indefinitely) || ticks > 0 || s.tickCount != PORT_MAX_DELAY
  }

  /** The current task's state item goes into a delayed list, in order of the stored wake time. */
  function InsertDelayed(s: Sched, second: bool, at: Tick, due: nat): Sched
    requires Placed(s) && s.states.container[s.current].Ready?
  {
    var items := Items(s.states, Delayed(second));
    s.(states := MoveTo(s.states, Delayed(second), InsertPosition(Values(items, s.value), at), s.current),
       value := s.value[s.current := at], wake := s.wake[s.current := due])
  }

  /** `prvAddCurrentTaskToDelayedList`. */
  function BlockCurrent(s: Sched, ticks: Tick, indefinitely: bool): Sched
    requires Placed(s) && s.states.container[s.current].Ready?
  {
    var t := s.current;
    if ticks == PORT_MAX_DELAY && indefinitely then
      s.(states := Move(s.states, Suspended, t))
    else
      var at := AddTicks(s.tickCount, ticks);
      if at < s.tickCount then InsertDelayed(s, !s.second, at, s.time + ticks)
      else
        InsertDelayed(s, s.second, at, s.time + ticks).(nextUnblock := if at < s.nextUnblock then at else s.nextUnblock)
  }

  lemma InsertDelayedLists(s: Sched, second: bool, at: Tick, due: nat)
    requires Lists(s) && s.states.container[s.current].Ready?
    ensures var r, l := InsertDelayed(s, second, at, due), Delayed(second);
            && Lists(r)
            && r.states.container == s.states.container[s.current := l]
            && Items(r.states, Delayed(!second)) == Items(s.states, Delayed(!second))
            && Items(r.states, l)
               == InsertAt(Items(s.states, l), InsertPosition(Values(Items(s.states, l), s.value), at), s.current)
            && s.current !in Items(s.states, l) && s.current !in Items(s.states, Delayed(!second))
  {
    hide MoveTo, Valid, Items, Values, InsertPosition, InsertAt, ReadyInv, EventInv, CountInv;
    var t, l := s.current, Delayed(second);
    var k := InsertPosition(Values(Items(s.states, l), s.value), at);
    MoveToKeeps(s.states, l, k, t);
    NotOn(s, t, l);
    NotOn(s, t, Delayed(!second));
    MovedElsewhere(s.states, l, k, t, Delayed(!second));
    MovedElsewhere(s.states, l, k, t, Termination);
    RelocateLists(s, InsertDelayed(s, second, at, due), t, l);
  }

  ghost predicate Relocated(s: Sched, r: Sched, t: Task, l: ListId) {
    && t in s.priority && (l.Delayed? || l.Suspended?) && t in s.states.container
         && s.states.container[t] != Termination
    && Valid(r.states) && r.states.container == s.states.container[t := l]
    && Items(r.states, Termination) == Items(s.states, Termination)
    && r.value.Keys == s.value.Keys && r.wake.Keys == s.wake.Keys
    && r.events == s.events && r.priority == s.priority && r.eventValue == s.eventValue && r.current == s.current
    && r.topReady == s.topReady && r.numberOfTasks == s.numberOfTasks && r.deletedWaiting == s.deletedWaiting
  }

  /** A task goes to a list on which it is blocked. */
  lemma RelocateLists(s: Sched, r: Sched, t: Task, l: ListId)
    requires Lists(s) && Relocated(s, r, t, l)
    ensures Lists(r)
  {
    hide Valid, Items, Relocated, Placed, ReadyInv, EventInv, CountInv;
    RelocatedPlaced(s, r, t, l);
    RelocatedTasks(s, r, t, l);
    RelocatedCounts(s, r, t, l);
  }

  lemma RelocatedPlaced(s: Sched, r: Sched, t: Task, l: ListId)
    requires Placed(s) && Relocated(s, r, t, l)
    ensures Placed(r)
  {
    hide Valid, Items;
  }

  lemma RelocatedTasks(s: Sched, r: Sched, t: Task, l: ListId)
    requires ReadyInv(s) && EventInv(s) && Relocated(s, r, t, l)
    ensures ReadyInv(r) && EventInv(r)
  {
    hide Valid, Items;
  }

  lemma RelocatedCounts(s: Sched, r: Sched, t: Task, l: ListId)
    requires CountInv(s) && Relocated(s, r, t, l)
    ensures CountInv(r)
  {
    hide Valid, Items;
  }

  lemma MovedElsewhere(b: Bank, l: ListId, k: nat, t: Task, other: ListId)
    requires Valid(b) && t in b.container && l != b.container[t] && k <= |Items(b, l)|
    requires other != l && other != b.container[t]
    ensures Items(MoveTo(b, l, k, t), other) == Items(b, other)
  {
    MoveToKeeps(b, l, k, t);
  }

  /** The order of a list into which a task was inserted, and of one into which it was not. */
  lemma InsertedOrder(items: seq<Task>, t: Task, value: map<Task, nat>, at: nat)
    requires Sorted(Values(items, value)) && t !in items
    ensures var k := InsertPosition(Values(items, value), at);
            && Sorted(Values(InsertAt(items, k, t), value[t := at]))
            && (items != [] && k > 0 ==> InsertAt(items, k, t)[0] == items[0])
            && (k == 0 ==> InsertAt(items, k, t)[0] == t)
            && (items != [] && k == 0 ==> at < ValueOf(value, items[0]))
  {
    var k := InsertPosition(Values(items, value), at);
    ValuesElsewhere(items, value, value[t := at]);
    ValuesInsert(items, k, t, value[t := at]);
    SortedInsertIsStable(Values(items, value), at);
  }

  lemma UntouchedOrder(items: seq<Task>, t: Task, value: map<Task, nat>, at: nat)
    requires Sorted(Values(items, value)) && t !in items
    ensures Sorted(Values(items, value[t := at]))
  {
    ValuesElsewhere(items, value, value[t := at]);
  }

  /** Where the wake time falls decides the list. */
  lemma WakeEpoch(time: nat, ticks: Tick)
    ensures AddTicks(Wrap(time), ticks) == Wrap(time + ticks)
    ensures Epoch(time + ticks) == if Wrap(time + ticks) < Wrap(time) then Epoch(time) + 1 else Epoch(time)
  {
    WrapAdd(time, ticks);
    SameLap(time, time + ticks);
  }

  /** Both delayed lists stay in order, and what the new first one is. */
  lemma InsertDelayedOrder(s: Sched, second: bool, at: Tick, due: nat)
    requires Lists(s) && s.states.container[s.current].Ready?
    requires Sorted(Values(Items(s.states, Delayed(second)), s.value))
    requires Sorted(Values(Items(s.states, Delayed(!second)), s.value))
    ensures var r := InsertDelayed(s, second, at, due);
            var old1, new1 := Items(s.states, Delayed(second)), Items(r.states, Delayed(second));
            var old2, new2 := Items(s.states, Delayed(!second)), Items(r.states, Delayed(!second));
            && Sorted(Values(new1, r.value)) && Sorted(Values(new2, r.value)) && new1 != []
            && (ValueOf(r.value, new1[0]) == at
                || (old1 != [] && ValueOf(r.value, new1[0]) == ValueOf(s.value, old1[0])))
            && new2 == old2 && (old2 != [] ==> ValueOf(r.value, old2[0]) == ValueOf(s.value, old2[0]))
  {
    var t := s.current;
    var old1, old2 := Items(s.states, Delayed(second)), Items(s.states, Delayed(!second));
    InsertDelayedLists(s, second, at, due);
    InsertedOrder(old1, t, s.value, at);
    UntouchedOrder(old2, t, s.value, at);
    assert old1 != [] ==> old1[0] in old1;
    assert old2 != [] ==> old2[0] in old2;
    hide Sorted, Values, InsertPosition, InsertAt, Lists;
  }

  /** `r` is `s` with the current task on a delayed list, due at `due`. */
  ghost predicate Joined(s: Sched, r: Sched, second: bool, due: nat) {
    && s.current in s.priority
    && r == s.(states := r.states, value := s.value[s.current := Wrap(due)], wake := s.wake[s.current := due],
               nextUnblock := r.nextUnblock)
    && r.states.container == s.states.container[s.current := Delayed(second)]
    && Sorted(Values(DelayedNow(r), r.value)) && Sorted(Values(DelayedLater(r), r.value))
  }

  lemma InsertJoins(s: Sched, second: bool, due: nat)
    requires Lists(s) && Timed(s, s.time) && s.states.container[s.current].Ready?
    ensures var r := InsertDelayed(s, second, Wrap(due), due);
            && Lists(r) && Joined(s, r, second, due) && r.nextUnblock == s.nextUnblock
            && (second != s.second && HeadBound(s) ==> HeadBound(r))
            && (second == s.second && HeadBound(s) ==>
                  HeadBound(r.(nextUnblock := if Wrap(due) < s.nextUnblock then Wrap(due) else s.nextUnblock)))
  {
    hide Sorted, Values, Items, ReadyInv, EventInv, CountInv, Valid, MoveTo;
    InsertDelayedLists(s, second, Wrap(due), due);
    InsertDelayedOrder(s, second, Wrap(due), due);
  }

  lemma JoinedTimed(s: Sched, r: Sched, second: bool, due: nat)
    requires Placed(s) && Timed(s, s.time) && Joined(s, r, second, due)
    requires due >= s.time && Epoch(due) == Epoch(s.time) + if second == s.second then 0 else 1
    ensures Timed(r, s.time)
    ensures NothingDueAtWrap(s) && (due > s.time || s.tickCount != PORT_MAX_DELAY) ==> NothingDueAtWrap(r)
  {
    hide Sorted, Values, Items, Valid, NothingDueAtWrap, OnTime, Wrap, Epoch;
    JoinedAtWrap(s, r, second, due);
    JoinedOnTime(s, r, second, due);
  }

  lemma JoinedOnTime(s: Sched, r: Sched, second: bool, due: nat)
    requires OnTime(s, s.time) && Joined(s, r, second, due)
    requires due >= s.time && Epoch(due) == Epoch(s.time) + if second == s.second then 0 else 1
    ensures OnTime(r, s.time)
  {
    hide Sorted, Values, Items, Wrap, Epoch;
  }

  lemma JoinedAtWrap(s: Sched, r: Sched, second: bool, due: nat)
    requires Placed(s) && Joined(s, r, second, due)
    ensures NothingDueAtWrap(s) && (due > s.time || s.tickCount != PORT_MAX_DELAY) ==> NothingDueAtWrap(r)
  {
    hide Sorted, Values, Items, Valid;
  }

  lemma SuspendedLists(s: Sched, t: Task)
    requires Lists(s) && t in s.priority && s.states.container[t] != Termination
    ensures Lists(s.(states := Move(s.states, Suspended, t)))
  {
    MoveKeeps(s.states, Suspended, t);
    MoveElsewhere(s.states, Suspended, t, Termination);
    hide Valid, Items, Lists;
    RelocateLists(s, s.(states := Move(s.states, Suspended, t)), t, Suspended);
  }

  /** The list a task blocks on: no delayed list at all, or the one of the epoch in which it is to wake. */
  function BlockList(s: Sched, ticks: Tick, indefinitely: bool): ListId {
    if ticks == PORT_MAX_DELAY && indefinitely then Suspended
    else if Epoch(s.time + ticks) == Epoch(s.time) then Delayed(s.second)
    else Delayed(!s.second)
  }

  /** The current task blocks: it is on the list of the epoch in which its time comes. The invariant is kept
      exactly when the time to wait for is not past at the next tick, for ever apart: a block of no ticks at
      the last tick of an epoch leaves the task on a list that must be empty at the next tick. */
  lemma BlockExact(s: Sched, ticks: Tick, indefinitely: bool)
    requires Core(s) && s.states.container[s.current].Ready?
    ensures var r := BlockCurrent(s, ticks, indefinitely);
            && r == s.(states := r.states, value := r.value, wake := r.wake, nextUnblock := r.nextUnblock)
            && r.states.container == s.states.container[s.current := BlockList(s, ticks, indefinitely)]
            && s.current in r.wake
            && (BlockList(s, ticks, indefinitely).Delayed? ==> r.wake[s.current] == s.time + ticks)
            && (Core(r) <==> MayBlock(s, ticks, indefinitely))
            && (!MayBlock(s, ticks, indefinitely) ==> s.current in DelayedNow(r))
  {
    if ticks == PORT_MAX_DELAY && indefinitely {
      BlockForever(s, s.current);
    } else {
      BlockForTime(s, ticks, indefinitely);
    }
  }

  /** The task has gone behind all items whose value does not exceed its own, and in front of the first whose does. */
  ghost predicate EnteredByValue(before: seq<Task>, t: Task, after: seq<Task>, value: map<Task, nat>) {
    exists k ::
      && 0 <= k <= |before| && after == InsertAt(before, k, t)
      && (forall i :: 0 <= i < k ==> ValueOf(value, before[i]) <= ValueOf(value, t))
      && (k < |before| ==> ValueOf(value, t) < ValueOf(value, before[k]))
  }

  /** Of tasks to be woken at the same time the one that blocked first is in front. */
  lemma BlockedBehindEquals(s: Sched, ticks: Tick, indefinitely: bool)
    requires Core(s) && s.states.container[s.current].Ready? && !(ticks == PORT_MAX_DELAY && indefinitely)
    ensures var r, l := BlockCurrent(s, ticks, indefinitely), BlockList(s, ticks, indefinitely);
            EnteredByValue(Items(s.states, l), s.current, Items(r.states, l), r.value)
  {
    hide ReadyInv, EventInv, CountInv, Timed, HeadBound, NothingDueAtWrap, InsertAt, InsertPosition, InsertDelayed,
         Valid;
    var second := if Epoch(s.time + ticks) == Epoch(s.time) then s.second else !s.second;
    var at, l := AddTicks(s.tickCount, ticks), Delayed(second);
    BlockTime(s, ticks);
    InsertDelayedLists(s, second, at, s.time + ticks);
    var before, r := Items(s.states, l), BlockCurrent(s, ticks, indefinitely);
    InsertedValue(s, second, at, s.time + ticks);
    var k := InsertPosition(Values(before, s.value), at);
    forall i | 0 <= i < |before|
      ensures ValueOf(r.value, before[i]) == Values(before, s.value)[i]
    {
      assert before[i] in before;
    }
    assert Items(r.states, l) == InsertAt(before, k, s.current);
  }

  lemma InsertedValue(s: Sched, second: bool, at: Tick, due: nat)
    requires Placed(s) && s.states.container[s.current].Ready?
    ensures InsertDelayed(s, second, at, due).value == s.value[s.current := at]
  {
    hide Valid, MoveTo, InsertPosition;
  }

  lemma BlockTime(s: Sched, ticks: Tick)
    requires Timed(s, s.time)
    ensures AddTicks(s.tickCount, ticks) < s.tickCount <==> Epoch(s.time + ticks) != Epoch(s.time)
  {
    hide Sorted, Values, OnTime;
    WakeEpoch(s.time, ticks);
  }

  lemma BlockForever(s: Sched, t: Task)
    requires Core(s) && t in s.priority && s.states.container[t] != Termination
    ensures var r := s.(states := Move(s.states, Suspended, t));
            Core(r) && r.states.container == s.states.container[t := Suspended]
  {
    SuspendedLists(s, t);
    MoveKeepsTimed(s, Suspended, t, s.time);
    MoveKeeps(s.states, Suspended, t);
    hide Lists, Timed, HeadBound, NothingDueAtWrap, Move;
  }

  lemma BlockForTime(s: Sched, ticks: Tick, indefinitely: bool)
    requires Core(s) && s.states.container[s.current].Ready?
    requires !(ticks == PORT_MAX_DELAY && indefinitely)
    ensures var r := BlockCurrent(s, ticks, indefinitely);
            && r == s.(states := r.states, value := r.value, wake := r.wake, nextUnblock := r.nextUnblock)
            && r.states.container == s.states.container[s.current := BlockList(s, ticks, indefinitely)]
            && s.current in r.wake && r.wake[s.current] == s.time + ticks
            && (Core(r) <==> MayBlock(s, ticks, indefinitely))
            && (!MayBlock(s, ticks, indefinitely) ==> s.current in DelayedNow(r))
  {
    hide Placed, ReadyInv, EventInv, CountInv, HeadBound, InsertDelayed, NothingDueAtWrap, Sorted, Values, Items;
    var due := s.time + ticks;
    WakeEpoch(s.time, ticks);
    var second := if Wrap(due) < s.tickCount then !s.second else s.second;
    InsertJoins(s, second, due);
    var j := InsertDelayed(s, second, Wrap(due), due);
    JoinedTimed(s, j, second, due);
    hide Timed;
    var r := BlockCurrent(s, ticks, indefinitely);
    ClockOnly(j, r);
    SetNextUnblock(j, r.nextUnblock, s.time);
    if MayBlock(s, ticks, indefinitely) {
      SetNextAtWrap(j, r.nextUnblock);
    } else {
      DueAtWrap(r, s.current);
    }
  }

  /** A task that is due already, on the current list at the last tick of an epoch. */
  lemma DueAtWrap(r: Sched, t: Task)
    requires Placed(r) && t in r.states.container && r.states.container[t] == Delayed(r.second)
    requires r.tickCount == PORT_MAX_DELAY && t in r.wake && r.wake[t] <= r.time
    ensures !NothingDueAtWrap(r) && t in DelayedNow(r)
  {
  }

  lemma SetNextAtWrap(s: Sched, n: Tick)
    requires NothingDueAtWrap(s)
    ensures NothingDueAtWrap(s.(nextUnblock := n))
  {
  }

  lemma NotOn(s: Sched, t: Task, l: ListId)
    requires Placed(s) && t in s.priority && s.states.container[t] != l
    ensures t !in Items(s.states, l)
  {
  }


  // ---------- events ----------

  /** The current task's event item goes into the list of an event: by its value, or at the end. */
  function EnterEvent(s: Sched, id: nat, ordered: bool): Sched
    requires Placed(s)
  {
    s.(events := Insert(s.events, Event(id), EventPlace(s, id, ordered), s.current))
  }

  function EventPlace(s: Sched, id: nat, ordered: bool): (k: nat)
    requires Placed(s)
    ensures k <= |Items(s.events, Event(id))|
  {
    if ordered then InsertPosition(Values(Items(s.events, Event(id)), s.eventValue), s.eventValue[s.current])
    else LastPlace(s.events, Event(id))
  }

  /** `vTaskPlaceOnEventList`, and `vTaskPlaceOnEventListRestricted` when not `ordered`. */
  function PlaceOnEventList(s: Sched, id: nat, ordered: bool, ticks: Tick, indefinitely: bool): Sched
    requires Core(s) && s.states.container[s.current].Ready? && MayBlock(s, ticks, indefinitely)
  {
    BlockExact(s, ticks, indefinitely);
    EnterEvent(BlockCurrent(s, ticks, indefinitely), id, ordered)
  }

  lemma ReadyWaitsForNothing(s: Sched, t: Task)
    requires Lists(s) && t in s.priority && s.states.container[t].Ready?
    ensures t !in s.events.container
  {
  }

  /** A change of the event lists alone: what it takes for the rest to hold still. */
  lemma EventsOnly(s: Sched, r: Sched)
    requires Core(s) && r == s.(events := r.events)
    requires Valid(r.events) && r.events.container.Keys <= s.priority.Keys && EventInv(r)
    ensures Core(r)
  {
    hide Timed, HeadBound, NothingDueAtWrap, Valid, Items;
    SameTimes(s, r);
  }

  lemma EnterEventKeeps(s: Sched, id: nat, ordered: bool)
    requires Core(s) && s.current !in s.events.container
    requires s.states.container[s.current].Delayed? || s.states.container[s.current].Suspended?
    ensures var r := EnterEvent(s, id, ordered);
            Core(r) && r.events.container == s.events.container[s.current := Event(id)] && r == s.(events := r.events)
  {
    hide Timed, HeadBound, NothingDueAtWrap, Insert, Valid, EventPlace, ReadyInv, CountInv, Items;
    InsertKeeps(s.events, Event(id), EventPlace(s, id, ordered), s.current);
    InsertedContainer(s.events, Event(id), EventPlace(s, id, ordered), s.current);
    EventsOnly(s, EnterEvent(s, id, ordered));
  }

  lemma InsertedContainer(b: Bank, l: ListId, k: nat, t: Task)
    requires k <= |Items(b, l)|
    ensures Insert(b, l, k, t).container == b.container[t := l]
  {
  }

  /** A task that waits for an event is on its list and on the list of the epoch of its timeout. */
  lemma PlaceOnEventListExact(s: Sched, id: nat, ordered: bool, ticks: Tick, indefinitely: bool)
    requires Core(s) && s.states.container[s.current].Ready? && MayBlock(s, ticks, indefinitely)
    ensures var r := PlaceOnEventList(s, id, ordered, ticks, indefinitely);
            && Core(r)
            && r.states.container == s.states.container[s.current := BlockList(s, ticks, indefinitely)]
            && r.events.container == s.events.container[s.current := Event(id)]
            && (BlockList(s, ticks, indefinitely).Delayed? ==> r.wake[s.current] == s.time + ticks)
            && (ordered ==> EnteredByValue(Items(s.events, Event(id)), s.current, Items(r.events, Event(id)),
                                           s.eventValue))
            && r.priority == s.priority && r.eventValue == s.eventValue
  {
    hide ReadyInv, EventInv, CountInv, Timed, HeadBound, NothingDueAtWrap, Items, BlockCurrent, Epoch, EnteredByValue;
    BlockExact(s, ticks, indefinitely);
    ReadyWaitsForNothing(s, s.current);
    var b := BlockCurrent(s, ticks, indefinitely);
    EnterEventKeeps(b, id, ordered);
    if ordered {
      EnterEventByValue(b, id);
    }
  }

  lemma EnterEventByValue(s: Sched, id: nat)
    requires Core(s) && s.current !in s.events.container
    ensures EnteredByValue(Items(s.events, Event(id)), s.current, Items(EnterEvent(s, id, true).events, Event(id)),
                           s.eventValue)
  {
    hide ReadyInv, EventInv, CountInv, Timed, HeadBound, NothingDueAtWrap, Items, Insert, InsertAt, InsertPosition,
         Valid;
    var before, k := Items(s.events, Event(id)), EventPlace(s, id, true);
    InsertKeeps(s.events, Event(id), k, s.current);
    assert forall i :: 0 <= i < |before| ==> Values(before, s.eventValue)[i] == ValueOf(s.eventValue, before[i]);
  }

  /** The first task that waits for the event is more urgent than the current one. */
  predicate HeadOutranks(s: Sched, id: nat) {
    var waiting := Items(s.events, Event(id));
    && waiting != [] && waiting[0] in s.priority && s.current in s.priority
    && s.priority[waiting[0]] > s.priority[s.current]
  }

  /** `xTaskRemoveFromEventList`: the first waiting task is woken, or held until the scheduler resumes. */
  function RemoveFromEventList(s: Sched, id: nat): Sched
    requires Placed(s) && Items(s.events, Event(id)) != []
  {
    var t := Items(s.events, Event(id))[0];
    HeadWaits(s, id);
    var r := if s.depth == 0 then Unblock(s, t) else s.(events := Move(s.events, PendingReady, t));
    r.(yieldPending := r.yieldPending || s.priority[t] > s.priority[s.current])
  }

  lemma HeadWaits(s: Sched, id: nat)
    requires Placed(s) && Items(s.events, Event(id)) != []
    ensures var t := Items(s.events, Event(id))[0];
            t in s.events.container && t in s.priority && s.events.container[t] == Event(id)
  {
    assert Items(s.events, Event(id))[0] in Items(s.events, Event(id));
  }

  lemma UnblockCore(s: Sched, t: Task)
    requires Core(s) && t in s.priority && s.states.container[t] != Termination
    ensures Core(Unblock(s, t))
    ensures Unblock(s, t).states.container == s.states.container[t := Ready(s.priority[t])]
    ensures Unblock(s, t).events.container == s.events.container - {t}
    ensures OnlyListsDiffer(s, Unblock(s, t))
    ensures Settled(s) ==> Settled(Unblock(s, t))
  {
    UnblockKeeps(s, t);
    UnblockKeepsTimed(s, t, s.time);
    LeaveEventKeeps(s, t);
    hide Timed, HeadBound, NothingDueAtWrap, Lists;
  }

  lemma PendKeeps(s: Sched, t: Task)
    requires Core(s) && t in s.events.container && s.depth > 0
    ensures var r := s.(events := Move(s.events, PendingReady, t));
            Core(r) && r.events.container == s.events.container[t := PendingReady]
  {
    hide Timed, HeadBound, NothingDueAtWrap, Move, Valid, Items, ReadyInv, CountInv;
    MoveKeeps(s.events, PendingReady, t);
    EventsOnly(s, s.(events := Move(s.events, PendingReady, t)));
  }

  lemma YieldOnly(s: Sched, yieldPending: bool)
    requires Core(s)
    ensures Core(s.(yieldPending := yieldPending))
  {
    hide Timed, HeadBound, NothingDueAtWrap, Valid, Items;
    SameTimes(s, s.(yieldPending := yieldPending));
  }

  /** The task that an event wakes runs no later than at the end of the suspension of the scheduler, and
      leaves the event's list at once. */
  lemma RemoveFromEventListExact(s: Sched, id: nat)
    requires Inv(s) && Items(s.events, Event(id)) != []
    ensures var t, r := Items(s.events, Event(id))[0], RemoveFromEventList(s, id);
            && t in s.priority && Inv(r)
            && (s.depth == 0 ==>
                  && r.states.container == s.states.container[t := Ready(s.priority[t])]
                  && r.events.container == s.events.container - {t})
            && (s.depth > 0 ==>
                  && r.states.container == s.states.container
                  && r.events.container == s.events.container[t := PendingReady])
            && s.current in s.priority
            && (r.yieldPending <==> s.yieldPending || s.priority[t] > s.priority[s.current])
            && r.time == s.time && r.pended == s.pended && r.depth == s.depth && r.wake == s.wake
  {
    var t := Items(s.events, Event(id))[0];
    HeadWaits(s, id);
    assert t in s.states.container;
    if s.depth == 0 {
      UnblockCore(s, t);
      YieldOnly(Unblock(s, t), RemoveFromEventList(s, id).yieldPending);
    } else {
      PendKeeps(s, t);
      YieldOnly(s.(events := Move(s.events, PendingReady, t)), RemoveFromEventList(s, id).yieldPending);
    }
    hide Core, Unblock, Move;
  }

  /** `vTaskRemoveFromUnorderedEventList`, with the scheduler suspended. */
  function RemoveFromUnordered(s: Sched, t: Task, itemValue: nat): Sched
    requires Placed(s) && t in s.priority
  {
    var r := Unblock(s, t);
    r.(eventValue := r.eventValue[t := itemValue],
       yieldPending := r.yieldPending || s.priority[t] > s.priority[s.current])
  }

  lemma EventValueOnly(s: Sched, t: Task, itemValue: nat)
    requires Core(s) && t in s.priority
    ensures Core(s.(eventValue := s.eventValue[t := itemValue]))
  {
    hide Timed, HeadBound, NothingDueAtWrap, Valid, Items;
    SameTimes(s, s.(eventValue := s.eventValue[t := itemValue]));
  }

  lemma RemoveFromUnorderedKeeps(s: Sched, t: Task, itemValue: nat)
    requires Inv(s) && t in s.events.container && s.depth > 0
    ensures var r := RemoveFromUnordered(s, t, itemValue);
            && t in s.priority && Inv(r)
            && r.states.container == s.states.container[t := Ready(s.priority[t])]
            && r.events.container == s.events.container - {t}
            && t in s.eventValue && r.eventValue == s.eventValue[t := itemValue]
            && s.current in s.priority
            && (r.yieldPending <==> s.yieldPending || s.priority[t] > s.priority[s.current])
            && r.time == s.time && r.pended == s.pended && r.depth == s.depth && r.wake == s.wake
  {
    assert t in s.states.container;
    UnblockCore(s, t);
    EventValueOnly(Unblock(s, t), t, itemValue);
    YieldOnly(Unblock(s, t).(eventValue := s.eventValue[t := itemValue]),
              RemoveFromUnordered(s, t, itemValue).yieldPending);
    hide Core, Unblock;
  }
}
