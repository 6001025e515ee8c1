/** The task lists of the scheduler, the tick, and the times at which blocked tasks wake.

    `time` is the true time of which the tick count is the stored value, and `wake` the true time at which a
    task on a delayed list is due. */
module Scheduler {

  import opened Ticks
  import opened ListModel
  import opened KernelConfig
  import opened Banks

  datatype Sched = Sched(
    states: Bank,
    events: Bank,
    priority: map<Task, nat>,
    // The values of the state list items and of the event list items.
    value: map<Task, nat>,
    eventValue: map<Task, nat>,
    current: Task,
    topReady: nat,
    tickCount: Tick,
    nextUnblock: Tick,
    /** `pxDelayedTaskList` points at the second of the two delayed lists. */
    second: bool,
    overflows: nat,
    depth: nat,
    pended: nat,
    yieldPending: bool,
    numberOfTasks: nat,
    deletedWaiting: nat,
    time: nat,
    wake: map<Task, nat>)

  function ValueOf(value: map<Task, nat>, t: Task): nat {
    if t in value then value[t] else 0
  }

  function Values(items: seq<Task>, value: map<Task, nat>): (r: seq<nat>)
    ensures |r| == |items|
  {
    seq(|items|, i requires 0 <= i < |items| => ValueOf(value, items[i]))
  }

  function DelayedNow(s: Sched): seq<Task> {
    Items(s.states, Delayed(s.second))
  }

  function DelayedLater(s: Sched): seq<Task> {
    Items(s.states, Delayed(!s.second))
  }

  // ---------- what holds between steps ----------

  /** Every live task's state item is on one list; its event item is on one at most. */
  ghost predicate Placed(s: Sched) {
    && Valid(s.states) && Valid(s.events)
    && s.states.container.Keys == s.priority.Keys
    && s.value.Keys == s.priority.Keys && s.eventValue.Keys == s.priority.Keys && s.wake.Keys == s.priority.Keys
    && s.events.container.Keys <= s.priority.Keys
    && s.current in s.priority
  }

  /** A ready task is on the list of its own priority, and no list above `uxTopReadyPriority` has a task. */
  ghost predicate ReadyInv(s: Sched) {
    && s.topReady < MAX_PRIORITIES
    && (forall t :: t in s.priority ==> s.priority[t] < MAX_PRIORITIES)
    && (forall t :: t in s.states.container && t in s.priority && s.states.container[t].Ready? ==>
                      s.states.container[t].priority == s.priority[t] <= s.topReady)
  }

  /** Who waits for an event, or was woken by one while the scheduler was suspended, is blocked. */
  ghost predicate EventInv(s: Sched) {
    forall t :: t in s.events.container && t in s.states.container ==>
                  && (s.states.container[t].Delayed? || s.states.container[t].Suspended?)
                  && (s.events.container[t].Event? || s.events.container[t].PendingReady?)
  }

  predicate StateListsOnly(s: Sched, t: Task)
    requires t in s.states.container
  {
    !s.states.container[t].Event? && !s.states.container[t].PendingReady?
  }

  ghost predicate CountInv(s: Sched) {
    && s.numberOfTasks == |s.priority|
    && s.deletedWaiting == |Items(s.states, Termination)|
    && (forall t :: t in s.states.container ==> StateListsOnly(s, t))
  }

  predicate DueNow(s: Sched, t: Task, low: int) {
    && t in s.wake && t in s.value
    && low <= s.wake[t] && Epoch(s.wake[t]) == Epoch(s.time) && s.value[t] == Wrap(s.wake[t])
  }

  predicate DueLater(s: Sched, t: Task) {
    && t in s.wake && t in s.value
    && Epoch(s.wake[t]) == Epoch(s.time) + 1 && s.value[t] == Wrap(s.wake[t])
  }

  /** The current delayed list has the tasks due in this epoch of the tick count, none before `low`; the
      overflow list has those of the next epoch. */
  ghost predicate OnTime(s: Sched, low: int) {
    && (forall t :: t in s.states.container && s.states.container[t] == Delayed(s.second) ==> DueNow(s, t, low))
    && (forall t :: t in s.states.container && s.states.container[t] == Delayed(!s.second) ==> DueLater(s, t))
  }

  /** The tick count is the stored form of the time, and both delayed lists are on time and in order. */
  ghost predicate Timed(s: Sched, low: int) {
    && s.tickCount == Wrap(s.time) && s.overflows == Epoch(s.time)
    && OnTime(s, low)
    && Sorted(Values(DelayedNow(s), s.value)) && Sorted(Values(DelayedLater(s), s.value))
  }

  /** `xNextTaskUnblockTime` is not later than the first task of the current list. */
  ghost predicate HeadBound(s: Sched) {
    DelayedNow(s) != [] ==> s.nextUnblock <= ValueOf(s.value, DelayedNow(s)[0])
  }

  /** Nothing that is due now is left on the current list when the tick count is about to wrap. */
  ghost predicate NothingDueAtWrap(s: Sched) {
    s.tickCount == PORT_MAX_DELAY ==>
      forall t :: t in s.states.container && s.states.container[t] == Delayed(s.second) && t in s.wake ==>
                    s.wake[t] > s.time
  }

  ghost predicate Lists(s: Sched) {
    Placed(s) && ReadyInv(s) && EventInv(s) && CountInv(s)
  }

  ghost predicate Core(s: Sched) {
    Lists(s) && Timed(s, s.time) && HeadBound(s) && NothingDueAtWrap(s) && s.tickCount <= s.nextUnblock
  }

  /** While the scheduler runs nothing is held over. */
  ghost predicate Settled(s: Sched) {
    s.depth == 0 ==> s.pended == 0 && Items(s.events, PendingReady) == []
  }

  ghost predicate Inv(s: Sched) {
    Core(s) && Settled(s)
  }

  // ---------- moving one task ----------

  function RecordReady(top: nat, p: nat): nat {
    if p > top then p else top
  }

  /** `uxListRemove` and `prvAddTaskToReadyList`. */
  function MoveToReady(s: Sched, t: Task): Sched
    requires Placed(s) && t in s.priority
  {
    s.(states := Move(s.states, Ready(s.priority[t]), t), topReady := RecordReady(s.topReady, s.priority[t]))
  }

  function LeaveEvent(s: Sched, t: Task): Sched
    requires Placed(s)
  {
    s.(events := RemoveIfThere(s.events, t))
  }

  function Unblock(s: Sched, t: Task): Sched
    requires Placed(s) && t in s.priority
  {
    LeaveEventKeeps(s, t);
    MoveToReady(LeaveEvent(s, t), t)
  }

  lemma LeaveEventKeeps(s: Sched, t: Task)
    requires Placed(s)
    ensures Placed(LeaveEvent(s, t))
    ensures LeaveEvent(s, t).events.container == s.events.container - {t}
    ensures EventInv(s) ==> EventInv(LeaveEvent(s, t))
    ensures Items(s.events, PendingReady) == [] ==> Items(LeaveEvent(s, t).events, PendingReady) == []
  {
    RemoveIfThereKeeps(s.events, t);
    if t in s.events.container {
      RemoveKeeps(s.events, t);
    }
    EmptyList(s.events, PendingReady);
    EmptyList(LeaveEvent(s, t).events, PendingReady);
  }

  // ---------- time on the delayed lists ----------

  lemma ValuesRemove(items: seq<Task>, k: nat, value: map<Task, nat>)
    requires k < |items| && Sorted(Values(items, value))
    ensures Sorted(Values(RemoveAt(items, k), value))
    ensures |items| > 1 ==> Values(RemoveAt(items, k), value)[0] >= Values(items, value)[0]
  {
    var r := RemoveAt(items, k);
    forall i | 0 <= i < |r|
      ensures Values(r, value)[i] == Values(items, value)[if i < k then i else i + 1]
    {
    }
  }

  lemma ValuesInsert(items: seq<Task>, k: nat, t: Task, value: map<Task, nat>)
    requires k <= |items|
    ensures Values(InsertAt(items, k, t), value) == InsertAt(Values(items, value), k, ValueOf(value, t))
  {
  }

  lemma ValuesElsewhere(items: seq<Task>, value: map<Task, nat>, other: map<Task, nat>)
    requires forall t :: t in items ==> ValueOf(value, t) == ValueOf(other, t)
    ensures Values(items, value) == Values(items, other)
  {
    forall i | 0 <= i < |items|
      ensures Values(items, value)[i] == Values(items, other)[i]
    {
      assert items[i] in items;
    }
  }

  /** A task that goes to a list that is not a delayed one takes nothing from the order of those. */
  lemma DelayedOrder(s: Sched, l: ListId, t: Task, second: bool)
    requires Placed(s) && t in s.priority && !l.Delayed? && Sorted(Values(Items(s.states, Delayed(second)), s.value))
    ensures var before, after := Items(s.states, Delayed(second)), Items(Move(s.states, l, t), Delayed(second));
            && Sorted(Values(after, s.value))
            && (after != [] ==> before != [] && ValueOf(s.value, before[0]) <= ValueOf(s.value, after[0]))
  {
    var before, after := Items(s.states, Delayed(second)), Items(Move(s.states, l, t), Delayed(second));
    MoveKeeps(s.states, l, t);
    if s.states.container[t] == Delayed(second) {
      var k := IndexOf(before, t);
      ValuesRemove(before, k, s.value);
      if after != [] {
        assert Values(after, s.value)[0] >= Values(before, s.value)[0];
      }
    } else {
      assert after == before;
    }
  }

  lemma MoveKeepsTimed(s: Sched, l: ListId, t: Task, low: int)
    requires Placed(s) && t in s.priority && !l.Delayed? && Timed(s, low)
    ensures var r := s.(states := Move(s.states, l, t));
            && Timed(r, low)
            && (HeadBound(s) ==> HeadBound(r))
            && (NothingDueAtWrap(s) ==> NothingDueAtWrap(r))
  {
    hide Timed, HeadBound, NothingDueAtWrap, Sorted, Values, Items, Move, Valid;
    MoveKeepsOrder(s, l, t, low);
    if HeadBound(s) {
      TimedOrder(s, low);
      MoveKeepsHead(s, l, t);
    }
    if NothingDueAtWrap(s) {
      MoveKeepsWrap(s, l, t);
    }
  }

  lemma TimedOrder(s: Sched, low: int)
    requires Timed(s, low)
    ensures Sorted(Values(DelayedNow(s), s.value)) && Sorted(Values(DelayedLater(s), s.value))
  {
  }

  lemma MoveKeepsOrder(s: Sched, l: ListId, t: Task, low: int)
    requires Placed(s) && t in s.priority && !l.Delayed? && Timed(s, low)
    ensures Timed(s.(states := Move(s.states, l, t)), low)
  {
    hide Sorted, Values, Items, Move, Valid, OnTime, Wrap, Epoch;
    MoveKeeps(s.states, l, t);
    DelayedOrder(s, l, t, s.second);
    DelayedOrder(s, l, t, !s.second);
    MovedOnTime(s, s.(states := Move(s.states, l, t)), l, t, low);
  }

  lemma MovedOnTime(s: Sched, r: Sched, l: ListId, t: Task, low: int)
    requires OnTime(s, low) && r == s.(states := r.states) && r.states.container == s.states.container[t := l]
             && !l.Delayed?
    ensures OnTime(r, low)
  {
    hide Wrap, Epoch;
  }

  lemma MoveKeepsHead(s: Sched, l: ListId, t: Task)
    requires Placed(s) && t in s.priority && !l.Delayed? && Sorted(Values(DelayedNow(s), s.value)) && HeadBound(s)
    ensures HeadBound(s.(states := Move(s.states, l, t)))
  {
    hide Sorted, Values, Items, Move, Valid;
    DelayedOrder(s, l, t, s.second);
  }

  lemma MoveKeepsWrap(s: Sched, l: ListId, t: Task)
    requires Placed(s) && t in s.priority && !l.Delayed? && NothingDueAtWrap(s)
    ensures NothingDueAtWrap(s.(states := Move(s.states, l, t)))
  {
    hide Items, Move, Valid;
    MoveKeeps(s.states, l, t);
  }

  /** A task that waits for no event becomes ready. */
  lemma MoveToReadyKeeps(s: Sched, t: Task)
    requires Lists(s) && t in s.priority && t !in s.events.container && s.states.container[t] != Termination
    ensures Lists(MoveToReady(s, t))
    ensures MoveToReady(s, t).states.container == s.states.container[t := Ready(s.priority[t])]
  {
    hide Valid, Items, Move, ReadyInv, EventInv, CountInv;
    MoveKeeps(s.states, Ready(s.priority[t]), t);
    MovedToReady(s, t);
    MovedCounts(s, t);
  }

  lemma MovedToReady(s: Sched, t: Task)
    requires Placed(s) && ReadyInv(s) && EventInv(s) && t in s.priority && t !in s.events.container
    ensures ReadyInv(MoveToReady(s, t)) && EventInv(MoveToReady(s, t))
  {
    hide Valid, Items, Move;
    MoveKeeps(s.states, Ready(s.priority[t]), t);
  }

  lemma MovedCounts(s: Sched, t: Task)
    requires Placed(s) && CountInv(s) && t in s.priority && s.states.container[t] != Termination
    ensures CountInv(MoveToReady(s, t))
  {
    hide Valid, Items, Move;
    MoveKeeps(s.states, Ready(s.priority[t]), t);
    MoveElsewhere(s.states, Ready(s.priority[t]), t, Termination);
  }

  lemma MoveElsewhere(b: Bank, l: ListId, t: Task, other: ListId)
    requires Valid(b) && t in b.container && other != l && other != b.container[t]
    ensures Items(Move(b, l, t), other) == Items(b, other)
  {
    MoveKeeps(b, l, t);
  }

  /** A blocked task becomes ready, and waits for no event any more. */
  lemma UnblockKeeps(s: Sched, t: Task)
    requires Lists(s) && t in s.priority && s.states.container[t] != Termination
    ensures Lists(Unblock(s, t))
    ensures Unblock(s, t).states.container == s.states.container[t := Ready(s.priority[t])]
    ensures Unblock(s, t).events.container == s.events.container - {t}
  {
    LeaveEventKeeps(s, t);
    MoveToReadyKeeps(LeaveEvent(s, t), t);
  }

  lemma UnblockKeepsTimed(s: Sched, t: Task, low: int)
    requires Placed(s) && t in s.priority && Timed(s, low)
    ensures Timed(Unblock(s, t), low)
    ensures HeadBound(s) ==> HeadBound(Unblock(s, t))
    ensures NothingDueAtWrap(s) ==> NothingDueAtWrap(Unblock(s, t))
  {
    hide Placed, Move, Timed, HeadBound, NothingDueAtWrap, Items, EventInv;
    LeaveEventKeeps(s, t);
    var e := LeaveEvent(s, t);
    SameTimes(s, e);
    MoveKeepsTimed(e, Ready(s.priority[t]), t, low);
    SameTimes(e.(states := Move(e.states, Ready(s.priority[t]), t)), Unblock(s, t));
  }

  lemma EmptyList(b: Bank, l: ListId)
    requires Valid(b)
    ensures Items(b, l) == [] <==> forall t :: t in b.container ==> b.container[t] != l
  {
    if Items(b, l) != [] {
      assert Items(b, l)[0] in Items(b, l);
    }
    forall t | t in b.container && b.container[t] == l
      ensures t in Items(b, l)
    {
    }
  }

  /** What the times depend on. */
  lemma SameTimes(s: Sched, r: Sched)
    requires r.states == s.states && r.value == s.value && r.wake == s.wake && r.second == s.second
    requires r.tickCount == s.tickCount && r.time == s.time && r.overflows == s.overflows
             && r.nextUnblock == s.nextUnblock
    ensures forall low :: Timed(s, low) ==> Timed(r, low)
    ensures HeadBound(s) ==> HeadBound(r)
    ensures NothingDueAtWrap(s) ==> NothingDueAtWrap(r)
  {
    hide Sorted, Values, Items;
  }
}
