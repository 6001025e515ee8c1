/** The tick: which tasks it makes ready, and when the two delayed lists are switched. */
module SchedulerTick {

  import opened Ticks
  import opened ListModel
  import opened KernelConfig
  import opened Banks
  import opened Scheduler

  /** The tasks on a delayed list whose time comes by `time`. */
  ghost function DueBy(s: Sched, time: int): set<Task> {
    set t | t in s.states.container && t in s.wake && s.states.container[t].Delayed? && s.wake[t] <= time
  }

  /** Those of them that the current list has. */
  ghost function DueOnCurrent(s: Sched): set<Task> {
    set t | t in s.states.container && t in s.wake && s.states.container[t] == Delayed(s.second) && s.wake[t] <= s.time
  }

  /** Where the state items are after the tasks in `w` were made ready. */
  ghost function Readied(s: Sched, w: set<Task>): map<Task, ListId> {
    map t | t in s.states.container ::
      if t in w && t in s.priority then Ready(s.priority[t]) else s.states.container[t]
  }

  /** Nothing but the lists, the highest ready priority and the next unblock time is different. */
  predicate OnlyListsDiffer(s: Sched, r: Sched) {
    r == s.(states := r.states, events := r.events, topReady := r.topReady, nextUnblock := r.nextUnblock)
  }

  lemma HeadOfDelayed(s: Sched)
    requires Placed(s) && DelayedNow(s) != []
    ensures DelayedNow(s)[0] in s.priority && s.states.container[DelayedNow(s)[0]] == Delayed(s.second)
  {
    assert DelayedNow(s)[0] in Items(s.states, Delayed(s.second));
  }

  lemma UnblockShrinks(s: Sched)
    requires Placed(s) && DelayedNow(s) != []
    ensures DelayedNow(s)[0] in s.priority
    ensures var r := Unblock(s, DelayedNow(s)[0]);
            Placed(r) && |DelayedNow(r)| < |DelayedNow(s)| && OnlyListsDiffer(s, r)
  {
    HeadOfDelayed(s);
    var h := DelayedNow(s)[0];
    LeaveEventKeeps(s, h);
    MoveKeeps(s.states, Ready(s.priority[h]), h);
  }

  /** The loop of `xTaskIncrementTick`. */
  function WakeDue(s: Sched): Sched
    requires Placed(s)
    decreases |DelayedNow(s)|
  {
    if DelayedNow(s) == [] then s.(nextUnblock := PORT_MAX_DELAY)
    else
      var h := DelayedNow(s)[0];
      if s.tickCount < ValueOf(s.value, h) then s.(nextUnblock := ValueOf(s.value, h) % TICK_MOD)
      else UnblockShrinks(s); WakeDue(Unblock(s, h))
  }

  /** A task whose time is stored in this epoch is due exactly when the stored time has come. */
  lemma DueByValue(s: Sched, t: Task, low: int)
    requires DueNow(s, t, low) && s.tickCount == Wrap(s.time)
    ensures s.value[t] <= s.tickCount <==> s.wake[t] <= s.time
    ensures s.value[t] < TICK_MOD
  {
    EpochOrder(s.wake[t], s.time);
  }

  /** When the head is not due, nothing on the list is. */
  lemma HeadDecides(s: Sched, low: int)
    requires Placed(s) && Timed(s, low)
    requires DelayedNow(s) == [] || s.tickCount < ValueOf(s.value, DelayedNow(s)[0])
    ensures DueOnCurrent(s) == {}
    ensures Timed(s, s.time + 1)
  {
    var items := DelayedNow(s);
    forall t | t in s.states.container && s.states.container[t] == Delayed(s.second)
      ensures DueNow(s, t, s.time + 1)
    {
      assert t in Items(s.states, Delayed(s.second));
      var i :| 0 <= i < |items| && items[i] == t;
      var v := Values(items, s.value);
      assert v[0] <= v[i];
      DueByValue(s, t, low);
    }
  }

  /** The clock alone does not touch the lists. */
  lemma ClockOnly(s: Sched, r: Sched)
    requires Lists(s)
    requires r == s.(tickCount := r.tickCount, time := r.time, second := r.second, overflows := r.overflows,
                     nextUnblock := r.nextUnblock)
    ensures Lists(r)
  {
  }

  /** One turn of the loop. */
  lemma WakeOne(s: Sched, low: int)
    requires Lists(s) && Timed(s, low)
    requires DelayedNow(s) != [] && s.tickCount >= ValueOf(s.value, DelayedNow(s)[0])
    ensures var h := DelayedNow(s)[0];
            && h in s.priority && h in s.states.container && h in DueOnCurrent(s)
            && Lists(Unblock(s, h)) && Timed(Unblock(s, h), low) && OnlyListsDiffer(s, Unblock(s, h))
            && |DelayedNow(Unblock(s, h))| < |DelayedNow(s)|
            && Unblock(s, h).states.container == s.states.container[h := Ready(s.priority[h])]
            && Unblock(s, h).events.container == s.events.container - {h}
  {
    hide Unblock, Sorted, Values;
    var h := DelayedNow(s)[0];
    HeadOfDelayed(s);
    DueByValue(s, h, low);
    UnblockShrinks(s);
    UnblockKeeps(s, h);
    UnblockKeepsTimed(s, h, low);
  }

  lemma SetNextUnblock(s: Sched, n: Tick, low: int)
    requires Timed(s, low)
    ensures Timed(s.(nextUnblock := n), low)
  {
  }

  lemma HeadIsBound(s: Sched, low: int)
    requires Placed(s) && Timed(s, low)
    ensures DelayedNow(s) != [] ==> ValueOf(s.value, DelayedNow(s)[0]) < TICK_MOD
  {
    if DelayedNow(s) != [] {
      HeadOfDelayed(s);
      DueByValue(s, DelayedNow(s)[0], low);
    }
  }

  lemma EndOfLoop(s: Sched, low: int)
    requires Lists(s) && Timed(s, low)
    requires DelayedNow(s) == [] || s.tickCount < ValueOf(s.value, DelayedNow(s)[0])
    ensures var r := WakeDue(s);
            && DueOnCurrent(s) == {}
            && Lists(r) && Timed(r, s.time + 1) && HeadBound(r) && OnlyListsDiffer(s, r) && r.tickCount <= r.nextUnblock
            && r.states == s.states && r.events == s.events
  {
    hide Placed, ReadyInv, EventInv, CountInv, Timed, DueOnCurrent;
    HeadDecides(s, low);
    HeadIsBound(s, low);
    ClockOnly(s, WakeDue(s));
    SetNextUnblock(s, WakeDue(s).nextUnblock, s.time + 1);
  }

  lemma {:induction false} WakeDueLists(s: Sched, low: int)
    requires Lists(s) && Timed(s, low)
    ensures var r := WakeDue(s);
            && Lists(r) && Timed(r, s.time + 1) && HeadBound(r) && OnlyListsDiffer(s, r) && r.tickCount <= r.nextUnblock
    decreases |DelayedNow(s)|
  {
    hide Unblock, Placed, ReadyInv, EventInv, CountInv, Timed, DelayedNow;
    if DelayedNow(s) == [] || s.tickCount < ValueOf(s.value, DelayedNow(s)[0]) {
      EndOfLoop(s, low);
    } else {
      WakeOne(s, low);
      WakeDueLists(Unblock(s, DelayedNow(s)[0]), low);
    }
  }

  /** The loop makes the tasks that are due ready, and takes them off the lists of the events they waited for. */
  lemma {:induction false} WakeDueExact(s: Sched, low: int)
    requires Lists(s) && Timed(s, low)
    ensures WakeDue(s).states.container == Readied(s, DueOnCurrent(s))
    ensures WakeDue(s).events.container == s.events.container - DueOnCurrent(s)
    decreases |DelayedNow(s)|
  {
    hide Unblock, Placed, ReadyInv, EventInv, CountInv, Timed, DelayedNow;
    if DelayedNow(s) == [] || s.tickCount < ValueOf(s.value, DelayedNow(s)[0]) {
      EndOfLoop(s, low);
    } else {
      WakeOne(s, low);
      WakeDueExact(Unblock(s, DelayedNow(s)[0]), low);
      OneMoreReadied(s, Unblock(s, DelayedNow(s)[0]), DelayedNow(s)[0]);
    }
  }

  lemma OneMoreReadied(s: Sched, r: Sched, h: Task)
    requires h in s.priority && h in s.states.container && h in DueOnCurrent(s)
    requires OnlyListsDiffer(s, r)
    requires r.states.container == s.states.container[h := Ready(s.priority[h])]
    requires r.events.container == s.events.container - {h}
    ensures DueOnCurrent(s) == DueOnCurrent(r) + {h}
    ensures Readied(r, DueOnCurrent(r)) == Readied(s, DueOnCurrent(s))
    ensures r.events.container - DueOnCurrent(r) == s.events.container - DueOnCurrent(s)
  {
  }

  // ---------- one tick ----------

  /** `prvResetNextTaskUnblockTime`. */
  function ResetNextUnblock(s: Sched): Sched {
    s.(nextUnblock := if DelayedNow(s) == [] then PORT_MAX_DELAY else ValueOf(s.value, DelayedNow(s)[0]) % TICK_MOD)
  }

  /** `taskSWITCH_DELAYED_LISTS`. */
  function SwitchLists(s: Sched): Sched {
    ResetNextUnblock(s.(second := !s.second, overflows := s.overflows + 1))
  }

  /** The tick count advances, and the lists are switched when it wraps. */
  function AdvanceClock(s: Sched): Sched {
    var a := s.(tickCount := AddTicks(s.tickCount, 1), time := s.time + 1);
    if a.tickCount == 0 then SwitchLists(a) else a
  }

  /** A tick while the scheduler is not suspended. */
  function IncrementTick(s: Sched): Sched
    requires Placed(s)
  {
    var a := AdvanceClock(s);
    if a.tickCount >= a.nextUnblock then WakeDue(a) else a
  }

  lemma ResetLists(s: Sched)
    requires Lists(s)
    ensures Lists(ResetNextUnblock(s))
  {
    ClockOnly(s, ResetNextUnblock(s));
  }

  lemma ResetKeeps(s: Sched, low: int)
    requires Placed(s) && Timed(s, low)
    ensures HeadBound(ResetNextUnblock(s))
    ensures Timed(ResetNextUnblock(s), low)
    ensures NothingDueAtWrap(s) ==> NothingDueAtWrap(ResetNextUnblock(s))
    ensures low >= s.time ==> s.tickCount <= ResetNextUnblock(s).nextUnblock
  {
    hide Sorted, Values, Valid;
    if DelayedNow(s) != [] {
      HeadOfDelayed(s);
      DueByValue(s, DelayedNow(s)[0], low);
      EpochOrder(s.time, s.wake[DelayedNow(s)[0]]);
    }
  }

  /** At the last tick of an epoch the tasks of the current list are due already. */
  lemma DueByLastTick(s: Sched)
    requires Timed(s, s.time) && s.tickCount == PORT_MAX_DELAY
    ensures forall t :: t in s.states.container && s.states.container[t] == Delayed(s.second) ==>
                          t in s.wake && s.wake[t] <= s.time
  {
    hide Sorted, Values;
    forall t | t in s.states.container && s.states.container[t] == Delayed(s.second)
      ensures t in s.wake && s.wake[t] <= s.time
    {
      assert DueNow(s, t, s.time);
      EpochOrder(s.wake[t], s.time);
    }
  }

  /** The current delayed list is empty whenever the tick count wraps. */
  lemma EmptyAtSwitch(s: Sched)
    requires Core(s) && s.tickCount == PORT_MAX_DELAY
    ensures DelayedNow(s) == []
  {
    hide ReadyInv, EventInv, CountInv, Timed, Valid, Items;
    DueByLastTick(s);
    EmptyList(s.states, Delayed(s.second));
  }

  lemma NextTick(time: nat)
    ensures AddTicks(Wrap(time), 1) == Wrap(time + 1)
    ensures Wrap(time + 1) == 0 <==> Wrap(time) == PORT_MAX_DELAY
    ensures Epoch(time + 1) == if Wrap(time) == PORT_MAX_DELAY then Epoch(time) + 1 else Epoch(time)
  {
    WrapSplit(time);
    if Wrap(time) == PORT_MAX_DELAY {
      WrapUnique(time + 1, Epoch(time) + 1, 0);
    } else {
      WrapUnique(time + 1, Epoch(time), Wrap(time) + 1);
    }
  }

  lemma AdvanceWithoutWrap(s: Sched)
    requires Core(s) && s.tickCount != PORT_MAX_DELAY
    ensures var a := AdvanceClock(s);
            && Lists(a) && Timed(a, s.time) && HeadBound(a)
            && a == s.(tickCount := a.tickCount, time := s.time + 1)
  {
    hide Sorted, Values, Lists, Items;
    NextTick(s.time);
    ClockOnly(s, AdvanceClock(s));
  }

  lemma AdvanceWithWrap(s: Sched)
    requires Core(s) && s.tickCount == PORT_MAX_DELAY
    ensures var a := AdvanceClock(s);
            && Lists(a) && Timed(a, s.time) && HeadBound(a) && DelayedLater(a) == []
            && a == s.(tickCount := 0, time := s.time + 1, second := !s.second, overflows := s.overflows + 1,
                       nextUnblock := a.nextUnblock)
  {
    hide Sorted, Values, ReadyInv, EventInv, CountInv, Items, Valid, HeadBound, DueNow, DueLater;
    EmptyAtSwitch(s);
    var a := s.(tickCount := 0, time := s.time + 1, second := !s.second, overflows := s.overflows + 1);
    NextTick(s.time);
    ClockOnly(s, a);
    SwitchedTimed(s, a);
    ResetKeeps(a, s.time);
    ResetLists(a);
  }

  lemma SwitchedTimed(s: Sched, a: Sched)
    requires Placed(s) && Timed(s, s.time) && Wrap(s.time) == PORT_MAX_DELAY && DelayedNow(s) == []
    requires a == s.(tickCount := 0, time := s.time + 1, second := !s.second, overflows := s.overflows + 1)
    ensures Timed(a, s.time)
  {
    hide Sorted, Values;
    NextTick(s.time);
    EmptyList(s.states, Delayed(s.second));
    forall t | t in a.states.container && a.states.container[t] == Delayed(a.second)
      ensures DueNow(a, t, s.time)
    {
      assert DueLater(s, t);
      LaterEpoch(s.time, s.wake[t]);
    }
  }

  /** The tasks due by the new time are all on the list that is current then. */
  lemma DueAfterAdvance(s: Sched)
    requires Core(s)
    ensures DueOnCurrent(AdvanceClock(s)) == DueBy(s, s.time + 1)
  {
    hide Sorted, Values;
    NextTick(s.time);
    var a := AdvanceClock(s);
    if s.tickCount == PORT_MAX_DELAY {
      EmptyAtSwitch(s);
      EmptyList(s.states, Delayed(s.second));
    } else {
      forall t | t in s.states.container && s.states.container[t] == Delayed(!s.second)
        ensures s.wake[t] > s.time + 1
      {
        assert DueLater(s, t);
        LaterEpoch(s.time + 1, s.wake[t]);
      }
    }
  }

  /** A tick makes ready exactly the tasks whose wake time has come, whichever epoch it is in, and leaves
      every other task where it was. */
  lemma TickExact(s: Sched)
    requires Core(s)
    ensures var r := IncrementTick(s);
            && Core(r)
            && r.time == s.time + 1
            && r.states.container == Readied(s, DueBy(s, s.time + 1))
            && r.events.container == s.events.container - DueBy(s, s.time + 1)
            && DueBy(r, r.time) == {}
            && r.priority == s.priority && r.eventValue == s.eventValue && r.current == s.current && r.wake == s.wake
            && r.depth == s.depth && r.pended == s.pended && r.yieldPending == s.yieldPending
  {
    hide Sorted, Values, Lists, Placed, HeadBound, Timed, NothingDueAtWrap, WakeDue, AdvanceClock;
    var a := AdvanceClock(s);
    AdvanceFacts(s);
    DueAfterAdvance(s);
    if a.tickCount >= a.nextUnblock {
      WakeDueLists(a, s.time);
      WakeDueExact(a, s.time);
    } else {
      NotYet(a, s.time);
      assert Readied(s, {}) == s.states.container;
    }
    StrictlyLater(IncrementTick(s));
  }

  lemma AdvanceFacts(s: Sched)
    requires Core(s)
    ensures var a := AdvanceClock(s);
            && Placed(s) && Lists(a) && Timed(a, s.time) && HeadBound(a)
            && a == s.(tickCount := a.tickCount, time := s.time + 1, second := a.second, overflows := a.overflows,
                       nextUnblock := a.nextUnblock)
  {
    if s.tickCount == PORT_MAX_DELAY {
      AdvanceWithWrap(s);
    } else {
      AdvanceWithoutWrap(s);
    }
  }

  /** Before the next unblock time nothing is due. */
  lemma NotYet(a: Sched, low: int)
    requires Placed(a) && Timed(a, low) && HeadBound(a) && a.tickCount < a.nextUnblock
    ensures DueOnCurrent(a) == {} && Timed(a, a.time + 1)
  {
    HeadDecides(a, low);
  }

  lemma StrictlyLater(s: Sched)
    requires Lists(s) && Timed(s, s.time + 1) && HeadBound(s) && s.tickCount <= s.nextUnblock
    ensures Core(s) && DueBy(s, s.time) == {}
  {
    hide Sorted, Values;
    forall t | t in s.states.container && s.states.container[t].Delayed?
      ensures s.wake[t] > s.time
    {
      if s.states.container[t].second == s.second {
        assert DueNow(s, t, s.time + 1);
      } else {
        assert DueLater(s, t);
        LaterEpoch(s.time, s.wake[t]);
      }
    }
  }
}
