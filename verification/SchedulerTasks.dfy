/** Tasks come and go, are suspended and resumed, change their priority and are chosen to run. */
module SchedulerTasks {

  import opened Ticks
  import opened ListModel
  import opened KernelConfig
  import opened Banks
  import opened Scheduler
  import opened SchedulerTick
  import opened SchedulerBlocking

  predicate IsOn(b: Bank, t: Task, l: ListId) {
    t in b.container && b.container[t] == l
  }

  /** A handle of a task that was not deleted. */
  predicate Alive(s: Sched, t: Task) {
    t in s.priority && t in s.states.container && s.states.container[t] != Termination
  }

  lemma ResetCore(s: Sched)
    requires Lists(s) && Timed(s, s.time) && NothingDueAtWrap(s)
    ensures Core(ResetNextUnblock(s))
  {
    ResetKeeps(s, s.time);
    ResetLists(s);
    hide Lists, Timed, HeadBound, NothingDueAtWrap;
  }

  lemma ResetIsHead(s: Sched)
    requires Placed(s) && Timed(s, s.time)
    ensures var r := ResetNextUnblock(s);
            r.nextUnblock == if DelayedNow(r) == [] then PORT_MAX_DELAY else ValueOf(r.value, DelayedNow(r)[0])
  {
    hide Sorted, Values, Valid;
    HeadIsBound(s, s.time);
  }

  // ---------- suspension and resumption of one task ----------

  /** `vTaskSuspend`. */
  function SuspendTask(s: Sched, t: Task): Sched
    requires Placed(s) && t in s.priority
  {
    LeaveEventKeeps(s, t);
    ResetNextUnblock(LeaveEvent(s, t).(states := Move(s.states, Suspended, t)))
  }

  lemma LeaveEventCore(s: Sched, t: Task)
    requires Core(s)
    ensures Core(LeaveEvent(s, t))
    ensures LeaveEvent(s, t).events.container == s.events.container - {t}
    ensures Settled(s) ==> Settled(LeaveEvent(s, t))
  {
    hide Timed, HeadBound, NothingDueAtWrap, Valid, Items, RemoveIfThere;
    LeaveEventKeeps(s, t);
    SameTimes(s, LeaveEvent(s, t));
  }

  lemma SuspendTaskExact(s: Sched, t: Task)
    requires Inv(s) && Alive(s, t)
    ensures var r := SuspendTask(s, t);
            && Inv(r)
            && r.states.container == s.states.container[t := Suspended]
            && r.events.container == s.events.container - {t}
            && r.nextUnblock == (if DelayedNow(r) == [] then PORT_MAX_DELAY else ValueOf(r.value, DelayedNow(r)[0]))
            && r.time == s.time && r.pended == s.pended && r.depth == s.depth && r.wake == s.wake
  {
    LeaveEventCore(s, t);
    BlockForever(LeaveEvent(s, t), t);
    ResetCore(LeaveEvent(s, t).(states := Move(s.states, Suspended, t)));
    ResetIsHead(LeaveEvent(s, t).(states := Move(s.states, Suspended, t)));
    hide Core, LeaveEvent, Move;
  }

  /** `prvTaskIsTaskSuspended`: suspended, not blocked for ever, and not resumed by an interrupt already. */
  predicate IsSuspended(s: Sched, t: Task) {
    IsOn(s.states, t, Suspended) && t !in s.events.container
  }

  /** `vTaskResume`. */
  function ResumeTask(s: Sched, t: Task): Sched
    requires Placed(s)
  {
    if t != s.current && IsSuspended(s, t) then MoveToReady(s, t) else s
  }

  lemma MoveToReadyCore(s: Sched, t: Task)
    requires Core(s) && Alive(s, t) && t !in s.events.container
    ensures Core(MoveToReady(s, t))
    ensures MoveToReady(s, t).states.container == s.states.container[t := Ready(s.priority[t])]
    ensures OnlyListsDiffer(s, MoveToReady(s, t)) && MoveToReady(s, t).events == s.events
  {
    MoveToReadyKeeps(s, t);
    MoveKeepsTimed(s, Ready(s.priority[t]), t, s.time);
    MovedTimes(s, t);
    hide Lists, Timed, HeadBound, NothingDueAtWrap;
  }

  lemma MovedTimes(s: Sched, t: Task)
    requires Placed(s) && t in s.priority
    ensures var m := s.(states := Move(s.states, Ready(s.priority[t]), t));
            && (Timed(m, s.time) ==> Timed(MoveToReady(s, t), s.time))
            && (HeadBound(m) ==> HeadBound(MoveToReady(s, t)))
            && (NothingDueAtWrap(m) ==> NothingDueAtWrap(MoveToReady(s, t)))
  {
    SameTimes(s.(states := Move(s.states, Ready(s.priority[t]), t)), MoveToReady(s, t));
  }

  /** Only a task that was suspended by request is resumed; a task that is blocked stays blocked. */
  lemma ResumeTaskExact(s: Sched, t: Task)
    requires Inv(s) && t in s.priority
    ensures var r := ResumeTask(s, t);
            && Inv(r)
            && r.states.container == (if t != s.current && IsSuspended(s, t)
                                      then s.states.container[t := Ready(s.priority[t])] else s.states.container)
            && r.events == s.events && OnlyListsDiffer(s, r)
  {
    if t != s.current && IsSuspended(s, t) {
      MoveToReadyCore(s, t);
    }
    hide Core, MoveToReady;
  }

  /** `xTaskResumeFromISR`. */
  function ResumeFromISR(s: Sched, t: Task): Sched
    requires Placed(s)
  {
    if !IsSuspended(s, t) then s
    else if s.depth == 0 then
      MoveToReady(s, t).(yieldPending := s.yieldPending || s.priority[t] > s.priority[s.current])
    else s.(events := InsertLast(s.events, PendingReady, t))
  }

  lemma ResumeFromISRExact(s: Sched, t: Task)
    requires Inv(s) && t in s.priority
    ensures var r := ResumeFromISR(s, t);
            && Inv(r)
            && r.states.container == (if IsSuspended(s, t) && s.depth == 0
                                      then s.states.container[t := Ready(s.priority[t])] else s.states.container)
            && r.events.container == (if IsSuspended(s, t) && s.depth > 0
                                      then s.events.container[t := PendingReady] else s.events.container)
            && s.current in s.priority
            && (r.yieldPending <==>
                  s.yieldPending || (IsSuspended(s, t) && s.depth == 0 && s.priority[t] > s.priority[s.current]))
            && r.time == s.time && r.pended == s.pended && r.depth == s.depth && r.wake == s.wake
  {
    if IsSuspended(s, t) {
      if s.depth == 0 {
        MoveToReadyCore(s, t);
        YieldOnly(MoveToReady(s, t), ResumeFromISR(s, t).yieldPending);
      } else {
        PendSuspended(s, t);
      }
    }
    hide Core, MoveToReady, InsertLast;
  }

  lemma PendSuspended(s: Sched, t: Task)
    requires Core(s) && IsSuspended(s, t)
    ensures var r := s.(events := InsertLast(s.events, PendingReady, t));
            Core(r) && r.events.container == s.events.container[t := PendingReady]
  {
    hide Timed, HeadBound, NothingDueAtWrap, Insert, Valid, LastPlace, ReadyInv, CountInv, Items;
    InsertKeeps(s.events, PendingReady, LastPlace(s.events, PendingReady), t);
    InsertedContainer(s.events, PendingReady, LastPlace(s.events, PendingReady), t);
    EventsOnly(s, s.(events := InsertLast(s.events, PendingReady, t)));
  }

  /** The body of `xTaskAbortDelay`: a task that is blocked stops waiting, for the time and for the event. */
  function AbortDelay(s: Sched, t: Task): Sched
    requires Placed(s)
  {
    if IsBlocked(s, t) then
      Unblock(s, t).(yieldPending := s.yieldPending || s.priority[t] > s.priority[s.current])
    else s
  }

  /** `eTaskGetState` says blocked. */
  predicate IsBlocked(s: Sched, t: Task) {
    && t in s.states.container && t != s.current && !IsOn(s.events, t, PendingReady)
    && (s.states.container[t].Delayed? || (s.states.container[t].Suspended? && t in s.events.container))
  }

  lemma AbortDelayExact(s: Sched, t: Task)
    requires Inv(s) && t in s.priority
    ensures var r := AbortDelay(s, t);
            && Inv(r)
            && r.states.container == (if IsBlocked(s, t) then s.states.container[t := Ready(s.priority[t])]
                                      else s.states.container)
            && r.events.container == (if IsBlocked(s, t) then s.events.container - {t} else s.events.container)
            && s.current in s.priority
            && (r.yieldPending <==> s.yieldPending || (IsBlocked(s, t) && s.priority[t] > s.priority[s.current]))
            && r.time == s.time && r.pended == s.pended && r.depth == s.depth && r.wake == s.wake
  {
    if IsBlocked(s, t) {
      UnblockCore(s, t);
      YieldOnly(Unblock(s, t), AbortDelay(s, t).yieldPending);
    }
    hide Core, Unblock;
  }

  // ---------- the task to run ----------

  predicate SomeReady(s: Sched) {
    exists t :: t in s.states.container && s.states.container[t].Ready?
  }

  /** The search of `taskSELECT_HIGHEST_PRIORITY_TASK`. */
  function HighestReady(s: Sched, top: nat): (p: nat)
    requires exists q :: 0 <= q <= top && Items(s.states, Ready(q)) != []
    ensures p <= top && Items(s.states, Ready(p)) != []
    ensures forall q :: p < q <= top ==> Items(s.states, Ready(q)) == []
  {
    if Items(s.states, Ready(top)) != [] then top else HighestReady(s, top - 1)
  }

  lemma SomeListReady(s: Sched)
    requires Lists(s) && SomeReady(s)
    ensures exists q :: 0 <= q <= s.topReady && Items(s.states, Ready(q)) != []
  {
    var t :| t in s.states.container && s.states.container[t].Ready?;
    assert t in Items(s.states, Ready(s.states.container[t].priority));
  }

  function Select(s: Sched): Sched
    requires Lists(s) && SomeReady(s)
  {
    SomeListReady(s);
    var p := HighestReady(s, s.topReady);
    var l := Advance(At(s.states, Ready(p)));
    assert At(s.states, Ready(p)).Valid();
    s.(states := Bank(s.states.lists[Ready(p) := l], s.states.container), current := EntryAt(l), topReady := p)
  }

  /** `vTaskSwitchContext`. */
  function SwitchContext(s: Sched): Sched
    requires Lists(s) && SomeReady(s)
  {
    if s.depth > 0 then s.(yieldPending := true)
    else Select(s).(yieldPending := false)
  }

  /** The task chosen is ready, no ready task has a higher priority, and the lists hold what they held. */
  lemma SelectExact(s: Sched)
    requires Inv(s) && SomeReady(s)
    ensures var r := Select(s);
            && Inv(r)
            && r.states.container == s.states.container && r.events == s.events
            && r.current in s.priority && s.states.container[r.current] == Ready(s.priority[r.current])
            && (forall t :: t in s.states.container && s.states.container[t].Ready? ==>
                              s.priority[t] <= s.priority[r.current])
            && r == s.(states := r.states, current := r.current, topReady := r.topReady)
  {
    hide Placed, EventInv, CountInv, Timed, HeadBound, NothingDueAtWrap, Items, Valid;
    var r := Select(s);
    SelectStates(s);
    SelectHighest(s);
    hide Select;
    RotatedTimes(s, r);
    RotatedLists(s, r);
  }

  /** The search starts high enough to find the highest ready task, and the list found is its own. */
  lemma SelectHighest(s: Sched)
    requires Lists(s) && SomeReady(s)
    ensures var r := Select(s);
            && r == s.(states := r.states, current := r.current, topReady := r.topReady)
            && r.topReady < MAX_PRIORITIES
            && r.current in s.priority && r.current in s.states.container
            && s.states.container[r.current] == Ready(s.priority[r.current]) == Ready(r.topReady)
            && (forall t :: t in s.states.container && s.states.container[t].Ready? ==>
                              t in s.priority && s.priority[t] <= r.topReady)
  {
    SomeListReady(s);
    SelectStates(s);
    NoneHigher(s);
    hide HighestReady, EventInv, CountInv, Valid;
    assert Select(s).current in Items(s.states, Ready(Select(s).topReady));
    OnItsList(s, Select(s).current, Ready(Select(s).topReady));
  }

  lemma OnItsList(s: Sched, t: Task, l: ListId)
    requires Placed(s) && t in Items(s.states, l)
    ensures t in s.priority && t in s.states.container && s.states.container[t] == l
  {
  }

  lemma NoneHigher(s: Sched)
    requires Lists(s) && SomeReady(s)
    ensures exists q :: 0 <= q <= s.topReady && Items(s.states, Ready(q)) != []
    ensures forall t :: t in s.states.container && s.states.container[t].Ready? ==>
                          t in s.priority && s.priority[t] <= HighestReady(s, s.topReady)
  {
    SomeListReady(s);
    forall t | t in s.states.container && s.states.container[t].Ready?
      ensures t in s.priority && s.priority[t] <= HighestReady(s, s.topReady)
    {
      assert t in Items(s.states, Ready(s.priority[t]));
    }
  }

  lemma RotatedLists(s: Sched, r: Sched)
    requires Lists(s) && r == s.(states := r.states, current := r.current, topReady := r.topReady)
    requires Valid(r.states) && r.states.container == s.states.container
    requires Items(r.states, Termination) == Items(s.states, Termination)
    requires r.current in s.priority && r.topReady < MAX_PRIORITIES
    requires forall t :: t in s.states.container && s.states.container[t].Ready? ==> s.priority[t] <= r.topReady
    ensures Lists(r)
  {
    hide Valid, Items;
  }

  /** The list is a ring: only where it stands changes. */
  lemma SelectStates(s: Sched)
    requires Lists(s) && SomeReady(s)
    ensures var r := Select(s);
            && Valid(r.states) && r.states.container == s.states.container
            && (forall l :: Items(r.states, l) == Items(s.states, l))
            && r.current in Items(s.states, Ready(r.topReady))
  {
    SomeListReady(s);
    var p := HighestReady(s, s.topReady);
    AdvanceKeeps(s.states, Ready(p));
    hide Valid;
  }

  /** A next-entry call only moves the list's index. */
  lemma AdvanceKeeps(b: Bank, l: ListId)
    requires Valid(b) && Items(b, l) != []
    ensures var r := Bank(b.lists[l := Advance(At(b, l))], b.container);
            && Valid(r) && (forall l' :: Items(r, l') == Items(b, l'))
    ensures var a := Advance(At(b, l)); 0 < a.index <= |a.items| && EntryAt(a) in Items(b, l)
  {
    assert At(b, l).Valid();
    var a := Advance(At(b, l));
    forall t
      ensures t in a.items <==> t in b.container && b.container[t] == l
    {
      assert t in Items(b, l) <==> t in b.container && b.container[t] == l;
    }
    hide NoDuplicates;
    ReplaceKeeps(b, l, a, b.container);
  }

  lemma RotatedTimes(s: Sched, r: Sched)
    requires r == s.(states := r.states, current := r.current, topReady := r.topReady)
    requires r.states.container == s.states.container
    requires forall l :: Items(r.states, l) == Items(s.states, l)
    ensures Timed(s, s.time) ==> Timed(r, s.time)
    ensures HeadBound(s) ==> HeadBound(r)
    ensures NothingDueAtWrap(s) ==> NothingDueAtWrap(r)
  {
    hide Sorted, Values, Items;
  }

  // ---------- sharing the processor ----------

  /** The choice is made `n` times with the lists unchanged in between, as at successive ticks. */
  ghost function SelectMany(s: Sched, n: nat): (r: Sched)
    requires Inv(s) && SomeReady(s)
    ensures Inv(r) && r.states.container == s.states.container && SomeReady(r)
    decreases n
  {
    if n == 0 then s
    else
      var r := SelectMany(s, n - 1);
      SelectExact(r);
      Select(r)
  }

  /** A choice only moves the index of the list of the highest ready priority, which stays the highest. */
  lemma SelectAdvances(s: Sched, p: nat)
    requires Inv(s) && SomeReady(s) && p <= s.topReady && Items(s.states, Ready(p)) != []
    requires forall q: nat :: p < q ==> Items(s.states, Ready(q)) == []
    ensures var r, l := Select(s), Advance(At(s.states, Ready(p)));
            && At(r.states, Ready(p)) == l && 0 < l.index <= |l.items| && r.current == EntryAt(l)
            && r.topReady == p && (forall q: nat :: p < q ==> Items(r.states, Ready(q)) == [])
  {
    SomeListReady(s);
    HighestIs(s, s.topReady, p);
    AdvanceKeeps(s.states, Ready(p));
    SelectStates(s);
  }

  lemma {:induction false} HighestIs(s: Sched, top: nat, p: nat)
    requires p <= top && Items(s.states, Ready(p)) != []
    requires forall q: nat :: p < q ==> Items(s.states, Ready(q)) == []
    ensures exists q :: 0 <= q <= top && Items(s.states, Ready(q)) != []
    ensures HighestReady(s, top) == p
  {
    if top != p {
      assert Items(s.states, Ready(top)) == [];
      HighestIs(s, top - 1, p);
    }
  }

  lemma {:induction false} SelectManyAdvances(s: Sched, p: nat, n: nat)
    requires Inv(s) && SomeReady(s) && p <= s.topReady && Items(s.states, Ready(p)) != []
    requires forall q: nat :: p < q ==> Items(s.states, Ready(q)) == []
    ensures var r := SelectMany(s, n);
            && At(r.states, Ready(p)) == AdvanceMany(At(s.states, Ready(p)), n)
            && p <= r.topReady && (forall q: nat :: p < q ==> Items(r.states, Ready(q)) == [])
            && (n > 0 ==> 0 < At(r.states, Ready(p)).index <= |Items(s.states, Ready(p))|
                          && r.current == EntryAt(At(r.states, Ready(p))))
  {
    hide Inv, Select, SomeReady;
    if n > 0 {
      SelectManyAdvances(s, p, n - 1);
      SelectAdvances(SelectMany(s, n - 1), p);
    }
  }

  /** After `n` choices from a list, within one round: the task chosen is the n-th in turn, every task has one
      turn, and a whole round leaves the order of turns as it was. */
  ghost predicate InTurn(l: ListState<Task>, n: nat, chosen: Task, after: ListState<Task>) {
    && l.Valid() && after.Valid() && 0 < n <= |l.items|
    && chosen == l.VisitOrder()[n - 1]
    && NoDuplicates(l.VisitOrder()) && multiset(l.VisitOrder()) == multiset(l.items)
    && (n == |l.items| ==> after.VisitOrder() == l.VisitOrder())
  }

  lemma RoundInTurn(l: ListState<Task>, n: nat)
    requires l.Valid() && 0 < n <= |l.items|
    ensures var r := AdvanceMany(l, n);
            0 < r.index <= |r.items| && InTurn(l, n, EntryAt(r), r)
  {
    RoundVisitsEachOnce(l, n);
    AdvanceManyIndex(l, n);
  }

  /** Tasks of the highest ready priority get an equal share: in one round of choices each of them is chosen
      exactly once, and the next round has the same order. */
  lemma EqualShares(s: Sched, p: nat, n: nat)
    requires Inv(s) && SomeReady(s) && p <= s.topReady && 0 < n <= |Items(s.states, Ready(p))|
    requires forall q: nat :: p < q ==> Items(s.states, Ready(q)) == []
    ensures InTurn(At(s.states, Ready(p)), n, SelectMany(s, n).current, At(SelectMany(s, n).states, Ready(p)))
  {
    hide Timed, ReadyInv, EventInv, CountInv, HeadBound, NothingDueAtWrap, NoDuplicates, InTurn;
    OneList(s.states, Ready(p));
    SelectManyAdvances(s, p, n);
    RoundInTurn(At(s.states, Ready(p)), n);
  }

  /** A task that becomes ready goes behind all that are ready with its priority: of these only the one whose turn it is
      comes after it. */
  lemma ReadiedGoesLast(s: Sched, t: Task)
    requires Core(s) && t in s.priority && !s.states.container[t].Ready?
    ensures var l, r := At(s.states, Ready(s.priority[t])), At(Unblock(s, t).states, Ready(s.priority[t]));
            var order := l.VisitOrder();
            r.VisitOrder() == if l.index == 0 then order + [t] else InsertAt(order, |order| - 1, t)
  {
    hide ReadyInv, EventInv, CountInv, Timed, HeadBound, NothingDueAtWrap, Valid, Move, InsertAt;
    MoveVisitedLast(s.states, Ready(s.priority[t]), t);
  }

  lemma SwitchContextKeeps(s: Sched)
    requires Inv(s) && SomeReady(s)
    ensures Inv(SwitchContext(s))
    ensures SwitchContext(s).states.container == s.states.container && SwitchContext(s).events == s.events
    ensures SwitchContext(s) == s.(states := SwitchContext(s).states, current := SwitchContext(s).current,
                                   topReady := SwitchContext(s).topReady, yieldPending := s.depth > 0)
  {
    hide Placed, ReadyInv, EventInv, CountInv, Timed, HeadBound, NothingDueAtWrap, Select, Items;
    if s.depth > 0 {
      YieldOnly(s, true);
    } else {
      SelectExact(s);
      YieldOnly(Select(s), false);
    }
  }

  // ---------- priorities ----------

  /** How `vTaskPrioritySet` and the functions of priority inheritance give a task the priority `p`: the event
      item value becomes `itemValue` unless it is in use, and a ready task changes its list. */
  function ChangePriority(s: Sched, t: Task, p: nat, itemValue: nat): Sched
    requires Placed(s) && t in s.priority
  {
    var r := s.(priority := s.priority[t := p],
                eventValue := if s.eventValue[t] < ITEM_VALUE_IN_USE then s.eventValue[t := itemValue]
                              else s.eventValue);
    if IsOn(s.states, t, Ready(s.priority[t])) then
      r.(states := Move(s.states, Ready(p), t), topReady := RecordReady(s.topReady, p))
    else r
  }

  lemma ChangedLists(s: Sched, t: Task, p: nat, itemValue: nat)
    requires Lists(s) && t in s.priority && p < MAX_PRIORITIES
    ensures var r := ChangePriority(s, t, p, itemValue);
            && Lists(r)
            && r.states.container == if s.states.container[t].Ready? then s.states.container[t := Ready(p)]
                 else s.states.container
  {
    hide Valid, Items, Move, EventInv, CountInv, ReadyInv;
    ReadyByPriority(s, t);
    ChangedStates(s, t, p);
    ChangedPlaced(s, t, p, itemValue);
    ChangedReady(s, t, p, itemValue);
    ChangedCounts(s, t, p, itemValue);
  }

  lemma ReadyByPriority(s: Sched, t: Task)
    requires ReadyInv(s) && t in s.priority && t in s.states.container
    ensures s.states.container[t].Ready? <==> s.states.container[t] == Ready(s.priority[t])
  {
  }

  lemma ChangedStates(s: Sched, t: Task, p: nat)
    requires Placed(s) && t in s.priority && CountInv(s)
    ensures var b := Move(s.states, Ready(p), t);
            && Valid(b) && b.container == s.states.container[t := Ready(p)]
            && (s.states.container[t] != Termination ==> Items(b, Termination) == Items(s.states, Termination))
  {
    hide Valid, Items, Move;
    MoveKeeps(s.states, Ready(p), t);
    if s.states.container[t] != Termination {
      MoveElsewhere(s.states, Ready(p), t, Termination);
    }
  }

  lemma ChangedPlaced(s: Sched, t: Task, p: nat, itemValue: nat)
    requires Lists(s) && t in s.priority
    ensures Placed(ChangePriority(s, t, p, itemValue))
  {
    hide Valid, Items, Move, ReadyInv, EventInv;
    ChangedStates(s, t, p);
  }

  lemma ChangedReady(s: Sched, t: Task, p: nat, itemValue: nat)
    requires Lists(s) && t in s.priority && p < MAX_PRIORITIES
    ensures ReadyInv(ChangePriority(s, t, p, itemValue))
  {
    hide Valid, Items, Move, EventInv;
    ChangedStates(s, t, p);
  }

  lemma ChangedCounts(s: Sched, t: Task, p: nat, itemValue: nat)
    requires Lists(s) && t in s.priority
    ensures CountInv(ChangePriority(s, t, p, itemValue)) && EventInv(ChangePriority(s, t, p, itemValue))
  {
    hide Valid, Items, Move, ReadyInv;
    ChangedStates(s, t, p);
    assert s.priority[t := p].Keys == s.priority.Keys;
  }

  /** A ready task is on the list of its new priority; a blocked task stays where it is. */
  lemma ChangePriorityExact(s: Sched, t: Task, p: nat, itemValue: nat)
    requires Inv(s) && t in s.priority && p < MAX_PRIORITIES
    ensures var r := ChangePriority(s, t, p, itemValue);
            && Inv(r)
            && r.priority == s.priority[t := p]
            && r.states.container == (if s.states.container[t].Ready? then s.states.container[t := Ready(p)]
                                      else s.states.container)
            && t in s.eventValue
            && r.eventValue == (if s.eventValue[t] >= ITEM_VALUE_IN_USE then s.eventValue
                                else s.eventValue[t := itemValue])
            && r == s.(states := r.states, priority := r.priority, eventValue := r.eventValue, topReady := r.topReady)
  {
    hide ReadyInv, EventInv, CountInv, Timed, HeadBound, NothingDueAtWrap, Move, Valid;
    ChangedLists(s, t, p, itemValue);
    var r := ChangePriority(s, t, p, itemValue);
    if IsOn(s.states, t, Ready(s.priority[t])) {
      MoveKeepsTimed(s, Ready(p), t, s.time);
    }
    SameTimes(s.(states := r.states), r);
  }

  // ---------- creation and deletion ----------

  /** The delayed lists of `r` hold tasks that those of `s` hold, due at the same times. */
  ghost predicate NoMoreDelayed(s: Sched, r: Sched) {
    && r.tickCount == s.tickCount && r.time == s.time && r.second == s.second && r.overflows == s.overflows
    && (forall u :: u in r.states.container && r.states.container[u].Delayed? ==>
                      && IsOn(s.states, u, r.states.container[u])
                      && (u in s.wake ==> u in r.wake && r.wake[u] == s.wake[u])
                      && (u in s.value ==> u in r.value && r.value[u] == s.value[u]))
  }

  lemma FewerTimed(s: Sched, r: Sched, low: int)
    requires Placed(s) && Timed(s, low) && NoMoreDelayed(s, r)
    requires Sorted(Values(DelayedNow(r), r.value)) && Sorted(Values(DelayedLater(r), r.value))
    ensures Timed(r, low)
    ensures NothingDueAtWrap(s) ==> NothingDueAtWrap(r)
  {
    hide Sorted, Values, Items, Valid;
  }

  /** A task leaves the kernel's records. */
  function Forget(s: Sched, t: Task): Sched
    requires Placed(s) && t in s.priority && s.numberOfTasks > 0
  {
    s.(states := RemoveItem(s.states, t), events := RemoveIfThere(s.events, t),
       priority := s.priority - {t}, value := s.value - {t}, eventValue := s.eventValue - {t}, wake := s.wake - {t},
       numberOfTasks := s.numberOfTasks - 1)
  }

  /** Taking a task off its list leaves a delayed list in order. */
  lemma ForgetOrder(s: Sched, t: Task, second: bool)
    requires Placed(s) && t in s.priority && Sorted(Values(Items(s.states, Delayed(second)), s.value))
    ensures Sorted(Values(Items(RemoveItem(s.states, t), Delayed(second)), s.value - {t}))
  {
    var before, after := Items(s.states, Delayed(second)), Items(RemoveItem(s.states, t), Delayed(second));
    RemoveKeeps(s.states, t);
    RemovedContainer(s.states, t);
    if s.states.container[t] == Delayed(second) {
      ValuesRemove(before, IndexOf(before, t), s.value);
    }
    ValuesElsewhere(after, s.value, s.value - {t});
  }

  lemma ForgetTimed(s: Sched, t: Task)
    requires Placed(s) && t in s.priority && Timed(s, s.time) && s.numberOfTasks > 0
    ensures Timed(Forget(s, t), s.time)
    ensures NothingDueAtWrap(s) ==> NothingDueAtWrap(Forget(s, t))
  {
    ForgetOrder(s, t, s.second);
    ForgetOrder(s, t, !s.second);
    RemovedContainer(s.states, t);
    hide Sorted, Values, Items, RemoveItem;
    FewerTimed(s, Forget(s, t), s.time);
  }

  lemma ForgetCount(s: Sched, t: Task)
    requires Placed(s) && t in s.priority
    ensures var r := RemoveItem(s.states, t);
            && Valid(r)
            && |Items(r, Termination)|
               == |Items(s.states, Termination)| - if s.states.container[t] == Termination then 1 else 0
  {
    RemoveKeeps(s.states, t);
  }

  lemma ForgetLists(s: Sched, t: Task)
    requires Lists(s) && t in s.priority && t != s.current
    ensures s.numberOfTasks > 0
    ensures var r := Forget(s, t);
            && Placed(r) && ReadyInv(r) && EventInv(r)
            && r.numberOfTasks == |r.priority|
            && (forall u :: u in r.states.container ==> StateListsOnly(r, u))
            && r.states.container == s.states.container - {t}
            && r.events.container == s.events.container - {t}
            && |Items(r.states, Termination)|
               == |Items(s.states, Termination)| - if s.states.container[t] == Termination then 1 else 0
  {
    hide Valid, Items, RemoveItem, RemoveIfThere, IndexOf, ReadyInv, EventInv;
    RemovedContainer(s.states, t);
    ForgetCount(s, t);
    RemoveIfThereKeeps(s.events, t);
    assert s.priority.Keys == (s.priority - {t}).Keys + {t};
    ForgetTasks(s, Forget(s, t), t);
  }

  lemma ForgetTasks(s: Sched, r: Sched, t: Task)
    requires ReadyInv(s) && EventInv(s)
    requires r.priority == s.priority - {t} && r.topReady == s.topReady
    requires r.states.container == s.states.container - {t} && r.events.container == s.events.container - {t}
    ensures ReadyInv(r) && EventInv(r)
  {
  }

  /** `vTaskDelete`: a task that deletes itself waits for the idle task. */
  function DeleteTask(s: Sched, t: Task): Sched
    requires Lists(s) && t in s.priority
  {
    LeaveEventKeeps(s, t);
    if t == s.current then
      LeaveEvent(s, t).(states := Move(s.states, Termination, t), deletedWaiting := s.deletedWaiting + 1)
    else
      ForgetLists(s, t);
      ResetNextUnblock(Forget(s, t))
  }

  lemma DeleteOtherExact(s: Sched, t: Task)
    requires Inv(s) && Alive(s, t) && t != s.current
    ensures var r := DeleteTask(s, t);
            && Inv(r)
            && r.states.container == s.states.container - {t}
            && r.events.container == s.events.container - {t}
            && r.numberOfTasks == s.numberOfTasks - 1
            && r.time == s.time && r.pended == s.pended && r.depth == s.depth
  {
    ForgetLists(s, t);
    ForgetTimed(s, t);
    var f := Forget(s, t);
    EmptyList(s.events, PendingReady);
    EmptyList(f.events, PendingReady);
    hide Timed, NothingDueAtWrap, Items, Valid, Placed, ReadyInv, EventInv, Forget;
    assert Lists(f);
    ResetCore(f);
  }

  lemma DeleteSelfExact(s: Sched)
    requires Inv(s) && Alive(s, s.current)
    ensures var r := DeleteTask(s, s.current);
            && Inv(r)
            && r.states.container == s.states.container[s.current := Termination]
            && r.events.container == s.events.container - {s.current}
            && r.numberOfTasks == s.numberOfTasks && r.deletedWaiting == s.deletedWaiting + 1
            && r.time == s.time && r.pended == s.pended && r.depth == s.depth
  {
    hide ReadyInv, EventInv, CountInv, Timed, HeadBound, NothingDueAtWrap, Items, Move, LeaveEvent, Valid;
    var t := s.current;
    LeftAs(s, t);
    LeaveEventCore(s, t);
    var e := LeaveEvent(s, t);
    assert e.states == s.states && t in s.priority && t in s.states.container;
    MoveKeepsTimed(e, Termination, t, s.time);
    SelfDeletedLists(e);
    SameTimes(e.(states := Move(e.states, Termination, t)), DeleteTask(s, t));
  }

  lemma LeftAs(s: Sched, t: Task)
    requires Placed(s)
    ensures LeaveEvent(s, t) == s.(events := LeaveEvent(s, t).events)
  {
  }

  lemma SelfDeletedLists(e: Sched)
    requires Lists(e) && Alive(e, e.current) && e.current !in e.events.container
    ensures var r := e.(states := Move(e.states, Termination, e.current), deletedWaiting := e.deletedWaiting + 1);
            Lists(r) && r.states.container == e.states.container[e.current := Termination]
  {
    hide Valid, Items, Move;
    MoveKeeps(e.states, Termination, e.current);
  }

  /** `prvCheckTasksWaitingTermination`, called from the idle task. */
  function CleanUp(s: Sched): Sched
    requires Lists(s) && s.states.container[s.current] != Termination
    decreases s.deletedWaiting
  {
    if s.deletedWaiting == 0 then s
    else
      FirstDead(s);
      CleanUp(CleanUpOne(s))
  }

  function CleanUpOne(s: Sched): Sched
    requires Placed(s) && s.numberOfTasks > 0 && s.deletedWaiting > 0
    requires Items(s.states, Termination) != [] && Items(s.states, Termination)[0] in s.priority
  {
    Forget(s, Items(s.states, Termination)[0]).(deletedWaiting := s.deletedWaiting - 1)
  }

  lemma FirstDead(s: Sched)
    requires Lists(s) && s.states.container[s.current] != Termination && s.deletedWaiting > 0
    ensures Items(s.states, Termination) != [] && s.numberOfTasks > 0
    ensures var t := Items(s.states, Termination)[0];
            && t in s.priority && s.states.container[t] == Termination && t != s.current
            && Lists(CleanUpOne(s)) && CleanUpOne(s).states.container == s.states.container - {t}
            && CleanUpOne(s).current == s.current && CleanUpOne(s).deletedWaiting == s.deletedWaiting - 1
            && CleanUpOne(s).numberOfTasks == s.numberOfTasks - 1
            && CleanUpOne(s).events.container == s.events.container
            && CleanUpOne(s).states.container[s.current] != Termination
  {
    hide Valid, Items, Forget, Placed, ReadyInv, EventInv;
    DeadHead(s);
    var t := Items(s.states, Termination)[0];
    ForgetLists(s, t);
    ForgetOnly(s, t);
    CountOnly(Forget(s, t), s.deletedWaiting - 1);
  }

  lemma DeadHead(s: Sched)
    requires Lists(s) && s.states.container[s.current] != Termination && s.deletedWaiting > 0
    ensures Items(s.states, Termination) != []
    ensures var t := Items(s.states, Termination)[0];
            && t in s.priority && t in s.states.container && s.states.container[t] == Termination && t != s.current
            && t !in s.events.container && s.events.container - {t} == s.events.container
            && s.current in s.states.container
  {
    assert Items(s.states, Termination)[0] in Items(s.states, Termination);
  }

  lemma ForgetOnly(s: Sched, t: Task)
    requires Placed(s) && t in s.priority && s.numberOfTasks > 0
    ensures var r := Forget(s, t);
            && r.current == s.current && r.deletedWaiting == s.deletedWaiting && r.numberOfTasks == s.numberOfTasks - 1
            && r.time == s.time && r.pended == s.pended && r.depth == s.depth
  {
  }

  lemma CountOnly(s: Sched, deletedWaiting: nat)
    requires Placed(s) && ReadyInv(s) && EventInv(s)
    ensures var r := s.(deletedWaiting := deletedWaiting);
            && Placed(r) && ReadyInv(r) && EventInv(r)
            && ((forall u :: u in s.states.container ==> StateListsOnly(s, u)) ==>
                 forall u :: u in r.states.container ==> StateListsOnly(r, u))
  {
    hide Valid, Items;
  }

  lemma {:induction false} CleanUpExact(s: Sched)
    requires Inv(s) && s.states.container[s.current] != Termination
    ensures var r := CleanUp(s);
            && Inv(r)
            && r.deletedWaiting == 0 && Items(r.states, Termination) == []
            && r.numberOfTasks == s.numberOfTasks - s.deletedWaiting
            && r.states.container
               == (map t | t in s.states.container && s.states.container[t] != Termination :: s.states.container[t])
            && r.events.container == s.events.container
    decreases s.deletedWaiting
  {
    hide Placed, ReadyInv, EventInv, Timed, HeadBound, NothingDueAtWrap, CleanUpOne, StateListsOnly;
    if s.deletedWaiting == 0 {
      NoneDead(s);
    } else {
      FirstDead(s);
      CleanUpOneKeeps(s);
      CleanUpExact(CleanUpOne(s));
    }
  }

  lemma NoneDead(s: Sched)
    requires Placed(s) && Items(s.states, Termination) == []
    ensures s.states.container
         == (map t | t in s.states.container && s.states.container[t] != Termination :: s.states.container[t])
  {
    EmptyList(s.states, Termination);
  }

  lemma CleanUpOneKeeps(s: Sched)
    requires Inv(s) && s.states.container[s.current] != Termination && s.deletedWaiting > 0
    requires Items(s.states, Termination) != [] && s.numberOfTasks > 0 && Items(s.states, Termination)[0] in s.priority
    requires Lists(CleanUpOne(s)) && CleanUpOne(s).events.container == s.events.container
    requires s.states.container[Items(s.states, Termination)[0]] == Termination
    ensures Inv(CleanUpOne(s))
  {
    hide Timed, NothingDueAtWrap, Valid, ReadyInv, EventInv, CountInv;
    var t := Items(s.states, Termination)[0];
    ForgetTimed(s, t);
    RemoveKeeps(s.states, t);
    SameTimes(Forget(s, t), CleanUpOne(s));
    EmptyList(s.events, PendingReady);
    EmptyList(CleanUpOne(s).events, PendingReady);
    ForgetHead(s, t);
  }

  lemma ForgetHead(s: Sched, t: Task)
    requires Placed(s) && t in s.priority && !s.states.container[t].Delayed? && s.numberOfTasks > 0
    ensures HeadBound(s) ==> HeadBound(Forget(s, t))
  {
    RemoveKeeps(s.states, t);
    if DelayedNow(s) != [] {
      assert DelayedNow(s)[0] in Items(s.states, Delayed(s.second));
    }
  }

  function CapPriority(p: nat): nat {
    if p >= MAX_PRIORITIES then MAX_PRIORITIES - 1 else p
  }

  /** A new task, with the scheduler running. */
  function AddTask(s: Sched, t: Task, priority: nat): Sched
    requires Placed(s)
  {
    var p := CapPriority(priority);
    s.(states := InsertLast(s.states, Ready(p), t), topReady := RecordReady(s.topReady, p),
       priority := s.priority[t := p], value := s.value[t := 0], eventValue := s.eventValue[t := MAX_PRIORITIES - p],
       wake := s.wake[t := 0], numberOfTasks := s.numberOfTasks + 1)
  }

  lemma AddedLists(s: Sched, t: Task, priority: nat)
    requires Lists(s) && t !in s.priority
    ensures var r := AddTask(s, t, priority);
            && Lists(r)
            && r.states.container == s.states.container[t := Ready(CapPriority(priority))]
            && DelayedNow(r) == DelayedNow(s) && DelayedLater(r) == DelayedLater(s)
  {
    AddedStates(s, t, CapPriority(priority));
    AddedPlaced(s, t, priority);
    AddedReady(s, t, priority);
    AddedCounts(s, t, priority);
    hide Valid, Items, InsertLast, Placed, ReadyInv, EventInv, CountInv;
  }

  lemma AddedPlaced(s: Sched, t: Task, priority: nat)
    requires Placed(s) && t !in s.priority
    ensures Placed(AddTask(s, t, priority))
  {
    hide Valid, Items, InsertLast;
    AddedStates(s, t, CapPriority(priority));
  }

  lemma AddedReady(s: Sched, t: Task, priority: nat)
    requires Placed(s) && ReadyInv(s) && EventInv(s) && t !in s.priority
    ensures ReadyInv(AddTask(s, t, priority)) && EventInv(AddTask(s, t, priority))
  {
    hide Valid, Items, InsertLast;
    AddedStates(s, t, CapPriority(priority));
  }

  lemma AddedCounts(s: Sched, t: Task, priority: nat)
    requires Placed(s) && CountInv(s) && t !in s.priority
    ensures CountInv(AddTask(s, t, priority))
  {
    hide Valid, Items, InsertLast;
    AddedStates(s, t, CapPriority(priority));
    assert AddTask(s, t, priority).priority.Keys == s.priority.Keys + {t};
  }

  lemma AddedStates(s: Sched, t: Task, p: nat)
    requires Placed(s) && t !in s.priority
    ensures var b := InsertLast(s.states, Ready(p), t);
            && Valid(b) && b.container == s.states.container[t := Ready(p)]
            && Items(b, Termination) == Items(s.states, Termination)
            && (forall second :: Items(b, Delayed(second)) == Items(s.states, Delayed(second)))
  {
    InsertKeeps(s.states, Ready(p), LastPlace(s.states, Ready(p)), t);
  }

  lemma AddTaskExact(s: Sched, t: Task, priority: nat)
    requires Inv(s) && t !in s.priority
    ensures var r := AddTask(s, t, priority);
            && Inv(r)
            && r.states.container == s.states.container[t := Ready(CapPriority(priority))]
            && r.priority == s.priority[t := CapPriority(priority)] && r.events == s.events
            && r.numberOfTasks == s.numberOfTasks + 1
            && r.time == s.time && r.pended == s.pended && r.depth == s.depth
  {
    AddedLists(s, t, priority);
    AddedTimes(s, t, priority);
    hide Core, Items, Valid, InsertLast;
    assert Core(AddTask(s, t, priority)) by {
      AddedCore(s, t, priority);
    }
  }

  lemma AddedCore(s: Sched, t: Task, priority: nat)
    requires Placed(s) && s.tickCount <= s.nextUnblock && Lists(AddTask(s, t, priority))
             && Timed(AddTask(s, t, priority), s.time)
    requires HeadBound(AddTask(s, t, priority)) && NothingDueAtWrap(AddTask(s, t, priority))
    ensures Core(AddTask(s, t, priority))
  {
    hide Lists, Timed, HeadBound, NothingDueAtWrap;
  }

  lemma AddedTimes(s: Sched, t: Task, priority: nat)
    requires Core(s) && t !in s.priority
    ensures var r := AddTask(s, t, priority);
            Timed(r, s.time) && HeadBound(r) && NothingDueAtWrap(r)
  {
    AddedLists(s, t, priority);
    AddedNoMore(s, t, priority);
    AddedOrder(s, t, priority);
    hide Sorted, Values, Lists, AddTask, NoMoreDelayed;
    FewerTimed(s, AddTask(s, t, priority), s.time);
  }

  lemma AddedNoMore(s: Sched, t: Task, priority: nat)
    requires Lists(s) && t !in s.priority
    ensures NoMoreDelayed(s, AddTask(s, t, priority))
  {
    hide InsertLast, ReadyInv, EventInv, CountInv, Valid, Items;
    AddedLists(s, t, priority);
  }

  lemma AddedOrder(s: Sched, t: Task, priority: nat)
    requires Lists(s) && Timed(s, s.time) && HeadBound(s) && t !in s.priority
    ensures var r := AddTask(s, t, priority);
            Sorted(Values(DelayedNow(r), r.value)) && Sorted(Values(DelayedLater(r), r.value)) && HeadBound(r)
  {
    AddedLists(s, t, priority);
    NewcomerOrder(s, t, s.second);
    NewcomerOrder(s, t, !s.second);
    hide InsertLast, Lists, Sorted, Values, Items;
  }

  lemma NewcomerOrder(s: Sched, t: Task, second: bool)
    requires Placed(s) && t !in s.priority
    ensures Values(Items(s.states, Delayed(second)), s.value[t := 0])
            == Values(Items(s.states, Delayed(second)), s.value)
    ensures var d := Items(s.states, Delayed(second));
            d != [] ==> ValueOf(s.value[t := 0], d[0]) == ValueOf(s.value, d[0])
  {
    var d := Items(s.states, Delayed(second));
    assert t !in d;
    ValuesElsewhere(d, s.value, s.value[t := 0]);
    assert d != [] ==> d[0] in d;
  }
}
