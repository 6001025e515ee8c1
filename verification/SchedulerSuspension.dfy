/** Suspension of the scheduler: ticks and wake-ups are held, and made good when it resumes. */
module SchedulerSuspension {

  import opened Ticks
  import opened ListModel
  import opened KernelConfig
  import opened Banks
  import opened Scheduler
  import opened SchedulerTick
  import opened SchedulerBlocking
  import opened SchedulerTasks

  /** The tick interrupt. */
  function TickInterrupt(s: Sched): Sched
    requires Placed(s)
  {
    if s.depth == 0 then IncrementTick(s) else s.(pended := s.pended + 1)
  }

  /** One of the tasks has a higher priority than the current one. */
  ghost predicate AnyAbove(s: Sched, w: set<Task>)
    requires s.current in s.priority
  {
    exists t :: t in w && t in s.priority && s.priority[t] > s.priority[s.current]
  }

  /** What `xTaskIncrementTick` returns: a yield was pending already, a task of higher priority than the current
      one was made ready, or the current one has to share its time. */
  ghost predicate SwitchRequired(s: Sched)
    requires Placed(s)
  {
    || s.yieldPending
    || AnyAbove(s, DueBy(s, s.time + 1))
    || |Items(IncrementTick(s).states, Ready(s.priority[s.current]))| > 1
  }

  function SuspendAll(s: Sched): Sched {
    s.(depth := s.depth + 1)
  }

  lemma FieldsOnly(s: Sched, depth: nat, pended: nat, yieldPending: bool)
    requires Core(s)
    ensures Core(s.(depth := depth, pended := pended, yieldPending := yieldPending))
  {
    hide Timed, HeadBound, NothingDueAtWrap, Valid, Items;
    SameTimes(s, s.(depth := depth, pended := pended, yieldPending := yieldPending));
  }

  // ---------- the tasks that events have woken ----------

  ghost function Pending(s: Sched): set<Task> {
    set t | t in s.events.container && s.events.container[t] == PendingReady
  }

  lemma FirstPending(s: Sched)
    requires Core(s) && Items(s.events, PendingReady) != []
    ensures var t := Items(s.events, PendingReady)[0];
            && t in s.priority && t in Pending(s) && t in s.states.container && s.states.container[t] != Termination
            && Core(MovePendingOne(s))
            && MovePendingOne(s).states.container == s.states.container[t := Ready(s.priority[t])]
            && MovePendingOne(s).events.container == s.events.container - {t}
            && |Items(MovePendingOne(s).events, PendingReady)| < |Items(s.events, PendingReady)|
            && MovePendingOne(s) == s.(states := MovePendingOne(s).states, events := MovePendingOne(s).events,
                                       topReady := MovePendingOne(s).topReady,
                                       yieldPending := MovePendingOne(s).yieldPending)
  {
    hide ReadyInv, CountInv, Timed, HeadBound, NothingDueAtWrap, RemoveItem, Move;
    var t := Items(s.events, PendingReady)[0];
    assert t in Items(s.events, PendingReady);
    assert t in s.states.container;
    UnblockCore(s, t);
    YieldOnly(Unblock(s, t), MovePendingOne(s).yieldPending);
    RemoveKeeps(s.events, t);
  }

  /** One turn of the loop of `xTaskResumeAll`. */
  function MovePendingOne(s: Sched): Sched
    requires Placed(s) && Items(s.events, PendingReady) != [] && Items(s.events, PendingReady)[0] in s.priority
  {
    var t := Items(s.events, PendingReady)[0];
    Unblock(s, t).(yieldPending := s.yieldPending || s.priority[t] > s.priority[s.current])
  }

  function MovePending(s: Sched): Sched
    requires Core(s)
    decreases |Items(s.events, PendingReady)|
  {
    if Items(s.events, PendingReady) == [] then s
    else FirstPending(s); MovePending(MovePendingOne(s))
  }

  lemma {:induction false} MovePendingExact(s: Sched)
    requires Core(s)
    ensures var r := MovePending(s);
            && Core(r) && Items(r.events, PendingReady) == []
            && r.states.container == Readied(s, Pending(s))
            && r.events.container == s.events.container - Pending(s)
            && r == s.(states := r.states, events := r.events, topReady := r.topReady, yieldPending := r.yieldPending)
    decreases |Items(s.events, PendingReady)|
  {
    hide Placed, ReadyInv, EventInv, CountInv, Timed, HeadBound, NothingDueAtWrap, MovePendingOne, Items, Pending,
         Readied;
    if Items(s.events, PendingReady) == [] {
      NonePending(s);
    } else {
      FirstPending(s);
      MovePendingExact(MovePendingOne(s));
      OneMorePending(s, MovePendingOne(s), Items(s.events, PendingReady)[0]);
    }
  }

  lemma NonePending(s: Sched)
    requires Placed(s) && Items(s.events, PendingReady) == []
    ensures Readied(s, Pending(s)) == s.states.container && s.events.container - Pending(s) == s.events.container
  {
    EmptyList(s.events, PendingReady);
    assert Pending(s) == {};
  }

  lemma OneMorePending(s: Sched, r: Sched, h: Task)
    requires h in s.priority && h in Pending(s) && r.priority == s.priority
    requires r.states.container == s.states.container[h := Ready(s.priority[h])]
    requires h in s.states.container
    requires r.events.container == s.events.container - {h}
    ensures Pending(s) == Pending(r) + {h}
    ensures Readied(r, Pending(r)) == Readied(s, Pending(s))
    ensures r.events.container - Pending(r) == s.events.container - Pending(s)
  {
  }

  // ---------- the ticks that were held ----------

  ghost function TickMany(s: Sched, n: nat): Sched
    requires Core(s)
    decreases n
  {
    if n == 0 then s
    else
      TickExact(s);
      var r := IncrementTick(s).(yieldPending := s.yieldPending || SwitchRequired(s));
      YieldOnly(IncrementTick(s), r.yieldPending);
      TickMany(r, n - 1)
  }

  lemma ReadiedTwice(s: Sched, m: Sched, a: set<Task>, b: set<Task>)
    requires m.priority == s.priority && m.states.container == Readied(s, a)
    ensures Readied(m, b) == Readied(s, a + b)
  {
  }

  /** The tasks due in `n` ticks are those due in one tick and those that are due in the rest. */
  lemma DueTogether(s: Sched, m: Sched, later: nat)
    requires m.priority == s.priority && m.wake == s.wake && s.states.container.Keys == s.priority.Keys
    requires m.states.container == Readied(s, DueBy(s, s.time + 1)) && later >= s.time + 1
    ensures DueBy(s, s.time + 1) + DueBy(m, later) == DueBy(s, later)
  {
  }

  lemma {:induction false} TickManyExact(s: Sched, n: nat)
    requires Core(s)
    ensures var r := TickMany(s, n);
            && Core(r)
            && r.time == s.time + n
            && (n > 0 ==>
                  && r.states.container == Readied(s, DueBy(s, s.time + n))
                  && r.events.container == s.events.container - DueBy(s, s.time + n))
            && (n == 0 ==> r == s)
            && r.priority == s.priority && r.eventValue == s.eventValue && r.current == s.current && r.wake == s.wake
            && r.depth == s.depth && r.pended == s.pended
    decreases n
  {
    hide Placed, ReadyInv, EventInv, CountInv, Timed, HeadBound, NothingDueAtWrap, IncrementTick, SwitchRequired,
         Readied, DueBy;
    if n > 0 {
      TickExact(s);
      var m := IncrementTick(s).(yieldPending := s.yieldPending || SwitchRequired(s));
      YieldOnly(IncrementTick(s), m.yieldPending);
      TickManyExact(m, n - 1);
      if n > 1 {
        DueTogetherCore(s, m, s.time + n);
        ReadiedTwice(s, m, DueBy(s, s.time + 1), DueBy(m, s.time + n));
      }
    }
  }

  lemma DueTogetherCore(s: Sched, m: Sched, later: nat)
    requires Core(s)
    requires m.priority == s.priority && m.wake == s.wake
    requires m.states.container == Readied(s, DueBy(s, s.time + 1)) && later >= s.time + 1
    requires m.events.container == s.events.container - DueBy(s, s.time + 1)
    ensures DueBy(s, s.time + 1) + DueBy(m, later) == DueBy(s, later)
    ensures m.events.container - DueBy(m, later) == s.events.container - DueBy(s, later)
  {
    DueTogether(s, m, later);
  }

  // ---------- resuming ----------

  /** `xTaskResumeAll`. */
  ghost function ResumeAll(s: Sched): Sched
    requires Core(s) && s.depth > 0
  {
    var d := s.(depth := s.depth - 1);
    FieldsOnly(s, d.depth, s.pended, s.yieldPending);
    if d.depth > 0 then d
    else
      MovePendingExact(d);
      var m := if Items(d.events, PendingReady) != [] then ResetNextUnblock(MovePending(d)) else MovePending(d);
      ResetCore(MovePending(d));
      TickMany(m, s.pended).(pended := 0)
  }

  /** When the last suspension ends, the tasks that events woke meanwhile and the tasks whose time came by the
      end of the held ticks are ready, no other task has moved, and nothing is held any more. */
  lemma ResumeAllExact(s: Sched)
    requires Core(s) && s.depth == 1
    ensures var r, woken := ResumeAll(s), Pending(s) + if s.pended > 0 then DueBy(s, s.time + s.pended) else {};
            && Inv(r) && r.depth == 0 && r.pended == 0
            && r.time == s.time + s.pended
            && r.states.container == Readied(s, woken)
            && r.events.container == s.events.container - woken
            && r.priority == s.priority && r.eventValue == s.eventValue && r.current == s.current && r.wake == s.wake
  {
    hide Placed, ReadyInv, EventInv, CountInv, Timed, HeadBound, NothingDueAtWrap, TickMany, MovePending, Readied,
         DueBy, Pending;
    var d := s.(depth := 0);
    FieldsOnly(s, 0, s.pended, s.yieldPending);
    SamePending(s, d);
    MovePendingExact(d);
    ResetCore(MovePending(d));
    var m := if Items(d.events, PendingReady) != [] then ResetNextUnblock(MovePending(d)) else MovePending(d);
    TickManyExact(m, s.pended);
    var t := TickMany(m, s.pended);
    FieldsOnly(t, 0, 0, t.yieldPending);
    DueApart(s, m);
    NothingPending(m, t);
    ReadiedTwice(s, m, Pending(s), DueBy(m, m.time + s.pended));
    NothingMore(s);
  }

  // ---------- the yield that a resume owes ----------

  /** Two tasks are on the ready list of one priority. */
  ghost predicate Shared(container: map<Task, ListId>, p: nat) {
    exists t, u :: t in container && u in container && t != u && container[t] == Ready(p) && container[u] == Ready(p)
  }

  lemma SharedByLength(b: Bank, p: nat)
    requires Valid(b)
    ensures |Items(b, Ready(p))| > 1 <==> Shared(b.container, p)
  {
    OneList(b, Ready(p));
    var items := Items(b, Ready(p));
    if |items| > 1 {
      assert items[0] in items && items[1] in items && items[0] != items[1];
    }
    if Shared(b.container, p) {
      var t, u :| t in b.container && u in b.container && t != u && b.container[t] == Ready(p)
          && b.container[u] == Ready(p);
      assert t in items && u in items;
    }
  }

  /** A tick asks for a switch exactly when a yield is pending, a task that comes due outranks the current one, or after
      it two tasks of the current one's priority are ready. */
  lemma SwitchRequiredExact(s: Sched)
    requires Core(s)
    ensures s.current in s.priority
    ensures SwitchRequired(s) <==>
              || s.yieldPending
              || AnyAbove(s, DueBy(s, s.time + 1))
              || Shared(Readied(s, DueBy(s, s.time + 1)), s.priority[s.current])
  {
    hide ReadyInv, EventInv, CountInv, Timed, HeadBound, NothingDueAtWrap, IncrementTick, Readied, DueBy, Valid, Shared,
         AnyAbove;
    TickExact(s);
    SharedByLength(IncrementTick(s).states, s.priority[s.current]);
  }

  /** Who is ready stays ready when more tasks are readied. */
  lemma SharedMore(s: Sched, a: set<Task>, b: set<Task>, p: nat)
    requires ReadyInv(s) && s.states.container.Keys == s.priority.Keys && a <= b && Shared(Readied(s, a), p)
    ensures Shared(Readied(s, b), p)
  {
    var c := Readied(s, a);
    var t, u :| t in c && u in c && t != u && c[t] == Ready(p) && c[u] == Ready(p);
    assert Readied(s, b)[t] == Ready(p) && Readied(s, b)[u] == Ready(p);
  }

  lemma AboveTogether(s: Sched, m: Sched, a: set<Task>, b: set<Task>)
    requires s.current in s.priority && m.priority == s.priority && m.current == s.current
    ensures AnyAbove(s, a) || AnyAbove(m, b) <==> AnyAbove(s, a + b)
  {
  }

  /** What any number of held ticks leave of the flag. */
  lemma {:induction false} TickManyYield(s: Sched, n: nat)
    requires Core(s)
    ensures s.current in s.priority
    ensures TickMany(s, n).yieldPending <==>
              || s.yieldPending
              || (n > 0 && AnyAbove(s, DueBy(s, s.time + n)))
              || (n > 0 && Shared(Readied(s, DueBy(s, s.time + n)), s.priority[s.current]))
    decreases n
  {
    hide ReadyInv, EventInv, CountInv, Timed, HeadBound, NothingDueAtWrap, IncrementTick, SwitchRequired, Readied,
         DueBy,
         Shared, AnyAbove, Valid;
    if n > 0 {
      TickExact(s);
      SwitchRequiredExact(s);
      var m := IncrementTick(s).(yieldPending := s.yieldPending || SwitchRequired(s));
      YieldOnly(IncrementTick(s), m.yieldPending);
      TickManyYield(m, n - 1);
      if n > 1 {
        var one, rest, p := DueBy(s, s.time + 1), DueBy(m, s.time + n), s.priority[s.current];
        DueTogetherCore(s, m, s.time + n);
        ReadiedTwice(s, m, one, rest);
        AboveTogether(s, m, one, rest);
        if Shared(Readied(s, one), p) {
          ReadyFacts(s);
          SharedMore(s, one, one + rest, p);
        }
      }
    }
  }

  lemma ReadyFacts(s: Sched)
    requires Core(s)
    ensures ReadyInv(s) && s.states.container.Keys == s.priority.Keys
  {
  }

  lemma {:induction false} MovePendingYield(s: Sched)
    requires Core(s)
    ensures s.current in s.priority
    ensures MovePending(s).yieldPending <==> s.yieldPending || AnyAbove(s, Pending(s))
    decreases |Items(s.events, PendingReady)|
  {
    hide ReadyInv, EventInv, CountInv, Timed, HeadBound, NothingDueAtWrap, Items, Readied, Unblock, Valid;
    if Items(s.events, PendingReady) == [] {
      NonePending(s);
      NobodyPending(s);
    } else {
      FirstPending(s);
      var h := Items(s.events, PendingReady)[0];
      MovePendingYield(MovePendingOne(s));
      OneMorePending(s, MovePendingOne(s), h);
    }
  }

  lemma NobodyPending(s: Sched)
    requires Placed(s) && Items(s.events, PendingReady) == []
    ensures Pending(s) == {}
  {
    EmptyList(s.events, PendingReady);
  }

  /** Whether the outermost resume leaves a yield pending: one was, a task that an event woke in the suspension or that
      came due in it outranks the current one, or ticks were held and two tasks of the current one's priority are
      ready at the end. */
  ghost predicate OwesYield(s: Sched)
    requires s.current in s.priority
  {
    var woken := Pending(s) + if s.pended > 0 then DueBy(s, s.time + s.pended) else {};
    || s.yieldPending
    || AnyAbove(s, woken)
    || (s.pended > 0 && Shared(Readied(s, woken), s.priority[s.current]))
  }

  lemma ResumeYieldExact(s: Sched)
    requires Core(s) && s.depth == 1
    ensures s.current in s.priority
    ensures ResumeAll(s).yieldPending <==> OwesYield(s)
  {
    hide ReadyInv, EventInv, CountInv, Timed, HeadBound, NothingDueAtWrap, TickMany, MovePending, Readied, DueBy,
         Pending,
         Shared, AnyAbove, Valid, Items;
    var d := s.(depth := 0);
    FieldsOnly(s, 0, s.pended, s.yieldPending);
    SamePending(s, d);
    MovePendingExact(d);
    MovePendingYield(d);
    ResetCore(MovePending(d));
    var m := if Items(d.events, PendingReady) != [] then ResetNextUnblock(MovePending(d)) else MovePending(d);
    TickManyYield(m, s.pended);
    DueApart(s, m);
    ReadiedTwice(s, m, Pending(s), DueBy(m, m.time + s.pended));
    AboveTogether(s, m, Pending(s), DueBy(m, s.time + s.pended));
    SameAbove(s, d, Pending(s));
    NothingMore(s);
  }

  lemma SameAbove(s: Sched, d: Sched, w: set<Task>)
    requires s.current in s.priority && d.priority == s.priority && d.current == s.current
    ensures AnyAbove(d, w) <==> AnyAbove(s, w)
  {
  }

  lemma SamePending(s: Sched, d: Sched)
    requires d.events == s.events && d.states == s.states && d.priority == s.priority
    ensures Pending(d) == Pending(s) && Readied(d, Pending(d)) == Readied(s, Pending(s))
  {
  }

  lemma NothingMore(s: Sched)
    ensures Pending(s) + {} == Pending(s)
  {
  }

  lemma DueApart(s: Sched, m: Sched)
    requires Placed(s) && m.wake == s.wake && m.time == s.time && m.states.container == Readied(s, Pending(s))
    requires m.events.container == s.events.container - Pending(s)
    ensures Pending(s) + DueBy(m, s.time + s.pended) == Pending(s) + DueBy(s, s.time + s.pended)
    ensures m.events.container - DueBy(m, s.time + s.pended)
         == s.events.container - (Pending(s) + DueBy(m, s.time + s.pended))
  {
  }

  lemma NothingPending(m: Sched, t: Sched)
    requires Core(m) && Core(t) && Items(m.events, PendingReady) == []
    requires forall u :: u in t.events.container ==>
                           u in m.events.container && t.events.container[u] == m.events.container[u]
    ensures Items(t.events, PendingReady) == []
  {
    EmptyList(m.events, PendingReady);
    EmptyList(t.events, PendingReady);
  }

  /** An inner suspension ends without effect. */
  lemma ResumeNested(s: Sched)
    requires Core(s) && s.depth > 1
    ensures Inv(ResumeAll(s)) && ResumeAll(s) == s.(depth := s.depth - 1)
  {
    FieldsOnly(s, s.depth - 1, s.pended, s.yieldPending);
  }

  lemma HeldCore(s: Sched, ticks: nat)
    requires Core(s)
    ensures Core(SuspendAll(s).(pended := s.pended + ticks))
  {
    hide Core;
    FieldsOnly(s, s.depth + 1, s.pended + ticks, s.yieldPending);
  }

  /** `xTaskCatchUpTicks`. */
  ghost function CatchUpTicks(s: Sched, ticks: nat): Sched
    requires Core(s) && s.depth == 0
  {
    HeldCore(s, ticks);
    ResumeAll(SuspendAll(s).(pended := s.pended + ticks))
  }

  /** Ticks that are caught up wake exactly the tasks whose time comes by the end of them. */
  lemma CatchUpTicksExact(s: Sched, ticks: nat)
    requires Inv(s) && s.depth == 0
    ensures var r := CatchUpTicks(s, ticks);
            && Inv(r) && r.depth == 0 && r.pended == 0
            && r.time == s.time + ticks
            && r.states.container == Readied(s, if ticks > 0 then DueBy(s, s.time + ticks) else {})
            && r.priority == s.priority && r.eventValue == s.eventValue && r.current == s.current && r.wake == s.wake
  {
    hide Placed, ReadyInv, EventInv, CountInv, Timed, HeadBound, NothingDueAtWrap, Items, Pending, Readied, DueBy,
         ResumeAll;
    FieldsOnly(s, 1, ticks, s.yieldPending);
    ResumeAllExact(SuspendAll(s).(pended := ticks));
    RunningHasNonePending(s, SuspendAll(s).(pended := ticks), ticks);
  }

  /** Whether ticks that are caught up leave a yield pending. */
  ghost predicate OwesYieldAfter(s: Sched, ticks: nat)
    requires s.current in s.priority
  {
    || s.yieldPending
    || (ticks > 0 && AnyAbove(s, DueBy(s, s.time + ticks)))
    || (ticks > 0 && Shared(Readied(s, DueBy(s, s.time + ticks)), s.priority[s.current]))
  }

  lemma CatchUpYieldExact(s: Sched, ticks: nat)
    requires Inv(s) && s.depth == 0
    ensures s.current in s.priority
    ensures CatchUpTicks(s, ticks).yieldPending <==> OwesYieldAfter(s, ticks)
  {
    hide Placed, ReadyInv, EventInv, CountInv, Timed, HeadBound, NothingDueAtWrap, Items, Pending, Readied, DueBy,
         ResumeAll, Shared, AnyAbove;
    var d := SuspendAll(s).(pended := ticks);
    FieldsOnly(s, 1, ticks, s.yieldPending);
    ResumeYieldExact(d);
    RunningHasNonePending(s, d, ticks);
    NobodyAbove(s);
    var due := if ticks > 0 then DueBy(s, s.time + ticks) else {};
    assert Pending(d) + due == due;
    assert Readied(d, Pending(d) + due) == Readied(s, due);
    SameAbove(s, d, due);
  }

  lemma NobodyAbove(s: Sched)
    requires s.current in s.priority
    ensures !AnyAbove(s, {})
  {
  }

  lemma RunningHasNonePending(s: Sched, d: Sched, ticks: nat)
    requires Inv(s) && s.depth == 0
    requires d.events == s.events && d.states == s.states && d.priority == s.priority && d.wake == s.wake
    ensures Pending(d) == {}
    ensures DueBy(d, s.time + ticks) == DueBy(s, s.time + ticks)
    ensures forall w :: Readied(d, Pending(d) + w) == Readied(s, w)
  {
    EmptyList(s.events, PendingReady);
    forall w
      ensures Readied(d, Pending(d) + w) == Readied(s, w)
    {
      assert Pending(d) + w == w;
    }
  }

  // ---------- stepping the tick count ----------

  /** The ticks that `vTaskStepTick` adds itself: the last one is left to the tick code when a task is due then. */
  function Jump(s: Sched, ticks: Tick): Tick {
    if AddTicks(s.tickCount, ticks) == s.nextUnblock && ticks > 0 then ticks - 1 else ticks
  }

  /** What `vTaskStepTick` asserts. */
  predicate MayStep(s: Sched, ticks: Tick) {
    && AddTicks(s.tickCount, ticks) <= s.nextUnblock
    && (AddTicks(s.tickCount, ticks) == s.nextUnblock ==> s.depth > 0 && ticks > 0)
  }

  function StepTick(s: Sched, ticks: Tick): Sched
    requires MayStep(s, ticks)
  {
    var r := if AddTicks(s.tickCount, ticks) == s.nextUnblock then s.(pended := s.pended + 1) else s;
    r.(tickCount := AddTicks(s.tickCount, Jump(s, ticks)), time := s.time + Jump(s, ticks))
  }

  lemma JumpTime(time: nat, jump: Tick)
    ensures AddTicks(Wrap(time), jump) == Wrap(time + jump)
    ensures Epoch(time + jump) == Epoch(time) <==> Wrap(time) + jump < TICK_MOD
    ensures Wrap(time) + jump < TICK_MOD ==> Wrap(time + jump) == Wrap(time) + jump
  {
    WrapAdd(time, jump);
    WrapSplit(time);
    if Wrap(time) + jump < TICK_MOD {
      WrapUnique(time + jump, Epoch(time), Wrap(time) + jump);
    } else {
      WrapUnique(time + jump, Epoch(time) + 1, Wrap(time) + jump - TICK_MOD);
    }
  }

  /** The assertion of `vTaskStepTick` compares wrapped values, and so admits a step across the wrap, after which
      the two delayed lists are the wrong way round. The step is right exactly when it does not cross it. */
  lemma StepTickExact(s: Sched, ticks: Tick)
    requires Inv(s) && MayStep(s, ticks)
    ensures var r := StepTick(s, ticks);
            && r.time + r.pended == s.time + s.pended + ticks
            && (Inv(r) <==> s.tickCount + Jump(s, ticks) < TICK_MOD)
            && (Inv(r) ==> DueBy(r, r.time) == {})
  {
    hide Core;
    JumpTime(s.time, Jump(s, ticks));
    StepTimes(s, ticks);
    if s.tickCount + Jump(s, ticks) < TICK_MOD {
      StepWithin(s, ticks);
    } else {
      StepAcross(s, ticks);
    }
  }

  lemma StepTimes(s: Sched, ticks: Tick)
    requires MayStep(s, ticks)
    ensures StepTick(s, ticks).time + StepTick(s, ticks).pended == s.time + s.pended + ticks
    ensures StepTick(s, ticks).depth == s.depth && StepTick(s, ticks).events == s.events
    ensures s.depth == 0 ==> StepTick(s, ticks).pended == s.pended
  {
  }

  lemma StepWithin(s: Sched, ticks: Tick)
    requires Core(s) && MayStep(s, ticks) && s.tickCount + Jump(s, ticks) < TICK_MOD
    ensures Core(StepTick(s, ticks)) && DueBy(StepTick(s, ticks), StepTick(s, ticks).time) == {}
  {
    hide Placed, ReadyInv, EventInv, CountInv, HeadBound, NothingDueAtWrap, DueBy, DelayedNow, Sorted;
    var r := StepTick(s, ticks);
    JumpTime(s.time, Jump(s, ticks));
    StepBelowNext(s, ticks);
    SteppedTimed(s, r);
    SteppedLists(s, r);
    StrictlyLater(r);
  }

  /** After a step across the wrap the number of overflows is one behind. */
  lemma StepAcross(s: Sched, ticks: Tick)
    requires Core(s) && MayStep(s, ticks) && s.tickCount + Jump(s, ticks) >= TICK_MOD
    ensures !Core(StepTick(s, ticks))
  {
    JumpTime(s.time, Jump(s, ticks));
    hide Lists, HeadBound, NothingDueAtWrap, Sorted, Values;
  }

  /** A step that does not wrap stops short of the next unblock time. */
  lemma StepBelowNext(s: Sched, ticks: Tick)
    requires MayStep(s, ticks) && s.tickCount <= s.nextUnblock && s.tickCount + Jump(s, ticks) < TICK_MOD
    ensures s.tickCount + Jump(s, ticks) < s.nextUnblock
  {
    if s.tickCount + ticks < TICK_MOD {
      WrapUnique(s.tickCount + ticks, 0, s.tickCount + ticks);
    } else {
      assert ticks > 0 && s.tickCount + ticks == TICK_MOD;
      WrapUnique(s.tickCount + ticks, 1, 0);
    }
  }

  lemma SteppedLists(s: Sched, r: Sched)
    requires Lists(s) && r == s.(pended := r.pended, tickCount := r.tickCount, time := r.time)
    ensures Lists(r) && (HeadBound(s) ==> HeadBound(r))
  {
    hide Valid, Items;
  }

  lemma SteppedTimed(s: Sched, r: Sched)
    requires Placed(s) && Timed(s, s.time) && HeadBound(s)
    requires r == s.(pended := r.pended, tickCount := r.tickCount, time := r.time)
    requires r.tickCount == Wrap(r.time) < s.nextUnblock && Epoch(r.time) == Epoch(s.time) && r.time >= s.time
    ensures Timed(r, r.time + 1)
  {
    hide Sorted, Values;
    var low := s.time;
    assert Timed(r, low);
    assert Placed(r);
    assert HeadBound(r);
    NotYet(r, low);
  }
}
