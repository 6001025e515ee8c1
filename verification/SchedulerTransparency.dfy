/** Suspension of the scheduler makes no difference to what ticks do in the end. */
module SchedulerTransparency {

  import opened Ticks
  import opened ListModel
  import opened KernelConfig
  import opened Banks
  import opened Scheduler
  import opened SchedulerTick
  import opened SchedulerBlocking
  import opened SchedulerTasks
  import opened SchedulerSuspension
  import opened SchedulerRuns

  /** A state without its suspension and its pending yield. */
  function Bare(s: Sched): Sched {
    s.(depth := 0, pended := 0, yieldPending := false)
  }

  // ---------- ticks do not see the suspension ----------

  lemma {:induction false} WakeIgnores(a: Sched)
    requires Placed(a)
    ensures Placed(Bare(a)) && WakeDue(Bare(a)) == Bare(WakeDue(a))
    decreases |DelayedNow(a)|
  {
    if DelayedNow(a) != [] && a.tickCount >= ValueOf(a.value, DelayedNow(a)[0]) {
      UnblockShrinks(a);
      WakeIgnores(Unblock(a, DelayedNow(a)[0]));
    }
  }

  lemma AdvanceIgnores(s: Sched)
    ensures AdvanceClock(Bare(s)) == Bare(AdvanceClock(s))
  {
  }

  lemma TickIgnores(s: Sched)
    requires Core(s)
    ensures Core(Bare(s)) && IncrementTick(Bare(s)) == Bare(IncrementTick(s))
  {
    hide ReadyInv, EventInv, CountInv, Timed, HeadBound, NothingDueAtWrap, Items, AdvanceClock, WakeDue, Valid;
    FieldsOnly(s, 0, 0, false);
    AdvanceFacts(s);
    AdvanceIgnores(s);
    WakeIgnores(AdvanceClock(s));
  }

  /** The state after `n` ticks, taken one by one while the scheduler runs. */
  ghost function Ticked(s: Sched, n: nat): (r: Sched)
    requires Core(s)
    ensures Core(r)
    decreases n
  {
    if n == 0 then s
    else
      TickExact(Ticked(s, n - 1));
      IncrementTick(Ticked(s, n - 1))
  }

  lemma {:induction false} TickedFirst(s: Sched, n: nat)
    requires Core(s)
    ensures Core(IncrementTick(s)) && Ticked(IncrementTick(s), n) == Ticked(s, n + 1)
    decreases n
  {
    hide Placed, ReadyInv, EventInv, CountInv, Timed, HeadBound, NothingDueAtWrap, IncrementTick;
    TickExact(s);
    if n == 0 {
      assert Ticked(s, 1) == IncrementTick(Ticked(s, 0));
    } else {
      TickedFirst(s, n - 1);
    }
  }

  lemma {:induction false} TickedTogether(s: Sched, m: nat, n: nat)
    requires Core(s)
    ensures Ticked(Ticked(s, m), n) == Ticked(s, m + n)
    decreases n
  {
    hide Core, IncrementTick;
    if n > 0 {
      TickedTogether(s, m, n - 1);
      assert m + n - 1 == m + (n - 1);
    }
  }

  /** The loop of the resume takes the same ticks. */
  lemma {:induction false} TickManyBare(s: Sched, n: nat)
    requires Core(s)
    ensures Core(Bare(s)) && Bare(TickMany(s, n)) == Ticked(Bare(s), n)
    decreases n
  {
    hide Placed, ReadyInv, EventInv, CountInv, Timed, HeadBound, NothingDueAtWrap, IncrementTick, SwitchRequired;
    TickIgnores(s);
    if n > 0 {
      TickExact(s);
      var r := IncrementTick(s).(yieldPending := s.yieldPending || SwitchRequired(s));
      YieldOnly(IncrementTick(s), r.yieldPending);
      TickManyBare(r, n - 1);
      TickedFirst(Bare(s), n - 1);
    }
  }

  // ---------- ticks and suspensions ----------

  predicate TicksAndSuspends(step: Step) {
    step.TickComes? || step.SuspendScheduler? || step.ResumeScheduler?
  }

  predicate AllTickOrSuspend(steps: seq<Step>) {
    forall i :: 0 <= i < |steps| ==> TicksAndSuspends(steps[i])
  }

  /** The state with the ticks that are held taken. */
  ghost function CaughtUp(s: Sched): (r: Sched)
    requires Core(s)
    ensures Core(r)
  {
    TickIgnores(s);
    Ticked(Bare(s), s.pended)
  }

  lemma ResumeCaughtUp(s: Sched)
    requires Inv(s) && s.depth == 1 && Items(s.events, PendingReady) == []
    ensures Inv(ResumeAll(s)) && ResumeAll(s).depth == 0 && CaughtUp(ResumeAll(s)) == CaughtUp(s)
  {
    hide Placed, ReadyInv, EventInv, CountInv, Timed, HeadBound, NothingDueAtWrap, TickMany, Readied, Pending, DueBy;
    var d := s.(depth := 0);
    FieldsOnly(s, 0, s.pended, s.yieldPending);
    ResumeAllExact(s);
    TickManyBare(d, s.pended);
    assert ResumeAll(s) == TickMany(d, s.pended).(pended := 0);
    TickIgnores(s);
    TickIgnores(ResumeAll(s));
    assert Bare(ResumeAll(s)) == Bare(TickMany(d, s.pended)) && Bare(d) == Bare(s);
  }

  lemma TickCaughtUp(s: Sched)
    requires Inv(s) && Items(s.events, PendingReady) == []
    ensures var r := TickInterrupt(s);
            Inv(r) && Items(r.events, PendingReady) == [] && CaughtUp(r) == Ticked(CaughtUp(s), 1)
  {
    hide Placed, ReadyInv, EventInv, CountInv, Timed, HeadBound, NothingDueAtWrap, Items, IncrementTick, DueBy, Readied;
    TickStep(s);
    TickIgnores(s);
    TickIgnores(TickInterrupt(s));
    if s.depth == 0 {
      TickExact(s);
      TickPendsNothing(s);
      assert Ticked(CaughtUp(s), 1) == IncrementTick(Ticked(CaughtUp(s), 0));
    } else {
      TickedTogether(Bare(s), s.pended, 1);
    }
  }

  /** A step takes its ticks, at once or later. */
  lemma StepCaughtUp(s: Sched, step: Step)
    requires Inv(s) && Enabled(s, step) && TicksAndSuspends(step) && Items(s.events, PendingReady) == []
    ensures var r := Next(s, step);
            Inv(r) && Items(r.events, PendingReady) == [] && CaughtUp(r) == Ticked(CaughtUp(s), Elapsed(step))
  {
    hide Placed, ReadyInv, EventInv, CountInv, Timed, HeadBound, NothingDueAtWrap, Items, Ticked, ResumeAll;
    InvStep(s, step);
    TickIgnores(s);
    TickIgnores(Next(s, step));
    NoTicks(CaughtUp(s));
    match step
    case TickComes => TickCaughtUp(s);
    case SuspendScheduler =>
      assert Bare(Next(s, step)) == Bare(s);
    case ResumeScheduler =>
      if s.depth == 1 {
        ResumeCaughtUp(s);
        RunningIsCaughtUp(ResumeAll(s));
      } else {
        ResumeNested(s);
        assert Bare(Next(s, step)) == Bare(s);
      }
  }

  lemma NoTicks(s: Sched)
    requires Core(s)
    ensures Ticked(s, 0) == s
  {
  }

  lemma {:induction false} RunCaughtUp(s: Sched, steps: seq<Step>)
    requires Inv(s) && CanRun(s, steps) && AllTickOrSuspend(steps) && Items(s.events, PendingReady) == []
    ensures Inv(After(s, steps)) && CaughtUp(After(s, steps)) == Ticked(CaughtUp(s), TotalElapsed(steps))
    decreases |steps|
  {
    hide Core, Settled, Next, Enabled, Items, Ticked, CaughtUp;
    if steps == [] {
      NoTicks(CaughtUp(s));
    } else {
      var r := Next(s, steps[0]);
      StepCaughtUp(s, steps[0]);
      RunCaughtUp(r, steps[1..]);
      TickedTogether(CaughtUp(s), Elapsed(steps[0]), TotalElapsed(steps[1..]));
    }
  }

  /** Nothing but ticks. */
  function TicksAlone(n: nat): (steps: seq<Step>)
    ensures |steps| == n && AllTickOrSuspend(steps)
  {
    seq(n, _ => TickComes)
  }

  lemma {:induction false} TicksAloneRun(s: Sched, n: nat)
    requires Inv(s)
    ensures CanRun(s, TicksAlone(n)) && After(s, TicksAlone(n)).depth == s.depth && TotalElapsed(TicksAlone(n)) == n
    decreases n
  {
    hide Placed, ReadyInv, EventInv, CountInv, Timed, HeadBound, NothingDueAtWrap, Settled, TickInterrupt;
    if n > 0 {
      TickStep(s);
      TickKeepsDepth(s);
      TicksAloneRun(TickInterrupt(s), n - 1);
      assert TicksAlone(n)[1..] == TicksAlone(n - 1);
    }
  }

  lemma TickKeepsDepth(s: Sched)
    requires Inv(s)
    ensures TickInterrupt(s).depth == s.depth
  {
    if s.depth == 0 {
      TickExact(s);
    }
  }

  lemma RunningIsCaughtUp(s: Sched)
    requires Inv(s) && s.depth == 0
    ensures Items(s.events, PendingReady) == [] && CaughtUp(s) == Bare(s)
  {
  }

  /** Suspensions are transparent to ticks: from a state in which the scheduler runs, any interleaving of ticks with
      suspensions and resumptions, nested to any depth, that ends with the scheduler running leaves every list,
      in order, and every time as the same number of ticks leaves them when the scheduler is never suspended. */
  lemma SuspensionsAreTransparent(s: Sched, steps: seq<Step>)
    requires Inv(s) && s.depth == 0 && CanRun(s, steps) && AllTickOrSuspend(steps) && After(s, steps).depth == 0
    ensures var ticks := TicksAlone(TotalElapsed(steps));
            && CanRun(s, ticks)
            && After(s, steps).(yieldPending := false) == After(s, ticks).(yieldPending := false)
  {
    hide Core, Next, Enabled, Items, Ticked, CaughtUp;
    var ticks := TicksAlone(TotalElapsed(steps));
    RunningIsCaughtUp(s);
    TicksAloneRun(s, TotalElapsed(steps));
    RunCaughtUp(s, steps);
    RunCaughtUp(s, ticks);
    RunningIsCaughtUp(After(s, steps));
    RunningIsCaughtUp(After(s, ticks));
  }
}
