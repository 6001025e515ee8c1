/** Mutexes over whole runs: the accounts always balance, a recursive mutex is free exactly when its takes were
    given back, and a task that holds a mutex is at least as urgent as one that has waited for it since. */
module MutexRuns {

  import opened ListModel
  import opened KernelConfig
  import opened Mutexes

  ghost predicate Init(s: State) {
    && (forall t :: t in s.tcbs ==>
                      && s.tcbs[t].phase == Outside && s.tcbs[t].mutexesHeld == 0
                      && s.tcbs[t].priority == s.tcbs[t].basePriority < MAX_PRIORITIES
                      && s.tcbs[t].eventItemValue == MAX_PRIORITIES - s.tcbs[t].priority)
    && (forall m :: m in s.mutexes ==>
                      && s.mutexes[m].holder.None? && s.mutexes[m].count == 1
                      && s.mutexes[m].recursiveCallCount == 0 && s.mutexes[m].waiters == [])
  }

  ghost predicate CanRun(s: State, steps: seq<Step>)
    requires Inv(s)
    decreases |steps|
  {
    steps == [] || (Enabled(s, steps[0]) && (InvStep(s, steps[0]); CanRun(Next(s, steps[0]), steps[1..])))
  }

  ghost function After(s: State, steps: seq<Step>): State
    requires Inv(s) && CanRun(s, steps)
    decreases |steps|
  {
    if steps == [] then s else (InvStep(s, steps[0]); After(Next(s, steps[0]), steps[1..]))
  }

  lemma InitInv(s: State)
    requires Init(s)
    ensures Inv(s) && Orderly(s)
  {
    forall t | t in s.tcbs
      ensures HeldBy(s.mutexes, t) == {}
    {
    }
  }

  lemma {:induction false} InvAlways(s: State, steps: seq<Step>)
    requires Inv(s) && CanRun(s, steps)
    ensures Inv(After(s, steps))
    decreases |steps|
  {
    if steps != [] {
      InvStep(s, steps[0]);
      InvAlways(Next(s, steps[0]), steps[1..]);
    }
  }

  /** In every reachable state a task's count of held mutexes is the number of mutexes that name it as their
      holder, a mutex is available exactly when it has no holder, and a priority is lent only to a holder. */
  lemma AccountsBalance(s: State, steps: seq<Step>)
    requires Init(s)
    requires (InitInv(s); CanRun(s, steps))
    ensures (InitInv(s);
             var r := After(s, steps);
             && (forall t :: t in r.tcbs ==>
                               && r.tcbs[t].mutexesHeld == |HeldBy(r.mutexes, t)|
                               && r.tcbs[t].basePriority <= r.tcbs[t].priority
                               && (r.tcbs[t].mutexesHeld == 0 ==> r.tcbs[t].priority == r.tcbs[t].basePriority))
             && (forall m :: m in r.mutexes ==>
                               && r.mutexes[m].count <= 1
                               && (r.mutexes[m].count == 1 <==> r.mutexes[m].holder.None?)))
  {
    InitInv(s);
    InvAlways(s, steps);
  }

  // ---------- recursive mutexes ----------

  /** What a step adds to the takes of a recursive mutex that are still to be given back. */
  function Net1(s: State, step: Step, m: MutexId): int
    requires Inv(s) && Enabled(s, step)
  {
    match step
    case TakeAgain(t, m') => if m' == m then 1 else 0
    case Take(t) => if s.tcbs[t].phase.mutex == m then 1 else 0
    case GiveRecursive(t, m') => if m' == m && IsHeldBy(s, m, t) then -1 else 0
    case _ => 0
  }

  ghost function Net(s: State, steps: seq<Step>, m: MutexId): int
    requires Inv(s) && CanRun(s, steps)
    decreases |steps|
  {
    if steps == [] then 0
    else InvStep(s, steps[0]); Net1(s, steps[0], m) + Net(Next(s, steps[0]), steps[1..], m)
  }

  lemma RecursiveStep(s: State, step: Step, m: MutexId)
    requires Inv(s) && Enabled(s, step) && m in s.mutexes && s.mutexes[m].recursive
    ensures var r := Next(s, step);
            && m in r.mutexes && r.mutexes[m].recursive
            && r.mutexes[m].recursiveCallCount == s.mutexes[m].recursiveCallCount + Net1(s, step, m)
            && (s.mutexes[m].holder.Some? && r.mutexes[m].holder.Some? ==> r.mutexes[m].holder == s.mutexes[m].holder)
  {
    hide HeldBy, TcbInv, WaitersExact;
    HolderHolds(s, m);
  }

  /** A recursive mutex that is free to begin with is free after a run exactly when the run gave back every take. */
  lemma {:induction false} RecursiveBalance(s: State, steps: seq<Step>, m: MutexId)
    requires Inv(s) && CanRun(s, steps) && m in s.mutexes && s.mutexes[m].recursive
    ensures var r := After(s, steps);
            && m in r.mutexes && r.mutexes[m].recursive
            && r.mutexes[m].recursiveCallCount == s.mutexes[m].recursiveCallCount + Net(s, steps, m)
    ensures s.mutexes[m].holder.None? ==>
              (After(s, steps).mutexes[m].holder.None? <==> Net(s, steps, m) == 0)
    decreases |steps|
  {
    assert MutexInv(s.mutexes[m]);
    if steps != [] {
      InvStep(s, steps[0]);
      RecursiveStep(s, steps[0], m);
      RecursiveBalance(Next(s, steps[0]), steps[1..], m);
    }
    InvAlways(s, steps);
    assert MutexInv(After(s, steps).mutexes[m]);
  }

  /** Takes are still to be given back after every step of the run. */
  ghost predicate NeverBalanced(s: State, steps: seq<Step>, m: MutexId)
    requires Inv(s) && CanRun(s, steps)
    decreases |steps|
  {
    steps != [] ==>
      (InvStep(s, steps[0]);
       var r := Next(s, steps[0]);
       m in r.mutexes && r.mutexes[m].recursiveCallCount > 0 && NeverBalanced(r, steps[1..], m))
  }

  /** Until its takes are balanced a recursive mutex stays with the task that took it. */
  lemma {:induction false} HeldUntilBalanced(s: State, steps: seq<Step>, m: MutexId)
    requires Inv(s) && CanRun(s, steps) && m in s.mutexes && s.mutexes[m].recursive
    requires s.mutexes[m].recursiveCallCount > 0 && NeverBalanced(s, steps, m)
    ensures m in After(s, steps).mutexes && After(s, steps).mutexes[m].holder == s.mutexes[m].holder
    ensures s.mutexes[m].holder.Some?
    decreases |steps|
  {
    assert MutexInv(s.mutexes[m]);
    if steps != [] {
      InvStep(s, steps[0]);
      RecursiveStep(s, steps[0], m);
      HeldUntilBalanced(Next(s, steps[0]), steps[1..], m);
    }
  }

  // ---------- priority inheritance ----------

  /** The waiting lists are in order of priority, and whoever is on one holds nothing. */
  ghost predicate Orderly(s: State) {
    && (forall t :: t in s.tcbs && !s.tcbs[t].phase.InGroup? ==>
                      s.tcbs[t].eventItemValue == MAX_PRIORITIES - s.tcbs[t].priority)
    && (forall t :: t in s.tcbs && s.tcbs[t].phase.Waiting? ==> s.tcbs[t].mutexesHeld == 0)
    && (forall m :: m in s.mutexes ==> Descending(s.tcbs, s.mutexes[m].waiters))
  }

  predicate NotBelow(tcbs: map<Task, Tcb>, t: Task, u: Task) {
    t in tcbs && u in tcbs && tcbs[t].priority >= tcbs[u].priority
  }

  ghost predicate Descending(tcbs: map<Task, Tcb>, waiters: seq<Task>) {
    forall i, j :: 0 <= i < j < |waiters| ==> NotBelow(tcbs, waiters[i], waiters[j])
  }

  /** No priority is set from outside, and a task that waits for a mutex owns none. */
  predicate Plain(s: State, step: Step) {
    match step
    case SetPriority(t, p) => false
    case Block(t) => t in s.tcbs && s.tcbs[t].mutexesHeld == 0
    case _ => true
  }

  /** Changing a task that waits nowhere leaves the waiting lists in order. */
  lemma DescendingElsewhere(before: map<Task, Tcb>, after: map<Task, Tcb>, waiters: seq<Task>)
    requires Descending(before, waiters)
    requires forall t :: t in waiters && t in before ==> t in after && after[t].priority == before[t].priority
    ensures Descending(after, waiters)
  {
    forall i, j | 0 <= i < j < |waiters|
      ensures NotBelow(after, waiters[i], waiters[j])
    {
      assert waiters[i] in waiters && waiters[j] in waiters;
      assert NotBelow(before, waiters[i], waiters[j]);
    }
  }

  /** One task changes its priority, or leaves its waiting list; it is on none afterwards. */
  lemma OrderlyElsewhere(s: State, r: State, t: Task)
    requires Inv(s) && Inv(r) && Orderly(s) && t in s.tcbs
    requires r.tcbs.Keys == s.tcbs.Keys && r.mutexes.Keys == s.mutexes.Keys
    requires forall u :: u in s.tcbs && u != t ==> r.tcbs[u] == s.tcbs[u]
    requires forall m :: m in s.mutexes ==> r.mutexes[m].waiters == s.mutexes[m].waiters
    requires r.tcbs[t].phase.InGroup? || r.tcbs[t].eventItemValue == MAX_PRIORITIES - r.tcbs[t].priority
    requires !r.tcbs[t].phase.Waiting?
    ensures Orderly(r)
  {
    hide Accounting, Descending, NoDuplicates;
    forall m | m in s.mutexes
      ensures Descending(r.tcbs, r.mutexes[m].waiters)
    {
      DescendingElsewhere(s.tcbs, r.tcbs, s.mutexes[m].waiters);
    }
  }

  lemma DescendingInsert(tcbs: map<Task, Tcb>, w: seq<Task>, k: nat, t: Task)
    requires Descending(tcbs, w) && t in tcbs && k <= |w|
    requires forall u :: u in w ==> u in tcbs
    requires forall i :: 0 <= i < k ==> tcbs[w[i]].priority >= tcbs[t].priority
    requires k < |w| ==> tcbs[t].priority >= tcbs[w[k]].priority
    ensures Descending(tcbs, InsertAt(w, k, t))
  {
    var r := InsertAt(w, k, t);
    forall i | 0 <= i < |r|
      ensures r[i] == if i < k then w[i] else if i == k then t else w[i - 1]
    {
    }
    forall j | k <= j < |w|
      ensures tcbs[t].priority >= tcbs[w[j]].priority
    {
      assert k < j ==> NotBelow(tcbs, w[k], w[j]);
    }
  }

  lemma EnlistOrderly(s: State, t: Task, m: MutexId, inherited: bool)
    requires Inv(s) && Orderly(s) && t in s.tcbs && m in s.mutexes && s.tcbs[t].phase.Trying?
             && s.tcbs[t].mutexesHeld == 0
    ensures Orderly(Enlist(s, t, m, inherited))
  {
    hide Accounting, NoDuplicates;
    var r, w := Enlist(s, t, m, inherited), s.mutexes[m].waiters;
    var k := PlaceAmong(s.tcbs, w, s.tcbs[t].eventItemValue);
    DescendingInsert(s.tcbs, w, k, t);
    hide Descending, InsertAt, PlaceAmong;
    DescendingElsewhere(s.tcbs, r.tcbs, InsertAt(w, k, t));
    forall m' | m' in s.mutexes && m' != m
      ensures Descending(r.tcbs, r.mutexes[m'].waiters)
    {
      DescendingElsewhere(s.tcbs, r.tcbs, s.mutexes[m'].waiters);
    }
  }

  lemma UnwaitOrderly(s: State, t: Task)
    requires Inv(s) && Orderly(s) && t in s.tcbs && s.tcbs[t].phase.Waiting?
    ensures Orderly(Unwait(s, t))
  {
    var m := s.tcbs[t].phase.mutex;
    var r, w := Unwait(s, t), s.mutexes[m].waiters;
    var k := IndexOf(w, t);
    assert Descending(s.tcbs, w);
    forall i | 0 <= i < |w| - 1
      ensures RemoveAt(w, k)[i] == w[if i < k then i else i + 1]
    {
    }
    assert Descending(s.tcbs, RemoveAt(w, k));
    DescendingElsewhere(s.tcbs, r.tcbs, RemoveAt(w, k));
    forall m' | m' in s.mutexes && m' != m
      ensures Descending(r.tcbs, r.mutexes[m'].waiters)
    {
      DescendingElsewhere(s.tcbs, r.tcbs, s.mutexes[m'].waiters);
    }
  }

  /** A holder waits nowhere. */
  lemma HolderRuns(s: State, m: MutexId)
    requires Inv(s) && Orderly(s) && m in s.mutexes && s.mutexes[m].holder.Some?
    ensures !s.tcbs[s.mutexes[m].holder.value].phase.Waiting?
  {
    HolderHolds(s, m);
  }

  lemma LendOrderly(s: State, m: MutexId, t: Task)
    requires Inv(s) && Orderly(s) && m in s.mutexes && t in s.tcbs
    ensures Inv(LendPriority(s, m, t)) && Orderly(LendPriority(s, m, t))
  {
    LendKeeps(s, m, t);
    if s.mutexes[m].holder.Some? {
      HolderRuns(s, m);
      OrderlyElsewhere(s, LendPriority(s, m, t), s.mutexes[m].holder.value);
    }
  }

  lemma TakeBackOrderly(s: State, m: MutexId)
    requires Inv(s) && Orderly(s) && m in s.mutexes
    ensures Inv(TakeBackPriority(s, m)) && Orderly(TakeBackPriority(s, m))
  {
    TakeBackKeeps(s, m);
    if s.mutexes[m].holder.Some? {
      HolderRuns(s, m);
      OrderlyElsewhere(s, TakeBackPriority(s, m), s.mutexes[m].holder.value);
    }
  }

  lemma BlockOrderly(s: State, t: Task)
    requires Inv(s) && Orderly(s) && Enabled(s, Block(t)) && s.tcbs[t].mutexesHeld == 0
    ensures Orderly(Next(s, Block(t)))
  {
    var m := s.tcbs[t].phase.mutex;
    LendOrderly(s, m, t);
    HolderHolds(s, m);
    var holder := s.mutexes[m].holder;
    EnlistOrderly(LendPriority(s, m, t), t, m, holder.Some? && InheritanceOccurred(s.tcbs[holder.value], s.tcbs[t]));
  }

  lemma PhaseOrderly(s: State, t: Task, phase: Phase)
    requires Inv(s) && Orderly(s) && t in s.tcbs && !s.tcbs[t].phase.Waiting? && !phase.Waiting?
    requires Known(phase, s.mutexes) && !s.tcbs[t].phase.InGroup? && !phase.InGroup?
    ensures Orderly(SetPhase(s, t, phase))
  {
    PhaseKeeps(s, t, phase);
    OrderlyElsewhere(s, SetPhase(s, t, phase), t);
  }

  lemma TakeOrderly(s: State, t: Task)
    requires Inv(s) && Orderly(s) && IsTrying(s, t, true) && Inv(DoTake(s, t))
    ensures Orderly(DoTake(s, t))
  {
    hide Accounting, WaitersExact, Descending;
    assert s.tcbs[t].eventItemValue == MAX_PRIORITIES - s.tcbs[t].priority;
    hide Orderly;
    OrderlyElsewhere(s, DoTake(s, t), t);
  }

  lemma CountOrderly(s: State, m: MutexId, x: Mutex)
    requires Orderly(s) && m in s.mutexes && x.waiters == s.mutexes[m].waiters
    ensures Orderly(SetMutex(s, m, x))
  {
  }

  lemma ReleaseOrderly(s: State, t: Task, m: MutexId)
    requires Inv(s) && Orderly(s) && t in s.tcbs && IsHeldBy(s, m, t) && s.tcbs[t].phase.Outside?
    ensures Orderly(Release(s, t, m))
  {
    ReleaseKeeps(s, t, m);
    OrderlyElsewhere(s, Release(s, t, m), t);
  }

  lemma SettleOrderly(s: State, t: Task)
    requires Inv(s) && Orderly(s) && Enabled(s, Settle(t))
    ensures Orderly(Next(s, Settle(t)))
  {
    TakeBackOrderly(s, s.tcbs[t].phase.mutex);
    PhaseOrderly(TakeBackPriority(s, s.tcbs[t].phase.mutex), t, Outside);
  }

  lemma GroupOrderly(s: State, t: Task, step: Step)
    requires Inv(s) && Orderly(s) && Enabled(s, step)
    requires step == LeaveGroup(t) || (step.EnterGroup? && step.t == t)
    ensures Orderly(Next(s, step))
  {
    InvStep(s, step);
    OrderlyElsewhere(s, Next(s, step), t);
  }

  lemma OrderlyStep(s: State, step: Step)
    requires Inv(s) && Orderly(s) && Enabled(s, step) && Plain(s, step)
    ensures Orderly(Next(s, step))
  {
    hide Orderly, Accounting;
    match step
    case Block(t) => BlockOrderly(s, t);
    case Wake(m) => HeadWaits(s, m); UnwaitOrderly(s, s.mutexes[m].waiters[0]);
    case Expire(t) => UnwaitOrderly(s, t);
    case Settle(t) => SettleOrderly(s, t);
    case Call(t, m) => PhaseOrderly(s, t, Trying(m, false));
    case TakeAgain(t, m) => CountOrderly(s, m, Next(s, step).mutexes[m]);
    case Take(t) => TakeKeeps(s, t); TakeOrderly(s, t);
    case Fail(t) => PhaseOrderly(s, t, Outside);
    case GiveUp(t) =>
      PhaseOrderly(s, t, if s.tcbs[t].phase.inherited then GivingUp(s.tcbs[t].phase.mutex) else Outside);
    case TryOnce(t) => PhaseOrderly(s, t, Trying(s.tcbs[t].phase.mutex, false));
    case EnterGroup(t, value) => GroupOrderly(s, t, step);
    case LeaveGroup(t) => GroupOrderly(s, t, step);
    case Give(t, m) => ReleaseOrderly(s, t, m);
    case GiveRecursive(t, m) =>
      if IsHeldBy(s, m, t) {
        if s.mutexes[m].recursiveCallCount == 1 {
          ReleaseOrderly(s, t, m);
        } else {
          CountOrderly(s, m, Next(s, step).mutexes[m]);
        }
      }
  }

  /** The task `w` waits for the mutex `m` and `h` holds it. */
  ghost predicate WaitsFor(s: State, w: Task, m: MutexId, h: Task) {
    m in s.mutexes && s.mutexes[m].holder == Some(h) && w in s.mutexes[m].waiters
  }

  ghost predicate Outranks(s: State, h: Task, w: Task) {
    h in s.tcbs && w in s.tcbs && s.tcbs[h].priority >= s.tcbs[w].priority
  }

  /** To wait for a mutex is to lend one's priority to its holder. */
  lemma BlockOutranks(s: State, w: Task)
    requires Inv(s) && Orderly(s) && Enabled(s, Block(w)) && s.tcbs[w].mutexesHeld == 0
    ensures var m := s.tcbs[w].phase.mutex;
            && s.mutexes[m].holder.Some?
            && WaitsFor(Next(s, Block(w)), w, m, s.mutexes[m].holder.value)
            && Outranks(Next(s, Block(w)), s.mutexes[m].holder.value, w)
  {
    var m := s.tcbs[w].phase.mutex;
    InvStep(s, Block(w));
    HolderHolds(s, m);
    assert MutexInv(s.mutexes[m]);
    var r := Next(s, Block(w));
    assert r.tcbs[w].phase.Waiting? && r.tcbs[w].phase.mutex == m;
  }

  /** Who holds two mutexes has a count of at least two. */
  lemma HoldsBoth(s: State, m: MutexId, m': MutexId, h: Task)
    requires Inv(s) && IsHeldBy(s, m, h) && IsHeldBy(s, m', h) && h in s.tcbs && m != m'
    ensures s.tcbs[h].mutexesHeld >= 2
  {
    var held := HeldBy(s.mutexes, h);
    assert held == held - {m} - {m'} + {m} + {m'};
  }

  lemma TcbOf(s: State, t: Task)
    requires Inv(s) && t in s.tcbs
    ensures TcbInv(s.tcbs[t])
  {
  }

  lemma WaiterWaits(s: State, w: Task, m: MutexId)
    requires Inv(s) && m in s.mutexes && w in s.mutexes[m].waiters
    ensures w in s.tcbs && s.tcbs[w].phase.Waiting? && s.tcbs[w].phase.mutex == m
  {
  }

  /** The head of the waiting list is as urgent as any task on it. */
  lemma HeadIsHighest(s: State, m: MutexId, w: Task)
    requires Inv(s) && Orderly(s) && m in s.mutexes && w in s.mutexes[m].waiters
    ensures HighestWaiting(s, m) >= s.tcbs[w].priority
  {
    var waiters := s.mutexes[m].waiters;
    var k :| 0 <= k < |waiters| && waiters[k] == w;
    assert waiters[0] in waiters;
    assert Descending(s.tcbs, waiters);
  }

  /** The step by which a waiter comes to outrank the holder of its mutex: another task waits for a mutex of the
      waiter's own, a waiter that timed out leaves the holder too little or the waiter too much, or a priority is
      set. */
  predicate Breaks(s: State, step: Step, w: Task, h: Task)
    requires Inv(s) && Enabled(s, step) && h in s.tcbs && w in s.tcbs
  {
    match step
    case Block(t) =>
      s.mutexes[s.tcbs[t].phase.mutex].holder == Some(w) && s.tcbs[t].priority > s.tcbs[h].priority
    case Settle(t) =>
      var m := s.tcbs[t].phase.mutex;
      var justified := HighestWaiting(s, m);
      || (IsHeldBy(s, m, h) && s.tcbs[h].mutexesHeld == 1
          && Max(s.tcbs[h].basePriority, justified) < s.tcbs[w].priority)
      || (IsHeldBy(s, m, w) && s.tcbs[w].mutexesHeld == 1
          && Max(s.tcbs[w].basePriority, justified) > s.tcbs[h].priority)
    case SetPriority(t, p) =>
      || (t == h && s.tcbs[h].basePriority == s.tcbs[h].priority && p < s.tcbs[w].priority)
      || (t == w && p > s.tcbs[h].priority)
    case _ => false
  }

  lemma SettleExact(s: State, t: Task, w: Task, h: Task)
    requires Inv(s) && Enabled(s, Settle(t)) && h != w && Outranks(s, h, w)
    ensures Outranks(Next(s, Settle(t)), h, w) <==> !Breaks(s, Settle(t), w, h)
  {
    hide WaitersExact, HeldBy, HighestWaiting;
    var m := s.tcbs[t].phase.mutex;
    HighestWaitingInRange(s, m);
    HolderHolds(s, m);
  }

  lemma ReleaseOutranks(s: State, t: Task, m': MutexId, w: Task, m: MutexId, h: Task)
    requires Inv(s) && t in s.tcbs && t != w && IsHeldBy(s, m', t) && WaitsFor(s, w, m, h) && Outranks(s, h, w)
    requires m' != m
    ensures Outranks(Release(s, t, m'), h, w)
  {
    HolderHolds(s, m');
    if t == h {
      HoldsBoth(s, m, m', h);
    }
  }

  lemma GiveOutranks(s: State, step: Step, m': MutexId, w: Task, m: MutexId, h: Task)
    requires Inv(s) && Enabled(s, step) && (step.Give? || step.GiveRecursive?) && step.m == m'
    requires WaitsFor(s, w, m, h) && WaitsFor(Next(s, step), w, m, h) && Outranks(s, h, w)
    ensures Outranks(Next(s, step), h, w)
  {
    hide WaitersExact, HeldBy, Known, Accounting, HighestWaiting;
    WaiterWaits(s, w, m);
    HolderHolds(s, m');
    if IsHeldBy(s, m', step.t) && (step.Give? || s.mutexes[m'].recursiveCallCount == 1) {
      ReleaseOutranks(s, step.t, m', w, m, h);
    }
  }

  lemma BlockExact(s: State, t: Task, w: Task, h: Task)
    requires Inv(s) && Enabled(s, Block(t)) && h != w && Outranks(s, h, w)
    ensures Outranks(Next(s, Block(t)), h, w) <==> !Breaks(s, Block(t), w, h)
  {
    hide WaitersExact, HeldBy, Known, Accounting, InsertAt, PlaceAmong;
    HolderHolds(s, s.tcbs[t].phase.mutex);
  }

  /** Whatever the state, and whatever the step through which `w` goes on waiting and `h` goes on holding: the holder
      outranks the waiter afterwards exactly when the step is none of those that break it. */
  lemma StepOutranksExact(s: State, step: Step, w: Task, m: MutexId, h: Task)
    requires Inv(s) && Enabled(s, step) && h != w
    requires WaitsFor(s, w, m, h) && WaitsFor(Next(s, step), w, m, h)
    requires Outranks(s, h, w)
    ensures Outranks(Next(s, step), h, w) <==> !Breaks(s, step, w, h)
  {
    hide WaitersExact, HeldBy, Known, Accounting, HighestWaiting, InsertAt, PlaceAmong, Without, Release;
    WaiterWaits(s, w, m);
    HolderHolds(s, m);
    match step
    case Settle(t) => SettleExact(s, t, w, h);
    case Give(t, m') => GiveOutranks(s, step, m', w, m, h);
    case GiveRecursive(t, m') => GiveOutranks(s, step, m', w, m, h);
    case Block(t) => BlockExact(s, t, w, h);
    case Wake(m') => HeadWaits(s, m');
    case SetPriority(t, p) => TcbOf(s, w); TcbOf(s, h);
    case _ =>
  }

  /** Through a run in which `w` goes on waiting for the mutex and `h` goes on holding it. */
  ghost predicate WaitsThroughout(s: State, steps: seq<Step>, w: Task, m: MutexId, h: Task)
    requires Inv(s) && CanRun(s, steps)
    decreases |steps|
  {
    && WaitsFor(s, w, m, h)
    && (steps != [] ==> (InvStep(s, steps[0]); WaitsThroughout(Next(s, steps[0]), steps[1..], w, m, h)))
  }

  ghost predicate OutranksAlways(s: State, steps: seq<Step>, w: Task, h: Task)
    requires Inv(s) && CanRun(s, steps)
    decreases |steps|
  {
    && Outranks(s, h, w)
    && (steps != [] ==> (InvStep(s, steps[0]); OutranksAlways(Next(s, steps[0]), steps[1..], w, h)))
  }

  ghost predicate NothingBreaks(s: State, steps: seq<Step>, w: Task, h: Task)
    requires Inv(s) && CanRun(s, steps)
    decreases |steps|
  {
    steps != [] ==>
      && h in s.tcbs && w in s.tcbs && !Breaks(s, steps[0], w, h)
      && (InvStep(s, steps[0]); NothingBreaks(Next(s, steps[0]), steps[1..], w, h))
  }

  /** Over any run at all, priorities set from outside and waiters that own mutexes included: the holder outranks the
      waiter in every state of it exactly when no step of it breaks that. */
  lemma {:induction false} RunOutranksExact(s: State, steps: seq<Step>, w: Task, m: MutexId, h: Task)
    requires Inv(s) && CanRun(s, steps) && WaitsThroughout(s, steps, w, m, h)
    requires Outranks(s, h, w) && h != w
    ensures OutranksAlways(s, steps, w, h) <==> NothingBreaks(s, steps, w, h)
    decreases |steps|
  {
    hide Breaks, Next, Enabled, Inv;
    if steps != [] {
      var r := (InvStep(s, steps[0]); Next(s, steps[0]));
      StepOutranksExact(s, steps[0], w, m, h);
      if Outranks(r, h, w) {
        RunOutranksExact(r, steps[1..], w, m, h);
      }
    }
  }

  /** Where the waiting lists are in order and whoever waits owns nothing, no plain step breaks it. */
  lemma PlainStepBreaksNothing(s: State, step: Step, w: Task, m: MutexId, h: Task)
    requires Inv(s) && Orderly(s) && Enabled(s, step) && Plain(s, step)
    requires WaitsFor(s, w, m, h)
    ensures !Breaks(s, step, w, h)
  {
    assert s.tcbs[w].phase.Waiting? && s.tcbs[w].mutexesHeld == 0;
    match step
    case Settle(t) =>
      var m' := s.tcbs[t].phase.mutex;
      HeadIsHighest(s, m, w);
      if IsHeldBy(s, m', h) && m' != m {
        HoldsBoth(s, m, m', h);
      }
    case Block(t) => HolderHolds(s, s.tcbs[t].phase.mutex);
    case _ =>
  }

  lemma StepKeepsOutranking(s: State, step: Step, w: Task, m: MutexId, h: Task)
    requires Inv(s) && Orderly(s) && Enabled(s, step) && Plain(s, step)
    requires WaitsFor(s, w, m, h) && WaitsFor(Next(s, step), w, m, h)
    requires Outranks(s, h, w)
    ensures Outranks(Next(s, step), h, w)
  {
    HolderHolds(s, m);
    assert s.tcbs[w].phase.Waiting? && s.tcbs[w].mutexesHeld == 0;
    PlainStepBreaksNothing(s, step, w, m, h);
    StepOutranksExact(s, step, w, m, h);
  }

  /** A run of plain steps through which `h` goes on holding the mutex and `w` goes on waiting for it. */
  ghost predicate HeldThroughout(s: State, steps: seq<Step>, w: Task, m: MutexId, h: Task)
    requires Inv(s) && CanRun(s, steps)
    decreases |steps|
  {
    && WaitsFor(s, w, m, h)
    && (steps != [] ==>
          Plain(s, steps[0]) && (InvStep(s, steps[0]); HeldThroughout(Next(s, steps[0]), steps[1..], w, m, h)))
  }

  ghost predicate PlainRun(s: State, steps: seq<Step>)
    requires Inv(s) && CanRun(s, steps)
    decreases |steps|
  {
    steps != [] ==> Plain(s, steps[0]) && (InvStep(s, steps[0]); PlainRun(Next(s, steps[0]), steps[1..]))
  }

  lemma {:induction false} OrderlyAlways(s: State, steps: seq<Step>)
    requires Inv(s) && Orderly(s) && CanRun(s, steps) && PlainRun(s, steps)
    ensures Inv(After(s, steps)) && Orderly(After(s, steps))
    decreases |steps|
  {
    if steps != [] {
      InvStep(s, steps[0]);
      OrderlyStep(s, steps[0]);
      OrderlyAlways(Next(s, steps[0]), steps[1..]);
    }
  }

  lemma {:induction false} OutranksThroughout(s: State, steps: seq<Step>, w: Task, m: MutexId, h: Task)
    requires Inv(s) && Orderly(s) && CanRun(s, steps) && HeldThroughout(s, steps, w, m, h)
    requires Outranks(s, h, w)
    ensures Outranks(After(s, steps), h, w)
    decreases |steps|
  {
    if steps != [] {
      InvStep(s, steps[0]);
      OrderlyStep(s, steps[0]);
      StepKeepsOutranking(s, steps[0], w, m, h);
      OutranksThroughout(Next(s, steps[0]), steps[1..], w, m, h);
    }
  }

  /** From any initial state and after any plain run, a task `w` comes to wait for a mutex. For as long as it
      waits and the same task holds the mutex, that task is at least as urgent as `w`, whatever other mutexes
      it holds, takes and gives, and whichever other tasks come to wait and time out. */
  lemma HolderOutranksWaiter(s: State, before: seq<Step>, w: Task, after: seq<Step>)
    requires Init(s)
    requires (InitInv(s); CanRun(s, before) && PlainRun(s, before))
    requires (InitInv(s); InvAlways(s, before);
              var b := After(s, before);
              && Enabled(b, Block(w)) && Plain(b, Block(w))
              && b.mutexes[b.tcbs[w].phase.mutex].holder.Some?
              && (InvStep(b, Block(w));
                  && CanRun(Next(b, Block(w)), after)
                  && HeldThroughout(Next(b, Block(w)), after, w, b.tcbs[w].phase.mutex,
                                    b.mutexes[b.tcbs[w].phase.mutex].holder.value)))
    ensures (InitInv(s); InvAlways(s, before);
             var b := After(s, before);
             InvStep(b, Block(w));
             Outranks(After(Next(b, Block(w)), after), b.mutexes[b.tcbs[w].phase.mutex].holder.value, w))
  {
    InitInv(s);
    OrderlyAlways(s, before);
    var b := After(s, before);
    InvStep(b, Block(w));
    OrderlyStep(b, Block(w));
    BlockOutranks(b, w);
    var m := b.tcbs[w].phase.mutex;
    OutranksThroughout(Next(b, Block(w)), after, w, m, b.mutexes[m].holder.value);
  }

  // ---------- the limit of it ----------

  lemma {:induction false} Extend(s: State, steps: seq<Step>, step: Step)
    requires Inv(s) && CanRun(s, steps)
    requires (InvAlways(s, steps); Enabled(After(s, steps), step))
    ensures CanRun(s, steps + [step])
    ensures (InvAlways(s, steps); After(s, steps + [step]) == Next(After(s, steps), step))
    decreases |steps|
  {
    if steps == [] {
      InvStep(s, step);
    } else {
      InvStep(s, steps[0]);
      Extend(Next(s, steps[0]), steps[1..], step);
      assert (steps + [step])[1..] == steps[1..] + [step];
    }
  }

  // A low task 0 takes mutex 0, a middle task 1 takes mutex 1 and then waits for mutex 0.

  const FREE: Mutex := Mutex(false, 1, None, 0, [])
  const HIGH: Tcb := Tcb(7, 7, 0, 25, Outside)
  const LOW: Tcb := Tcb(1, 1, 0, 31, Outside)
  const MIDDLE: Tcb := Tcb(3, 3, 0, 29, Outside)
  const LENT: Tcb := Tcb(3, 1, 1, 29, Outside)

  const START: State := State(map[0 := LOW, 1 := MIDDLE, 2 := HIGH], map[0 := FREE, 1 := FREE])
  const OWNED: State :=
    State(map[0 := LOW.(mutexesHeld := 1), 1 := MIDDLE.(mutexesHeld := 1), 2 := HIGH],
          map[0 := Mutex(false, 0, Some(0), 0, []), 1 := Mutex(false, 0, Some(1), 0, [])])
  const CHAINED: State :=
    State(map[0 := LENT, 1 := Tcb(3, 3, 1, 29, Waiting(0, true)), 2 := HIGH],
          map[0 := Mutex(false, 0, Some(0), 0, [1]), 1 := Mutex(false, 0, Some(1), 0, [])])

  lemma RunOfTwo(s: State, a: Step, b: Step, r: State)
    requires Inv(s) && Enabled(s, a)
    requires (InvStep(s, a); Enabled(Next(s, a), b) && Next(Next(s, a), b) == r)
    ensures CanRun(s, [a, b]) && After(s, [a, b]) == r
  {
    Extend(s, [], a);
    InvStep(s, a);
    Extend(s, [a], b);
    assert [a] + [b] == [a, b];
    assert [] + [a] == [a];
  }

  lemma {:induction false} RunOn(s: State, first: seq<Step>, second: seq<Step>)
    requires Inv(s) && CanRun(s, first)
    requires (InvAlways(s, first); CanRun(After(s, first), second))
    ensures CanRun(s, first + second)
    ensures (InvAlways(s, first); After(s, first + second) == After(After(s, first), second))
    decreases |first|
  {
    hide Next, Inv, Enabled;
    if first == [] {
      assert first + second == second;
    } else {
      InvStep(s, first[0]);
      RunOn(Next(s, first[0]), first[1..], second);
      assert (first + second)[1..] == first[1..] + second;
    }
  }

  lemma LowTakes()
    requires Inv(START)
    ensures CanRun(START, [Call(0, 0), Take(0)])
    ensures After(START, [Call(0, 0), Take(0)]) == State(OWNED.tcbs[1 := MIDDLE], OWNED.mutexes[1 := FREE])
  {
    hide WaitersExact, Accounting, CanRun, After;
    InvStep(START, Call(0, 0));
    RunOfTwo(START, Call(0, 0), Take(0), State(OWNED.tcbs[1 := MIDDLE], OWNED.mutexes[1 := FREE]));
  }

  lemma StartIsInitial()
    ensures Init(START) && Inv(START)
  {
    InitInv(START);
  }

  lemma MiddleTakes(s: State)
    requires Inv(s) && s == State(OWNED.tcbs[1 := MIDDLE], OWNED.mutexes[1 := FREE])
    ensures CanRun(s, [Call(1, 1), Take(1)]) && After(s, [Call(1, 1), Take(1)]) == OWNED
  {
    hide WaitersExact, Accounting, CanRun, After;
    InvStep(s, Call(1, 1));
    RunOfTwo(s, Call(1, 1), Take(1), OWNED);
  }

  lemma MiddleWaits()
    requires Inv(OWNED)
    ensures CanRun(OWNED, [Call(1, 0), Block(1)]) && After(OWNED, [Call(1, 0), Block(1)]) == CHAINED
  {
    hide WaitersExact, Accounting, CanRun, After;
    InvStep(OWNED, Call(1, 0));
    assert InsertAt<Task>([], 0, 1) == [1];
    RunOfTwo(OWNED, Call(1, 0), Block(1), CHAINED);
  }

  lemma HighWaits(r: State)
    requires Inv(CHAINED)
    requires Enabled(CHAINED, Call(2, 1))
    requires (InvStep(CHAINED, Call(2, 1));
              Enabled(Next(CHAINED, Call(2, 1)), Block(2)) && r == Next(Next(CHAINED, Call(2, 1)), Block(2)))
    ensures r.tcbs[0] == LENT && 1 in r.tcbs && r.tcbs[1].priority == 7 && WaitsFor(r, 1, 0, 0)
  {
    InvStep(CHAINED, Call(2, 1));
  }

  /** A waiting task that owns a mutex of its own can be lent a priority while it waits, and the holder it waits
      for is lent nothing then: priorities are not passed on along a chain of mutexes. */
  lemma OwningWaiterOutranksItsHolder() returns (s: State, before: seq<Step>, after: seq<Step>)
    ensures Init(s)
    ensures (InitInv(s);
             && CanRun(s, before) && WaitsFor(After(s, before), 1, 0, 0) && Outranks(After(s, before), 0, 1)
             && CanRun(s, before + after) && WaitsFor(After(s, before + after), 1, 0, 0)
             && !Outranks(After(s, before + after), 0, 1))
    ensures after == [Call(2, 1), Block(2)]
  {
    hide Next, Inv, Init;
    s, before, after := START, [Call(0, 0), Take(0)] + [Call(1, 1), Take(1)] + [Call(1, 0), Block(1)],
        [Call(2, 1), Block(2)];
    StartIsInitial();
    LowTakes();
    InvAlways(s, [Call(0, 0), Take(0)]);
    MiddleTakes(After(s, [Call(0, 0), Take(0)]));
    RunOn(s, [Call(0, 0), Take(0)], [Call(1, 1), Take(1)]);
    InvAlways(s, [Call(0, 0), Take(0)] + [Call(1, 1), Take(1)]);
    MiddleWaits();
    RunOn(s, [Call(0, 0), Take(0)] + [Call(1, 1), Take(1)], [Call(1, 0), Block(1)]);
    InvAlways(s, before);
    ChainedThenHigh();
    RunOn(s, before, after);
  }

  lemma ChainedThenHigh()
    requires Inv(CHAINED)
    ensures WaitsFor(CHAINED, 1, 0, 0) && Outranks(CHAINED, 0, 1)
    ensures CanRun(CHAINED, [Call(2, 1), Block(2)])
    ensures var r := After(CHAINED, [Call(2, 1), Block(2)]);
            r.tcbs[0] == LENT && 1 in r.tcbs && r.tcbs[1].priority == 7 && WaitsFor(r, 1, 0, 0)
  {
    InvStep(CHAINED, Call(2, 1));
    var r := Next(Next(CHAINED, Call(2, 1)), Block(2));
    RunOfTwo(CHAINED, Call(2, 1), Block(2), r);
    HighWaits(r);
  }

  // ---------- the other two ways ----------

  // Tasks 1 and 3 wait for the mutex of task 0 and then task 2 does, which gives up; meanwhile a priority is set.

  const FOURTH: Tcb := Tcb(2, 2, 0, 30, Outside)
  const WAITS: Phase := Waiting(0, true)

  /** Four tasks and one mutex. */
  function Four(zero: Tcb, one: Tcb, two: Tcb, three: Tcb, held: bool, waiters: seq<Task>): State {
    State(map[0 := zero, 1 := one, 2 := two, 3 := three],
          map[0 := if held then Mutex(false, 0, Some(0), 0, waiters) else Mutex(false, 1, None, 0, waiters)])
  }

  const ALONE: State := Four(LOW, MIDDLE, HIGH, FOURTH, false, [])
  const TAKEN: State := Four(LOW.(mutexesHeld := 1), MIDDLE, HIGH, FOURTH, true, [])
  const ONE_WAITS: State := Four(LENT, MIDDLE.(phase := WAITS), HIGH, FOURTH, true, [1])
  const TWO_WAIT: State := Four(LENT, MIDDLE.(phase := WAITS), HIGH, FOURTH.(phase := WAITS), true, [1, 3])
  const THREE_WAIT: State :=
    Four(Tcb(7, 1, 1, 25, Outside), MIDDLE.(phase := WAITS), HIGH.(phase := WAITS), FOURTH.(phase := WAITS), true,
         [2, 1, 3])
  const RAISED: State :=
    Four(Tcb(7, 1, 1, 25, Outside), MIDDLE.(phase := WAITS), HIGH.(phase := Trying(0, true)), Tcb(5, 5, 0, 27, WAITS),
         true, [1, 3])
  const SETTLING: State :=
    Four(Tcb(7, 1, 1, 25, Outside), MIDDLE.(phase := WAITS), HIGH.(phase := GivingUp(0)), Tcb(5, 5, 0, 27, WAITS),
         true, [1, 3])

  lemma AloneIsInitial()
    ensures Init(ALONE) && Inv(ALONE)
  {
    InitInv(ALONE);
  }

  lemma ZeroTakes()
    requires Inv(ALONE)
    ensures CanRun(ALONE, [Call(0, 0), Take(0)]) && After(ALONE, [Call(0, 0), Take(0)]) == TAKEN
  {
    hide WaitersExact, Accounting, CanRun, After;
    InvStep(ALONE, Call(0, 0));
    RunOfTwo(ALONE, Call(0, 0), Take(0), TAKEN);
  }

  lemma OneWaits()
    requires Inv(TAKEN)
    ensures CanRun(TAKEN, [Call(1, 0), Block(1)]) && After(TAKEN, [Call(1, 0), Block(1)]) == ONE_WAITS
  {
    hide WaitersExact, Accounting, CanRun, After;
    InvStep(TAKEN, Call(1, 0));
    assert InsertAt<Task>([], 0, 1) == [1];
    RunOfTwo(TAKEN, Call(1, 0), Block(1), ONE_WAITS);
  }

  lemma FourthWaits()
    requires Inv(ONE_WAITS)
    ensures CanRun(ONE_WAITS, [Call(3, 0), Block(3)]) && After(ONE_WAITS, [Call(3, 0), Block(3)]) == TWO_WAIT
  {
    hide WaitersExact, Accounting, CanRun, After;
    InvStep(ONE_WAITS, Call(3, 0));
    assert InsertAt<Task>([1], 1, 3) == [1, 3];
    RunOfTwo(ONE_WAITS, Call(3, 0), Block(3), TWO_WAIT);
  }

  lemma HighestWaits()
    requires Inv(TWO_WAIT)
    ensures CanRun(TWO_WAIT, [Call(2, 0), Block(2)]) && After(TWO_WAIT, [Call(2, 0), Block(2)]) == THREE_WAIT
  {
    hide WaitersExact, Accounting, CanRun, After;
    InvStep(TWO_WAIT, Call(2, 0));
    assert InsertAt<Task>([1, 3], 0, 2) == [2, 1, 3];
    RunOfTwo(TWO_WAIT, Call(2, 0), Block(2), THREE_WAIT);
  }

  lemma FourthIsRaised()
    requires Inv(THREE_WAIT)
    ensures CanRun(THREE_WAIT, [SetPriority(3, 5), Expire(2)])
    ensures After(THREE_WAIT, [SetPriority(3, 5), Expire(2)]) == RAISED
  {
    hide WaitersExact, Accounting, CanRun, After;
    InvStep(THREE_WAIT, SetPriority(3, 5));
    assert RemoveAt<Task>([2, 1, 3], 0) == [1, 3];
    RunOfTwo(THREE_WAIT, SetPriority(3, 5), Expire(2), RAISED);
  }

  lemma HighestGivesUp()
    requires Inv(RAISED)
    ensures Enabled(RAISED, GiveUp(2)) && Next(RAISED, GiveUp(2)) == SETTLING
  {
    hide WaitersExact, Accounting;
  }

  /** The holder is left with the priority of the first task that waits, and the second one's is higher by now. */
  lemma HolderIsLeftTooLittle()
    requires Inv(SETTLING)
    ensures Enabled(SETTLING, Settle(2)) && Outranks(SETTLING, 0, 3) && WaitsFor(SETTLING, 3, 0, 0)
    ensures var r := Next(SETTLING, Settle(2)); WaitsFor(r, 3, 0, 0) && !Outranks(r, 0, 3)
  {
    hide WaitersExact, Accounting;
    HighestWaitingInRange(SETTLING, 0);
  }

  lemma WaiterIsRaised()
    requires Inv(ONE_WAITS)
    ensures Enabled(ONE_WAITS, SetPriority(1, 5)) && Outranks(ONE_WAITS, 0, 1) && WaitsFor(ONE_WAITS, 1, 0, 0)
    ensures var r := Next(ONE_WAITS, SetPriority(1, 5)); WaitsFor(r, 1, 0, 0) && !Outranks(r, 0, 1)
  {
    hide WaitersExact, Accounting;
  }

  lemma FirstWait() returns (steps: seq<Step>)
    ensures Init(ALONE) && Inv(ALONE) && Inv(ONE_WAITS) && CanRun(ALONE, steps) && After(ALONE, steps) == ONE_WAITS
  {
    hide Next, Inv, Init;
    AloneIsInitial();
    ZeroTakes();
    InvAlways(ALONE, [Call(0, 0), Take(0)]);
    OneWaits();
    RunOn(ALONE, [Call(0, 0), Take(0)], [Call(1, 0), Block(1)]);
    steps := [Call(0, 0), Take(0)] + [Call(1, 0), Block(1)];
    InvAlways(ALONE, steps);
  }

  lemma GoesOn(s: State, steps: seq<Step>, more: seq<Step>, q: State, r: State)
    requires Inv(s) && CanRun(s, steps) && After(s, steps) == q
    requires Inv(q) && CanRun(q, more) && After(q, more) == r
    ensures CanRun(s, steps + more) && After(s, steps + more) == r && Inv(r)
  {
    hide Next, Inv;
    RunOn(s, steps, more);
    InvAlways(q, more);
  }

  lemma AllWait() returns (steps: seq<Step>)
    ensures Init(ALONE) && Inv(ALONE) && Inv(SETTLING) && CanRun(ALONE, steps) && After(ALONE, steps) == SETTLING
  {
    hide Next, Inv, Init, Enabled;
    steps := FirstWait();
    FourthWaits();
    GoesOn(ALONE, steps, [Call(3, 0), Block(3)], ONE_WAITS, TWO_WAIT);
    steps := steps + [Call(3, 0), Block(3)];
    HighestWaits();
    GoesOn(ALONE, steps, [Call(2, 0), Block(2)], TWO_WAIT, THREE_WAIT);
    steps := steps + [Call(2, 0), Block(2)];
    FourthIsRaised();
    GoesOn(ALONE, steps, [SetPriority(3, 5), Expire(2)], THREE_WAIT, RAISED);
    steps := steps + [SetPriority(3, 5), Expire(2)];
    HighestGivesUp();
    Extend(ALONE, steps, GiveUp(2));
    InvStep(RAISED, GiveUp(2));
    steps := steps + [GiveUp(2)];
  }

  /** A priority set from outside takes a waiter past the holder it waits for. */
  lemma RaisedWaiterOutranksItsHolder() returns (s: State, before: seq<Step>)
    ensures Init(s)
    ensures (InitInv(s);
             && CanRun(s, before) && WaitsFor(After(s, before), 1, 0, 0) && Outranks(After(s, before), 0, 1)
             && CanRun(s, before + [SetPriority(1, 5)])
             && WaitsFor(After(s, before + [SetPriority(1, 5)]), 1, 0, 0)
             && !Outranks(After(s, before + [SetPriority(1, 5)]), 0, 1))
  {
    hide Next, Inv, Init, Enabled, Outranks, WaitsFor;
    s := ALONE;
    before := FirstWait();
    WaiterIsRaised();
    Extend(s, before, SetPriority(1, 5));
  }

  /** A timeout leaves a holder with less than a task that goes on waiting: the kernel asks the first task in line, and
      no change of priority moves a task in the line. */
  lemma TimeoutLeavesTooLittle() returns (s: State, before: seq<Step>)
    ensures Init(s)
    ensures (InitInv(s);
             && CanRun(s, before) && WaitsFor(After(s, before), 3, 0, 0) && Outranks(After(s, before), 0, 3)
             && CanRun(s, before + [Settle(2)])
             && WaitsFor(After(s, before + [Settle(2)]), 3, 0, 0) && !Outranks(After(s, before + [Settle(2)]), 0, 3))
  {
    hide Next, Inv, Init, Enabled, Outranks, WaitsFor;
    s := ALONE;
    before := AllWait();
    HolderIsLeftTooLittle();
    Extend(s, before, Settle(2));
  }
}
