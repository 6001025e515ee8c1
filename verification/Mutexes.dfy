/** Mutexes: who holds them, what they do to priorities, and what holds over whole runs.

    A step is one critical section, or one section with the scheduler suspended. */
module Mutexes {

  import opened ListModel
  import opened KernelConfig

  type MutexId = nat

  datatype Option<T> = None | Some(value: T)

  /** Where a task is in a take. `inherited` is the flag of the take: some holder was lent a priority for it. A task
      in a call that waits for an event group uses the value of its event item for the bits. */
  datatype Phase =
    | Outside
    | InGroup
    | Trying(mutex: MutexId, inherited: bool)
    | Waiting(mutex: MutexId, inherited: bool)
    | GivingUp(mutex: MutexId)

  datatype Tcb = Tcb(priority: nat, basePriority: nat, mutexesHeld: nat, eventItemValue: int, phase: Phase)

  datatype Mutex = Mutex(recursive: bool, count: nat, holder: Option<Task>, recursiveCallCount: nat, waiters: seq<Task>)

  datatype State = State(tcbs: map<Task, Tcb>, mutexes: map<MutexId, Mutex>)

  // ---------- what the kernel functions do to a task ----------

  predicate InUse(tcb: Tcb) {
    tcb.eventItemValue >= ITEM_VALUE_IN_USE
  }

  /** The value of an event item after a change of priority: what is in use stays. */
  function ItemValueFor(tcb: Tcb, priority: int): int {
    if InUse(tcb) then tcb.eventItemValue else MAX_PRIORITIES - priority
  }

  /** `xTaskPriorityInherit`: the holder of a mutex that the task `current` is about to wait for. */
  function Inherit(holder: Tcb, current: Tcb): Tcb {
    if holder.priority < current.priority then
      holder.(priority := current.priority, eventItemValue := ItemValueFor(holder, current.priority))
    else holder
  }

  function InheritanceOccurred(holder: Tcb, current: Tcb): bool {
    holder.priority < current.priority || holder.basePriority < current.priority
  }

  /** `xTaskPriorityDisinherit`: the holder gives a mutex back. */
  function Disinherit(holder: Tcb): Tcb
    requires holder.mutexesHeld > 0
  {
    if holder.priority != holder.basePriority && holder.mutexesHeld == 1 then
      holder.(mutexesHeld := 0, priority := holder.basePriority, eventItemValue := MAX_PRIORITIES - holder.basePriority)
    else
      holder.(mutexesHeld := holder.mutexesHeld - 1)
  }

  function Max(a: int, b: int): int {
    if a < b then b else a
  }

  /** `vTaskPriorityDisinheritAfterTimeout`: some task no longer waits, and `highest` still does. */
  function DisinheritAfterTimeout(holder: Tcb, highest: nat): Tcb {
    var use := Max(holder.basePriority, highest);
    if holder.priority != use && holder.mutexesHeld == 1 then
      holder.(priority := use, eventItemValue := ItemValueFor(holder, use))
    else holder
  }

  /** `prvGetDisinheritPriorityAfterTimeout`: what the head of the waiting list says its priority is. */
  function HighestWaiting(s: State, m: MutexId): int
    requires m in s.mutexes && forall t :: t in s.mutexes[m].waiters ==> t in s.tcbs
  {
    var waiters := s.mutexes[m].waiters;
    if |waiters| > 0 then MAX_PRIORITIES - s.tcbs[waiters[0]].eventItemValue else 0
  }

  /** `vTaskPrioritySet`. */
  function SetBase(t: Tcb, p: nat): Tcb {
    if t.basePriority == p then t
    else t.(priority := if t.basePriority == t.priority || p > t.priority then p else t.priority,
            basePriority := p, eventItemValue := ItemValueFor(t, p))
  }

  /** `uxTaskResetEventItemValue`, as the last thing of a call that waited for an event group. */
  function ResetItemValue(t: Tcb): Tcb {
    t.(phase := Outside, eventItemValue := MAX_PRIORITIES - t.priority)
  }

  /** How many of the waiting tasks are at least as urgent as a new one: it goes behind those. */
  function PlaceAmong(tcbs: map<Task, Tcb>, waiters: seq<Task>, value: int): (k: nat)
    requires forall t :: t in waiters ==> t in tcbs
    ensures k <= |waiters|
    ensures forall i :: 0 <= i < k ==> tcbs[waiters[i]].eventItemValue <= value
    ensures k < |waiters| ==> tcbs[waiters[k]].eventItemValue > value
  {
    var values := seq(|waiters|, i requires 0 <= i < |waiters| => tcbs[waiters[i]].eventItemValue);
    assert forall i :: 0 <= i < |waiters| ==> values[i] == tcbs[waiters[i]].eventItemValue;
    InsertPosition(values, value)
  }

  // ---------- steps ----------

  datatype Step =
    /** A task calls take on a mutex (and is not the holder, if the mutex is recursive). */
    | Call(t: Task, m: MutexId)
    /** A recursive take by the holder. */
    | TakeAgain(t: Task, m: MutexId)
    | Take(t: Task)
    /** A call whose block time is zero finds the mutex not available; it did not lend, or went through `TryOnce`. */
    | Fail(t: Task)
    | Block(t: Task)
    /** The head of the waiting list of a mutex is woken. */
    | Wake(m: MutexId)
    /** A waiting task reaches its timeout, or its delay is aborted. */
    | Expire(t: Task)
    /** The timeout is noticed, with the mutex not available. */
    | GiveUp(t: Task)
    /** The timeout is noticed, with the mutex available: one more try, with no block time left. That the call has lent
        is not asked again. */
    | TryOnce(t: Task)
    /** What a lent priority becomes after the timeout. */
    | Settle(t: Task)
    | Give(t: Task, m: MutexId)
    | GiveRecursive(t: Task, m: MutexId)
    | SetPriority(t: Task, p: nat)
    /** A task starts to wait for an event group, and is back from it. */
    | EnterGroup(t: Task, value: int)
    | LeaveGroup(t: Task)

  ghost predicate WaitersExact(s: State) {
    forall m :: m in s.mutexes ==>
                  && NoDuplicates(s.mutexes[m].waiters)
                  && (forall t :: t in s.mutexes[m].waiters <==>
                                    t in s.tcbs && s.tcbs[t].phase.Waiting? && s.tcbs[t].phase.mutex == m)
  }

  /** The mutex that a phase is about exists. */
  ghost predicate Known(phase: Phase, mutexes: map<MutexId, Mutex>) {
    phase.Outside? || phase.InGroup? || phase.mutex in mutexes
  }

  /** Every reference leads to something. */
  ghost predicate WellFormed(s: State) {
    && WaitersExact(s)
    && (forall t :: t in s.tcbs ==> Known(s.tcbs[t].phase, s.mutexes))
    && (forall m :: m in s.mutexes && s.mutexes[m].holder.Some? ==> s.mutexes[m].holder.value in s.tcbs)
  }

  predicate IsTrying(s: State, t: Task, free: bool) {
    && t in s.tcbs && s.tcbs[t].phase.Trying? && s.tcbs[t].phase.mutex in s.mutexes
    && (s.mutexes[s.tcbs[t].phase.mutex].count > 0 <==> free)
  }

  predicate IsHeldBy(s: State, m: MutexId, t: Task) {
    m in s.mutexes && s.mutexes[m].holder == Some(t)
  }

  predicate Enabled(s: State, step: Step) {
    match step
    case Call(t, m) =>
      && t in s.tcbs && s.tcbs[t].phase.Outside? && m in s.mutexes
      && (s.mutexes[m].recursive ==> !IsHeldBy(s, m, t))
    case TakeAgain(t, m) =>
      t in s.tcbs && s.tcbs[t].phase.Outside? && IsHeldBy(s, m, t) && s.mutexes[m].recursive
    case Take(t) => IsTrying(s, t, true)
    case Fail(t) => IsTrying(s, t, false) && !s.tcbs[t].phase.inherited
    case Block(t) => IsTrying(s, t, false)
    case Wake(m) => m in s.mutexes && s.mutexes[m].waiters != []
    case Expire(t) => t in s.tcbs && s.tcbs[t].phase.Waiting?
    case GiveUp(t) => IsTrying(s, t, false)
    case TryOnce(t) => IsTrying(s, t, true)
    case Settle(t) => t in s.tcbs && s.tcbs[t].phase.GivingUp?
    case Give(t, m) =>
      t in s.tcbs && s.tcbs[t].phase.Outside? && IsHeldBy(s, m, t) && !s.mutexes[m].recursive
    case GiveRecursive(t, m) =>
      t in s.tcbs && s.tcbs[t].phase.Outside? && m in s.mutexes && s.mutexes[m].recursive
    case SetPriority(t, p) => t in s.tcbs && p < MAX_PRIORITIES
    case EnterGroup(t, value) => t in s.tcbs && s.tcbs[t].phase.Outside? && value >= ITEM_VALUE_IN_USE
    case LeaveGroup(t) => t in s.tcbs && s.tcbs[t].phase.InGroup?
  }

  function SetPhase(s: State, t: Task, phase: Phase): State
    requires t in s.tcbs
  {
    s.(tcbs := s.tcbs[t := s.tcbs[t].(phase := phase)])
  }

  function SetMutex(s: State, m: MutexId, x: Mutex): State {
    s.(mutexes := s.mutexes[m := x])
  }

  function DoTake(s: State, t: Task): State
    requires IsTrying(s, t, true)
  {
    var m, tcb := s.tcbs[t].phase.mutex, s.tcbs[t];
    var x := s.mutexes[m];
    State(s.tcbs[t := tcb.(phase := Outside, mutexesHeld := tcb.mutexesHeld + 1)],
          s.mutexes[m := x.(count := x.count - 1, holder := Some(t),
                            recursiveCallCount := x.recursiveCallCount + if x.recursive then 1 else 0)])
  }

  /** The holder of the mutex inherits the priority of `t`. */
  function LendPriority(s: State, m: MutexId, t: Task): State
    requires WellFormed(s) && m in s.mutexes && t in s.tcbs
  {
    match s.mutexes[m].holder
    case None => s
    case Some(h) => s.(tcbs := s.tcbs[h := Inherit(s.tcbs[h], s.tcbs[t])])
  }

  /** The task joins those that wait, behind all that are at least as urgent. */
  function Enlist(s: State, t: Task, m: MutexId, inherited: bool): State
    requires WellFormed(s) && t in s.tcbs && m in s.mutexes
  {
    var x := s.mutexes[m];
    var k := PlaceAmong(s.tcbs, x.waiters, s.tcbs[t].eventItemValue);
    State(s.tcbs[t := s.tcbs[t].(phase := Waiting(m, inherited))],
          s.mutexes[m := x.(waiters := InsertAt(x.waiters, k, t))])
  }

  function DoBlock(s: State, t: Task): State
    requires Inv(s) && IsTrying(s, t, false)
  {
    var m := s.tcbs[t].phase.mutex;
    var holder := s.mutexes[m].holder;
    var occurred := holder.Some? && InheritanceOccurred(s.tcbs[holder.value], s.tcbs[t]);
    LendKeeps(s, m, t);
    Enlist(LendPriority(s, m, t), t, m, occurred)
  }

  /** A task leaves the waiting list and will look at the mutex again. */
  function Unwait(s: State, t: Task): State
    requires WellFormed(s) && t in s.tcbs && s.tcbs[t].phase.Waiting?
  {
    var m := s.tcbs[t].phase.mutex;
    var x := s.mutexes[m];
    State(s.tcbs[t := s.tcbs[t].(phase := Trying(m, s.tcbs[t].phase.inherited))],
          s.mutexes[m := x.(waiters := Without(x.waiters, t))])
  }

  /** The holder of the mutex is left with what the tasks still waiting justify. */
  function TakeBackPriority(s: State, m: MutexId): State
    requires Inv(s) && m in s.mutexes
  {
    HighestWaitingInRange(s, m);
    match s.mutexes[m].holder
    case None => s
    case Some(h) => s.(tcbs := s.tcbs[h := DisinheritAfterTimeout(s.tcbs[h], HighestWaiting(s, m))])
  }

  function Release(s: State, t: Task, m: MutexId): State
    requires Inv(s) && t in s.tcbs && IsHeldBy(s, m, t)
  {
    HolderHolds(s, m);
    var x := s.mutexes[m];
    State(s.tcbs[t := Disinherit(s.tcbs[t])],
          s.mutexes[m := x.(count := x.count + 1, holder := None, recursiveCallCount := 0)])
  }

  function DoGiveRecursive(s: State, t: Task, m: MutexId): State
    requires Inv(s) && t in s.tcbs && m in s.mutexes && s.mutexes[m].recursive
  {
    HolderHolds(s, m);
    var x := s.mutexes[m];
    if !IsHeldBy(s, m, t) then s
    else if x.recursiveCallCount == 1 then Release(s, t, m)
    else SetMutex(s, m, x.(recursiveCallCount := x.recursiveCallCount - 1))
  }

  function DoTakeAgain(s: State, m: MutexId): State
    requires m in s.mutexes
  {
    SetMutex(s, m, s.mutexes[m].(recursiveCallCount := s.mutexes[m].recursiveCallCount + 1))
  }

  function DoWake(s: State, m: MutexId): State
    requires WellFormed(s) && m in s.mutexes && s.mutexes[m].waiters != []
  {
    HeadWaits(s, m);
    Unwait(s, s.mutexes[m].waiters[0])
  }

  function DoGiveUp(s: State, t: Task): State
    requires t in s.tcbs && s.tcbs[t].phase.Trying?
  {
    SetPhase(s, t, if s.tcbs[t].phase.inherited then GivingUp(s.tcbs[t].phase.mutex) else Outside)
  }

  function DoSettle(s: State, t: Task): State
    requires Inv(s) && t in s.tcbs && s.tcbs[t].phase.GivingUp?
  {
    SetPhase(TakeBackPriority(s, s.tcbs[t].phase.mutex), t, Outside)
  }

  function Next(s: State, step: Step): State
    requires Inv(s) && Enabled(s, step)
  {
    match step
    case Call(t, m) => SetPhase(s, t, Trying(m, false))
    case TakeAgain(t, m) => DoTakeAgain(s, m)
    case Take(t) => DoTake(s, t)
    case Fail(t) => SetPhase(s, t, Outside)
    case Block(t) => DoBlock(s, t)
    case Wake(m) => DoWake(s, m)
    case Expire(t) => Unwait(s, t)
    case GiveUp(t) => DoGiveUp(s, t)
    case TryOnce(t) => SetPhase(s, t, Trying(s.tcbs[t].phase.mutex, false))
    case Settle(t) => DoSettle(s, t)
    case _ => NextOfHolder(s, step)
  }

  function NextOfHolder(s: State, step: Step): State
    requires Inv(s) && Enabled(s, step)
  {
    match step
    case Give(t, m) => Release(s, t, m)
    case GiveRecursive(t, m) => DoGiveRecursive(s, t, m)
    case SetPriority(t, p) => s.(tcbs := s.tcbs[t := SetBase(s.tcbs[t], p)])
    case EnterGroup(t, value) => s.(tcbs := s.tcbs[t := s.tcbs[t].(phase := InGroup, eventItemValue := value)])
    case LeaveGroup(t) => s.(tcbs := s.tcbs[t := ResetItemValue(s.tcbs[t])])
    case _ => s
  }

  // ---------- accounting ----------

  ghost function HeldBy(mutexes: map<MutexId, Mutex>, t: Task): set<MutexId> {
    set m | m in mutexes && mutexes[m].holder == Some(t)
  }

  /** A mutex's count is 1 exactly when nobody holds it; a recursive one is held exactly while it has takes
      that were not given back. */
  ghost predicate MutexInv(x: Mutex) {
    && x.count == (if x.holder.None? then 1 else 0)
    && (x.recursive ==> (x.recursiveCallCount > 0 <==> x.holder.Some?))
    && (!x.recursive ==> x.recursiveCallCount == 0)
  }

  ghost predicate TcbInv(tcb: Tcb) {
    && tcb.basePriority <= tcb.priority < MAX_PRIORITIES
    && (tcb.mutexesHeld == 0 ==> tcb.priority == tcb.basePriority)
    && (tcb.phase.InGroup? <==> InUse(tcb))
    && (!InUse(tcb) ==> 0 < tcb.eventItemValue <= MAX_PRIORITIES)
  }

  ghost predicate Accounting(s: State) {
    && (forall m :: m in s.mutexes ==> MutexInv(s.mutexes[m]))
    && (forall t :: t in s.tcbs ==> TcbInv(s.tcbs[t]))
    && (forall t :: t in s.tcbs ==> s.tcbs[t].mutexesHeld == |HeldBy(s.mutexes, t)|)
  }

  ghost predicate Inv(s: State) {
    WellFormed(s) && Accounting(s)
  }

  lemma HolderHolds(s: State, m: MutexId)
    requires Inv(s) && m in s.mutexes
    ensures s.mutexes[m].holder.Some? ==> s.tcbs[s.mutexes[m].holder.value].mutexesHeld > 0
    ensures s.mutexes[m].holder.Some? && s.mutexes[m].recursive ==> s.mutexes[m].recursiveCallCount > 0
  {
    if s.mutexes[m].holder.Some? {
      assert m in HeldBy(s.mutexes, s.mutexes[m].holder.value);
    }
  }

  lemma HighestWaitingInRange(s: State, m: MutexId)
    requires Inv(s) && m in s.mutexes
    ensures 0 <= HighestWaiting(s, m) < MAX_PRIORITIES
  {
    if s.mutexes[m].waiters != [] {
      assert s.mutexes[m].waiters[0] in s.mutexes[m].waiters;
    }
  }

  lemma HeadWaits(s: State, m: MutexId)
    requires WellFormed(s) && m in s.mutexes && s.mutexes[m].waiters != []
    ensures var t := s.mutexes[m].waiters[0];
            t in s.tcbs && s.tcbs[t].phase.Waiting? && s.tcbs[t].phase.mutex == m
  {
    assert s.mutexes[m].waiters[0] in s.mutexes[m].waiters;
  }

  /** A change of priorities keeps the rest. */
  lemma RepriorityKeeps(s: State, t: Task, tcb: Tcb)
    requires Inv(s) && t in s.tcbs
    requires TcbInv(tcb) && tcb.phase == s.tcbs[t].phase && tcb.mutexesHeld == s.tcbs[t].mutexesHeld
    ensures Inv(s.(tcbs := s.tcbs[t := tcb]))
  {
  }

  lemma LendKeeps(s: State, m: MutexId, t: Task)
    requires Inv(s) && m in s.mutexes && t in s.tcbs
    ensures Inv(LendPriority(s, m, t))
  {
    hide HeldBy, WaitersExact;
    HolderHolds(s, m);
    if s.mutexes[m].holder.Some? {
      var h := s.mutexes[m].holder.value;
      RepriorityKeeps(s, h, Inherit(s.tcbs[h], s.tcbs[t]));
    }
  }

  /** A change of one mutex that leaves its holder leaves every count of held mutexes. */
  lemma SameHolders(before: map<MutexId, Mutex>, m: MutexId, x: Mutex)
    requires m in before && x.holder == before[m].holder
    ensures forall t :: HeldBy(before[m := x], t) == HeldBy(before, t)
  {
  }

  lemma TakenBy(before: map<MutexId, Mutex>, m: MutexId, x: Mutex, t: Task)
    requires m in before && before[m].holder.None? && x.holder == Some(t)
    ensures |HeldBy(before[m := x], t)| == |HeldBy(before, t)| + 1
    ensures forall u :: u != t ==> HeldBy(before[m := x], u) == HeldBy(before, u)
  {
    assert HeldBy(before[m := x], t) == HeldBy(before, t) + {m};
  }

  lemma GivenBy(before: map<MutexId, Mutex>, m: MutexId, x: Mutex, t: Task)
    requires m in before && before[m].holder == Some(t) && x.holder.None?
    ensures |HeldBy(before[m := x], t)| == |HeldBy(before, t)| - 1
    ensures forall u :: u != t ==> HeldBy(before[m := x], u) == HeldBy(before, u)
  {
    assert HeldBy(before, t) == HeldBy(before[m := x], t) + {m};
  }

  // ---------- every step keeps it ----------

  lemma PhaseKeeps(s: State, t: Task, phase: Phase)
    requires Inv(s) && t in s.tcbs && !s.tcbs[t].phase.Waiting? && !phase.Waiting?
    requires Known(phase, s.mutexes) && !s.tcbs[t].phase.InGroup? && !phase.InGroup?
    ensures Inv(SetPhase(s, t, phase))
  {
  }

  lemma TakeAccounts(s: State, t: Task)
    requires Inv(s) && IsTrying(s, t, true)
    ensures Accounting(DoTake(s, t))
  {
    hide WaitersExact, WellFormed;
    TakenBy(s.mutexes, s.tcbs[t].phase.mutex, DoTake(s, t).mutexes[s.tcbs[t].phase.mutex], t);
  }

  lemma TakeKeeps(s: State, t: Task)
    requires Inv(s) && Enabled(s, Take(t))
    ensures Inv(Next(s, Take(t)))
  {
    hide MutexInv, TcbInv, HeldBy;
    TakeAccounts(s, t);
  }

  lemma ReleaseKeeps(s: State, t: Task, m: MutexId)
    requires Inv(s) && t in s.tcbs && s.tcbs[t].phase.Outside? && IsHeldBy(s, m, t)
    ensures s.tcbs[t].mutexesHeld > 0 && Inv(Release(s, t, m))
  {
    hide Accounting;
    HolderHolds(s, m);
    ReleaseAccounts(s, t, m);
  }

  lemma ReleaseAccounts(s: State, t: Task, m: MutexId)
    requires Inv(s) && t in s.tcbs && s.tcbs[t].phase.Outside? && IsHeldBy(s, m, t)
    ensures Accounting(Release(s, t, m))
  {
    hide WaitersExact, Known, HeldBy;
    HolderHolds(s, m);
    GivenBy(s.mutexes, m, Release(s, t, m).mutexes[m], t);
  }

  lemma GiveRecursiveKeeps(s: State, t: Task, m: MutexId)
    requires Inv(s) && Enabled(s, GiveRecursive(t, m))
    ensures Inv(Next(s, GiveRecursive(t, m)))
  {
    hide WaitersExact, Known, Accounting, HeldBy;
    HolderHolds(s, m);
    if IsHeldBy(s, m, t) {
      if s.mutexes[m].recursiveCallCount == 1 {
        ReleaseKeeps(s, t, m);
      } else {
        CountKeeps(s, m, s.mutexes[m].recursiveCallCount - 1);
      }
    }
  }

  /** The call count of a recursive mutex that goes on being held. */
  lemma CountKeeps(s: State, m: MutexId, n: nat)
    requires Inv(s) && m in s.mutexes && s.mutexes[m].recursive && s.mutexes[m].holder.Some? && n > 0
    ensures Inv(SetMutex(s, m, s.mutexes[m].(recursiveCallCount := n)))
  {
    SameHolders(s.mutexes, m, s.mutexes[m].(recursiveCallCount := n));
  }

  lemma TakeAgainKeeps(s: State, t: Task, m: MutexId)
    requires Inv(s) && Enabled(s, TakeAgain(t, m))
    ensures Inv(Next(s, TakeAgain(t, m)))
  {
    CountKeeps(s, m, s.mutexes[m].recursiveCallCount + 1);
  }

  lemma UnwaitKeeps(s: State, t: Task)
    requires Inv(s) && t in s.tcbs && s.tcbs[t].phase.Waiting?
    ensures Inv(Unwait(s, t))
  {
    hide WaitersExact, NoDuplicates, HeldBy, Without;
    var m := s.tcbs[t].phase.mutex;
    UnwaitWaiters(s, t);
    SameHolders(s.mutexes, m, Unwait(s, t).mutexes[m]);
  }

  lemma UnwaitWaiters(s: State, t: Task)
    requires Inv(s) && t in s.tcbs && s.tcbs[t].phase.Waiting?
    ensures WaitersExact(Unwait(s, t))
  {
    hide Accounting;
    var m := s.tcbs[t].phase.mutex;
    NoDuplicatesRemove(s.mutexes[m].waiters, IndexOf(s.mutexes[m].waiters, t));
  }

  lemma EnlistKeeps(s: State, t: Task, m: MutexId, inherited: bool)
    requires Inv(s) && t in s.tcbs && m in s.mutexes && s.tcbs[t].phase.Trying?
    ensures Inv(Enlist(s, t, m, inherited))
  {
    hide WaitersExact, Known, HeldBy, InsertAt, PlaceAmong, NoDuplicates;
    EnlistWaiters(s, t, m, inherited);
    SameHolders(s.mutexes, m, Enlist(s, t, m, inherited).mutexes[m]);
  }

  lemma EnlistWaiters(s: State, t: Task, m: MutexId, inherited: bool)
    requires Inv(s) && t in s.tcbs && m in s.mutexes && s.tcbs[t].phase.Trying?
    ensures WellFormed(Enlist(s, t, m, inherited))
  {
    hide Accounting, InsertAt;
    var x := s.mutexes[m];
    NoDuplicatesInsert(x.waiters, PlaceAmong(s.tcbs, x.waiters, s.tcbs[t].eventItemValue), t);
  }

  lemma BlockKeeps(s: State, t: Task)
    requires Inv(s) && Enabled(s, Block(t))
    ensures Inv(Next(s, Block(t)))
  {
    hide HeldBy, WaitersExact, Enlist;
    var m := s.tcbs[t].phase.mutex;
    var holder := s.mutexes[m].holder;
    var occurred := holder.Some? && InheritanceOccurred(s.tcbs[holder.value], s.tcbs[t]);
    LendKeeps(s, m, t);
    EnlistKeeps(LendPriority(s, m, t), t, m, occurred);
  }

  lemma TakeBackKeeps(s: State, m: MutexId)
    requires Inv(s) && m in s.mutexes
    ensures Inv(TakeBackPriority(s, m))
  {
    hide HeldBy;
    HighestWaitingInRange(s, m);
    HolderHolds(s, m);
    if s.mutexes[m].holder.Some? {
      var h := s.mutexes[m].holder.value;
      RepriorityKeeps(s, h, DisinheritAfterTimeout(s.tcbs[h], HighestWaiting(s, m)));
    }
  }

  lemma SettleKeeps(s: State, t: Task)
    requires Inv(s) && Enabled(s, Settle(t))
    ensures Inv(Next(s, Settle(t)))
  {
    TakeBackKeeps(s, s.tcbs[t].phase.mutex);
    PhaseKeeps(TakeBackPriority(s, s.tcbs[t].phase.mutex), t, Outside);
  }

  lemma SetPriorityKeeps(s: State, t: Task, p: nat)
    requires Inv(s) && Enabled(s, SetPriority(t, p))
    ensures Inv(Next(s, SetPriority(t, p)))
  {
    RepriorityKeeps(s, t, SetBase(s.tcbs[t], p));
  }

  lemma GroupKeeps(s: State, t: Task, tcb: Tcb)
    requires Inv(s) && t in s.tcbs && TcbInv(tcb)
    requires tcb.mutexesHeld == s.tcbs[t].mutexesHeld
    requires s.tcbs[t].phase.Outside? || s.tcbs[t].phase.InGroup?
    requires tcb.phase.Outside? || tcb.phase.InGroup?
    ensures Inv(s.(tcbs := s.tcbs[t := tcb]))
  {
  }

  lemma InvStep(s: State, step: Step)
    requires Inv(s) && Enabled(s, step)
    ensures Inv(Next(s, step))
  {
    match step
    case Call(t, m) => PhaseKeeps(s, t, Trying(m, false));
    case TakeAgain(t, m) => TakeAgainKeeps(s, t, m);
    case Take(t) => TakeKeeps(s, t);
    case Fail(t) => PhaseKeeps(s, t, Outside);
    case Block(t) => BlockKeeps(s, t);
    case Wake(m) =>
      assert s.mutexes[m].waiters[0] in s.mutexes[m].waiters;
      UnwaitKeeps(s, s.mutexes[m].waiters[0]);
    case Expire(t) => UnwaitKeeps(s, t);
    case GiveUp(t) =>
      PhaseKeeps(s, t, if s.tcbs[t].phase.inherited then GivingUp(s.tcbs[t].phase.mutex) else Outside);
    case TryOnce(t) => PhaseKeeps(s, t, Trying(s.tcbs[t].phase.mutex, false));
    case Settle(t) => SettleKeeps(s, t);
    case Give(t, m) => ReleaseKeeps(s, t, m);
    case GiveRecursive(t, m) => GiveRecursiveKeeps(s, t, m);
    case SetPriority(t, p) => SetPriorityKeeps(s, t, p);
    case EnterGroup(t, value) => GroupKeeps(s, t, s.tcbs[t].(phase := InGroup, eventItemValue := value));
    case LeaveGroup(t) => GroupKeeps(s, t, ResetItemValue(s.tcbs[t]));
  }
}
