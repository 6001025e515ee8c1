/** What becomes of a priority that was lent: every step's effect on it, and when it is taken back. */
module MutexLending {

  import opened ListModel
  import opened KernelConfig
  import opened Mutexes
  import opened MutexRuns

  // ---------- what each step does to priorities ----------

  /** Nothing but these tasks and this mutex is different. */
  ghost predicate OnlyThese(s: State, r: State, ts: set<Task>, m: MutexId) {
    && r.tcbs.Keys == s.tcbs.Keys && r.mutexes.Keys == s.mutexes.Keys
    && (forall t :: t in s.tcbs && t !in ts ==> r.tcbs[t] == s.tcbs[t])
    && (forall m' :: m' in s.mutexes && m' != m ==> r.mutexes[m'] == s.mutexes[m'])
  }

  /** To wait is to lend the holder one's priority, neither more nor less. */
  lemma BlockEffect(s: State, t: Task)
    requires Inv(s) && Enabled(s, Block(t))
    ensures var r, m := Next(s, Block(t)), s.tcbs[t].phase.mutex;
            && s.mutexes[m].holder.Some?
            && var h := s.mutexes[m].holder.value;
               && h in s.tcbs && OnlyThese(s, r, {t, h}, m)
               && r.tcbs[h].priority == Max(s.tcbs[h].priority, s.tcbs[t].priority)
               && r.tcbs[h].basePriority == s.tcbs[h].basePriority && r.tcbs[h].mutexesHeld == s.tcbs[h].mutexesHeld
               && (h != t ==> r.tcbs[h].phase == s.tcbs[h].phase && r.tcbs[t].priority == s.tcbs[t].priority)
               && r.tcbs[t].basePriority == s.tcbs[t].basePriority && r.tcbs[t].mutexesHeld == s.tcbs[t].mutexesHeld
               && r.tcbs[t].phase == Waiting(m, s.tcbs[h].basePriority < s.tcbs[t].priority
                                                || s.tcbs[h].priority < s.tcbs[t].priority)
               && r.mutexes[m].holder == Some(h) && t in r.mutexes[m].waiters
               && (forall u :: u in s.mutexes[m].waiters ==> u in r.mutexes[m].waiters)
  {
    hide WaitersExact, HeldBy, Known, TcbInv, Accounting, InsertAt;
    var m := s.tcbs[t].phase.mutex;
    HeldHasHolder(s, m);
    LendKeeps(s, m, t);
    EnlistMembers(LendPriority(s, m, t), t, m, InheritanceOccurred(s.tcbs[s.mutexes[m].holder.value], s.tcbs[t]));
  }

  lemma EnlistMembers(s: State, t: Task, m: MutexId, inherited: bool)
    requires WellFormed(s) && t in s.tcbs && m in s.mutexes
    ensures var r := Enlist(s, t, m, inherited);
            t in r.mutexes[m].waiters && forall u :: u in s.mutexes[m].waiters ==> u in r.mutexes[m].waiters
  {
    hide InsertAt, PlaceAmong;
    InsertedIn(s.mutexes[m].waiters, PlaceAmong(s.tcbs, s.mutexes[m].waiters, s.tcbs[t].eventItemValue), t);
  }

  lemma InsertedIn(items: seq<Task>, k: nat, t: Task)
    requires k <= |items|
    ensures t in InsertAt(items, k, t) && forall u :: u in items ==> u in InsertAt(items, k, t)
  {
    assert InsertAt(items, k, t)[k] == t;
    assert items == items[..k] + items[k..];
  }

  lemma HeldHasHolder(s: State, m: MutexId)
    requires Inv(s) && m in s.mutexes
    ensures s.mutexes[m].count == 0 <==> s.mutexes[m].holder.Some?
    ensures s.mutexes[m].count == 1 <==> s.mutexes[m].holder.None?
    ensures s.mutexes[m].holder.Some? ==>
              var h := s.mutexes[m].holder.value; h in s.tcbs && s.tcbs[h].basePriority <= s.tcbs[h].priority
  {
    assert MutexInv(s.mutexes[m]);
    if s.mutexes[m].holder.Some? {
      TcbOf(s, s.mutexes[m].holder.value);
    }
  }

  /** A take makes the task the holder, with one mutex more and the priority it has. */
  lemma TakeEffect(s: State, t: Task)
    requires Inv(s) && Enabled(s, Take(t))
    ensures var r, m := Next(s, Take(t)), s.tcbs[t].phase.mutex;
            && OnlyThese(s, r, {t}, m) && s.mutexes[m].holder.None?
            && r.tcbs[t] == s.tcbs[t].(phase := Outside, mutexesHeld := s.tcbs[t].mutexesHeld + 1)
            && r.mutexes[m].holder == Some(t) && r.mutexes[m].count == 0
            && r.mutexes[m].waiters == s.mutexes[m].waiters
  {
    hide WaitersExact, HeldBy, Known, TcbInv;
    HeldHasHolder(s, s.tcbs[t].phase.mutex);
  }

  /** With its last mutex a holder gives back what it was lent; with another one it keeps it. */
  lemma GiveEffect(s: State, t: Task, m: MutexId)
    requires Inv(s) && t in s.tcbs && IsHeldBy(s, m, t)
    ensures var r := Release(s, t, m);
            && OnlyThese(s, r, {t}, m)
            && s.tcbs[t].mutexesHeld > 0 && r.tcbs[t].mutexesHeld == s.tcbs[t].mutexesHeld - 1
            && r.tcbs[t].priority == (if s.tcbs[t].mutexesHeld == 1 then s.tcbs[t].basePriority else s.tcbs[t].priority)
            && r.tcbs[t].basePriority == s.tcbs[t].basePriority && r.tcbs[t].phase == s.tcbs[t].phase
            && r.mutexes[m].holder.None? && r.mutexes[m].count == 1 && r.mutexes[m].waiters == s.mutexes[m].waiters
  {
    hide WaitersExact, HeldBy, Known, TcbInv;
    HolderHolds(s, m);
    HeldHasHolder(s, m);
  }

  /** What the first task in line stands for; nothing if nobody waits. */
  function FirstInLine(s: State, m: MutexId): int
    requires WellFormed(s) && m in s.mutexes
  {
    if s.mutexes[m].waiters == [] then 0
    else HeadWaits(s, m); MAX_PRIORITIES - s.tcbs[s.mutexes[m].waiters[0]].eventItemValue
  }

  /** After a timeout a holder of this mutex alone is left with the larger of its base priority and what the first task
      still in line stands for; a holder of more keeps what it has. */
  lemma SettleEffect(s: State, t: Task)
    requires Inv(s) && Enabled(s, Settle(t))
    ensures var r, m := Next(s, Settle(t)), s.tcbs[t].phase.mutex;
            && r.mutexes == s.mutexes && r.tcbs.Keys == s.tcbs.Keys && r.tcbs[t].phase == Outside
            && (forall u :: u in s.tcbs && u != t ==> r.tcbs[u].phase == s.tcbs[u].phase)
            && (forall u :: u in s.tcbs && s.mutexes[m].holder != Some(u) ==>
                              r.tcbs[u] == s.tcbs[u].(phase := r.tcbs[u].phase))
            && (s.mutexes[m].holder.Some? ==>
                  var h := s.mutexes[m].holder.value;
                  && h in s.tcbs && r.tcbs[h].mutexesHeld == s.tcbs[h].mutexesHeld
                  && r.tcbs[h].basePriority == s.tcbs[h].basePriority
                  && r.tcbs[h].priority == if s.tcbs[h].mutexesHeld == 1
                       then Max(s.tcbs[h].basePriority, FirstInLine(s, m))
                                           else s.tcbs[h].priority)
  {
    hide WaitersExact, HeldBy, TcbInv;
    var m := s.tcbs[t].phase.mutex;
    HighestWaitingInRange(s, m);
    HeldHasHolder(s, m);
  }

  /** The base priority is set, and the priority in use with it unless a higher one is lent; an item that is in use is
      left alone. */
  lemma SetPriorityEffect(s: State, t: Task, p: nat)
    requires Inv(s) && Enabled(s, SetPriority(t, p))
    ensures var r := Next(s, SetPriority(t, p));
            && OnlyThese(s, r, {t}, 0) && r.mutexes == s.mutexes
            && r.tcbs[t].phase == s.tcbs[t].phase && r.tcbs[t].mutexesHeld == s.tcbs[t].mutexesHeld
            && r.tcbs[t].basePriority == p
            && r.tcbs[t].priority == (if s.tcbs[t].priority == s.tcbs[t].basePriority then p
                                      else Max(s.tcbs[t].priority, p))
            && r.tcbs[t].eventItemValue ==
               if s.tcbs[t].phase.InGroup? || s.tcbs[t].basePriority == p then s.tcbs[t].eventItemValue
               else MAX_PRIORITIES - p
  {
    hide WaitersExact, HeldBy, Known, MutexInv;
    TcbOf(s, t);
  }

  /** Of the tasks that wait for a mutex the one that is woken is the most urgent. */
  lemma WakesMostUrgent(s: State, m: MutexId)
    requires Inv(s) && Orderly(s) && Enabled(s, Wake(m))
    ensures var r := Next(s, Wake(m));
            exists t ::
              && t in s.tcbs && t in s.mutexes[m].waiters && r.tcbs[t].phase == Trying(m, s.tcbs[t].phase.inherited)
              && OnlyThese(s, r, {t}, m) && r.tcbs[t] == s.tcbs[t].(phase := r.tcbs[t].phase)
              && (forall u :: u in s.mutexes[m].waiters ==> u in s.tcbs && s.tcbs[u].priority <= s.tcbs[t].priority)
              && (forall u :: u in r.mutexes[m].waiters <==> u in s.mutexes[m].waiters && u != t)
  {
    hide Accounting, Orderly, WaitersExact, Known;
    WakeEffect(s, m);
    HeadMostUrgent(s, m);
    var t := s.mutexes[m].waiters[0];
    assert t in s.mutexes[m].waiters;
  }

  lemma HeadMostUrgent(s: State, m: MutexId)
    requires Inv(s) && Orderly(s) && m in s.mutexes && s.mutexes[m].waiters != []
    ensures var t := s.mutexes[m].waiters[0];
            && t in s.tcbs
            && forall u :: u in s.mutexes[m].waiters ==> u in s.tcbs && s.tcbs[u].priority <= s.tcbs[t].priority
  {
    hide Accounting, Known;
    var t, waiters := s.mutexes[m].waiters[0], s.mutexes[m].waiters;
    HeadWaits(s, m);
    assert Descending(s.tcbs, waiters);
    forall u | u in waiters
      ensures u in s.tcbs && s.tcbs[u].priority <= s.tcbs[t].priority
    {
      var i :| 0 <= i < |waiters| && waiters[i] == u;
      assert i > 0 ==> NotBelow(s.tcbs, waiters[0], waiters[i]);
    }
  }

  /** A task that leaves the line goes on trying, with what is known of the lending. */
  lemma UnwaitEffect(s: State, t: Task)
    requires Inv(s) && t in s.tcbs && s.tcbs[t].phase.Waiting?
    ensures var r, m := Unwait(s, t), s.tcbs[t].phase.mutex;
            && m in s.mutexes && OnlyThese(s, r, {t}, m)
            && r.tcbs[t] == s.tcbs[t].(phase := Trying(m, s.tcbs[t].phase.inherited))
            && r.mutexes[m] == s.mutexes[m].(waiters := r.mutexes[m].waiters)
            && (forall u :: u in r.mutexes[m].waiters <==> u in s.mutexes[m].waiters && u != t)
  {
    hide Accounting;
    var waiters := s.mutexes[s.tcbs[t].phase.mutex].waiters;
    assert t in waiters;
    NoDuplicatesRemove(waiters, IndexOf(waiters, t));
  }

  lemma WakeEffect(s: State, m: MutexId)
    requires Inv(s) && Enabled(s, Wake(m))
    ensures var r, t := Next(s, Wake(m)), s.mutexes[m].waiters[0];
            && t in s.tcbs && s.tcbs[t].phase.Waiting? && s.tcbs[t].phase.mutex == m && OnlyThese(s, r, {t}, m)
            && r.tcbs[t] == s.tcbs[t].(phase := Trying(m, s.tcbs[t].phase.inherited))
            && (forall u :: u in r.mutexes[m].waiters <==> u in s.mutexes[m].waiters && u != t)
  {
    hide Accounting, WaitersExact, Known, OnlyThese;
    HeadWaits(s, m);
    UnwaitEffect(s, s.mutexes[m].waiters[0]);
  }

  // ---------- a lent priority is accounted for ----------

  /** The task stands behind the mutex: it waits for it, or it has lent its priority for it and has not settled yet. */
  predicate Behind(s: State, u: Task, m: MutexId) {
    && u in s.tcbs
    && match s.tcbs[u].phase
       case Waiting(m', _) => m' == m
       case Trying(m', inherited) => m' == m && inherited
       case GivingUp(m') => m' == m
       case _ => false
  }

  /** The holder of this mutex alone has a lent priority, and nobody stands behind it. */
  ghost predicate Overlent(s: State, h: Task, m: MutexId) {
    && IsHeldBy(s, m, h) && h in s.tcbs && s.tcbs[h].mutexesHeld == 1 && s.tcbs[h].priority > s.tcbs[h].basePriority
    && forall u :: !Behind(s, u, m)
  }

  /** Nobody but `t` stands behind the mutex of a holder with a lent priority, and `t` takes it for its own affair. */
  ghost predicate LastUnlent(s: State, t: Task, h: Task, m: MutexId)
    requires t in s.tcbs && h in s.tcbs
  {
    && s.tcbs[t].phase == Waiting(m, false) && s.tcbs[h].mutexesHeld == 1
    && s.tcbs[h].priority > s.tcbs[h].basePriority
    && forall u :: Behind(s, u, m) ==> u == t
  }

  /** The two ways in which the kernel leaves a holder with a priority that nobody accounts for: it gives the second of
      two mutexes back after whoever lent it has gone, or the last task in line goes that was not seen to lend. */
  ghost predicate Strands(s: State, step: Step, h: Task, m: MutexId)
    requires Inv(s) && Enabled(s, step) && h in s.tcbs
  {
    match step
    case Give(t, m') => t == h && LeavesOnly(s, m', h, m)
    case GiveRecursive(t, m') => t == h && IsHeldBy(s, m', h) && s.mutexes[m'].recursiveCallCount == 1
        && LeavesOnly(s, m', h, m)
    case Wake(m') => m' == m && (HeadWaits(s, m'); LastUnlent(s, s.mutexes[m'].waiters[0], h, m))
    case Expire(t) => LastUnlent(s, t, h, m)
    case _ => false
  }

  ghost predicate LeavesOnly(s: State, m': MutexId, h: Task, m: MutexId)
    requires h in s.tcbs
  {
    && m' != m && s.tcbs[h].mutexesHeld == 2 && s.tcbs[h].priority > s.tcbs[h].basePriority
    && forall u :: !Behind(s, u, m)
  }

  lemma UnwaitOverlent(s: State, r: State, t: Task, h: Task, m: MutexId)
    requires Inv(s) && t in s.tcbs && s.tcbs[t].phase.Waiting? && h in s.tcbs
    requires IsHeldBy(s, m, h) && IsHeldBy(r, m, h) && !Overlent(s, h, m)
    requires r.tcbs == s.tcbs[t := s.tcbs[t].(phase := Trying(s.tcbs[t].phase.mutex, s.tcbs[t].phase.inherited))]
    ensures Overlent(r, h, m) <==> LastUnlent(s, t, h, m)
  {
    hide Inv;
    if LastUnlent(s, t, h, m) {
      forall u
        ensures !Behind(r, u, m)
      {
        assert u != t ==> (Behind(r, u, m) <==> Behind(s, u, m));
      }
    }
    if Overlent(r, h, m) {
      forall u | Behind(s, u, m)
        ensures u == t
      {
        assert u != t ==> (Behind(r, u, m) <==> Behind(s, u, m));
      }
      var u :| Behind(s, u, m);
      assert !Behind(r, t, m);
    }
  }

  lemma ReleaseOverlent(s: State, t: Task, m': MutexId, h: Task, m: MutexId)
    requires Inv(s) && t in s.tcbs && IsHeldBy(s, m', t) && IsHeldBy(s, m, h) && h in s.tcbs && m' != m
    requires !Overlent(s, h, m)
    ensures Overlent(Release(s, t, m'), h, m) <==> t == h && LeavesOnly(s, m', h, m)
  {
    hide Inv, Behind, Release;
    GiveEffect(s, t, m');
    var r := Release(s, t, m');
    SameBehind2(s, r, t, m);
    if t == h {
      HoldsBoth(s, m, m', h);
    }
  }

  lemma SameBehind2(s: State, r: State, t: Task, m: MutexId)
    requires t in s.tcbs && r.tcbs.Keys == s.tcbs.Keys && r.tcbs[t].phase == s.tcbs[t].phase
    requires forall u :: u in s.tcbs && u != t ==> r.tcbs[u] == s.tcbs[u]
    ensures forall u :: Behind(r, u, m) <==> Behind(s, u, m)
  {
  }

  lemma SettleOverlent(s: State, t: Task, h: Task, m: MutexId)
    requires Inv(s) && Enabled(s, Settle(t)) && IsHeldBy(s, m, h) && h in s.tcbs && !Overlent(s, h, m)
    ensures !Overlent(Next(s, Settle(t)), h, m)
  {
    hide Accounting, WaitersExact, Next, Behind;
    SettleEffect(s, t);
    var r, m' := Next(s, Settle(t)), s.tcbs[t].phase.mutex;
    if m' != m {
      if IsHeldBy(s, m', h) {
        HoldsBoth(s, m, m', h);
      }
      GivingUpElsewhere(s, r, t, m);
    } else if s.mutexes[m].waiters != [] {
      WaiterBehind(s, r, t, m);
    }
  }

  lemma GivingUpElsewhere(s: State, r: State, t: Task, m: MutexId)
    requires t in s.tcbs && s.tcbs[t].phase.GivingUp? && s.tcbs[t].phase.mutex != m
    requires r.tcbs.Keys == s.tcbs.Keys && r.tcbs[t].phase == Outside
    requires forall u :: u in s.tcbs && u != t ==> r.tcbs[u].phase == s.tcbs[u].phase
    ensures forall u :: Behind(r, u, m) <==> Behind(s, u, m)
  {
  }

  lemma WaiterBehind(s: State, r: State, t: Task, m: MutexId)
    requires WellFormed(s) && m in s.mutexes && s.mutexes[m].waiters != [] && t in s.tcbs && s.tcbs[t].phase.GivingUp?
    requires r.tcbs.Keys == s.tcbs.Keys
    requires forall u :: u in s.tcbs && u != t ==> r.tcbs[u].phase == s.tcbs[u].phase
    ensures exists u :: Behind(r, u, m)
  {
    HeadWaits(s, m);
    assert Behind(r, s.mutexes[m].waiters[0], m);
  }

  lemma BlockOverlent(s: State, t: Task, h: Task, m: MutexId)
    requires Inv(s) && Enabled(s, Block(t)) && IsHeldBy(s, m, h) && h in s.tcbs && !Overlent(s, h, m)
    ensures !Overlent(Next(s, Block(t)), h, m)
  {
    hide Accounting, WaitersExact, Known, Next;
    BlockEffect(s, t);
    var r, m' := Next(s, Block(t)), s.tcbs[t].phase.mutex;
    if m' == m {
      assert Behind(r, t, m);
    } else {
      var h' := s.mutexes[m'].holder.value;
      if h' == h {
        HoldsBoth(s, m, m', h);
      } else {
        TcbOf(s, h);
        assert forall u :: u in s.tcbs && Behind(s, u, m) ==> Behind(r, u, m);
      }
    }
  }

  lemma SetPriorityOverlent(s: State, t: Task, p: nat, h: Task, m: MutexId)
    requires Inv(s) && Enabled(s, SetPriority(t, p)) && IsHeldBy(s, m, h) && h in s.tcbs && !Overlent(s, h, m)
    ensures !Overlent(Next(s, SetPriority(t, p)), h, m)
  {
    hide Accounting, WaitersExact, Known, Next, Behind;
    SetPriorityEffect(s, t, p);
    TcbOf(s, h);
    SameBehind2(s, Next(s, SetPriority(t, p)), t, m);
  }

  /** A task that comes or goes without standing behind the mutex. */
  lemma PhaseOverlent(s: State, r: State, t: Task, h: Task, m: MutexId)
    requires t in s.tcbs && h in s.tcbs && IsHeldBy(s, m, h) && IsHeldBy(r, m, h) && !Overlent(s, h, m)
    requires r.tcbs.Keys == s.tcbs.Keys && (forall u :: u in s.tcbs && u != t ==> r.tcbs[u] == s.tcbs[u])
    requires r.tcbs[t].priority == s.tcbs[t].priority && r.tcbs[t].basePriority == s.tcbs[t].basePriority
    requires r.tcbs[t].mutexesHeld >= s.tcbs[t].mutexesHeld
    requires s.tcbs[t].mutexesHeld == 0 ==> s.tcbs[t].priority == s.tcbs[t].basePriority
    requires Behind(s, t, m) ==> Behind(r, t, m)
    ensures !Overlent(r, h, m)
  {
    assert forall u :: u in s.tcbs && Behind(s, u, m) ==> Behind(r, u, m);
  }

  /** Whatever the state and the step: the holder of one mutex comes to have a lent priority that nobody accounts for
      exactly when the step is one of the two that strand it. */
  lemma OverlentExact(s: State, step: Step, h: Task, m: MutexId)
    requires Inv(s) && Enabled(s, step) && h in s.tcbs
    requires IsHeldBy(s, m, h) && IsHeldBy(Next(s, step), m, h) && !Overlent(s, h, m)
    ensures Overlent(Next(s, step), h, m) <==> Strands(s, step, h, m)
  {
    hide Accounting, WaitersExact, Known, Overlent, LastUnlent, LeavesOnly, Release, Unwait, DoBlock, DoSettle, DoTake,
         Behind;
    var r := Next(s, step);
    match step
    case Wake(m') =>
      HeadWaits(s, m');
      UnwaitIs(s, s.mutexes[m'].waiters[0]);
      UnwaitOverlent(s, r, s.mutexes[m'].waiters[0], h, m);
      if m' != m {
        LastUnlentElsewhere(s, s.mutexes[m'].waiters[0], h, m);
      }
    case Expire(t) => UnwaitIs(s, t); UnwaitOverlent(s, r, t, h, m);
    case Give(t, m') => GiveEffect(s, t, m'); ReleaseOverlent(s, t, m', h, m);
    case GiveRecursive(t, m') =>
      if IsHeldBy(s, m', t) && s.mutexes[m'].recursiveCallCount == 1 {
        GiveEffect(s, t, m');
        ReleaseOverlent(s, t, m', h, m);
      } else {
        CountOverlent(s, r, h, m);
      }
    case Settle(t) => SettleOverlent(s, t, h, m);
    case Block(t) => BlockOverlent(s, t, h, m);
    case SetPriority(t, p) => SetPriorityOverlent(s, t, p, h, m);
    case Take(t) => TakeOverlent(s, t, h, m);
    case TakeAgain(t, m') => CountOverlent(s, r, h, m);
    case _ => MovesOverlent(s, step, h, m);
  }

  lemma LastUnlentElsewhere(s: State, t: Task, h: Task, m: MutexId)
    requires t in s.tcbs && h in s.tcbs && s.tcbs[t].phase.Waiting? && s.tcbs[t].phase.mutex != m
    ensures !LastUnlent(s, t, h, m)
  {
  }

  lemma UnwaitIs(s: State, t: Task)
    requires Inv(s) && t in s.tcbs && s.tcbs[t].phase.Waiting?
    ensures Unwait(s, t).tcbs == s.tcbs[t := s.tcbs[t].(phase := Trying(s.tcbs[t].phase.mutex,
                                                                        s.tcbs[t].phase.inherited))]
  {
    hide Accounting, WaitersExact;
  }

  lemma CountOverlent(s: State, r: State, h: Task, m: MutexId)
    requires r.tcbs == s.tcbs && h in s.tcbs && IsHeldBy(s, m, h) && IsHeldBy(r, m, h)
    ensures Overlent(r, h, m) <==> Overlent(s, h, m)
  {
    assert forall u :: Behind(r, u, m) <==> Behind(s, u, m);
  }

  lemma TakeOverlent(s: State, t: Task, h: Task, m: MutexId)
    requires Inv(s) && Enabled(s, Take(t)) && h in s.tcbs && IsHeldBy(s, m, h) && !Overlent(s, h, m)
    ensures !Overlent(Next(s, Take(t)), h, m)
  {
    hide Accounting, WaitersExact, Known, Next;
    TakeEffect(s, t);
    TcbOf(s, t);
    PhaseOverlent(s, Next(s, Take(t)), t, h, m);
  }

  lemma FreeHasNoHolder(s: State, t: Task)
    requires Inv(s) && IsTrying(s, t, true)
    ensures s.mutexes[s.tcbs[t].phase.mutex].holder.None?
  {
    hide WaitersExact, Known;
  }

  lemma MovesOverlent(s: State, step: Step, h: Task, m: MutexId)
    requires Inv(s) && Enabled(s, step) && h in s.tcbs && IsHeldBy(s, m, h) && !Overlent(s, h, m)
    requires step.Call? || step.Fail? || step.GiveUp? || step.TryOnce? || step.EnterGroup? || step.LeaveGroup?
    ensures IsHeldBy(Next(s, step), m, h) ==> !Overlent(Next(s, step), h, m)
  {
    hide Accounting, WaitersExact, Known;
    TcbOf(s, step.t);
    if step.TryOnce? {
      FreeHasNoHolder(s, step.t);
    }
    if IsHeldBy(Next(s, step), m, h) {
      PhaseOverlent(s, Next(s, step), step.t, h, m);
    }
  }

  // ---------- a timeout, from end to end ----------

  /** A task that was seen to lend times out: it settles, and a holder of this mutex alone is left with the larger of
      its base priority and what the first task still in line stands for. */
  lemma TimeoutSettles(s: State, t: Task)
    requires Inv(s) && t in s.tcbs && s.tcbs[t].phase.Waiting? && s.tcbs[t].phase.inherited
    requires s.tcbs[t].phase.mutex in s.mutexes && s.mutexes[s.tcbs[t].phase.mutex].holder.Some?
    ensures CanRun(s, [Expire(t), GiveUp(t), Settle(t)])
    ensures var r, m := After(s, [Expire(t), GiveUp(t), Settle(t)]), s.tcbs[t].phase.mutex;
            var h := s.mutexes[m].holder.value;
            && Inv(r) && t in r.tcbs && r.tcbs[t].phase == Outside
            && m in r.mutexes && r.mutexes[m].holder == Some(h) && h in s.tcbs && h in r.tcbs
            && (forall u :: u in r.mutexes[m].waiters <==> u in s.mutexes[m].waiters && u != t)
            && (s.tcbs[h].mutexesHeld == 1 ==> r.tcbs[h].priority == Max(s.tcbs[h].basePriority, FirstInLine(r, m)))
            && (s.tcbs[h].mutexesHeld > 1 ==> r.tcbs[h].priority == s.tcbs[h].priority)
  {
    hide Accounting, WaitersExact, CanRun, After, Unwait;
    var m := s.tcbs[t].phase.mutex;
    HeldHasHolder(s, m);
    HolderHolds(s, m);
    InvStep(s, Expire(t));
    UnwaitEffect(s, t);
    var a := Next(s, Expire(t));
    HeldHasHolder(a, m);
    InvStep(a, GiveUp(t));
    var b := Next(a, GiveUp(t));
    HeldHasHolder(b, m);
    InvStep(b, Settle(t));
    SettleEffect(b, t);
    var r := Next(b, Settle(t));
    SameFirst(b, r, t, m);
    RunOfThree(s, Expire(t), GiveUp(t), Settle(t), a, b, r);
  }

  /** Who gives up is in no line. */
  lemma SameFirst(b: State, r: State, t: Task, m: MutexId)
    requires Inv(b) && Inv(r) && m in b.mutexes && m in r.mutexes && r.mutexes == b.mutexes
             && r.tcbs.Keys == b.tcbs.Keys
    requires b.mutexes[m].holder.Some? && t in b.tcbs && b.tcbs[t].phase.GivingUp?
    requires forall u :: u in b.tcbs && b.mutexes[m].holder != Some(u) ==>
                           r.tcbs[u] == b.tcbs[u].(phase := r.tcbs[u].phase)
    requires forall u :: u in b.tcbs && u != t ==> r.tcbs[u].phase == b.tcbs[u].phase
    ensures b.mutexes[m].waiters != [] && b.mutexes[m].holder != Some(b.mutexes[m].waiters[0]) ==>
              FirstInLine(r, m) == FirstInLine(b, m)
    ensures b.mutexes[m].waiters == [] ==> FirstInLine(r, m) == FirstInLine(b, m)
  {
    hide Accounting;
    if b.mutexes[m].waiters != [] {
      HeadWaits(b, m);
    }
  }

  lemma RunOfThree(s: State, a: Step, b: Step, c: Step, q: State, r: State, t: State)
    requires Inv(s) && Enabled(s, a) && Next(s, a) == q && Inv(q) && Enabled(q, b) && Next(q, b) == r
    requires Inv(r) && Enabled(r, c) && Next(r, c) == t
    ensures CanRun(s, [a, b, c]) && After(s, [a, b, c]) == t
  {
    hide Next, Enabled, Inv;
    RunOfTwo(s, a, b, r);
    Extend(s, [a, b], c);
    assert [a, b] + [c] == [a, b, c];
  }

  // ---------- runs that leave nothing owing ----------

  /** The task waits for the mutex and was not seen to lend. */
  predicate Unlent(s: State, w: Task, m: MutexId) {
    w in s.tcbs && s.tcbs[w].phase == Waiting(m, false)
  }

  /** A plain step, and a task takes a mutex only if it holds none and nobody waits for it who would have lent to it
      and was not seen to. */
  ghost predicate Careful(s: State, step: Step) {
    && Plain(s, step)
    && (step.Take? ==>
          && step.t in s.tcbs && s.tcbs[step.t].mutexesHeld == 0 && s.tcbs[step.t].phase.Trying?
          && forall w :: Unlent(s, w, s.tcbs[step.t].phase.mutex) ==> s.tcbs[w].priority <= s.tcbs[step.t].basePriority)
  }

  /** The holder's priority is its own, or somebody behind the mutex has as high a one. */
  ghost predicate Backed(s: State, m: MutexId) {
    m in s.mutexes && s.mutexes[m].holder.Some? ==>
      var h := s.mutexes[m].holder.value;
      && h in s.tcbs
      && (s.tcbs[h].priority == s.tcbs[h].basePriority
          || exists u :: Behind(s, u, m) && s.tcbs[u].priority >= s.tcbs[h].priority)
  }

  /** Who waits and was not seen to lend had nothing to lend. */
  ghost predicate NothingOwed(s: State, m: MutexId) {
    m in s.mutexes && s.mutexes[m].holder.Some? ==>
      var h := s.mutexes[m].holder.value;
      h in s.tcbs && forall w :: Unlent(s, w, m) ==> s.tcbs[w].priority <= s.tcbs[h].basePriority
  }

  /** No task holds two mutexes, and none that stands behind a mutex holds one. */
  ghost predicate Light(s: State) {
    && (forall t :: t in s.tcbs ==> s.tcbs[t].mutexesHeld <= 1)
    && (forall t, m :: Behind(s, t, m) ==> s.tcbs[t].mutexesHeld == 0)
  }

  ghost predicate Books(s: State) {
    Light(s) && forall m :: Backed(s, m) && NothingOwed(s, m)
  }

  /** The holder, and those behind it, are as they were. */
  lemma StillBacked(s: State, r: State, m: MutexId)
    requires Backed(s, m) && NothingOwed(s, m) && m in s.mutexes && m in r.mutexes
             && r.mutexes[m].holder == s.mutexes[m].holder
    requires s.mutexes[m].holder.Some? && s.mutexes[m].holder.value in r.tcbs
    requires var h := s.mutexes[m].holder.value;
             && h in s.tcbs && s.tcbs[h].basePriority <= s.tcbs[h].priority
             && r.tcbs[h].priority == s.tcbs[h].priority && r.tcbs[h].basePriority == s.tcbs[h].basePriority
    requires forall u :: Behind(s, u, m) ==>
                           u in r.tcbs && r.tcbs[u].priority == s.tcbs[u].priority &&
                           (Behind(r, u, m) || s.tcbs[u].priority <= s.tcbs[s.mutexes[m].holder.value].basePriority)
    requires forall w :: Unlent(r, w, m) ==> Unlent(s, w, m) && r.tcbs[w].priority == s.tcbs[w].priority
    ensures Backed(r, m) && NothingOwed(r, m)
  {
    var h := s.mutexes[m].holder.value;
    if r.tcbs[h].priority != r.tcbs[h].basePriority {
      var u :| Behind(s, u, m) && s.tcbs[u].priority >= s.tcbs[h].priority;
      assert Behind(r, u, m);
    }
  }

  /** Who holds a mutex stands behind none. */
  lemma HolderBehindNone(s: State, m: MutexId)
    requires Inv(s) && Light(s) && m in s.mutexes && s.mutexes[m].holder.Some?
    ensures var h := s.mutexes[m].holder.value;
            && h in s.tcbs && s.tcbs[h].mutexesHeld == 1 && s.tcbs[h].basePriority <= s.tcbs[h].priority
            && forall m' :: !Behind(s, h, m')
  {
    HolderHolds(s, m);
    HeldHasHolder(s, m);
  }

  lemma HoldsOne(s: State, m: MutexId, m': MutexId)
    requires Inv(s) && Light(s) && m in s.mutexes && s.mutexes[m].holder.Some?
    requires m' in s.mutexes && s.mutexes[m'].holder == s.mutexes[m].holder
    ensures m' == m
  {
    HolderBehindNone(s, m);
    if m' != m {
      HoldsBoth(s, m, m', s.mutexes[m].holder.value);
    }
  }

  lemma UnwaitBooks(s: State, t: Task, r: State)
    requires Inv(s) && Books(s) && t in s.tcbs && s.tcbs[t].phase.Waiting? && r == Unwait(s, t)
    ensures Books(r)
  {
    hide Accounting, WaitersExact, Known, Unwait, Backed, NothingOwed;
    UnwaitEffect(s, t);
    assert forall u, m :: Behind(r, u, m) ==> Behind(s, u, m);
    forall m
      ensures Backed(r, m) && NothingOwed(r, m)
    {
      assert Backed(s, m) && NothingOwed(s, m);
      if m in s.mutexes && s.mutexes[m].holder.Some? {
        HeldHasHolder(s, m);
        UnlentOwesNothing(s, m, t);
        StillBacked(s, r, m);
      } else {
        NoHolder(r, m);
      }
    }
  }

  lemma NoHolder(r: State, m: MutexId)
    requires m !in r.mutexes || r.mutexes[m].holder.None?
    ensures Backed(r, m) && NothingOwed(r, m)
  {
  }

  lemma UnlentOwesNothing(s: State, m: MutexId, t: Task)
    requires NothingOwed(s, m) && m in s.mutexes && s.mutexes[m].holder.Some? && t in s.tcbs
    ensures s.mutexes[m].holder.value in s.tcbs
    ensures s.tcbs[t].phase == Waiting(m, false)
            ==> s.tcbs[t].priority <= s.tcbs[s.mutexes[m].holder.value].basePriority
  {
    assert s.tcbs[t].phase == Waiting(m, false) ==> Unlent(s, t, m);
  }

  /** A task changes its phase, and leaves no mutex that it stands behind while somebody holds it. */
  lemma PhaseBooks(s: State, t: Task, r: State)
    requires Inv(s) && Books(s) && t in s.tcbs && r.tcbs.Keys == s.tcbs.Keys && r.mutexes == s.mutexes
    requires forall u :: u in s.tcbs && u != t ==> r.tcbs[u] == s.tcbs[u]
    requires r.tcbs[t].priority == s.tcbs[t].priority && r.tcbs[t].basePriority == s.tcbs[t].basePriority
    requires r.tcbs[t].mutexesHeld == s.tcbs[t].mutexesHeld && !r.tcbs[t].phase.Waiting?
    requires forall m :: Behind(r, t, m) ==> Behind(s, t, m)
    requires forall m :: m in s.mutexes && s.mutexes[m].holder.Some? && Behind(s, t, m) ==> Behind(r, t, m)
    ensures Books(r)
  {
    hide Accounting, WaitersExact, Known, Backed, NothingOwed;
    assert forall u, m :: Behind(r, u, m) ==> Behind(s, u, m);
    forall m
      ensures Backed(r, m) && NothingOwed(r, m)
    {
      assert Backed(s, m) && NothingOwed(s, m);
      if m in s.mutexes && s.mutexes[m].holder.Some? {
        HeldHasHolder(s, m);
        StillBacked(s, r, m);
      } else {
        NoHolder(r, m);
      }
    }
  }

  lemma CountBooks(s: State, r: State)
    requires Inv(s) && Books(s) && r.tcbs == s.tcbs && r.mutexes.Keys == s.mutexes.Keys
    requires forall m :: m in s.mutexes ==> r.mutexes[m].holder == s.mutexes[m].holder
    ensures Books(r)
  {
    hide Accounting, WaitersExact, Known, Backed, NothingOwed;
    forall m
      ensures Backed(r, m) && NothingOwed(r, m)
    {
      assert Backed(s, m) && NothingOwed(s, m);
      if m in s.mutexes && s.mutexes[m].holder.Some? {
        HeldHasHolder(s, m);
        StillBacked(s, r, m);
      } else {
        NoHolder(r, m);
      }
    }
    assert forall t, m :: Behind(r, t, m) ==> Behind(s, t, m);
  }

  lemma ReleaseBooks(s: State, t: Task, m0: MutexId)
    requires Inv(s) && Books(s) && t in s.tcbs && s.tcbs[t].phase.Outside? && IsHeldBy(s, m0, t)
    ensures Books(Release(s, t, m0))
  {
    hide Accounting, WaitersExact, Known, Backed, NothingOwed, Release;
    var r := Release(s, t, m0);
    GiveEffect(s, t, m0);
    forall m
      ensures Backed(r, m) && NothingOwed(r, m)
    {
      assert Backed(s, m) && NothingOwed(s, m);
      if m != m0 && m in s.mutexes && s.mutexes[m].holder.Some? {
        HeldHasHolder(s, m);
        if s.mutexes[m].holder == Some(t) {
          HoldsOne(s, m0, m);
        } else {
          StillBacked(s, r, m);
        }
      } else {
        NoHolder(r, m);
      }
    }
    assert forall u, m :: Behind(r, u, m) ==> Behind(s, u, m);
  }

  lemma TakeBooks(s: State, t: Task)
    requires Inv(s) && Books(s) && Enabled(s, Take(t)) && Careful(s, Take(t))
    ensures Books(Next(s, Take(t)))
  {
    hide Accounting, WaitersExact, Known, Backed, NothingOwed, Next;
    var r, m0 := Next(s, Take(t)), s.tcbs[t].phase.mutex;
    TakeEffect(s, t);
    TcbOf(s, t);
    forall m
      ensures Backed(r, m) && NothingOwed(r, m)
    {
      assert Backed(s, m) && NothingOwed(s, m);
      if m == m0 {
        TakenBacked(s, r, t, m);
      } else if m in s.mutexes && s.mutexes[m].holder.Some? {
        HolderBehindNone(s, m);
        StillBacked(s, r, m);
      } else {
        NoHolder(r, m);
      }
    }
    assert forall u, m :: Behind(r, u, m) ==> u != t && Behind(s, u, m);
  }

  lemma TakenBacked(s: State, r: State, t: Task, m: MutexId)
    requires t in s.tcbs && t in r.tcbs && m in r.mutexes && r.mutexes[m].holder == Some(t)
    requires r.tcbs[t].priority == r.tcbs[t].basePriority == s.tcbs[t].basePriority && r.tcbs[t].phase.Outside?
    requires r.tcbs.Keys == s.tcbs.Keys && forall u :: u in s.tcbs && u != t ==> r.tcbs[u] == s.tcbs[u]
    requires forall w :: Unlent(s, w, m) ==> s.tcbs[w].priority <= s.tcbs[t].basePriority
    ensures Backed(r, m) && NothingOwed(r, m)
  {
    forall w | Unlent(r, w, m)
      ensures r.tcbs[w].priority <= r.tcbs[t].basePriority
    {
      assert Unlent(s, w, m);
    }
  }

  lemma BlockBooks(s: State, t: Task)
    requires Inv(s) && Books(s) && Enabled(s, Block(t)) && s.tcbs[t].mutexesHeld == 0
    ensures Books(Next(s, Block(t)))
  {
    hide Accounting, WaitersExact, Known, Backed, NothingOwed, Next;
    var r, m0 := Next(s, Block(t)), s.tcbs[t].phase.mutex;
    BlockEffect(s, t);
    HolderBehindNone(s, m0);
    forall m
      ensures Backed(r, m) && NothingOwed(r, m)
    {
      assert Backed(s, m) && NothingOwed(s, m);
      if m == m0 {
        LentBacked(s, r, t, m);
      } else if m in s.mutexes && s.mutexes[m].holder.Some? {
        HolderBehindNone(s, m);
        if s.mutexes[m].holder == s.mutexes[m0].holder {
          HoldsOne(s, m, m0);
        } else {
          StillBacked(s, r, m);
        }
      } else {
        NoHolder(r, m);
      }
    }
    assert forall u, m :: Behind(r, u, m) ==> u == t || Behind(s, u, m);
  }

  /** The new waiter, or whoever was behind the mutex before, accounts for the holder's priority. */
  lemma LentBacked(s: State, r: State, t: Task, m: MutexId)
    requires Inv(s) && Backed(s, m) && NothingOwed(s, m) && m in s.mutexes && m in r.mutexes
    requires t in s.tcbs && s.tcbs[t].phase.Trying? && s.mutexes[m].holder.Some?
             && r.mutexes[m].holder == s.mutexes[m].holder
    requires var h := s.mutexes[m].holder.value;
             && h in s.tcbs && h != t && (forall m' :: !Behind(s, h, m'))
             && r.tcbs.Keys == s.tcbs.Keys && (forall u :: u in s.tcbs && u != t && u != h ==> r.tcbs[u] == s.tcbs[u])
             && r.tcbs[h].priority == Max(s.tcbs[h].priority, s.tcbs[t].priority) && r.tcbs[h].phase == s.tcbs[h].phase
             && r.tcbs[h].basePriority == s.tcbs[h].basePriority && r.tcbs[t].priority == s.tcbs[t].priority
             && r.tcbs[t].phase == Waiting(m, s.tcbs[h].basePriority < s.tcbs[t].priority
                                              || s.tcbs[h].priority < s.tcbs[t].priority)
    ensures Backed(r, m) && NothingOwed(r, m)
  {
    hide Accounting, WaitersExact, Known;
    var h := s.mutexes[m].holder.value;
    assert Behind(r, t, m);
    if s.tcbs[h].priority >= s.tcbs[t].priority && s.tcbs[h].priority != s.tcbs[h].basePriority {
      var u :| Behind(s, u, m) && s.tcbs[u].priority >= s.tcbs[h].priority;
      assert Behind(r, u, m);
    }
    forall w | Unlent(r, w, m)
      ensures r.tcbs[w].priority <= r.tcbs[h].basePriority
    {
      assert w != t ==> Unlent(s, w, m);
    }
  }

  lemma SettleBooks(s: State, t: Task)
    requires Inv(s) && Orderly(s) && Books(s) && Enabled(s, Settle(t))
    ensures Books(Next(s, Settle(t)))
  {
    hide Accounting, WaitersExact, Backed, NothingOwed, Next, Orderly;
    var r, m0 := Next(s, Settle(t)), s.tcbs[t].phase.mutex;
    SettleEffect(s, t);
    assert forall u, m :: Behind(r, u, m) ==> Behind(s, u, m);
    forall m
      ensures Backed(r, m) && NothingOwed(r, m)
    {
      assert Backed(s, m) && NothingOwed(s, m);
      if m in s.mutexes && s.mutexes[m].holder.Some? {
        if m == m0 {
          HolderBehindNone(s, m);
          SettledBacked(s, r, t, m);
        } else {
          SettledElsewhere(s, t, m);
        }
      } else {
        NoHolder(r, m);
      }
    }
  }

  lemma SettledElsewhere(s: State, t: Task, m: MutexId)
    requires Inv(s) && Light(s) && Backed(s, m) && NothingOwed(s, m) && Enabled(s, Settle(t))
    requires m in s.mutexes && s.mutexes[m].holder.Some? && s.tcbs[t].phase.mutex != m
    ensures Backed(Next(s, Settle(t)), m) && NothingOwed(Next(s, Settle(t)), m)
  {
    hide Accounting, WaitersExact, Backed, NothingOwed, Next, Light;
    var r, m0 := Next(s, Settle(t)), s.tcbs[t].phase.mutex;
    SettleEffect(s, t);
    HolderBehindNone(s, m);
    if s.mutexes[m0].holder == s.mutexes[m].holder {
      HoldsOne(s, m, m0);
    }
    HoldersApart(s, m, m0);
    StillBacked(s, r, m);
  }

  lemma HoldersApart(s: State, m: MutexId, m0: MutexId)
    requires Inv(s) && Light(s) && m in s.mutexes && m0 in s.mutexes
    ensures s.mutexes[m0].holder.Some? ==> forall u: Task :: Behind(s, u, m) ==> s.mutexes[m0].holder != Some(u)
  {
    if s.mutexes[m0].holder.Some? {
      HolderBehindNone(s, m0);
    }
  }

  /** The first task in line accounts for what the holder is left with. */
  lemma SettledBacked(s: State, r: State, t: Task, m: MutexId)
    requires Inv(s) && Orderly(s) && NothingOwed(s, m) && m in s.mutexes && s.mutexes[m].holder.Some? && t in s.tcbs
    requires s.tcbs[t].phase == GivingUp(m) && r.mutexes == s.mutexes && r.tcbs.Keys == s.tcbs.Keys
    requires var h := s.mutexes[m].holder.value;
             && h in s.tcbs && (forall m' :: !Behind(s, h, m'))
             && (forall u :: u in s.tcbs && u != h ==> r.tcbs[u] == s.tcbs[u].(phase := r.tcbs[u].phase))
             && (forall u :: u in s.tcbs && u != t ==> r.tcbs[u].phase == s.tcbs[u].phase) && r.tcbs[t].phase == Outside
             && r.tcbs[h].basePriority == s.tcbs[h].basePriority
             && r.tcbs[h].priority == Max(s.tcbs[h].basePriority, FirstInLine(s, m))
    ensures Backed(r, m) && NothingOwed(r, m)
  {
    hide Accounting;
    var h := s.mutexes[m].holder.value;
    if s.mutexes[m].waiters != [] {
      HeadWaits(s, m);
      assert Behind(r, s.mutexes[m].waiters[0], m);
    }
    forall w | Unlent(r, w, m)
      ensures r.tcbs[w].priority <= r.tcbs[h].basePriority
    {
      assert Unlent(s, w, m) && Behind(s, w, m);
    }
  }

  lemma MovesBooks(s: State, step: Step)
    requires Inv(s) && Books(s) && Enabled(s, step)
    requires step.Call? || step.Fail? || step.GiveUp? || step.TryOnce? || step.EnterGroup? || step.LeaveGroup?
    ensures Books(Next(s, step))
  {
    hide Accounting, WaitersExact, Known, Books;
    if step.TryOnce? {
      FreeHasNoHolder(s, step.t);
    }
    PhaseBooks(s, step.t, Next(s, step));
  }

  lemma BooksStep(s: State, step: Step)
    requires Inv(s) && Orderly(s) && Books(s) && Enabled(s, step) && Careful(s, step)
    ensures Books(Next(s, step))
  {
    hide Accounting, WaitersExact, Known, Books, Orderly, Release, Unwait, DoBlock, DoSettle, DoTake;
    match step
    case Wake(m) => HeadWaits(s, m); UnwaitBooks(s, s.mutexes[m].waiters[0], Next(s, step));
    case Expire(t) => UnwaitBooks(s, t, Next(s, step));
    case Give(t, m) => ReleaseBooks(s, t, m);
    case GiveRecursive(t, m) =>
      if IsHeldBy(s, m, t) && s.mutexes[m].recursiveCallCount == 1 {
        ReleaseBooks(s, t, m);
      } else {
        CountBooks(s, Next(s, step));
      }
    case Settle(t) => SettleBooks(s, t);
    case Block(t) => BlockBooks(s, t);
    case Take(t) => TakeBooks(s, t);
    case TakeAgain(t, m) => CountBooks(s, Next(s, step));
    case _ => MovesBooks(s, step);
  }

  ghost predicate CarefulRun(s: State, steps: seq<Step>)
    requires Inv(s) && CanRun(s, steps)
    decreases |steps|
  {
    steps != [] ==> Careful(s, steps[0]) && (InvStep(s, steps[0]); CarefulRun(Next(s, steps[0]), steps[1..]))
  }

  lemma {:induction false} BooksAlways(s: State, steps: seq<Step>)
    requires Inv(s) && Orderly(s) && Books(s) && CanRun(s, steps) && CarefulRun(s, steps)
    ensures Inv(After(s, steps)) && Books(After(s, steps))
    decreases |steps|
  {
    hide Next, Enabled, Inv, Orderly, Books;
    if steps != [] {
      InvStep(s, steps[0]);
      OrderlyStep(s, steps[0]);
      BooksStep(s, steps[0]);
      BooksAlways(Next(s, steps[0]), steps[1..]);
    }
  }

  /** Nothing is lent for longer than somebody accounts for it, over any careful run: a holder has its own priority, or
      one that a task has that waits for the mutex, tries again after it lent, or has still to settle. */
  lemma NothingStaysLent(s: State, steps: seq<Step>, m: MutexId)
    requires Init(s)
    requires (InitInv(s); CanRun(s, steps) && CarefulRun(s, steps))
    ensures (InitInv(s);
             var r := After(s, steps);
             m in r.mutexes && r.mutexes[m].holder.Some? ==>
               var h := r.mutexes[m].holder.value;
               && h in r.tcbs
               && (r.tcbs[h].priority == r.tcbs[h].basePriority
                   || exists u :: Behind(r, u, m) && r.tcbs[u].priority >= r.tcbs[h].priority)
               && ((forall u :: !Behind(r, u, m)) ==> r.tcbs[h].priority == r.tcbs[h].basePriority))
  {
    hide CanRun, CarefulRun, After;
    InitInv(s);
    BooksAlways(s, steps);
    assert Backed(After(s, steps), m);
  }

  // ---------- the two ways to be stranded ----------

  /** Four tasks, and two mutexes of which the second has nobody waiting. */
  function Situation(zero: Tcb, one: Tcb, two: Tcb, three: Tcb, holder: Option<Task>, waiters: seq<Task>,
                     second: Option<Task>): State
  {
    State(map[0 := zero, 1 := one, 2 := two, 3 := three], map[0 := Plainly(holder, waiters), 1 := Plainly(second, [])])
  }

  function Plainly(holder: Option<Task>, waiters: seq<Task>): Mutex {
    Mutex(false, if holder.None? then 1 else 0, holder, 0, waiters)
  }

  const QUIET: State := Situation(LOW, MIDDLE, HIGH, FOURTH, None, [], None)

  lemma QuietIsInitial()
    ensures Init(QUIET) && Inv(QUIET)
  {
    InitInv(QUIET);
  }

  // Task 0 takes both mutexes; task 2 waits for the first one and gives up; task 0 gives the second one back.

  const FIRST_TAKEN: State := Situation(LOW.(mutexesHeld := 1), MIDDLE, HIGH, FOURTH, Some(0), [], None)
  const BOTH_TAKEN: State := Situation(LOW.(mutexesHeld := 2), MIDDLE, HIGH, FOURTH, Some(0), [], Some(0))
  const LENT_SEVEN: Tcb := Tcb(7, 1, 2, 25, Outside)
  const HIGH_LENDS: State := Situation(LENT_SEVEN, MIDDLE, HIGH.(phase := WAITS), FOURTH, Some(0), [2], Some(0))
  const HIGH_LEAVES: State := Situation(LENT_SEVEN, MIDDLE, HIGH.(phase := GivingUp(0)), FOURTH, Some(0), [], Some(0))
  const KEPT: State := Situation(LENT_SEVEN.(mutexesHeld := 1), MIDDLE, HIGH, FOURTH, Some(0), [], None)

  const ZERO_CALLS: State := Situation(LOW.(phase := Trying(0, false)), MIDDLE, HIGH, FOURTH, None, [], None)

  lemma TakesFirstFirst()
    requires Inv(QUIET)
    ensures Enabled(QUIET, Call(0, 0)) && Next(QUIET, Call(0, 0)) == ZERO_CALLS
  {
    hide WaitersExact, Accounting;
  }

  lemma TakesFirstSecond()
    requires Inv(ZERO_CALLS)
    ensures Enabled(ZERO_CALLS, Take(0)) && Next(ZERO_CALLS, Take(0)) == FIRST_TAKEN
  {
    hide WaitersExact, Accounting;
  }

  lemma TakesFirst()
    requires Inv(QUIET)
    ensures CanRun(QUIET, [Call(0, 0), Take(0)]) && After(QUIET, [Call(0, 0), Take(0)]) == FIRST_TAKEN
  {
    hide Inv, Next, Enabled, CanRun, After;
    TakesFirstFirst();
    InvStep(QUIET, Call(0, 0));
    TakesFirstSecond();
    RunOfTwo(QUIET, Call(0, 0), Take(0), FIRST_TAKEN);
  }

  lemma TakesSecond()
    requires Inv(FIRST_TAKEN)
    ensures CanRun(FIRST_TAKEN, [Call(0, 1), Take(0)]) && After(FIRST_TAKEN, [Call(0, 1), Take(0)]) == BOTH_TAKEN
  {
    hide WaitersExact, Accounting, CanRun, After;
    InvStep(FIRST_TAKEN, Call(0, 1));
    RunOfTwo(FIRST_TAKEN, Call(0, 1), Take(0), BOTH_TAKEN);
  }

  lemma HighLends()
    requires Inv(BOTH_TAKEN)
    ensures CanRun(BOTH_TAKEN, [Call(2, 0), Block(2)]) && After(BOTH_TAKEN, [Call(2, 0), Block(2)]) == HIGH_LENDS
  {
    hide WaitersExact, Accounting, CanRun, After;
    InvStep(BOTH_TAKEN, Call(2, 0));
    assert InsertAt<Task>([], 0, 2) == [2];
    RunOfTwo(BOTH_TAKEN, Call(2, 0), Block(2), HIGH_LENDS);
  }

  lemma HighLeaves()
    requires Inv(HIGH_LENDS)
    ensures CanRun(HIGH_LENDS, [Expire(2), GiveUp(2)]) && After(HIGH_LENDS, [Expire(2), GiveUp(2)]) == HIGH_LEAVES
  {
    hide WaitersExact, Accounting, CanRun, After;
    InvStep(HIGH_LENDS, Expire(2));
    assert RemoveAt<Task>([2], 0) == [];
    RunOfTwo(HIGH_LENDS, Expire(2), GiveUp(2), HIGH_LEAVES);
  }

  const HIGH_LEFT: State := Situation(LENT_SEVEN, MIDDLE, HIGH, FOURTH, Some(0), [], Some(0))

  lemma SecondGivenFirst()
    requires Inv(HIGH_LEAVES)
    ensures Enabled(HIGH_LEAVES, Settle(2)) && Next(HIGH_LEAVES, Settle(2)) == HIGH_LEFT
  {
    hide WaitersExact, Accounting;
  }

  lemma SecondGivenSecond()
    requires Inv(HIGH_LEFT)
    ensures Enabled(HIGH_LEFT, Give(0, 1)) && Next(HIGH_LEFT, Give(0, 1)) == KEPT
  {
    hide WaitersExact, Accounting;
  }

  lemma SecondGiven()
    requires Inv(HIGH_LEAVES)
    ensures CanRun(HIGH_LEAVES, [Settle(2), Give(0, 1)]) && After(HIGH_LEAVES, [Settle(2), Give(0, 1)]) == KEPT
  {
    hide Inv, Next, Enabled, CanRun, After;
    SecondGivenFirst();
    InvStep(HIGH_LEAVES, Settle(2));
    SecondGivenSecond();
    RunOfTwo(HIGH_LEAVES, Settle(2), Give(0, 1), KEPT);
  }

  // Task 2 holds the mutex, and tasks 1 and 3 wait for it without lending. Task 2 gives it back and task 1 is woken,
  // but task 0 takes it. Task 1 waits again, lends, and gives up; task 0 keeps what task 3 stands for; task 3 gives up.

  const TWO_HOLDS: State := Situation(LOW, MIDDLE, HIGH.(mutexesHeld := 1), FOURTH, Some(2), [], None)
  const UNLENT: Phase := Waiting(0, false)
  const ONE_UNLENT: State := Situation(LOW, MIDDLE.(phase := UNLENT), HIGH.(mutexesHeld := 1), FOURTH, Some(2), [1],
                                       None)
  const BOTH_UNLENT: State :=
    Situation(LOW, MIDDLE.(phase := UNLENT), HIGH.(mutexesHeld := 1), FOURTH.(phase := UNLENT), Some(2), [1, 3], None)
  const ONE_WOKEN: State :=
    Situation(LOW, MIDDLE.(phase := Trying(0, false)), HIGH, FOURTH.(phase := UNLENT), None, [3], None)
  const OVERTAKEN: State :=
    Situation(LOW.(mutexesHeld := 1), MIDDLE.(phase := Trying(0, false)), HIGH, FOURTH.(phase := UNLENT), Some(0), [3],
              None)
  const ONE_BACK: State :=
    Situation(LENT, MIDDLE.(phase := Trying(0, true)), HIGH, FOURTH.(phase := UNLENT), Some(0), [3], None)
  const ONE_GONE: State :=
    Situation(Tcb(2, 1, 1, 30, Outside), MIDDLE, HIGH, FOURTH.(phase := UNLENT), Some(0), [3], None)
  const FOR_NOBODY: State := Situation(Tcb(2, 1, 1, 30, Outside), MIDDLE, HIGH, FOURTH, Some(0), [], None)

  lemma TwoTakes()
    requires Inv(QUIET)
    ensures CanRun(QUIET, [Call(2, 0), Take(2)]) && After(QUIET, [Call(2, 0), Take(2)]) == TWO_HOLDS
  {
    hide WaitersExact, Accounting, CanRun, After;
    InvStep(QUIET, Call(2, 0));
    RunOfTwo(QUIET, Call(2, 0), Take(2), TWO_HOLDS);
  }

  const ONE_CALLS: State := Situation(LOW, MIDDLE.(phase := Trying(0, false)), HIGH.(mutexesHeld := 1), FOURTH,
                                      Some(2), [], None)

  lemma OneWaitsUnlentFirst()
    requires Inv(TWO_HOLDS)
    ensures Enabled(TWO_HOLDS, Call(1, 0)) && Next(TWO_HOLDS, Call(1, 0)) == ONE_CALLS
  {
    hide WaitersExact, Accounting;
  }

  lemma OneWaitsUnlentSecond()
    requires Inv(ONE_CALLS)
    ensures Enabled(ONE_CALLS, Block(1)) && Next(ONE_CALLS, Block(1)) == ONE_UNLENT
  {
    hide WaitersExact, Accounting;
    assert InsertAt<Task>([], 0, 1) == [1];
  }

  lemma OneWaitsUnlent()
    requires Inv(TWO_HOLDS)
    ensures CanRun(TWO_HOLDS, [Call(1, 0), Block(1)]) && After(TWO_HOLDS, [Call(1, 0), Block(1)]) == ONE_UNLENT
  {
    hide Inv, Next, Enabled, CanRun, After;
    OneWaitsUnlentFirst();
    InvStep(TWO_HOLDS, Call(1, 0));
    OneWaitsUnlentSecond();
    RunOfTwo(TWO_HOLDS, Call(1, 0), Block(1), ONE_UNLENT);
  }

  lemma FourthWaitsUnlent()
    requires Inv(ONE_UNLENT)
    ensures CanRun(ONE_UNLENT, [Call(3, 0), Block(3)]) && After(ONE_UNLENT, [Call(3, 0), Block(3)]) == BOTH_UNLENT
  {
    hide WaitersExact, Accounting, CanRun, After;
    InvStep(ONE_UNLENT, Call(3, 0));
    assert InsertAt<Task>([1], 1, 3) == [1, 3];
    RunOfTwo(ONE_UNLENT, Call(3, 0), Block(3), BOTH_UNLENT);
  }

  const GIVEN_BACK: State := Situation(LOW, MIDDLE.(phase := UNLENT), HIGH, FOURTH.(phase := UNLENT), None, [1, 3],
                                       None)

  lemma OneIsWokenFirst()
    requires Inv(BOTH_UNLENT)
    ensures Enabled(BOTH_UNLENT, Give(2, 0)) && Next(BOTH_UNLENT, Give(2, 0)) == GIVEN_BACK
  {
    hide WaitersExact, Accounting;
  }

  lemma OneIsWokenSecond()
    requires Inv(GIVEN_BACK)
    ensures Enabled(GIVEN_BACK, Wake(0)) && Next(GIVEN_BACK, Wake(0)) == ONE_WOKEN
  {
    hide WaitersExact, Accounting, HeldBy, NoDuplicates, Unwait;
    OneLeavesLine();
  }

  lemma OneLeavesLine()
    requires WellFormed(GIVEN_BACK)
    ensures Unwait(GIVEN_BACK, 1) == ONE_WOKEN
  {
    hide WellFormed;
    assert RemoveAt<Task>([1, 3], 0) == [3] && IndexOf<Task>([1, 3], 1) == 0;
  }

  lemma OneIsWoken()
    requires Inv(BOTH_UNLENT)
    ensures CanRun(BOTH_UNLENT, [Give(2, 0), Wake(0)]) && After(BOTH_UNLENT, [Give(2, 0), Wake(0)]) == ONE_WOKEN
  {
    hide Inv, Next, Enabled, CanRun, After;
    OneIsWokenFirst();
    InvStep(BOTH_UNLENT, Give(2, 0));
    OneIsWokenSecond();
    RunOfTwo(BOTH_UNLENT, Give(2, 0), Wake(0), ONE_WOKEN);
  }

  lemma ZeroOvertakes()
    requires Inv(ONE_WOKEN)
    ensures CanRun(ONE_WOKEN, [Call(0, 0), Take(0)]) && After(ONE_WOKEN, [Call(0, 0), Take(0)]) == OVERTAKEN
  {
    hide WaitersExact, Accounting, CanRun, After;
    InvStep(ONE_WOKEN, Call(0, 0));
    RunOfTwo(ONE_WOKEN, Call(0, 0), Take(0), OVERTAKEN);
  }

  lemma OneLends()
    requires Inv(OVERTAKEN)
    ensures CanRun(OVERTAKEN, [Block(1), Expire(1)]) && After(OVERTAKEN, [Block(1), Expire(1)]) == ONE_BACK
  {
    hide WaitersExact, Accounting, CanRun, After;
    InvStep(OVERTAKEN, Block(1));
    assert InsertAt<Task>([3], 0, 1) == [1, 3];
    assert RemoveAt<Task>([1, 3], 0) == [3];
    RunOfTwo(OVERTAKEN, Block(1), Expire(1), ONE_BACK);
  }

  lemma OneGoes()
    requires Inv(ONE_BACK)
    ensures CanRun(ONE_BACK, [GiveUp(1), Settle(1)]) && After(ONE_BACK, [GiveUp(1), Settle(1)]) == ONE_GONE
  {
    hide WaitersExact, Accounting, CanRun, After;
    InvStep(ONE_BACK, GiveUp(1));
    RunOfTwo(ONE_BACK, GiveUp(1), Settle(1), ONE_GONE);
  }

  lemma FourthGoes()
    requires Inv(ONE_GONE)
    ensures CanRun(ONE_GONE, [Expire(3), GiveUp(3)]) && After(ONE_GONE, [Expire(3), GiveUp(3)]) == FOR_NOBODY
  {
    hide WaitersExact, Accounting, CanRun, After;
    InvStep(ONE_GONE, Expire(3));
    assert RemoveAt<Task>([3], 0) == [];
    RunOfTwo(ONE_GONE, Expire(3), GiveUp(3), FOR_NOBODY);
  }

  lemma KeptIsOverlent()
    ensures Overlent(KEPT, 0, 0) && Overlent(FOR_NOBODY, 0, 0)
  {
  }

  /** A holder of two mutexes is not lowered when the task that lent to it gives up, nor when it gives one back. */
  lemma SecondMutexKeepsTheLoan() returns (s: State, steps: seq<Step>)
    ensures Init(s)
    ensures (InitInv(s); CanRun(s, steps) && Overlent(After(s, steps), 0, 0))
    ensures (InitInv(s); After(s, steps).tcbs[0].priority == 7 && After(s, steps).tcbs[0].basePriority == 1)
  {
    hide Next, Inv, Init, Enabled, Overlent;
    s := QUIET;
    QuietIsInitial();
    TakesFirst();
    steps := [Call(0, 0), Take(0)];
    InvAlways(QUIET, steps);
    TakesSecond();
    GoesOn(QUIET, steps, [Call(0, 1), Take(0)], FIRST_TAKEN, BOTH_TAKEN);
    steps := steps + [Call(0, 1), Take(0)];
    HighLends();
    GoesOn(QUIET, steps, [Call(2, 0), Block(2)], BOTH_TAKEN, HIGH_LENDS);
    steps := steps + [Call(2, 0), Block(2)];
    HighLeaves();
    GoesOn(QUIET, steps, [Expire(2), GiveUp(2)], HIGH_LENDS, HIGH_LEAVES);
    steps := steps + [Expire(2), GiveUp(2)];
    SecondGiven();
    GoesOn(QUIET, steps, [Settle(2), Give(0, 1)], HIGH_LEAVES, KEPT);
    steps := steps + [Settle(2), Give(0, 1)];
    KeptIsOverlent();
  }

  /** A task that takes the mutex ahead of those that wait is lent nothing by them, and yet may be left with what one
      of them stands for, which that one does not know of when it gives up. */
  lemma OvertakenWaiterLeavesALoan() returns (s: State, steps: seq<Step>)
    ensures Init(s)
    ensures (InitInv(s); CanRun(s, steps) && Overlent(After(s, steps), 0, 0))
    ensures (InitInv(s); After(s, steps).tcbs[0].priority == 2 && After(s, steps).tcbs[0].basePriority == 1)
  {
    hide Next, Inv, Init, Enabled, Overlent;
    s := QUIET;
    QuietIsInitial();
    TwoTakes();
    steps := [Call(2, 0), Take(2)];
    InvAlways(QUIET, steps);
    OneWaitsUnlent();
    GoesOn(QUIET, steps, [Call(1, 0), Block(1)], TWO_HOLDS, ONE_UNLENT);
    steps := steps + [Call(1, 0), Block(1)];
    FourthWaitsUnlent();
    GoesOn(QUIET, steps, [Call(3, 0), Block(3)], ONE_UNLENT, BOTH_UNLENT);
    steps := steps + [Call(3, 0), Block(3)];
    OneIsWoken();
    GoesOn(QUIET, steps, [Give(2, 0), Wake(0)], BOTH_UNLENT, ONE_WOKEN);
    steps := steps + [Give(2, 0), Wake(0)];
    ZeroOvertakes();
    GoesOn(QUIET, steps, [Call(0, 0), Take(0)], ONE_WOKEN, OVERTAKEN);
    steps := steps + [Call(0, 0), Take(0)];
    OneLends();
    GoesOn(QUIET, steps, [Block(1), Expire(1)], OVERTAKEN, ONE_BACK);
    steps := steps + [Block(1), Expire(1)];
    OneGoes();
    GoesOn(QUIET, steps, [GiveUp(1), Settle(1)], ONE_BACK, ONE_GONE);
    steps := steps + [GiveUp(1), Settle(1)];
    FourthGoes();
    GoesOn(QUIET, steps, [Expire(3), GiveUp(3)], ONE_GONE, FOR_NOBODY);
    steps := steps + [Expire(3), GiveUp(3)];
    KeptIsOverlent();
  }
}
