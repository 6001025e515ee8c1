/** The software timer daemon of timers.c.

    The daemon keeps wrapped expiry times on two lists, one for the epoch it last sampled and one for the
    next.  A ghost plan records, for every timer, the true time of its first expiry since it was last
    started and how many of its callbacks have been made since; the next expiry that is due follows. */
module Timers {
  import opened Ticks
  import opened ListModel

  type TimerId = nat

  datatype Timer = Timer(period: Tick, autoReload: bool, active: bool, expiry: Tick)

  /** Of a timer since it was last started: its first expiry, the callbacks made before, and those since. */
  datatype Plan = Plan(first: nat, before: nat, fired: nat)

  /** The k-th nominal expiry of a periodic timer. */
  function Nominal(first: nat, period: Tick, k: nat): nat {
    first + k * period
  }

  lemma NominalStep(first: nat, period: Tick, k: nat)
    ensures Nominal(first, period, k + 1) == Nominal(first, period, k) + period
  {
  }

  lemma NominalZero(first: nat, period: Tick)
    ensures Nominal(first, period, 0) == first
  {
  }

  lemma NominalMonotone(first: nat, period: Tick, j: nat, k: nat)
    requires j <= k
    ensures Nominal(first, period, j) <= Nominal(first, period, k)
  {
    assert k * period - j * period == (k - j) * period;
  }

  // ---------- prvInsertTimerInActiveList: the decision ----------

  datatype Placement = ProcessNow | OnCurrent | OnOverflow

  function Place(nextExpiry: Tick, timeNow: Tick, commandTime: Tick, period: Tick): Placement {
    if nextExpiry <= timeNow then
      if SubTicks(timeNow, commandTime) >= period then ProcessNow else OnOverflow
    else if timeNow < commandTime && nextExpiry >= commandTime then
      ProcessNow
    else
      OnCurrent
  }

  /** What the decision amounts to: the time since the command is seen modulo one lap; a timer that is not
      seen to have expired goes on the list of the epoch of its next expiry, as seen. */
  lemma PlaceInTrueTime(command: nat, period: Tick, now: nat)
    requires command <= now && period > 0
    ensures var seen := now - Wrap(now - command);  // the command time as seen from now
            Place(Wrap(command + period), Wrap(now), Wrap(command), period) ==
            if seen + period <= now then ProcessNow
            else if Epoch(seen + period) == Epoch(now) then OnCurrent
            else OnOverflow
    ensures Wrap(command + period) == Wrap(now - Wrap(now - command) + period)
    ensures Epoch(now - Wrap(now - command) + period) <= Epoch(now) + 1
  {
    hide Wrap, Epoch;
    var seen := now - Wrap(now - command);
    WrapSplit(now - command);
    WrapSplit(command);
    WrapUnique(seen, Epoch(command) + Epoch(now - command), Wrap(command));
    WrapSplit(now);
    WrapSplit(seen + period);
    WrapSub(now, command);
    WrapUnique(command + period, Epoch(seen + period) - Epoch(now - command), Wrap(seen + period));
  }

  /** A timer started at `command` and inserted at `now` is processed at once exactly when it has expired,
      if and only if fewer than 2^32 ticks lie between, or the part of a lap that is seen covers the
      period. */
  lemma PlaceExact(command: nat, period: Tick, now: nat)
    requires command <= now && period > 0
    ensures (Place(Wrap(command + period), Wrap(now), Wrap(command), period) == ProcessNow
             <==> command + period <= now)
            <==> (now - command < TICK_MOD || Wrap(now - command) >= period)
  {
    PlaceInTrueTime(command, period, now);
    if now - command < TICK_MOD {
      WrapUnique(now - command, 0, now - command);
    }
  }

  /** Such a command exists: a start with a period of ten, five ticks more than a lap old, is not seen to have
      expired. */
  lemma LateStartIsMissed()
    ensures var now := TICK_MOD + 5; 0 + 10 <= now && Place(Wrap(0 + 10), Wrap(now), Wrap(0), 10) != ProcessNow
  {
  }

  lemma PlaceWithinLap(command: nat, period: Tick, now: nat)
    requires command <= now < command + TICK_MOD && period > 0
    ensures Place(Wrap(command + period), Wrap(now), Wrap(command), period) ==
            if command + period <= now then ProcessNow
            else if Epoch(command + period) == Epoch(now) then OnCurrent
            else OnOverflow
    ensures Epoch(command + period) <= Epoch(now) + 1
  {
    PlaceInTrueTime(command, period, now);
    WrapUnique(now - command, 0, now - command);
  }

  // ---------- the lists ----------

  /** The true time of the expiry a timer is queued for. */
  ghost function Due(timer: Timer, plan: Plan): nat {
    Nominal(plan.first, timer.period, plan.fired)
  }

  /** A timer that may be queued for an epoch, all of whose callbacks so far were for expiries up to `bound`. */
  ghost predicate OnSchedule(timer: Timer, plan: Plan, epoch: int, bound: nat) {
    && timer.active && timer.period > 0
    && timer.expiry == Wrap(Due(timer, plan)) && Epoch(Due(timer, plan)) == epoch
    && (!timer.autoReload ==> plan.fired == 0)
    && (plan.fired > 0 ==> Nominal(plan.first, timer.period, plan.fired - 1) <= bound)
  }

  ghost predicate Scheduled(list: seq<TimerId>, timers: map<TimerId, Timer>, plans: map<TimerId, Plan>,
                            epoch: int, bound: nat)
  {
    forall i :: 0 <= i < |list| ==>
                  list[i] in timers && list[i] in plans &&
                  OnSchedule(timers[list[i]], plans[list[i]], epoch, bound)
  }

  ghost predicate Listed(list: seq<TimerId>, timers: map<TimerId, Timer>) {
    forall i :: 0 <= i < |list| ==> list[i] in timers
  }

  function Expiries(list: seq<TimerId>, timers: map<TimerId, Timer>): seq<nat>
    requires Listed(list, timers)
  {
    seq(|list|, i requires 0 <= i < |list| => timers[list[i]].expiry)
  }

  ghost predicate SortedByExpiry(list: seq<TimerId>, timers: map<TimerId, Timer>) {
    Listed(list, timers) && Sorted(Expiries(list, timers))
  }

  function InsertByExpiry(list: seq<TimerId>, timers: map<TimerId, Timer>, id: TimerId): seq<TimerId>
    requires Listed(list, timers) && id in timers
  {
    InsertAt(list, InsertPosition(Expiries(list, timers), timers[id].expiry), id)
  }

  /** Inserting a timer that is on schedule keeps a list on schedule and sorted. */
  lemma InsertKeepsSchedule(list: seq<TimerId>, timers: map<TimerId, Timer>, plans: map<TimerId, Plan>,
                            epoch: int, bound: nat, id: TimerId)
    requires Scheduled(list, timers, plans, epoch, bound) && SortedByExpiry(list, timers)
    requires id in timers && id in plans && OnSchedule(timers[id], plans[id], epoch, bound)
    ensures var r := InsertByExpiry(list, timers, id);
            Scheduled(r, timers, plans, epoch, bound) && SortedByExpiry(r, timers)
  {
    var values := Expiries(list, timers);
    var p := InsertPosition(values, timers[id].expiry);
    var r := InsertByExpiry(list, timers, id);
    forall i | 0 <= i < |r|
      ensures r[i] == if i < p then list[i] else if i == p then id else list[i - 1]
    {
    }
    SortedInsertIsStable(values, timers[id].expiry);
    assert Expiries(r, timers) == InsertAt(values, p, timers[id].expiry);
  }

  lemma TailKeepsSchedule(list: seq<TimerId>, timers: map<TimerId, Timer>, plans: map<TimerId, Plan>,
                          epoch: int, bound: nat, k: nat)
    requires Scheduled(list, timers, plans, epoch, bound) && SortedByExpiry(list, timers)
    requires k < |list|
    ensures var r := RemoveAt(list, k);
            Scheduled(r, timers, plans, epoch, bound) && SortedByExpiry(r, timers)
  {
    var r := RemoveAt(list, k);
    forall i | 0 <= i < |r|
      ensures r[i] == list[if i < k then i else i + 1]
    {
    }
    var values := Expiries(list, timers);
    forall i | 0 <= i < |r|
      ensures Expiries(r, timers)[i] == values[if i < k then i else i + 1]
    {
    }
  }

  /** A list does not see changes to a timer that is not on it. */
  lemma OtherTimerChanges(list: seq<TimerId>, timers: map<TimerId, Timer>, plans: map<TimerId, Plan>,
                          epoch: int, bound: nat, id: TimerId, timer: Timer, plan: Plan)
    requires Scheduled(list, timers, plans, epoch, bound) && SortedByExpiry(list, timers)
    requires id !in list
    ensures Scheduled(list, timers[id := timer], plans[id := plan], epoch, bound)
    ensures SortedByExpiry(list, timers[id := timer])
    ensures Expiries(list, timers[id := timer]) == Expiries(list, timers)
  {
    assert Expiries(list, timers[id := timer]) == Expiries(list, timers);
  }

  lemma HeadOnSchedule(list: seq<TimerId>, timers: map<TimerId, Timer>, plans: map<TimerId, Plan>,
                       epoch: int, bound: nat)
    requires Scheduled(list, timers, plans, epoch, bound) && list != []
    ensures list[0] in timers && list[0] in plans && OnSchedule(timers[list[0]], plans[list[0]], epoch, bound)
  {
  }

  lemma EmptySchedule(timers: map<TimerId, Timer>, plans: map<TimerId, Plan>, epoch: int, bound: nat)
    ensures Scheduled([], timers, plans, epoch, bound) && SortedByExpiry([], timers)
  {
  }

  lemma SortedIsListed(list: seq<TimerId>, timers: map<TimerId, Timer>, more: map<TimerId, Timer>)
    requires SortedByExpiry(list, timers) && timers.Keys <= more.Keys
    ensures Listed(list, more)
  {
  }

  /** A timer is queued behind all that expire no later and before all that expire later: of timers that expire
      together, the one queued first goes off first. */
  lemma QueuedBehindEquals(list: seq<TimerId>, timers: map<TimerId, Timer>, id: TimerId) returns (k: nat)
    requires id in timers && SortedByExpiry(list, timers)
    ensures k <= |list|
    ensures var r := InsertByExpiry(list, timers, id);
            r == list[..k] + [id] + list[k..] && SortedByExpiry(r, timers)
    ensures forall i :: 0 <= i < |list| ==> (i < k <==> timers[list[i]].expiry <= timers[id].expiry)
  {
    var values := Expiries(list, timers);
    k := InsertPosition(values, timers[id].expiry);
    SortedInsertIsStable(values, timers[id].expiry);
    assert forall i :: 0 <= i < |list| ==> values[i] == timers[list[i]].expiry;
    InsertByExpiryMembers(list, timers, id);
    assert Expiries(InsertByExpiry(list, timers, id), timers) == InsertAt(values, k, timers[id].expiry);
  }

  lemma InsertByExpiryMembers(list: seq<TimerId>, timers: map<TimerId, Timer>, id: TimerId)
    requires Listed(list, timers) && id in timers
    ensures forall x :: x in InsertByExpiry(list, timers, id) <==> x == id || x in list
  {
    var p := InsertPosition(Expiries(list, timers), timers[id].expiry);
    assert list == list[..p] + list[p..];
  }

  lemma OtherPlanChanges(list: seq<TimerId>, timers: map<TimerId, Timer>, plans: map<TimerId, Plan>,
                         epoch: int, bound: nat, id: TimerId, plan: Plan)
    requires Scheduled(list, timers, plans, epoch, bound) && id !in list
    ensures Scheduled(list, timers, plans[id := plan], epoch, bound)
  {
  }

  lemma LaterBound(list: seq<TimerId>, timers: map<TimerId, Timer>, plans: map<TimerId, Plan>,
                   epoch: int, bound: nat, later: nat)
    requires Scheduled(list, timers, plans, epoch, bound) && bound <= later
    ensures Scheduled(list, timers, plans, epoch, later)
  {
  }

  /** In a sorted list of one epoch the head is due first. */
  lemma HeadDueFirst(list: seq<TimerId>, timers: map<TimerId, Timer>, plans: map<TimerId, Plan>,
                     epoch: int, bound: nat, i: nat)
    requires Scheduled(list, timers, plans, epoch, bound) && SortedByExpiry(list, timers)
    requires i < |list|
    ensures Due(timers[list[0]], plans[list[0]]) <= Due(timers[list[i]], plans[list[i]])
  {
    var values := Expiries(list, timers);
    assert values[0] <= values[i];
    EpochOrder(Due(timers[list[0]], plans[list[0]]), Due(timers[list[i]], plans[list[i]]));
  }

  function Repeat(id: TimerId, n: nat): (r: seq<TimerId>)
    ensures |r| == n
  {
    seq(n, _ => id)
  }

  lemma RepeatAdd(log: seq<TimerId>, id: TimerId, n: nat)
    ensures log + Repeat(id, n) + [id] == log + Repeat(id, n + 1)
    ensures multiset(log + Repeat(id, n)) == multiset(log)[id := multiset(log)[id] + n]
  {
    if n > 0 {
      RepeatAdd(log, id, n - 1);
      assert log + Repeat(id, n) == log + Repeat(id, n - 1) + [id];
    }
  }

  /** A queued timer that is not due yet has been called back exactly once for each nominal expiry that has
      passed. */
  lemma ScheduleIsExact(timer: Timer, plan: Plan, epoch: int, bound: nat, now: nat)
    requires OnSchedule(timer, plan, epoch, bound) && bound <= now < Due(timer, plan)
    ensures forall k: nat :: k < plan.fired <==> Nominal(plan.first, timer.period, k) <= now
  {
    CallsExact(plan.first, timer.period, plan.fired, now);
  }

  /** The plans account for every callback made. */
  ghost predicate Accounted(timers: map<TimerId, Timer>, plans: map<TimerId, Plan>, log: seq<TimerId>) {
    && plans.Keys == timers.Keys
    && (forall id :: id in timers ==> timers[id].period > 0)
    && (forall id :: id in plans ==> multiset(log)[id] == plans[id].before + plans[id].fired)
  }

  lemma AccountedFacts(timers: map<TimerId, Timer>, plans: map<TimerId, Plan>, log: seq<TimerId>)
    requires Accounted(timers, plans, log)
    ensures plans.Keys == timers.Keys
    ensures forall id :: id in timers ==> timers[id].period > 0
  {
  }

  lemma CallsAccounted(timers: map<TimerId, Timer>, plans: map<TimerId, Plan>, log: seq<TimerId>,
                       id: TimerId, timer: Timer, calls: nat)
    requires Accounted(timers, plans, log) && id in timers && timer.period > 0
    ensures Accounted(timers[id := timer], plans[id := plans[id].(fired := plans[id].fired + calls)],
                      log + Repeat(id, calls))
  {
    RepeatAdd(log, id, calls);
  }

  /** What expiry processing at `now` does to one timer: a callback for each expiry that has passed; an
      auto-reload timer is left due for the first one that has not, a one-shot timer inactive. */
  ghost predicate WentOff(timer0: Timer, plan0: Plan, timer: Timer, plan: Plan, now: nat) {
    && plan == plan0.(fired := plan.fired) && plan.fired > plan0.fired
    && (timer0.autoReload ==>
          && timer == timer0.(expiry := Wrap(Due(timer, plan)))
          && Nominal(plan.first, timer.period, plan.fired - 1) <= now < Due(timer, plan))
    && (!timer0.autoReload ==> timer == timer0.(active := false) && plan.fired == 1 && plan.first <= now)
  }

  /** The first `n` timers of a list went off by `end`; the auto-reload ones joined the overflow list, and nothing
      else has changed. */
  ghost predicate Drained(timers0: map<TimerId, Timer>, plans0: map<TimerId, Plan>, current0: seq<TimerId>,
                          overflow0: seq<TimerId>, n: nat, timers: map<TimerId, Timer>, plans: map<TimerId, Plan>,
                          overflow: seq<TimerId>, end: nat)
  {
    && n <= |current0|
    && timers.Keys == timers0.Keys == plans.Keys == plans0.Keys
    && (forall id :: id in timers && id !in current0[..n] ==> timers[id] == timers0[id] && plans[id] == plans0[id])
    && (forall i :: 0 <= i < n ==>
                      && current0[i] in timers
                      && WentOff(timers0[current0[i]], plans0[current0[i]], timers[current0[i]], plans[current0[i]],
                                 end)
                      && (timers[current0[i]].autoReload ==> current0[i] in overflow))
    && (forall id :: id in overflow0 ==> id in overflow)
    && (forall id :: id in overflow ==> id in current0 || id in overflow0)
  }

  lemma DrainedNone(timers: map<TimerId, Timer>, plans: map<TimerId, Plan>, current0: seq<TimerId>,
                    overflow0: seq<TimerId>, end: nat)
    requires timers.Keys == plans.Keys
    ensures Drained(timers, plans, current0, overflow0, 0, timers, plans, overflow0, end)
  {
  }

  lemma DrainOne(timers0: map<TimerId, Timer>, plans0: map<TimerId, Plan>, current0: seq<TimerId>,
                 overflow0: seq<TimerId>, n: nat, timers1: map<TimerId, Timer>, plans1: map<TimerId, Plan>,
                 overflow1: seq<TimerId>, timers: map<TimerId, Timer>, plans: map<TimerId, Plan>,
                 overflow: seq<TimerId>, end: nat)
    requires Drained(timers0, plans0, current0, overflow0, n, timers1, plans1, overflow1, end)
    requires n < |current0| && current0[n] !in current0[..n]
    requires current0[n] in timers1 && current0[n] in timers && current0[n] in plans1 && current0[n] in plans
    requires timers == timers1[current0[n] := timers[current0[n]]] && plans == plans1[current0[n] := plans[current0[n]]]
    requires WentOff(timers1[current0[n]], plans1[current0[n]], timers[current0[n]], plans[current0[n]], end)
    requires Listed(overflow1, timers)
    requires overflow == if timers[current0[n]].autoReload then InsertByExpiry(overflow1, timers, current0[n])
             else overflow1
    ensures Drained(timers0, plans0, current0, overflow0, n + 1, timers, plans, overflow, end)
  {
    hide WentOff, InsertByExpiry, Listed;
    var id := current0[n];
    InsertByExpiryMembers(overflow1, timers, id);
    assert forall x :: x in overflow1 ==> x in overflow;
    assert forall x :: x in overflow ==> x in overflow1 || x == id;
    forall x | x in timers && x !in current0[..n + 1]
      ensures timers[x] == timers0[x] && plans[x] == plans0[x]
    {
      NotAmongFirst(current0, n, x);
    }
    forall i | 0 <= i < n + 1
      ensures current0[i] in timers
      ensures WentOff(timers0[current0[i]], plans0[current0[i]], timers[current0[i]], plans[current0[i]], end)
      ensures timers[current0[i]].autoReload ==> current0[i] in overflow
    {
      if i < n {
        assert current0[i] in current0[..n];
      }
    }
  }

  lemma NotAmongFirst(items: seq<TimerId>, n: nat, x: TimerId)
    requires n < |items| && x !in items[..n + 1]
    ensures x !in items[..n] && x != items[n]
  {
    assert items[..n + 1] == items[..n] + [items[n]];
  }

  lemma DrainedAll(timers0: map<TimerId, Timer>, plans0: map<TimerId, Plan>, current0: seq<TimerId>,
                   overflow0: seq<TimerId>, timers: map<TimerId, Timer>, plans: map<TimerId, Plan>,
                   overflow: seq<TimerId>, end: nat)
    requires Drained(timers0, plans0, current0, overflow0, |current0|, timers, plans, overflow, end)
    ensures forall id :: id in timers && id !in current0 ==> timers[id] == timers0[id] && plans[id] == plans0[id]
    ensures forall id :: id in timers && id in current0 ==>
                           WentOff(timers0[id], plans0[id], timers[id], plans[id], end) &&
                           (timers[id].autoReload ==> id in overflow)
    ensures forall id :: id in overflow0 ==> id in overflow
    ensures forall id :: id in overflow ==> id in current0 || id in overflow0
    ensures timers.Keys == timers0.Keys
  {
    hide WentOff;
    assert current0[..|current0|] == current0;
  }

  /** Whatever goes off as at the last tick of an epoch is next due in another epoch. */
  lemma DueAfterEpoch(timer0: Timer, plan0: Plan, timer: Timer, plan: Plan, epoch: nat)
    requires WentOff(timer0, plan0, timer, plan, LastTick(epoch))
    ensures timer.autoReload == timer0.autoReload
    ensures timer.autoReload ==> Epoch(Due(timer, plan)) != Epoch(LastTick(epoch))
  {
    LastTickEpoch(epoch);
  }

  lemma HeadIsNew(current0: seq<TimerId>, overflow0: seq<TimerId>, n: nat)
    requires NoDuplicates(current0 + overflow0) && n < |current0|
    ensures current0[n] !in current0[..n]
  {
    forall i | 0 <= i < n
      ensures current0[i] != current0[n]
    {
      assert (current0 + overflow0)[i] != (current0 + overflow0)[n];
    }
  }

  lemma AccountedCount(timers: map<TimerId, Timer>, plans: map<TimerId, Plan>, log: seq<TimerId>, id: TimerId)
    requires Accounted(timers, plans, log) && id in timers
    ensures plans.Keys == timers.Keys
    ensures multiset(log)[id] == plans[id].before + plans[id].fired
  {
  }

  lemma RestartAccounted(timers: map<TimerId, Timer>, plans: map<TimerId, Plan>, log: seq<TimerId>,
                         id: TimerId, timer: Timer, first: nat, calls: nat)
    requires Accounted(timers, plans, log) && id in timers && timer.period > 0
    ensures Accounted(timers[id := timer], plans[id := Plan(first, multiset(log)[id], calls)], log + Repeat(id, calls))
  {
    RepeatAdd(log, id, calls);
  }

  lemma CallsExact(first: nat, period: Tick, fired: nat, now: nat)
    requires now < Nominal(first, period, fired)
    requires fired > 0 ==> Nominal(first, period, fired - 1) <= now
    ensures forall k: nat :: k < fired <==> Nominal(first, period, k) <= now
  {
    forall k: nat
      ensures k < fired <==> Nominal(first, period, k) <= now
    {
      if k < fired {
        NominalMonotone(first, period, k, fired - 1);
      } else {
        NominalMonotone(first, period, fired, k);
      }
    }
  }

  datatype Command = Start(value: Tick) | Stop | ChangePeriod(period: Tick) | Delete

  lemma WithoutKeeps(current: seq<TimerId>, overflow: seq<TimerId>, timers: map<TimerId, Timer>,
                     plans: map<TimerId, Plan>, epoch: int, bound: nat, id: TimerId)
    requires Scheduled(current, timers, plans, epoch, bound) && SortedByExpiry(current, timers)
    requires Scheduled(overflow, timers, plans, epoch + 1, bound) && SortedByExpiry(overflow, timers)
    requires NoDuplicates(current + overflow)
    ensures var c, o := Without(current, id), Without(overflow, id);
            && Scheduled(c, timers, plans, epoch, bound) && SortedByExpiry(c, timers)
            && Scheduled(o, timers, plans, epoch + 1, bound) && SortedByExpiry(o, timers)
            && NoDuplicates(c + o) && id !in c + o
            && (id in current ==> o == overflow)
  {
    hide NoDuplicates, Sorted, Scheduled, RemoveAt;
    if id in current {
      TailKeepsSchedule(current, timers, plans, epoch, bound, IndexOf(current, id));
    } else if id in overflow {
      TailKeepsSchedule(overflow, timers, plans, epoch + 1, bound, IndexOf(overflow, id));
    }
    hide SortedByExpiry, IndexOf;
    WithoutOnce(current, overflow, id);
  }

  lemma WithoutOnce(current: seq<TimerId>, overflow: seq<TimerId>, id: TimerId)
    requires NoDuplicates(current + overflow)
    ensures var c, o := Without(current, id), Without(overflow, id);
            && NoDuplicates(c + o) && id !in c + o && (id in current ==> o == overflow)
            && (forall x :: x != id ==> (x in c + o <==> x in current + overflow))
  {
    hide NoDuplicates, RemoveAt;
    var all := current + overflow;
    if id in current {
      var k := IndexOf(current, id);
      assert all[k] == id;
      NoDuplicatesRemove(all, k);
      RemoveInFirst(current, overflow, k);
      assert id !in RemoveAt(current, k) + overflow;
    } else if id in overflow {
      var k := IndexOf(overflow, id);
      assert all[|current| + k] == id;
      NoDuplicatesRemove(all, |current| + k);
      RemoveInSecond(current, overflow, k);
    }
  }

  /** What the daemon does next: go round its loop, or block for a time or indefinitely. */
  datatype Wait = Run | Block(ticks: Tick, indefinitely: bool)

  /** When the head of the current list is not due, nothing is, and every callback has been made. */
  lemma NothingDue(current: seq<TimerId>, overflow: seq<TimerId>, timers: map<TimerId, Timer>,
                   plans: map<TimerId, Plan>, now: nat)
    requires Scheduled(current, timers, plans, Epoch(now), now) && SortedByExpiry(current, timers)
    requires Scheduled(overflow, timers, plans, Epoch(now) + 1, now)
    requires current != [] ==> timers[current[0]].expiry > Wrap(now)
    ensures forall id :: id in current + overflow ==>
                           && id in timers && id in plans
                           && Due(timers[id], plans[id]) > now
                           && (forall k: nat :: k < plans[id].fired <==>
                                                Nominal(plans[id].first, timers[id].period, k) <= now)
                           && Due(timers[id], plans[id]) >=
                              if current == [] then LastTick(Epoch(now)) + 1
                              else Due(timers[current[0]], plans[current[0]])
  {
    LastTickEpoch(Epoch(now));
    var first := if current == [] then LastTick(Epoch(now)) + 1 else Due(timers[current[0]], plans[current[0]]);
    if current != [] {
      EpochOrder(first, now);
    }
    forall id | id in current + overflow
      ensures id in timers && id in plans && Due(timers[id], plans[id]) > now && Due(timers[id], plans[id]) >= first
      ensures forall k: nat :: k < plans[id].fired <==> Nominal(plans[id].first, timers[id].period, k) <= now
    {
      if id in current {
        var i :| 0 <= i < |current| && current[i] == id;
        HeadDueFirst(current, timers, plans, Epoch(now), now, i);
        ScheduleIsExact(timers[id], plans[id], Epoch(now), now, now);
      } else {
        var i :| 0 <= i < |overflow| && overflow[i] == id;
        NextEpochLater(now, Due(timers[id], plans[id]));
        ScheduleIsExact(timers[id], plans[id], Epoch(now) + 1, now, now);
      }
    }
  }

  lemma NextEpochLater(now: nat, due: nat)
    requires Epoch(due) == Epoch(now) + 1
    ensures due > LastTick(Epoch(now)) >= now
  {
    WrapSplit(now);
    WrapSplit(due);
  }

  lemma EpochNonNegative(t: nat)
    ensures Epoch(t) >= 0
  {
  }

  lemma LastTickBefore(epoch: nat, now: nat)
    requires Epoch(now) == epoch + 1
    ensures LastTick(epoch) < now
  {
    WrapSplit(now);
  }

  /** The wrapped difference to a later time of this epoch, or to its end, is the true difference. */
  lemma BlockUntil(now: nat, target: nat)
    requires (Epoch(target) == Epoch(now) && target > now) || target == LastTick(Epoch(now)) + 1
    ensures Epoch(target) == Epoch(now) ==> now + SubTicks(Wrap(target), Wrap(now)) == target
    ensures target == LastTick(Epoch(now)) + 1 ==>
              Wrap(target) == 0 &&
              if Wrap(now) == 0 then SubTicks(0, Wrap(now)) == 0 else now + SubTicks(0, Wrap(now)) == target
  {
    WrapSplit(now);
    WrapSplit(target);
  }

  function LastTick(epoch: nat): nat {
    epoch * TICK_MOD + PORT_MAX_DELAY
  }

  lemma LastTickEpoch(epoch: nat)
    ensures Epoch(LastTick(epoch)) == epoch && Wrap(LastTick(epoch)) == PORT_MAX_DELAY
    ensures forall t: nat :: Epoch(t) == epoch ==> t <= LastTick(epoch)
  {
  }

  lemma SameEpochWithinLap(a: nat, b: nat)
    requires a <= b && Epoch(a) == Epoch(b)
    ensures b < a + TICK_MOD
  {
    WrapSplit(a);
    WrapSplit(b);
  }

  lemma RemoveFirstQueued(current: seq<TimerId>, overflow: seq<TimerId>)
    requires NoDuplicates(current + overflow) && current != []
    ensures NoDuplicates(current[1..] + overflow)
    ensures current[0] !in current[1..] + overflow
  {
    var all := current + overflow;
    assert current[1..] + overflow == all[1..];
    forall i | 0 <= i < |all[1..]|
      ensures all[1..][i] == all[i + 1] && all[i + 1] != all[0]
    {
    }
  }

  lemma WrapSmall(t: Tick)
    ensures Wrap(t) == t
  {
  }

  /** A timer put on either list is queued once. */
  lemma QueuedOnce(current: seq<TimerId>, overflow: seq<TimerId>, p: nat, id: TimerId)
    requires NoDuplicates(current + overflow) && id !in current + overflow
    ensures p <= |current| ==> NoDuplicates(InsertAt(current, p, id) + overflow)
    ensures p <= |overflow| ==> NoDuplicates(current + InsertAt(overflow, p, id))
  {
    if p <= |current| {
      NoDuplicatesInsert(current + overflow, p, id);
      assert InsertAt(current, p, id) + overflow == InsertAt(current + overflow, p, id);
    }
    if p <= |overflow| {
      NoDuplicatesInsert(current + overflow, |current| + p, id);
      assert current + InsertAt(overflow, p, id) == InsertAt(current + overflow, |current| + p, id);
    }
  }

  /** A timer is active exactly when it is on a list; those in `loose` are off their lists for the moment. */
  ghost predicate ActiveQueued(timers: map<TimerId, Timer>, current: seq<TimerId>, overflow: seq<TimerId>,
                               loose: set<TimerId>)
  {
    forall id :: id in timers ==>
                   if id in loose then id !in current + overflow else (timers[id].active <==> id in current + overflow)
  }

  /** No timer is active, those in `loose` apart. */
  predicate Idle(timers: map<TimerId, Timer>, loose: set<TimerId>) {
    forall id :: id in timers && id !in loose ==> !timers[id].active
  }

  lemma IdleIsEmpty(timers: map<TimerId, Timer>, current: seq<TimerId>, overflow: seq<TimerId>, loose: set<TimerId>)
    requires ActiveQueued(timers, current, overflow, loose) && Idle(timers, loose)
    requires SortedByExpiry(current, timers) && SortedByExpiry(overflow, timers)
    ensures current == [] && overflow == []
  {
    EmptyOrMember(current);
    EmptyOrMember(overflow);
  }

  lemma EmptyOrMember(list: seq<TimerId>)
    ensures list == [] || list[0] in list
  {
  }

  /** One timer has changed, and is on a list exactly when it is active. */
  lemma OneRequeued(timers0: map<TimerId, Timer>, current0: seq<TimerId>, overflow0: seq<TimerId>, loose: set<TimerId>,
                    id: TimerId, timers: map<TimerId, Timer>, current: seq<TimerId>, overflow: seq<TimerId>)
    requires ActiveQueued(timers0, current0, overflow0, loose)
    requires id in timers && timers == timers0[id := timers[id]]
    requires forall x :: x != id ==> (x in current + overflow <==> x in current0 + overflow0)
    requires timers[id].active <==> id in current + overflow
    ensures ActiveQueued(timers, current, overflow, loose - {id})
  {
  }

  /** The first timer of the current list has gone off. */
  lemma FirstRequeued(timers0: map<TimerId, Timer>, current0: seq<TimerId>, overflow0: seq<TimerId>,
                      loose: set<TimerId>,
                      timers: map<TimerId, Timer>, current: seq<TimerId>, overflow: seq<TimerId>)
    requires ActiveQueued(timers0, current0, overflow0, loose) && NoDuplicates(current0 + overflow0)
    requires current0 != [] && current0[0] in timers0 && current0[0] in timers
    requires Listed(current0, timers) && Listed(overflow0, timers)
    requires var id, others := current0[0], current0[1..];
             && timers == timers0[id := timers[id]]
             && (timers[id].active <==> timers[id].autoReload)
             && (if !timers[id].autoReload then current == others && overflow == overflow0
                 else (current == InsertByExpiry(others, timers, id) && overflow == overflow0)
                      || (current == others && overflow == InsertByExpiry(overflow0, timers, id)))
    ensures ActiveQueued(timers, current, overflow, loose)
  {
    hide NoDuplicates, InsertByExpiry;
    var id, others := current0[0], current0[1..];
    RemoveFirstQueued(current0, overflow0);
    assert current0 == [id] + others;
    InsertByExpiryMembers(others, timers, id);
    InsertByExpiryMembers(overflow0, timers, id);
    OneRequeued(timers0, current0, overflow0, loose, id, timers, current, overflow);
    assert id in current0 + overflow0;
    assert loose - {id} == loose;
  }

  lemma WentOffActive(timer0: Timer, plan0: Plan, timer: Timer, plan: Plan, now: nat)
    requires WentOff(timer0, plan0, timer, plan, now) && timer0.active
    ensures timer.active <==> timer.autoReload
  {
  }

  lemma Traded(timers: map<TimerId, Timer>, current: seq<TimerId>, overflow: seq<TimerId>, loose: set<TimerId>)
    requires ActiveQueued(timers, current, overflow, loose)
    ensures ActiveQueued(timers, overflow, current, loose)
  {
    assert forall id :: id in overflow + current <==> id in current + overflow;
  }

  /** No active timer is due before the first one on the current list. */
  lemma FirstIsNext(timers: map<TimerId, Timer>, plans: map<TimerId, Plan>, current: seq<TimerId>,
                    overflow: seq<TimerId>, now: nat)
    requires Scheduled(current, timers, plans, Epoch(now), now) && SortedByExpiry(current, timers)
    requires Scheduled(overflow, timers, plans, Epoch(now) + 1, now)
    requires ActiveQueued(timers, current, overflow, {}) && plans.Keys == timers.Keys
    ensures current != [] ==>
              && current[0] in timers && current[0] in plans
              && timers[current[0]].expiry == Wrap(Due(timers[current[0]], plans[current[0]]))
              && Epoch(Due(timers[current[0]], plans[current[0]])) == Epoch(now)
              && forall id :: id in timers && timers[id].active ==>
                                Due(timers[current[0]], plans[current[0]]) <= Due(timers[id], plans[id])
  {
    hide Wrap, Epoch, Sorted;
    if current != [] {
      forall id | id in timers && timers[id].active
        ensures Due(timers[current[0]], plans[current[0]]) <= Due(timers[id], plans[id])
      {
        if id in current {
          var i :| 0 <= i < |current| && current[i] == id;
          HeadDueFirst(current, timers, plans, Epoch(now), now, i);
        } else {
          var i :| 0 <= i < |overflow| && overflow[i] == id;
          LaterEpoch(Due(timers[current[0]], plans[current[0]]), Due(timers[id], plans[id]));
        }
      }
    }
  }

  /** What the sampling of the time at `now` has done to the timers that are not `loose`: when the epoch has changed,
      those that were on the current list went off as at the last tick of theirs; no other timer has changed. */
  ghost predicate Aged(timers0: map<TimerId, Timer>, plans0: map<TimerId, Plan>, current0: seq<TimerId>, before: nat,
                       timers: map<TimerId, Timer>, plans: map<TimerId, Plan>, now: nat, loose: set<TimerId>)
  {
    forall x :: x in timers0 && x !in loose ==>
                  && x in plans0 && x in timers && x in plans
                  && (if Epoch(now) == Epoch(before) || x !in current0
                      then timers[x] == timers0[x] && plans[x] == plans0[x]
                      else WentOff(timers0[x], plans0[x], timers[x], plans[x], LastTick(Epoch(before))))
  }

  lemma FirstHasNoDuplicates(current: seq<TimerId>, overflow: seq<TimerId>)
    requires NoDuplicates(current + overflow)
    ensures NoDuplicates(current)
  {
    assert forall i :: 0 <= i < |current| ==> (current + overflow)[i] == current[i];
  }

  lemma LooseIsFree(timers: map<TimerId, Timer>, current: seq<TimerId>, overflow: seq<TimerId>, id: TimerId)
    requires ActiveQueued(timers, current, overflow, {id}) && id in timers
    ensures id !in current + overflow
  {
  }

  /** Another timer has changed since, and was off its list before. */
  lemma AgedBut(timers0: map<TimerId, Timer>, plans0: map<TimerId, Plan>, current0: seq<TimerId>, before: nat,
                timers1: map<TimerId, Timer>, plans1: map<TimerId, Plan>, now: nat, id: TimerId,
                timers: map<TimerId, Timer>, plans: map<TimerId, Plan>)
    requires NoDuplicates(current0) && Aged(timers0, plans0, Without(current0, id), before, timers1, plans1, now, {})
    requires id in timers && timers == timers1[id := timers[id]] && id in plans && plans == plans1[id := plans[id]]
    ensures Aged(timers0, plans0, current0, before, timers, plans, now, {id})
  {
    hide WentOff;
    if id in current0 {
      NoDuplicatesRemove(current0, IndexOf(current0, id));
    }
  }

  lemma AgedBySwitch(timers0: map<TimerId, Timer>, plans0: map<TimerId, Plan>, current0: seq<TimerId>, before: nat,
                     timers: map<TimerId, Timer>, plans: map<TimerId, Plan>, now: nat)
    requires timers0.Keys == timers.Keys == plans0.Keys == plans.Keys
    requires Epoch(now) != Epoch(before) || current0 == []
    requires forall id :: id in timers && id !in current0 ==> timers[id] == timers0[id] && plans[id] == plans0[id]
    requires forall id :: id in timers && id in current0 ==>
                            WentOff(timers0[id], plans0[id], timers[id], plans[id], LastTick(Epoch(before)))
    ensures Aged(timers0, plans0, current0, before, timers, plans, now, {})
  {
    hide WentOff, Epoch;
  }

  lemma AgedByNothing(timers: map<TimerId, Timer>, plans: map<TimerId, Plan>, current: seq<TimerId>, before: nat,
                      now: nat)
    requires timers.Keys == plans.Keys && (Epoch(now) == Epoch(before) || current == [])
    ensures Aged(timers, plans, current, before, timers, plans, now, {})
  {
    hide WentOff, Epoch;
  }

  /** With nothing on the current list the sampling changes no timer. */
  lemma NothingAged(timers0: map<TimerId, Timer>, plans0: map<TimerId, Plan>, before: nat,
                    timers: map<TimerId, Timer>, plans: map<TimerId, Plan>, now: nat)
    requires timers0.Keys == timers.Keys == plans0.Keys == plans.Keys
    requires Aged(timers0, plans0, [], before, timers, plans, now, {})
    ensures timers == timers0 && plans == plans0
  {
    hide WentOff;
  }

  lemma LapLater(before: nat, now: nat)
    requires now >= before + TICK_MOD
    ensures Epoch(now) != Epoch(before)
  {
    WrapSplit(before);
    WrapSplit(now);
  }

  lemma NewTimerIsFree(timers: map<TimerId, Timer>, plans: map<TimerId, Plan>, current: seq<TimerId>,
                       overflow: seq<TimerId>, log: seq<TimerId>, id: TimerId, timer: Timer, plan: Plan)
    requires SortedByExpiry(current, timers) && SortedByExpiry(overflow, timers) && id !in timers
    requires Accounted(timers, plans, log) && ActiveQueued(timers, current, overflow, {})
    requires !timer.active && timer.period > 0 && plan == Plan(0, multiset(log)[id], 0)
    ensures id !in current && id !in overflow && id !in plans
    ensures Accounted(timers[id := timer], plans[id := plan], log)
    ensures ActiveQueued(timers[id := timer], current, overflow, {})
  {
    hide Sorted;
  }

  /** What is known of a timer that was last started, and not stopped since: it is active, or it is a one-shot timer
      that has gone off. */
  ghost predicate Running(timer: Timer, plan: Plan, now: nat) {
    if timer.autoReload then timer.active
    else if timer.active then plan.fired == 0
    else plan.fired == 1 && plan.first <= now
  }

  lemma RunningAfter(timer0: Timer, plan0: Plan, timer: Timer, plan: Plan, before: nat, at: nat, now: nat)
    requires Running(timer0, plan0, before) && before <= now && at <= now
    requires WentOff(timer0, plan0, timer, plan, at)
    ensures Running(timer, plan, now)
  {
  }

  // ---------- runs of the daemon ----------

  /** What happens to the daemon: it goes round its loop once, it receives a command that was issued a while ago, or
      another task creates a timer. */
  datatype DaemonEvent =
    | Pass(now: nat)
    | Receive(id: TimerId, command: Command, issued: nat, now: nat)
    | Create(id: TimerId, period: Tick, autoReload: bool)

  /** What the last start of a timer, or the last change of its period, asked for: its first expiry and its period.
      `before` counts the callbacks it had had by then. */
  datatype Order = Order(first: nat, before: nat, period: Tick, autoReload: bool)

  /** The daemon after an event: its timers, the callbacks made, the orders in force, and whether it has blocked. */
  datatype Snapshot = Snapshot(now: nat, timers: map<TimerId, Timer>, log: seq<TimerId>, orders: map<TimerId, Order>,
                               blocked: bool)

  /** Time goes on, commands are less than a lap old and name timers that were created, and each timer is created
      once. */
  ghost predicate Orderly(events: seq<DaemonEvent>, ids: set<TimerId>, since: nat)
    decreases |events|
  {
    events != [] ==>
      match events[0]
      case Pass(now) => since <= now && Orderly(events[1..], ids, now)
      case Receive(id, command, issued, now) =>
        && id in ids && since <= now
        && (command.Start? ==> command.value == Wrap(issued) && issued <= now < issued + TICK_MOD)
        && (command.ChangePeriod? ==> command.period > 0)
        && Orderly(events[1..], ids, now)
      case Create(id, period, autoReload) => id !in ids && period > 0 && Orderly(events[1..], ids + {id}, since)
  }

  /** While a timer is active the daemon samples the time at least once per lap; a command takes its own timer off its
      list first. */
  predicate InTime(timers: map<TimerId, Timer>, since: nat, e: DaemonEvent) {
    match e
    case Pass(now) => now < since + TICK_MOD || Idle(timers, {})
    case Receive(id, _, _, now) => now < since + TICK_MOD || Idle(timers, {id})
    case Create(_, _, _) => true
  }

  lemma OrderlyRest(events: seq<DaemonEvent>, ids: set<TimerId>, since: nat)
    requires events != [] && Orderly(events, ids, since)
    ensures var e := events[0];
            Orderly(events[1..], ids + (if e.Create? then {e.id} else {}), if e.Create? then since else e.now)
  {
    assert ids + {} == ids;
  }

  /** The callbacks that a timer has had are those its order has asked for by `now`: one for every nominal expiry of an
      auto-reload timer, one in all for a one-shot timer. */
  ghost predicate OrderMet(o: Order, timer: Timer, calls: int, now: nat) {
    && timer.period == o.period && timer.autoReload == o.autoReload
    && (if o.autoReload then
          timer.active && forall k: nat :: k < calls - o.before <==> Nominal(o.first, o.period, k) <= now
        else
          && calls - o.before == (if o.first <= now then 1 else 0)
          && (timer.active <==> now < o.first))
  }

  ghost predicate Exact(sn: Snapshot) {
    forall id :: id in sn.orders ==>
                   id in sn.timers && OrderMet(sn.orders[id], sn.timers[id], multiset(sn.log)[id], sn.now)
  }

  /** The plans follow the orders. */
  ghost predicate Followed(orders: map<TimerId, Order>, timers: map<TimerId, Timer>, plans: map<TimerId, Plan>,
                           now: nat) {
    forall id :: id in orders ==> id in timers && id in plans && FollowedOne(orders[id], timers[id], plans[id], now)
  }

  ghost predicate FollowedOne(o: Order, timer: Timer, plan: Plan, now: nat) {
    && plan.first == o.first && plan.before == o.before
    && timer.period == o.period && timer.autoReload == o.autoReload
    && Running(timer, plan, now)
  }

  lemma FollowedLater(o: Order, timer: Timer, plan: Plan, before: nat, now: nat)
    requires FollowedOne(o, timer, plan, before) && before <= now
    ensures FollowedOne(o, timer, plan, now)
  {
  }

  lemma FollowedAfter(o: Order, timer0: Timer, plan0: Plan, timer: Timer, plan: Plan, before: nat, at: nat, now: nat)
    requires FollowedOne(o, timer0, plan0, before) && before <= now && at <= now
    requires WentOff(timer0, plan0, timer, plan, at)
    ensures FollowedOne(o, timer, plan, now)
  {
    RunningAfter(timer0, plan0, timer, plan, before, at, now);
  }

  /** Sampling the time leaves the orders followed. */
  lemma FollowedAged(orders: map<TimerId, Order>, timers0: map<TimerId, Timer>, plans0: map<TimerId, Plan>,
                     current0: seq<TimerId>, before: nat, timers: map<TimerId, Timer>, plans: map<TimerId, Plan>,
                     now: nat, loose: set<TimerId>)
    requires Followed(orders, timers0, plans0, before) && before <= now
    requires Aged(timers0, plans0, current0, before, timers, plans, now, loose)
    ensures forall id :: id in orders && id !in loose ==>
                           id in timers && id in plans && FollowedOne(orders[id], timers[id], plans[id], now)
  {
    hide WentOff, Running, Wrap, FollowedOne;
    EpochMonotone(before, now);
    forall id | id in orders && id !in loose
      ensures id in timers && id in plans && FollowedOne(orders[id], timers[id], plans[id], now)
    {
      if Epoch(now) == Epoch(before) || id !in current0 {
        FollowedLater(orders[id], timers[id], plans[id], before, now);
      } else {
        LastTickPast(before, now);
        FollowedAfter(orders[id], timers0[id], plans0[id], timers[id], plans[id], before, LastTick(Epoch(before)), now);
      }
    }
  }

  lemma LastTickPast(before: nat, now: nat)
    requires before <= now && Epoch(now) != Epoch(before)
    ensures LastTick(Epoch(before)) <= now
  {
    EpochMonotone(before, now);
    WrapSplit(now);
    WrapSplit(before);
  }

  /** One timer going off leaves the orders followed. */
  lemma FollowedOneOff(orders: map<TimerId, Order>, timers0: map<TimerId, Timer>, plans0: map<TimerId, Plan>,
                       before: nat, id: TimerId, timers: map<TimerId, Timer>, plans: map<TimerId, Plan>, now: nat)
    requires Followed(orders, timers0, plans0, before) && before <= now
    requires id in timers0 && id in plans0 && id in timers && id in plans
    requires timers == timers0[id := timers[id]] && plans == plans0[id := plans[id]]
    requires WentOff(timers0[id], plans0[id], timers[id], plans[id], now)
    ensures Followed(orders, timers, plans, now)
  {
    hide WentOff, Running, FollowedOne;
    forall x | x in orders
      ensures x in timers && x in plans && FollowedOne(orders[x], timers[x], plans[x], now)
    {
      if x == id {
        FollowedAfter(orders[x], timers0[x], plans0[x], timers[x], plans[x], before, now, now);
      } else {
        FollowedLater(orders[x], timers[x], plans[x], before, now);
      }
    }
  }

  /** When the daemon blocks, nothing is owed. */
  lemma BlockedIsExact(sn: Snapshot, plans: map<TimerId, Plan>, current: seq<TimerId>, overflow: seq<TimerId>)
    requires Followed(sn.orders, sn.timers, plans, sn.now) && Accounted(sn.timers, plans, sn.log)
    requires ActiveQueued(sn.timers, current, overflow, {})
    requires forall id :: id in current + overflow ==>
                            && id in sn.timers && id in plans
                            && Due(sn.timers[id], plans[id]) > sn.now
                            && forall k: nat :: k < plans[id].fired <==>
                                                Nominal(plans[id].first, sn.timers[id].period, k) <= sn.now
    ensures Exact(sn)
  {
    forall id | id in sn.orders
      ensures id in sn.timers && OrderMet(sn.orders[id], sn.timers[id], multiset(sn.log)[id], sn.now)
    {
      assert FollowedOne(sn.orders[id], sn.timers[id], plans[id], sn.now);
      NominalZero(plans[id].first, sn.timers[id].period);
      assert sn.timers[id].active <==> id in current + overflow;
    }
  }

  lemma AllFollowed(orders: map<TimerId, Order>, timers: map<TimerId, Timer>, plans: map<TimerId, Plan>, now: nat)
    requires forall id :: id in orders && id !in {} ==>
                            id in timers && id in plans && FollowedOne(orders[id], timers[id], plans[id], now)
    ensures Followed(orders, timers, plans, now)
  {
  }

  lemma SameFollowed(orders: map<TimerId, Order>, timers: map<TimerId, Timer>, plans: map<TimerId, Plan>, before: nat,
                     now: nat)
    requires Followed(orders, timers, plans, before) && before <= now
    ensures Followed(orders, timers, plans, now)
  {
  }

  lemma OthersFollowed(orders: map<TimerId, Order>, next: map<TimerId, Order>, id: TimerId,
                       timers: map<TimerId, Timer>, plans: map<TimerId, Plan>, now: nat)
    requires forall x :: x in orders && x !in {id} ==>
                           x in timers && x in plans && FollowedOne(orders[x], timers[x], plans[x], now)
    requires forall x :: x in next && x != id ==> x in orders && next[x] == orders[x]
    requires id in next ==> id in timers && id in plans && FollowedOne(next[id], timers[id], plans[id], now)
    ensures Followed(next, timers, plans, now)
  {
  }

  lemma NothingDueMembers(timers: map<TimerId, Timer>, plans: map<TimerId, Plan>, current: seq<TimerId>,
                          overflow: seq<TimerId>, log: seq<TimerId>)
    requires SortedByExpiry(current, timers) && SortedByExpiry(overflow, timers) && Accounted(timers, plans, log)
    ensures forall id :: id in current + overflow ==> id in timers && id in plans
  {
  }

  lemma QueuedIsActive(timers: map<TimerId, Timer>, current: seq<TimerId>, overflow: seq<TimerId>, id: TimerId)
    requires ActiveQueued(timers, current, overflow, {}) && id in timers
    ensures timers[id].active <==> id in current + overflow
  {
  }

  /** One event. A pass through the loop blocks with nothing owed, or else it found the epoch changed or made a
      callback, and it changes nothing while no timer is active; a command changes the orders; nothing takes a
      callback back. */
  ghost predicate Took(a: Snapshot, e: DaemonEvent, b: Snapshot) {
    && a.log <= b.log
    && match e
       case Pass(now) =>
         && b.now == now && b.orders == a.orders && b.timers.Keys == a.timers.Keys
         && (if b.blocked then Exact(b) else Epoch(now) != Epoch(a.now) || |b.log| > |a.log|)
         && (Idle(a.timers, {}) ==> b.timers == a.timers && b.log == a.log)
       case Receive(id, command, issued, now) =>
         && b.now == now && id in a.timers && b.timers.Keys == a.timers.Keys && !b.blocked
         && b.orders == NewOrders(a.orders, id, command, issued, now, a.timers[id], multiset(a.log)[id])
       case Create(id, period, autoReload) =>
         && b.now == a.now && b.orders == a.orders && b.log == a.log && !b.blocked
         && b.timers == a.timers[id := Timer(period, autoReload, false, 0)]
  }

  /** A run, event by event. */
  ghost predicate RunOf(trace: seq<Snapshot>, events: seq<DaemonEvent>) {
    |trace| == |events| + 1 && forall i :: 0 <= i < |events| ==> Took(trace[i], events[i], trace[i + 1])
  }

  lemma RunStarts(trace: seq<Snapshot>)
    requires |trace| == 1
    ensures RunOf(trace, [])
  {
  }

  lemma RunLonger(trace: seq<Snapshot>, events: seq<DaemonEvent>, i: nat, b: Snapshot)
    requires i < |events| && RunOf(trace, events[..i]) && Took(trace[i], events[i], b)
    ensures RunOf(trace + [b], events[..i + 1])
  {
    hide Took;
    var more, es := trace + [b], events[..i + 1];
    forall j | 0 <= j < |es|
      ensures Took(more[j], es[j], more[j + 1])
    {
      if j < i {
        assert es[j] == events[..i][j] && more[j] == trace[j] && more[j + 1] == trace[j + 1];
      }
    }
  }

  lemma WentOffGrows(timer0: Timer, plan0: Plan, timer: Timer, plan: Plan, now: nat)
    requires WentOff(timer0, plan0, timer, plan, now)
    ensures plan.fired > plan0.fired
  {
  }

  lemma NothingFollowed(timers: map<TimerId, Timer>, plans: map<TimerId, Plan>, now: nat)
    ensures Followed(map[], timers, plans, now)
  {
  }

  /** What becomes of the orders at a command. */
  ghost function NewOrders(orders: map<TimerId, Order>, id: TimerId, command: Command, issued: nat, now: nat,
                           timer: Timer, calls: nat): map<TimerId, Order>
  {
    match command
    case Start(_) => orders[id := Order(issued + timer.period, calls, timer.period, timer.autoReload)]
    case ChangePeriod(period) => orders[id := Order(now + period, calls, period, timer.autoReload)]
    case _ => orders - {id}
  }

  // ---------- the daemon ----------

  class TimerService {
    var timers: map<TimerId, Timer>
    var currentList: seq<TimerId>
    var overflowList: seq<TimerId>
    var lastTime: Tick
    var log: seq<TimerId>  // the callbacks made, in order

    ghost var plans: map<TimerId, Plan>
    ghost var sampled: nat  // the true time at which the daemon last sampled the tick count

    /** The lists hold timers on schedule: those of an epoch and those of the next. */
    ghost predicate ListsAt(epoch: int, bound: nat)
      reads this
    {
      && Scheduled(currentList, timers, plans, epoch, bound) && SortedByExpiry(currentList, timers)
      && Scheduled(overflowList, timers, plans, epoch + 1, bound) && SortedByExpiry(overflowList, timers)
      && NoDuplicates(currentList + overflowList)
    }

    ghost predicate Accounts()
      reads this
    {
      Accounted(timers, plans, log)
    }

    ghost predicate Queued(loose: set<TimerId>)
      reads this
    {
      ActiveQueued(timers, currentList, overflowList, loose)
    }

    /** What holds while a command works on the timers in `loose`. */
    ghost predicate ValidBut(loose: set<TimerId>)
      reads this
    {
      ListsAt(Epoch(sampled), sampled) && lastTime == Wrap(sampled) && Accounts() && Queued(loose)
    }

    /** The lists are on schedule, the callbacks are accounted for, and the active timers are those on the lists. */
    ghost predicate Valid()
      reads this
    {
      ValidBut({})
    }

    /** The daemon starts with no timers, at tick zero. */
    constructor ()
      ensures Valid() && sampled == 0 && timers == map[] && log == []
    {
      timers, currentList, overflowList, lastTime, log := map[], [], [], 0, [];
      plans, sampled := map[], 0;
    }

    /** `prvInitialiseNewTimer`: a new timer is inactive and on no list. */
    method CreateTimer(id: TimerId, period: Tick, autoReload: bool)
      requires Valid() && id !in timers && period > 0
      modifies `timers, `plans
      ensures Valid()
      ensures timers == old(timers)[id := Timer(period, autoReload, false, 0)]
      ensures id !in old(plans) && plans == old(plans)[id := plans[id]] && id in plans
    {
      hide Sorted, Expiries, OnSchedule, NoDuplicates, Accounted, ActiveQueued, Scheduled, SortedByExpiry, Wrap, Epoch;
      ghost var timer, plan := Timer(period, autoReload, false, 0), Plan(0, multiset(log)[id], 0);
      NewTimerIsFree(timers, plans, currentList, overflowList, log, id, timer, plan);
      OtherTimerChanges(currentList, timers, plans, Epoch(sampled), sampled, id, timer, plan);
      OtherTimerChanges(overflowList, timers, plans, Epoch(sampled) + 1, sampled, id, timer, plan);
      timers := timers[id := Timer(period, autoReload, false, 0)];
      plans := plans[id := plan];
    }

    /** `prvInsertTimerInActiveList`. */
    method InsertTimerInActiveList(id: TimerId, nextExpiry: Tick, timeNow: Tick, commandTime: Tick,
                                   ghost command: nat, ghost now: nat) returns (processNow: bool)
      requires ListsAt(Epoch(now), now)
      requires id in timers && id in plans && id !in currentList + overflowList
      requires timers[id].active && timers[id].period > 0
      requires command <= now < command + TICK_MOD
      requires Due(timers[id], plans[id]) == command + timers[id].period
      requires nextExpiry == Wrap(Due(timers[id], plans[id])) && timeNow == Wrap(now) && commandTime == Wrap(command)
      requires !timers[id].autoReload ==> plans[id].fired == 0
      requires plans[id].fired > 0 ==> Nominal(plans[id].first, timers[id].period, plans[id].fired - 1) <= now
      modifies `timers, `currentList, `overflowList
      ensures ListsAt(Epoch(now), now)
      ensures timers == old(timers)[id := old(timers[id]).(expiry := nextExpiry)]
      ensures processNow <==> Due(timers[id], plans[id]) <= now
      ensures var due := Due(timers[id], plans[id]);
              && currentList == (if due > now && Epoch(due) == Epoch(now)
                                 then InsertByExpiry(old(currentList), timers, id) else old(currentList))
              && overflowList == (if due > now && Epoch(due) != Epoch(now)
                                  then InsertByExpiry(old(overflowList), timers, id) else old(overflowList))
    {
      hide NoDuplicates, Sorted, Wrap, Epoch;
      ghost var timers0 := timers;
      ghost var timer := timers[id].(expiry := nextExpiry);
      PlaceWithinLap(command, timers[id].period, now);
      timers := timers[id := timers[id].(expiry := nextExpiry)];
      OtherTimerChanges(currentList, timers0, plans, Epoch(now), now, id, timer, plans[id]);
      OtherTimerChanges(overflowList, timers0, plans, Epoch(now) + 1, now, id, timer, plans[id]);
      assert plans[id := plans[id]] == plans;
      if now < command + timer.period {
        EpochMonotone(now, command + timer.period);
      }
      processNow := false;
      if nextExpiry <= timeNow {
        if SubTicks(timeNow, commandTime) >= timers[id].period {
          processNow := true;
        } else {
          InsertKeepsSchedule(overflowList, timers, plans, Epoch(now) + 1, now, id);
          QueuedOnce(currentList, overflowList, InsertPosition(Expiries(overflowList, timers), nextExpiry), id);
          overflowList := InsertByExpiry(overflowList, timers, id);
        }
      } else {
        if timeNow < commandTime && nextExpiry >= commandTime {
          processNow := true;
        } else {
          InsertKeepsSchedule(currentList, timers, plans, Epoch(now), now, id);
          QueuedOnce(currentList, overflowList, InsertPosition(Expiries(currentList, timers), nextExpiry), id);
          currentList := InsertByExpiry(currentList, timers, id);
        }
      }
    }

    /** `prvReloadTimer`: one callback for each further expiry that has passed, the given one not counted;
        then the timer is queued for the first expiry that has not passed. */
    method ReloadTimer(id: TimerId, expiredTime: Tick, timeNow: Tick, ghost expired: nat, ghost now: nat)
      returns (ghost calls: nat)
      requires ListsAt(Epoch(now), now)
      requires id in timers && id in plans && id !in currentList + overflowList
      requires timers[id].active && timers[id].autoReload && timers[id].period > 0
      requires expired <= now < expired + TICK_MOD
      requires plans[id].fired > 0 && Nominal(plans[id].first, timers[id].period, plans[id].fired - 1) == expired
      requires expiredTime == Wrap(expired) && timeNow == Wrap(now)
      modifies `timers, `currentList, `overflowList, `log, `plans
      ensures ListsAt(Epoch(now), now)
      ensures plans == old(plans)[id := old(plans[id]).(fired := old(plans[id].fired) + calls)]
      ensures timers.Keys == old(timers).Keys
      ensures timers == old(timers)[id := old(timers[id]).(expiry := Wrap(Due(timers[id], plans[id])))]
      ensures log == old(log) + Repeat(id, calls)
      ensures Nominal(plans[id].first, timers[id].period, plans[id].fired - 1) <= now < Due(timers[id], plans[id])
      ensures var due := Due(timers[id], plans[id]);
              && currentList == (if Epoch(due) == Epoch(now)
                                 then InsertByExpiry(old(currentList), timers, id) else old(currentList))
              && overflowList == (if Epoch(due) != Epoch(now)
                                  then InsertByExpiry(old(overflowList), timers, id) else old(overflowList))
    {
      hide NoDuplicates, Sorted, Scheduled, InsertByExpiry, Wrap, Epoch, AddTicks, Nominal, OnSchedule;
      calls := 0;
      var time := expiredTime;
      ghost var lapsed := expired;
      NominalStep(plans[id].first, timers[id].period, plans[id].fired - 1);
      WrapAdd(lapsed, timers[id].period);
      WrapSmall(timers[id].period);
      var again := InsertTimerInActiveList(id, AddTicks(time, timers[id].period), timeNow, time, lapsed, now);
      while again
        invariant ListsAt(Epoch(now), now)
        invariant id in timers && id in plans
        invariant timers == old(timers)[id := old(timers[id]).(expiry := Wrap(Due(timers[id], plans[id])))]
        invariant plans == old(plans)[id := old(plans[id]).(fired := old(plans[id].fired) + calls)]
        invariant log == old(log) + Repeat(id, calls)
        invariant expired <= lapsed <= now && time == Wrap(lapsed)
        invariant Nominal(plans[id].first, timers[id].period, plans[id].fired - 1) == lapsed
        invariant again <==> Due(timers[id], plans[id]) <= now
        invariant var due := Due(timers[id], plans[id]);
                  && currentList == (if due > now && Epoch(due) == Epoch(now)
                                     then InsertByExpiry(old(currentList), timers, id) else old(currentList))
                  && overflowList == (if due > now && Epoch(due) != Epoch(now)
                                      then InsertByExpiry(old(overflowList), timers, id) else old(overflowList))
        decreases now - lapsed
      {
        // Advance the expiry time and make the callback.
        NominalStep(plans[id].first, timers[id].period, plans[id].fired - 1);
        WrapAdd(lapsed, timers[id].period);
        time := AddTicks(time, timers[id].period);
        lapsed := lapsed + timers[id].period;
        RepeatAdd(old(log), id, calls);
        log := log + [id];
        calls := calls + 1;
        CountCallback(id, now);
        NominalStep(plans[id].first, timers[id].period, plans[id].fired - 1);
        WrapAdd(lapsed, timers[id].period);
        again := InsertTimerInActiveList(id, AddTicks(time, timers[id].period), timeNow, time, lapsed, now);
      }
    }

    /** One callback more is counted for a timer that is on no list. */
    ghost method CountCallback(id: TimerId, now: nat)
      requires ListsAt(Epoch(now), now)
      requires id in timers && id in plans && id !in currentList + overflowList
      modifies `plans
      ensures ListsAt(Epoch(now), now)
      ensures plans == old(plans)[id := old(plans[id]).(fired := old(plans[id].fired) + 1)]
    {
      hide NoDuplicates, Sorted;
      ghost var plan := plans[id].(fired := plans[id].fired + 1);
      OtherPlanChanges(currentList, timers, plans, Epoch(now), now, id, plan);
      OtherPlanChanges(overflowList, timers, plans, Epoch(now) + 1, now, id, plan);
      plans := plans[id := plan];
    }

    /** A timer that is on no list becomes inactive. */
    method MarkInactive(id: TimerId, ghost now: nat)
      requires ListsAt(Epoch(now), now)
      requires id in timers && id in plans && id !in currentList + overflowList
      modifies `timers
      ensures ListsAt(Epoch(now), now)
      ensures timers == old(timers)[id := old(timers[id]).(active := false)]
    {
      hide NoDuplicates, Sorted;
      ghost var timer := timers[id].(active := false);
      OtherTimerChanges(currentList, timers, plans, Epoch(now), now, id, timer, plans[id]);
      OtherTimerChanges(overflowList, timers, plans, Epoch(now) + 1, now, id, timer, plans[id]);
      assert plans[id := plans[id]] == plans;
      timers := timers[id := timers[id].(active := false)];
    }

    /** The first timer of the current list comes off it. */
    method TakeFirst(ghost now: nat, ghost bound: nat)
      requires ListsAt(Epoch(now), bound) && bound <= now && currentList != []
      modifies `currentList
      ensures ListsAt(Epoch(now), now)
      ensures currentList == old(currentList[1..]) && old(currentList[0]) !in currentList + overflowList
    {
      hide NoDuplicates, Sorted;
      RemoveFirstQueued(currentList, overflowList);
      TailKeepsSchedule(currentList, timers, plans, Epoch(now), bound, 0);
      assert RemoveAt(currentList, 0) == currentList[1..];
      currentList := currentList[1..];
      LaterBound(currentList, timers, plans, Epoch(now), bound, now);
      LaterBound(overflowList, timers, plans, Epoch(now) + 1, bound, now);
    }

    /** `prvProcessExpiredTimer` on the head of the current list: one callback for each of its expiries that
        has passed; an auto-reload timer is queued again, a one-shot timer becomes inactive. */
    method ProcessExpiredTimer(nextExpireTime: Tick, timeNow: Tick, ghost now: nat, ghost bound: nat)
      returns (ghost calls: nat)
      requires ListsAt(Epoch(now), bound) && bound <= now && Accounts()
      requires currentList != [] && nextExpireTime == timers[currentList[0]].expiry
      requires timeNow == Wrap(now) && Due(timers[currentList[0]], plans[currentList[0]]) <= now
      modifies `timers, `currentList, `overflowList, `log, `plans
      ensures ListsAt(Epoch(now), now) && Accounts()
      ensures var id, others := old(currentList[0]), old(currentList[1..]);
              && id in timers && id in plans
              && timers == old(timers)[id := timers[id]]
              && plans == old(plans)[id := plans[id]]
              && WentOff(old(timers[id]), old(plans[id]), timers[id], plans[id], now)
              && calls == plans[id].fired - old(plans[id].fired) && log == old(log) + Repeat(id, calls)
              && (if !timers[id].autoReload
                  then currentList == others && overflowList == old(overflowList)
                  else if Epoch(Due(timers[id], plans[id])) == Epoch(now)
                  then currentList == InsertByExpiry(others, timers, id) && overflowList == old(overflowList)
                  else currentList == others && overflowList == InsertByExpiry(old(overflowList), timers, id))
    {
      hide NoDuplicates, Sorted, Wrap, Epoch, InsertByExpiry, Nominal, Accounted, Scheduled, SortedByExpiry;
      var id := currentList[0];
      HeadOnSchedule(currentList, timers, plans, Epoch(now), bound);
      ghost var timers0, plans0, log0, due := timers, plans, log, Due(timers[id], plans[id]);
      NominalZero(plans[id].first, timers[id].period);
      AccountedFacts(timers, plans, log);
      TakeFirst(now, bound);
      CountCallback(id, now);
      calls := 0;
      if timers[id].autoReload {
        SameEpochWithinLap(due, now);
        calls := ReloadTimer(id, nextExpireTime, timeNow, due, now);
      } else {
        MarkInactive(id, now);
        assert Repeat(id, 0) == [];
      }
      RepeatAdd(log0, id, calls);
      log := log + [id];
      calls := calls + 1;
      assert log == log0 + Repeat(id, calls);
      CallsAccounted(timers0, plans0, log0, id, timers[id], calls);
      assert plans == plans0[id := plans0[id].(fired := plans0[id].fired + calls)];
      assert timers == timers0[id := timers[id]];
    }

    /** `prvSwitchTimerLists`: every timer still on the current list goes off as at the last tick of its epoch,
        which can queue it only on the overflow list; then the lists trade places. */
    method SwitchTimerLists(ghost epoch: nat, ghost bound: nat, ghost loose: set<TimerId>)
      requires ListsAt(epoch, bound) && bound <= LastTick(epoch) && Accounts() && Queued(loose)
      modifies `timers, `currentList, `overflowList, `log, `plans
      ensures ListsAt(epoch + 1, LastTick(epoch)) && Accounts() && Queued(loose)
      ensures overflowList == []
      ensures old(log) <= log
      ensures old(currentList) == [] ==> log == old(log)
      ensures timers.Keys == old(timers).Keys
      ensures forall id :: id in timers && id !in old(currentList) ==>
                             timers[id] == old(timers)[id] && plans[id] == old(plans)[id]
      ensures forall id :: id in timers && id in old(currentList) ==>
                             WentOff(old(timers)[id], old(plans)[id], timers[id], plans[id], LastTick(epoch)) &&
                             (timers[id].autoReload ==> id in currentList)
      ensures forall id :: id in old(overflowList) ==> id in currentList
      ensures forall id :: id in currentList ==> id in old(currentList) || id in old(overflowList)
    {
      hide Sorted, Wrap, Epoch, InsertByExpiry, Accounted, Scheduled, Nominal, SortedByExpiry, WentOff, Drained,
           NoDuplicates, ActiveQueued;
      ghost var timers0, plans0, current0, overflow0, n := timers, plans, currentList, overflowList, 0;
      ghost var end := LastTick(epoch);
      LastTickEpoch(epoch);
      AccountedFacts(timers, plans, log);
      LaterBound(currentList, timers, plans, epoch, bound, end);
      LaterBound(overflowList, timers, plans, epoch + 1, bound, end);
      assert current0 == current0[0..];
      DrainedNone(timers0, plans0, current0, overflow0, end);
      while currentList != []
        invariant ListsAt(epoch, end) && Accounts() && old(log) <= log
        invariant current0 == [] ==> log == old(log)
        invariant ActiveQueued(timers, currentList, overflowList, loose)
        invariant n <= |current0| && currentList == current0[n..]
        invariant timers.Keys == timers0.Keys == plans.Keys == plans0.Keys
        invariant Drained(timers0, plans0, current0, overflow0, n, timers, plans, overflowList, end)
        decreases |currentList|
      {
        HeadOnSchedule(currentList, timers, plans, epoch, end);
        assert currentList[0] == current0[n];
        ghost var current, overflow, timers1, plans1 := currentList, overflowList, timers, plans;
        HeadIsNew(current0, overflow0, n);
        var nextExpireTime := timers[currentList[0]].expiry;
        var calls := ProcessExpiredTimer(nextExpireTime, PORT_MAX_DELAY, end, end);
        SortedIsListed(overflow, timers1, timers);
        SortedIsListed(current, timers1, timers);
        WentOffActive(timers1[current0[n]], plans1[current0[n]], timers[current0[n]], plans[current0[n]], end);
        FirstRequeued(timers1, current, overflow, loose, timers, currentList, overflowList);
        DueAfterEpoch(timers1[current0[n]], plans1[current0[n]], timers[current0[n]], plans[current0[n]], epoch);
        DrainOne(timers0, plans0, current0, overflow0, n, timers1, plans1, overflow, timers, plans, overflowList, end);
        n := n + 1;
      }
      DrainedAll(timers0, plans0, current0, overflow0, timers, plans, overflowList, end);
      EmptySchedule(timers, plans, epoch + 2, end);
      assert currentList + overflowList == overflowList + currentList;
      Traded(timers, currentList, overflowList, loose);
      var temp := currentList;
      currentList := overflowList;
      overflowList := temp;
    }

    /** `prvSampleTimeNow`, called at least once per wrap while a timer is queued: the lists are switched exactly when
        the epoch has changed since the last sample, and then every timer left from the old epoch goes off. With
        no timer queued any time may have passed, and nothing changes. */
    method SampleTimeNow(tickCount: Tick, ghost now: nat, ghost loose: set<TimerId>)
      returns (timeNow: Tick, listsWereSwitched: bool)
      requires ValidBut(loose)
      requires sampled <= now && tickCount == Wrap(now)
      requires now < sampled + TICK_MOD || currentList + overflowList == []
      modifies this
      ensures ValidBut(loose) && sampled == now && timeNow == tickCount
      ensures timers.Keys == old(timers).Keys && old(log) <= log
      ensures now < old(sampled) + TICK_MOD ==> (listsWereSwitched <==> Epoch(now) != Epoch(old(sampled)))
      ensures old(currentList) + old(overflowList) == [] ==>
                timers == old(timers) && plans == old(plans) && log == old(log) && currentList == []
                    && overflowList == []
      ensures Aged(old(timers), old(plans), old(currentList), old(sampled), timers, plans, now, {})
      ensures !listsWereSwitched ==>
                timers == old(timers) && plans == old(plans) && log == old(log) &&
                currentList == old(currentList) && overflowList == old(overflowList)
      ensures listsWereSwitched ==>
                && overflowList == []
                && (forall id :: id in old(overflowList) ==> id in currentList)
                && (forall id :: id in currentList ==> id in old(currentList) || id in old(overflowList))
                && (forall id :: id in timers && id !in old(currentList) ==>
                                   timers[id] == old(timers)[id] && plans[id] == old(plans)[id])
                && (forall id :: id in timers && id in old(currentList) ==>
                                   WentOff(old(timers)[id], old(plans)[id], timers[id], plans[id],
                                           LastTick(Epoch(old(sampled)))) &&
                                   (timers[id].autoReload ==> id in currentList))
    {
      hide NoDuplicates, Sorted, Scheduled, SortedByExpiry, Accounted, WentOff, Wrap, Epoch, ActiveQueued, Aged;
      if now < sampled + TICK_MOD {
        SameLap(sampled, now);
      }
      ghost var timers0, plans0, current0 := timers, plans, currentList;
      timeNow := tickCount;
      listsWereSwitched := false;
      EpochNonNegative(sampled);
      LastTickEpoch(Epoch(sampled));
      AccountedFacts(timers, plans, log);
      if timeNow < lastTime {
        SwitchTimerLists(Epoch(sampled), sampled, loose);
        listsWereSwitched := true;
        AccountedFacts(timers, plans, log);
        AgedBySwitch(timers0, plans0, current0, sampled, timers, plans, now);
        if now < sampled + TICK_MOD {
          LastTickBefore(Epoch(sampled), now);
          LaterBound(currentList, timers, plans, Epoch(now), LastTick(Epoch(sampled)), now);
          LaterBound(overflowList, timers, plans, Epoch(now) + 1, LastTick(Epoch(sampled)), now);
        }
      } else {
        AgedByNothing(timers, plans, currentList, sampled, now);
        if now < sampled + TICK_MOD {
          LaterBound(currentList, timers, plans, Epoch(now), sampled, now);
          LaterBound(overflowList, timers, plans, Epoch(now) + 1, sampled, now);
        }
      }
      EmptyOrMember(currentList);
      EmptySchedule(timers, plans, Epoch(now), now);
      EmptySchedule(timers, plans, Epoch(now) + 1, now);
      AccountedFacts(timers, plans, log);
      if old(currentList) + old(overflowList) == [] {
        NothingAged(timers0, plans0, sampled, timers, plans, now);
      }
      lastTime := timeNow;
      sampled := now;
    }

    /** `prvGetNextExpireTime`. */
    method GetNextExpireTime() returns (nextExpireTime: Tick, listWasEmpty: bool)
      requires Valid()
      ensures listWasEmpty == (currentList == [])
      ensures listWasEmpty ==> nextExpireTime == 0
      ensures currentList != [] ==>
                && currentList[0] in timers && currentList[0] in plans
                     && nextExpireTime == timers[currentList[0]].expiry
                && nextExpireTime == Wrap(Due(timers[currentList[0]], plans[currentList[0]]))
                && Epoch(Due(timers[currentList[0]], plans[currentList[0]])) == Epoch(sampled)
                && forall id :: id in timers && timers[id].active ==>
                                  id in plans
                                  && Due(timers[currentList[0]], plans[currentList[0]]) <= Due(timers[id], plans[id])
    {
      FirstIsNext(timers, plans, currentList, overflowList, sampled);
      listWasEmpty := currentList == [];
      if listWasEmpty {
        nextExpireTime := 0;
      } else {
        nextExpireTime := timers[currentList[0]].expiry;
      }
    }

    /** `prvProcessTimerOrBlockTask`, called with what `GetNextExpireTime` returned.  The daemon blocks only
        when every expiry up to now has had its callback and nothing is due; it then blocks until the first
        expiry of this epoch, or else until the tick count wraps, or indefinitely when no timer is queued. After an
        indefinite block any time may have passed. */
    method ProcessTimerOrBlockTask(nextExpireTime: Tick, listEmpty: bool, tickCount: Tick, ghost now: nat)
      returns (wait: Wait)
      requires Valid()
      requires listEmpty == (currentList == [])
      requires nextExpireTime == if currentList == [] then 0 else timers[currentList[0]].expiry
      requires sampled <= now && tickCount == Wrap(now)
      requires now < sampled + TICK_MOD || currentList + overflowList == []
      modifies this
      ensures Valid() && sampled == now
      ensures wait.Block? ==>
                && (now < old(sampled) + TICK_MOD ==> Epoch(now) == Epoch(old(sampled)))
                && timers == old(timers) && plans == old(plans) && log == old(log)
                && (forall id :: id in currentList + overflowList ==>
                                   && Due(timers[id], plans[id]) > now
                                   && forall k: nat :: k < plans[id].fired <==>
                                                       Nominal(plans[id].first, timers[id].period, k) <= now)
                && (wait.indefinitely <==> currentList + overflowList == [])
                && (currentList != [] ==>
                      && now + wait.ticks == Due(timers[currentList[0]], plans[currentList[0]])
                      && forall id :: id in currentList + overflowList
                           ==> now + wait.ticks <= Due(timers[id], plans[id]))
                && (currentList == [] && overflowList != [] ==>
                      if Wrap(now) == 0 then wait.ticks == 0
                      else now + wait.ticks == LastTick(Epoch(now)) + 1 &&
                           forall id :: id in overflowList ==> now + wait.ticks <= Due(timers[id], plans[id]))
      ensures timers.Keys == old(timers).Keys && old(log) <= log
      ensures old(currentList) + old(overflowList) == [] ==>
                timers == old(timers) && plans == old(plans) && log == old(log) && currentList + overflowList == []
      ensures now < old(sampled) + TICK_MOD && Epoch(now) != Epoch(old(sampled)) ==>
                && !wait.Block? && overflowList == []
                && Aged(old(timers), old(plans), old(currentList), old(sampled), timers, plans, now, {})
      ensures !wait.Block? && now < old(sampled) + TICK_MOD && Epoch(now) == Epoch(old(sampled)) ==>
                && old(currentList) != []
                && var id := old(currentList)[0];
                   && id in old(timers) && id in old(plans) && id in timers && id in plans
                   && timers == old(timers)[id := timers[id]] && plans == old(plans)[id := plans[id]]
                   && WentOff(old(timers)[id], old(plans)[id], timers[id], plans[id], now)
                   && log == old(log) + Repeat(id, plans[id].fired - old(plans)[id].fired)
    {
      hide NoDuplicates, Sorted, Scheduled, Accounted, Wrap, Epoch, Nominal, InsertByExpiry, ActiveQueued, Aged,
           WentOff, SortedByExpiry;
      EpochNonNegative(now);
      AccountedFacts(timers, plans, log);
      var timeNow, listsWereSwitched := SampleTimeNow(tickCount, now, {});
      if listsWereSwitched {
        wait := Run;
      } else {
        if !listEmpty {
          HeadOnSchedule(currentList, timers, plans, Epoch(now), now);
          EpochOrder(Due(timers[currentList[0]], plans[currentList[0]]), now);
        }
        if !listEmpty && nextExpireTime <= timeNow {
          ghost var current, overflow, timers1, plans1 := currentList, overflowList, timers, plans;
          var calls := ProcessExpiredTimer(nextExpireTime, timeNow, now, now);
          SortedIsListed(current, timers1, timers);
          SortedIsListed(overflow, timers1, timers);
          WentOffActive(timers1[current[0]], plans1[current[0]], timers[current[0]], plans[current[0]], now);
          FirstRequeued(timers1, current, overflow, {}, timers, currentList, overflowList);
          AccountedFacts(timers, plans, log);
          wait := Run;
        } else {
          var listWasEmpty := listEmpty;
          if listWasEmpty {
            listWasEmpty := overflowList == [];
          }
          wait := Block(SubTicks(nextExpireTime, timeNow), listWasEmpty);
          NothingDue(currentList, overflowList, timers, plans, now);
          BlockUntil(now, if currentList == [] then LastTick(Epoch(now)) + 1
                     else Due(timers[currentList[0]], plans[currentList[0]]));
        }
      }
    }

    /** The first step of every timer command: a queued timer comes off its list. */
    method Unqueue(id: TimerId)
      requires Valid()
      modifies `currentList, `overflowList
      ensures ValidBut({id})
      ensures currentList == Without(old(currentList), id) && overflowList == Without(old(overflowList), id)
      ensures id !in currentList + overflowList
    {
      WithoutKeeps(currentList, overflowList, timers, plans, Epoch(sampled), sampled, id);
      WithoutOnce(currentList, overflowList, id);
      if id in currentList {
        currentList := RemoveAt(currentList, IndexOf(currentList, id));
      } else if id in overflowList {
        overflowList := RemoveAt(overflowList, IndexOf(overflowList, id));
      }
    }

    /** A timer that is on no list starts a new plan. */
    ghost method RestartPlan(id: TimerId, timer: Timer, first: nat, now: nat)
      requires ListsAt(Epoch(now), now)
      requires id in timers && id in plans && id !in currentList + overflowList
      modifies `plans
      ensures plans == old(plans)[id := Plan(first, multiset(log)[id], 0)]
      ensures Scheduled(currentList, timers[id := timer], plans, Epoch(now), now)
      ensures SortedByExpiry(currentList, timers[id := timer])
      ensures Scheduled(overflowList, timers[id := timer], plans, Epoch(now) + 1, now)
      ensures SortedByExpiry(overflowList, timers[id := timer])
    {
      ghost var plan := Plan(first, multiset(log)[id], 0);
      OtherTimerChanges(currentList, timers, plans, Epoch(now), now, id, timer, plan);
      OtherTimerChanges(overflowList, timers, plans, Epoch(now) + 1, now, id, timer, plan);
      plans := plans[id := plan];
    }

    /** A timer that has expired since it was started: it is queued again, or becomes inactive. */
    method GoOffAtStart(id: TimerId, expiredTime: Tick, timeNow: Tick, ghost expired: nat, ghost now: nat)
      returns (ghost calls: nat)
      requires ListsAt(Epoch(now), now)
      requires id in timers && id in plans && id !in currentList + overflowList
      requires timers[id].active && timers[id].period > 0
      requires expired <= now < expired + TICK_MOD
      requires plans[id].fired == 0 && plans[id].first == expired
      requires expiredTime == Wrap(expired) && timeNow == Wrap(now)
      modifies `timers, `currentList, `overflowList, `log, `plans
      ensures ListsAt(Epoch(now), now)
      ensures id in timers && timers == old(timers)[id := timers[id]] && timers[id].period == old(timers[id].period)
      ensures timers[id].autoReload == old(timers[id].autoReload)
      ensures plans == old(plans)[id := old(plans[id]).(fired := 1 + calls)]
      ensures log == old(log) + Repeat(id, calls)
      ensures timers[id].autoReload ==>
                && timers[id].active
                && Nominal(plans[id].first, timers[id].period, plans[id].fired - 1) <= now < Due(timers[id], plans[id])
                && var due := Due(timers[id], plans[id]);
                   && currentList == (if Epoch(due) == Epoch(now)
                                      then InsertByExpiry(old(currentList), timers, id) else old(currentList))
                   && overflowList == (if Epoch(due) != Epoch(now)
                                       then InsertByExpiry(old(overflowList), timers, id) else old(overflowList))
      ensures !timers[id].autoReload ==>
                calls == 0 && !timers[id].active && currentList == old(currentList) && overflowList == old(overflowList)
    {
      hide NoDuplicates, Sorted, SortedByExpiry, Scheduled, Wrap, Epoch, InsertByExpiry, Nominal;
      NominalZero(expired, timers[id].period);
      CountCallback(id, now);
      calls := 0;
      if timers[id].autoReload {
        calls := ReloadTimer(id, expiredTime, timeNow, expired, now);
      } else {
        MarkInactive(id, now);
        assert Repeat(id, 0) == [];
      }
    }

    /** A start or reset issued at `issued`: one callback for each expiry since then, and the timer is queued
        for the next expiry, if it has one. */
    method StartTimer(id: TimerId, value: Tick, timeNow: Tick, ghost issued: nat, ghost now: nat)
      requires ListsAt(Epoch(now), now) && Accounts()
      requires id in timers && id !in currentList + overflowList
      requires value == Wrap(issued) && timeNow == Wrap(now) && issued <= now < issued + TICK_MOD
      modifies `timers, `currentList, `overflowList, `log, `plans
      ensures ListsAt(Epoch(now), now) && Accounts() && old(log) <= log
      ensures id in timers && timers == old(timers)[id := timers[id]] && plans == old(plans)[id := plans[id]]
      ensures timers[id].period == old(timers[id].period) && timers[id].autoReload == old(timers[id].autoReload)
      ensures plans[id].first == issued + timers[id].period && plans[id].before == old(multiset(log)[id])
      ensures forall x :: x != id ==> (x in currentList + overflowList <==> x in old(currentList) + old(overflowList))
      ensures timers[id].active <==> id in currentList + overflowList
      ensures timers[id].autoReload ==>
                && id in currentList + overflowList
                && Due(timers[id], plans[id]) > now
                && (plans[id].fired > 0 ==> Nominal(plans[id].first, timers[id].period, plans[id].fired - 1) <= now)
      ensures !timers[id].autoReload ==>
                && plans[id].fired == (if issued + timers[id].period <= now then 1 else 0)
                && (timers[id].active <==> now < issued + timers[id].period)
                && (id in currentList + overflowList <==> now < issued + timers[id].period)
    {
      hide NoDuplicates, Sorted, SortedByExpiry, Scheduled, Accounted, Wrap, Epoch, InsertByExpiry, Nominal, Place,
           AddTicks, Listed, OnSchedule, Repeat;
      NominalZero(issued + timers[id].period, timers[id].period);
      ghost var timers0, plans0, log0, current0, overflow0 := timers, plans, log, currentList, overflowList;
      ghost var calls := 0;
      AccountedFacts(timers, plans, log);
      RestartPlan(id, timers[id].(active := true), issued + timers[id].period, now);
      timers := timers[id := timers[id].(active := true)];
      WrapAdd(issued, timers[id].period);
      WrapSmall(timers[id].period);
      var processNow := InsertTimerInActiveList(id, AddTicks(value, timers[id].period), timeNow, value, issued, now);
      if processNow {
        calls := GoOffAtStart(id, AddTicks(value, timers[id].period), timeNow, issued + timers[id].period, now);
        RepeatAdd(log0, id, calls);
        log := log + [id];
        calls := calls + 1;
      }
      InsertByExpiryMembers(current0, timers, id);
      InsertByExpiryMembers(overflow0, timers, id);
      assert calls == 0 ==> Repeat(id, calls) == [];
      assert log == log0 + Repeat(id, calls);
      RestartAccounted(timers0, plans0, log0, id, timers[id], plans[id].first, calls);
      assert timers == timers0[id := timers[id]];
      assert plans == plans0[id := Plan(plans[id].first, old(multiset(log)[id]), calls)];
    }

    /** A new period counts from now. */
    method ChangePeriod(id: TimerId, period: Tick, timeNow: Tick, ghost now: nat)
      requires ListsAt(Epoch(now), now) && Accounts()
      requires id in timers && id !in currentList + overflowList
      requires timeNow == Wrap(now) && period > 0
      modifies `timers, `currentList, `overflowList, `plans
      ensures ListsAt(Epoch(now), now) && Accounts()
      ensures id in timers && timers == old(timers)[id := timers[id]] && plans == old(plans)[id := plans[id]]
      ensures timers[id] == Timer(period, old(timers[id].autoReload), true, Wrap(now + period))
      ensures plans[id] == Plan(now + period, multiset(log)[id], 0)
      ensures id in currentList + overflowList
      ensures forall x :: x != id ==> (x in currentList + overflowList <==> x in old(currentList) + old(overflowList))
    {
      hide NoDuplicates, Sorted, Scheduled, Accounted, Wrap, Epoch, InsertByExpiry;
      ghost var timers0, plans0, current0, overflow0 := timers, plans, currentList, overflowList;
      AccountedFacts(timers, plans, log);
      RestartPlan(id, timers[id].(active := true, period := period), now + period, now);
      timers := timers[id := timers[id].(active := true, period := period)];
      WrapAdd(now, period);
      WrapSmall(period);
      var processNow := InsertTimerInActiveList(id, AddTicks(timeNow, period), timeNow, timeNow, now, now);
      InsertByExpiryMembers(current0, timers, id);
      InsertByExpiryMembers(overflow0, timers, id);
      RestartAccounted(timers0, plans0, log, id, timers[id], now + period, 0);
      assert log + Repeat(id, 0) == log;
      assert timers == timers0[id := timers[id]];
    }

    /** The callback-free part of a stop or a deletion. */
    method Deactivate(id: TimerId, ghost now: nat)
      requires ListsAt(Epoch(now), now) && Accounts()
      requires id in timers && id !in currentList + overflowList
      modifies `timers
      ensures ListsAt(Epoch(now), now) && Accounts()
      ensures timers == old(timers)[id := old(timers[id]).(active := false)]
    {
      hide NoDuplicates, Sorted, Scheduled, SortedByExpiry;
      MarkInactive(id, now);
    }

    /** The `switch` of `prvProcessReceivedCommands`, on a timer that is off its list. */
    method ObeyCommand(id: TimerId, command: Command, timeNow: Tick, ghost issued: nat, ghost now: nat)
      requires ListsAt(Epoch(now), now) && Accounts()
      requires id in timers && id in plans && id !in currentList + overflowList && timeNow == Wrap(now)
      requires command.Start? ==> command.value == Wrap(issued) && issued <= now < issued + TICK_MOD
      requires command.ChangePeriod? ==> command.period > 0
      modifies `timers, `currentList, `overflowList, `log, `plans
      ensures ListsAt(Epoch(now), now) && Accounts() && old(log) <= log
      ensures id in timers && timers == old(timers)[id := timers[id]] && id in plans
              && plans == old(plans)[id := plans[id]]
      ensures forall x :: x != id ==> (x in currentList + overflowList <==> x in old(currentList) + old(overflowList))
      ensures timers[id].active <==> id in currentList + overflowList
      ensures command.Start? ==>
                && plans[id].first == issued + old(timers[id].period) && plans[id].before == old(multiset(log)[id])
                && timers[id].period == old(timers[id].period) && timers[id].autoReload == old(timers[id].autoReload)
                && (timers[id].autoReload ==>
                      && id in currentList + overflowList
                      && forall k: nat :: k < plans[id].fired
                           <==> Nominal(plans[id].first, timers[id].period, k) <= now)
                && (!timers[id].autoReload ==>
                      && plans[id].fired == (if plans[id].first <= now then 1 else 0)
                      && (timers[id].active <==> now < plans[id].first))
      ensures command.ChangePeriod? ==>
                && timers[id] == Timer(command.period, old(timers[id].autoReload), true, Wrap(now + command.period))
                && plans[id] == Plan(now + command.period, old(multiset(log)[id]), 0)
      ensures command.Stop? || command.Delete? ==>
                && timers[id] == old(timers[id]).(active := false) && plans[id] == old(plans[id])
    {
      hide NoDuplicates, Sorted, Scheduled, Accounted, Wrap, Epoch, InsertByExpiry, Nominal, SortedByExpiry;
      ghost var plans1 := plans;
      match command {
        case Start(value) =>
          StartTimer(id, value, timeNow, issued, now);
          if timers[id].autoReload {
            CallsExact(plans[id].first, timers[id].period, plans[id].fired, now);
          }
        case Stop =>
          Deactivate(id, now);
        case ChangePeriod(period) =>
          ChangePeriod(id, period, timeNow, now);
        case Delete =>
          Deactivate(id, now);
      }
      assert plans == plans1[id := plans[id]];
    }

    /** One pass of `prvProcessReceivedCommands` for a timer command; `issued` is the true time at which a
        start or reset was issued, less than one lap ago.  Other timers change only as the sampling of the
        time changes them; with none of them active any time may have passed since the last sample. */
    method ProcessCommand(id: TimerId, command: Command, tickCount: Tick, ghost issued: nat, ghost now: nat)
      requires Valid() && id in timers
      requires sampled <= now && tickCount == Wrap(now)
      requires now < sampled + TICK_MOD || Idle(timers, {id})
      requires command.Start? ==> command.value == Wrap(issued) && issued <= now < issued + TICK_MOD
      requires command.ChangePeriod? ==> command.period > 0
      modifies this
      ensures Valid() && sampled == now && timers.Keys == old(timers).Keys && old(log) <= log
      ensures Aged(old(timers), old(plans), old(currentList), old(sampled), timers, plans, now, {id})
      ensures id in plans
      ensures command.Start? ==>
                && plans[id].first == issued + old(timers[id].period) && plans[id].before == old(multiset(log)[id])
                && timers[id].period == old(timers[id].period) && timers[id].autoReload == old(timers[id].autoReload)
                && (timers[id].autoReload ==>
                      && id in currentList + overflowList
                      && forall k: nat :: k < plans[id].fired
                           <==> Nominal(plans[id].first, timers[id].period, k) <= now)
                && (!timers[id].autoReload ==>
                      && plans[id].fired == (if plans[id].first <= now then 1 else 0)
                      && (timers[id].active <==> now < plans[id].first)
                      && (id in currentList + overflowList <==> now < plans[id].first))
      ensures command.ChangePeriod? ==>
                && timers[id] == Timer(command.period, old(timers[id].autoReload), true, Wrap(now + command.period))
                && plans[id] == Plan(now + command.period, old(multiset(log)[id]), 0)
                && id in currentList + overflowList
      ensures command.Stop? || command.Delete? ==>
                && timers[id] == old(timers[id]).(active := false) && plans[id] == old(plans[id])
                && id !in currentList + overflowList
    {
      hide NoDuplicates, Sorted, Scheduled, Accounted, WentOff, Wrap, Epoch, InsertByExpiry, Nominal, ActiveQueued,
           Aged, SortedByExpiry, Idle;
      AccountedCount(timers, plans, log, id);
      ghost var timers0, plans0, current0 := timers, plans, currentList;
      FirstHasNoDuplicates(currentList, overflowList);
      Unqueue(id);
      if now >= sampled + TICK_MOD {
        IdleIsEmpty(timers, currentList, overflowList, {id});
      }
      var timeNow, listsWereSwitched := SampleTimeNow(tickCount, now, {id});
      AccountedCount(timers, plans, log, id);
      LooseIsFree(timers, currentList, overflowList, id);
      ghost var timers1, plans1, current1, overflow1 := timers, plans, currentList, overflowList;
      ObeyCommand(id, command, timeNow, issued, now);
      OneRequeued(timers1, current1, overflow1, {id}, id, timers, currentList, overflowList);
      assert {id} - {id} == {};
      AgedBut(timers0, plans0, current0, old(sampled), timers1, plans1, now, id, timers, plans);
    }

    /** One turn of the loop of `prvTimerTask`, as far as the timers on the lists go. */
    method OnePass(now: nat, ghost orders: map<TimerId, Order>) returns (blocked: bool)
      requires Valid() && sampled <= now && Followed(orders, timers, plans, sampled)
      requires now < sampled + TICK_MOD || Idle(timers, {})
      modifies this
      ensures Valid() && sampled == now && timers.Keys == old(timers).Keys && Followed(orders, timers, plans, now)
      ensures old(log) <= log
      ensures blocked ==> Exact(Snapshot(now, timers, log, orders, true))
      ensures !blocked ==> Epoch(now) != Epoch(old(sampled)) || |log| > |old(log)|
      ensures Idle(old(timers), {}) ==> timers == old(timers) && log == old(log)
    {
      hide Scheduled, SortedByExpiry, NoDuplicates, Accounted, ActiveQueued, Followed, Exact, Aged, WentOff, Wrap,
           Epoch, Nominal;
      ghost var timers0, plans0, current0, before := timers, plans, currentList, sampled;
      if Idle(timers, {}) {
        IdleIsEmpty(timers, currentList, overflowList, {});
      }
      var nextExpireTime, listWasEmpty := GetNextExpireTime();
      var wait := ProcessTimerOrBlockTask(nextExpireTime, listWasEmpty, Wrap(now), now);
      blocked := wait.Block?;
      if now >= before + TICK_MOD {
        LapLater(before, now);
        SameFollowed(orders, timers, plans, before, now);
        if blocked {
          BlockedIsExact(Snapshot(now, timers, log, orders, true), plans, currentList, overflowList);
        }
      } else if Epoch(now) != Epoch(before) {
        FollowedAged(orders, timers0, plans0, current0, before, timers, plans, now, {});
        AllFollowed(orders, timers, plans, now);
      } else if blocked {
        SameFollowed(orders, timers, plans, before, now);
        NothingDueMembers(timers, plans, currentList, overflowList, log);
        BlockedIsExact(Snapshot(now, timers, log, orders, true), plans, currentList, overflowList);
      } else {
        WentOffGrows(timers0[current0[0]], plans0[current0[0]], timers[current0[0]], plans[current0[0]], now);
        FollowedOneOff(orders, timers0, plans0, before, current0[0], timers, plans, now);
      }
    }

    /** A command, and what it asks for. */
    method OneCommand(id: TimerId, command: Command, issued: nat, now: nat, ghost orders: map<TimerId, Order>)
      returns (ghost next: map<TimerId, Order>)
      requires Valid() && id in timers && sampled <= now && Followed(orders, timers, plans, sampled)
      requires now < sampled + TICK_MOD || Idle(timers, {id})
      requires command.Start? ==> command.value == Wrap(issued) && issued <= now < issued + TICK_MOD
      requires command.ChangePeriod? ==> command.period > 0
      modifies this
      ensures Valid() && sampled == now && timers.Keys == old(timers).Keys && Followed(next, timers, plans, now)
      ensures old(log) <= log
      ensures next == NewOrders(orders, id, command, issued, now, old(timers)[id], old(multiset(log))[id])
    {
      hide ListsAt, Accounts, ActiveQueued, Followed, Aged, WentOff, Wrap, Epoch, Nominal;
      ghost var timers0, plans0, current0, before := timers, plans, currentList, sampled;
      next := NewOrders(orders, id, command, issued, now, timers[id], multiset(log)[id]);
      ProcessCommand(id, command, Wrap(now), issued, now);
      FollowedAged(orders, timers0, plans0, current0, before, timers, plans, now, {id});
      QueuedIsActive(timers, currentList, overflowList, id);
      OthersFollowed(orders, next, id, timers, plans, now);
    }

    /** A timer that is created has no order. */
    method OneCreation(id: TimerId, period: Tick, autoReload: bool, ghost orders: map<TimerId, Order>)
      requires Valid() && id !in timers && period > 0 && Followed(orders, timers, plans, sampled)
      modifies `timers, `plans
      ensures timers == old(timers)[id := Timer(period, autoReload, false, 0)]
      ensures Valid() && timers.Keys == old(timers).Keys + {id} && Followed(orders, timers, plans, sampled)
    {
      hide ListsAt, Accounts, Queued;
      CreateTimer(id, period, autoReload);
    }

    /** `prvTimerTask` over any run of passes through its loop, of commands that it receives, and of timers that other
        tasks create. Whenever the daemon blocks, every timer that was started and not stopped since has had
        exactly the callbacks that were due. That goes for the whole run, or up to the first event that comes a lap
        or more after the last sample although a timer is active. */
    method TimerTask(start: nat, events: seq<DaemonEvent>) returns (ghost trace: seq<Snapshot>, handled: nat)
      requires Valid() && timers == map[] && log == [] && start == sampled
      requires Orderly(events, {}, start)
      modifies this
      ensures Valid()
      ensures handled <= |events| && RunOf(trace, events[..handled])
      ensures forall i :: 0 <= i < handled ==> InTime(trace[i].timers, trace[i].now, events[i])
      ensures handled < |events| ==> !InTime(trace[handled].timers, trace[handled].now, events[handled])
      ensures trace[0] == Snapshot(start, map[], [], map[], false)
      ensures var last := trace[handled]; last.now == sampled && last.timers == timers && last.log == log
    {
      hide ListsAt, Accounts, Queued, Exact, Followed, Aged, WentOff, Took, RunOf, Epoch, InTime;
      ghost var orders: map<TimerId, Order> := map[];
      trace := [Snapshot(sampled, timers, log, orders, false)];
      NothingFollowed(timers, plans, sampled);
      assert events[0..] == events && events[..0] == [] && timers.Keys == {};
      RunStarts(trace);
      var since := start;
      handled := 0;
      while handled < |events| && InTime(timers, since, events[handled])
        invariant handled <= |events| && Valid() && |trace| == handled + 1 && since == sampled
        invariant Orderly(events[handled..], timers.Keys, sampled)
        invariant Followed(orders, timers, plans, sampled)
        invariant RunOf(trace, events[..handled])
        invariant forall i :: 0 <= i < handled ==> InTime(trace[i].timers, trace[i].now, events[i])
        invariant trace[0] == Snapshot(start, map[], [], map[], false)
        invariant var last := trace[handled];
                  last.now == sampled && last.timers == timers && last.log == log && last.orders == orders
        decreases |events| - handled
      {
        ghost var blocked;
        OrderlyRest(events[handled..], timers.Keys, sampled);
        orders, blocked := OneEvent(events[handled], orders, trace[handled]);
        RunLonger(trace, events, handled, Snapshot(sampled, timers, log, orders, blocked));
        trace := trace + [Snapshot(sampled, timers, log, orders, blocked)];
        assert events[handled..][1..] == events[handled + 1..];
        since := if events[handled].Create? then since else events[handled].now;
        handled := handled + 1;
      }
    }

    method OneEvent(event: DaemonEvent, ghost orders: map<TimerId, Order>, ghost a: Snapshot)
      returns (ghost next: map<TimerId, Order>, ghost blocked: bool)
      requires Valid() && Followed(orders, timers, plans, sampled)
      requires a.now == sampled && a.timers == timers && a.log == log && a.orders == orders
      requires InTime(timers, sampled, event)
      requires event.Pass? ==> sampled <= event.now
      requires event.Receive? ==>
                 && event.id in timers && sampled <= event.now
                 && (event.command.Start? ==>
                       event.command.value == Wrap(event.issued) && event.issued <= event.now < event.issued + TICK_MOD)
                 && (event.command.ChangePeriod? ==> event.command.period > 0)
      requires event.Create? ==> event.id !in timers && event.period > 0
      modifies this
      ensures Valid() && Followed(next, timers, plans, sampled)
      ensures timers.Keys == old(timers).Keys + if event.Create? then {event.id} else {}
      ensures sampled == if event.Create? then old(sampled) else event.now
      ensures Took(a, event, Snapshot(sampled, timers, log, next, blocked))
    {
      hide ListsAt, Accounts, Queued, Exact, Followed, Aged, WentOff, Epoch;
      next, blocked := orders, false;
      match event {
        case Pass(now) =>
          var waits := OnePass(now, orders);
          blocked := waits;
        case Receive(id, command, issued, now) =>
          next := OneCommand(id, command, issued, now, orders);
        case Create(id, period, autoReload) =>
          OneCreation(id, period, autoReload, orders);
      }
    }
  }
}
