/** Block-time bookkeeping: `TimeOut_t` budgets and periodic delays. */
module Timeouts {
  import opened Ticks

  // ---------- xTaskCheckForTimeOut ----------

  /** What one blocked call carries between retries: the `TimeOut_t` stamp and the remaining block time. */
  datatype Budget = Budget(entryTick: Tick, entryOverflows: int, ticksToWait: Tick)

  datatype Verdict = Verdict(expired: bool, budget: Budget)

  /** One check at a given tick count and overflow count; no delay was aborted. */
  function Check(tickCount: Tick, overflows: int, b: Budget): Verdict {
    var elapsed := SubTicks(tickCount, b.entryTick);
    if b.ticksToWait == PORT_MAX_DELAY then
      Verdict(false, b)
    else if overflows != b.entryOverflows && tickCount >= b.entryTick then
      Verdict(true, b.(ticksToWait := 0))
    else if elapsed < b.ticksToWait then
      Verdict(false, Budget(tickCount, overflows, b.ticksToWait - elapsed))
    else
      Verdict(true, b.(ticksToWait := 0))
  }

  /** The tick and overflow counts the kernel holds at a ghost time, and a budget stamped then. */
  function CheckAt(now: nat, b: Budget): Verdict {
    Check(Wrap(now), Epoch(now), b)
  }

  function StampedAt(since: nat, ticksToWait: Tick): Budget {
    Budget(Wrap(since), Epoch(since), ticksToWait)
  }

  /** At least one whole lap of the tick counter has gone by, and the stored values do not show it. */
  predicate HiddenLap(since: nat, now: nat) {
    now - since >= TICK_MOD && Wrap(now) < Wrap(since)
  }

  /** At most one tick overflow between two times never hides a lap. */
  lemma OneOverflowHidesNothing(since: nat, now: nat)
    requires since <= now
    requires Epoch(now) <= Epoch(since) + 1
    ensures !HiddenLap(since, now)
  {
    WrapSplit(since);
    WrapSplit(now);
  }

  /** Which ticks the check charges: all of them, except whole laps that are hidden. */
  lemma CheckInTrueTime(since: nat, now: nat, budget: Tick)
    requires since <= now
    requires budget != PORT_MAX_DELAY
    ensures CheckAt(now, StampedAt(since, budget)) ==
            var charged := if HiddenLap(since, now) then Wrap(now - since) else now - since;
            if charged < budget then Verdict(false, StampedAt(now, budget - charged))
            else Verdict(true, StampedAt(since, 0))
  {
    WrapSplit(since);
    WrapSplit(now);
    WrapSub(now, since);
    if now - since < TICK_MOD {
      SameLap(since, now);
    }
  }

  /** A finite budget expires exactly when it has been used up, if and only if no hidden lap is followed
      by less than the budget of visible ticks. */
  lemma CheckExact(since: nat, now: nat, budget: Tick)
    requires since <= now
    requires budget != PORT_MAX_DELAY
    ensures (CheckAt(now, StampedAt(since, budget)).expired <==> now - since >= budget)
            <==> !(HiddenLap(since, now) && Wrap(now - since) < budget)
  {
    CheckInTrueTime(since, now, budget);
  }

  /** The excluded case is real: two overflows between checks make a long expired budget look fresh. */
  lemma HiddenLapMissesExpiry()
    ensures var since := TICK_MOD - 1; var now := 2 * TICK_MOD;
            now - since >= 10 && !CheckAt(now, StampedAt(since, 10)).expired
  {
    WrapUnique(TICK_MOD - 1, 0, TICK_MOD - 1);
    WrapUnique(2 * TICK_MOD, 2, 0);
    WrapUnique(TICK_MOD + 1, 1, 1);
    CheckInTrueTime(TICK_MOD - 1, 2 * TICK_MOD, 10);
  }

  /** The budget a call is left with after checking it at each of the given times in turn. */
  function ChecksAt(times: seq<nat>, b: Budget): Budget {
    if times == [] then b
    else CheckAt(times[|times| - 1], ChecksAt(times[..|times| - 1], b)).budget
  }

  function LastCheck(since: nat, times: seq<nat>): nat {
    if times == [] then since else times[|times| - 1]
  }

  /** Check times of one call: they do not go back, and at most one overflow lies between neighbours. */
  ghost predicate CheckTimes(since: nat, times: seq<nat>) {
    times == [] ||
    var earlier, now := times[..|times| - 1], times[|times| - 1];
    CheckTimes(since, earlier) &&
    LastCheck(since, earlier) <= now && Epoch(now) <= Epoch(LastCheck(since, earlier)) + 1
  }

  /** The budget telescopes over any number of checks: what is left plus the true elapsed time is the
      original budget, until the elapsed time reaches it; from then on nothing is left. */
  lemma {:induction false} BudgetTelescopes(since: nat, times: seq<nat>, budget: Tick)
    requires CheckTimes(since, times)
    requires budget != PORT_MAX_DELAY
    ensures var last := LastCheck(since, times);
            since <= last &&
            if times == [] || last - since < budget
            then ChecksAt(times, StampedAt(since, budget)) == StampedAt(last, budget - (last - since))
            else ChecksAt(times, StampedAt(since, budget)).ticksToWait == 0
  {
    if times != [] {
      var earlier, now := times[..|times| - 1], times[|times| - 1];
      BudgetTelescopes(since, earlier, budget);
      var previous := LastCheck(since, earlier);
      if earlier == [] || previous - since < budget {
        OneOverflowHidesNothing(previous, now);
        CheckInTrueTime(previous, now, budget - (previous - since));
      }
    }
  }

  /** Each check of a finite budget reports expiry exactly when the total elapsed time has reached the
      budget; so the first such check is the one that reports it. */
  lemma ExpiryReportedInTime(since: nat, times: seq<nat>, now: nat, budget: Tick)
    requires CheckTimes(since, times + [now])
    requires budget != PORT_MAX_DELAY
    ensures CheckAt(now, ChecksAt(times, StampedAt(since, budget))).expired <==> now - since >= budget
  {
    assert (times + [now])[..|times|] == times;
    BudgetTelescopes(since, times, budget);
    var previous := LastCheck(since, times);
    if times == [] || previous - since < budget {
      OneOverflowHidesNothing(previous, now);
      CheckInTrueTime(previous, now, budget - (previous - since));
    }
  }

  /** An infinite budget never expires, whatever the times. */
  lemma {:induction false} InfiniteNeverExpires(since: nat, times: seq<nat>, now: nat)
    ensures ChecksAt(times, StampedAt(since, PORT_MAX_DELAY)) == StampedAt(since, PORT_MAX_DELAY)
    ensures !CheckAt(now, ChecksAt(times, StampedAt(since, PORT_MAX_DELAY))).expired
  {
    if times != [] {
      InfiniteNeverExpires(since, times[..|times| - 1], now);
    }
  }

  /** The kernel's `TimeOut_t`. */
  class TimeOut {
    var overflowCount: int
    var timeOnEntering: Tick

    constructor ()
      ensures overflowCount == 0 && timeOnEntering == 0
    {
      overflowCount, timeOnEntering := 0, 0;
    }
  }

  /** The globals a time-out reads, and the running task's delay-aborted flag. */
  class TimeBase {
    var tickCount: Tick
    var numOfOverflows: int
    var delayAborted: bool
    ghost var now: nat

    ghost predicate Valid()
      reads this
    {
      tickCount == Wrap(now) && numOfOverflows == Epoch(now)
    }

    constructor (initialTickCount: Tick)
      ensures Valid() && now == initialTickCount && !delayAborted
    {
      tickCount, numOfOverflows, delayAborted, now := initialTickCount, 0, false, initialTickCount;
      WrapUnique(initialTickCount, 0, initialTickCount);
    }

    /** The time part of a tick interrupt. */
    method Tick()
      requires Valid()
      modifies `tickCount, `numOfOverflows, `now
      ensures Valid() && now == old(now) + 1
    {
      tickCount := AddTicks(tickCount, 1);
      if tickCount == 0 {
        numOfOverflows := numOfOverflows + 1;
      }
      now := now + 1;
      WrapSplit(now - 1);
      WrapSplit(now);
    }

    method SetTimeOutState(timeOut: TimeOut)
      requires Valid()
      modifies timeOut
      ensures Budget(timeOut.timeOnEntering, timeOut.overflowCount, 0) == StampedAt(now, 0)
    {
      timeOut.overflowCount := numOfOverflows;
      timeOut.timeOnEntering := tickCount;
    }

    /** An aborted delay is reported as expiry and forgotten; otherwise the call makes one `Check`. */
    method CheckForTimeOut(timeOut: TimeOut, ticksToWait: Tick) returns (expired: bool, remaining: Tick)
      requires Valid()
      modifies `delayAborted, timeOut
      ensures !delayAborted
      ensures old(delayAborted) ==> expired && remaining == ticksToWait &&
                                    timeOut.timeOnEntering == old(timeOut.timeOnEntering) &&
                                    timeOut.overflowCount == old(timeOut.overflowCount)
      ensures !old(delayAborted) ==>
                Verdict(expired, Budget(timeOut.timeOnEntering, timeOut.overflowCount, remaining)) ==
                CheckAt(now, old(Budget(timeOut.timeOnEntering, timeOut.overflowCount, ticksToWait)))
    {
      var elapsedTime := SubTicks(tickCount, timeOut.timeOnEntering);
      remaining := ticksToWait;
      if delayAborted {
        delayAborted := false;
        expired := true;
      } else if ticksToWait == PORT_MAX_DELAY {
        expired := false;
      } else if numOfOverflows != timeOut.overflowCount && tickCount >= timeOut.timeOnEntering {
        expired := true;
        remaining := 0;
      } else if elapsedTime < ticksToWait {
        remaining := ticksToWait - elapsedTime;
        SetTimeOutState(timeOut);
        expired := false;
      } else {
        remaining := 0;
        expired := true;
      }
    }
  }

  // ---------- xTaskDelayUntil ----------

  /** The four wrapped comparisons that decide whether a periodic delay blocks. */
  function ShouldDelay(previousWake: Tick, increment: Tick, tickCount: Tick): bool {
    var timeToWake := AddTicks(previousWake, increment);
    if tickCount < previousWake then
      timeToWake < previousWake && timeToWake > tickCount
    else
      timeToWake < previousWake || timeToWake > tickCount
  }

  /** The decision in true time: the call blocks exactly when the increment exceeds the time since the
      previous wake, counted modulo one lap; it always blocks until a time congruent to the wake time. */
  lemma ShouldDelayInTrueTime(previousWake: int, increment: Tick, now: int)
    requires increment > 0
    ensures ShouldDelay(Wrap(previousWake), increment, Wrap(now)) <==> increment > Wrap(now - previousWake)
    ensures SubTicks(AddTicks(Wrap(previousWake), increment), Wrap(now)) == Wrap(previousWake + increment - now)
  {
    var p, n := Wrap(previousWake), Wrap(now);
    WrapSub(now, previousWake);
    assert Wrap(now - previousWake) == if n >= p then n - p else n - p + TICK_MOD;
    assert AddTicks(p, increment) == if p + increment < TICK_MOD then p + increment else p + increment - TICK_MOD;
    WrapUnique(increment, 0, increment);
    WrapAdd(previousWake, increment);
    WrapSub(previousWake + increment, now);
  }

  /** Within one lap of the previous wake the call blocks exactly when the next nominal wake time is still
      ahead, and then for exactly the time that is missing. */
  lemma DelayUntilExact(previousWake: nat, increment: Tick, now: nat)
    requires increment > 0
    requires previousWake <= now < previousWake + TICK_MOD
    ensures ShouldDelay(Wrap(previousWake), increment, Wrap(now)) <==> previousWake + increment > now
    ensures previousWake + increment > now ==>
              now + SubTicks(AddTicks(Wrap(previousWake), increment), Wrap(now)) == previousWake + increment
  {
    ShouldDelayInTrueTime(previousWake, increment, now);
    SameLap(previousWake, now);
    if previousWake + increment > now {
      WrapUnique(previousWake + increment - now, 0, previousWake + increment - now);
    }
  }

  /** A caller that is a lap or more late is treated as late by the remainder only: the decision is right
      if and only if that remainder already covers the increment. */
  lemma DelayUntilLateExact(previousWake: nat, increment: Tick, now: nat)
    requires increment > 0
    requires now >= previousWake + TICK_MOD
    ensures (ShouldDelay(Wrap(previousWake), increment, Wrap(now)) <==> previousWake + increment > now)
            <==> Wrap(now - previousWake) >= increment
  {
    ShouldDelayInTrueTime(previousWake, increment, now);
  }

  function Sum(increments: seq<Tick>): nat {
    if increments == [] then 0
    else Sum(increments[..|increments| - 1]) + increments[|increments| - 1]
  }

  /** The wake time a task stores after a series of calls. */
  function StoredWake(start: Tick, increments: seq<Tick>): Tick {
    if increments == [] then start
    else AddTicks(StoredWake(start, increments[..|increments| - 1]), increments[|increments| - 1])
  }

  /** Such a caller exists: five ticks more than a lap late, it blocks for the rest of its increment of ten. */
  lemma LateCallerBlocks()
    ensures var now := TICK_MOD + 5; 0 + 10 <= now && ShouldDelay(Wrap(0), 10, Wrap(now))
  {
  }

  /** Periodic delays do not drift: after any number of calls, over any number of wraps, the stored wake
      time is the start plus the sum of the increments, and a call made at `now`, within a lap of the last
      nominal wake, ends its block exactly at the next nominal wake. */
  lemma {:induction false} NoDrift(start: nat, increments: seq<Tick>, increment: Tick, now: nat)
    requires increment > 0
    ensures StoredWake(Wrap(start), increments) == Wrap(start + Sum(increments))
    ensures start + Sum(increments) <= now < start + Sum(increments) + TICK_MOD ==>
              var previous := StoredWake(Wrap(start), increments);
              var nominal := start + Sum(increments) + increment;
              (ShouldDelay(previous, increment, Wrap(now)) <==> nominal > now) &&
              (nominal > now ==> now + SubTicks(AddTicks(previous, increment), Wrap(now)) == nominal)
  {
    if increments != [] {
      var n := |increments| - 1;
      NoDrift(start, increments[..n], increment, now);
      WrapUnique(increments[n], 0, increments[n]);
      WrapAdd(start + Sum(increments[..n]), increments[n]);
    }
    if start + Sum(increments) <= now < start + Sum(increments) + TICK_MOD {
      DelayUntilExact(start + Sum(increments), increment, now);
    }
  }
}
