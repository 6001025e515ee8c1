/** The mutex functions of the kernel as they change the task control blocks and the mutexes in place. Each is
    one step of the machine of module Mutexes. */
module MutexKernels {

  import opened ListModel
  import opened KernelConfig
  import opened Mutexes

  class MutexKernel {

    var tcbs: map<Task, Tcb>
    var mutexes: map<MutexId, Mutex>

    ghost function View(): State
      reads this
    {
      State(tcbs, mutexes)
    }

    // ---------- priorities ----------

    method PriorityInherit(holder: Option<Task>, current: Task) returns (occurred: bool)
      requires current in tcbs && (holder.Some? ==> holder.value in tcbs)
      modifies this`tcbs
      ensures tcbs == if holder.None? then old(tcbs)
                      else old(tcbs)[holder.value := Inherit(old(tcbs)[holder.value], old(tcbs)[current])]
      ensures occurred <==> holder.Some? && InheritanceOccurred(old(tcbs)[holder.value], old(tcbs)[current])
    {
      occurred := false;
      if holder.Some? {
        var h := holder.value;
        if tcbs[h].priority < tcbs[current].priority {
          if tcbs[h].eventItemValue < ITEM_VALUE_IN_USE {
            tcbs := tcbs[h := tcbs[h].(eventItemValue := MAX_PRIORITIES - tcbs[current].priority)];
          }
          tcbs := tcbs[h := tcbs[h].(priority := tcbs[current].priority)];
          occurred := true;
        } else {
          if tcbs[h].basePriority < tcbs[current].priority {
            occurred := true;
          }
          assert tcbs == tcbs[h := tcbs[h]];
        }
      }
    }

    /** The result asks for a context switch. */
    method PriorityDisinherit(holder: Task) returns (lowered: bool)
      requires holder in tcbs && tcbs[holder].mutexesHeld > 0
      modifies this`tcbs
      ensures tcbs == old(tcbs)[holder := Disinherit(old(tcbs)[holder])]
      ensures lowered <==> tcbs[holder].priority != old(tcbs)[holder].priority
    {
      lowered := false;
      tcbs := tcbs[holder := tcbs[holder].(mutexesHeld := tcbs[holder].mutexesHeld - 1)];
      if tcbs[holder].priority != tcbs[holder].basePriority {
        if tcbs[holder].mutexesHeld == 0 {
          tcbs := tcbs[holder := tcbs[holder].(priority := tcbs[holder].basePriority)];
          tcbs := tcbs[holder := tcbs[holder].(eventItemValue := MAX_PRIORITIES - tcbs[holder].priority)];
          lowered := true;
        }
      }
    }

    method PriorityDisinheritAfterTimeout(holder: Option<Task>, highest: nat)
      requires holder.Some? ==> holder.value in tcbs
      modifies this`tcbs
      ensures tcbs == if holder.None? then old(tcbs)
                      else old(tcbs)[holder.value := DisinheritAfterTimeout(old(tcbs)[holder.value], highest)]
    {
      if holder.Some? {
        var h := holder.value;
        var use := tcbs[h].basePriority;
        if tcbs[h].basePriority < highest {
          use := highest;
        }
        if tcbs[h].priority != use && tcbs[h].mutexesHeld == 1 {
          tcbs := tcbs[h := tcbs[h].(priority := use)];
          if tcbs[h].eventItemValue < ITEM_VALUE_IN_USE {
            tcbs := tcbs[h := tcbs[h].(eventItemValue := MAX_PRIORITIES - use)];
          }
        } else {
          assert tcbs == tcbs[h := tcbs[h]];
        }
      }
    }

    method GetDisinheritPriorityAfterTimeout(m: MutexId) returns (highest: nat)
      requires Inv(View()) && m in mutexes
      ensures highest == HighestWaiting(View(), m) < MAX_PRIORITIES
    {
      HighestWaitingInRange(View(), m);
      var waiters := mutexes[m].waiters;
      highest := 0;
      if |waiters| > 0 {
        highest := MAX_PRIORITIES - tcbs[waiters[0]].eventItemValue;
      }
    }

    method PrioritySet(t: Task, p: nat)
      requires Inv(View()) && Enabled(View(), SetPriority(t, p))
      modifies this`tcbs
      ensures View() == Next(old(View()), SetPriority(t, p)) && Inv(View())
    {
      hide Inv;
      InvStep(View(), SetPriority(t, p));
      if tcbs[t].basePriority != p {
        if tcbs[t].basePriority == tcbs[t].priority || p > tcbs[t].priority {
          tcbs := tcbs[t := tcbs[t].(priority := p)];
        }
        tcbs := tcbs[t := tcbs[t].(basePriority := p)];
        if tcbs[t].eventItemValue < ITEM_VALUE_IN_USE {
          tcbs := tcbs[t := tcbs[t].(eventItemValue := MAX_PRIORITIES - p)];
        }
      } else {
        assert tcbs == tcbs[t := tcbs[t]];
      }
    }

    /** Back from an event group: the item's value, which carried the bits, is the priority's again. */
    method ResetEventItemValue(t: Task) returns (value: int)
      requires Inv(View()) && Enabled(View(), LeaveGroup(t))
      modifies this`tcbs
      ensures View() == Next(old(View()), LeaveGroup(t)) && Inv(View())
      ensures value == old(tcbs)[t].eventItemValue >= ITEM_VALUE_IN_USE
    {
      hide WellFormed, HeldBy, MutexInv;
      InvStep(View(), LeaveGroup(t));
      value := tcbs[t].eventItemValue;
      tcbs := tcbs[t := tcbs[t].(eventItemValue := MAX_PRIORITIES - tcbs[t].priority)];
      tcbs := tcbs[t := tcbs[t].(phase := Outside)];
    }

    // ---------- taking ----------

    /** The first section of a take: take the mutex, or report that it is not available. */
    method TryTake(t: Task) returns (taken: bool)
      requires Inv(View()) && (Enabled(View(), Take(t)) || IsTrying(View(), t, false))
      modifies this
      ensures Inv(View())
      ensures if old(Enabled(View(), Take(t))) then taken && View() == Next(old(View()), Take(t))
              else !taken && View() == old(View())
    {
      hide Inv;
      var m := tcbs[t].phase.mutex;
      taken := mutexes[m].count > 0;
      if taken {
        InvStep(View(), Take(t));
        var x, tcb := mutexes[m], tcbs[t];
        x := x.(count := x.count - 1);
        tcb := tcb.(mutexesHeld := tcb.mutexesHeld + 1);
        x := x.(holder := Some(t));
        if x.recursive {
          x := x.(recursiveCallCount := x.recursiveCallCount + 1);
        }
        mutexes := mutexes[m := x];
        tcbs := tcbs[t := tcb.(phase := Outside)];
      }
    }

    /** The second section, not timed out: if the mutex is still not available, lend the priority and wait. */
    method BlockOrRetry(t: Task) returns (blocked: bool)
      requires Inv(View()) && (Enabled(View(), Take(t)) || Enabled(View(), Block(t)))
      modifies this
      ensures Inv(View())
      ensures if old(Enabled(View(), Block(t))) then blocked && View() == Next(old(View()), Block(t))
              else !blocked && View() == old(View())
    {
      var m := tcbs[t].phase.mutex;
      blocked := mutexes[m].count == 0;
      if blocked {
        InvStep(View(), Block(t));
        LendKeeps(View(), m, t);
        var occurred := PriorityInherit(mutexes[m].holder, t);
        assert View() == LendPriority(old(View()), m, t);
        var k := PlaceAmong(tcbs, mutexes[m].waiters, tcbs[t].eventItemValue);
        mutexes := mutexes[m := mutexes[m].(waiters := InsertAt(mutexes[m].waiters, k, t))];
        tcbs := tcbs[t := tcbs[t].(phase := Waiting(m, occurred))];
      }
    }

    /** The critical section after a timeout. */
    method SettleAfterTimeout(t: Task)
      requires Inv(View()) && Enabled(View(), Settle(t))
      modifies this`tcbs
      ensures Inv(View()) && View() == Next(old(View()), Settle(t))
    {
      var m := tcbs[t].phase.mutex;
      InvStep(View(), Settle(t));
      var highest := GetDisinheritPriorityAfterTimeout(m);
      PriorityDisinheritAfterTimeout(mutexes[m].holder, highest);
      tcbs := tcbs[t := tcbs[t].(phase := Outside)];
    }

    method TakeRecursive(t: Task, m: MutexId) returns (taken: bool)
      requires Inv(View()) && m in mutexes && mutexes[m].recursive && t in tcbs && tcbs[t].phase.Outside?
      modifies this
      ensures Inv(View())
      ensures View() == Next(old(View()), if old(IsHeldBy(View(), m, t)) then TakeAgain(t, m) else Call(t, m))
      ensures taken <==> old(mutexes)[m].holder == Some(t)
    {
      hide Inv;
      taken := mutexes[m].holder == Some(t);
      if taken {
        InvStep(View(), TakeAgain(t, m));
        mutexes := mutexes[m := mutexes[m].(recursiveCallCount := mutexes[m].recursiveCallCount + 1)];
      } else {
        InvStep(View(), Call(t, m));
        tcbs := tcbs[t := tcbs[t].(phase := Trying(m, false))];
      }
    }

    // ---------- giving ----------

    method GiveMutex(t: Task, m: MutexId) returns (lowered: bool)
      requires Inv(View()) && t in tcbs && tcbs[t].phase.Outside? && IsHeldBy(View(), m, t)
      modifies this
      ensures Inv(View()) && View() == Release(old(View()), t, m)
      ensures lowered <==> tcbs[t].priority != old(tcbs)[t].priority
    {
      hide Inv;
      HolderHolds(View(), m);
      ReleaseKeeps(View(), t, m);
      lowered := PriorityDisinherit(t);
      mutexes := mutexes[m := mutexes[m].(holder := None, count := mutexes[m].count + 1, recursiveCallCount := 0)];
    }

    /** Only the holder can give, and the mutex is available again when its last take is given back. */
    method GiveMutexRecursive(t: Task, m: MutexId) returns (given: bool)
      requires Inv(View()) && Enabled(View(), GiveRecursive(t, m))
      modifies this
      ensures Inv(View()) && View() == Next(old(View()), GiveRecursive(t, m))
      ensures given <==> old(mutexes)[m].holder == Some(t)
      ensures given ==> (mutexes[m].count == 1 <==> old(mutexes)[m].recursiveCallCount == 1)
    {
      hide Inv;
      InvStep(View(), GiveRecursive(t, m));
      HolderHolds(View(), m);
      HeldIsTaken(View(), m);
      given := mutexes[m].holder == Some(t);
      if given {
        if mutexes[m].recursiveCallCount - 1 == 0 {
          var _ := GiveMutex(t, m);
        } else {
          mutexes := mutexes[m := mutexes[m].(recursiveCallCount := mutexes[m].recursiveCallCount - 1)];
        }
      }
    }
  }

  lemma HeldIsTaken(s: State, m: MutexId)
    requires Inv(s) && m in s.mutexes
    ensures MutexInv(s.mutexes[m])
  {
  }
}
