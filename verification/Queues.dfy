/** The queue of queue.c: a ring of slots, two event lists and two lock counts, each method one critical
    section.  Every method makes the step of `QueueModel` that it names. */
module Queues {
  import opened ListModel
  import opened KernelConfig
  import opened QueueModel

  const QUEUE_UNLOCKED: int := -1
  const QUEUE_LOCKED_UNMODIFIED: int := 0
  const INT8_MAX: int := 127

  /** A slot offset reduced into a ring of the given length. */
  function Slot(offset: nat, length: nat): nat
    requires length > 0
  {
    if offset >= 2 * length then offset - 2 * length
    else if offset >= length then offset - length
    else offset
  }

  /** The items held by a ring of slots, oldest first. */
  ghost function RingContents<T>(slots: seq<T>, readFrom: nat, count: nat): (r: seq<T>)
    requires readFrom < |slots| && count <= |slots|
    ensures |r| == count
  {
    seq(count, i requires 0 <= i < count => slots[Slot(readFrom + 1 + i, |slots|)])
  }

  class KernelQueue<T(0)> {
    const length: nat
    const storage: array<T>
    var writeTo: nat
    var readFrom: nat
    var messagesWaiting: nat
    var tasksWaitingToReceive: seq<Waiter>
    var tasksWaitingToSend: seq<Waiter>
    var rxLock: int
    var txLock: int
    var numberOfTasks: nat  // uxTaskGetNumberOfTasks()

    ghost var wokenReceivers: set<Task>
    ghost var wokenSenders: set<Task>
    ghost var tasks: set<Task>
    ghost var phase: Phase

    ghost predicate RingValid()
      reads this, storage
    {
      && length > 0 && storage.Length == length
      && readFrom < length && messagesWaiting <= length
      && writeTo == Slot(readFrom + 1 + messagesWaiting, length)
    }

    ghost function Contents(): seq<T>
      requires RingValid()
      reads this, storage
    {
      RingContents(storage[..], readFrom, messagesWaiting)
    }

    ghost function View(): Queue<T>
      requires RingValid()
      reads this, storage
    {
      Queue(Contents(), length,
            Side(tasksWaitingToReceive, wokenReceivers, txLock), Side(tasksWaitingToSend, wokenSenders, rxLock),
            tasks, phase)
    }

    ghost predicate Valid()
      reads this, storage
    {
      RingValid() && numberOfTasks == |tasks| && Inv(View())
    }

    /** `prvInitialiseNewQueue`. */
    constructor (length: nat, ghost tasks: set<Task>, numberOfTasks: nat)
      requires length > 0 && numberOfTasks == |tasks|
      ensures Valid() && Init(View()) && View().contents == [] && this.length == length && this.tasks == tasks
      ensures fresh(storage)
    {
      this.length := length;
      storage := new T[length];
      messagesWaiting, writeTo, readFrom := 0, 0, length - 1;
      rxLock, txLock := QUEUE_UNLOCKED, QUEUE_UNLOCKED;
      tasksWaitingToReceive, tasksWaitingToSend := [], [];
      this.numberOfTasks := numberOfTasks;
      wokenReceivers, wokenSenders, phase := {}, {}, Idle;
      this.tasks := tasks;
      new;
      InitInv(View());
    }

    // ---------- the ring ----------

    /** `prvCopyDataToQueue` for items of non-zero size. */
    method CopyDataToQueue(x: T, position: Position)
      requires RingValid()
      requires messagesWaiting < length || (position == Overwrite && length == 1)
      requires position == Overwrite ==> length == 1
      modifies storage, `writeTo, `readFrom, `messagesWaiting
      ensures RingValid()
      ensures Contents() == Put(old(Contents()), x, position)
    {
      var count := messagesWaiting;
      ghost var slots := storage[..];
      if position == SendToBack {
        storage[writeTo] := x;
        writeTo := writeTo + 1;
        if writeTo >= length {
          writeTo := 0;
        }
        RingPutBack(slots, readFrom, count, x);
      } else {
        RingPutFront(slots, readFrom, count, x);
        storage[readFrom] := x;
        if readFrom == 0 {
          readFrom := length - 1;
        } else {
          readFrom := readFrom - 1;
        }
        if position == Overwrite {
          if count > 0 {
            count := count - 1;
          }
        }
      }
      messagesWaiting := count + 1;
    }

    /** `prvCopyDataFromQueue`: the read position advances to the oldest item, which is copied out. */
    method CopyDataFromQueue() returns (x: T)
      requires RingValid() && messagesWaiting > 0
      modifies `readFrom
      ensures readFrom == Slot(old(readFrom) + 1, length) && x == old(Contents())[0]
    {
      readFrom := readFrom + 1;
      if readFrom >= length {
        readFrom := 0;
      }
      x := storage[readFrom];
    }

    // ---------- the critical sections of tasks ----------

    /** `xTaskRemoveFromEventList` on the receivers, if there are any. */
    method WakeReceiver()
      modifies `tasksWaitingToReceive, `wokenReceivers
      ensures Side(tasksWaitingToReceive, wokenReceivers, txLock) ==
              WakeOne(old(Side(tasksWaitingToReceive, wokenReceivers, txLock)))
    {
      if tasksWaitingToReceive != [] {
        wokenReceivers := wokenReceivers + {tasksWaitingToReceive[0].task};
        tasksWaitingToReceive := tasksWaitingToReceive[1..];
      }
    }

    method WakeSender()
      modifies `tasksWaitingToSend, `wokenSenders
      ensures Side(tasksWaitingToSend, wokenSenders, rxLock) ==
              WakeOne(old(Side(tasksWaitingToSend, wokenSenders, rxLock)))
    {
      if tasksWaitingToSend != [] {
        wokenSenders := wokenSenders + {tasksWaitingToSend[0].task};
        tasksWaitingToSend := tasksWaitingToSend[1..];
      }
    }

    /** The first critical section of `xQueueGenericSend`. */
    method TrySend(t: Task, x: T, position: Position) returns (sent: bool)
      requires Valid() && Enabled(View(), Step.Send(t, x, position))
      modifies this, storage
      ensures Valid() && View() == Next(old(View()), Step.Send(t, x, position))
      ensures sent <==> |old(Contents())| < length || position == Overwrite
    {
      hide ValidSide, Covered, Counted, RingContents;
      ghost var before := View();
      InvStep(before, Step.Send(t, x, position));
      wokenSenders := wokenSenders - {t};
      sent := messagesWaiting < length || position == Overwrite;
      if sent {
        CopyDataToQueue(x, position);
        WakeReceiver();
      }
    }

    /** The first critical section of `xQueueReceive`. */
    method TryReceive(t: Task, nothing: T) returns (received: bool, x: T)
      requires Valid() && Enabled(View(), Step.Receive(t))
      modifies this
      ensures Valid() && View() == Next(old(View()), Step.Receive(t))
      ensures received <==> old(Contents()) != []
      ensures x == if received then old(Contents())[0] else nothing
    {
      hide ValidSide, Covered, Counted, RingContents;
      ghost var before := View();
      InvStep(before, Step.Receive(t));
      wokenReceivers := wokenReceivers - {t};
      received, x := messagesWaiting > 0, nothing;
      if received {
        RingDropFirst(storage[..], readFrom, messagesWaiting);
        x := CopyDataFromQueue();
        messagesWaiting := messagesWaiting - 1;
        WakeSender();
      }
    }

    /** The first critical section of `xQueuePeek`: the item stays, so the wake-up is handed on. */
    method TryPeek(t: Task, nothing: T) returns (received: bool, x: T)
      requires Valid() && Enabled(View(), Step.Peek(t))
      modifies this
      ensures Valid() && View() == Next(old(View()), Step.Peek(t))
      ensures received <==> old(Contents()) != []
      ensures x == if received then old(Contents())[0] else nothing
    {
      hide ValidSide, Covered, Counted, RingContents;
      ghost var before := View();
      InvStep(before, Step.Peek(t));
      wokenReceivers := wokenReceivers - {t};
      received, x := messagesWaiting > 0, nothing;
      if received {
        var originalReadPosition := readFrom;
        x := CopyDataFromQueue();
        readFrom := originalReadPosition;
        WakeReceiver();
      }
    }

    // ---------- interrupts ----------

    /** `xQueueGenericSendFromISR`. */
    method SendFromISR(x: T, position: Position) returns (sent: bool)
      requires Valid() && Enabled(View(), Step.SendFromISR(x, position))
      modifies this, storage
      ensures Valid() && View() == Next(old(View()), Step.SendFromISR(x, position))
      ensures sent <==> |old(Contents())| < length || position == Overwrite
    {
      hide ValidSide, Covered, Counted, RingContents;
      ghost var before := View();
      InvStep(before, Step.SendFromISR(x, position));
      sent := messagesWaiting < length || position == Overwrite;
      if sent {
        CopyDataToQueue(x, position);
        if txLock == QUEUE_UNLOCKED {
          WakeReceiver();
        } else if txLock < numberOfTasks {
          assert txLock != INT8_MAX;
          txLock := txLock + 1;
        }
      }
    }

    /** `xQueueReceiveFromISR`. */
    method ReceiveFromISR(nothing: T) returns (received: bool, x: T)
      requires Valid() && Enabled(View(), Step<T>.ReceiveFromISR)
      modifies this
      ensures Valid() && View() == Next(old(View()), Step.ReceiveFromISR)
      ensures received <==> old(Contents()) != []
      ensures x == if received then old(Contents())[0] else nothing
    {
      hide ValidSide, Covered, Counted, RingContents;
      ghost var before := View();
      InvStep(before, Step.ReceiveFromISR);
      received, x := messagesWaiting > 0, nothing;
      if received {
        RingDropFirst(storage[..], readFrom, messagesWaiting);
        x := CopyDataFromQueue();
        messagesWaiting := messagesWaiting - 1;
        if rxLock == QUEUE_UNLOCKED {
          WakeSender();
        } else if rxLock < numberOfTasks {
          assert rxLock != INT8_MAX;
          rxLock := rxLock + 1;
        }
      }
    }

    /** `xQueuePeekFromISR`. */
    method PeekFromISR(nothing: T) returns (received: bool, x: T)
      requires Valid()
      modifies `readFrom
      ensures Valid() && View() == old(View())
      ensures received <==> Contents() != []
      ensures x == if received then Contents()[0] else nothing
    {
      received, x := messagesWaiting > 0, nothing;
      if received {
        var originalReadPosition := readFrom;
        x := CopyDataFromQueue();
        readFrom := originalReadPosition;
      }
    }

    // ---------- blocking, with the scheduler suspended ----------

    /** `prvLockQueue`. */
    method LockQueue(ghost t: Task)
      requires Valid() && Enabled(View(), Step<T>.LockQueue(t))
      modifies this
      ensures Valid() && View() == Next(old(View()), Step.LockQueue(t))
    {
      ghost var before := View();
      InvStep(before, Step.LockQueue(t));
      if rxLock == QUEUE_UNLOCKED {
        rxLock := QUEUE_LOCKED_UNMODIFIED;
      }
      if txLock == QUEUE_UNLOCKED {
        txLock := QUEUE_LOCKED_UNMODIFIED;
      }
      phase := LockedBy(t);
    }

    /** `prvIsQueueEmpty`. The locker remembers that it saw the queue empty; who asks after its time-out does not. */
    method IsQueueEmpty() returns (empty: bool)
      requires Valid()
      modifies `phase
      ensures Valid() && (empty <==> Contents() == [])
      ensures View() == if empty then Next(old(View()), Step.SeeEmpty) else old(View())
    {
      empty := messagesWaiting == 0;
      if empty && phase.LockedBy? {
        ghost var before := View();
        InvStep(before, Step.SeeEmpty);
        phase := SawEmpty(phase.task);
      }
    }

    /** `prvIsQueueFull`. */
    method IsQueueFull() returns (full: bool)
      requires Valid()
      modifies `phase
      ensures Valid() && (full <==> |Contents()| == length)
      ensures View() == if full then Next(old(View()), Step.SeeFull) else old(View())
    {
      full := messagesWaiting == length;
      if full && phase.LockedBy? {
        ghost var before := View();
        InvStep(before, Step.SeeFull);
        phase := SawFull(phase.task);
      }
    }

    /** `vTaskPlaceOnEventList` of the current task on the receivers. */
    method PlaceOnReceivers(current: Task, itemValue: nat)
      requires Valid() && phase == SawEmpty(current)
      modifies this
      ensures Valid() && View() == Next(old(View()), Step.BlockToReceive(itemValue))
    {
      ghost var before := View();
      InvStep(before, Step.BlockToReceive(itemValue));
      var w := Waiter(current, itemValue);
      tasksWaitingToReceive := InsertAt(tasksWaitingToReceive,
                                        InsertPosition(Values(tasksWaitingToReceive), itemValue), w);
      phase := Enlisted;
    }

    /** `vTaskPlaceOnEventList` of the current task on the senders. */
    method PlaceOnSenders(current: Task, itemValue: nat)
      requires Valid() && phase == SawFull(current)
      modifies this
      ensures Valid() && View() == Next(old(View()), Step.BlockToSend(itemValue))
    {
      ghost var before := View();
      InvStep(before, Step.BlockToSend(itemValue));
      var w := Waiter(current, itemValue);
      tasksWaitingToSend := InsertAt(tasksWaitingToSend, InsertPosition(Values(tasksWaitingToSend), itemValue), w);
      phase := Enlisted;
    }

    /** The loop over `cTxLock` in `prvUnlockQueue`: one receiver is woken for every post counted, until
        there are no more. */
    method WakeCountedReceivers()
      requires txLock >= -1
      modifies `tasksWaitingToReceive, `wokenReceivers
      ensures Side(tasksWaitingToReceive, wokenReceivers, -1) ==
              Unlock(old(Side(tasksWaitingToReceive, wokenReceivers, txLock)))
    {
      ghost var waiters, woken, k := tasksWaitingToReceive, wokenReceivers, 0;
      var lock := txLock;
      assert waiters == waiters[0..] && Tasks(waiters[..0]) == {};
      while lock > QUEUE_LOCKED_UNMODIFIED
        invariant 0 <= k <= |waiters| && lock == txLock - k && (lock >= 0 || k == 0)
        invariant tasksWaitingToReceive == waiters[k..] && wokenReceivers == woken + Tasks(waiters[..k])
        decreases lock
      {
        if tasksWaitingToReceive == [] {
          break;
        }
        WakeReceiver();
        TasksNext(waiters, k);
        k := k + 1;
        lock := lock - 1;
      }
    }

    /** The loop over `cRxLock`. */
    method WakeCountedSenders()
      requires rxLock >= -1
      modifies `tasksWaitingToSend, `wokenSenders
      ensures Side(tasksWaitingToSend, wokenSenders, -1) ==
              Unlock(old(Side(tasksWaitingToSend, wokenSenders, rxLock)))
    {
      ghost var waiters, woken, k := tasksWaitingToSend, wokenSenders, 0;
      var lock := rxLock;
      assert waiters == waiters[0..] && Tasks(waiters[..0]) == {};
      while lock > QUEUE_LOCKED_UNMODIFIED
        invariant 0 <= k <= |waiters| && lock == rxLock - k && (lock >= 0 || k == 0)
        invariant tasksWaitingToSend == waiters[k..] && wokenSenders == woken + Tasks(waiters[..k])
        decreases lock
      {
        if tasksWaitingToSend == [] {
          break;
        }
        WakeSender();
        TasksNext(waiters, k);
        k := k + 1;
        lock := lock - 1;
      }
    }

    /** The first half of `prvUnlockQueue`. */
    method UnlockReceivers()
      requires Valid() && Enabled(View(), Step<T>.UnlockReceivers)
      modifies this
      ensures Valid() && View() == Next(old(View()), Step.UnlockReceivers)
    {
      hide Unlock, RingContents, Covered, Counted;
      ghost var before := View();
      InvStep(before, Step.UnlockReceivers);
      WakeCountedReceivers();
      txLock := QUEUE_UNLOCKED;
      phase := ReceiversUnlocked;
    }

    /** The second half of `prvUnlockQueue`. */
    method UnlockSenders()
      requires Valid() && Enabled(View(), Step<T>.UnlockSenders)
      modifies this
      ensures Valid() && View() == Next(old(View()), Step.UnlockSenders)
    {
      hide Unlock, RingContents, Covered, Counted;
      ghost var before := View();
      InvStep(before, Step.UnlockSenders);
      WakeCountedSenders();
      rxLock := QUEUE_UNLOCKED;
      phase := Idle;
    }

    /** A waiter leaves its event list without an event: its block time ends, it is suspended or aborted. */
    method GiveUp(w: Waiter)
      requires Valid() && phase == Idle
      modifies this
      ensures Valid() && View() == Next(old(View()), Step.GiveUp(w))
    {
      hide ValidSide, Covered, Counted, RingContents, RemoveAt;
      ghost var before := View();
      InvStep(before, Step.GiveUp(w));
      if w in tasksWaitingToReceive {
        tasksWaitingToReceive := RemoveAt(tasksWaitingToReceive, IndexOf(tasksWaitingToReceive, w));
      }
      if w in tasksWaitingToSend {
        tasksWaitingToSend := RemoveAt(tasksWaitingToSend, IndexOf(tasksWaitingToSend, w));
      }
    }
  }

  lemma TasksNext(waiters: seq<Waiter>, k: nat)
    requires k < |waiters|
    ensures Tasks(waiters[..k + 1]) == Tasks(waiters[..k]) + {waiters[k].task}
  {
    assert waiters[..k + 1] == waiters[..k] + [waiters[k]];
    TasksUnion(waiters[..k], [waiters[k]]);
    assert Tasks([waiters[k]]) == {waiters[k].task};
  }

  /** Writing the free slot after the newest item appends. */
  lemma RingPutBack<T>(slots: seq<T>, readFrom: nat, count: nat, x: T)
    requires readFrom < |slots| && count < |slots|
    ensures var w := Slot(readFrom + 1 + count, |slots|);
            && w < |slots|
            && Slot(readFrom + 1 + (count + 1), |slots|) == (if w + 1 >= |slots| then 0 else w + 1)
            && RingContents(slots[w := x], readFrom, count + 1) == RingContents(slots, readFrom, count) + [x]
  {
    var n, w := |slots|, Slot(readFrom + 1 + count, |slots|);
    var after, before := RingContents(slots[w := x], readFrom, count + 1), RingContents(slots, readFrom, count);
    forall i | 0 <= i < count + 1
      ensures after[i] == (before + [x])[i]
    {
      assert i < count ==> Slot(readFrom + 1 + i, n) != w;
    }
  }

  /** Writing the slot last read from, and stepping the read position back, prepends; with one slot only it
      replaces whatever was there. */
  lemma RingPutFront<T>(slots: seq<T>, readFrom: nat, count: nat, x: T)
    requires readFrom < |slots|
    requires count < |slots| || |slots| == count == 1
    ensures var r := if readFrom == 0 then |slots| - 1 else readFrom - 1;
            && (count < |slots| ==>
                  && Slot(r + 1 + (count + 1), |slots|) == Slot(readFrom + 1 + count, |slots|)
                  && RingContents(slots[readFrom := x], r, count + 1) == [x] + RingContents(slots, readFrom, count))
            && (|slots| == 1 ==> RingContents(slots[readFrom := x], r, 1) == [x])
  {
    if |slots| == 1 {
      assert Slot(1, 1) == 0 && readFrom == 0;
      assert RingContents(slots[readFrom := x], 0, 1)[0] == x;
    }
    if count < |slots| {
      var r := if readFrom == 0 then |slots| - 1 else readFrom - 1;
      var after := RingContents(slots[readFrom := x], r, count + 1);
      forall i | 0 <= i < count + 1
        ensures after[i] == ([x] + RingContents(slots, readFrom, count))[i]
      {
        if i == 0 {
          assert Slot(r + 1 + i, |slots|) == readFrom;
        } else {
          assert Slot(r + 1 + i, |slots|) == Slot(readFrom + 1 + (i - 1), |slots|) != readFrom;
        }
      }
    }
  }

  /** Advancing the read position drops the oldest item. */
  lemma RingDropFirst<T>(slots: seq<T>, readFrom: nat, count: nat)
    requires readFrom < |slots| && 0 < count <= |slots|
    ensures var r := Slot(readFrom + 1, |slots|);
            && r < |slots|
            && Slot(r + 1 + (count - 1), |slots|) == Slot(readFrom + 1 + count, |slots|)
            && RingContents(slots, r, count - 1) == RingContents(slots, readFrom, count)[1..]
            && RingContents(slots, readFrom, count)[0] == slots[r]
  {
    var r, before := Slot(readFrom + 1, |slots|), RingContents(slots, readFrom, count);
    forall i | 0 <= i < count - 1
      ensures RingContents(slots, r, count - 1)[i] == before[1..][i]
    {
      assert Slot(r + 1 + i, |slots|) == Slot(readFrom + 1 + (i + 1), |slots|);
    }
  }
}
