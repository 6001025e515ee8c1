/** A queue as a value: its contents, the tasks waiting on either side of it, and the lock counts that
    stand in for wake-ups while the queue is locked. */
module QueueModel {
  import opened ListModel
  import opened KernelConfig

  datatype Position = SendToBack | SendToFront | Overwrite

  /** A task on an event list; a smaller item value means a higher priority. */
  datatype Waiter = Waiter(task: Task, itemValue: nat)

  /** The tasks waiting on one side of a queue: those on the event list, those that an event has woken and
      that have not retried yet, and the count of events since the queue was locked (-1 when it is not). */
  datatype Side = Side(waiters: seq<Waiter>, woken: set<Task>, lock: int)

  /** How far the task that has suspended the scheduler and locked the queue has got. */
  datatype Phase = Idle | LockedBy(task: Task) | SawEmpty(task: Task) | SawFull(task: Task) | Enlisted
      | ReceiversUnlocked

  datatype Queue<T> = Queue(contents: seq<T>, length: nat, receivers: Side, senders: Side, tasks: set<Task>,
                            phase: Phase)

  function Free<T>(q: Queue<T>): int {
    q.length - |q.contents|
  }

  // ---------- the contents: a bounded deque ----------

  predicate HasRoom<T>(q: Queue<T>, position: Position) {
    |q.contents| < q.length || position == Overwrite
  }

  function Put<T>(contents: seq<T>, x: T, position: Position): seq<T> {
    match position
    case SendToBack => contents + [x]
    case SendToFront => [x] + contents
    case Overwrite => [x]
  }

  // ---------- one side of a queue ----------

  function Values(waiters: seq<Waiter>): seq<nat> {
    seq(|waiters|, i requires 0 <= i < |waiters| => waiters[i].itemValue)
  }

  function Tasks(waiters: seq<Waiter>): set<Task> {
    set w | w in waiters :: w.task
  }

  /** `xTaskRemoveFromEventList` if the list is not empty. */
  function WakeOne(side: Side): Side {
    if side.waiters == [] then side
    else side.(waiters := side.waiters[1..], woken := side.woken + {side.waiters[0].task})
  }

  /** An interrupt wakes a waiter, or while the queue is locked counts the event, up to the number of tasks. */
  function NotifyFromISR(side: Side, numberOfTasks: nat): Side {
    if side.lock == -1 then WakeOne(side)
    else if side.lock < numberOfTasks then side.(lock := side.lock + 1)
    else side
  }

  /** A task that was woken runs again. */
  function Retry(side: Side, t: Task): Side {
    side.(woken := side.woken - {t})
  }

  /** `vTaskPlaceOnEventList`. */
  function Enlist(side: Side, w: Waiter): Side {
    side.(waiters := InsertAt(side.waiters, InsertPosition(Values(side.waiters), w.itemValue), w))
  }

  /** A waiter times out, is suspended, or has its delay aborted. */
  function Leave(side: Side, w: Waiter): Side {
    if w in side.waiters then side.(waiters := RemoveAt(side.waiters, IndexOf(side.waiters, w))) else side
  }

  /** The priority of a task changes: where it waits, its item's value does, and its place in line does not. */
  function Revalue(side: Side, t: Task, itemValue: nat): (r: Side)
    ensures |r.waiters| == |side.waiters|
    ensures forall i :: 0 <= i < |side.waiters| ==> r.waiters[i].task == side.waiters[i].task
  {
    side.(waiters := seq(|side.waiters|, i requires 0 <= i < |side.waiters| =>
                           if side.waiters[i].task == t then Waiter(t, itemValue) else side.waiters[i]))
  }

  /** One half of `prvUnlockQueue`: a waiter is woken for every event counted, as far as there are any. */
  function Unlock(side: Side): Side {
    var k := if side.lock < 0 then 0 else if side.lock < |side.waiters| then side.lock else |side.waiters|;
    Side(side.waiters[k..], side.woken + Tasks(side.waiters[..k]), -1)
  }

  ghost predicate DistinctTasks(waiters: seq<Waiter>) {
    forall i, j :: 0 <= i < j < |waiters| ==> waiters[i].task != waiters[j].task
  }

  ghost predicate ValidSide(side: Side, tasks: set<Task>) {
    && DistinctTasks(side.waiters)
    && Tasks(side.waiters) <= tasks
    && Tasks(side.waiters) !! side.woken
    && -1 <= side.lock <= |tasks|
  }

  /** Nothing is lost on a side whose supply is the messages (for receivers) or free slots (for senders): if
      a task waits, there is no more supply than there are tasks already woken for it and events counted for
      the unlock; a count at its cap covers every waiter there can be. */
  ghost predicate Covered(side: Side, supply: int, tasks: set<Task>) {
    side.waiters == [] ||
    supply <= |side.woken| + (if side.lock < 0 then 0 else side.lock) ||
    side.lock == |tasks|
  }

  /** The events counted since the locker saw no supply cover the supply there is now. */
  ghost predicate Counted(side: Side, supply: int, tasks: set<Task>) {
    side.lock >= 0 && (supply <= side.lock || side.lock == |tasks|)
  }

  lemma CardinalityLe(a: set<Task>, b: set<Task>)
    requires a <= b
    ensures |a| <= |b|
  {
    assert |b| == |a| + |b - a|;
  }

  lemma TasksSize(waiters: seq<Waiter>)
    requires DistinctTasks(waiters)
    ensures |Tasks(waiters)| == |waiters|
  {
    if waiters != [] {
      var last := |waiters| - 1;
      TasksSize(waiters[..last]);
      assert waiters == waiters[..last] + [waiters[last]];
      assert Tasks(waiters) == Tasks(waiters[..last]) + {waiters[last].task};
    }
  }

  lemma TasksUnion(a: seq<Waiter>, b: seq<Waiter>)
    ensures Tasks(a + b) == Tasks(a) + Tasks(b)
  {
  }

  lemma DistinctSplit(waiters: seq<Waiter>, k: nat)
    requires DistinctTasks(waiters) && k <= |waiters|
    ensures DistinctTasks(waiters[..k]) && DistinctTasks(waiters[k..])
    ensures Tasks(waiters[..k]) !! Tasks(waiters[k..])
  {
    forall v, w | v in waiters[..k] && w in waiters[k..]
      ensures v.task != w.task
    {
      var i :| 0 <= i < k && waiters[i] == v;
      var j :| 0 <= j < |waiters| - k && waiters[k..][j] == w;
      assert waiters[k + j] == w;
    }
  }

  lemma TasksSplit(waiters: seq<Waiter>, k: nat)
    requires DistinctTasks(waiters) && k <= |waiters|
    ensures Tasks(waiters) == Tasks(waiters[..k]) + Tasks(waiters[k..])
    ensures Tasks(waiters[..k]) !! Tasks(waiters[k..])
    ensures DistinctTasks(waiters[..k]) && DistinctTasks(waiters[k..])
    ensures |Tasks(waiters[..k])| == k
  {
    hide DistinctTasks, Tasks;
    assert waiters == waiters[..k] + waiters[k..];
    TasksUnion(waiters[..k], waiters[k..]);
    DistinctSplit(waiters, k);
    TasksSize(waiters[..k]);
  }

  /** Waking k waiters adds k woken tasks. */
  lemma WakeFirst(side: Side, tasks: set<Task>, k: nat, lock: int)
    requires ValidSide(side, tasks) && k <= |side.waiters| && -1 <= lock <= |tasks|
    ensures var r := Side(side.waiters[k..], side.woken + Tasks(side.waiters[..k]), lock);
            ValidSide(r, tasks) && |r.woken| == |side.woken| + k
  {
    hide Values;
    TasksSplit(side.waiters, k);
  }

  /** An event that adds one to the supply keeps the side covered, whether it comes from a task ... */
  lemma WakeOneCovers(side: Side, supply: int, more: int, tasks: set<Task>)
    requires ValidSide(side, tasks) && Covered(side, supply, tasks) && side.lock == -1
    requires more <= supply + 1
    ensures ValidSide(WakeOne(side), tasks) && Covered(WakeOne(side), more, tasks)
  {
    if side.waiters != [] {
      WakeFirst(side, tasks, 1, -1);
      assert Tasks(side.waiters[..1]) == {side.waiters[0].task};
    }
  }

  /** ... or from an interrupt. */
  lemma NotifyCovers(side: Side, supply: int, more: int, tasks: set<Task>)
    requires ValidSide(side, tasks) && Covered(side, supply, tasks)
    requires more <= supply + 1
    ensures var r := NotifyFromISR(side, |tasks|);
            && ValidSide(r, tasks) && Covered(r, more, tasks)
            && (Counted(side, supply, tasks) ==> Counted(r, more, tasks))
  {
    if side.lock == -1 {
      WakeOneCovers(side, supply, more, tasks);
    }
  }

  /** A task that runs again may take one off the supply, or find none. */
  lemma RetryCovers(side: Side, t: Task, supply: int, less: int, tasks: set<Task>)
    requires ValidSide(side, tasks) && Covered(side, supply, tasks) && side.lock == -1
    requires 0 <= less && (less == 0 || less < supply)
    ensures ValidSide(Retry(side, t), tasks) && Covered(Retry(side, t), less, tasks)
  {
    if t in side.woken {
      assert side.woken == Retry(side, t).woken + {t};
    } else {
      assert side.woken == Retry(side, t).woken;
    }
  }

  /** A reader that leaves the supply as it is hands its wake-up on. */
  lemma PeekCovers(side: Side, t: Task, supply: int, tasks: set<Task>)
    requires ValidSide(side, tasks) && Covered(side, supply, tasks) && side.lock == -1
    ensures var r := WakeOne(Retry(side, t));
            ValidSide(r, tasks) && Covered(r, supply, tasks)
  {
    var s := Retry(side, t);
    if t in side.woken {
      assert side.woken == s.woken + {t};
    } else {
      assert side.woken == s.woken;
    }
    WakeOneCovers(s, supply - 1, supply, tasks);
  }

  lemma RemoveWaiter(waiters: seq<Waiter>, k: nat)
    requires DistinctTasks(waiters) && k < |waiters|
    ensures var r := RemoveAt(waiters, k);
            DistinctTasks(r) && Tasks(r) == Tasks(waiters) - {waiters[k].task}
  {
    var r := RemoveAt(waiters, k);
    forall i | 0 <= i < |r|
      ensures r[i] == waiters[if i < k then i else i + 1] && r[i].task != waiters[k].task
    {
    }
    forall t | t in Tasks(waiters) && t != waiters[k].task
      ensures t in Tasks(r)
    {
      var i :| 0 <= i < |waiters| && waiters[i].task == t;
      assert r[if i < k then i else i - 1] == waiters[i];
    }
  }

  lemma InsertWaiter(waiters: seq<Waiter>, k: nat, w: Waiter)
    requires DistinctTasks(waiters) && k <= |waiters| && w.task !in Tasks(waiters)
    ensures var r := InsertAt(waiters, k, w);
            DistinctTasks(r) && Tasks(r) == Tasks(waiters) + {w.task}
  {
    var r := InsertAt(waiters, k, w);
    assert DistinctTasks(r) by {
      forall i | 0 <= i < |waiters|
        ensures waiters[i].task != w.task
      {
        assert waiters[i] in waiters;
      }
      forall i, j | 0 <= i < j < |r|
        ensures r[i].task != r[j].task
      {
        assert i != k ==> r[i] == waiters[if i < k then i else i - 1];
        assert j != k ==> r[j] == waiters[if j < k then j else j - 1];
      }
    }
    TasksUnion(waiters[..k], [w]);
    TasksUnion(waiters[..k] + [w], waiters[k..]);
    TasksUnion(waiters[..k], waiters[k..]);
    assert waiters == waiters[..k] + waiters[k..];
    assert Tasks([w]) == {w.task};
  }

  lemma LeaveCovers(side: Side, w: Waiter, supply: int, tasks: set<Task>)
    requires ValidSide(side, tasks) && Covered(side, supply, tasks)
    ensures ValidSide(Leave(side, w), tasks) && Covered(Leave(side, w), supply, tasks)
    ensures Tasks(Leave(side, w).waiters) == if w in side.waiters then Tasks(side.waiters) - {w.task}
            else Tasks(side.waiters)
  {
    if w in side.waiters {
      RemoveWaiter(side.waiters, IndexOf(side.waiters, w));
    }
  }

  lemma RevalueCovers(side: Side, t: Task, itemValue: nat, supply: int, tasks: set<Task>)
    requires ValidSide(side, tasks)
    ensures var r := Revalue(side, t, itemValue);
            && ValidSide(r, tasks) && Tasks(r.waiters) == Tasks(side.waiters)
            && r.woken == side.woken && r.lock == side.lock
            && (Covered(side, supply, tasks) ==> Covered(r, supply, tasks))
            && (Counted(side, supply, tasks) ==> Counted(r, supply, tasks))
  {
    var r := Revalue(side, t, itemValue);
    forall u | u in Tasks(side.waiters)
      ensures u in Tasks(r.waiters)
    {
      var i :| 0 <= i < |side.waiters| && side.waiters[i].task == u;
      assert r.waiters[i] in r.waiters;
    }
    forall u | u in Tasks(r.waiters)
      ensures u in Tasks(side.waiters)
    {
      var i :| 0 <= i < |r.waiters| && r.waiters[i].task == u;
      assert side.waiters[i] in side.waiters;
    }
  }

  /** A task that saw no supply and counts every event since may join the waiters. */
  lemma EnlistCovers(side: Side, w: Waiter, supply: int, tasks: set<Task>)
    requires ValidSide(side, tasks) && Counted(side, supply, tasks)
    requires w.task in tasks && w.task !in Tasks(side.waiters) && w.task !in side.woken
    ensures ValidSide(Enlist(side, w), tasks) && Covered(Enlist(side, w), supply, tasks)
    ensures Tasks(Enlist(side, w).waiters) == Tasks(side.waiters) + {w.task}
    ensures Enlist(side, w).lock == side.lock
  {
    InsertWaiter(side.waiters, InsertPosition(Values(side.waiters), w.itemValue), w);
  }

  /** Unlocking wakes enough: a capped count wakes every waiter, any other count pays for what was added. */
  lemma UnlockCovers(side: Side, supply: int, tasks: set<Task>)
    requires ValidSide(side, tasks) && Covered(side, supply, tasks)
    ensures ValidSide(Unlock(side), tasks) && Covered(Unlock(side), supply, tasks)
    ensures Tasks(Unlock(side).waiters) <= Tasks(side.waiters)
    ensures Unlock(side).woken <= side.woken + Tasks(side.waiters)
    ensures Unlock(side).lock == -1
  {
    var k := if side.lock < 0 then 0 else if side.lock < |side.waiters| then side.lock else |side.waiters|;
    WakeFirst(side, tasks, k, -1);
    TasksSize(side.waiters);
    CardinalityLe(Tasks(side.waiters), tasks);
    TasksSplit(side.waiters, k);
  }

  // ---------- the steps ----------

  /** The atomic steps: critical sections of tasks, interrupts, and what happens with the scheduler suspended. */
  datatype Step<T> =
    | Send(t: Task, x: T, position: Position)   // the first critical section of xQueueGenericSend
    | Receive(t: Task)                          // ... of xQueueReceive and xQueueSemaphoreTake
    | Peek(t: Task)                             // ... of xQueuePeek
    | SendFromISR(x: T, position: Position)
    | ReceiveFromISR
    | LockQueue(t: Task)                        // vTaskSuspendAll and prvLockQueue
    | SeeEmpty                                  // prvIsQueueEmpty returns true to the locker
    | SeeFull                                   // prvIsQueueFull returns true to the locker
    | BlockToReceive(itemValue: nat)            // vTaskPlaceOnEventList of the locker
    | BlockToSend(itemValue: nat)
    | UnlockReceivers                           // the two critical sections of prvUnlockQueue
    | UnlockSenders
    | GiveUp(w: Waiter)                         // a waiter times out, is suspended, or has its delay aborted
    | CreateTask(t: Task)
    | DeleteTask(t: Task)
    | Reprioritise(t: Task, itemValue: nat)     // a priority is set or inherited

  ghost predicate AtRest<T>(q: Queue<T>, t: Task) {
    t in q.tasks && t !in Tasks(q.receivers.waiters) && t !in Tasks(q.senders.waiters)
  }

  /** When a step can happen; an interrupt's lock count must not be at the largest `int8_t`. */
  ghost predicate Enabled<T>(q: Queue<T>, step: Step<T>) {
    match step
    case Send(t, x, position) =>
      q.phase == Idle && AtRest(q, t) && t !in q.receivers.woken && (position == Overwrite ==> q.length == 1)
    case Receive(t) => q.phase == Idle && AtRest(q, t) && t !in q.senders.woken
    case Peek(t) => q.phase == Idle && AtRest(q, t) && t !in q.senders.woken
    case SendFromISR(x, position) =>
      (position == Overwrite ==> q.length == 1) && (q.receivers.lock == 127 ==> |q.tasks| <= 127)
    case ReceiveFromISR => q.senders.lock == 127 ==> |q.tasks| <= 127
    case LockQueue(t) => q.phase == Idle && AtRest(q, t) && t !in q.receivers.woken && t !in q.senders.woken
    case SeeEmpty => q.phase.LockedBy? && q.contents == []
    case SeeFull => q.phase.LockedBy? && |q.contents| == q.length
    case BlockToReceive(itemValue) => q.phase.SawEmpty?
    case BlockToSend(itemValue) => q.phase.SawFull?
    case UnlockReceivers => q.phase.LockedBy? || q.phase.Enlisted?
    case UnlockSenders => q.phase.ReceiversUnlocked?
    case GiveUp(w) => q.phase == Idle
    case CreateTask(t) => q.phase == Idle && t !in q.tasks
    case DeleteTask(t) => q.phase == Idle && AtRest(q, t) && t !in q.receivers.woken && t !in q.senders.woken
    case Reprioritise(t, itemValue) => true
  }

  function Next<T>(q: Queue<T>, step: Step<T>): Queue<T> {
    match step
    case Send(t, x, position) =>
      if HasRoom(q, position)
      then q.(contents := Put(q.contents, x, position), receivers := WakeOne(q.receivers),
              senders := Retry(q.senders, t))
      else q.(senders := Retry(q.senders, t))
    case Receive(t) =>
      if q.contents != []
      then q.(contents := q.contents[1..], receivers := Retry(q.receivers, t), senders := WakeOne(q.senders))
      else q.(receivers := Retry(q.receivers, t))
    case Peek(t) =>
      if q.contents != []
      then q.(receivers := WakeOne(Retry(q.receivers, t)))
      else q.(receivers := Retry(q.receivers, t))
    case SendFromISR(x, position) =>
      if HasRoom(q, position)
      then q.(contents := Put(q.contents, x, position), receivers := NotifyFromISR(q.receivers, |q.tasks|))
      else q
    case ReceiveFromISR =>
      if q.contents != []
      then q.(contents := q.contents[1..], senders := NotifyFromISR(q.senders, |q.tasks|))
      else q
    case LockQueue(t) =>
      q.(receivers := LockSide(q.receivers), senders := LockSide(q.senders), phase := LockedBy(t))
    case SeeEmpty => if q.phase.LockedBy? then q.(phase := SawEmpty(q.phase.task)) else q
    case SeeFull => if q.phase.LockedBy? then q.(phase := SawFull(q.phase.task)) else q
    case BlockToReceive(itemValue) =>
      if q.phase.SawEmpty?
      then q.(receivers := Enlist(q.receivers, Waiter(q.phase.task, itemValue)), phase := Enlisted)
      else q
    case BlockToSend(itemValue) =>
      if q.phase.SawFull?
      then q.(senders := Enlist(q.senders, Waiter(q.phase.task, itemValue)), phase := Enlisted)
      else q
    case UnlockReceivers => q.(receivers := Unlock(q.receivers), phase := ReceiversUnlocked)
    case UnlockSenders => q.(senders := Unlock(q.senders), phase := Idle)
    case GiveUp(w) => q.(receivers := Leave(q.receivers, w), senders := Leave(q.senders, w))
    case CreateTask(t) => q.(tasks := q.tasks + {t})
    case DeleteTask(t) => q.(tasks := q.tasks - {t})
    case Reprioritise(t, itemValue) =>
      q.(receivers := Revalue(q.receivers, t, itemValue), senders := Revalue(q.senders, t, itemValue))
  }

  function LockSide(side: Side): Side {
    if side.lock == -1 then side.(lock := 0) else side
  }

  /** What every reachable state satisfies. */
  ghost predicate Inv<T>(q: Queue<T>) {
    && 0 < q.length && |q.contents| <= q.length
    && ValidSide(q.receivers, q.tasks) && Covered(q.receivers, |q.contents|, q.tasks)
    && ValidSide(q.senders, q.tasks) && Covered(q.senders, Free(q), q.tasks)
    && (q.phase.Idle? <==> q.receivers.lock == -1 && q.senders.lock == -1)
    && (q.phase.ReceiversUnlocked? <==> q.receivers.lock == -1 && q.senders.lock >= 0)
    && (q.receivers.lock >= 0 ==> q.senders.lock >= 0)
    && (q.phase.LockedBy? || q.phase.SawEmpty? || q.phase.SawFull? ==>
          AtRest(q, q.phase.task) && q.phase.task !in q.receivers.woken && q.phase.task !in q.senders.woken)
    && (q.phase.SawEmpty? ==> Counted(q.receivers, |q.contents|, q.tasks))
    && (q.phase.SawFull? ==> Counted(q.senders, Free(q), q.tasks))
  }

  /** A new or reset queue: nobody waits for it. */
  ghost predicate Init<T>(q: Queue<T>) {
    && 0 < q.length && |q.contents| <= q.length && q.phase == Idle
    && q.receivers == Side([], {}, -1) && q.senders == Side([], {}, -1)
  }

  lemma InitInv<T>(q: Queue<T>)
    requires Init(q)
    ensures Inv(q)
  {
  }

  lemma InvTaskStep<T>(q: Queue<T>, step: Step<T>)
    requires Inv(q) && Enabled(q, step)
    requires step.Send? || step.Receive? || step.Peek?
    ensures Inv(Next(q, step))
  {
    hide ValidSide, Covered;
    var r := Next(q, step);
    var n, f := |q.contents|, Free(q);
    match step {
      case Send(t, x, position) =>
        if HasRoom(q, position) {
          WakeOneCovers(q.receivers, n, |r.contents|, q.tasks);
        }
        RetryCovers(q.senders, t, f, Free(r), q.tasks);
      case Receive(t) =>
        RetryCovers(q.receivers, t, n, |r.contents|, q.tasks);
        if q.contents != [] {
          WakeOneCovers(q.senders, f, Free(r), q.tasks);
        }
      case Peek(t) =>
        if q.contents != [] {
          PeekCovers(q.receivers, t, n, q.tasks);
        } else {
          RetryCovers(q.receivers, t, 0, 0, q.tasks);
        }
    }
  }

  lemma InvInterruptStep<T>(q: Queue<T>, step: Step<T>)
    requires Inv(q) && Enabled(q, step)
    requires step.SendFromISR? || step.ReceiveFromISR?
    ensures Inv(Next(q, step))
  {
    hide DistinctTasks;
    var r := Next(q, step);
    if step.SendFromISR? && HasRoom(q, step.position) {
      NotifyCovers(q.receivers, |q.contents|, |r.contents|, q.tasks);
    } else if step.ReceiveFromISR? && q.contents != [] {
      NotifyCovers(q.senders, Free(q), Free(r), q.tasks);
    }
  }

  lemma LocksOf<T>(q: Queue<T>)
    requires Inv(q)
    ensures q.receivers.lock >= -1 && q.senders.lock >= -1
  {
  }

  lemma InvBlockStep<T>(q: Queue<T>, step: Step<T>)
    requires Inv(q) && Enabled(q, step)
    requires step.BlockToReceive? || step.BlockToSend? || step.UnlockReceivers? || step.UnlockSenders?
    ensures Inv(Next(q, step))
  {
    hide ValidSide, Covered, Counted, Enlist, Unlock, Tasks;
    var r := Next(q, step);
    LocksOf(q);
    match step {
      case BlockToReceive(itemValue) =>
        EnlistCovers(q.receivers, Waiter(q.phase.task, itemValue), |q.contents|, q.tasks);
      case BlockToSend(itemValue) =>
        EnlistCovers(q.senders, Waiter(q.phase.task, itemValue), Free(q), q.tasks);
      case UnlockReceivers =>
        UnlockCovers(q.receivers, |q.contents|, q.tasks);
      case UnlockSenders =>
        UnlockCovers(q.senders, Free(q), q.tasks);
    }
  }

  lemma InvStep<T>(q: Queue<T>, step: Step<T>)
    requires Inv(q) && Enabled(q, step)
    ensures Inv(Next(q, step))
  {
    var r := Next(q, step);
    match step {
      case Send(_, _, _) => InvTaskStep(q, step);
      case Receive(_) => InvTaskStep(q, step);
      case Peek(_) => InvTaskStep(q, step);
      case SendFromISR(_, _) => InvInterruptStep(q, step);
      case ReceiveFromISR => InvInterruptStep(q, step);
      case BlockToReceive(_) => InvBlockStep(q, step);
      case BlockToSend(_) => InvBlockStep(q, step);
      case UnlockReceivers => InvBlockStep(q, step);
      case UnlockSenders => InvBlockStep(q, step);
      case LockQueue(t) =>
      case SeeEmpty =>
      case SeeFull =>
      case GiveUp(w) =>
        hide DistinctTasks, Leave;
        LeaveCovers(q.receivers, w, |q.contents|, q.tasks);
        LeaveCovers(q.senders, w, Free(q), q.tasks);
        LeaveKeepsLock(q.receivers, w);
        LeaveKeepsLock(q.senders, w);
      case CreateTask(t) =>
        CardinalityLe(q.tasks, r.tasks);
      case DeleteTask(t) =>
      case Reprioritise(t, itemValue) =>
        hide ValidSide, Covered, Counted, Revalue;
        RevalueCovers(q.receivers, t, itemValue, |q.contents|, q.tasks);
        RevalueCovers(q.senders, t, itemValue, Free(q), q.tasks);
    }
  }

  lemma LeaveKeepsLock(side: Side, w: Waiter)
    ensures Leave(side, w).lock == side.lock
  {
  }

  ghost predicate CanRun<T>(q: Queue<T>, steps: seq<Step<T>>)
    decreases |steps|
  {
    steps == [] || (Enabled(q, steps[0]) && CanRun(Next(q, steps[0]), steps[1..]))
  }

  function After<T>(q: Queue<T>, steps: seq<Step<T>>): Queue<T>
    decreases |steps|
  {
    if steps == [] then q else After(Next(q, steps[0]), steps[1..])
  }

  lemma {:induction false} InvAlways<T>(q: Queue<T>, steps: seq<Step<T>>)
    requires Inv(q) && CanRun(q, steps)
    ensures Inv(After(q, steps))
    decreases |steps|
  {
    if steps != [] {
      InvStep(q, steps[0]);
      InvAlways(Next(q, steps[0]), steps[1..]);
    }
  }

  /** No wake-up is lost, over any run of task, interrupt and timer steps: whenever the queue is unlocked and
      a receiver waits, there are no more messages than receivers already woken for them, and whenever a
      sender waits, no more free slots than senders already woken.  So once every woken task has retried, a
      receiver waits only on an empty queue and a sender only on a full one. */
  lemma NoLostWakeUp<T>(q: Queue<T>, steps: seq<Step<T>>)
    requires Init(q) && CanRun(q, steps)
    ensures var r := After(q, steps);
            r.phase == Idle ==>
              && (r.receivers.waiters != [] ==> |r.contents| <= |r.receivers.woken|)
              && (r.senders.waiters != [] ==> Free(r) <= |r.senders.woken|)
              && (r.receivers.waiters != [] && r.receivers.woken == {} ==> r.contents == [])
              && (r.senders.waiters != [] && r.senders.woken == {} ==> |r.contents| == r.length)
  {
    InitInv(q);
    InvAlways(q, steps);
  }

  /** The lock counts fit an `int8_t` as long as there are at most 127 tasks: the kernel's assertion that a
      count about to be incremented is not at the largest value holds in every reachable state. */
  lemma LockCountsFit<T>(q: Queue<T>, steps: seq<Step<T>>)
    requires Init(q) && CanRun(q, steps)
    ensures var r := After(q, steps);
            |r.tasks| <= 127 ==> -1 <= r.receivers.lock <= 127 && -1 <= r.senders.lock <= 127 &&
                                 (r.receivers.lock < |r.tasks| ==> r.receivers.lock != 127) &&
                                 (r.senders.lock < |r.tasks| ==> r.senders.lock != 127)
  {
    InitInv(q);
    InvAlways(q, steps);
  }

  /** `vTaskDelete` of a task that was woken and has not retried: it is gone, and its wake-up with it. */
  function DeleteWoken<T>(q: Queue<T>, t: Task): Queue<T> {
    q.(tasks := q.tasks - {t},
       receivers := q.receivers.(woken := q.receivers.woken - {t}),
       senders := q.senders.(woken := q.senders.woken - {t}))
  }

  /** On an unlocked queue: every waiting receiver is paid for by a woken one, for each message there is. */
  ghost predicate ReceiversCovered<T>(q: Queue<T>) {
    q.receivers.waiters != [] ==> |q.contents| <= |q.receivers.woken|
  }

  ghost predicate SendersCovered<T>(q: Queue<T>) {
    q.senders.waiters != [] ==> Free(q) <= |q.senders.woken|
  }

  /** What deleting a woken task costs: a receiver's wake-up is lost exactly when another receiver waits and there are
      no fewer messages than tasks were woken, and dually for a sender and the free slots. Where neither is lost, all
      that every reachable state satisfies holds after the deletion too, so no later step can lose one either. */
  lemma DeletionExact<T>(q: Queue<T>, t: Task)
    requires Inv(q) && q.phase == Idle
    ensures t in q.receivers.woken ==>
              (ReceiversCovered(DeleteWoken(q, t)) <==> q.receivers.waiters == [] || |q.contents| < |q.receivers.woken|)
    ensures t in q.senders.woken ==>
              (SendersCovered(DeleteWoken(q, t)) <==> q.senders.waiters == [] || Free(q) < |q.senders.woken|)
    ensures t !in q.receivers.woken ==> ReceiversCovered(DeleteWoken(q, t))
    ensures t !in q.senders.woken ==> SendersCovered(DeleteWoken(q, t))
    ensures AtRest(q, t) ==>
              (Inv(DeleteWoken(q, t)) <==> ReceiversCovered(DeleteWoken(q, t)) && SendersCovered(DeleteWoken(q, t)))
  {
    var r := DeleteWoken(q, t);
    assert t in q.receivers.woken ==> |r.receivers.woken| == |q.receivers.woken| - 1;
    assert t in q.senders.woken ==> |r.senders.woken| == |q.senders.woken| - 1;
    assert t !in q.receivers.woken ==> r.receivers.woken == q.receivers.woken;
    assert t !in q.senders.woken ==> r.senders.woken == q.senders.woken;
  }

  /** The steps of a task that finds the queue empty and blocks. */
  function BlockingReceive<T>(t: Task, itemValue: nat): seq<Step<T>> {
    [LockQueue(t), SeeEmpty, BlockToReceive(itemValue), UnlockReceivers, UnlockSenders]
  }

  lemma RunsFirst<T>(q: Queue<T>, step: Step<T>, rest: seq<Step<T>>)
    requires Enabled(q, step) && CanRun(Next(q, step), rest)
    ensures CanRun(q, [step] + rest) && After(q, [step] + rest) == After(Next(q, step), rest)
  {
    hide Next, Enabled;
    assert ([step] + rest)[1..] == rest;
  }

  lemma BlockingReceiveRuns<T>(q: Queue<T>, t: Task, itemValue: nat)
    requires q.phase == Idle && q.contents == []
    requires AtRest(q, t) && t !in q.receivers.woken && t !in q.senders.woken
    ensures CanRun(q, BlockingReceive(t, itemValue))
    ensures After(q, BlockingReceive(t, itemValue))
         == q.(receivers := Unlock(Enlist(LockSide(q.receivers), Waiter(t, itemValue))),
               senders := Unlock(LockSide(q.senders)))
  {
    hide Unlock, Enlist, CanRun, After, Tasks;
    var q1 := Next<T>(q, LockQueue(t));
    var q2 := Next<T>(q1, SeeEmpty);
    var q3 := Next<T>(q2, BlockToReceive(itemValue));
    var q4 := Next<T>(q3, UnlockReceivers);
    NothingRuns(Next<T>(q4, UnlockSenders));
    RunsFirst<T>(q4, UnlockSenders, []);
    RunsFirst<T>(q3, UnlockReceivers, [UnlockSenders] + []);
    RunsFirst<T>(q2, BlockToReceive(itemValue), [UnlockReceivers] + ([UnlockSenders] + []));
    RunsFirst<T>(q1, SeeEmpty, [BlockToReceive(itemValue)] + ([UnlockReceivers] + ([UnlockSenders] + [])));
    RunsFirst<T>(q, LockQueue(t),
                 [SeeEmpty] + ([BlockToReceive(itemValue)] + ([UnlockReceivers] + ([UnlockSenders] + []))));
    assert [LockQueue(t)] + ([SeeEmpty] + ([BlockToReceive(itemValue)] + ([UnlockReceivers] + ([UnlockSenders] + []))))
        == BlockingReceive<T>(t, itemValue);
  }

  lemma NothingRuns<T>(q: Queue<T>)
    ensures CanRun(q, []) && After(q, []) == q
  {
  }

  lemma {:induction false} RunsTogether<T>(q: Queue<T>, a: seq<Step<T>>, b: seq<Step<T>>)
    requires CanRun(q, a) && CanRun(After(q, a), b)
    ensures CanRun(q, a + b) && After(q, a + b) == After(After(q, a), b)
    decreases |a|
  {
    hide Next, Enabled;
    if a == [] {
      assert a + b == b;
    } else {
      RunsTogether(Next(q, a[0]), a[1..], b);
      assert (a + b)[1..] == a[1..] + b;
    }
  }

  /** A side locked and unlocked again around a task of the least urgent item value: that task is last in line. */
  lemma EnlistsLast(side: Side, w: Waiter)
    requires side.lock == -1
    requires forall i :: 0 <= i < |side.waiters| ==> side.waiters[i].itemValue <= w.itemValue
    ensures Unlock(Enlist(LockSide(side), w)) == side.(waiters := side.waiters + [w])
  {
    hide InsertPosition;
    InsertPositionUnique(Values(side.waiters), w.itemValue, |side.waiters|);
    var r := side.waiters + [w];
    assert InsertAt(side.waiters, |side.waiters|, w) == r;
    assert r[0..] == r && Tasks(r[..0]) == {};
  }

  lemma LockAndUnlock(side: Side)
    requires side.lock == -1
    ensures Unlock(LockSide(side)) == side
  {
    assert Tasks(side.waiters[..0]) == {};
  }

  /** Deletion of a woken task is rightly excluded. Two tasks wait for an empty queue, an interrupt posts one message
      and wakes the first, and that one is deleted before it runs: the second waits, the message is there, and
      nobody has been woken for it. */
  lemma DeletingAWokenTaskLosesItsWakeUp() returns (q: Queue<int>, steps: seq<Step<int>>)
    ensures Init(q) && CanRun(q, steps)
    ensures var r := DeleteWoken(After(q, steps), 1);
            && After(q, steps).phase == Idle && 1 in After(q, steps).receivers.woken
            && r.receivers.waiters != [] && r.contents != [] && r.receivers.woken == {}
  {
    hide CanRun, After, InsertPosition, Unlock, Enlist;
    var nobody := Side([], {}, -1);
    q := Queue([], 1, nobody, nobody, {1, 2}, Idle);
    LockAndUnlock(nobody);
    EnlistsLast(nobody, Waiter(1, 0));
    BlockingReceiveRuns(q, 1, 0);
    var q1 := q.(receivers := Side([Waiter(1, 0)], {}, -1));
    EnlistsLast(q1.receivers, Waiter(2, 0));
    assert [Waiter(1, 0)] + [Waiter(2, 0)] == [Waiter(1, 0), Waiter(2, 0)] && [] + [Waiter(1, 0)] == [Waiter(1, 0)];
    BlockingReceiveRuns(q1, 2, 0);
    var q2 := q.(receivers := Side([Waiter(1, 0), Waiter(2, 0)], {}, -1));
    var post: Step<int> := SendFromISR(7, SendToBack);
    NothingRuns(Next(q2, post));
    RunsFirst(q2, post, []);
    RunsTogether(q1, BlockingReceive(2, 0), [post] + []);
    RunsTogether(q, BlockingReceive(1, 0), BlockingReceive(2, 0) + ([post] + []));
    steps := BlockingReceive(1, 0) + (BlockingReceive(2, 0) + ([post] + []));
    assert Next(q2, post).receivers == Side([Waiter(2, 0)], {1}, -1);
    assert {1} - {1} == {};
  }

  /** The items that the sends of a run put on the queue, in order. */
  function Accepted<T>(q: Queue<T>, steps: seq<Step<T>>): seq<T>
    decreases |steps|
  {
    if steps == [] then []
    else
      var item := match steps[0]
                  case Send(t, x, position) => if HasRoom(q, position) then [x] else []
                  case SendFromISR(x, position) => if HasRoom(q, position) then [x] else []
                  case _ => [];
      item + Accepted(Next(q, steps[0]), steps[1..])
  }

  /** The items that the receives of a run take off the queue, in order. */
  function Delivered<T>(q: Queue<T>, steps: seq<Step<T>>): seq<T>
    decreases |steps|
  {
    if steps == [] then []
    else
      var item := if (steps[0].Receive? || steps[0].ReceiveFromISR?) && q.contents != [] then [q.contents[0]] else [];
      item + Delivered(Next(q, steps[0]), steps[1..])
  }

  /** With sends to the back only, tasks and interrupts together receive the items in the order in which they
      were accepted: nothing is lost, repeated or reordered over any run. */
  lemma {:induction false} FirstInFirstOut<T>(q: Queue<T>, steps: seq<Step<T>>)
    requires Inv(q) && CanRun(q, steps)
    requires forall i :: 0 <= i < |steps| && (steps[i].Send? || steps[i].SendFromISR?) ==>
                           steps[i].position == SendToBack
    ensures q.contents + Accepted(q, steps) == Delivered(q, steps) + After(q, steps).contents
    decreases |steps|
  {
    hide Next, Inv, Accepted, Delivered, Enabled;
    if steps != [] {
      var r := Next(q, steps[0]);
      InvStep(q, steps[0]);
      FirstInFirstOut(r, steps[1..]);
      assert After(q, steps) == After(r, steps[1..]);
      ContentsStep(q, steps[0]);
      FirstStep(q, steps);
      ConservedTogether(q.contents, Accepted(q, [steps[0]]), Delivered(q, [steps[0]]), r.contents,
                        Accepted(r, steps[1..]), Delivered(r, steps[1..]), After(r, steps[1..]).contents);
    } else {
      NothingInOrOut(q, steps);
    }
  }

  lemma NothingInOrOut<T>(q: Queue<T>, steps: seq<Step<T>>)
    requires steps == []
    ensures Accepted(q, steps) == [] && Delivered(q, steps) == []
  {
  }

  lemma ConservedTogether<T>(before: seq<T>, in1: seq<T>, out1: seq<T>, middle: seq<T>, in2: seq<T>, out2: seq<T>,
                             after: seq<T>)
    requires before + in1 == out1 + middle && middle + in2 == out2 + after
    ensures before + (in1 + in2) == (out1 + out2) + after
  {
    assert before + (in1 + in2) == (before + in1) + in2;
    assert (out1 + out2) + after == out1 + (out2 + after);
    assert (out1 + middle) + in2 == out1 + (middle + in2);
  }

  /** What a run takes in and gives out is what its first step does, and then what the rest does. */
  lemma FirstStep<T>(q: Queue<T>, steps: seq<Step<T>>)
    requires steps != []
    ensures var r := Next(q, steps[0]);
            && Accepted(q, steps) == Accepted(q, [steps[0]]) + Accepted(r, steps[1..])
            && Delivered(q, steps) == Delivered(q, [steps[0]]) + Delivered(r, steps[1..])
  {
    hide Next, HasRoom;
    var r, one := Next(q, steps[0]), [steps[0]];
    assert one[1..] == [];
    assert Accepted(r, []) == [] && Delivered(r, []) == [];
  }

  /** One step conserves the items. */
  lemma ContentsStep<T>(q: Queue<T>, step: Step<T>)
    requires (step.Send? || step.SendFromISR?) ==> step.position == SendToBack
    ensures q.contents + Accepted(q, [step]) == Delivered(q, [step]) + Next(q, step).contents
  {
    var r := Next(q, step);
    assert [step][1..] == [];
    assert Accepted(r, []) == [] && Delivered(r, []) == [];
  }
}
