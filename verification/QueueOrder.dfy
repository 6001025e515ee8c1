/** Who is woken first: what each step of a queue does to its items and to the line of waiters on either side,
    and that over a run the waiter woken is the most urgent one. */
module QueueOrder {
  import opened ListModel
  import opened KernelConfig
  import opened QueueModel

  function Min(a: int, b: int): int {
    if a < b then a else b
  }

  /** The first n waiters are woken, in line, and a task that was woken earlier retries. */
  ghost predicate Wakes(side: Side, n: int, retried: set<Task>, r: Side) {
    && 0 <= n <= |side.waiters|
    && r.waiters == side.waiters[n..]
    && r.woken == (side.woken - retried) + Tasks(side.waiters[..n])
  }

  /** An interrupt's event either wakes the first waiter or, while the queue is locked, is counted. */
  ghost predicate Notified(side: Side, numberOfTasks: nat, r: Side) {
    if side.lock == -1
    then Wakes(side, Min(1, |side.waiters|), {}, r) && r.lock == -1
    else r.waiters == side.waiters && r.woken == side.woken && r.lock == Min(side.lock + 1, numberOfTasks)
  }

  lemma WakeOneExact(side: Side)
    ensures Wakes(side, Min(1, |side.waiters|), {}, WakeOne(side)) && WakeOne(side).lock == side.lock
  {
    if side.waiters == [] {
      assert side.waiters[0..] == side.waiters && Tasks(side.waiters[..0]) == {};
    } else {
      assert Tasks(side.waiters[..1]) == {side.waiters[0].task};
    }
  }

  lemma RetryExact(side: Side, t: Task)
    ensures Wakes(side, 0, {t}, Retry(side, t)) && Retry(side, t).lock == side.lock
  {
    assert side.waiters[0..] == side.waiters && Tasks(side.waiters[..0]) == {};
  }

  lemma NotifiedExact(side: Side, numberOfTasks: nat)
    requires -1 <= side.lock <= numberOfTasks
    ensures Notified(side, numberOfTasks, NotifyFromISR(side, numberOfTasks))
  {
    WakeOneExact(side);
  }

  /** What a send leaves in the queue: the item goes behind all others, before all others, or in their place. */
  ghost predicate Sent<T>(before: seq<T>, x: T, position: Position, after: seq<T>) {
    && after != []
    && (position == SendToBack ==> after[|after| - 1] == x && after[..|after| - 1] == before)
    && (position == SendToFront ==> after[0] == x && after[1..] == before)
    && (position == Overwrite ==> after[0] == x && |after| == 1)
  }

  /** A send is accepted when there is room or the item overwrites, and then wakes the first receiver. */
  lemma SendExact<T>(q: Queue<T>, t: Task, x: T, position: Position)
    requires Inv(q) && Enabled(q, Step.Send(t, x, position))
    ensures var r, accepted := Next(q, Step.Send(t, x, position)), |q.contents| < q.length || position == Overwrite;
            && (if accepted then Sent(q.contents, x, position, r.contents) else r.contents == q.contents)
            && Wakes(q.receivers, if accepted then Min(1, |q.receivers.waiters|) else 0, {}, r.receivers)
            && Wakes(q.senders, 0, {t}, r.senders)
            && r.receivers.lock == q.receivers.lock && r.senders.lock == q.senders.lock && r.phase == q.phase
  {
    WakeOneExact(q.receivers);
    RetryExact(q.senders, t);
    assert q.receivers.waiters[0..] == q.receivers.waiters && Tasks(q.receivers.waiters[..0]) == {};
  }

  /** A receive takes the oldest item and wakes the first sender for the slot it frees. */
  lemma ReceiveExact<T>(q: Queue<T>, t: Task)
    requires Inv(q) && Enabled(q, Step<T>.Receive(t))
    ensures var r := Next(q, Step.Receive(t));
            && (if q.contents != [] then q.contents == [q.contents[0]] + r.contents else r.contents == [])
            && Wakes(q.receivers, 0, {t}, r.receivers)
            && Wakes(q.senders, if q.contents != [] then Min(1, |q.senders.waiters|) else 0, {}, r.senders)
            && r.receivers.lock == q.receivers.lock && r.senders.lock == q.senders.lock && r.phase == q.phase
  {
    WakeOneExact(q.senders);
    RetryExact(q.receivers, t);
    assert q.senders.waiters[0..] == q.senders.waiters && Tasks(q.senders.waiters[..0]) == {};
  }

  /** A peek leaves the items alone and hands its wake-up on to the next receiver. */
  lemma PeekExact<T>(q: Queue<T>, t: Task)
    requires Inv(q) && Enabled(q, Step<T>.Peek(t))
    ensures var r := Next(q, Step.Peek(t));
            && r.contents == q.contents && r.senders == q.senders && r.phase == q.phase
            && Wakes(q.receivers, if q.contents != [] then Min(1, |q.receivers.waiters|) else 0, {t}, r.receivers)
            && r.receivers.lock == q.receivers.lock
  {
    RetryExact(q.receivers, t);
    WakeOneExact(Retry(q.receivers, t));
  }

  /** The interrupt versions: the wake-up is made at once, or counted while the queue is locked. */
  lemma SendFromISRExact<T>(q: Queue<T>, x: T, position: Position)
    requires Inv(q) && Enabled(q, SendFromISR(x, position))
    ensures var r, accepted := Next(q, SendFromISR(x, position)), |q.contents| < q.length || position == Overwrite;
            && (if accepted then Sent(q.contents, x, position, r.contents) else r.contents == q.contents)
            && (if accepted then Notified(q.receivers, |q.tasks|, r.receivers) else r.receivers == q.receivers)
            && r.senders == q.senders && r.phase == q.phase
  {
    hide Notified, NotifyFromISR;
    LocksFit(q);
    NotifiedExact(q.receivers, |q.tasks|);
  }

  lemma ReceiveFromISRExact<T>(q: Queue<T>)
    requires Inv(q)
    ensures var r := Next(q, Step.ReceiveFromISR);
            && (if q.contents != [] then q.contents == [q.contents[0]] + r.contents else r.contents == [])
            && (if q.contents != [] then Notified(q.senders, |q.tasks|, r.senders) else r.senders == q.senders)
            && r.receivers == q.receivers && r.phase == q.phase
  {
    hide Notified, NotifyFromISR;
    LocksFit(q);
    NotifiedExact(q.senders, |q.tasks|);
  }

  lemma LocksFit<T>(q: Queue<T>)
    requires Inv(q)
    ensures -1 <= q.receivers.lock <= |q.tasks| && -1 <= q.senders.lock <= |q.tasks|
  {
  }

  /** Unlocking wakes one waiter in line for each event counted, as far as there are any. */
  lemma UnlockExact<T>(q: Queue<T>)
    requires Inv(q)
    ensures Enabled(q, Step<T>.UnlockReceivers) ==>
              var r, n := Next(q, Step.UnlockReceivers), Min(q.receivers.lock, |q.receivers.waiters|);
              && Wakes(q.receivers, n, {}, r.receivers) && r.receivers.lock == -1
              && r.contents == q.contents && r.senders == q.senders && r.phase == ReceiversUnlocked
    ensures Enabled(q, Step<T>.UnlockSenders) ==>
              var r, n := Next(q, Step.UnlockSenders), Min(q.senders.lock, |q.senders.waiters|);
              && Wakes(q.senders, n, {}, r.senders) && r.senders.lock == -1
              && r.contents == q.contents && r.receivers == q.receivers && r.phase == Idle
  {
    hide ValidSide, Covered, Counted, Wakes, Unlock;
    LocksFit(q);
    if Enabled(q, Step<T>.UnlockReceivers) {
      UnlockSideExact(q.receivers);
    }
    if Enabled(q, Step<T>.UnlockSenders) {
      UnlockSideExact(q.senders);
    }
  }

  lemma UnlockSideExact(side: Side)
    requires side.lock >= 0
    ensures Wakes(side, Min(side.lock, |side.waiters|), {}, Unlock(side)) && Unlock(side).lock == -1
  {
    hide Tasks;
  }

  /** Locking starts both counts from nothing, and nobody is woken. */
  lemma LockExact<T>(q: Queue<T>, t: Task)
    requires Inv(q) && Enabled(q, Step<T>.LockQueue(t))
    ensures Next(q, LockQueue(t)) ==
            q.(receivers := Side(q.receivers.waiters, q.receivers.woken, 0),
               senders := Side(q.senders.waiters, q.senders.woken, 0), phase := LockedBy(t))
  {
  }

  /** A waiter that gives up leaves its place in line, and nobody else is touched. */
  lemma GiveUpExact(side: Side, w: Waiter) returns (k: nat)
    ensures w !in side.waiters ==> Leave(side, w) == side
    ensures w in side.waiters ==>
              && k < |side.waiters| && side.waiters[k] == w
              && Leave(side, w) == side.(waiters := side.waiters[..k] + side.waiters[k + 1..])
  {
    k := if w in side.waiters then IndexOf(side.waiters, w) else 0;
  }

  /** A change of priority gives the item of the task its value, and no other item. */
  lemma ReprioritiseExact(side: Side, t: Task, itemValue: nat)
    ensures var r := Revalue(side, t, itemValue);
            && r.woken == side.woken && r.lock == side.lock && |r.waiters| == |side.waiters|
            && (forall i :: 0 <= i < |side.waiters| ==>
                  r.waiters[i] == Waiter(side.waiters[i].task,
                                         if side.waiters[i].task == t then itemValue else side.waiters[i].itemValue))
  {
  }

  /** The waiter stands behind every waiter at least as urgent that it does not overtake, and the others keep
      their places: in a line in order, behind all that are at least as urgent and before all that are less so. */
  ghost predicate Joined(before: seq<Waiter>, w: Waiter, k: nat, after: seq<Waiter>) {
    && k <= |before| && |after| == |before| + 1
    && after[k] == w && after[..k] == before[..k] && after[k + 1..] == before[k..]
    && (InOrder(before) ==> forall i :: 0 <= i < |before| ==> (i < k <==> before[i].itemValue <= w.itemValue))
  }

  /** The line is in order of urgency. */
  ghost predicate InOrder(waiters: seq<Waiter>) {
    forall i, j :: 0 <= i < j < |waiters| ==> waiters[i].itemValue <= waiters[j].itemValue
  }

  lemma EnlistExact(side: Side, w: Waiter) returns (k: nat)
    ensures Joined(side.waiters, w, k, Enlist(side, w).waiters)
    ensures InOrder(side.waiters) ==> InOrder(Enlist(side, w).waiters)
    ensures Enlist(side, w).woken == side.woken && Enlist(side, w).lock == side.lock
  {
    hide InOrder, Joined;
    var before, values := side.waiters, Values(side.waiters);
    k := InsertPosition(values, w.itemValue);
    assert forall i :: 0 <= i < |before| ==> values[i] == before[i].itemValue;
    JoinsByValue(before, w, k);
    if InOrder(before) {
      JoinedInOrder(before, w, k, InsertAt(before, k, w));
    }
  }

  lemma JoinsByValue(before: seq<Waiter>, w: Waiter, k: nat)
    requires k <= |before|
    requires forall i :: 0 <= i < k ==> before[i].itemValue <= w.itemValue
    requires k < |before| ==> before[k].itemValue > w.itemValue
    ensures Joined(before, w, k, InsertAt(before, k, w))
  {
    if InOrder(before) {
      forall i | k <= i < |before|
        ensures before[i].itemValue > w.itemValue
      {
        assert i > k ==> before[k].itemValue <= before[i].itemValue;
      }
    }
  }

  lemma JoinedInOrder(before: seq<Waiter>, w: Waiter, k: nat, after: seq<Waiter>)
    requires Joined(before, w, k, after) && InOrder(before)
    ensures InOrder(after)
  {
    forall i | 0 <= i < |after| && i != k
      ensures after[i] == before[if i < k then i else i - 1]
    {
      assert i < k ==> after[..k][i] == after[i];
      assert i > k ==> after[k + 1..][i - k - 1] == after[i];
    }
  }

  /** The locker that saw no supply joins the line of its side by urgency, and behind its equals. */
  lemma BlockExact<T>(q: Queue<T>, step: Step<T>) returns (k: nat)
    requires Inv(q) && Enabled(q, step) && (step.BlockToReceive? || step.BlockToSend?)
    ensures var r, w := Next(q, step), Waiter(q.phase.task, step.itemValue);
            && r.contents == q.contents && r.phase == Enlisted
            && (step.BlockToReceive? ==>
                  && Joined(q.receivers.waiters, w, k, r.receivers.waiters)
                  && r.receivers.woken == q.receivers.woken && r.receivers.lock == q.receivers.lock
                  && r.senders == q.senders)
            && (step.BlockToSend? ==>
                  && Joined(q.senders.waiters, w, k, r.senders.waiters)
                  && r.senders.woken == q.senders.woken && r.senders.lock == q.senders.lock
                  && r.receivers == q.receivers)
  {
    hide Joined, Enlist, ValidSide, Covered, Counted;
    k := EnlistExact(if step.BlockToReceive? then q.receivers else q.senders, Waiter(q.phase.task, step.itemValue));
  }

  // ---------- over runs ----------

  ghost predicate BothInOrder<T>(q: Queue<T>) {
    InOrder(q.receivers.waiters) && InOrder(q.senders.waiters)
  }

  lemma WakesInOrder(side: Side, n: int, retried: set<Task>, r: Side)
    requires InOrder(side.waiters) && Wakes(side, n, retried, r)
    ensures InOrder(r.waiters)
  {
  }

  lemma RemoveInOrder(waiters: seq<Waiter>, k: nat)
    requires InOrder(waiters) && k < |waiters|
    ensures InOrder(RemoveAt(waiters, k))
  {
    var r := RemoveAt(waiters, k);
    forall i, j | 0 <= i < j < |r|
      ensures r[i].itemValue <= r[j].itemValue
    {
      assert r[i] == waiters[if i < k then i else i + 1] && r[j] == waiters[if j < k then j else j + 1];
    }
  }

  lemma LeaveInOrder(side: Side, w: Waiter)
    requires InOrder(side.waiters)
    ensures InOrder(Leave(side, w).waiters)
  {
    if w in side.waiters {
      RemoveInOrder(side.waiters, IndexOf(side.waiters, w));
    }
  }

  /** Every step but a change of priority keeps both lines in order. */
  lemma OrderStep<T>(q: Queue<T>, step: Step<T>)
    requires Inv(q) && Enabled(q, step) && BothInOrder(q) && !step.Reprioritise?
    ensures BothInOrder(Next(q, step))
  {
    hide InOrder, Enlist, Leave, Unlock, Inv, WakeOne;
    match step {
      case Send(t, x, position) =>
        WakeOneExact(q.receivers);
        WakesInOrder(q.receivers, Min(1, |q.receivers.waiters|), {}, WakeOne(q.receivers));
      case Receive(t) =>
        WakeOneExact(q.senders);
        WakesInOrder(q.senders, Min(1, |q.senders.waiters|), {}, WakeOne(q.senders));
      case Peek(t) =>
        var side := Retry(q.receivers, t);
        WakeOneExact(side);
        WakesInOrder(side, Min(1, |side.waiters|), {}, WakeOne(side));
      case SendFromISR(x, position) =>
        WakeOneExact(q.receivers);
        WakesInOrder(q.receivers, Min(1, |q.receivers.waiters|), {}, WakeOne(q.receivers));
      case ReceiveFromISR =>
        WakeOneExact(q.senders);
        WakesInOrder(q.senders, Min(1, |q.senders.waiters|), {}, WakeOne(q.senders));
      case BlockToReceive(itemValue) =>
        var _ := EnlistExact(q.receivers, Waiter(q.phase.task, itemValue));
      case BlockToSend(itemValue) =>
        var _ := EnlistExact(q.senders, Waiter(q.phase.task, itemValue));
      case UnlockReceivers =>
        UnlockExact(q);
        WakesInOrder(q.receivers, Min(q.receivers.lock, |q.receivers.waiters|), {}, Unlock(q.receivers));
      case UnlockSenders =>
        UnlockExact(q);
        WakesInOrder(q.senders, Min(q.senders.lock, |q.senders.waiters|), {}, Unlock(q.senders));
      case GiveUp(w) =>
        LeaveInOrder(q.receivers, w);
        LeaveInOrder(q.senders, w);
      case _ =>
    }
  }

  ghost predicate NoPriorityChanges<T>(steps: seq<Step<T>>) {
    forall i :: 0 <= i < |steps| ==> !steps[i].Reprioritise?
  }

  lemma {:induction false} OrderAlways<T>(q: Queue<T>, steps: seq<Step<T>>)
    requires Inv(q) && BothInOrder(q) && CanRun(q, steps) && NoPriorityChanges(steps)
    ensures Inv(After(q, steps)) && BothInOrder(After(q, steps))
    decreases |steps|
  {
    hide Inv, BothInOrder, Next, Enabled;
    if steps != [] {
      InvStep(q, steps[0]);
      OrderStep(q, steps[0]);
      OrderAlways(Next(q, steps[0]), steps[1..]);
    }
  }

  /** Whoever waited for the side, waits no longer and was woken, is as urgent as whoever still waits. */
  ghost predicate MostUrgentFirst(side: Side, r: Side) {
    forall v, w :: v in side.waiters && w in r.waiters && v.task in r.woken ==> v.itemValue <= w.itemValue
  }

  lemma WakesMostUrgent(side: Side, n: int, retried: set<Task>, r: Side, tasks: set<Task>)
    requires ValidSide(side, tasks) && InOrder(side.waiters) && Wakes(side, n, retried, r)
    ensures MostUrgentFirst(side, r)
  {
    hide InOrder;
    forall v, w | v in side.waiters && w in r.waiters && v.task in r.woken
      ensures v.itemValue <= w.itemValue
    {
      var i := WokenAt(side, n, retried, r, tasks, v);
      var j :| 0 <= j < |r.waiters| && r.waiters[j] == w;
      assert side.waiters[n + j] == w;
      Ordered(side.waiters, i, n + j);
    }
  }

  lemma Ordered(waiters: seq<Waiter>, i: nat, j: nat)
    requires InOrder(waiters) && i < j < |waiters|
    ensures waiters[i].itemValue <= waiters[j].itemValue
  {
  }

  lemma WokenAt(side: Side, n: int, retried: set<Task>, r: Side, tasks: set<Task>, v: Waiter) returns (i: nat)
    requires ValidSide(side, tasks) && Wakes(side, n, retried, r)
    requires v in side.waiters && v.task in r.woken
    ensures i < n && side.waiters[i] == v
  {
    assert v.task in Tasks(side.waiters);
    var u :| u in side.waiters[..n] && u.task == v.task;
    i :| 0 <= i < n && side.waiters[i] == u;
    var k :| 0 <= k < |side.waiters| && side.waiters[k] == v;
    assert i == k;
  }

  lemma SameLine(side: Side, r: Side, tasks: set<Task>)
    requires ValidSide(side, tasks) && r.woken <= side.woken
    ensures MostUrgentFirst(side, r)
  {
    forall v | v in side.waiters
      ensures v.task !in r.woken
    {
      assert v.task in Tasks(side.waiters);
    }
  }

  lemma NotifiedMostUrgent(side: Side, r: Side, tasks: set<Task>)
    requires ValidSide(side, tasks) && InOrder(side.waiters) && Notified(side, |tasks|, r)
    ensures MostUrgentFirst(side, r)
  {
    hide ValidSide, Wakes, InOrder, MostUrgentFirst;
    if side.lock == -1 {
      WakesMostUrgent(side, Min(1, |side.waiters|), {}, r, tasks);
    } else {
      SameLine(side, r, tasks);
    }
  }

  lemma SidesAreValid<T>(q: Queue<T>)
    requires Inv(q)
    ensures ValidSide(q.receivers, q.tasks) && ValidSide(q.senders, q.tasks)
  {
  }

  lemma TaskStepWakesMostUrgent<T>(q: Queue<T>, step: Step<T>)
    requires Inv(q) && Enabled(q, step) && BothInOrder(q)
    requires step.Send? || step.Receive? || step.Peek?
    ensures MostUrgentFirst(q.receivers, Next(q, step).receivers)
    ensures MostUrgentFirst(q.senders, Next(q, step).senders)
  {
    hide Inv, Enabled, Next, ValidSide, Wakes, InOrder, MostUrgentFirst, Sent;
    var r := Next(q, step);
    SidesAreValid(q);
    match step {
      case Send(t, x, position) =>
        SendExact(q, t, x, position);
        WakesMostUrgent(q.receivers,
                        if |q.contents| < q.length || position == Overwrite then Min(1, |q.receivers.waiters|) else 0,
                        {}, r.receivers, q.tasks);
        WakesMostUrgent(q.senders, 0, {t}, r.senders, q.tasks);
      case Receive(t) =>
        ReceiveExact(q, t);
        WakesMostUrgent(q.receivers, 0, {t}, r.receivers, q.tasks);
        WakesMostUrgent(q.senders, if q.contents != [] then Min(1, |q.senders.waiters|) else 0, {}, r.senders, q.tasks);
      case Peek(t) =>
        PeekExact(q, t);
        WakesMostUrgent(q.receivers, if q.contents != [] then Min(1, |q.receivers.waiters|) else 0, {t}, r.receivers,
                        q.tasks);
        assert MostUrgentFirst(q.senders, r.senders) by {
          SameLine(q.senders, r.senders, q.tasks);
        }
    }
  }

  lemma InterruptStepWakesMostUrgent<T>(q: Queue<T>, step: Step<T>)
    requires Inv(q) && Enabled(q, step) && BothInOrder(q)
    requires step.SendFromISR? || step.ReceiveFromISR?
    ensures MostUrgentFirst(q.receivers, Next(q, step).receivers)
    ensures MostUrgentFirst(q.senders, Next(q, step).senders)
  {
    hide Inv, Enabled, Next, ValidSide, Notified, InOrder, MostUrgentFirst, Sent;
    var r := Next(q, step);
    SidesAreValid(q);
    match step {
      case SendFromISR(x, position) =>
        SendFromISRExact(q, x, position);
        if |q.contents| < q.length || position == Overwrite {
          NotifiedMostUrgent(q.receivers, r.receivers, q.tasks);
        } else {
          SameLine(q.receivers, r.receivers, q.tasks);
        }
        SameLine(q.senders, r.senders, q.tasks);
      case ReceiveFromISR =>
        ReceiveFromISRExact(q);
        if q.contents != [] {
          NotifiedMostUrgent(q.senders, r.senders, q.tasks);
        } else {
          SameLine(q.senders, r.senders, q.tasks);
        }
        SameLine(q.receivers, r.receivers, q.tasks);
    }
  }

  /** Whoever a step wakes is at least as urgent as every task that still waits on its side. */
  lemma StepWakesMostUrgent<T>(q: Queue<T>, step: Step<T>)
    requires Inv(q) && Enabled(q, step) && BothInOrder(q)
    ensures MostUrgentFirst(q.receivers, Next(q, step).receivers)
    ensures MostUrgentFirst(q.senders, Next(q, step).senders)
  {
    hide Inv, Enabled, ValidSide, Wakes, InOrder, MostUrgentFirst, Unlock, Leave, Enlist, Revalue, WakeOne, Retry,
      NotifyFromISR, Put;
    var r := Next(q, step);
    SidesAreValid(q);
    match step {
      case Send(_, _, _) => TaskStepWakesMostUrgent(q, step);
      case Receive(_) => TaskStepWakesMostUrgent(q, step);
      case Peek(_) => TaskStepWakesMostUrgent(q, step);
      case SendFromISR(_, _) => InterruptStepWakesMostUrgent(q, step);
      case ReceiveFromISR => InterruptStepWakesMostUrgent(q, step);
      case UnlockReceivers =>
        UnlockExact(q);
        WakesMostUrgent(q.receivers, Min(q.receivers.lock, |q.receivers.waiters|), {}, r.receivers, q.tasks);
        SameLine(q.senders, r.senders, q.tasks);
      case UnlockSenders =>
        UnlockExact(q);
        WakesMostUrgent(q.senders, Min(q.senders.lock, |q.senders.waiters|), {}, r.senders, q.tasks);
        SameLine(q.receivers, r.receivers, q.tasks);
      case _ =>
        NobodyIsWoken(q, step);
        SameLine(q.receivers, r.receivers, q.tasks);
        SameLine(q.senders, r.senders, q.tasks);
    }
  }

  /** The steps that are no event wake nobody. */
  lemma NobodyIsWoken<T>(q: Queue<T>, step: Step<T>)
    requires !step.Send? && !step.Receive? && !step.Peek? && !step.SendFromISR? && !step.ReceiveFromISR?
    requires !step.UnlockReceivers? && !step.UnlockSenders?
    ensures Next(q, step).receivers.woken == q.receivers.woken && Next(q, step).senders.woken == q.senders.woken
    ensures Next(q, step).contents == q.contents
  {
  }

  /** Over any run without a change of priority: whoever the next step wakes, from a task or an interrupt, at once or
      when the queue is unlocked, is at least as urgent as every task that it leaves waiting on the same side. */
  lemma MostUrgentIsWoken<T>(q: Queue<T>, steps: seq<Step<T>>, step: Step<T>)
    requires Init(q) && CanRun(q, steps) && NoPriorityChanges(steps) && Enabled(After(q, steps), step)
    ensures var s := After(q, steps);
            && BothInOrder(s)
            && MostUrgentFirst(s.receivers, Next(s, step).receivers)
            && MostUrgentFirst(s.senders, Next(s, step).senders)
  {
    hide Inv, CanRun, After, Next, Enabled, NoPriorityChanges, MostUrgentFirst;
    InitInv(q);
    OrderAlways(q, steps);
    StepWakesMostUrgent(After(q, steps), step);
  }
}
