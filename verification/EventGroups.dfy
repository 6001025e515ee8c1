/** Event groups: event_groups.c over the unordered event list operations of tasks.c.

    A 32-bit word is modelled as the set of the positions of its one bits, so that `&`, `|` and `& ~` are
    intersection, union and difference.  A waiting task keeps the bits it waits for, and two control flags,
    in the item value of its event list item; when it is unblocked the item value carries the event bits
    back to it. */
module EventGroups {
  import opened ListModel
  import opened KernelConfig

  type Word = set<nat>

  const CLEAR_EVENTS_ON_EXIT: Word := {24}
  const UNBLOCKED_DUE_TO_BIT_SET: Word := {25}
  const WAIT_FOR_ALL: Word := {26}
  const EVENT_BITS_CONTROL_BYTES: Word := {24, 25, 26, 27, 28, 29, 30, 31}
  const EVENT_LIST_ITEM_VALUE_IN_USE: Word := {31}

  datatype Waiter = Waiter(task: Task, itemValue: Word)

  /** An event group: its bits, its waiters in order of arrival, the event item values of tasks that have left
      the list and not run again, and the item value with which each of either kind blocked. */
  datatype Group = Group(bits: Word, waiters: seq<Waiter>, values: map<Task, Word>, waits: map<Task, Word>)

  predicate IsEventBits(bits: Word) {
    bits !! EVENT_BITS_CONTROL_BYTES
  }

  function WaitedFor(itemValue: Word): Word {
    itemValue - EVENT_BITS_CONTROL_BYTES
  }

  /** `prvTestWaitCondition`. */
  predicate TestWaitCondition(current: Word, waitFor: Word, all: bool) {
    if all then current * waitFor == waitFor else current * waitFor != {}
  }

  /** The item value of a task that blocks. */
  function WaitValue(waitFor: Word, clearOnExit: bool, all: bool): Word {
    waitFor + (if clearOnExit then CLEAR_EVENTS_ON_EXIT else {}) + (if all then WAIT_FOR_ALL else {})
    + EVENT_LIST_ITEM_VALUE_IN_USE
  }

  /** Whether the current bits meet the condition a waiter encoded in its item value. */
  predicate Met(bits: Word, itemValue: Word) {
    TestWaitCondition(bits, WaitedFor(itemValue), itemValue * WAIT_FOR_ALL != {})
  }

  /** The bits a waiter wants cleared when its condition is met. */
  function ClearRequest(itemValue: Word): Word {
    if itemValue * CLEAR_EVENTS_ON_EXIT != {} then WaitedFor(itemValue) else {}
  }

  /** What an unblocked task finds in its event item. */
  function Snapshot(bits: Word): Word {
    bits + UNBLOCKED_DUE_TO_BIT_SET + EVENT_LIST_ITEM_VALUE_IN_USE
  }

  /** The encoding of a wait loses nothing, and does not look like an unblocking. */
  lemma WaitValueDecodes(waitFor: Word, clearOnExit: bool, all: bool)
    requires IsEventBits(waitFor)
    ensures var v := WaitValue(waitFor, clearOnExit, all);
            && WaitedFor(v) == waitFor
            && (v * WAIT_FOR_ALL != {} <==> all)
            && ClearRequest(v) == (if clearOnExit then waitFor else {})
            && v * UNBLOCKED_DUE_TO_BIT_SET == {}
  {
    var v := WaitValue(waitFor, clearOnExit, all);
    assert WaitedFor(v) == waitFor;
    assert 26 in v <==> all;
    assert 24 in v <==> clearOnExit;
    assert 25 !in v;
  }

  lemma SnapshotDecodes(bits: Word)
    requires IsEventBits(bits)
    ensures Snapshot(bits) * UNBLOCKED_DUE_TO_BIT_SET != {}
    ensures WaitedFor(Snapshot(bits)) == bits
  {
    assert 25 in Snapshot(bits) * UNBLOCKED_DUE_TO_BIT_SET;
  }

  /** A condition that is not met stays unmet when bits are cleared. */
  lemma FewerBitsMeetLess(bits: Word, fewer: Word, itemValue: Word)
    requires !Met(bits, itemValue) && fewer <= bits
    ensures !Met(fewer, itemValue)
  {
    var w := WaitedFor(itemValue);
    if itemValue * WAIT_FOR_ALL != {} {
      assert bits * w != w;
      var b :| b in w && b !in bits;
      assert b !in fewer * w;
    } else {
      assert fewer * w <= bits * w;
    }
  }

  // ---------- setting bits ----------

  function Unmet(waiters: seq<Waiter>, bits: Word): seq<Waiter> {
    if waiters == [] then []
    else Unmet(waiters[..|waiters| - 1], bits) +
         if Met(bits, waiters[|waiters| - 1].itemValue) then [] else [waiters[|waiters| - 1]]
  }

  function ClearMask(waiters: seq<Waiter>, bits: Word): Word {
    if waiters == [] then {}
    else ClearMask(waiters[..|waiters| - 1], bits) +
         if Met(bits, waiters[|waiters| - 1].itemValue) then ClearRequest(waiters[|waiters| - 1].itemValue) else {}
  }

  function Unblock(waiters: seq<Waiter>, bits: Word, values: map<Task, Word>): map<Task, Word> {
    if waiters == [] then values
    else
      var earlier := Unblock(waiters[..|waiters| - 1], bits, values);
      var last := waiters[|waiters| - 1];
      if Met(bits, last.itemValue) then earlier[last.task := Snapshot(bits)] else earlier
  }

  /** `xEventGroupSetBits`. */
  function SetBits(g: Group, bitsToSet: Word): Group {
    var bits := g.bits + bitsToSet;
    Group(bits - ClearMask(g.waiters, bits), Unmet(g.waiters, bits), Unblock(g.waiters, bits, g.values), g.waits)
  }

  lemma {:induction false} UnmetExact(waiters: seq<Waiter>, bits: Word)
    ensures forall w :: w in Unmet(waiters, bits) <==> w in waiters && !Met(bits, w.itemValue)
    ensures |Unmet(waiters, bits)| <= |waiters|
  {
    hide Met;
    if waiters != [] {
      var n := |waiters| - 1;
      UnmetExact(waiters[..n], bits);
      assert waiters == waiters[..n] + [waiters[n]];
    }
  }

  lemma {:induction false} UnblockExact(waiters: seq<Waiter>, bits: Word, values: map<Task, Word>, t: Task)
    ensures var r := Unblock(waiters, bits, values);
            if exists w :: w in waiters && w.task == t && Met(bits, w.itemValue)
            then t in r && r[t] == Snapshot(bits)
            else (t in r <==> t in values) && (t in r ==> r[t] == values[t])
  {
    hide Met, Snapshot;
    if waiters != [] {
      var n := |waiters| - 1;
      UnblockExact(waiters[..n], bits, values, t);
      assert waiters == waiters[..n] + [waiters[n]];
    }
  }

  /** The clear mask is the union of the clear requests of the waiters that are met. */
  lemma {:induction false} ClearMaskIsUnion(waiters: seq<Waiter>, bits: Word, b: nat)
    ensures b in ClearMask(waiters, bits) <==>
            exists w :: w in waiters && Met(bits, w.itemValue) && b in ClearRequest(w.itemValue)
  {
    hide Met, ClearRequest;
    if waiters != [] {
      var n := |waiters| - 1;
      ClearMaskIsUnion(waiters[..n], bits, b);
      assert waiters == waiters[..n] + [waiters[n]];
    }
  }

  /** One call unblocks exactly the waiters met by the old bits and the new, gives each the same snapshot of
      them, leaves everyone else alone, and then clears exactly the bits the unblocked waiters asked for. */
  lemma SetBitsExact(g: Group, bitsToSet: Word)
    ensures var r, bits := SetBits(g, bitsToSet), g.bits + bitsToSet;
            && (forall w :: w in r.waiters <==> w in g.waiters && !Met(bits, w.itemValue))
            && (forall w :: w in g.waiters && Met(bits, w.itemValue) ==>
                              w.task in r.values && r.values[w.task] == Snapshot(bits))
            && (forall t :: (forall w :: w in g.waiters && w.task == t ==> !Met(bits, w.itemValue)) ==>
                              (t in r.values <==> t in g.values) && (t in r.values ==> r.values[t] == g.values[t]))
            && (forall b :: b in r.bits <==>
                              && b in bits
                              && forall w :: w in g.waiters && Met(bits, w.itemValue) ==>
                                               b !in ClearRequest(w.itemValue))
  {
    hide Met, ClearRequest, Snapshot, Unmet, Unblock, ClearMask;
    var r, bits := SetBits(g, bitsToSet), g.bits + bitsToSet;
    UnmetExact(g.waiters, bits);
    forall t
      ensures if exists w :: w in g.waiters && w.task == t && Met(bits, w.itemValue)
              then t in r.values && r.values[t] == Snapshot(bits)
              else (t in r.values <==> t in g.values) && (t in r.values ==> r.values[t] == g.values[t])
    {
      UnblockExact(g.waiters, bits, g.values, t);
    }
    forall b
      ensures b in ClearMask(g.waiters, bits) <==>
              exists w :: w in g.waiters && Met(bits, w.itemValue) && b in ClearRequest(w.itemValue)
    {
      ClearMaskIsUnion(g.waiters, bits, b);
    }
  }

  // ---------- the other operations ----------

  /** The kinds of call that wait: `xEventGroupWaitBits` with its options, and `xEventGroupSync`. */
  datatype Wait = Wait(waitFor: Word, clearOnExit: bool, all: bool)

  function SyncWait(waitFor: Word): Wait {
    Wait(waitFor, true, true)
  }

  function ItemValue(w: Wait): Word {
    WaitValue(w.waitFor, w.clearOnExit, w.all)
  }

  predicate Satisfied(bits: Word, w: Wait) {
    TestWaitCondition(bits, w.waitFor, w.all)
  }

  /** `vTaskPlaceOnUnorderedEventList`. */
  function Block(g: Group, t: Task, w: Wait): Group {
    g.(waiters := g.waiters + [Waiter(t, ItemValue(w))], waits := g.waits[t := ItemValue(w)])
  }

  function TakeBits(g: Group, w: Wait): Group {
    if w.clearOnExit then g.(bits := g.bits - w.waitFor) else g
  }

  /** `xEventGroupWaitBits` up to the point where the caller blocks or returns. */
  function WaitBits(g: Group, t: Task, w: Wait, mayBlock: bool): Group {
    if Satisfied(g.bits, w) then TakeBits(g, w)
    else if mayBlock then Block(g, t, w)
    else g
  }

  /** `xEventGroupSync` up to the point where the caller blocks or returns. */
  function Sync(g: Group, t: Task, bitsToSet: Word, waitFor: Word, mayBlock: bool): Group {
    var r := SetBits(g, bitsToSet);
    if (g.bits + bitsToSet) * waitFor == waitFor then TakeBits(r, SyncWait(waitFor))
    else if mayBlock then Block(r, t, SyncWait(waitFor))
    else r
  }

  /** A waiter's block time ends: the tick takes it off the list, and its item value stays as it is. */
  function TimeOut(g: Group, w: Waiter): Group {
    if w in g.waiters
    then g.(waiters := RemoveAt(g.waiters, IndexOf(g.waiters, w)), values := g.values[w.task := w.itemValue])
    else g
  }

  predicate WasUnblocked(value: Word) {
    value * UNBLOCKED_DUE_TO_BIT_SET != {}
  }

  /** A task that blocked runs again; if it timed out but its condition is met by now, it still takes the bits. */
  function Resume(g: Group, t: Task, w: Wait): Group
    requires t in g.values
  {
    var r := if !WasUnblocked(g.values[t]) && Satisfied(g.bits, w) then TakeBits(g, w) else g;
    r.(values := r.values - {t}, waits := r.waits - {t})
  }

  /** What the resumed call returns. */
  function ResumeResult(g: Group, t: Task): Word
    requires t in g.values
  {
    WaitedFor(if WasUnblocked(g.values[t]) then g.values[t] else g.bits)
  }

  // ---------- what every run keeps ----------

  ghost predicate DistinctTasks(waiters: seq<Waiter>) {
    forall i, j :: 0 <= i < j < |waiters| ==> waiters[i].task != waiters[j].task
  }

  /** An unblocked task carries a snapshot that met its condition; a timed out one its wait. */
  ghost predicate HonestValue(value: Word, wait: Word) {
    value == wait || exists bits :: IsEventBits(bits) && value == Snapshot(bits) && Met(bits, wait)
  }

  ghost predicate Inv(g: Group) {
    && IsEventBits(g.bits)
    && (forall w :: w in g.waiters ==> !Met(g.bits, w.itemValue))
    && DistinctTasks(g.waiters)
    && (forall w :: w in g.waiters ==> w.task !in g.values && w.task in g.waits && g.waits[w.task] == w.itemValue)
    && (forall t :: t in g.values ==> t in g.waits && HonestValue(g.values[t], g.waits[t]))
    && (forall t :: t in g.waits ==> g.waits[t] * UNBLOCKED_DUE_TO_BIT_SET == {})
  }

  lemma FewerBitsInv(g: Group, fewer: Word)
    requires Inv(g) && fewer <= g.bits
    ensures Inv(g.(bits := fewer))
  {
    hide Met;
    forall w | w in g.waiters
      ensures !Met(fewer, w.itemValue)
    {
      FewerBitsMeetLess(g.bits, fewer, w.itemValue);
    }
  }

  lemma {:induction false} UnmetDistinct(waiters: seq<Waiter>, bits: Word)
    requires DistinctTasks(waiters)
    ensures DistinctTasks(Unmet(waiters, bits))
  {
    hide Met;
    if waiters != [] {
      var n := |waiters| - 1;
      UnmetDistinct(waiters[..n], bits);
      UnmetExact(waiters[..n], bits);
    }
  }

  lemma SetBitsInv(g: Group, bitsToSet: Word)
    requires Inv(g) && IsEventBits(bitsToSet)
    ensures Inv(SetBits(g, bitsToSet))
  {
    hide Met, ClearRequest, Snapshot, Unmet, Unblock, ClearMask;
    var r, bits := SetBits(g, bitsToSet), g.bits + bitsToSet;
    SetBitsExact(g, bitsToSet);
    UnmetDistinct(g.waiters, bits);
    forall w | w in r.waiters
      ensures !Met(r.bits, w.itemValue) && w.task !in r.values
    {
      FewerBitsMeetLess(bits, r.bits, w.itemValue);
      forall x | x in g.waiters && x.task == w.task
        ensures x == w
      {
      }
    }
    forall t | t in r.values
      ensures t in r.waits && HonestValue(r.values[t], r.waits[t])
    {
      if w :| w in g.waiters && w.task == t && Met(bits, w.itemValue) {
        assert IsEventBits(bits) && r.values[t] == Snapshot(bits) && Met(bits, r.waits[t]);
      }
    }
  }

  /** A task joins the list only when the current bits do not meet its condition. */
  lemma BlockInv(g: Group, t: Task, w: Wait)
    requires Inv(g) && t !in g.waits && IsEventBits(w.waitFor) && !Satisfied(g.bits, w)
    ensures Inv(Block(g, t, w))
  {
    WaitValueDecodes(w.waitFor, w.clearOnExit, w.all);
    hide WaitValue, Met, HonestValue;
    assert !Met(g.bits, ItemValue(w)) by {
      UnmetEncoded(g.bits, w);
    }
    forall x | x in g.waiters
      ensures x.task != t
    {
    }
  }

  lemma UnmetEncoded(bits: Word, w: Wait)
    requires IsEventBits(w.waitFor) && !Satisfied(bits, w)
    ensures !Met(bits, ItemValue(w))
  {
    WaitValueDecodes(w.waitFor, w.clearOnExit, w.all);
  }

  lemma TimeOutInv(g: Group, w: Waiter)
    requires Inv(g)
    ensures Inv(TimeOut(g, w))
  {
    hide Met, Snapshot;
    if w in g.waiters {
      var k := IndexOf(g.waiters, w);
      var r := RemoveAt(g.waiters, k);
      forall i | 0 <= i < |r|
        ensures r[i] == g.waiters[if i < k then i else i + 1] && r[i].task != w.task
      {
      }
    }
  }

  datatype Step =
    | SetStep(bitsToSet: Word)
    | ClearStep(bitsToClear: Word)
    | WaitStep(t: Task, wait: Wait, mayBlock: bool)
    | SyncStep(t: Task, bitsToSet: Word, waitFor: Word, mayBlock: bool)
    | TimeOutStep(waiter: Waiter)
    | ResumeStep(t: Task, wait: Wait)

  /** When a step can happen: what the kernel asserts of the bits, a task that is not itself blocked, and a
      resumed task that blocked with the wait it resumes. */
  ghost predicate Enabled(g: Group, step: Step) {
    match step
    case SetStep(bitsToSet) => IsEventBits(bitsToSet)
    case ClearStep(bitsToClear) => IsEventBits(bitsToClear)
    case WaitStep(t, wait, mayBlock) => IsEventBits(wait.waitFor) && wait.waitFor != {} && t !in g.waits
    case SyncStep(t, bitsToSet, waitFor, mayBlock) =>
      IsEventBits(bitsToSet) && IsEventBits(waitFor) && waitFor != {} && t !in g.waits
    case TimeOutStep(waiter) => true
    case ResumeStep(t, wait) =>
      t in g.values && IsEventBits(wait.waitFor) && t in g.waits && g.waits[t] == ItemValue(wait)
  }

  function Next(g: Group, step: Step): Group
    requires step.ResumeStep? ==> step.t in g.values
  {
    match step
    case SetStep(bitsToSet) => SetBits(g, bitsToSet)
    case ClearStep(bitsToClear) => g.(bits := g.bits - bitsToClear)
    case WaitStep(t, wait, mayBlock) => WaitBits(g, t, wait, mayBlock)
    case SyncStep(t, bitsToSet, waitFor, mayBlock) => Sync(g, t, bitsToSet, waitFor, mayBlock)
    case TimeOutStep(waiter) => TimeOut(g, waiter)
    case ResumeStep(t, wait) => Resume(g, t, wait)
  }

  lemma InvStep(g: Group, step: Step)
    requires Inv(g) && Enabled(g, step)
    ensures Inv(Next(g, step))
  {
    match step {
      case SetStep(bitsToSet) =>
        SetBitsInv(g, bitsToSet);
      case ClearStep(bitsToClear) =>
        FewerBitsInv(g, g.bits - bitsToClear);
      case WaitStep(t, wait, mayBlock) =>
        if Satisfied(g.bits, wait) {
          FewerBitsInv(g, TakeBits(g, wait).bits);
        } else if mayBlock {
          BlockInv(g, t, wait);
        }
      case SyncStep(t, bitsToSet, waitFor, mayBlock) =>
        SyncInv(g, t, bitsToSet, waitFor, mayBlock);
      case TimeOutStep(waiter) =>
        TimeOutInv(g, waiter);
      case ResumeStep(t, wait) =>
        ResumeInv(g, t, wait);
    }
  }

  lemma SyncInv(g: Group, t: Task, bitsToSet: Word, waitFor: Word, mayBlock: bool)
    requires Inv(g) && Enabled(g, SyncStep(t, bitsToSet, waitFor, mayBlock))
    ensures Inv(Sync(g, t, bitsToSet, waitFor, mayBlock))
  {
    hide Inv, SetBits;
    var r := SetBits(g, bitsToSet);
    SetBitsInv(g, bitsToSet);
    SetBitsShrinks(g, bitsToSet);
    if (g.bits + bitsToSet) * waitFor == waitFor {
      FewerBitsInv(r, TakeBits(r, SyncWait(waitFor)).bits);
    } else if mayBlock {
      FewerNotAll(g.bits + bitsToSet, r.bits, waitFor);
      BlockInv(r, t, SyncWait(waitFor));
    }
  }

  lemma FewerNotAll(bits: Word, fewer: Word, waitFor: Word)
    requires fewer <= bits && bits * waitFor != waitFor
    ensures fewer * waitFor != waitFor
  {
    var b :| b in waitFor && b !in bits * waitFor;
    assert b !in fewer * waitFor;
  }

  lemma SetBitsShrinks(g: Group, bitsToSet: Word)
    ensures SetBits(g, bitsToSet).bits <= g.bits + bitsToSet
    ensures SetBits(g, bitsToSet).waits == g.waits
  {
  }

  lemma ResumeInv(g: Group, t: Task, wait: Wait)
    requires Inv(g) && t in g.values
    ensures Inv(Resume(g, t, wait))
  {
    hide Met, Snapshot, HonestValue;
    var r := if !WasUnblocked(g.values[t]) && Satisfied(g.bits, wait) then TakeBits(g, wait) else g;
    FewerBitsInv(g, r.bits);
  }

  /** A wait that was ended by its bits returns bits that meet its condition, whatever has been set and
      cleared since; a wait that timed out returns the current bits. */
  lemma ResumeReturnsMetBits(g: Group, t: Task, wait: Wait)
    requires Inv(g) && Enabled(g, ResumeStep(t, wait))
    ensures WasUnblocked(g.values[t]) ==> Satisfied(ResumeResult(g, t), wait) && Resume(g, t, wait).bits == g.bits
    ensures !WasUnblocked(g.values[t]) ==> ResumeResult(g, t) == g.bits
  {
    WaitValueDecodes(wait.waitFor, wait.clearOnExit, wait.all);
    if WasUnblocked(g.values[t]) {
      var bits :| IsEventBits(bits) && g.values[t] == Snapshot(bits) && Met(bits, g.waits[t]);
      SnapshotDecodes(bits);
    }
  }

  // ---------- what it is to meet a wait ----------

  lemma NoControlBits(bits: Word)
    requires IsEventBits(bits)
    ensures bits - EVENT_BITS_CONTROL_BYTES == bits
  {
  }

  /** What it is for bits to meet a wait: they have all of its bits, or one of them. */
  predicate Meets(bits: Word, waitFor: Word, all: bool) {
    if all then waitFor <= bits else exists b :: b in waitFor && b in bits
  }

  lemma MeetsExact(bits: Word, w: Wait)
    requires IsEventBits(w.waitFor)
    ensures Satisfied(bits, w) <==> Meets(bits, w.waitFor, w.all)
    ensures Met(bits, ItemValue(w)) <==> Meets(bits, w.waitFor, w.all)
  {
    WaitValueDecodes(w.waitFor, w.clearOnExit, w.all);
    hide WaitValue;
    assert w.waitFor <= bits <==> bits * w.waitFor == w.waitFor;
    assert (exists b :: b in w.waitFor && b in bits) <==> bits * w.waitFor != {} by {
      if b :| b in w.waitFor && b in bits {
        assert b in bits * w.waitFor;
      }
      if bits * w.waitFor != {} {
        var b :| b in bits * w.waitFor;
        assert b in w.waitFor && b in bits;
      }
    }
  }

  ghost predicate CanRun(g: Group, steps: seq<Step>)
    decreases |steps|
  {
    steps == [] || (Enabled(g, steps[0]) && CanRun(Next(g, steps[0]), steps[1..]))
  }

  ghost function After(g: Group, steps: seq<Step>): Group
    requires CanRun(g, steps)
    decreases |steps|
  {
    if steps == [] then g else After(Next(g, steps[0]), steps[1..])
  }

  lemma {:induction false} InvAlways(g: Group, steps: seq<Step>)
    requires Inv(g) && CanRun(g, steps)
    ensures Inv(After(g, steps))
    decreases |steps|
  {
    if steps != [] {
      InvStep(g, steps[0]);
      InvAlways(Next(g, steps[0]), steps[1..]);
    }
  }

  /** Over any run of sets, clears, waits, rendezvous, time-outs and resumptions, no task stays on the wait
      list while the bits meet its condition. */
  lemma NoSatisfiedWaiter(steps: seq<Step>)
    requires CanRun(Group({}, [], map[], map[]), steps)
    ensures forall w :: w in After(Group({}, [], map[], map[]), steps).waiters ==>
                          !Met(After(Group({}, [], map[], map[]), steps).bits, w.itemValue)
  {
    InvAlways(Group({}, [], map[], map[]), steps);
  }

  /** Where the walk over the wait list stands after i of its items: what is left of the list, the bits to
      clear, and the item values of the tasks unblocked. */
  ghost predicate WalkedTo(waiters: seq<Waiter>, i: nat, bits: Word, before: map<Task, Word>,
                           list: seq<Waiter>, position: nat, clear: Word, values: map<Task, Word>)
  {
    && i <= |waiters|
    && position == |Unmet(waiters[..i], bits)|
    && list == Unmet(waiters[..i], bits) + waiters[i..]
    && clear == ClearMask(waiters[..i], bits)
    && values == Unblock(waiters[..i], bits, before)
  }

  lemma WalkStart(waiters: seq<Waiter>, bits: Word, before: map<Task, Word>)
    ensures WalkedTo(waiters, 0, bits, before, waiters, 0, {}, before)
  {
  }

  lemma WalkItem(waiters: seq<Waiter>, i: nat, bits: Word, before: map<Task, Word>,
                 list: seq<Waiter>, position: nat, clear: Word, values: map<Task, Word>)
    requires WalkedTo(waiters, i, bits, before, list, position, clear, values) && position < |list|
    ensures i < |waiters| && list[position] == waiters[i]
    ensures var item := list[position];
            if Met(bits, item.itemValue)
            then WalkedTo(waiters, i + 1, bits, before, RemoveAt(list, position), position,
                          if item.itemValue * CLEAR_EVENTS_ON_EXIT != {} then clear + WaitedFor(item.itemValue)
                          else clear,
                          values[item.task := Snapshot(bits)])
            else WalkedTo(waiters, i + 1, bits, before, list, position + 1, clear, values)
  {
    hide Met, WaitedFor, Snapshot;
    assert waiters[..i + 1][..i] == waiters[..i];
    assert waiters[i..] == [waiters[i]] + waiters[i + 1..];
    assert RemoveAt(list, position) == Unmet(waiters[..i], bits) + waiters[i + 1..];
  }

  lemma WalkEnd(waiters: seq<Waiter>, i: nat, bits: Word, before: map<Task, Word>,
                list: seq<Waiter>, position: nat, clear: Word, values: map<Task, Word>)
    requires WalkedTo(waiters, i, bits, before, list, position, clear, values) && position >= |list|
    ensures list == Unmet(waiters, bits) && clear == ClearMask(waiters, bits)
            && values == Unblock(waiters, bits, before)
  {
    assert waiters[..i] == waiters;
  }

  lemma RemoveShortens(list: seq<Waiter>, position: nat)
    requires position < |list|
    ensures |RemoveAt(list, position)| == |list| - 1
  {
  }

  // ---------- event_groups.c ----------

  class EventGroup {
    var uxEventBits: Word
    var tasksWaitingForBits: seq<Waiter>
    var eventItemValues: map<Task, Word>  // of tasks that have left the list and not run again
    ghost var waits: map<Task, Word>

    ghost function View(): Group
      reads this
    {
      Group(uxEventBits, tasksWaitingForBits, eventItemValues, waits)
    }

    constructor ()
      ensures View() == Group({}, [], map[], map[]) && Inv(View())
    {
      uxEventBits, tasksWaitingForBits, eventItemValues, waits := {}, [], map[], map[];
    }

    /** `xEventGroupSetBits`: one walk over the wait list. */
    method SetBits(bitsToSet: Word) returns (r: Word)
      requires Inv(View()) && IsEventBits(bitsToSet)
      modifies this
      ensures Inv(View()) && View() == Next(old(View()), SetStep(bitsToSet)) && r == uxEventBits
    {
      hide Inv, WalkedTo, Snapshot, Unmet, ClearMask, Unblock, RemoveAt;
      ghost var g := View();
      SetBitsInv(g, bitsToSet);
      uxEventBits := uxEventBits + bitsToSet;
      var bitsToClear: Word, position := {}, 0;
      ghost var bits, waiters, i := uxEventBits, tasksWaitingForBits, 0;
      WalkStart(waiters, bits, eventItemValues);
      while position < |tasksWaitingForBits|
        invariant WalkedTo(waiters, i, bits, g.values, tasksWaitingForBits, position, bitsToClear, eventItemValues)
        invariant uxEventBits == bits && waits == g.waits
        decreases |tasksWaitingForBits| - position
      {
        var item := tasksWaitingForBits[position];
        var bitsWaitedFor, matchFound := WaitedFor(item.itemValue), false;
        if item.itemValue * WAIT_FOR_ALL == {} {
          matchFound := uxEventBits * bitsWaitedFor != {};
        } else {
          matchFound := uxEventBits * bitsWaitedFor == bitsWaitedFor;
        }
        assert matchFound == Met(uxEventBits, item.itemValue);
        hide Met, WaitedFor, ClearRequest;
        WalkItem(waiters, i, bits, g.values, tasksWaitingForBits, position, bitsToClear, eventItemValues);
        if matchFound {
          if item.itemValue * CLEAR_EVENTS_ON_EXIT != {} {
            bitsToClear := bitsToClear + bitsWaitedFor;
          }
          eventItemValues := eventItemValues[item.task := Snapshot(uxEventBits)];
          RemoveShortens(tasksWaitingForBits, position);
          tasksWaitingForBits := RemoveAt(tasksWaitingForBits, position);
        } else {
          position := position + 1;
        }
        i := i + 1;
      }
      WalkEnd(waiters, i, bits, g.values, tasksWaitingForBits, position, bitsToClear, eventItemValues);
      uxEventBits := uxEventBits - bitsToClear;
      r := uxEventBits;
    }

    /** `xEventGroupClearBits`. */
    method ClearBits(bitsToClear: Word) returns (r: Word)
      requires Inv(View()) && IsEventBits(bitsToClear)
      modifies `uxEventBits
      ensures Inv(View()) && View() == Next(old(View()), ClearStep(bitsToClear)) && r == old(uxEventBits)
      ensures uxEventBits == old(uxEventBits) - bitsToClear
    {
      InvStep(View(), ClearStep(bitsToClear));
      r := uxEventBits;
      uxEventBits := uxEventBits - bitsToClear;
    }

    /** `vTaskPlaceOnUnorderedEventList` for the calling task. */
    method PlaceOnUnorderedEventList(t: Task, itemValue: Word)
      modifies `tasksWaitingForBits, `waits
      ensures tasksWaitingForBits == old(tasksWaitingForBits) + [Waiter(t, itemValue + EVENT_LIST_ITEM_VALUE_IN_USE)]
      ensures waits == old(waits)[t := itemValue + EVENT_LIST_ITEM_VALUE_IN_USE]
    {
      tasksWaitingForBits := tasksWaitingForBits + [Waiter(t, itemValue + EVENT_LIST_ITEM_VALUE_IN_USE)];
      waits := waits[t := itemValue + EVENT_LIST_ITEM_VALUE_IN_USE];
    }

    /** `xEventGroupWaitBits`, with the scheduler suspended: either the wait is over, or the caller blocks. */
    method WaitBits(t: Task, waitFor: Word, clearOnExit: bool, waitForAllBits: bool, ticksToWait: nat)
      returns (blocked: bool, r: Word)
      requires Inv(View()) && Enabled(View(), WaitStep(t, Wait(waitFor, clearOnExit, waitForAllBits), ticksToWait != 0))
      modifies this
      ensures Inv(View())
      ensures View() == Next(old(View()), WaitStep(t, Wait(waitFor, clearOnExit, waitForAllBits), ticksToWait != 0))
      ensures blocked <==> ticksToWait != 0 && !TestWaitCondition(old(uxEventBits), waitFor, waitForAllBits)
      ensures !blocked ==> r == old(uxEventBits)
      ensures uxEventBits == if Meets(old(uxEventBits), waitFor, waitForAllBits) && clearOnExit
                             then old(uxEventBits) - waitFor else old(uxEventBits)
      ensures blocked <==> ticksToWait != 0 && !Meets(old(uxEventBits), waitFor, waitForAllBits)
    {
      MeetsExact(uxEventBits, Wait(waitFor, clearOnExit, waitForAllBits));
      InvStep(View(), WaitStep(t, Wait(waitFor, clearOnExit, waitForAllBits), ticksToWait != 0));
      hide Inv;
      var current := uxEventBits;
      blocked, r := false, current;
      if TestWaitCondition(current, waitFor, waitForAllBits) {
        if clearOnExit {
          uxEventBits := uxEventBits - waitFor;
        }
      } else if ticksToWait == 0 {
        // not met, and no block time: return the current value
      } else {
        var controlBits: Word := {};
        if clearOnExit {
          controlBits := controlBits + CLEAR_EVENTS_ON_EXIT;
        }
        if waitForAllBits {
          controlBits := controlBits + WAIT_FOR_ALL;
        }
        assert waitFor + controlBits + EVENT_LIST_ITEM_VALUE_IN_USE == WaitValue(waitFor, clearOnExit, waitForAllBits);
        PlaceOnUnorderedEventList(t, waitFor + controlBits);
        blocked := true;
      }
    }

    /** `xEventGroupSync`, with the scheduler suspended: the bits are set, and then either the rendezvous is
        complete, or the caller blocks. */
    method Sync(t: Task, bitsToSet: Word, waitFor: Word, ticksToWait: nat) returns (blocked: bool, r: Word)
      requires Inv(View()) && Enabled(View(), SyncStep(t, bitsToSet, waitFor, ticksToWait != 0))
      modifies this
      ensures Inv(View()) && View() == Next(old(View()), SyncStep(t, bitsToSet, waitFor, ticksToWait != 0))
      ensures blocked <==> ticksToWait != 0 && (old(uxEventBits) + bitsToSet) * waitFor != waitFor
      ensures !blocked && (old(uxEventBits) + bitsToSet) * waitFor == waitFor ==> r == old(uxEventBits) + bitsToSet
      ensures !blocked && (old(uxEventBits) + bitsToSet) * waitFor != waitFor ==> r == uxEventBits
    {
      InvStep(View(), SyncStep(t, bitsToSet, waitFor, ticksToWait != 0));
      var originalBits := uxEventBits;
      var ignored := SetBits(bitsToSet);
      hide Inv, Unmet, Unblock, ClearMask;
      blocked, r := false, uxEventBits;
      if (originalBits + bitsToSet) * waitFor == waitFor {
        r := originalBits + bitsToSet;
        uxEventBits := uxEventBits - waitFor;
      } else if ticksToWait != 0 {
        assert waitFor + CLEAR_EVENTS_ON_EXIT + WAIT_FOR_ALL + EVENT_LIST_ITEM_VALUE_IN_USE
               == ItemValue(SyncWait(waitFor));
        PlaceOnUnorderedEventList(t, waitFor + CLEAR_EVENTS_ON_EXIT + WAIT_FOR_ALL);
        blocked := true;
      }
    }

    /** A waiter's block time ends. */
    method TimeOut(w: Waiter)
      requires Inv(View())
      modifies this
      ensures Inv(View()) && View() == Next(old(View()), TimeOutStep(w))
    {
      InvStep(View(), TimeOutStep(w));
      hide Inv;
      if w in tasksWaitingForBits {
        tasksWaitingForBits := RemoveAt(tasksWaitingForBits, IndexOf(tasksWaitingForBits, w));
        eventItemValues := eventItemValues[w.task := w.itemValue];
      }
    }

    /** The end of `xEventGroupWaitBits` and of `xEventGroupSync` for a caller that blocked. */
    method Resume(t: Task, wait: Wait) returns (r: Word)
      requires Inv(View()) && Enabled(View(), ResumeStep(t, wait))
      modifies this
      ensures Inv(View()) && View() == Next(old(View()), ResumeStep(t, wait))
      ensures r == ResumeResult(old(View()), t)
      ensures old(eventItemValues)[t] * UNBLOCKED_DUE_TO_BIT_SET == {} ==>
                && r == old(uxEventBits)
                && uxEventBits == if Meets(old(uxEventBits), wait.waitFor, wait.all) && wait.clearOnExit
                                  then old(uxEventBits) - wait.waitFor else old(uxEventBits)
      ensures old(eventItemValues)[t] * UNBLOCKED_DUE_TO_BIT_SET != {} ==>
                uxEventBits == old(uxEventBits) && Meets(r, wait.waitFor, wait.all)
    {
      MeetsExact(uxEventBits, wait);
      ResumeReturnsMetBits(View(), t, wait);
      MeetsExact(ResumeResult(View(), t), wait);
      NoControlBits(uxEventBits);
      InvStep(View(), ResumeStep(t, wait));
      hide Inv;
      r := eventItemValues[t];
      eventItemValues, waits := eventItemValues - {t}, waits - {t};
      if r * UNBLOCKED_DUE_TO_BIT_SET == {} {
        r := uxEventBits;
        if TestWaitCondition(r, wait.waitFor, wait.all) {
          if wait.clearOnExit {
            uxEventBits := uxEventBits - wait.waitFor;
          }
        }
      }
      r := r - EVENT_BITS_CONTROL_BYTES;
    }
  }
}
