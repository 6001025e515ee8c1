/** `xEventGroupSync` as a reusable barrier: every participant sets bits of its own and waits for everyone's. */
module Rendezvous {
  import opened KernelConfig
  import opened EventGroups

  /** The participants' masks: non-empty, and no two share a bit. */
  ghost predicate ValidMasks(masks: seq<Word>) {
    && (forall i :: 0 <= i < |masks| ==> masks[i] != {} && IsEventBits(masks[i]))
    && (forall i, j :: 0 <= i < j < |masks| ==> masks[i] !! masks[j])
  }

  function All(masks: seq<Word>): Word {
    if masks == [] then {} else All(masks[..|masks| - 1]) + masks[|masks| - 1]
  }

  /** The group, and how many rendezvous each participant has completed; participant i is task i. */
  datatype Barrier = Barrier(group: Group, completed: seq<nat>)

  datatype Step =
    | Arrive(participant: nat)  // a call of xEventGroupSync, up to where it blocks or returns
    | Return(participant: nat)  // a released participant runs again and its call returns

  ghost predicate Waiting(g: Group, i: nat) {
    exists w :: w in g.waiters && w.task == i
  }

  /** A participant arrives when it is not inside a call, and returns when it has been released. */
  ghost predicate Enabled(masks: seq<Word>, b: Barrier, step: Step) {
    step.participant < |b.completed| == |masks| &&
    match step
    case Arrive(i) => i !in b.group.waits
    case Return(i) => i in b.group.values
  }

  /** Each round is a `SyncStep`, without time-outs; no one else touches the group. */
  function Next(masks: seq<Word>, b: Barrier, step: Step): Barrier
    requires step.participant < |b.completed| == |masks|
    requires step.Return? ==> step.participant in b.group.values
  {
    var i, all := step.participant, All(masks);
    match step
    case Arrive(i) =>
      var complete := (b.group.bits + masks[i]) * all == all;
      Barrier(Sync(b.group, i, masks[i], all, true),
              if complete then b.completed[i := b.completed[i] + 1] else b.completed)
    case Return(i) =>
      Barrier(Resume(b.group, i, SyncWait(all)), b.completed[i := b.completed[i] + 1])
  }

  /** After `rounds` releases: a participant that waits, or is between calls, has completed every round; one
      that is released but has not run again has yet to complete the last. */
  ghost predicate BarrierInv(masks: seq<Word>, b: Barrier, rounds: nat) {
    var all, g := All(masks), b.group;
    && ValidMasks(masks) && |b.completed| == |masks| && Inv(g)
    && (forall w :: w in g.waiters ==> w.task < |masks| && w.itemValue == ItemValue(SyncWait(all)))
    && (forall t :: t in g.values ==> t < |masks| && g.values[t] == Snapshot(all))
    && (forall t :: t in g.waits <==> t in g.values || Waiting(g, t))
    && (forall t :: t in g.waits ==> g.waits[t] == ItemValue(SyncWait(all)))
    && (forall bit :: bit in g.bits <==> exists i :: 0 <= i < |masks| && Waiting(g, i) && bit in masks[i])
    && (forall i :: 0 <= i < |masks| ==> b.completed[i] + (if i in g.values then 1 else 0) == rounds)
  }

  lemma {:induction false} AllExact(masks: seq<Word>, bit: nat)
    ensures bit in All(masks) <==> exists i :: 0 <= i < |masks| && bit in masks[i]
  {
    if masks != [] {
      var n := |masks| - 1;
      AllExact(masks[..n], bit);
      assert forall i :: 0 <= i < n ==> masks[..n][i] == masks[i];
      if bit in masks[n] {
        assert 0 <= n < |masks|;
      } else if bit in All(masks[..n]) {
        var i :| 0 <= i < n && bit in masks[..n][i];
        assert bit in masks[i];
      }
    }
  }

  lemma AllIsUnion(masks: seq<Word>)
    requires ValidMasks(masks)
    ensures forall bit :: bit in All(masks) <==> exists i :: 0 <= i < |masks| && bit in masks[i]
    ensures IsEventBits(All(masks))
  {
    forall bit
      ensures bit in All(masks) <==> exists i :: 0 <= i < |masks| && bit in masks[i]
    {
      AllExact(masks, bit);
    }
  }

  lemma DisjointMasks(masks: seq<Word>, i: nat, j: nat, bit: nat)
    requires ValidMasks(masks) && i < |masks| && j < |masks| && bit in masks[i] && bit in masks[j]
    ensures i == j
  {
  }

  /** When all waiters wait for the same, a set either releases all of them or none. */
  lemma {:induction false} SameWaiters(waiters: seq<Waiter>, value: Word, bits: Word, values: map<Task, Word>)
    requires forall w :: w in waiters ==> w.itemValue == value
    ensures if Met(bits, value)
            then
              Unmet(waiters, bits) == []
              && ClearMask(waiters, bits) == (if waiters == [] then {} else ClearRequest(value))
            else
              Unmet(waiters, bits) == waiters && ClearMask(waiters, bits) == {}
              && Unblock(waiters, bits, values) == values
  {
    hide Met, ClearRequest, Snapshot;
    if waiters != [] {
      var n := |waiters| - 1;
      assert forall w :: w in waiters[..n] ==> w in waiters;
      SameWaiters(waiters[..n], value, bits, values);
      assert waiters[n] in waiters;
      assert waiters == waiters[..n] + [waiters[n]];
    }
  }

  /** The encoded wait of a participant is met exactly by bits that contain everyone's. */
  lemma SyncMet(bits: Word, all: Word)
    requires IsEventBits(all)
    ensures Met(bits, ItemValue(SyncWait(all))) <==> bits * all == all
    ensures ClearRequest(ItemValue(SyncWait(all))) == all
  {
    WaitValueDecodes(all, true, true);
  }

  /** The rendezvous is complete only when every other participant waits, so nobody is still to return. */
  lemma CompleteMeansOthersWait(masks: seq<Word>, b: Barrier, rounds: nat, i: nat, j: nat)
    requires BarrierInv(masks, b, rounds) && i < |masks| && j < |masks| && i != j
    requires (b.group.bits + masks[i]) * All(masks) == All(masks)
    ensures Waiting(b.group, j) && j !in b.group.values
  {
    hide Inv;
    AllIsUnion(masks);
    var bit :| bit in masks[j];
    assert bit in All(masks);
    assert bit in (b.group.bits + masks[i]) * All(masks);
    if bit in masks[i] {
      DisjointMasks(masks, i, j, bit);
    }
    var k :| 0 <= k < |masks| && Waiting(b.group, k) && bit in masks[k];
    DisjointMasks(masks, j, k, bit);
    WaitersHaveNoValues(b.group);
  }

  lemma WaitersHaveNoValues(g: Group)
    requires Inv(g)
    ensures forall t :: Waiting(g, t) ==> t !in g.values
  {
  }

  /** The last arrival releases every waiter with all the bits, and leaves the group empty. */
  lemma SyncLast(g: Group, i: nat, mask: Word, all: Word)
    requires Inv(g) && IsEventBits(all) && g.bits + mask == all
    requires forall w :: w in g.waiters ==> w.itemValue == ItemValue(SyncWait(all))
    ensures var r := Sync(g, i, mask, all, true);
            && r.bits == {} && r.waiters == [] && r.waits == g.waits
            && (forall t :: t in r.values <==> t in g.values || Waiting(g, t))
            && (forall t :: t in r.values ==> r.values[t] == if Waiting(g, t) then Snapshot(all) else g.values[t])
  {
    hide WaitValue, Snapshot, Unblock;
    SyncMet(all, all);
    assert all * all == all;
    SameWaiters(g.waiters, ItemValue(SyncWait(all)), all, g.values);
    var r := Sync(g, i, mask, all, true);
    forall t
      ensures t in r.values <==> t in g.values || Waiting(g, t)
      ensures t in r.values ==> r.values[t] == if Waiting(g, t) then Snapshot(all) else g.values[t]
    {
      UnblockExact(g.waiters, all, g.values, t);
    }
  }

  /** An earlier arrival releases nobody and joins the waiters. */
  lemma SyncEarly(g: Group, i: nat, mask: Word, all: Word)
    requires IsEventBits(all) && (g.bits + mask) * all != all
    requires forall w :: w in g.waiters ==> w.itemValue == ItemValue(SyncWait(all))
    ensures Sync(g, i, mask, all, true) ==
            Group(g.bits + mask, g.waiters + [Waiter(i, ItemValue(SyncWait(all)))], g.values,
                  g.waits[i := ItemValue(SyncWait(all))])
  {
    hide WaitValue, Snapshot, Unblock;
    SyncMet(g.bits + mask, all);
    SameWaiters(g.waiters, ItemValue(SyncWait(all)), g.bits + mask, g.values);
  }

  /** When the rendezvous is complete, everyone but the last arrival waits, and nobody is still to return. */
  lemma EveryoneElseWaits(masks: seq<Word>, b: Barrier, rounds: nat, i: nat)
    requires BarrierInv(masks, b, rounds) && Enabled(masks, b, Arrive(i))
    requires (b.group.bits + masks[i]) * All(masks) == All(masks)
    ensures b.group.bits + masks[i] == All(masks)
    ensures b.group.values == map[]
    ensures forall j :: 0 <= j < |masks| ==> (Waiting(b.group, j) <==> j != i)
  {
    hide Inv, Sync, ItemValue, Snapshot, All;
    AllIsUnion(masks);
    forall j | 0 <= j < |masks| && j != i
      ensures Waiting(b.group, j) && j !in b.group.values
    {
      CompleteMeansOthersWait(masks, b, rounds, i, j);
    }
    assert b.group.values.Keys == {};
  }

  lemma ArriveLast(masks: seq<Word>, b: Barrier, rounds: nat, i: nat)
    requires BarrierInv(masks, b, rounds) && Enabled(masks, b, Arrive(i))
    requires (b.group.bits + masks[i]) * All(masks) == All(masks)
    ensures BarrierInv(masks, Next(masks, b, Arrive(i)), rounds + 1)
  {
    hide Inv, Sync, ItemValue, Snapshot, All, Waiting;
    var all, g := All(masks), b.group;
    EveryoneElseWaits(masks, b, rounds, i);
    AllIsUnion(masks);
    NotEmpty(masks, i);
    var r := Sync(g, i, masks[i], all, true);
    assert Inv(r) by {
      InvStep(g, SyncStep(i, masks[i], all, true));
    }
    SyncLast(g, i, masks[i], all);
    WaitersAre(masks, b, rounds);
    ReleasedInv(masks, b, rounds, i, r);
  }

  lemma WaitersAre(masks: seq<Word>, b: Barrier, rounds: nat)
    requires BarrierInv(masks, b, rounds)
    ensures forall t: nat :: Waiting(b.group, t) ==> t < |masks|
  {
  }

  /** The state after a release: everyone but the last arrival has yet to return. */
  lemma ReleasedInv(masks: seq<Word>, b: Barrier, rounds: nat, i: nat, r: Group)
    requires BarrierInv(masks, b, rounds) && i < |masks| && i !in b.group.waits && b.group.values == map[]
    requires Inv(r) && r.bits == {} && r.waiters == [] && r.waits == b.group.waits
    requires forall t :: t in r.values <==> Waiting(b.group, t)
    requires forall t: nat :: Waiting(b.group, t) ==> t < |masks|
    requires forall t :: t in r.values ==> r.values[t] == Snapshot(All(masks))
    requires forall j :: 0 <= j < |masks| ==> (Waiting(b.group, j) <==> j != i)
    ensures BarrierInv(masks, Barrier(r, b.completed[i := b.completed[i] + 1]), rounds + 1)
  {
    hide Inv, Sync, ItemValue, Snapshot, All;
    assert forall t :: !Waiting(r, t);
    hide Waiting;
  }

  lemma NotEmpty(masks: seq<Word>, i: nat)
    requires ValidMasks(masks) && i < |masks|
    ensures All(masks) != {} && IsEventBits(masks[i])
  {
    var bit :| bit in masks[i];
    AllExact(masks, bit);
  }

  lemma ArriveEarly(masks: seq<Word>, b: Barrier, rounds: nat, i: nat)
    requires BarrierInv(masks, b, rounds) && Enabled(masks, b, Arrive(i))
    requires (b.group.bits + masks[i]) * All(masks) != All(masks)
    ensures BarrierInv(masks, Next(masks, b, Arrive(i)), rounds)
  {
    hide Inv, Sync, ItemValue, Snapshot, All;
    var all, g := All(masks), b.group;
    AllIsUnion(masks);
    assert Inv(Sync(g, i, masks[i], all, true)) by {
      NotEmpty(masks, i);
      InvStep(g, SyncStep(i, masks[i], all, true));
    }
    SyncEarly(g, i, masks[i], all);
    var r := Next(masks, b, Arrive(i)).group;
    assert r.waiters[|g.waiters|] in r.waiters;
    assert forall w :: w in g.waiters ==> w in r.waiters;
    assert forall t :: Waiting(r, t) <==> Waiting(g, t) || t == i;
  }

  lemma ReturnOne(masks: seq<Word>, b: Barrier, rounds: nat, i: nat)
    requires BarrierInv(masks, b, rounds) && Enabled(masks, b, Return(i))
    ensures BarrierInv(masks, Next(masks, b, Return(i)), rounds)
    ensures ResumeResult(b.group, i) == All(masks)
  {
    var all, g := All(masks), b.group;
    AllIsUnion(masks);
    SnapshotDecodes(all);
    InvStep(g, ResumeStep(i, SyncWait(all)));
    WaitersHaveNoValues(g);
    var r := Next(masks, b, Return(i)).group;
    assert forall t :: Waiting(r, t) <==> Waiting(g, t);
  }

  ghost predicate CanRun(masks: seq<Word>, b: Barrier, steps: seq<Step>)
    decreases |steps|
  {
    steps == [] || (Enabled(masks, b, steps[0]) && CanRun(masks, Next(masks, b, steps[0]), steps[1..]))
  }

  ghost function After(masks: seq<Word>, b: Barrier, steps: seq<Step>): Barrier
    requires CanRun(masks, b, steps)
    decreases |steps|
  {
    if steps == [] then b else After(masks, Next(masks, b, steps[0]), steps[1..])
  }

  lemma {:induction false} BarrierAlways(masks: seq<Word>, b: Barrier, rounds: nat, steps: seq<Step>)
    returns (later: nat)
    requires BarrierInv(masks, b, rounds) && CanRun(masks, b, steps)
    ensures BarrierInv(masks, After(masks, b, steps), later) && later >= rounds
    decreases |steps|
  {
    later := rounds;
    if steps != [] {
      var r := Next(masks, b, steps[0]);
      var now := rounds;
      match steps[0] {
        case Arrive(i) =>
          if (b.group.bits + masks[i]) * All(masks) == All(masks) {
            ArriveLast(masks, b, rounds, i);
            now := rounds + 1;
          } else {
            ArriveEarly(masks, b, rounds, i);
          }
        case Return(i) =>
          ReturnOne(masks, b, rounds, i);
      }
      later := BarrierAlways(masks, r, now, steps[1..]);
    }
  }

  function Start(n: nat): Barrier {
    Barrier(Group({}, [], map[], map[]), seq(n, _ => 0))
  }

  /** The barrier is safe to reuse for any number of rounds and under any interleaving: the group's bits are
      exactly the bits of the participants that wait, and no participant is ever more than one round ahead of
      another. */
  lemma ReusableBarrier(masks: seq<Word>, steps: seq<Step>, i: nat, j: nat)
    requires ValidMasks(masks) && CanRun(masks, Start(|masks|), steps)
    requires i < |masks| && j < |masks|
    ensures var b := After(masks, Start(|masks|), steps);
            && (forall bit :: bit in b.group.bits <==>
                                exists k :: 0 <= k < |masks| && Waiting(b.group, k) && bit in masks[k])
            && |b.completed| == |masks|
            && b.completed[i] <= b.completed[j] + 1
  {
    var rounds := BarrierAlways(masks, Start(|masks|), 0, steps);
  }
}
