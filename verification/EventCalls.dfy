/** What each call on an event group does to its bits and its waiters, told by the arguments of the call alone. */
module EventCalls {
  import opened ListModel
  import opened KernelConfig
  import opened EventGroups

  /** The bits that a wait of these options takes when it is over. */
  function Cleared(w: Wait): Word {
    if w.clearOnExit then w.waitFor else {}
  }

  /** The last waiter is `t`, with this wait. */
  predicate Joined(before: seq<Waiter>, t: Task, w: Wait, after: seq<Waiter>) {
    && |after| == |before| + 1 && after[..|before|] == before && after[|before|].task == t
    && WaitedFor(after[|before|].itemValue) == w.waitFor
    && (after[|before|].itemValue * WAIT_FOR_ALL != {} <==> w.all)
    && ClearRequest(after[|before|].itemValue) == Cleared(w)
  }

  /** A wait that is met takes its bits, if it is to, and touches nobody else; one that is not met leaves the bits
      alone, and its caller joins the waiters if it may. */
  lemma WaitExact(g: Group, t: Task, w: Wait, mayBlock: bool)
    requires Enabled(g, WaitStep(t, w, mayBlock))
    ensures var r := Next(g, WaitStep(t, w, mayBlock));
            && (Meets(g.bits, w.waitFor, w.all) ==> r == g.(bits := g.bits - Cleared(w)))
            && (!Meets(g.bits, w.waitFor, w.all) && !mayBlock ==> r == g)
            && (!Meets(g.bits, w.waitFor, w.all) && mayBlock ==>
                  && r.bits == g.bits && r.values == g.values && r.waits.Keys == g.waits.Keys + {t}
                  && Joined(g.waiters, t, w, r.waiters))
  {
    MeetsExact(g.bits, w);
    WaitValueDecodes(w.waitFor, w.clearOnExit, w.all);
    hide Satisfied, Meets, WaitValue, WaitedFor, ClearRequest;
    assert g.bits - {} == g.bits;
  }

  lemma ClearExact(g: Group, bitsToClear: Word)
    ensures var r := Next(g, ClearStep(bitsToClear));
            && (forall b :: b in r.bits <==> b in g.bits && b !in bitsToClear)
            && r == g.(bits := r.bits)
  {
  }

  /** The rendezvous: the bits are set with all that this entails, and then a caller that finds all of its bits among
      the old and the new takes them; any other joins the waiters if it may. */
  lemma SyncExact(g: Group, t: Task, bitsToSet: Word, waitFor: Word, mayBlock: bool)
    requires Enabled(g, SyncStep(t, bitsToSet, waitFor, mayBlock))
    ensures var r, q := Next(g, SyncStep(t, bitsToSet, waitFor, mayBlock)), Next(g, SetStep(bitsToSet));
            && (waitFor <= g.bits + bitsToSet ==> r == q.(bits := q.bits - waitFor))
            && (!(waitFor <= g.bits + bitsToSet) && !mayBlock ==> r == q)
            && (!(waitFor <= g.bits + bitsToSet) && mayBlock ==>
                  && r.bits == q.bits && r.values == q.values && r.waits.Keys == q.waits.Keys + {t}
                  && Joined(q.waiters, t, Wait(waitFor, true, true), r.waiters))
  {
    hide SetBits, WaitedFor, ClearRequest, WaitValue;
    WaitValueDecodes(waitFor, true, true);
    assert waitFor <= g.bits + bitsToSet <==> (g.bits + bitsToSet) * waitFor == waitFor;
  }

  /** A waiter that times out leaves the list, and nothing else changes. */
  lemma TimeOutExact(g: Group, w: Waiter)
    requires Inv(g) && w in g.waiters
    ensures var r := Next(g, TimeOutStep(w));
            && (forall x :: x in r.waiters <==> x in g.waiters && x.task != w.task)
            && |r.waiters| == |g.waiters| - 1
            && r == g.(waiters := r.waiters, values := g.values[w.task := w.itemValue])
  {
    hide Met, HonestValue;
    var k := IndexOf(g.waiters, w);
    var r := RemoveAt(g.waiters, k);
    forall i | 0 <= i < |r|
      ensures r[i] == g.waiters[if i < k then i else i + 1] && r[i].task != w.task
    {
    }
    forall x | x in g.waiters && x.task != w.task
      ensures x in r
    {
      var i :| 0 <= i < |g.waiters| && g.waiters[i] == x;
      assert r[if i < k then i else i - 1] == x;
    }
  }

  /** A task that runs again after a wait: one that its bits woke leaves the bits alone; one that timed out takes
      them, if it is to and they have come since. */
  lemma ResumeExact(g: Group, t: Task, w: Wait)
    requires Inv(g) && Enabled(g, ResumeStep(t, w))
    ensures var r := Next(g, ResumeStep(t, w));
            && (g.values[t] * UNBLOCKED_DUE_TO_BIT_SET != {} || !Meets(g.bits, w.waitFor, w.all) ==> r.bits == g.bits)
            && (g.values[t] * UNBLOCKED_DUE_TO_BIT_SET == {} && Meets(g.bits, w.waitFor, w.all) ==>
                  r.bits == g.bits - Cleared(w))
            && r == g.(bits := r.bits, values := g.values - {t}, waits := g.waits - {t})
  {
    MeetsExact(g.bits, w);
    hide Inv, Satisfied, Meets, ItemValue;
    assert g.bits - {} == g.bits;
  }
}
