/** The intrusive circular doubly linked list of list.c, at heap level. */
module KernelLists {
  import opened Ticks
  import opened ListModel

  /** A `ListItem_t`; the end marker of a list is one too. */
  class ListItem {
    var itemValue: nat
    var next: ListItem?
    var previous: ListItem?
    var container: KernelList?

    /** `vListInitialiseItem`. */
    constructor (value: Tick)
      ensures container == null && itemValue == value
    {
      itemValue, next, previous, container := value, null, null, null;
    }
  }

  /** The ring position at k, where the end of the sequence is the end marker again. */
  ghost function Around(ring: seq<ListItem>, k: nat): nat
    requires k <= |ring| && ring != []
    ensures Around(ring, k) < |ring|
  {
    if k == |ring| then 0 else k
  }

  ghost predicate Linked(ring: seq<ListItem>)
    requires ring != []
    reads ring
  {
    && (forall i {:trigger ring[i].next} :: 0 <= i < |ring| - 1 ==> ring[i].next == ring[i + 1])
    && (forall i {:trigger ring[i].previous} :: 1 <= i < |ring| ==> ring[i].previous == ring[i - 1])
    && ring[|ring| - 1].next == ring[0]
    && ring[0].previous == ring[|ring| - 1]
  }

  /** The ring is linked, except that the links between ring[p - 1] and ring[q] are not looked at. */
  ghost predicate LinkedExcept(ring: seq<ListItem>, p: nat, q: nat)
    requires 1 <= p <= |ring| && q <= |ring|
    reads ring
  {
    && (forall i {:trigger ring[i].next} :: 0 <= i < |ring| - 1 && !(p - 1 <= i < q) ==> ring[i].next == ring[i + 1])
    && (forall i {:trigger ring[i].previous} :: 1 <= i < |ring| && !(p <= i <= q) ==> ring[i].previous == ring[i - 1])
    && (q != |ring| ==> ring[|ring| - 1].next == ring[0] && ring[0].previous == ring[|ring| - 1])
  }

  /** Splicing x in before position p gives the ring with x inserted there. */
  lemma SpliceIn(ring: seq<ListItem>, p: nat, x: ListItem)
    requires 1 <= p <= |ring| && LinkedExcept(ring, p, p)
    requires ring[p - 1].next == x && x.previous == ring[p - 1]
    requires x.next == ring[Around(ring, p)] && ring[Around(ring, p)].previous == x
    ensures Linked(InsertAt(ring, p, x))
  {
    var r := InsertAt(ring, p, x);
    forall i | 0 <= i < |r| - 1
      ensures r[i].next == r[i + 1]
    {
      if i >= p + 1 {
        assert r[i] == ring[i - 1] && r[i + 1] == ring[i];
      }
    }
    forall i | 1 <= i < |r|
      ensures r[i].previous == r[i - 1]
    {
      if i > p + 1 {
        assert r[i] == ring[i - 1] && r[i - 1] == ring[i - 2];
      }
    }
  }

  /** Bridging over position p gives the ring without the item there. */
  lemma SpliceOut(ring: seq<ListItem>, p: nat)
    requires 1 <= p < |ring| && LinkedExcept(ring, p, p + 1)
    requires ring[p - 1].next == ring[Around(ring, p + 1)]
    requires ring[Around(ring, p + 1)].previous == ring[p - 1]
    ensures Linked(RemoveAt(ring, p))
  {
    var r := RemoveAt(ring, p);
    forall i | 0 <= i < |r| - 1
      ensures r[i].next == r[i + 1]
    {
      if i >= p {
        assert r[i] == ring[i + 1] && r[i + 1] == ring[i + 2];
      }
    }
    forall i | 1 <= i < |r|
      ensures r[i].previous == r[i - 1]
    {
      if i > p {
        assert r[i] == ring[i + 1] && r[i - 1] == ring[i];
      }
    }
  }

  /** Every item of the ring but the end marker says that it is in the list, and carries a tick value. */
  ghost predicate Members(ring: seq<ListItem>, list: KernelList)
    reads ring
  {
    forall i :: 1 <= i < |ring| ==> ring[i].container == list && ring[i].itemValue <= PORT_MAX_DELAY
  }

  lemma MembersInsert(ring: seq<ListItem>, list: KernelList, p: nat, x: ListItem)
    requires Members(ring, list) && 1 <= p <= |ring|
    requires x.container == list && x.itemValue <= PORT_MAX_DELAY
    ensures Members(InsertAt(ring, p, x), list)
  {
    var r := InsertAt(ring, p, x);
    forall i | 1 <= i < |r|
      ensures r[i].container == list && r[i].itemValue <= PORT_MAX_DELAY
    {
      assert r[i] == if i < p then ring[i] else if i == p then x else ring[i - 1];
    }
  }

  lemma MembersRemove(ring: seq<ListItem>, list: KernelList, p: nat)
    requires 1 <= p < |ring|
    requires forall i :: 1 <= i < |ring| && i != p ==> ring[i].container == list && ring[i].itemValue <= PORT_MAX_DELAY
    ensures Members(RemoveAt(ring, p), list)
  {
    var r := RemoveAt(ring, p);
    forall i | 1 <= i < |r|
      ensures r[i].container == list && r[i].itemValue <= PORT_MAX_DELAY
    {
      assert r[i] == ring[if i < p then i else i + 1];
    }
  }

  lemma OnlyAt<T>(ring: seq<T>, k: nat)
    requires NoDuplicates(ring) && k < |ring|
    ensures forall i :: 0 <= i < |ring| && i != k ==> ring[i] != ring[k]
  {
  }

  /** A well-formed ring of a list: an end marker with the largest value, and then the items. */
  ghost predicate IsRing(ring: seq<ListItem>, list: KernelList, end: ListItem)
    reads ring
  {
    && ring != [] && ring[0] == end && end.itemValue == PORT_MAX_DELAY
    && NoDuplicates(ring) && Linked(ring) && Members(ring, list)
  }

  /** x has been spliced into a well-formed ring before position p. */
  ghost predicate SplicedIn(ring: seq<ListItem>, list: KernelList, end: ListItem, p: nat, x: ListItem)
    reads ring, x
  {
    && 1 <= p <= |ring| && ring[0] == end && end.itemValue == PORT_MAX_DELAY
    && NoDuplicates(ring) && x !in ring
    && LinkedExcept(ring, p, p)
    && ring[p - 1].next == x && x.previous == ring[p - 1]
    && x.next == ring[Around(ring, p)] && ring[Around(ring, p)].previous == x
    && Members(ring, list) && x.container == list && x.itemValue <= PORT_MAX_DELAY
  }

  /** Inserting into the ring inserts into the list state. */
  lemma RingInsert<T>(ring: seq<T>, p: nat, x: T, index: nat)
    requires 1 <= p <= |ring| && index < |ring|
    ensures |InsertAt(ring, p, x)| == |ring| + 1
    ensures var index' := if index >= p then index + 1 else index;
            && InsertAt(ring, p, x)[index'] == ring[index]
            && ListState(InsertAt(ring, p, x)[1..], index') == LinkAt(ListState(ring[1..], index), p - 1, x)
  {
    assert InsertAt(ring, p, x)[1..] == InsertAt(ring[1..], p - 1, x);
  }

  lemma AfterInsert(ring: seq<ListItem>, list: KernelList, end: ListItem, p: nat, x: ListItem)
    requires SplicedIn(ring, list, end, p, x)
    ensures IsRing(InsertAt(ring, p, x), list, end)
  {
    SpliceIn(ring, p, x);
    MembersInsert(ring, list, p, x);
    NoDuplicatesInsert(ring, p, x);
  }

  /** The item at position p has been bridged over in a well-formed ring. */
  ghost predicate SplicedOut(ring: seq<ListItem>, list: KernelList, end: ListItem, p: nat)
    reads ring
  {
    && 1 <= p < |ring| && ring[0] == end && end.itemValue == PORT_MAX_DELAY
    && NoDuplicates(ring)
    && LinkedExcept(ring, p, p + 1)
    && ring[p - 1].next == ring[Around(ring, p + 1)] && ring[Around(ring, p + 1)].previous == ring[p - 1]
    && forall i :: 1 <= i < |ring| && i != p ==> ring[i].container == list && ring[i].itemValue <= PORT_MAX_DELAY
  }

  lemma AfterRemove(ring: seq<ListItem>, list: KernelList, end: ListItem, p: nat)
    requires SplicedOut(ring, list, end, p)
    ensures IsRing(RemoveAt(ring, p), list, end)
  {
    SpliceOut(ring, p);
    MembersRemove(ring, list, p);
    NoDuplicatesRemove(ring, p);
  }

  lemma NoDuplicatesTail<T>(ring: seq<T>)
    requires NoDuplicates(ring) && ring != []
    ensures NoDuplicates(ring[1..])
  {
  }

  lemma RemoveItemAt<T>(ring: seq<T>, p: nat, index: nat)
    requires 1 <= p < |ring| && index < |ring|
    ensures |RemoveAt(ring, p)| == |ring| - 1
    ensures var index' := if index >= p then index - 1 else index;
            RemoveAt(ring, p)[index'] == ring[if index == p then p - 1 else index]
  {
  }

  lemma RemoveFromTail<T>(ring: seq<T>, p: nat)
    requires 1 <= p < |ring|
    ensures |RemoveAt(ring, p)| == |ring| - 1
    ensures RemoveAt(ring, p)[1..] == RemoveAt(ring[1..], p - 1)
  {
  }

  /** Removing from the ring removes from the list state. */
  lemma RingRemove<T>(ring: seq<T>, p: nat, index: nat)
    requires NoDuplicates(ring) && 1 <= p < |ring| && index < |ring|
    ensures ring[p] in ring[1..] && |RemoveAt(ring, p)| == |ring| - 1
    ensures var index' := if index >= p then index - 1 else index;
            && RemoveAt(ring, p)[index'] == ring[if index == p then p - 1 else index]
            && ListState(RemoveAt(ring, p)[1..], index') == Remove(ListState(ring[1..], index), ring[p])
  {
    var items := ring[1..];
    NoDuplicatesTail(ring);
    assert items[p - 1] == ring[p];
    IndexOfUnique(items, p - 1);
    hide NoDuplicates, IndexOf;
    RemoveFromTail(ring, p);
    RemoveItemAt(ring, p, index);
    hide RemoveAt;
  }

  class KernelList {
    const listEnd: ListItem
    var index: ListItem
    var numberOfItems: nat

    ghost var ring: seq<ListItem>  // the end marker and then the items
    ghost var indexPosition: nat

    ghost function State(): ListState<ListItem>
      requires ring != []
      reads this
    {
      ListState(ring[1..], indexPosition)
    }

    /** The item values, in ring order. */
    ghost function Values(): seq<nat>
      requires ring != []
      reads this, ring
    {
      seq(|ring| - 1, i requires 0 <= i < |ring| - 1 reads this, ring => ring[i + 1].itemValue)
    }

    ghost predicate Valid()
      reads this, ring
    {
      && IsRing(ring, this, listEnd)
      && indexPosition < |ring| && index == ring[indexPosition]
      && numberOfItems == |ring| - 1
    }

    /** `vListInitialise`. */
    constructor ()
      ensures Valid() && fresh(listEnd)
      ensures State() == ListState([], 0)
    {
      var end := new ListItem(PORT_MAX_DELAY);
      listEnd, index, numberOfItems := end, end, 0;
      ring, indexPosition := [end], 0;
      new;
      listEnd.next, listEnd.previous := listEnd, listEnd;
    }

    /** x has been spliced into the ring before position p: bring the ghost view up to date. */
    ghost method Adopt(p: nat, x: ListItem)
      requires 1 <= p <= |ring| && SplicedIn(ring, this, listEnd, p, x)
      requires indexPosition < |ring| && index == ring[indexPosition]
      requires numberOfItems == |ring|
      modifies this`ring, this`indexPosition
      ensures Valid() && State() == LinkAt(old(State()), p - 1, x)
    {
      hide SplicedIn, IsRing, InsertAt;
      AfterInsert(ring, this, listEnd, p, x);
      RingInsert(ring, p, x, indexPosition);
      ring, indexPosition := InsertAt(ring, p, x), if indexPosition >= p then indexPosition + 1 else indexPosition;
    }

    /** The item at position p has been bridged over: bring the ghost view up to date. */
    ghost method Disown(p: nat)
      requires 1 <= p < |ring| && NoDuplicates(ring) && SplicedOut(ring, this, listEnd, p)
      requires indexPosition < |ring| && index == ring[if indexPosition == p then p - 1 else indexPosition]
      requires numberOfItems == |ring| - 2
      modifies this`ring, this`indexPosition
      ensures Valid() && State() == Remove(old(State()), old(ring[p]))
    {
      hide SplicedOut, IsRing, NoDuplicates, RemoveAt, Remove;
      AfterRemove(ring, this, listEnd, p);
      RingRemove(ring, p, indexPosition);
      ring, indexPosition := RemoveAt(ring, p), if indexPosition >= p then indexPosition - 1 else indexPosition;
    }

    /** The pointer writes of `vListInsertEnd`: x goes in before `at`. */
    static method SpliceBefore(at: ListItem, x: ListItem, ghost ring: seq<ListItem>, ghost p: nat)
      requires ring != [] && Linked(ring) && x !in ring
      requires 1 <= p <= |ring| && at == ring[Around(ring, p)]
      requires forall i :: 0 <= i < |ring| && i != p - 1 ==> ring[i] != ring[p - 1]
      requires forall i :: 0 <= i < |ring| && i != Around(ring, p) ==> ring[i] != at
      modifies ring`next, ring`previous, x`next, x`previous
      ensures LinkedExcept(ring, p, p)
      ensures ring[p - 1].next == x && x.previous == ring[p - 1] && x.next == at && at.previous == x
    {
      ghost var before := ring[p - 1];
      assert at.previous == before;
      x.next := at;
      x.previous := at.previous;
      at.previous.next := x;
      at.previous := x;
    }

    /** The pointer writes of `vListInsert`: x goes in after `cursor`. */
    static method SpliceAfter(cursor: ListItem, x: ListItem, ghost ring: seq<ListItem>, ghost p: nat)
      requires ring != [] && Linked(ring) && x !in ring
      requires 1 <= p <= |ring| && cursor == ring[p - 1]
      requires forall i :: 0 <= i < |ring| && i != p - 1 ==> ring[i] != cursor
      requires forall i :: 0 <= i < |ring| && i != Around(ring, p) ==> ring[i] != ring[Around(ring, p)]
      modifies ring`next, ring`previous, x`next, x`previous
      ensures LinkedExcept(ring, p, p)
      ensures cursor.next == x && x.previous == cursor
      ensures x.next == ring[Around(ring, p)] && ring[Around(ring, p)].previous == x
    {
      ghost var after := ring[Around(ring, p)];
      assert cursor.next == after;
      x.next := cursor.next;
      x.next.previous := x;
      x.previous := cursor;
      cursor.next := x;
    }

    /** The item writes of `uxListRemove`: the neighbours of x bridge over it, and x is in no list. */
    static method Bridge(x: ListItem, ghost ring: seq<ListItem>, ghost p: nat)
      requires ring != [] && Linked(ring)
      requires 1 <= p < |ring| && x == ring[p]
      requires forall i :: 0 <= i < |ring| && i != p - 1 ==> ring[i] != ring[p - 1]
      requires forall i :: 0 <= i < |ring| && i != Around(ring, p + 1) ==> ring[i] != ring[Around(ring, p + 1)]
      modifies ring`next, ring`previous, x`container
      ensures LinkedExcept(ring, p, p + 1)
      ensures ring[p - 1].next == ring[Around(ring, p + 1)] && ring[Around(ring, p + 1)].previous == ring[p - 1]
      ensures x.previous == ring[p - 1] && x.container == null
    {
      ghost var before, after := ring[p - 1], ring[Around(ring, p + 1)];
      assert x.next == after && x.previous == before;
      x.next.previous := x.previous;
      x.previous.next := x.next;
      x.container := null;
    }

    /** `vListInsertEnd`. */
    method InsertEnd(x: ListItem)
      requires Valid() && x !in ring && x.itemValue <= PORT_MAX_DELAY
      modifies this`ring, this`indexPosition, this`numberOfItems
      modifies ring`next, ring`previous, x`next, x`previous, x`container
      ensures Valid()
      ensures State() == ListModel.InsertEnd(old(State()), x)
      ensures index == old(index)
    {
      hide NoDuplicates, Linked, LinkedExcept, InsertAt, RemoveAt;
      ghost var p := if indexPosition == 0 then |ring| else indexPosition;
      OnlyAt(ring, p - 1);
      OnlyAt(ring, Around(ring, p));
      SpliceBefore(index, x, ring, p);
      x.container := this;
      numberOfItems := numberOfItems + 1;
      Adopt(p, x);
    }

    /** `vListInsert`: the item goes after every item whose value does not exceed its own. */
    method Insert(x: ListItem)
      requires Valid() && x !in ring && x.itemValue <= PORT_MAX_DELAY
      modifies this`ring, this`indexPosition, this`numberOfItems
      modifies ring`next, ring`previous, x`next, x`previous, x`container
      ensures Valid()
      ensures State() == LinkAt(old(State()), InsertPosition(old(Values()), x.itemValue), x)
      ensures index == old(index)
    {
      ghost var p := 1;
      var cursor: ListItem;
      if x.itemValue == PORT_MAX_DELAY {
        cursor := listEnd.previous;
        p := |ring|;
      } else {
        cursor := listEnd;
        while cursor.next.itemValue <= x.itemValue
          invariant 1 <= p <= |ring| && cursor == ring[p - 1]
          invariant forall i :: 1 <= i < p ==> ring[i].itemValue <= x.itemValue
          invariant cursor.next == ring[Around(ring, p)]
          decreases |ring| - p
        {
          cursor := cursor.next;
          p := p + 1;
        }
      }
      InsertPositionUnique(Values(), x.itemValue, p - 1);
      LinkAfter(cursor, x, p);
    }

    /** The four pointer writes at the end of `vListInsert`, its container and its count. */
    method LinkAfter(cursor: ListItem, x: ListItem, ghost p: nat)
      requires Valid() && x !in ring && x.itemValue <= PORT_MAX_DELAY
      requires 1 <= p <= |ring| && cursor == ring[p - 1]
      modifies this`ring, this`indexPosition, this`numberOfItems
      modifies ring`next, ring`previous, x`next, x`previous, x`container
      ensures Valid()
      ensures State() == LinkAt(old(State()), p - 1, x)
      ensures index == old(index)
    {
      hide NoDuplicates, Linked, LinkedExcept, InsertAt, RemoveAt;
      OnlyAt(ring, p - 1);
      OnlyAt(ring, Around(ring, p));
      SpliceAfter(cursor, x, ring, p);
      x.container := this;
      numberOfItems := numberOfItems + 1;
      Adopt(p, x);
    }

    /** `listGET_OWNER_OF_NEXT_ENTRY`. */
    method GetOwnerOfNextEntry() returns (x: ListItem)
      requires Valid() && numberOfItems > 0
      modifies `index, `indexPosition
      ensures Valid()
      ensures State() == Advance(old(State())) && x == EntryAt(State())
    {
      assert index.next == ring[Around(ring, indexPosition + 1)];
      index := index.next;
      indexPosition := Around(ring, indexPosition + 1);
      if index == listEnd {
        assert listEnd.next == ring[1];
        index := listEnd.next;
        indexPosition := 1;
      }
      x := index;
    }

    /** The body of `uxListRemove` once the list has been found. */
    method Unlink(x: ListItem, ghost p: nat)
      requires Valid() && 1 <= p < |ring| && ring[p] == x
      modifies this`ring, this`indexPosition, this`numberOfItems, this`index
      modifies ring`next, ring`previous, x`container
      ensures Valid()
      ensures State() == Remove(old(State()), x)
      ensures x.container == null
    {
      hide NoDuplicates, Linked, LinkedExcept, RemoveAt;
      OnlyAt(ring, p - 1);
      OnlyAt(ring, p);
      OnlyAt(ring, Around(ring, p + 1));
      Bridge(x, ring, p);
      if index == x {
        index := x.previous;
      }
      numberOfItems := numberOfItems - 1;
      Disown(p);
    }
  }

  /** `uxListRemove`: the list is found through the item itself. */
  method RemoveItem(x: ListItem) returns (remaining: nat)
    requires x.container != null && x.container.Valid() && x in x.container.State().items
    modifies x.container`ring, x.container`indexPosition, x.container`numberOfItems, x.container`index
    modifies x.container.ring`next, x.container.ring`previous, x`container
    ensures var l := old(x.container);
            l.Valid() && l.State() == Remove(old(x.container.State()), x) && remaining == |l.State().items|
    ensures x.container == null
  {
    var l := x.container;
    l.Unlink(x, 1 + IndexOf(l.ring[1..], x));
    remaining := l.numberOfItems;
  }
}
