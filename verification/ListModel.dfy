/** What a kernel list is, as a value: its items in ring order after the end marker, and the position of
    `pxIndex`.  Index 0 is the end marker, index k > 0 is the k-th item. */
module ListModel {

  datatype ListState<T> = ListState(items: seq<T>, index: nat) {

    ghost predicate Valid() {
      index <= |items| && NoDuplicates(items)
    }

    /** The items in the order in which successive next-entry calls return them. */
    function VisitOrder(): seq<T>
      requires index <= |items|
    {
      items[index..] + items[..index]
    }
  }

  ghost predicate NoDuplicates<T>(items: seq<T>) {
    forall i, j :: 0 <= i < j < |items| ==> items[i] != items[j]
  }

  function InsertAt<T>(items: seq<T>, position: nat, x: T): seq<T>
    requires position <= |items|
  {
    items[..position] + [x] + items[position..]
  }

  function RemoveAt<T>(items: seq<T>, position: nat): seq<T>
    requires position < |items|
  {
    items[..position] + items[position + 1..]
  }

  /** The items without one of them, or all of them when it is not there. */
  function Without<T(==)>(items: seq<T>, x: T): seq<T> {
    if x in items then RemoveAt(items, IndexOf(items, x)) else items
  }

  function IndexOf<T(==)>(items: seq<T>, x: T): (k: nat)
    requires x in items
    ensures k < |items| && items[k] == x
    ensures x !in items[..k]
  {
    if items[0] == x then 0 else 1 + IndexOf(items[1..], x)
  }

  /** `vListInsert` and `vListInsertEnd` link the new item in at a position; the index keeps its item. */
  function LinkAt<T>(s: ListState<T>, position: nat, x: T): ListState<T>
    requires position <= |s.items|
  {
    ListState(InsertAt(s.items, position, x), if s.index > position then s.index + 1 else s.index)
  }

  /** `vListInsertEnd` links the new item in just before the index. */
  function InsertEnd<T>(s: ListState<T>, x: T): ListState<T>
    requires s.index <= |s.items|
  {
    LinkAt(s, if s.index == 0 then |s.items| else s.index - 1, x)
  }

  /** `uxListRemove`; when the indexed item goes, the index steps back to its predecessor. */
  function Remove<T(==)>(s: ListState<T>, x: T): ListState<T>
    requires x in s.items
  {
    var k := IndexOf(s.items, x);
    ListState(RemoveAt(s.items, k), if s.index > k then s.index - 1 else s.index)
  }

  /** `listGET_OWNER_OF_NEXT_ENTRY`: the index advances, skipping the end marker. */
  function Advance<T>(s: ListState<T>): ListState<T>
    requires s.items != []
  {
    s.(index := if s.index < |s.items| then s.index + 1 else 1)
  }

  /** How many leading values do not exceed `v`: where `vListInsert` puts an item of value `v`. */
  function InsertPosition(values: seq<int>, v: int): (k: nat)
    ensures k <= |values|
    ensures forall i :: 0 <= i < k ==> values[i] <= v
    ensures k < |values| ==> values[k] > v
  {
    if values == [] || values[0] > v then 0 else 1 + InsertPosition(values[1..], v)
  }

  lemma InsertPositionUnique(values: seq<int>, v: int, k: nat)
    requires k <= |values|
    requires forall i :: 0 <= i < k ==> values[i] <= v
    requires k < |values| ==> values[k] > v
    ensures k == InsertPosition(values, v)
  {
  }

  ghost predicate Sorted(values: seq<nat>) {
    forall i, j :: 0 <= i < j < |values| ==> values[i] <= values[j]
  }

  /** Insertion into a sorted list keeps it sorted and is stable: the new value goes after every value that
      does not exceed it and before every larger one. */
  lemma SortedInsertIsStable(values: seq<nat>, v: nat)
    requires Sorted(values)
    ensures Sorted(InsertAt(values, InsertPosition(values, v), v))
    ensures forall i :: 0 <= i < |values| ==> (i < InsertPosition(values, v) <==> values[i] <= v)
  {
    var k := InsertPosition(values, v);
    forall i | k <= i < |values|
      ensures values[i] > v
    {
      assert values[k] <= values[i];
    }
  }

  lemma NoDuplicatesInsert<T>(items: seq<T>, position: nat, x: T)
    requires NoDuplicates(items) && x !in items && position <= |items|
    ensures NoDuplicates(InsertAt(items, position, x))
    ensures forall y :: y in InsertAt(items, position, x) <==> y == x || y in items
  {
    var r := InsertAt(items, position, x);
    forall y | y in items
      ensures y in r
    {
      var i :| 0 <= i < |items| && items[i] == y;
      assert r[if i < position then i else i + 1] == y;
    }
    assert r[position] == x;
    forall y | y in r
      ensures y == x || y in items
    {
    }
    forall i, j | 0 <= i < j < |r|
      ensures r[i] != r[j]
    {
      assert i != position ==> r[i] == items[if i < position then i else i - 1];
      assert j != position ==> r[j] == items[if j < position then j else j - 1];
    }
  }

  lemma NoDuplicatesRemove<T>(items: seq<T>, position: nat)
    requires NoDuplicates(items) && position < |items|
    ensures NoDuplicates(RemoveAt(items, position))
    ensures forall y :: y in RemoveAt(items, position) <==> y != items[position] && y in items
  {
    var r := RemoveAt(items, position);
    forall y | y in items && y != items[position]
      ensures y in r
    {
      var i :| 0 <= i < |items| && items[i] == y;
      assert r[if i < position then i else i - 1] == y;
    }
    forall i | 0 <= i < |r|
      ensures r[i] == items[if i < position then i else i + 1] && r[i] != items[position]
    {
    }
  }

  /** The states and items of n next-entry calls in a row. */
  function AdvanceMany<T>(s: ListState<T>, n: nat): (r: ListState<T>)
    requires s.items != []
    ensures r.items == s.items
  {
    if n == 0 then s else Advance(AdvanceMany(s, n - 1))
  }

  function EntryAt<T>(s: ListState<T>): T
    requires 0 < s.index <= |s.items|
  {
    s.items[s.index - 1]
  }

  lemma {:induction false} AdvanceManyIndex<T>(s: ListState<T>, n: nat)
    requires s.items != [] && s.index <= |s.items| && n <= |s.items|
    ensures AdvanceMany(s, n).index == if s.index + n <= |s.items| then s.index + n else s.index + n - |s.items|
  {
    if n > 0 {
      AdvanceManyIndex(s, n - 1);
    }
  }

  lemma VisitOrderAt<T>(s: ListState<T>, i: nat)
    requires s.index <= |s.items| && i < |s.items|
    ensures |s.VisitOrder()| == |s.items|
    ensures var d := |s.items| - s.index;
            s.VisitOrder()[i] == s.items[if i < d then s.index + i else i - d]
  {
  }

  lemma VisitOrderNoDuplicates<T>(s: ListState<T>)
    requires s.Valid()
    ensures NoDuplicates(s.VisitOrder())
    ensures multiset(s.VisitOrder()) == multiset(s.items)
  {
    forall i | 0 <= i < |s.items|
      ensures var d := |s.items| - s.index;
              s.VisitOrder()[i] == s.items[if i < d then s.index + i else i - d]
    {
      VisitOrderAt(s, i);
    }
    assert s.items == s.items[..s.index] + s.items[s.index..];
  }

  /** Successive next-entry calls on an unchanged list go through the visiting order, so |items| of them
      return every item exactly once, and then start over in the same order. */
  lemma RoundVisitsEachOnce<T>(s: ListState<T>, n: nat)
    requires s.Valid() && 0 < n <= |s.items|
    ensures var r := AdvanceMany(s, n);
            0 < r.index <= |s.items| && EntryAt(r) == s.VisitOrder()[n - 1]
    ensures NoDuplicates(s.VisitOrder()) && multiset(s.VisitOrder()) == multiset(s.items)
    ensures n == |s.items| ==> AdvanceMany(s, n).VisitOrder() == s.VisitOrder()
  {
    AdvanceManyIndex(s, n);
    VisitOrderAt(s, n - 1);
    VisitOrderNoDuplicates(s);
  }

  lemma IndexOfUnique<T>(items: seq<T>, k: nat)
    requires NoDuplicates(items) && k < |items|
    ensures IndexOf(items, items[k]) == k
  {
  }

  /** Removing an item leaves the visiting order of the others as it was. */
  lemma RemoveKeepsVisitOrder<T>(s: ListState<T>, x: T)
    requires s.Valid() && x in s.items
    ensures Remove(s, x).Valid()
    ensures x in s.VisitOrder()
    ensures Remove(s, x).VisitOrder() == RemoveAt(s.VisitOrder(), IndexOf(s.VisitOrder(), x))
  {
    var k := IndexOf(s.items, x);
    var p := if k < s.index then |s.items| - s.index + k else k - s.index;
    assert NoDuplicates(RemoveAt(s.items, k)) by {
      NoDuplicatesRemove(s.items, k);
    }
    assert s.VisitOrder()[p] == x by {
      VisitOrderAt(s, p);
    }
    assert IndexOf(s.VisitOrder(), x) == p by {
      VisitOrderNoDuplicates(s);
      IndexOfUnique(s.VisitOrder(), p);
    }
    RemoveFromRotation(s, k);
  }

  lemma RemoveFromRotation<T>(s: ListState<T>, k: nat)
    requires s.index <= |s.items| && k < |s.items|
    ensures var p := if k < s.index then |s.items| - s.index + k else k - s.index;
            ListState(RemoveAt(s.items, k), if s.index > k then s.index - 1 else s.index).VisitOrder()
            == RemoveAt(s.VisitOrder(), p)
  {
    var front, back := s.items[..s.index], s.items[s.index..];
    assert s.items == front + back;
    if k < s.index {
      RemoveInFirst(front, back, k);
      RemoveInSecond(back, front, k);
    } else {
      RemoveInSecond(front, back, k - s.index);
      RemoveInFirst(back, front, k - s.index);
    }
  }

  lemma RemoveInFirst<T>(a: seq<T>, b: seq<T>, k: nat)
    requires k < |a|
    ensures RemoveAt(a + b, k) == RemoveAt(a, k) + b
  {
  }

  lemma RemoveInSecond<T>(a: seq<T>, b: seq<T>, k: nat)
    requires k < |b|
    ensures RemoveAt(a + b, |a| + k) == a + RemoveAt(b, k)
  {
  }

  /** An item inserted at the end is returned after every item already in the list, except the one that
      the index points at, which was returned last and stays last. */
  lemma InsertEndVisitsLast<T>(s: ListState<T>, x: T)
    requires s.Valid() && x !in s.items
    ensures InsertEnd(s, x).Valid()
    ensures var order := s.VisitOrder();
            InsertEnd(s, x).VisitOrder() ==
            if s.index == 0 then order + [x] else InsertAt(order, |order| - 1, x)
  {
    NoDuplicatesInsert(s.items, if s.index == 0 then |s.items| else s.index - 1, x);
    if s.index == 0 {
      assert InsertEnd(s, x).VisitOrder() == s.VisitOrder() + [x];
    } else {
      assert InsertEnd(s, x).VisitOrder() == InsertAt(s.VisitOrder(), |s.VisitOrder()| - 1, x);
    }
  }
}
