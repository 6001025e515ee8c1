/** Lists that share their items: every task has one list item, and the item records the list it is on. */
module Banks {

  import opened ListModel
  import opened KernelConfig

  datatype ListId =
    | Ready(priority: nat)
    /** The two delayed lists; the kernel's two pointers say which is the current one. */
    | Delayed(second: bool)
    | Suspended
    | Termination
    | PendingReady
    /** The tasks waiting for one event of one kernel object. */
    | Event(id: nat)

  /** A list that was never touched is empty. `container` is `pvContainer`; an item on no list is absent. */
  datatype Bank = Bank(lists: map<ListId, ListState<Task>>, container: map<Task, ListId>)

  function At(b: Bank, l: ListId): ListState<Task> {
    if l in b.lists then b.lists[l] else ListState([], 0)
  }

  function Items(b: Bank, l: ListId): seq<Task> {
    At(b, l).items
  }

  /** Each list is a ring without repetition, and an item is on the list its container field names and on
      no other. */
  ghost predicate Valid(b: Bank) {
    && (forall l :: At(b, l).Valid())
    && (forall l, t :: t in Items(b, l) <==> t in b.container && b.container[t] == l)
  }

  /** `uxListRemove`. */
  function RemoveItem(b: Bank, t: Task): Bank
    requires t in b.container && t in Items(b, b.container[t])
  {
    var l := b.container[t];
    Bank(b.lists[l := Remove(At(b, l), t)], b.container - {t})
  }

  function RemoveIfThere(b: Bank, t: Task): Bank
    requires Valid(b)
  {
    if t in b.container then RemoveItem(b, t) else b
  }

  /** `vListInsert` finds the place `k`; `vListInsertEnd` has its own. */
  function Insert(b: Bank, l: ListId, k: nat, t: Task): Bank
    requires k <= |Items(b, l)|
  {
    Bank(b.lists[l := LinkAt(At(b, l), k, t)], b.container[t := l])
  }

  function LastPlace(b: Bank, l: ListId): (k: nat)
    requires Valid(b)
    ensures k <= |Items(b, l)|
  {
    assert At(b, l).Valid();
    if At(b, l).index == 0 then |Items(b, l)| else At(b, l).index - 1
  }

  function InsertLast(b: Bank, l: ListId, t: Task): Bank
    requires Valid(b)
  {
    Insert(b, l, LastPlace(b, l), t)
  }

  /** One list is replaced, and the container fields say so. */
  lemma ReplaceKeeps(b: Bank, l: ListId, s: ListState<Task>, container: map<Task, ListId>)
    requires Valid(b) && s.Valid()
    requires forall u :: u in s.items <==> u in container && container[u] == l
    requires forall u :: u in container && container[u] != l ==> u in b.container && b.container[u] == container[u]
    requires forall u :: u in b.container && b.container[u] != l ==> u in container && container[u] == b.container[u]
    ensures Valid(Bank(b.lists[l := s], container))
  {
    var r := Bank(b.lists[l := s], container);
    forall l'
      ensures At(r, l').Valid() && (l' != l ==> At(r, l') == At(b, l'))
    {
      assert At(b, l').Valid();
    }
    forall l', u
      ensures u in Items(r, l') <==> u in r.container && r.container[u] == l'
    {
      assert u in Items(b, l') <==> u in b.container && b.container[u] == l';
    }
  }

  /** What the invariant says of one list. */
  lemma OneList(b: Bank, l: ListId)
    requires Valid(b)
    ensures At(b, l).Valid() && At(b, l).index <= |At(b, l).items|
    ensures forall u :: u in At(b, l).items <==> u in b.container && b.container[u] == l
  {
    forall u
      ensures u in At(b, l).items <==> u in b.container && b.container[u] == l
    {
      assert u in Items(b, l) <==> u in b.container && b.container[u] == l;
    }
  }

  lemma RemovedList(s: ListState<Task>, t: Task)
    requires s.Valid() && t in s.items
    ensures Remove(s, t).Valid()
    ensures Remove(s, t).items == RemoveAt(s.items, IndexOf(s.items, t))
    ensures forall u :: u in Remove(s, t).items <==> u != t && u in s.items
  {
    NoDuplicatesRemove(s.items, IndexOf(s.items, t));
  }

  lemma LinkedList(s: ListState<Task>, k: nat, t: Task)
    requires s.Valid() && t !in s.items && k <= |s.items|
    ensures LinkAt(s, k, t).Valid()
    ensures LinkAt(s, k, t).items == InsertAt(s.items, k, t) && |LinkAt(s, k, t).items| == |s.items| + 1
    ensures forall u :: u in LinkAt(s, k, t).items <==> u == t || u in s.items
  {
    NoDuplicatesInsert(s.items, k, t);
  }

  lemma RemoveValid(b: Bank, t: Task)
    requires Valid(b) && t in b.container && t in Items(b, b.container[t])
    ensures Valid(RemoveItem(b, t))
  {
    hide Valid, Remove, NoDuplicates, RemoveAt, IndexOf;
    var l := b.container[t];
    OneList(b, l);
    RemovedList(At(b, l), t);
    ReplaceKeeps(b, l, Remove(At(b, l), t), b.container - {t});
  }

  lemma InsertValid(b: Bank, l: ListId, k: nat, t: Task)
    requires Valid(b) && t !in b.container && k <= |Items(b, l)|
    ensures Valid(Insert(b, l, k, t))
    ensures Items(Insert(b, l, k, t), l) == InsertAt(Items(b, l), k, t)
    ensures |Items(Insert(b, l, k, t), l)| == |Items(b, l)| + 1
  {
    hide Valid, LinkAt, NoDuplicates, InsertAt;
    OneList(b, l);
    LinkedList(At(b, l), k, t);
    ReplaceKeeps(b, l, LinkAt(At(b, l), k, t), b.container[t := l]);
  }

  lemma RemoveKeeps(b: Bank, t: Task)
    requires Valid(b) && t in b.container
    ensures Valid(RemoveItem(b, t))
    ensures forall l :: l != b.container[t] ==> At(RemoveItem(b, t), l) == At(b, l)
    ensures var s := Items(b, b.container[t]);
            Items(RemoveItem(b, t), b.container[t]) == RemoveAt(s, IndexOf(s, t))
  {
    RemoveValid(b, t);
  }

  lemma InsertKeeps(b: Bank, l: ListId, k: nat, t: Task)
    requires Valid(b) && t !in b.container && k <= |Items(b, l)|
    ensures Valid(Insert(b, l, k, t))
    ensures forall l' :: l' != l ==> At(Insert(b, l, k, t), l') == At(b, l')
    ensures Items(Insert(b, l, k, t), l) == InsertAt(Items(b, l), k, t)
    ensures |Items(Insert(b, l, k, t), l)| == |Items(b, l)| + 1
  {
    hide Valid, LinkAt, NoDuplicates, InsertAt;
    InsertValid(b, l, k, t);
  }

  lemma RemoveIfThereKeeps(b: Bank, t: Task)
    requires Valid(b)
    ensures Valid(RemoveIfThere(b, t))
    ensures RemoveIfThere(b, t).container == b.container - {t}
  {
    if t in b.container {
      RemoveKeeps(b, t);
    }
  }

  /** An item moves from the list it is on to the end of another. */
  function Move(b: Bank, l: ListId, t: Task): Bank
    requires Valid(b) && t in b.container
  {
    RemoveKeeps(b, t);
    InsertLast(RemoveItem(b, t), l, t)
  }

  lemma MoveKeeps(b: Bank, l: ListId, t: Task)
    requires Valid(b) && t in b.container
    ensures Valid(Move(b, l, t))
    ensures Move(b, l, t).container == b.container[t := l]
    ensures forall l' :: l' != l && l' != b.container[t] ==> At(Move(b, l, t), l') == At(b, l')
    ensures var s := Items(b, b.container[t]);
            b.container[t] != l ==> Items(Move(b, l, t), b.container[t]) == RemoveAt(s, IndexOf(s, t))
    ensures b.container[t] != l ==> |Items(Move(b, l, t), l)| == |Items(b, l)| + 1
  {
    hide RemoveItem, RemoveAt, IndexOf, NoDuplicates, InsertAt;
    RemoveKeeps(b, t);
    var r := RemoveItem(b, t);
    RemovedContainer(b, t);
    assert At(r, l).Valid();
    hide Valid, LinkAt;
    InsertKeeps(r, l, LastPlace(r, l), t);
  }

  /** What moves to another list is visited after all that list has, except the item that the index points at. */
  lemma MoveVisitedLast(b: Bank, l: ListId, t: Task)
    requires Valid(b) && t in b.container && b.container[t] != l
    ensures var order := At(b, l).VisitOrder();
            At(Move(b, l, t), l).VisitOrder()
            == if At(b, l).index == 0 then order + [t] else InsertAt(order, |order| - 1, t)
  {
    hide RemoveItem, Remove, InsertAt, RemoveAt, IndexOf, NoDuplicates;
    RemoveKeeps(b, t);
    var r := RemoveItem(b, t);
    assert At(r, l) == At(b, l) && At(b, l).Valid();
    assert t !in Items(b, l);
    assert At(Move(b, l, t), l) == InsertEnd(At(b, l), t);
    InsertEndVisitsLast(At(b, l), t);
  }

  lemma RemovedContainer(b: Bank, t: Task)
    requires Valid(b) && t in b.container
    ensures RemoveItem(b, t).container == b.container - {t}
  {
  }

  /** An item moves from the list it is on to a place in another. */
  function MoveTo(b: Bank, l: ListId, k: nat, t: Task): Bank
    requires Valid(b) && t in b.container && l != b.container[t] && k <= |Items(b, l)|
  {
    RemoveKeeps(b, t);
    Insert(RemoveItem(b, t), l, k, t)
  }

  lemma MoveToKeeps(b: Bank, l: ListId, k: nat, t: Task)
    requires Valid(b) && t in b.container && l != b.container[t] && k <= |Items(b, l)|
    ensures Valid(MoveTo(b, l, k, t))
    ensures MoveTo(b, l, k, t).container == b.container[t := l]
    ensures forall l' :: l' != l && l' != b.container[t] ==> At(MoveTo(b, l, k, t), l') == At(b, l')
    ensures Items(MoveTo(b, l, k, t), l) == InsertAt(Items(b, l), k, t)
    ensures t !in Items(b, l)
  {
    hide RemoveItem, RemoveAt, IndexOf, NoDuplicates, InsertAt;
    RemoveKeeps(b, t);
    RemovedContainer(b, t);
    hide LinkAt;
    InsertKeeps(RemoveItem(b, t), l, k, t);
  }

  // ---------- conservation ----------

  /** The lengths of some of the lists together. */
  ghost function TotalLength(b: Bank, ls: set<ListId>): nat {
    if ls == {} then 0 else var l :| l in ls; |Items(b, l)| + TotalLength(b, ls - {l})
  }

  ghost function TasksOn(b: Bank, ls: set<ListId>): set<Task> {
    set t | t in b.container && b.container[t] in ls
  }

  ghost function Elements(items: seq<Task>): set<Task> {
    set t | t in items
  }

  lemma {:induction false} ElementsCount(items: seq<Task>)
    requires NoDuplicates(items)
    ensures |Elements(items)| == |items|
  {
    if items != [] {
      var last := |items| - 1;
      ElementsCount(items[..last]);
      assert Elements(items) == Elements(items[..last]) + {items[last]};
    }
  }

  /** The tasks on one list more are those on that list more. */
  lemma TasksOnSplit(b: Bank, ls: set<ListId>, l: ListId)
    requires Valid(b) && l in ls
    ensures |TasksOn(b, ls)| == |Items(b, l)| + |TasksOn(b, ls - {l})|
  {
    hide Valid, NoDuplicates;
    OneList(b, l);
    ElementsCount(Items(b, l));
    assert TasksOn(b, ls) == TasksOn(b, ls - {l}) + Elements(Items(b, l));
    assert TasksOn(b, ls - {l}) !! Elements(Items(b, l));
  }

  /** The lengths add up to the number of tasks: none is on two lists, none is counted twice. */
  lemma {:induction false} LengthsAddUp(b: Bank, ls: set<ListId>)
    requires Valid(b)
    ensures TotalLength(b, ls) == |TasksOn(b, ls)|
  {
    if ls == {} {
      assert TasksOn(b, ls) == {};
    } else {
      hide Valid, TasksOn, Items;
      var l :| l in ls && TotalLength(b, ls) == |Items(b, l)| + TotalLength(b, ls - {l});
      LengthsAddUp(b, ls - {l});
      TasksOnSplit(b, ls, l);
    }
  }
}
