/** The Galaxy scheduler's indexed priority queue: a heap of items plus a map from ID to item. */
module IndexedQueue {
  import opened ContainerHeap
  import opened Collections

  datatype Item = Item(id: string, priority: int, enqueuedAt: int)

  /** Higher priority first; among equals, earlier first. */
  predicate Before(a: Item, b: Item) {
    if a.priority != b.priority then a.priority > b.priority else a.enqueuedAt < b.enqueuedAt
  }

  const Less: Order<Item> := (a, b) => Before(a, b)

  lemma LessIsStrictWeak()
    ensures StrictWeak(Less)
  {
  }

  /** What is filed under an ID is a queued item with this ID. */
  ghost predicate FiledIn(q: seq<Slot<Item>>, items: map<string, Slot<Item>>)
    reads q`value
  {
    forall id :: id in items ==> items[id] in q && items[id].value.id == id
  }

  /** Each queued item is filed under its ID. */
  ghost predicate ExactIn(q: seq<Slot<Item>>, items: map<string, Slot<Item>>)
    reads q`value
  {
    forall s :: s in q ==> s.value.id in items && items[s.value.id] == s
  }

  ghost function ContentsOf(items: map<string, Slot<Item>>): map<string, Item>
    reads items.Values`value
  {
    map id | id in items :: items[id].value
  }

  lemma OneMoreKept(items: map<string, Slot<Item>>, qi: Slot<Item>)
    ensures ContentsOf(items[qi.value.id := qi]) == ContentsOf(items)[qi.value.id := qi.value]
    ensures ContentsOf(items).Keys == items.Keys
  {
  }

  lemma OneMoreFiled(q: seq<Slot<Item>>, r: seq<Slot<Item>>, items: map<string, Slot<Item>>, qi: Slot<Item>)
    requires FiledIn(q, items) && qi !in q && forall s :: s in r <==> s in q || s == qi
    ensures FiledIn(r, items[qi.value.id := qi])
    ensures ExactIn(r, items[qi.value.id := qi]) <==> ExactIn(q, items) && qi.value.id !in items
  {
    var items' := items[qi.value.id := qi];
    if qi.value.id in items {
      var s := items[qi.value.id];
      assert s in r && items'[s.value.id] != s;
    } else {
      forall s | s in q
        ensures (s.value.id in items && items[s.value.id] == s) <==> (s.value.id in items' && items'[s.value.id] == s)
      {
        assert s in r;
      }
    }
  }

  lemma OneLessFiled(q: seq<Slot<Item>>, r: seq<Slot<Item>>, items: map<string, Slot<Item>>, qi: Slot<Item>)
    requires FiledIn(q, items) && qi in q && forall s :: s in r <==> s in q && s != qi
    ensures FiledIn(r, items - {qi.value.id})
    ensures ExactIn(q, items) ==> ExactIn(r, items - {qi.value.id})
  {
  }

  lemma {:induction false} ValueAt(q: seq<Slot<Item>>, qi: Slot<Item>)
    requires IsHeap(q, Less) && qi in q && forall s :: s in q && s.value == qi.value ==> s == qi
    ensures multiset(Values(q))[qi.value] == 1
  {
    var k :| 0 <= k < |q| && q[k] == qi;
    ValuesOnce(Values(q), k);
  }

  lemma ValuesOnce(v: seq<Item>, k: nat)
    requires k < |v| && forall j :: 0 <= j < |v| && j != k ==> v[j] != v[k]
    ensures multiset(v)[v[k]] == 1
  {
    assert v == v[..k] + [v[k]] + v[k + 1..];
    assert v[k] !in v[..k] && v[k] !in v[k + 1..];
  }

  class PriorityQueue {
    var queue: seq<Slot<Item>>
    var items: map<string, Slot<Item>>

    ghost predicate Valid()
      reads this, queue
    {
      IsHeap(queue, Less) && FiledIn(queue, items)
    }

    ghost predicate Exact()
      reads this, queue`value
    {
      ExactIn(queue, items)
    }

    ghost function Queued(): multiset<Item>
      reads this, queue`value
    {
      multiset(Values(queue))
    }

    /** What is filed, by ID. */
    ghost function Contents(): map<string, Item>
      reads this, items.Values`value
    {
      ContentsOf(items)
    }

    constructor ()
      ensures Valid() && Exact() && Queued() == multiset{} && Contents() == map[] && queue == []
    {
      queue, items := [], map[];
    }

    /** Queue an item and file it. An ID that is taken goes to the new item, and the queued one
        stays where it is without being filed. */
    method Enqueue(item: Item)
      requires Valid()
      modifies this, (set s | s in queue)`index
      ensures Valid() && Queued() == old(Queued()) + multiset{item}
      ensures Contents() == old(Contents())[item.id := item]
      ensures Exact() <==> old(Exact()) && item.id !in old(Contents())
      ensures forall s :: s in queue ==> s in old(queue) || fresh(s)
    {
      hide IsHeap, Values, FiledIn, ExactIn;
      var qi := new Slot(item);
      Add(qi);
    }

    method Add(qi: Slot<Item>)
      requires Valid() && qi !in queue
      modifies this, (set s | s in queue)`index, qi`index
      ensures Valid() && Queued() == old(Queued()) + multiset{qi.value}
      ensures Contents() == old(Contents())[qi.value.id := qi.value]
      ensures Exact() <==> old(Exact()) && qi.value.id !in old(Contents())
      ensures forall s :: s in queue ==> s in old(queue) || s == qi
    {
      hide IsHeap, StrictWeak, Values, FiledIn, ExactIn, ContentsOf;
      LessIsStrictWeak();
      ghost var before := queue;
      queue := Push(queue, Less, qi);
      SplitValues(queue, before, qi);
      OneMoreFiled(before, queue, items, qi);
      OneMoreKept(items, qi);
      items := items[qi.value.id := qi];
    }

    /** Install the heap without qi, and unfile its ID. */
    method Forget(qi: Slot<Item>, rest: seq<Slot<Item>>)
      requires FiledIn(queue, items) && qi in queue && IsHeap(rest, Less)
      requires multiset(rest) + multiset{qi} == multiset(queue) && forall s :: s in rest <==> s in queue && s != qi
      modifies this
      ensures Valid() && Contents() == old(Contents()) - {qi.value.id}
      ensures Queued() + multiset{qi.value} == old(Queued())
      ensures (old(Exact()) ==> Exact()) && queue == rest
    {
      hide IsHeap, Values, FiledIn, ExactIn;
      SplitValues(queue, rest, qi);
      OneLessFiled(queue, rest, items, qi);
      queue := rest;
      items := items - {qi.value.id};
    }

    /** Take out an item that no other queued item precedes. */
    method Dequeue() returns (item: Option<Item>)
      requires Valid()
      modifies this, (set s | s in queue)`index
      ensures Valid() && (old(Exact()) ==> Exact())
      ensures item.None? <==> old(Queued()) == multiset{}
      ensures item.None? ==> Queued() == old(Queued()) && Contents() == old(Contents())
      ensures item.Some? ==>
        && Queued() + multiset{item.value} == old(Queued())
        && Contents() == old(Contents()) - {item.value.id}
        && forall other :: other in old(Queued()) ==> !Before(other, item.value)
      ensures item.Some? ==> forall other :: other in old(Queued()) ==>
        other.priority < item.value.priority
        || (other.priority == item.value.priority && item.value.enqueuedAt <= other.enqueuedAt)
      ensures forall s :: s in queue ==> s in old(queue)
    {
      hide IsHeap, Values, FiledIn, ExactIn;
      NoneQueued();
      if |queue| == 0 {
        return None;
      }
      var qi, rest := PopFirst();
      Forget(qi, rest);
      return Some(qi.value);
    }

    method PopFirst() returns (qi: Slot<Item>, rest: seq<Slot<Item>>)
      requires Valid() && |queue| > 0
      modifies (set s | s in queue)`index
      ensures FiledIn(queue, items) && qi in queue && IsHeap(rest, Less) && multiset(rest) + multiset{qi} == multiset(queue)
      ensures forall s :: s in rest <==> s in queue && s != qi
      ensures forall other :: other in Queued() ==> !Before(other, qi.value)
    {
      LessIsStrictWeak();
      hide IsHeap, StrictWeak, Before;
      qi, rest := Pop(queue, Less);
      forall other | other in Queued() ensures !Before(other, qi.value) {
        var k :| 0 <= k < |queue| && Values(queue)[k] == other;
        assert !Less(queue[k].value, qi.value);
      }
    }

    /** The item that Dequeue would take next. */
    method Peek() returns (item: Option<Item>)
      requires Valid()
      ensures item.None? <==> Queued() == multiset{}
      ensures item.Some? ==>
        item.value in Queued() && forall other :: other in Queued() ==> !Before(other, item.value)
      ensures item.Some? ==> forall other :: other in Queued() ==>
        other.priority < item.value.priority
        || (other.priority == item.value.priority && item.value.enqueuedAt <= other.enqueuedAt)
    {
      if |queue| == 0 {
        return None;
      }
      LessIsStrictWeak();
      assert Values(queue)[0] in Queued();
      forall other | other in Queued() ensures !Before(other, queue[0].value) {
        var k :| 0 <= k < |queue| && Values(queue)[k] == other;
        RootIsLeast(Values(queue), Less, |queue|, k);
      }
      return Some(queue[0].value);
    }

    /** Take out the item filed under id, and only that one. */
    method Remove(id: string) returns (found: bool)
      requires Valid()
      modifies this, (set s | s in queue)`index
      ensures Valid() && (old(Exact()) ==> Exact())
      ensures found == (id in old(Contents())) && Contents() == old(Contents()) - {id}
      ensures found ==> Queued() + multiset{old(Contents())[id]} == old(Queued())
      ensures !found ==> Queued() == old(Queued())
      ensures forall s :: s in queue ==> s in old(queue)
    {
      hide IsHeap, StrictWeak, Values, FiledIn, ExactIn;
      if id !in items {
        return false;
      }
      LessIsStrictWeak();
      var qi := items[id];
      FiledAt(id);
      var _, rest := ContainerHeap.Remove(queue, Less, qi.index);
      Forget(qi, rest);
      return true;
    }

    lemma NoneQueued()
      ensures queue == [] <==> Queued() == multiset{}
    {
      if queue != [] { assert Values(queue)[0] in Queued(); }
    }

    lemma FiledAt(id: string)
      requires Valid() && id in items
      ensures items[id] in queue && items[id].value.id == id
      ensures 0 <= items[id].index < |queue| && queue[items[id].index] == items[id]
    {
      PositionIsIndex(items[id]);
    }

    lemma PositionIsIndex(qi: Slot<Item>)
      requires Valid() && qi in queue
      ensures 0 <= qi.index < |queue| && queue[qi.index] == qi
    {
      var k :| 0 <= k < |queue| && queue[k] == qi;
    }

    /** While no ID has been queued twice, the queue is its map: each item once, under its ID. */
    lemma ExactIsTheMap(item: Item)
      requires Valid() && Exact()
      ensures Queued()[item] == if item.id in Contents() && Contents()[item.id] == item then 1 else 0
    {
      hide Before;
      if item.id in items && items[item.id].value == item {
        ValueAt(queue, items[item.id]);
      } else {
        forall k | 0 <= k < |queue| ensures Values(queue)[k] != item {
          assert queue[k] in queue;
        }
      }
    }
  }

  /** What an ID that is taken does: both items are queued, and one of them is not filed. */
  method SameIdTwice(id: string, first: int, second: int, now: int, later: int)
      returns (q: PriorityQueue)
    ensures q.Valid() && !q.Exact()
    ensures q.Queued() == multiset{Item(id, first, now), Item(id, second, later)}
    ensures q.Contents() == map[id := Item(id, second, later)]
  {
    hide *;
    q := new PriorityQueue();
    q.Enqueue(Item(id, first, now));
    q.Enqueue(Item(id, second, later));
  }
}
