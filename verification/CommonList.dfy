/**
 The intrusive doubly linked list of list.cpp and the restart-on-swap sort of job_core.cpp.
 */
module CommonLists {
  import opened StableSort

  class Item<T> {
    const data: T
    var prev: Item?<T>
    var next: Item?<T>

    constructor (data: T)
      ensures this.data == data && prev == null && next == null
    {
      this.data := data;
      prev, next := null, null;
    }
  }

  ghost function DataOf<T>(items: seq<Item<T>>): (s: seq<T>)
    ensures |s| == |items| && forall i :: 0 <= i < |s| ==> s[i] == items[i].data
  {
    seq(|items|, i requires 0 <= i < |items| => items[i].data)
  }

  class CommonList<T(==)> {
    var first: Item?<T>
    var last: Item?<T>
    var count: int
    ghost var items: seq<Item<T>>

    /** The items in order: mirrored links, right ends, right count. */
    ghost predicate Valid()
      reads this, items
    {
      && count == |items|
      && (forall i, j :: 0 <= i < j < |items| ==> items[i] != items[j])
      && first == (if items == [] then null else items[0])
      && last == (if items == [] then null else items[|items| - 1])
      && (forall i {:trigger items[i].prev} :: 0 <= i < |items| ==>
            items[i].prev == if i == 0 then null else items[i - 1])
      && (forall i {:trigger items[i].next} :: 0 <= i < |items| ==>
            items[i].next == if i + 1 == |items| then null else items[i + 1])
    }

    ghost function Contents(): (s: seq<T>)
      reads this
    {
      DataOf(items)
    }

    constructor ()
      ensures Valid() && items == []
    {
      first, last, count, items := null, null, 0, [];
    }

    method AddTail(data: T) returns (item: Item<T>)
      requires Valid()
      modifies this, items
      ensures Valid() && fresh(item) && items == old(items) + [item]
      ensures item.data == data
    {
      item := new Item(data);
      count := count + 1;
      item.prev := last;
      item.next := null;
      last := item;
      if first == null {
        first := item;
      }
      if item.prev != null {
        item.prev.next := item;
      }
      items := items + [item];
    }

    /** `Delete(CLI item)`: unlink the item, wherever it stands. */
    method Delete(item: Item<T>, ghost k: nat)
      requires Valid() && k < |items| && items[k] == item
      modifies this, items
      ensures Valid() && items == old(items[..k] + items[k + 1..])
    {
      if first == item {
        first := item.next;
      }
      if last == item {
        last := item.prev;
      }
      if item.prev != null {
        item.prev.next := item.next;
      }
      if item.next != null {
        item.next.prev := item.prev;
      }
      count := count - 1;
      items := items[..k] + items[k + 1..];
    }

    /** `Find`: the first item holding the data, or none. */
    method Find(data: T) returns (item: Item?<T>, ghost k: nat)
      requires Valid()
      ensures item == null ==> data !in Contents()
      ensures item != null ==> k < |items| && items[k] == item && item.data == data && data !in Contents()[..k]
    {
      item, k := first, 0;
      while item != null
        invariant k <= |items| && item == (if k == |items| then null else items[k])
        invariant data !in Contents()[..k]
        decreases |items| - k
      {
        if data == item.data {
          return;
        }
        item, k := item.next, k + 1;
      }
    }

    /** `Swap(i1, i2)` of neighbours, i2 the item after i1. */
    method Swap(i1: Item<T>, i2: Item<T>, ghost k: nat)
      requires Valid() && k + 1 < |items| && items[k] == i1 && items[k + 1] == i2
      modifies this, items
      ensures Valid() && items == Exchanged(old(items), k)
      ensures count == old(count)
    {
      if i1.prev != null {
        i1.prev.next := i2;
      }
      if i2.next != null {
        i2.next.prev := i1;
      }
      i1.next := i2.next;
      i2.prev := i1.prev;
      i1.prev := i2;
      i2.next := i1;
      if i2.prev == null {
        first := i2;
      }
      if i1.next == null {
        last := i1;
      }
      items := Exchanged(items, k);
    }
  }

  /** `job_sort`: exchange the first neighbours in the wrong order and start over. */
  method JobSort(list: CommonList<Entry>)
    requires list.Valid()
    modifies list, list.items
    ensures list.Valid() && multiset(list.items) == multiset(old(list.items))
    ensures NonIncreasing(list.Contents()) && Stable(old(list.Contents()), list.Contents())
    decreases Inversions(list.Contents())
  {
    ghost var items, s := list.items, list.Contents();
    ghost var k := 0;
    var li := list.first;
    while li != null && li.next != null
      invariant k <= |items| && li == (if k == |items| then null else items[k])
      invariant forall i :: 0 <= i < k ==> InOrder(s, i)
      decreases |items| - k
    {
      if li.data.profit < li.next.data.profit {
        list.Swap(li, li.next, k);
        DataExchanged(items, k);
        ExchangeRemovesOne(s, k);
        ExchangeStable(s, k);
        ExchangedMultiset(items, k);
        JobSort(list);
        return;
      }
      li := li.next;
      k := k + 1;
    }
    NeighboursSorted(s);
  }

  lemma DataExchanged<T>(items: seq<Item<T>>, k: nat)
    requires k + 1 < |items|
    ensures DataOf(Exchanged(items, k)) == Exchanged(DataOf(items), k)
  {
  }

  lemma ExchangedMultiset<T>(s: seq<T>, k: nat)
    requires k + 1 < |s|
    ensures multiset(Exchanged(s, k)) == multiset(s)
  {
  }

  /** The entry at i is in order with the next one, if there is one. */
  predicate InOrder(s: seq<Entry>, i: nat) {
    i + 1 < |s| ==> s[i].profit >= s[i + 1].profit
  }

  lemma {:induction false} InOrderBetween(s: seq<Entry>, i: nat, j: nat)
    requires i <= j < |s| && forall k :: 0 <= k < |s| ==> InOrder(s, k)
    ensures s[i].profit >= s[j].profit
  {
    if i < j {
      InOrderBetween(s, i, j - 1);
      assert InOrder(s, j - 1);
    }
  }

  /** Neighbours in order means all in order. */
  lemma NeighboursSorted(s: seq<Entry>)
    requires forall k :: 0 <= k < |s| ==> InOrder(s, k)
    ensures NonIncreasing(s)
  {
    forall i, j | 0 <= i < j < |s|
      ensures s[i].profit >= s[j].profit
    {
      InOrderBetween(s, i, j);
    }
  }

  /** The job list's entries in sorted order: put on a linked list, sorted there, read back. */
  method Sorted(entries: seq<Entry>) returns (sorted: seq<Entry>)
    ensures NonIncreasing(sorted) && Stable(entries, sorted)
  {
    var list := new CommonList<Entry>();
    for k := 0 to |entries|
      invariant list.Valid() && fresh(list) && fresh(list.items) && list.Contents() == entries[..k]
    {
      var _ := list.AddTail(entries[k]);
    }
    assert entries[..|entries|] == entries;
    JobSort(list);
    sorted := [];
    var li := list.first;
    while li != null
      invariant |sorted| <= |list.items| && li == (if |sorted| == |list.items| then null else list.items[|sorted|])
      invariant sorted == list.Contents()[..|sorted|]
      decreases |list.items| - |sorted|
    {
      sorted := sorted + [li.data];
      li := li.next;
    }
    assert sorted == list.Contents();
  }
}
