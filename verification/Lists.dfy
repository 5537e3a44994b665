/** threads/list.cc: the singly linked list under every queue of the kernel. */
module Lists {

  datatype Option<T> = None | Some(value: T)

  /** What a list holds: keys and items from front to back */
  type Entries<T> = seq<(int, T)>

  /** Where SortedInsert puts `key`: before the first strictly larger key at or after `i` */
  function InsertAt<T>(s: Entries<T>, key: int, i: nat): (p: nat)
    requires i <= |s|
    ensures i <= p <= |s|
    ensures forall j :: i <= j < p ==> s[j].0 <= key
    ensures p < |s| ==> key < s[p].0
    decreases |s| - i
  {
    if i == |s| || key < s[i].0 then i else InsertAt(s, key, i + 1)
  }

  function Inserted<T>(s: Entries<T>, key: int, item: T): Entries<T> {
    var p := InsertAt(s, key, 0);
    s[..p] + [(key, item)] + s[p..]
  }

  predicate Sorted<T>(s: Entries<T>) {
    forall i, j :: 0 <= i < j < |s| ==> s[i].0 <= s[j].0
  }

  /** Sorted insertion keeps the order. */
  lemma InsertedSorted<T>(s: Entries<T>, key: int, item: T)
    requires Sorted(s)
    ensures Sorted(Inserted(s, key, item))
  {
  }

  /** Sorted insertion adds exactly the one element. */
  lemma InsertedElements<T>(s: Entries<T>, key: int, item: T)
    ensures multiset(Inserted(s, key, item)) == multiset(s) + multiset{(key, item)}
  {
    var p := InsertAt(s, key, 0);
    assert s == s[..p] + s[p..];
  }

  /** Taking the head off a sorted list and inserting it again is not the identity: it
      lands behind every other entry with the same key. */
  lemma Reinserted<T>(s: Entries<T>, n: nat)
    requires Sorted(s) && 0 < n <= |s|
    requires forall i :: 0 <= i < n ==> s[i].0 == s[0].0
    requires n < |s| ==> s[0].0 < s[n].0
    ensures Inserted(s[1..], s[0].0, s[0].1) == s[1..n] + [s[0]] + s[n..]
    ensures Sorted(s[1..n] + [s[0]] + s[n..]) && multiset(s[1..n] + [s[0]] + s[n..]) == multiset(s)
  {
    hide Sorted;
    var rest := s[1..];
    ReinsertAt(s, n);
    assert rest[..n - 1] == s[1..n] && rest[n - 1..] == s[n..];
    assert Sorted(rest) by {
      TailSorted(s);
    }
    InsertedSorted(rest, s[0].0, s[0].1);
    InsertedElements(rest, s[0].0, s[0].1);
    assert s == [s[0]] + rest;
  }

  lemma TailSorted<T>(s: Entries<T>)
    requires Sorted(s) && s != []
    ensures Sorted(s[1..])
  {
  }

  lemma ReinsertAt<T>(s: Entries<T>, n: nat)
    requires 0 < n <= |s|
    requires forall i :: 0 <= i < n ==> s[i].0 == s[0].0
    requires n < |s| ==> s[0].0 < s[n].0
    ensures InsertAt(s[1..], s[0].0, 0) == n - 1
  {
  }

  class ListElement<T> {
    var next: ListElement?<T>
    const key: int
    const item: T

    constructor (item: T, sortKey: int)
      ensures this.item == item && key == sortKey && next == null
    {
      this.item := item;
      key := sortKey;
      next := null;
    }
  }

  ghost function Values<T>(spine: seq<ListElement<T>>): Entries<T> {
    seq(|spine|, i requires 0 <= i < |spine| => (spine[i].key, spine[i].item))
  }

  class List<T(==)> {
    var first: ListElement?<T>
    var last: ListElement?<T>
    var numInList: nat
    ghost var spine: seq<ListElement<T>>

    ghost predicate Valid()
      reads this, Cells()
    {
      && (forall i, j :: 0 <= i < j < |spine| ==> spine[i] != spine[j])
      && (forall i :: 0 <= i < |spine| - 1 ==> spine[i].next == spine[i + 1])
      && (if spine == [] then first == null && last == null
          else first == spine[0] && last == spine[|spine| - 1] && last.next == null)
      && numInList == |spine|
    }

    ghost function Contents(): Entries<T>
      reads this
    {
      Values(spine)
    }

    /** The cells in use, which the list alone may change */
    ghost function Cells(): set<ListElement<T>>
      reads this
    {
      set e | e in spine
    }

    constructor ()
      ensures Valid() && Contents() == [] && Cells() == {}
    {
      first, last, numInList, spine := null, null, 0, [];
    }

    method IsEmpty() returns (empty: bool)
      requires Valid()
      ensures empty <==> Contents() == []
    {
      empty := first == null;
    }

    method Append(item: T)
      requires Valid()
      modifies this, Cells()
      ensures Valid() && Contents() == old(Contents()) + [(0, item)]
      ensures fresh(Cells() - old(Cells()))
    {
      var element := new ListElement(item, 0);
      if first == null {
        first, last := element, element;
      } else {
        last.next := element;
        last := element;
      }
      spine := spine + [element];
      numInList := numInList + 1;
    }

    method Prepend(item: T)
      requires Valid()
      modifies this, Cells()
      ensures Valid() && Contents() == [(0, item)] + old(Contents())
      ensures fresh(Cells() - old(Cells()))
    {
      var element := new ListElement(item, 0);
      LinkFirst(element);
    }

    /** Link `element` in at the front. */
    method LinkFirst(element: ListElement<T>)
      requires Valid() && element !in spine && element.next == null
      modifies this, element
      ensures Valid() && spine == [element] + old(spine)
      ensures Contents() == [(element.key, element.item)] + old(Contents())
    {
      if first == null {
        first, last := element, element;
      } else {
        element.next := first;
        first := element;
      }
      spine := [element] + spine;
      numInList := numInList + 1;
    }

    method SortedInsert(item: T, sortKey: int)
      requires Valid()
      modifies this, Cells()
      ensures Valid() && Contents() == Inserted(old(Contents()), sortKey, item)
      ensures fresh(Cells() - old(Cells()))
    {
      var element := new ListElement(item, sortKey);
      FirstIsHead();
      hide Valid, Values;
      if first == null || sortKey < first.key {
        LinkFirst(element);
      } else {
        var ptr, i := FindPlace(sortKey);
        InsertAfter(ptr, i, element);
      }
    }

    lemma FirstIsHead()
      requires Valid()
      ensures first == null <==> spine == []
      ensures first != null ==> first == spine[0]
      ensures |Contents()| == |spine| && (spine != [] ==> Contents()[0] == (spine[0].key, spine[0].item))
    {
    }

    /** Walk to the last element not followed by a key at most `sortKey`. */
    method FindPlace(sortKey: int) returns (ptr: ListElement<T>, ghost i: nat)
      requires Valid() && spine != [] && spine[0].key <= sortKey
      ensures i < |spine| && ptr == spine[i] && InsertAt(Contents(), sortKey, 0) == i + 1
    {
      ptr, i := first, 0;
      while ptr.next != null && sortKey >= ptr.next.key
        invariant 0 <= i < |spine| && ptr == spine[i]
        invariant InsertAt(Contents(), sortKey, i + 1) == InsertAt(Contents(), sortKey, 0)
        decreases |spine| - i
      {
        ptr := ptr.next;
        i := i + 1;
      }
    }

    /** Link `element` in behind the element at index `i`. */
    method InsertAfter(ptr: ListElement<T>, ghost i: nat, element: ListElement<T>)
      requires Valid() && i < |spine| && ptr == spine[i] && element !in spine && element.next == null
      modifies this, ptr, element
      ensures Valid() && spine == old(spine)[..i + 1] + [element] + old(spine)[i + 1..]
      ensures Contents() == old(Contents())[..i + 1] + [(element.key, element.item)] + old(Contents())[i + 1..]
    {
      assert i < |spine| - 1 ==> spine[i].next == spine[i + 1];
      if ptr.next != null {
        element.next := ptr.next;
        ptr.next := element;
      } else {
        last.next := element;
        last := element;
      }
      spine := spine[..i + 1] + [element] + spine[i + 1..];
      numInList := numInList + 1;
    }

    /** The front element's item and key, removed; None on an empty list. */
    method SortedRemove() returns (r: Option<(int, T)>)
      requires Valid()
      modifies this
      ensures Valid() && (r.None? <==> old(Contents()) == [])
      ensures r.None? ==> Contents() == []
      ensures r.Some? ==> [r.value] + Contents() == old(Contents())
      ensures Cells() <= old(Cells())
    {
      if first == null {
        return None;
      }
      var element := first;
      if first == last {
        assert |spine| == 1 by {
          assert spine[0] == spine[|spine| - 1];
        }
        first, last := null, null;
      } else {
        first := element.next;
      }
      spine := spine[1..];
      numInList := numInList - 1;
      return Some((element.key, element.item));
    }

    /** Unlink the first element that carries `item`, which the caller knows to be there. */
    method Remove(item: T, ghost i: nat)
      requires Valid() && i < |spine| && spine[i].item == item
      requires forall j :: 0 <= j < i ==> spine[j].item != item
      modifies this, Cells()
      ensures Valid() && Contents() == old(Contents())[..i] + old(Contents())[i + 1..]
      ensures Cells() <= old(Cells())
    {
      if item == first.item {
        var removed := SortedRemove();
      } else {
        var prev := first;
        ghost var k := 0;
        assert prev.next == spine[1];
        while prev.next.item != item
          invariant 0 <= k < i && prev == spine[k] && prev.next == spine[k + 1]
          decreases i - k
        {
          assert spine[k + 1].next == spine[k + 2];
          prev := prev.next;
          k := k + 1;
        }
        Unlink(prev, i);
      }
    }

    /** Take the cell after `prev` out. */
    method Unlink(prev: ListElement<T>, ghost i: nat)
      requires Valid() && 0 < i < |spine| && prev == spine[i - 1] && prev.next == spine[i]
      modifies this, prev
      ensures Valid() && spine == old(spine)[..i] + old(spine)[i + 1..]
    {
      var ptr := prev.next;
      assert i < |spine| - 1 ==> spine[i].next == spine[i + 1];
      prev.next := ptr.next;
      if prev.next == null {
        last := prev;
      }
      spine := spine[..i] + spine[i + 1..];
      numInList := numInList - 1;
    }
  }
}
