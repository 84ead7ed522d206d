/** Python's sorted(items, key=...): stable, smallest key first. */
module Sorting {

  /** Behind every item whose key is not larger. */
  function Insert<T>(x: T, items: seq<T>, key: T -> int): seq<T> {
    if items == [] || key(items[|items| - 1]) <= key(x) then items + [x]
    else Insert(x, items[..|items| - 1], key) + [items[|items| - 1]]
  }

  function Sorted<T>(items: seq<T>, key: T -> int): seq<T> {
    if items == [] then [] else Insert(items[|items| - 1], Sorted(items[..|items| - 1], key), key)
  }

  predicate InOrder<T>(items: seq<T>, key: T -> int) {
    forall i, j :: 0 <= i < j < |items| ==> key(items[i]) <= key(items[j])
  }

  lemma SameItems<T>(a: seq<T>, b: seq<T>)
    requires multiset(a) == multiset(b)
    ensures forall x :: x in a <==> x in b
  {
    forall x
      ensures x in a <==> x in b
    {
      assert x in a <==> x in multiset(a);
    }
  }

  lemma InOrderAppended<T>(items: seq<T>, x: T, key: T -> int)
    requires InOrder(items, key) && forall y :: y in items ==> key(y) <= key(x)
    ensures InOrder(items + [x], key)
  {}

  lemma InOrderSplit<T>(items: seq<T>, key: T -> int, k: nat, x: T, y: T)
    requires InOrder(items, key) && k <= |items| && x in items[..k] && y in items[k..]
    ensures key(x) <= key(y)
  {
    var i :| 0 <= i < k && items[i] == x;
    var j :| 0 <= j < |items| - k && items[k..][j] == y;
    assert items[k + j] == y;
  }

  lemma {:induction false} InsertKeeps<T>(x: T, items: seq<T>, key: T -> int)
    ensures multiset(Insert(x, items, key)) == multiset(items) + multiset{x}
  {
    if items != [] && key(items[|items| - 1]) > key(x) {
      InsertKeeps(x, items[..|items| - 1], key);
      assert items == items[..|items| - 1] + [items[|items| - 1]];
    }
  }

  lemma InOrderLast<T>(items: seq<T>, key: T -> int)
    requires InOrder(items, key) && items != []
    ensures InOrder(items[..|items| - 1], key)
    ensures forall y :: y in items ==> key(y) <= key(items[|items| - 1])
  {}

  lemma InsertStaysBelow<T>(x: T, items: seq<T>, key: T -> int, bound: int)
    requires key(x) <= bound && forall y :: y in items ==> key(y) <= bound
    ensures forall y :: y in Insert(x, items, key) ==> key(y) <= bound
  {
    InsertKeeps(x, items, key);
    SameItems(Insert(x, items, key), items + [x]);
  }

  lemma {:induction false} InsertOrders<T>(x: T, items: seq<T>, key: T -> int)
    requires InOrder(items, key)
    ensures InOrder(Insert(x, items, key), key)
  {
    if items == [] || key(items[|items| - 1]) <= key(x) {
      if items != [] {
        InOrderLast(items, key);
      }
      InOrderAppended(items, x, key);
    } else {
      var front, last := items[..|items| - 1], items[|items| - 1];
      InOrderLast(items, key);
      InsertOrders(x, front, key);
      InsertStaysBelow(x, front, key, key(last));
      InOrderAppended(Insert(x, front, key), last, key);
    }
  }

  lemma {:induction false} SortedKeeps<T>(items: seq<T>, key: T -> int)
    ensures multiset(Sorted(items, key)) == multiset(items)
  {
    if items != [] {
      var front, last := items[..|items| - 1], items[|items| - 1];
      SortedKeeps(front, key);
      InsertKeeps(last, Sorted(front, key), key);
      assert items == front + [last];
    }
  }

  lemma {:induction false} SortedOrders<T>(items: seq<T>, key: T -> int)
    ensures InOrder(Sorted(items, key), key)
  {
    if items != [] {
      SortedOrders(items[..|items| - 1], key);
      InsertOrders(items[|items| - 1], Sorted(items[..|items| - 1], key), key);
    }
  }

  lemma SortedFacts<T>(items: seq<T>, key: T -> int)
    ensures InOrder(Sorted(items, key), key) && multiset(Sorted(items, key)) == multiset(items)
    ensures forall x :: x in Sorted(items, key) <==> x in items
  {
    SortedOrders(items, key);
    SortedKeeps(items, key);
    SameItems(Sorted(items, key), items);
  }
}
