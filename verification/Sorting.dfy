/** A stable sort over any order, as `sort_by` performs it. */
module Sorting {
  function Insert<T>(le: (T, T) -> bool, x: T, sorted: seq<T>): seq<T> {
    if sorted == [] || le(x, sorted[0]) then [x] + sorted else [sorted[0]] + Insert(le, x, sorted[1..])
  }

  function Sort<T>(le: (T, T) -> bool, items: seq<T>): seq<T> {
    if items == [] then [] else Insert(le, items[0], Sort(le, items[1..]))
  }

  ghost predicate Sorted<T>(le: (T, T) -> bool, items: seq<T>) {
    items == [] || ((forall y :: y in items[1..] ==> le(items[0], y)) && Sorted(le, items[1..]))
  }

  ghost predicate TotalPreorder<T(!new)>(le: (T, T) -> bool) {
    && (forall x, y :: le(x, y) || le(y, x))
    && (forall x, y, z :: le(x, y) && le(y, z) ==> le(x, z))
  }

  lemma {:induction false} InsertMembers<T>(le: (T, T) -> bool, x: T, sorted: seq<T>)
    ensures multiset(Insert(le, x, sorted)) == multiset(sorted) + multiset{x}
    ensures forall y :: y in Insert(le, x, sorted) <==> y == x || y in sorted
  {
    if sorted != [] && !le(x, sorted[0]) {
      InsertMembers(le, x, sorted[1..]);
    }
    if sorted != [] {
      assert sorted == [sorted[0]] + sorted[1..];
    }
  }

  lemma {:induction false} InsertSorted<T(!new)>(le: (T, T) -> bool, x: T, sorted: seq<T>)
    requires TotalPreorder(le) && Sorted(le, sorted)
    ensures Sorted(le, Insert(le, x, sorted))
  {
    if sorted == [] {
      assert [x][1..] == [];
    } else if le(x, sorted[0]) {
      assert ([x] + sorted)[1..] == sorted;
      assert sorted == [sorted[0]] + sorted[1..];
    } else {
      InsertSorted(le, x, sorted[1..]);
      InsertMembers(le, x, sorted[1..]);
      assert ([sorted[0]] + Insert(le, x, sorted[1..]))[1..] == Insert(le, x, sorted[1..]);
    }
  }

  lemma {:induction false} SortPermutes<T>(le: (T, T) -> bool, items: seq<T>)
    ensures multiset(Sort(le, items)) == multiset(items)
  {
    if items != [] {
      SortPermutes(le, items[1..]);
      InsertMembers(le, items[0], Sort(le, items[1..]));
      assert items == [items[0]] + items[1..];
    }
  }

  lemma {:induction false} SortSorts<T(!new)>(le: (T, T) -> bool, items: seq<T>)
    requires TotalPreorder(le)
    ensures Sorted(le, Sort(le, items))
  {
    if items != [] {
      SortSorts(le, items[1..]);
      InsertSorted(le, items[0], Sort(le, items[1..]));
    }
  }

  lemma {:induction false} SortOfSorted<T>(le: (T, T) -> bool, items: seq<T>)
    requires Sorted(le, items)
    ensures Sort(le, items) == items
  {
    if items != [] {
      SortOfSorted(le, items[1..]);
      assert items == [items[0]] + items[1..];
      if items[1..] != [] {
        assert items[1..][0] in items[1..];
      }
    }
  }

  lemma TailMultiset<T>(a: seq<T>)
    requires a != []
    ensures a[0] in multiset(a) && multiset(a[1..]) == multiset(a) - multiset{a[0]}
  {
    assert a == [a[0]] + a[1..];
  }

  lemma HeadOrTail<T>(a: seq<T>, x: T)
    requires x in multiset(a)
    ensures a != [] && (x == a[0] || x in a[1..])
  {
    assert x in a;
  }

  lemma SameHead<T(!new)>(le: (T, T) -> bool, a: seq<T>, b: seq<T>)
    requires a != [] && b != [] && Sorted(le, a) && Sorted(le, b) && multiset(a) == multiset(b)
    requires forall x, y :: le(x, y) && le(y, x) ==> x == y
    ensures a[0] == b[0]
  {
    TailMultiset(a);
    TailMultiset(b);
    HeadOrTail(a, b[0]);
    HeadOrTail(b, a[0]);
  }

  /** With an antisymmetric order there is only one sorted arrangement. */
  lemma {:induction false} SortedUnique<T(!new)>(le: (T, T) -> bool, a: seq<T>, b: seq<T>)
    requires Sorted(le, a) && Sorted(le, b) && multiset(a) == multiset(b)
    requires forall x, y :: le(x, y) && le(y, x) ==> x == y
    ensures a == b
  {
    if a == [] || b == [] {
      assert |multiset(a)| == |multiset(b)|;
    } else {
      SameHead(le, a, b);
      TailMultiset(a);
      TailMultiset(b);
      SortedUnique(le, a[1..], b[1..]);
      assert a == [a[0]] + a[1..] && b == [b[0]] + b[1..];
    }
  }

  lemma SortSameMembers<T>(le: (T, T) -> bool, items: seq<T>)
    ensures forall y :: y in Sort(le, items) <==> y in items
  {
    SortPermutes(le, items);
    forall y
      ensures y in Sort(le, items) <==> y in items
    {
      assert y in Sort(le, items) <==> y in multiset(Sort(le, items));
      assert y in items <==> y in multiset(items);
    }
  }

  lemma SortOne<T>(le: (T, T) -> bool, x: T)
    ensures Sort(le, [x]) == [x]
  {
    assert [x][1..] == [];
    assert Sort(le, [x][1..]) == [];
  }
}
