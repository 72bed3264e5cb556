/** Sorting with respect to a total order, as the contract of Go's sort package: a sorted permutation. */
module Sorting {
  ghost predicate TotalOrder<T(!new)>(le: (T, T) -> bool) {
    (forall a, b :: le(a, b) || le(b, a)) &&
    (forall a, b :: le(a, b) && le(b, a) ==> a == b) &&
    (forall a, b, c :: le(a, b) && le(b, c) ==> le(a, c))
  }

  ghost predicate Sorted<T>(le: (T, T) -> bool, s: seq<T>) {
    forall i, j :: 0 <= i < j < |s| ==> le(s[i], s[j])
  }

  function Insert<T>(le: (T, T) -> bool, s: seq<T>, x: T): seq<T> {
    if s == [] || le(x, s[0]) then [x] + s else [s[0]] + Insert(le, s[1..], x)
  }

  /** A sorted permutation of `s`; by `SortedIsUnique` any sorting algorithm returns this one. */
  function Sort<T>(le: (T, T) -> bool, s: seq<T>): seq<T> {
    if s == [] then [] else Insert(le, Sort(le, s[1..]), s[0])
  }

  lemma {:induction false} InsertAdds<T>(le: (T, T) -> bool, s: seq<T>, x: T)
    ensures multiset(Insert(le, s, x)) == multiset(s) + multiset{x}
  {
    if s != [] && !le(x, s[0]) {
      InsertAdds(le, s[1..], x);
      assert s == [s[0]] + s[1..];
    }
  }

  lemma {:induction false} InsertKeeps<T(!new)>(le: (T, T) -> bool, s: seq<T>, x: T)
    requires TotalOrder(le) && Sorted(le, s)
    ensures Sorted(le, Insert(le, s, x)) && multiset(Insert(le, s, x)) == multiset(s) + multiset{x}
  {
    InsertAdds(le, s, x);
    if s != [] && !le(x, s[0]) {
      InsertKeeps(le, s[1..], x);
      InsertedAreAbove(le, s, x);
    }
  }

  /** What is inserted behind the head stays above it. */
  lemma InsertedAreAbove<T(!new)>(le: (T, T) -> bool, s: seq<T>, x: T)
    requires TotalOrder(le) && Sorted(le, s) && s != [] && !le(x, s[0])
    ensures forall y :: y in Insert(le, s[1..], x) ==> le(s[0], y)
  {
    InsertAdds(le, s[1..], x);
    forall y | y in Insert(le, s[1..], x) ensures le(s[0], y) {
      assert y in multiset(Insert(le, s[1..], x));
      assert y == x || y in s[1..];
    }
  }

  lemma {:induction false} SortSorts<T(!new)>(le: (T, T) -> bool, s: seq<T>)
    requires TotalOrder(le)
    ensures Sorted(le, Sort(le, s)) && multiset(Sort(le, s)) == multiset(s) && |Sort(le, s)| == |s|
  {
    if s != [] {
      SortSorts(le, s[1..]);
      InsertKeeps(le, Sort(le, s[1..]), s[0]);
      assert s == [s[0]] + s[1..];
    }
    assert |multiset(Sort(le, s))| == |multiset(s)|;
  }

  /** Two sorted sequences with the same elements are the same. */
  lemma {:induction false} SortedIsUnique<T(!new)>(le: (T, T) -> bool, s: seq<T>, t: seq<T>)
    requires TotalOrder(le) && Sorted(le, s) && Sorted(le, t) && multiset(s) == multiset(t)
    ensures s == t
  {
    if s == [] {
      assert |multiset(t)| == 0;
    } else {
      assert t != [] by { assert s[0] in multiset(t); }
      HeadIsLeast(le, s, t[0]);
      HeadIsLeast(le, t, s[0]);
      MinusHead(s);
      MinusHead(t);
      SortedIsUnique(le, s[1..], t[1..]);
    }
  }

  lemma HeadIsLeast<T(!new)>(le: (T, T) -> bool, s: seq<T>, x: T)
    requires TotalOrder(le) && Sorted(le, s) && s != [] && x in multiset(s)
    ensures le(s[0], x)
  {
  }

  lemma MinusHead<T>(s: seq<T>)
    requires s != []
    ensures multiset(s[1..]) == multiset(s) - multiset{s[0]} && s == [s[0]] + s[1..]
  {
    assert s == [s[0]] + s[1..];
  }
}
