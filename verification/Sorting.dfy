/** Sorting by a total order, as `sorted` does. */
module Sorting {
  ghost predicate TotalOrder<T(!new)>(le: (T, T) -> bool) {
    && (forall a, b :: le(a, b) || le(b, a))
    && (forall a, b, c :: le(a, b) && le(b, c) ==> le(a, c))
  }

  predicate SortedBy<T>(le: (T, T) -> bool, s: seq<T>) {
    forall i, j :: 0 <= i < j < |s| ==> le(s[i], s[j])
  }

  lemma {:induction false} SortedCons<T(!new)>(le: (T, T) -> bool, x: T, s: seq<T>)
    requires SortedBy(le, s) && forall y :: y in s ==> le(x, y)
    ensures SortedBy(le, [x] + s) && multiset([x] + s) == multiset(s) + multiset{x}
  {
  }

  lemma {:induction false} SortedHead<T(!new)>(le: (T, T) -> bool, s: seq<T>)
    requires TotalOrder(le) && SortedBy(le, s) && s != []
    ensures SortedBy(le, s[1..]) && (forall y :: y in s ==> le(s[0], y))
    ensures multiset(s) == multiset(s[1..]) + multiset{s[0]}
  {
    assert s == [s[0]] + s[1..];
  }

  function Insert<T>(x: T, s: seq<T>, le: (T, T) -> bool): seq<T> {
    if s == [] || le(x, s[0]) then [x] + s else [s[0]] + Insert(x, s[1..], le)
  }

  function Sorted<T>(s: seq<T>, le: (T, T) -> bool): seq<T> {
    if s == [] then [] else Insert(s[0], Sorted(s[1..], le), le)
  }

  lemma {:induction false} InsertSorts<T(!new)>(x: T, s: seq<T>, le: (T, T) -> bool)
    requires TotalOrder(le) && SortedBy(le, s)
    ensures SortedBy(le, Insert(x, s, le)) && multiset(Insert(x, s, le)) == multiset(s) + multiset{x}
  {
    if s != [] {
      SortedHead(le, s);
      if le(x, s[0]) {
        SortedCons(le, x, s);
      } else {
        var rest := Insert(x, s[1..], le);
        InsertSorts(x, s[1..], le);
        SameMembers(rest, [x] + s[1..]);
        SortedCons(le, s[0], rest);
      }
    }
  }

  lemma {:induction false} Sorts<T(!new)>(s: seq<T>, le: (T, T) -> bool)
    requires TotalOrder(le)
    ensures SortedBy(le, Sorted(s, le)) && multiset(Sorted(s, le)) == multiset(s)
    ensures |Sorted(s, le)| == |s| && forall x :: x in Sorted(s, le) <==> x in s
  {
    if s != [] {
      assert s == [s[0]] + s[1..];
      Sorts(s[1..], le);
      InsertSorts(s[0], Sorted(s[1..], le), le);
    }
    SameMembers(s, Sorted(s, le));
    assert |multiset(s)| == |s| && |multiset(Sorted(s, le))| == |Sorted(s, le)|;
  }

  lemma {:induction false} SameMembers<T>(a: seq<T>, b: seq<T>)
    requires multiset(a) == multiset(b)
    ensures forall y :: y in a <==> y in b
  {
    forall y
      ensures y in a <==> y in b
    {
      assert y in a <==> y in multiset(a);
    }
  }

  predicate Pairwise<T>(r: (T, T) -> bool, s: seq<T>) {
    forall i, j :: 0 <= i < j < |s| ==> r(s[i], s[j])
  }

  lemma {:induction false} PairwiseCons<T(!new)>(r: (T, T) -> bool, x: T, s: seq<T>)
    ensures Pairwise(r, [x] + s) <==> Pairwise(r, s) && forall y :: y in s ==> r(x, y)
  {
    var all := [x] + s;
    assert forall i :: 0 <= i < |s| ==> all[i + 1] == s[i];
    if Pairwise(r, all) {
      forall i, j | 0 <= i < j < |s|
        ensures r(s[i], s[j])
      {
        assert r(all[i + 1], all[j + 1]);
      }
      forall y | y in s
        ensures r(x, y)
      {
        var i :| 0 <= i < |s| && s[i] == y;
        assert r(all[0], all[i + 1]);
      }
    }
  }

  lemma {:induction false} InsertMembers<T(!new)>(x: T, s: seq<T>, le: (T, T) -> bool)
    ensures forall y :: y in Insert(x, s, le) <==> y == x || y in s
  {
    if s != [] && !le(x, s[0]) {
      InsertMembers(x, s[1..], le);
    }
  }

  /** A symmetric relation between all pairs survives sorting. */
  lemma {:induction false} InsertPairwise<T(!new)>(r: (T, T) -> bool, x: T, s: seq<T>, le: (T, T) -> bool)
    requires (forall a, b :: r(a, b) ==> r(b, a)) && Pairwise(r, [x] + s)
    ensures Pairwise(r, Insert(x, s, le))
  {
    if s != [] && !le(x, s[0]) {
      assert s == [s[0]] + s[1..];
      PairwiseCons(r, x, s);
      PairwiseCons(r, s[0], s[1..]);
      PairwiseCons(r, x, s[1..]);
      InsertPairwise(r, x, s[1..], le);
      InsertMembers(x, s[1..], le);
      PairwiseCons(r, s[0], Insert(x, s[1..], le));
    }
  }

  lemma {:induction false} SortedPairwise<T(!new)>(r: (T, T) -> bool, s: seq<T>, le: (T, T) -> bool)
    requires TotalOrder(le) && (forall a, b :: r(a, b) ==> r(b, a)) && Pairwise(r, s)
    ensures Pairwise(r, Sorted(s, le))
  {
    if s != [] {
      assert s == [s[0]] + s[1..];
      PairwiseCons(r, s[0], s[1..]);
      SortedPairwise(r, s[1..], le);
      Sorts(s[1..], le);
      PairwiseCons(r, s[0], Sorted(s[1..], le));
      InsertPairwise(r, s[0], Sorted(s[1..], le), le);
    }
  }
}
