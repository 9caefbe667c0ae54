/** Stable insertion sort by a comparison, and when its outcome depends on the elements alone. */
module Sorting {

  function Insert<T(!new)>(x: T, s: seq<T>, le: (T, T) -> bool): (r: seq<T>)
    ensures |r| == |s| + 1 && forall y :: y in r <==> y == x || y in s
  {
    if s == [] then [x] else if le(x, s[0]) then [x] + s else [s[0]] + Insert(x, s[1..], le)
  }

  function Sorted<T(!new)>(s: seq<T>, le: (T, T) -> bool): (r: seq<T>)
    ensures |r| == |s| && forall y :: y in r <==> y in s
  {
    if s == [] then [] else Insert(s[0], Sorted(s[1..], le), le)
  }

  /** The comparison is a total order as far as the elements of `s` are concerned. */
  ghost predicate Orders<T(!new)>(le: (T, T) -> bool, s: seq<T>) {
    && (forall x, y :: x in s && y in s ==> le(x, y) || le(y, x))
    && (forall x, y :: x in s && y in s && le(x, y) && le(y, x) ==> x == y)
    && (forall x, y, z :: x in s && y in s && z in s && le(x, y) && le(y, z) ==> le(x, z))
  }

  predicate Ascending<T(==)>(s: seq<T>, le: (T, T) -> bool) {
    s == [] || ((forall y :: y in s ==> le(s[0], y)) && Ascending(s[1..], le))
  }

  lemma {:induction false} InsertKeeps<T(!new)>(x: T, s: seq<T>, le: (T, T) -> bool)
    ensures multiset(Insert(x, s, le)) == multiset(s) + multiset{x}
  {
    if s != [] {
      assert s == [s[0]] + s[1..];
      if !le(x, s[0]) { InsertKeeps(x, s[1..], le); }
    }
  }

  lemma {:induction false} SortKeeps<T(!new)>(s: seq<T>, le: (T, T) -> bool)
    ensures multiset(Sorted(s, le)) == multiset(s)
  {
    if s != [] {
      SortKeeps(s[1..], le);
      InsertKeeps(s[0], Sorted(s[1..], le), le);
      assert s == [s[0]] + s[1..];
    }
  }

  lemma {:induction false} InsertAscends<T(!new)>(x: T, s: seq<T>, le: (T, T) -> bool, all: seq<T>)
    requires Orders(le, all) && x in all && (forall y :: y in s ==> y in all) && Ascending(s, le)
    ensures Ascending(Insert(x, s, le), le)
  {
    if s != [] {
      var first := s[0];
      assert first in s;
      if le(x, first) {
        assert ([x] + s)[1..] == s;
      } else {
        InsertAscends(x, s[1..], le, all);
        var r := Insert(x, s, le);
        assert r[0] == first && r[1..] == Insert(x, s[1..], le);
      }
    }
  }

  lemma {:induction false} SortAscends<T(!new)>(s: seq<T>, le: (T, T) -> bool, all: seq<T>)
    requires Orders(le, all) && forall y :: y in s ==> y in all
    ensures Ascending(Sorted(s, le), le)
  {
    if s != [] {
      assert s[0] in s;
      SortAscends(s[1..], le, all);
      InsertAscends(s[0], Sorted(s[1..], le), le, all);
    }
  }

  lemma SameMembers<T(!new)>(a: seq<T>, b: seq<T>)
    requires multiset(a) == multiset(b)
    ensures forall y :: y in a <==> y in b
  {
    assert forall y :: y in a <==> y in multiset(a);
    assert forall y :: y in b <==> y in multiset(b);
  }

  lemma {:induction false} AscendingIsUnique<T(!new)>(a: seq<T>, b: seq<T>, le: (T, T) -> bool, all: seq<T>)
    requires multiset(a) == multiset(b) && Ascending(a, le) && Ascending(b, le)
    requires Orders(le, all) && forall y :: y in a ==> y in all
    ensures a == b
  {
    assert |multiset(a)| == |a| && |multiset(b)| == |b|;
    if a != [] {
      SameMembers(a, b);
      FirstIsLeast(a, b, le, all);
      SameRest(a, b);
      hide Orders;
      AscendingIsUnique(a[1..], b[1..], le, all);
      assert a == [a[0]] + a[1..] && b == [b[0]] + b[1..];
    }
  }

  lemma SameRest<T>(a: seq<T>, b: seq<T>)
    requires a != [] && b != [] && a[0] == b[0] && multiset(a) == multiset(b)
    ensures multiset(a[1..]) == multiset(b[1..])
  {
    assert a == [a[0]] + a[1..] && b == [b[0]] + b[1..];
    assert multiset(a[1..]) == multiset(a) - multiset{a[0]};
    assert multiset(b[1..]) == multiset(b) - multiset{b[0]};
  }

  lemma FirstIsLeast<T(!new)>(a: seq<T>, b: seq<T>, le: (T, T) -> bool, all: seq<T>)
    requires (forall y :: y in a <==> y in b) && a != [] && b != [] && Ascending(a, le) && Ascending(b, le)
    requires Orders(le, all) && forall y :: y in a ==> y in all
    ensures a[0] == b[0]
  {
    var x, y := a[0], b[0];
    assert x in a && y in b;
  }

  /** Sorting forgets the order of the elements, and nothing else. */
  lemma SortsAlike<T(!new)>(a: seq<T>, b: seq<T>, le: (T, T) -> bool)
    requires Orders(le, a + b)
    ensures Sorted(a, le) == Sorted(b, le) <==> multiset(a) == multiset(b)
  {
    SortKeeps(a, le);
    SortKeeps(b, le);
    if multiset(a) == multiset(b) {
      SortAscends(a, le, a + b);
      SortAscends(b, le, a + b);
      AscendingIsUnique(Sorted(a, le), Sorted(b, le), le, a + b);
    }
  }
}
