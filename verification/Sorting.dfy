/** Stable sorting by a total preorder: what `Array.prototype.sort` and Python's `sorted` promise. */
module Sorting {

  ghost predicate TotalPreorder<T(!new)>(le: (T, T) -> bool) {
    && (forall x, y :: le(x, y) || le(y, x))
    && (forall x, y, z :: le(x, y) && le(y, z) ==> le(x, z))
  }

  ghost predicate Antisymmetric<T(!new)>(le: (T, T) -> bool) {
    forall x, y :: le(x, y) && le(y, x) ==> x == y
  }

  ghost predicate Ascending<T>(le: (T, T) -> bool, s: seq<T>) {
    forall i, j :: 0 <= i < j < |s| ==> le(s[i], s[j])
  }

  lemma ConsAscending<T(!new)>(le: (T, T) -> bool, x: T, s: seq<T>)
    requires Ascending(le, s) && forall y :: y in s ==> le(x, y)
    ensures Ascending(le, [x] + s)
  {
  }

  function Insert<T(!new)>(le: (T, T) -> bool, x: T, s: seq<T>): (r: seq<T>)
    requires TotalPreorder(le) && Ascending(le, s)
    ensures Ascending(le, r) && multiset(r) == multiset(s) + multiset{x}
  {
    if s == [] || le(x, s[0]) then
      assert forall j :: 0 <= j < |s| ==> le(x, s[j]);
      [x] + s
    else
      var rest := Insert(le, x, s[1..]);
      assert s == [s[0]] + s[1..];
      SameElements(rest, s[1..] + [x]);
      ConsAscending(le, s[0], rest);
      [s[0]] + rest
  }

  /** Insertion sort; an element goes in front of its equals that came later, so it is stable. */
  function Sort<T(!new)>(le: (T, T) -> bool, s: seq<T>): (r: seq<T>)
    requires TotalPreorder(le)
    ensures Ascending(le, r) && multiset(r) == multiset(s)
    ensures |r| == |s| && forall x :: x in r <==> x in s
  {
    var r := if s == [] then [] else Insert(le, s[0], Sort(le, s[1..]));
    assert multiset(r) == multiset(s) by {
      if s != [] { assert s == [s[0]] + s[1..]; }
    }
    SameElements(r, s);
    r
  }

  lemma SameElements<T>(a: seq<T>, b: seq<T>)
    requires multiset(a) == multiset(b)
    ensures |a| == |b| && forall x :: x in a <==> x in b
  {
    assert |multiset(a)| == |a| && |multiset(b)| == |b|;
    forall x ensures x in a <==> x in b {
      assert x in a <==> x in multiset(a);
    }
  }

  /** With no two distinct elements tied, the ascending arrangement of a multiset is unique. */
  lemma {:induction false} AscendingUnique<T(!new)>(le: (T, T) -> bool, a: seq<T>, b: seq<T>)
    requires TotalPreorder(le) && Antisymmetric(le)
    requires Ascending(le, a) && Ascending(le, b)
    requires multiset(a) == multiset(b)
    ensures a == b
  {
    SameElements(a, b);
    if a != [] {
      SameFirst(le, a, b);
      DropFirst(a);
      DropFirst(b);
      AscendingUnique(le, a[1..], b[1..]);
      FirstAndRest(a, b);
    }
  }

  lemma FirstAndRest<T>(a: seq<T>, b: seq<T>)
    requires a != [] && b != [] && a[0] == b[0] && a[1..] == b[1..]
    ensures a == b
  {
    assert a == [a[0]] + a[1..] && b == [b[0]] + b[1..];
  }

  lemma SameFirst<T(!new)>(le: (T, T) -> bool, a: seq<T>, b: seq<T>)
    requires TotalPreorder(le) && Antisymmetric(le) && Ascending(le, a) && Ascending(le, b)
    requires a != [] && b != [] && forall x :: x in a <==> x in b
    ensures a[0] == b[0]
  {
    LeastFirst(le, a, b[0]);
    LeastFirst(le, b, a[0]);
  }

  lemma LeastFirst<T(!new)>(le: (T, T) -> bool, s: seq<T>, x: T)
    requires TotalPreorder(le) && Ascending(le, s) && x in s
    ensures le(s[0], x)
  {
    var i :| 0 <= i < |s| && s[i] == x;
  }

  lemma DropFirst<T>(s: seq<T>)
    requires s != []
    ensures multiset(s[1..]) == multiset(s) - multiset{s[0]}
  {
    assert s == [s[0]] + s[1..];
  }

  /** Two lists without repetitions that hold the same elements are rearrangements of each other. */
  lemma {:induction false} DistinctSameMultiset<T>(a: seq<T>, b: seq<T>)
    requires forall i, j :: 0 <= i < j < |a| ==> a[i] != a[j]
    requires forall i, j :: 0 <= i < j < |b| ==> b[i] != b[j]
    requires forall x :: x in a <==> x in b
    ensures multiset(a) == multiset(b)
  {
    forall x ensures multiset(a)[x] == multiset(b)[x] {
      CountDistinct(a, x);
      CountDistinct(b, x);
    }
  }

  lemma {:induction false} CountDistinct<T>(a: seq<T>, x: T)
    requires forall i, j :: 0 <= i < j < |a| ==> a[i] != a[j]
    ensures multiset(a)[x] == if x in a then 1 else 0
  {
    if a != [] {
      CountDistinct(a[1..], x);
      assert a == [a[0]] + a[1..];
    }
  }
}
