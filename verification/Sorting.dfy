/** Sorted lists: their uniqueness, and sort.Strings by its result. */
module Sorting {
  import opened Text
  import opened Indexing

  ghost predicate StrictlySortedBy<T(!new)>(s: seq<T>, less: (T, T) -> bool) {
    forall i, j :: 0 <= i < j < |s| ==> less(s[i], s[j])
  }

  ghost predicate StrictOrder<T(!new)>(less: (T, T) -> bool) {
    && (forall a :: !less(a, a))
    && (forall a, b, c :: less(a, b) && less(b, c) ==> less(a, c))
  }

  /** A strictly sorted list is determined by its elements. */
  lemma {:induction false} SortedListUnique<T(!new)>(p: seq<T>, q: seq<T>, less: (T, T) -> bool)
    requires StrictOrder(less) && StrictlySortedBy(p, less) && StrictlySortedBy(q, less)
    requires forall a :: a in p <==> a in q
    ensures p == q
  {
    if p == [] {
      NonEmptyHas(q);
    } else {
      assert p[0] in p && q != [] && q[0] in q;
      var p0, q0 := p[0], q[0];
      var i :| 0 <= i < |q| && q[i] == p0;
      var j :| 0 <= j < |p| && p[j] == q0;
      assert i == 0 || less(q0, p0);
      assert j == 0 || less(p0, q0);
      assert p[0] == q[0];
      forall a ensures a in p[1..] <==> a in q[1..] {
        TailHas(p, less, a);
        TailHas(q, less, a);
      }
      SortedListUnique(p[1..], q[1..], less);
      assert p == [p[0]] + p[1..] && q == [q[0]] + q[1..];
    }
  }

  lemma NonEmptyHas<T(!new)>(s: seq<T>)
    ensures s == [] || exists a :: a in s
  {
    if s != [] {
      assert s[0] in s;
    }
  }

  lemma TailHas<T(!new)>(s: seq<T>, less: (T, T) -> bool, a: T)
    requires s != [] && StrictOrder(less) && StrictlySortedBy(s, less)
    ensures a in s[1..] <==> a in s && a != s[0]
  {
    assert s == [s[0]] + s[1..];
  }

  lemma LessIsStrictOrder()
    ensures StrictOrder(Less)
  {
    forall a { LessIrreflexive(a); }
    forall a, b, c | Less(a, b) && Less(b, c) ensures Less(a, c) { LessTransitive(a, b, c); }
  }

  /** Nothing out of order; equal entries may repeat. */
  ghost predicate Ordered(s: seq<string>) {
    forall i, j :: 0 <= i < j < |s| ==> !Less(s[j], s[i])
  }

  function InsertString(s: seq<string>, x: string): (r: seq<string>)
    ensures multiset(r) == multiset(s) + multiset{x}
  {
    if s == [] || !Less(s[0], x) then [x] + s
    else
      assert s == [s[0]] + s[1..];
      [s[0]] + InsertString(s[1..], x)
  }

  /** sort.Strings. */
  function SortStrings(s: seq<string>): (r: seq<string>)
    ensures multiset(r) == multiset(s)
  {
    if s == [] then []
    else
      assert s == s[..|s| - 1] + [s[|s| - 1]];
      InsertString(SortStrings(s[..|s| - 1]), s[|s| - 1])
  }

  lemma SortStringsElements(s: seq<string>)
    ensures forall x :: x in SortStrings(s) <==> x in s
    ensures |SortStrings(s)| == |s|
  {
    assert forall x :: x in SortStrings(s) <==> x in multiset(SortStrings(s));
    assert forall x :: x in s <==> x in multiset(s);
    assert |multiset(SortStrings(s))| == |SortStrings(s)| && |multiset(s)| == |s|;
  }

  lemma {:induction false} InsertStringOrdered(s: seq<string>, x: string)
    requires Ordered(s)
    ensures Ordered(InsertString(s, x))
    ensures forall y :: y in InsertString(s, x) <==> y == x || y in s
  {
    LessIsStrictOrder();
    if s == [] {
    } else if !Less(s[0], x) {
      forall j | 0 <= j < |s| ensures !Less(s[j], x) {
        if Less(s[j], x) {
          LessTotal(s[0], x);
          LessTotal(s[0], s[j]);
        }
      }
    } else {
      assert s == [s[0]] + s[1..];
      InsertStringOrdered(s[1..], x);
      var r := InsertString(s[1..], x);
      forall j | 0 <= j < |r| ensures !Less(r[j], s[0]) {
        assert r[j] in r;
      }
    }
  }

  lemma {:induction false} SortStringsOrdered(s: seq<string>)
    ensures Ordered(SortStrings(s))
  {
    if s != [] {
      SortStringsOrdered(s[..|s| - 1]);
      InsertStringOrdered(SortStrings(s[..|s| - 1]), s[|s| - 1]);
    }
  }

  lemma {:induction false} NoDupMultiset<T(!new)>(s: seq<T>)
    ensures NoDup(s) <==> forall x :: multiset(s)[x] <= 1
  {
    if s != [] {
      var rest, last := s[..|s| - 1], s[|s| - 1];
      assert s == rest + [last];
      NoDupMultiset(rest);
      assert multiset(s) == multiset(rest) + multiset{last};
      if NoDup(s) {
        assert last !in rest;
        assert multiset(rest)[last] == 0;
      } else if NoDup(rest) {
        assert last in rest;
        assert multiset(rest)[last] >= 1;
        assert multiset(s)[last] >= 2;
      } else {
        var x :| multiset(rest)[x] > 1;
        assert multiset(s)[x] > 1;
      }
    }
  }

  /** Sorting distinct strings gives the ascending list of their set. */
  lemma SortDistinct(s: seq<string>)
    requires NoDup(s)
    ensures StrictlySortedBy(SortStrings(s), Less)
  {
    var r := SortStrings(s);
    SortStringsOrdered(s);
    NoDupMultiset(s);
    NoDupMultiset(r);
    forall i, j | 0 <= i < j < |r| ensures Less(r[i], r[j]) {
      LessTotal(r[i], r[j]);
    }
  }

  /** The ascending list of a set. */
  ghost function Ascending(s: set<string>): seq<string> {
    if s == {} then []
    else
      LeastExists(s);
      var least :| least in s && forall x :: x in s ==> !Less(x, least);
      [least] + Ascending(s - {least})
  }

  lemma {:induction false} LeastExists(s: set<string>)
    requires s != {}
    ensures exists least :: least in s && forall x :: x in s ==> !Less(x, least)
  {
    var y :| y in s;
    LessIrreflexive(y);
    var rest := s - {y};
    if rest != {} {
      LeastExists(rest);
      var least :| least in rest && forall x :: x in rest ==> !Less(x, least);
      var m := if Less(y, least) then y else least;
      forall x | x in s ensures !Less(x, m) {
        if Less(x, y) && Less(y, least) {
          LessTransitive(x, y, least);
        }
      }
      assert m in s;
    } else {
      assert s == {y} + rest;
    }
  }

  lemma {:induction false} AscendingSound(s: set<string>)
    ensures StrictlySortedBy(Ascending(s), Less)
    ensures forall x :: x in Ascending(s) <==> x in s
  {
    if s != {} {
      LeastExists(s);
      var least :| least in s && (forall x :: x in s ==> !Less(x, least)) && Ascending(s) == [least] + Ascending(s - {least});
      AscendingSound(s - {least});
      LeastFirst(s, least, Ascending(s - {least}));
    }
  }

  lemma LeastFirst(s: set<string>, least: string, tail: seq<string>)
    requires least in s && (forall x :: x in s ==> !Less(x, least)) && StrictlySortedBy(tail, Less)
    requires forall x :: x in tail <==> x in s - {least}
    ensures StrictlySortedBy([least] + tail, Less)
    ensures forall x :: x in [least] + tail <==> x in s
  {
    forall j | 0 <= j < |tail| ensures Less(least, tail[j]) {
      assert tail[j] in tail;
      LessTotal(least, tail[j]);
    }
  }

  lemma SortIsAscending(s: seq<string>, elements: set<string>)
    requires NoDup(s) && forall x :: x in s <==> x in elements
    ensures SortStrings(s) == Ascending(elements)
  {
    SortDistinct(s);
    SortStringsElements(s);
    AscendingSound(elements);
    LessIsStrictOrder();
    SortedListUnique(SortStrings(s), Ascending(elements), Less);
  }

  /** A set listed in ascending order, drained in arbitrary order. */
  method SortedElements(elements: set<string>) returns (out: seq<string>)
    ensures out == Ascending(elements)
  {
    var listed: seq<string> := [];
    var todo := elements;
    while todo != {}
      invariant todo <= elements && NoDup(listed)
      invariant forall x :: x in listed <==> x in elements - todo
    {
      var x :| x in todo;
      todo := todo - {x};
      NoDupSnoc(listed, x);
      listed := listed + [x];
    }
    SortIsAscending(listed, elements);
    out := SortStrings(listed);
  }

  /** x takes its place in a sorted list, found from the end. */
  method InsertInOrder<T(!new)>(s: seq<T>, x: T, less: (T, T) -> bool) returns (out: seq<T>)
    requires StrictOrder(less) && StrictlySortedBy(s, less) && forall y :: y in s ==> less(y, x) || less(x, y)
    ensures StrictlySortedBy(out, less) && forall y :: y in out <==> y in s || y == x
  {
    var i := |s|;
    while i > 0 && less(x, s[i - 1])
      invariant 0 <= i <= |s|
      invariant forall j :: i <= j < |s| ==> less(x, s[j])
    {
      i := i - 1;
    }
    EarlierAreLess(s, i, x, less);
    out := s[..i] + [x] + s[i..];
    Inserted(s, i, x, less);
  }

  lemma EarlierAreLess<T(!new)>(s: seq<T>, i: nat, x: T, less: (T, T) -> bool)
    requires StrictOrder(less) && StrictlySortedBy(s, less) && i <= |s| && (i > 0 ==> !less(x, s[i - 1]))
    requires forall y :: y in s ==> less(y, x) || less(x, y)
    ensures forall j :: 0 <= j < i ==> less(s[j], x)
  {
    if i > 0 {
      assert s[i - 1] in s;
      forall j | 0 <= j < i - 1 ensures less(s[j], x) {
        assert less(s[j], s[i - 1]) && less(s[i - 1], x);
      }
    }
  }

  lemma Inserted<T(!new)>(s: seq<T>, i: nat, x: T, less: (T, T) -> bool)
    requires StrictlySortedBy(s, less) && i <= |s|
    requires forall j :: 0 <= j < i ==> less(s[j], x)
    requires forall j :: i <= j < |s| ==> less(x, s[j])
    ensures StrictlySortedBy(s[..i] + [x] + s[i..], less)
    ensures forall y :: y in s[..i] + [x] + s[i..] <==> y in s || y == x
  {
    assert s == s[..i] + s[i..];
  }
}
