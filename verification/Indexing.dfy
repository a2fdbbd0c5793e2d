/** Maps and lists as the service's loops build them. */
module Indexing {

  datatype Option<+T> = None | Some(value: T)

  /** What `for x in s { m[key(x)] = x }` leaves in m: the last writer of a key wins. */
  function IndexBy<T>(s: seq<T>, key: T -> string): map<string, T> {
    if s == [] then map[]
    else IndexBy(s[..|s| - 1], key)[key(s[|s| - 1]) := s[|s| - 1]]
  }

  lemma IndexByStep<T>(s: seq<T>, key: T -> string, i: nat)
    requires i < |s|
    ensures IndexBy(s[..i + 1], key) == IndexBy(s[..i], key)[key(s[i]) := s[i]]
  {
    assert s[..i + 1][..i] == s[..i];
  }

  /** The keys are exactly the keys of the elements, and each value carries its key. */
  lemma {:induction false} IndexBySound<T>(s: seq<T>, key: T -> string)
    ensures forall k :: k in IndexBy(s, key) ==> IndexBy(s, key)[k] in s && key(IndexBy(s, key)[k]) == k
    ensures forall x :: x in s ==> key(x) in IndexBy(s, key)
  {
    if s != [] {
      var rest := s[..|s| - 1];
      IndexBySound(rest, key);
      assert s == rest + [s[|s| - 1]];
    }
  }

  /** No two elements share a key. */
  ghost predicate DistinctBy<T(!new)>(s: seq<T>, key: T -> string) {
    forall i, j :: 0 <= i < j < |s| ==> key(s[i]) != key(s[j])
  }

  /** With distinct keys the map holds every element under its key. */
  lemma {:induction false} IndexByDistinct<T(!new)>(s: seq<T>, key: T -> string, x: T)
    requires DistinctBy(s, key) && x in s
    ensures key(x) in IndexBy(s, key) && IndexBy(s, key)[key(x)] == x
  {
    IndexBySound(s, key);
  }

  /** s without the elements keyed k. */
  function Without<T>(s: seq<T>, key: T -> string, k: string): seq<T> {
    if s == [] then []
    else
      var rest := Without(s[..|s| - 1], key, k);
      if key(s[|s| - 1]) == k then rest else rest + [s[|s| - 1]]
  }

  lemma {:induction false} IndexByWithout<T>(s: seq<T>, key: T -> string, k: string)
    ensures IndexBy(Without(s, key, k), key) == IndexBy(s, key) - {k}
  {
    if s != [] {
      IndexByWithout(s[..|s| - 1], key, k);
      var rest := Without(s[..|s| - 1], key, k);
      assert (rest + [s[|s| - 1]])[..|rest|] == rest;
    }
  }

  lemma {:induction false} WithoutAbsent<T>(s: seq<T>, key: T -> string, k: string)
    requires k !in IndexBy(s, key)
    ensures Without(s, key, k) == s
  {
    if s != [] {
      WithoutAbsent(s[..|s| - 1], key, k);
      assert s == s[..|s| - 1] + [s[|s| - 1]];
    }
  }

  lemma {:induction false} WithoutSound<T>(s: seq<T>, key: T -> string, k: string)
    ensures forall x :: x in Without(s, key, k) <==> x in s && key(x) != k
  {
    if s != [] {
      WithoutSound(s[..|s| - 1], key, k);
      assert s == s[..|s| - 1] + [s[|s| - 1]];
    }
  }

  lemma {:induction false} IndexByAppend<T>(s: seq<T>, key: T -> string, x: T)
    ensures IndexBy(s + [x], key) == IndexBy(s, key)[key(x) := x]
  {
    assert (s + [x])[..|s|] == s;
  }

  /** No element occurs twice. */
  ghost predicate NoDup<T(!new)>(s: seq<T>) {
    forall i, j :: 0 <= i < j < |s| ==> s[i] != s[j]
  }

  lemma NoDupSnoc<T(!new)>(s: seq<T>, x: T)
    requires NoDup(s) && x !in s
    ensures NoDup(s + [x])
  {
  }

  /** The elements a loop keeps, in order. */
  function Filter<T>(s: seq<T>, keep: T -> bool): seq<T> {
    if s == [] then []
    else Filter(s[..|s| - 1], keep) + (if keep(s[|s| - 1]) then [s[|s| - 1]] else [])
  }

  lemma FilterStep<T>(s: seq<T>, keep: T -> bool, i: nat)
    requires i < |s|
    ensures Filter(s[..i + 1], keep) == Filter(s[..i], keep) + (if keep(s[i]) then [s[i]] else [])
  {
    assert s[..i + 1][..i] == s[..i];
  }

  lemma {:induction false} FilterSound<T>(s: seq<T>, keep: T -> bool)
    ensures forall x :: x in Filter(s, keep) <==> x in s && keep(x)
  {
    if s != [] {
      FilterSound(s[..|s| - 1], keep);
      assert s == s[..|s| - 1] + [s[|s| - 1]];
    }
  }
}
