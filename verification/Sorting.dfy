/** Sorting by a strict weak order, and when the outcome does not depend on the input's order. */
module Sorting {

  ghost predicate Asymmetric<T(!new)>(less: (T, T) -> bool) {
    forall x, y :: less(x, y) ==> !less(y, x)
  }

  ghost predicate NegativelyTransitive<T(!new)>(less: (T, T) -> bool) {
    forall x, y, z :: !less(x, y) && !less(y, z) ==> !less(x, z)
  }

  ghost predicate WeakOrder<T(!new)>(less: (T, T) -> bool) {
    Asymmetric(less) && NegativelyTransitive(less)
  }

  ghost predicate Sorted<T(!new)>(less: (T, T) -> bool, s: seq<T>) {
    forall i, j :: 0 <= i < j < |s| ==> !less(s[j], s[i])
  }

  /** The order tells any two different elements of the sequence apart. */
  ghost predicate Separates<T(!new)>(less: (T, T) -> bool, s: seq<T>) {
    forall x, y :: x in s && y in s && x != y ==> less(x, y) || less(y, x)
  }

  lemma SameHead<T(!new)>(less: (T, T) -> bool, a: seq<T>, b: seq<T>)
    requires Asymmetric(less) && Separates(less, a) && a != [] && b != []
    requires Sorted(less, a) && Sorted(less, b) && a[0] in b && b[0] in a
    ensures a[0] == b[0]
  {
    var i :| 0 <= i < |b| && b[i] == a[0];
    var j :| 0 <= j < |a| && a[j] == b[0];
    assert i == 0 || !less(a[0], b[0]);
    assert j == 0 || !less(b[0], a[0]);
  }

  lemma TailsAgree<T(!new)>(a: seq<T>, b: seq<T>)
    requires a != [] && b != [] && a[0] == b[0] && multiset(a) == multiset(b)
    ensures multiset(a[1..]) == multiset(b[1..])
  {
    assert a == [a[0]] + a[1..] && b == [b[0]] + b[1..];
    assert multiset(a) == multiset{a[0]} + multiset(a[1..]) && multiset(b) == multiset{b[0]} + multiset(b[1..]);
    assert multiset(a[1..]) == multiset(a) - multiset{a[0]} == multiset(b[1..]);
  }

  lemma CountedTwice<T>(s: seq<T>, i: nat, j: nat)
    requires i < j < |s| && s[i] == s[j]
    ensures multiset(s)[s[i]] >= 2
  {
    assert s == s[..j] + [s[j]] + s[j + 1..];
    assert s[..j][i] in s[..j];
  }

  lemma SameMembers<T(!new)>(a: seq<T>, b: seq<T>)
    requires multiset(a) == multiset(b)
    ensures |a| == |b| && forall x :: x in a <==> x in b
  {
    assert |multiset(a)| == |multiset(b)|;
    forall x
      ensures x in a <==> x in b
    {
      assert x in a <==> x in multiset(a);
      assert x in b <==> x in multiset(b);
    }
  }

  /** A sorted arrangement is unique once the order separates its elements. */
  lemma {:induction false} SortedUnique<T(!new)>(less: (T, T) -> bool, a: seq<T>, b: seq<T>)
    requires Asymmetric(less) && Separates(less, a)
    requires Sorted(less, a) && Sorted(less, b) && multiset(a) == multiset(b)
    ensures a == b
  {
    SameMembers(a, b);
    if a != [] {
      assert a[0] in b && b[0] in a;
      SameHead(less, a, b);
      TailsAgree(a, b);
      SortedTail(less, a);
      SortedTail(less, b);
      SortedUnique(less, a[1..], b[1..]);
      assert a == [a[0]] + a[1..] && b == [b[0]] + b[1..];
    }
  }

  lemma SortedTail<T(!new)>(less: (T, T) -> bool, a: seq<T>)
    requires a != [] && Sorted(less, a)
    ensures Sorted(less, a[1..]) && forall x :: x in a[1..] ==> x in a
  {
  }

  function Insert<T(!new)>(less: (T, T) -> bool, x: T, s: seq<T>): (r: seq<T>)
    ensures multiset(r) == multiset(s) + multiset{x} && |r| == |s| + 1
    ensures r[0] == x || (s != [] && r[0] == s[0])
    ensures forall y :: y in r <==> y == x || y in s
  {
    if s == [] || !less(s[0], x) then [x] + s
    else
      assert s == [s[0]] + s[1..];
      [s[0]] + Insert(less, x, s[1..])
  }

  lemma {:induction false} InsertSorted<T(!new)>(less: (T, T) -> bool, x: T, s: seq<T>)
    requires WeakOrder(less) && Sorted(less, s)
    ensures Sorted(less, Insert(less, x, s))
  {
    if s == [] {
    } else if !less(s[0], x) {
      assert forall j :: 0 < j < |s| ==> !less(s[j], s[0]);
      assert forall j :: 0 <= j < |s| ==> !less(s[j], x);
    } else {
      InsertSorted(less, x, s[1..]);
      var t := Insert(less, x, s[1..]);
      assert forall y :: y in t ==> y == x || y in s[1..];
      assert forall y :: y in s[1..] ==> !less(y, s[0]);
      assert forall j :: 0 <= j < |t| ==> t[j] in t && !less(t[j], s[0]);
      assert Insert(less, x, s) == [s[0]] + t;
    }
  }

  /** sort.SliceStable; sort.Slice may return any sorted arrangement of the same elements. */
  function Sort<T(!new)>(less: (T, T) -> bool, s: seq<T>): (r: seq<T>)
    ensures multiset(r) == multiset(s) && |r| == |s|
    ensures forall x :: x in r <==> x in s
  {
    if s == [] then []
    else
      assert s == [s[0]] + s[1..];
      Insert(less, s[0], Sort(less, s[1..]))
  }

  lemma {:induction false} SortSorted<T(!new)>(less: (T, T) -> bool, s: seq<T>)
    requires WeakOrder(less)
    ensures Sorted(less, Sort(less, s))
  {
    if s != [] {
      SortSorted(less, s[1..]);
      InsertSorted(less, s[0], Sort(less, s[1..]));
    }
  }

  /** Sorting forgets the order of its input. */
  lemma SortForgets<T(!new)>(less: (T, T) -> bool, a: seq<T>, b: seq<T>)
    requires WeakOrder(less) && Separates(less, a) && multiset(a) == multiset(b)
    ensures Sort(less, a) == Sort(less, b)
  {
    SortSorted(less, a);
    SortSorted(less, b);
    SortedUnique(less, Sort(less, a), Sort(less, b));
  }

  /** A sequence that is already sorted comes back unchanged. */
  lemma SortFixes<T(!new)>(less: (T, T) -> bool, a: seq<T>, s: seq<T>)
    requires WeakOrder(less) && Separates(less, s) && Sorted(less, s) && multiset(a) == multiset(s)
    ensures Sort(less, a) == s
  {
    SortSorted(less, a);
    SortedUnique(less, s, Sort(less, a));
  }
}
