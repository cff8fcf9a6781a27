/** Sorting by its mathematical meaning, for the places where the programs
    call `sort`, `sort_by`, `sort_by_key` or itertools' `sorted`: the result
    is ordered and is a permutation of the input. Insertion places a new
    element after every element that is not greater, so equal keys keep
    their input order, as Rust's stable sorts do. */
module Sorting {

  ghost predicate TotalPreorder<T(!new)>(le: (T, T) -> bool) {
    (forall a, b :: le(a, b) || le(b, a)) &&
    (forall a, b, c :: le(a, b) && le(b, c) ==> le(a, c))
  }

  predicate SortedBy<T>(s: seq<T>, le: (T, T) -> bool) {
    forall i, j :: 0 <= i < j < |s| ==> le(s[i], s[j])
  }

  function Insert<T(!new)>(x: T, s: seq<T>, le: (T, T) -> bool): (r: seq<T>)
    requires TotalPreorder(le) && SortedBy(s, le)
    ensures SortedBy(r, le)
    ensures multiset(r) == multiset(s) + multiset{x}
    ensures |r| == |s| + 1
  {
    if s == [] then [x]
    else if le(s[0], x) then
      var tail := Insert(x, s[1..], le);
      assert s == [s[0]] + s[1..];
      assert forall k :: 0 <= k < |s[1..]| ==> le(s[0], s[1..][k]) by {
        forall k | 0 <= k < |s[1..]| ensures le(s[0], s[1..][k]) {
          assert s[1..][k] == s[k + 1];
        }
      }
      BoundKept(s[0], s[1..], tail, x, le);
      [s[0]] + tail
    else
      assert le(x, s[0]);
      [x] + s
  }

  /** A lower bound of every element of s and of x bounds every element of
      a sequence holding s and x. */
  lemma BoundKept<T>(y: T, s: seq<T>, t: seq<T>, x: T, le: (T, T) -> bool)
    requires multiset(t) == multiset(s) + multiset{x}
    requires le(y, x) && forall k :: 0 <= k < |s| ==> le(y, s[k])
    ensures forall j :: 0 <= j < |t| ==> le(y, t[j])
  {
    forall j | 0 <= j < |t| ensures le(y, t[j]) {
      assert t[j] in multiset(t);
      if t[j] != x {
        assert t[j] in multiset(s);
        var k :| 0 <= k < |s| && s[k] == t[j];
      }
    }
  }

  function SortBy<T(!new)>(s: seq<T>, le: (T, T) -> bool): (r: seq<T>)
    requires TotalPreorder(le)
    ensures SortedBy(r, le)
    ensures multiset(r) == multiset(s)
    ensures |r| == |s|
  {
    if s == [] then []
    else
      assert s == s[..|s| - 1] + [s[|s| - 1]];
      Insert(s[|s| - 1], SortBy(s[..|s| - 1], le), le)
  }

  /** With an order that ties no two different elements, a sequence has
      only one sorted arrangement: whatever order the input came in, the
      sorted result is the same. */
  lemma {:induction false} SortedUnique<T>(a: seq<T>, b: seq<T>, le: (T, T) -> bool)
    requires SortedBy(a, le) && SortedBy(b, le) && multiset(a) == multiset(b)
    requires forall x, y :: le(x, y) && le(y, x) ==> x == y
    ensures a == b
    decreases |a|
  {
    assert |a| == |multiset(a)| == |multiset(b)| == |b|;
    if a != [] {
      FirstBelow(a, b[0], le);
      FirstBelow(b, a[0], le);
      TailMultiset(a);
      TailMultiset(b);
      SortedUnique(a[1..], b[1..], le);
    }
  }

  /** The first element of a sorted sequence is below every other one. */
  lemma FirstBelow<T>(a: seq<T>, x: T, le: (T, T) -> bool)
    requires SortedBy(a, le) && x in multiset(a)
    ensures x == a[0] || le(a[0], x)
  {
    var i :| 0 <= i < |a| && a[i] == x;
  }

  lemma TailMultiset<T>(a: seq<T>)
    requires a != []
    ensures multiset(a[1..]) == multiset(a) - multiset{a[0]}
  {
    assert a == [a[0]] + a[1..];
  }
}
