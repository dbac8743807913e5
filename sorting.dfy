/** Python's `list.sort()` on a list whose elements are totally ordered, as
    a value: the sorted permutation of the input, which is unique. */
module Sorting {

  /** `le` relates every pair one way or the other. */
  ghost predicate Connex<T(!new)>(le: (T, T) -> bool)
  {
    forall a, b :: le(a, b) || le(b, a)
  }

  /** `le` relates two values both ways only when they are equal. */
  ghost predicate Antisymmetric<T(!new)>(le: (T, T) -> bool)
  {
    forall a, b :: le(a, b) && le(b, a) ==> a == b
  }

  ghost predicate Transitive<T(!new)>(le: (T, T) -> bool)
  {
    forall a, b, c :: le(a, b) && le(b, c) ==> le(a, c)
  }

  ghost predicate IsTotalOrder<T(!new)>(le: (T, T) -> bool)
  {
    Connex(le) && Antisymmetric(le) && Transitive(le)
  }

  predicate Sorted<T(!new)>(s: seq<T>, le: (T, T) -> bool)
  {
    forall i, j :: 0 <= i < j < |s| ==> le(s[i], s[j])
  }

  lemma SortedAt<T(!new)>(s: seq<T>, le: (T, T) -> bool, i: int, j: int)
    requires Sorted(s, le) && 0 <= i < j < |s|
    ensures le(s[i], s[j])
  {
  }

  /** Places `x` in front of the first element it does not exceed. */
  function Insert<T(!new)>(x: T, s: seq<T>, le: (T, T) -> bool): (r: seq<T>)
    requires IsTotalOrder(le)
    requires Sorted(s, le)
    ensures Sorted(r, le)
    ensures multiset(r) == multiset(s) + multiset{x}
    ensures |r| == |s| + 1
  {
    if |s| == 0 then [x]
    else if le(x, s[0]) then [x] + s
    else
      var rest := Insert(x, s[1..], le);
      HeadBelowInserted(x, s, rest, le);
      assert s == [s[0]] + s[1..];
      [s[0]] + rest
  }

  /** Once `x` goes after the head, the head stays below everything that
      the rest of the insertion produces. */
  lemma HeadBelowInserted<T(!new)>(x: T, s: seq<T>, rest: seq<T>, le: (T, T) -> bool)
    requires IsTotalOrder(le) && Sorted(s, le) && |s| > 0 && !le(x, s[0])
    requires multiset(rest) == multiset(s[1..]) + multiset{x}
    ensures forall k :: 0 <= k < |rest| ==> le(s[0], rest[k])
  {
    forall k | 0 <= k < |rest|
      ensures le(s[0], rest[k])
    {
      assert rest[k] in multiset(rest);
      if rest[k] != x {
        assert rest[k] in s[1..];
        var i :| 0 <= i < |s[1..]| && s[1..][i] == rest[k];
        SortedAt(s, le, 0, i + 1);
      }
    }
  }

  /** The ascending arrangement of `s` (insertion sort). */
  function Sort<T(!new)>(s: seq<T>, le: (T, T) -> bool): (r: seq<T>)
    requires IsTotalOrder(le)
    ensures Sorted(r, le)
    ensures multiset(r) == multiset(s)
    ensures |r| == |s|
  {
    if |s| == 0 then []
    else
      assert s == [s[0]] + s[1..];
      Insert(s[0], Sort(s[1..], le), le)
  }

  /** In a sorted sequence the first element is below every element. */
  lemma SortedHeadBelow<T(!new)>(a: seq<T>, x: T, le: (T, T) -> bool)
    requires Sorted(a, le)
    requires x in a
    ensures x == a[0] || le(a[0], x)
  {
    var i :| 0 <= i < |a| && a[i] == x;
  }

  lemma SortedTail<T(!new)>(a: seq<T>, le: (T, T) -> bool)
    requires Sorted(a, le) && |a| > 0
    ensures Sorted(a[1..], le)
  {
    forall i, j | 0 <= i < j < |a| - 1
      ensures le(a[1..][i], a[1..][j])
    {
      assert le(a[i + 1], a[j + 1]);
    }
  }

  lemma TailMultiset<T>(a: seq<T>)
    requires |a| > 0
    ensures multiset(a[1..]) == multiset(a) - multiset{a[0]}
  {
    assert a == [a[0]] + a[1..];
  }

  lemma SortedSameHead<T(!new)>(a: seq<T>, b: seq<T>, le: (T, T) -> bool)
    requires Antisymmetric(le)
    requires Sorted(a, le) && Sorted(b, le)
    requires multiset(a) == multiset(b) && |a| > 0 && |b| > 0
    ensures a[0] == b[0]
  {
    assert a[0] in multiset(b) && b[0] in multiset(a);
    SortedHeadBelow(b, a[0], le);
    SortedHeadBelow(a, b[0], le);
  }

  /** Two sorted arrangements of the same multiset are the same sequence,
      so the result of sorting depends only on the multiset of its input. */
  lemma {:induction false} SortedUnique<T(!new)>(a: seq<T>, b: seq<T>, le: (T, T) -> bool)
    requires Antisymmetric(le)
    requires Sorted(a, le) && Sorted(b, le)
    requires multiset(a) == multiset(b)
    ensures a == b
  {
    assert |a| == |multiset(a)| == |multiset(b)| == |b|;
    if |a| > 0 {
      SortedSameHead(a, b, le);
      TailMultiset(a);
      TailMultiset(b);
      SortedTail(a, le);
      SortedTail(b, le);
      SortedUnique(a[1..], b[1..], le);
      assert a == [a[0]] + a[1..];
      assert b == [b[0]] + b[1..];
    }
  }

  /** Sorting any rearrangement of a sequence gives the same result. */
  lemma {:induction false} SortPermutationInvariant<T(!new)>(s: seq<T>, t: seq<T>, le: (T, T) -> bool)
    requires IsTotalOrder(le)
    requires multiset(s) == multiset(t)
    ensures Sort(s, le) == Sort(t, le)
  {
    SortedUnique(Sort(s, le), Sort(t, le), le);
  }

  /** A sequence that is already sorted is its own sort. */
  lemma {:induction false} SortOfSorted<T(!new)>(s: seq<T>, le: (T, T) -> bool)
    requires IsTotalOrder(le)
    requires Sorted(s, le)
    ensures Sort(s, le) == s
  {
    SortedUnique(Sort(s, le), s, le);
  }
}
