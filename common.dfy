/** Small shared vocabulary: optional values, results with an error, and the
    meaning of Python's `range(n)` and slices on the integers the model uses. */
module Common {

  datatype Option<T> = None | Some(value: T)

  datatype Result<T, E> = Success(value: T) | Failure(error: E)

  function Min(a: int, b: int): int { if a <= b then a else b }

  function Max(a: int, b: int): int { if a >= b then a else b }

  /** Number of values `range(n)` produces: none at all for a negative `n`. */
  function RangeLength(n: int): (r: nat)
    ensures n >= 0 ==> r == n
    ensures n < 0 ==> r == 0
  {
    if n < 0 then 0 else n
  }

  /** Python's `s[:n]`: a negative bound counts from the end. */
  function SliceTo<T>(s: seq<T>, n: int): (r: seq<T>)
    ensures n >= 0 ==> |r| == Min(n, |s|)
    ensures |r| <= |s| && r == s[..|r|]
  {
    if n >= 0 then s[..Min(n, |s|)]
    else s[..Max(0, |s| + n)]
  }

  /** Python's `s[n:]` for a non-negative `n`: empty once `n` passes the end. */
  function SliceFrom<T>(s: seq<T>, n: nat): (r: seq<T>)
    ensures |r| == Max(0, |s| - n)
    ensures forall i :: 0 <= i < |r| ==> r[i] == s[n + i]
  {
    if n >= |s| then [] else s[n..]
  }

  /** `s[:n] + s[n:] == s`. */
  lemma SliceSplit<T>(s: seq<T>, n: nat)
    ensures SliceTo(s, n) + SliceFrom(s, n) == s
  {
    if n < |s| {
      assert SliceFrom(s, n) == s[n..];
    }
  }

  /** Sequences with the same multiset have the same length and members. */
  lemma SameElements<T>(a: seq<T>, b: seq<T>)
    requires multiset(a) == multiset(b)
    ensures |a| == |b|
    ensures forall x :: x in a ==> x in b
  {
    assert |a| == |multiset(a)| == |multiset(b)| == |b|;
    forall x | x in a
      ensures x in b
    {
      assert x in multiset(a);
    }
  }

  /** Every member of `s[:n]` is a member of `s`. */
  lemma SliceToMembers<T>(s: seq<T>, n: int)
    ensures forall x :: x in SliceTo(s, n) ==> x in s
  {
    var r := SliceTo(s, n);
    assert s == r + s[|r|..];
  }
}
