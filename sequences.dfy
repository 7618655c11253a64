/** Subsequences: what a filtering loop keeps of its input, in order. */
module Sequences {

  /** `a` is `b` with some elements left out, the rest kept in order. */
  predicate IsSubsequence<T(==)>(a: seq<T>, b: seq<T>)
    decreases |b|
  {
    if a == [] then true
    else if b == [] then false
    else (a[0] == b[0] && IsSubsequence(a[1..], b[1..])) || IsSubsequence(a, b[1..])
  }

  /** Leaving out the first element of `b` keeps `a` a subsequence of all of `b`. */
  lemma SubsequenceOfTail<T>(a: seq<T>, b: seq<T>)
    requires b != [] && IsSubsequence(a, b[1..])
    ensures IsSubsequence(a, b)
  {
  }

  /** A subsequence stays one when the same element is added to both ends. */
  lemma {:induction false} SubsequenceSnoc<T>(a: seq<T>, b: seq<T>, x: T)
    requires IsSubsequence(a, b)
    ensures IsSubsequence(a + [x], b + [x])
    decreases |b|
  {
    if a == [] {
      SubsequenceOfSingleton(x, b);
      assert a + [x] == [x];
    } else if a[0] == b[0] && IsSubsequence(a[1..], b[1..]) {
      SubsequenceSnoc(a[1..], b[1..], x);
      assert (a + [x])[1..] == a[1..] + [x];
      assert (b + [x])[1..] == b[1..] + [x];
    } else {
      SubsequenceSnoc(a, b[1..], x);
      assert (b + [x])[1..] == b[1..] + [x];
    }
  }

  /** A single element is a subsequence of any sequence ending in it. */
  lemma {:induction false} SubsequenceOfSingleton<T>(x: T, b: seq<T>)
    ensures IsSubsequence([x], b + [x])
    decreases |b|
  {
    if b != [] {
      SubsequenceOfSingleton(x, b[1..]);
      assert (b + [x])[1..] == b[1..] + [x];
    } else {
      var one: seq<T> := [x];
      assert one[1..] == [];
    }
  }

  /** A subsequence of `b` is one of any extension of `b`. */
  lemma {:induction false} SubsequenceExtend<T>(a: seq<T>, b: seq<T>, c: seq<T>)
    requires IsSubsequence(a, b)
    ensures IsSubsequence(a, b + c)
    decreases |b|
  {
    if a == [] {
    } else if a[0] == b[0] && IsSubsequence(a[1..], b[1..]) {
      SubsequenceExtend(a[1..], b[1..], c);
      assert (b + c)[1..] == b[1..] + c;
    } else {
      SubsequenceExtend(a, b[1..], c);
      assert (b + c)[1..] == b[1..] + c;
    }
  }
}
