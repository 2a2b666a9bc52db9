/** Order-preserving relations between sequences. */
module Seqs {

  /** `a` is obtained from `b` by deleting elements, keeping the order of the rest. */
  predicate IsSubsequence<T(==)>(a: seq<T>, b: seq<T>)
    decreases |b|
  {
    if a == [] then true
    else if b == [] then false
    else (a[0] == b[0] && IsSubsequence(a[1..], b[1..])) || IsSubsequence(a, b[1..])
  }

  lemma {:induction false} SubsequenceIsSmaller<T>(a: seq<T>, b: seq<T>)
    requires IsSubsequence(a, b)
    ensures |a| <= |b|
    ensures forall x :: x in a ==> x in b
    decreases |b|
  {
    if a != [] {
      if a[0] == b[0] && IsSubsequence(a[1..], b[1..]) {
        SubsequenceIsSmaller(a[1..], b[1..]);
        forall x | x in a ensures x in b {
          if x != a[0] { assert x in a[1..]; }
        }
      } else {
        SubsequenceIsSmaller(a, b[1..]);
      }
    }
  }

  lemma {:induction false} SubsequenceReflexive<T>(a: seq<T>)
    ensures IsSubsequence(a, a)
    decreases |a|
  {
    if a != [] { SubsequenceReflexive(a[1..]); }
  }

  /** Deleting the element at index `i` leaves a subsequence. */
  lemma {:induction false} SubsequenceOfRemoval<T>(b: seq<T>, i: nat)
    requires i < |b|
    ensures IsSubsequence(b[..i] + b[i + 1..], b)
    decreases |b|
  {
    if i == 0 {
      assert b[..0] + b[1..] == b[1..];
      SubsequenceReflexive(b[1..]);
      if b[1..] != [] {
        assert IsSubsequence(b[1..], b[1..]);
      }
    } else {
      var r := b[..i] + b[i + 1..];
      SubsequenceOfRemoval(b[1..], i - 1);
      assert r[0] == b[0];
      assert r[1..] == b[1..][..i - 1] + b[1..][i..];
    }
  }

  /** Concatenation regroups freely; stated once so that long traces of commands join cheaply. */
  lemma AppendAssociative<T>(a: seq<T>, b: seq<T>, c: seq<T>)
    ensures a + (b + c) == a + b + c
  {
  }
}
