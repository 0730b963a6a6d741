/**
 * Facts about concatenating and slicing sequences, stated once and called
 * where a proof needs one of them, so that the solver does not have to
 * rediscover them inside larger goals.
 */
module Sequences {

  lemma Assoc<T>(a: seq<T>, b: seq<T>, c: seq<T>)
    ensures a + b + c == a + (b + c)
  {
  }

  lemma Reassociate<T>(a: seq<T>, b: seq<T>, c: seq<T>, d: seq<T>, e: seq<T>)
    ensures a + b + c + d + e == a + b + (c + d + e)
  {
  }

  /** Regrouping of three concatenated lists, stated over plain values so
      that the solver need not look inside them. */
  lemma Regroup<T>(whole: seq<T>, a: seq<T>, rest: seq<T>, b: seq<T>, c: seq<T>, left: seq<T>)
    requires whole == a + rest && rest == b + c && left == a + b
    ensures whole == left + c
  {
  }

  lemma AppendIndexLeft<T>(a: seq<T>, b: seq<T>, j: nat)
    requires j < |a|
    ensures (a + b)[j] == a[j]
  {
  }

  lemma AppendIndexRight<T>(a: seq<T>, b: seq<T>, j: nat)
    requires j < |b|
    ensures (a + b)[|a| + j] == b[j]
  {
  }

  /** The last element of a non-empty concatenation and what comes before it. */
  lemma AppendLast<T>(a: seq<T>, b: seq<T>)
    requires b != []
    ensures (a + b)[..|a| + |b| - 1] == a + b[..|b| - 1]
    ensures (a + b)[|a| + |b| - 1] == b[|b| - 1]
  {
  }

  /** How slices of a suffix relate to slices of the whole. */
  lemma Slices<T>(s: seq<T>, a: nat, k: nat)
    requires a <= k < |s|
    ensures s[a..][k - a] == s[k]
    ensures s[a..][..k - a] == s[a..k]
    ensures s[a..][k - a + 1..] == s[k + 1..]
  {
  }

  /** How slices of a prefix relate to slices of the whole. */
  lemma PrefixSlices<T>(s: seq<T>, i: nat, k: nat)
    requires i < k <= |s|
    ensures s[..k][..i] == s[..i] && s[..k][i + 1..] == s[i + 1..k]
  {
  }

  /** The pieces of a sequence with one element put between two others. */
  lemma AroundSeparator<T>(a: seq<T>, x: T, b: seq<T>)
    ensures |a + [x] + b| == |a| + 1 + |b|
    ensures (a + [x] + b)[..|a|] == a && (a + [x] + b)[|a|] == x && (a + [x] + b)[|a| + 1..] == b
    ensures forall k :: 0 <= k < |a| ==> (a + [x] + b)[k] == a[k]
  {
  }

  /** The pieces of `a + [x] + b` around a position inside `a`. */
  lemma InsideLeft<T>(a: seq<T>, x: T, b: seq<T>, i: nat)
    requires i < |a|
    ensures (a + [x] + b)[i] == a[i]
    ensures forall k :: 0 <= k < i ==> (a + [x] + b)[k] == a[k]
    ensures (a + [x] + b)[..i] == a[..i]
    ensures (a + [x] + b)[i + 1..] == a[i + 1..] + [x] + b
  {
  }
}
