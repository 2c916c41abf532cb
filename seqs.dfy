/** Facts about sequence slicing and concatenation, stated once for any
    element type so that the proofs about the provider's own sequences can
    cite them instead of re-deriving them. */
module Seqs {
  lemma Whole<T>(s: seq<T>)
    ensures s[..|s|] == s
  {
  }

  lemma SplitAt<T>(s: seq<T>, k: nat)
    requires k <= |s|
    ensures s[..k] + s[k..] == s
  {
  }

  /** A non-empty sequence is its prefix followed by its last element. */
  lemma Snoc<T>(s: seq<T>)
    requires |s| > 0
    ensures s[..|s| - 1] + [s[|s| - 1]] == s
  {
  }

  /** Dropping the last element of `a + b` drops the last element of `b`. */
  lemma AppendInit<T>(a: seq<T>, b: seq<T>)
    requires |b| > 0
    ensures (a + b)[..|a + b| - 1] == a + b[..|b| - 1]
    ensures (a + b)[|a + b| - 1] == b[|b| - 1]
  {
  }

  lemma SnocAt<T>(s: seq<T>, x: T, i: nat)
    requires i <= |s|
    ensures (s + [x])[i] == if i < |s| then s[i] else x
  {
  }

  lemma Assoc<T>(a: seq<T>, b: seq<T>, c: seq<T>)
    ensures (a + b) + c == a + (b + c)
  {
  }

  lemma AppendEmpty<T>(a: seq<T>)
    ensures a + [] == a
  {
  }

  lemma TailSnoc<T>(s: seq<T>, x: T)
    requires |s| > 0
    ensures (s + [x])[1..] == s[1..] + [x]
  {
  }

  /** The prefix of length `i + 1` extends the prefix of length `i` by `s[i]`. */
  lemma PrefixStep<T>(s: seq<T>, i: nat)
    requires i < |s|
    ensures s[..i + 1][..i] == s[..i]
    ensures s[..i + 1] == s[..i] + [s[i]]
  {
  }
}
