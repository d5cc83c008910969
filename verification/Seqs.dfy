/** Facts about sums of sequences that other proofs rely on. */
module Seqs {
  lemma TailOfSum<T>(a: seq<T>, b: seq<T>)
    requires a != []
    ensures (a + b)[0] == a[0] && (a + b)[1..] == a[1..] + b
  {
  }

  lemma SumAssociates<T>(a: seq<T>, b: seq<T>, c: seq<T>)
    ensures a + (b + c) == (a + b) + c
  {
  }

  /** Equal sums whose first parts are equally long have equal parts. */
  lemma SameSum<T>(a: seq<T>, b: seq<T>, x: seq<T>, y: seq<T>)
    requires a + x == b + y && |a| == |b|
    ensures a == b && x == y
  {
    assert (a + x)[..|a|] == a && (b + y)[..|b|] == b;
    assert (a + x)[|a|..] == x && (b + y)[|b|..] == y;
  }

  /** A cut of what is left after an earlier cut is a later cut of the whole. */
  lemma CutAgain<T>(s: seq<T>, i: nat, j: nat)
    requires i + j <= |s|
    ensures s[..i + j][i..] == s[i..][..j] && s[..i + j][..i] == s[..i] && s[i + j..] == s[i..][j..]
    ensures s == s[..i + j] + s[i + j..]
  {
  }
}
