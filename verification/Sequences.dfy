/** Two facts about sequences that the proofs name. */
module Sequences {

  lemma Associate<T>(a: seq<T>, b: seq<T>, c: seq<T>)
    ensures a + (b + c) == a + b + c
  {
  }

  /** Taking the last element off a tail. */
  lemma SliceSnoc<T>(s: seq<T>, k: nat)
    requires k < |s|
    ensures var n := |s| - 1; s[..n][..k] == s[..k] && s[k..] == s[..n][k..] + [s[n]]
  {
  }
}
