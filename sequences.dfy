/** Facts about taking prefixes of sequences, stated once so that proofs about the
    analyzers' loops need not rediscover them. */
module Sequences {

  /** The first k + 1 elements are the first k followed by element k. */
  lemma TakeStep<T>(s: seq<T>, k: nat)
    requires k < |s|
    ensures s[..k + 1][..k] == s[..k] && s[..k + 1][k] == s[k]
    ensures s[..k + 1] == s[..k] + [s[k]]
  {
  }

  lemma TakeAll<T>(s: seq<T>)
    ensures s[..|s|] == s
  {
  }

  /** Appending one element and dropping it again gives the list back. */
  lemma DropLast<T>(a: seq<T>, b: T)
    ensures (a + [b])[..|a|] == a && (a + [b])[|a|] == b
  {
  }
}
