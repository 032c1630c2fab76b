/** Facts about sequence concatenation, stated once for every element type; proof helpers only. */
module Seqs {
  /** Proof helper: the empty sequence is neutral for concatenation. */
  lemma AppendEmpty<T>(a: seq<T>)
    ensures [] + a == a && a + [] == a
  {
  }

  /** Proof helper: concatenation is associative. */
  lemma AppendAssoc<T>(a: seq<T>, b: seq<T>, c: seq<T>)
    ensures a + b + c == a + (b + c)
  {
  }
}
