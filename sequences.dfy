/** Facts about sequence concatenation shared by the proofs. */
module Sequences {

  /** Concatenation regroups freely; stated once so that proofs about long
      concatenations can regroup in one step. */
  lemma ConcatAssoc<T>(x: seq<T>, y: seq<T>, z: seq<T>)
    ensures x + (y + z) == x + y + z
  {
  }
}
