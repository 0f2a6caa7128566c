/** Small facts about sequences, shared by the list-walking proofs. */
module Seqs {

  /** The head and tail of a concatenation whose first part is not empty. */
  lemma UnconsAppend<T>(a: seq<T>, b: seq<T>)
    requires |a| > 0
    ensures (a + b)[0] == a[0] && (a + b)[1..] == a[1..] + b
  {
  }

  /** A prefix one element longer, and the split of the whole around it. */
  lemma TakeOneMore<T>(xs: seq<T>, j: nat)
    requires j < |xs|
    ensures xs[..j + 1] == xs[..j] + [xs[j]]
    ensures xs == xs[..j + 1] + xs[j + 1..]
  {
  }
}
