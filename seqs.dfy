/** Small facts about sequence concatenation. */
module Seqs {
  lemma ConcatAssoc<T>(a: seq<T>, b: seq<T>, c: seq<T>)
    ensures a + b + c == a + (b + c)
  {
  }

  lemma IndexMiddle<T>(x: seq<T>, y: seq<T>, z: seq<T>, c: nat)
    requires c < |y|
    ensures |x| + c < |x + y + z| && (x + y + z)[|x| + c] == y[c]
  {
  }
}
