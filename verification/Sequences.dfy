/** Facts about sequences, each stated on its own so that proofs can name the one they need. */
module Sequences {
  lemma Regroup<T>(a: seq<T>, b: seq<T>, c: seq<T>)
    ensures a + b + c == a + (b + c)
  {
  }

  lemma WithNothing<T>(s: seq<T>)
    ensures s + [] == s && [] + s == s
  {
  }

  lemma HeadAndTail<T>(first: T, rest: seq<T>)
    ensures ([first] + rest)[0] == first && ([first] + rest)[1..] == rest
  {
  }
}
