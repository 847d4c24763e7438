/** Small shared vocabulary: the optional value that stands for Python's `None`, and one fact about sequences. */
module Prelude {

  datatype Option<+T> = None | Some(value: T)

  /** Concatenation is associative: the groupings of three and of four sequences. */
  lemma Regroup<T>(a: seq<T>, b: seq<T>, c: seq<T>, d: seq<T>)
    ensures (a + b) + c == a + (b + c)
    ensures ((a + b) + c) + d == a + (b + (c + d)) == (a + (b + c)) + d
  {}
}
