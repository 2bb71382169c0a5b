/** The one fact about sequences that several modules need. */
module Sequences {
  lemma Cat<T>(a: seq<T>, b: seq<T>, c: seq<T>)
    ensures (a + b) + c == a + (b + c)
  {
  }
}
