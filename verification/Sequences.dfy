/** Facts about sequences that Dafny wants to be told. */
module Sequences {
  lemma Cat<T>(a: seq<T>, b: seq<T>, c: seq<T>)
    ensures a + b + c == a + (b + c)
  {
  }
}
