/** The usual option type, and the law of concatenation that the solver does not see by itself. */
module Wrappers {
  datatype Option<+T> = None | Some(value: T)

  lemma Assoc<T>(a: seq<T>, b: seq<T>, c: seq<T>)
    ensures a + (b + c) == a + b + c && a + [] == a && [] + c == c
  {}
}
