/** The optional value that stands for Python's `X | None`. */
module Prelude {
  datatype Option<+T> = None | Some(value: T)

  lemma Associate<T>(s: seq<T>, t: seq<T>, u: seq<T>)
    ensures s + t + u == s + (t + u)
  {}

  function Min(a: int, b: int): int { if a < b then a else b }
}
