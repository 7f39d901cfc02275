// Stock datatypes shared by every module.
module Prelude {
  datatype Option<+T> = None | Some(value: T)

  datatype Result<+T, +E> = Ok(value: T) | Err(error: E)

  // A computation of the source that ends, or panics.
  datatype Outcome<+T> = Panic | Done(value: T)

  function Max(a: int, b: int): (m: int)
    ensures m >= a && m >= b && (m == a || m == b)
  {
    if a > b then a else b
  }

  lemma Assoc<T>(a: seq<T>, b: seq<T>, c: seq<T>)
    ensures a + b + c == a + (b + c)
  {
  }

  // Go's conversion of a float to an integer.
  function Trunc(x: real): (q: int)
    ensures x >= 0.0 ==> q as real <= x < q as real + 1.0
    ensures x <= 0.0 ==> q as real - 1.0 < x <= q as real
  {
    if x >= 0.0 then x.Floor else -(-x).Floor
  }
}
