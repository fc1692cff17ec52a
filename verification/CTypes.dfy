/**
 The C types, casts and small helpers that the other modules share.
 */
module CTypes {
  const INT_MAX: int := 0x7fff_ffff
  const INT_MIN: int := -0x8000_0000
  const TWO_64: int := 0x1_0000_0000_0000_0000

  /** The C type `int`. */
  type Int32 = x: int | INT_MIN <= x <= INT_MAX

  /** An unsigned 64-bit word. */
  type Word = x: int | 0 <= x < TWO_64

  datatype Option<+T> = None | Some(value: T)

  function Min(a: int, b: int): int {
    if a <= b then a else b
  }

  function Max(a: int, b: int): int {
    if a <= b then b else a
  }

  /** A 64-bit value cast to `int` keeps its low 32 bits. */
  function ToInt32(x: Word): Int32 {
    var low := x % 0x1_0000_0000;
    if low > INT_MAX then low - 0x1_0000_0000 else low
  }

  lemma ProductsOrdered(a: int, b: int, d: nat)
    requires a <= b
    ensures a * d <= b * d
  {
  }

  function RemoveAt<T>(list: seq<T>, i: nat): seq<T>
    requires i < |list|
  {
    list[..i] + list[i + 1..]
  }
}
