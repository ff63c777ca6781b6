/** The machine words of the Go source, as ranges of the unbounded integers.
    Every wrap-around and every cast the source performs is written out with the functions below. */
module Words {
  const TWO_63: int := 0x8000_0000_0000_0000
  const TWO_64: int := 0x1_0000_0000_0000_0000

  type byte = x: int | 0 <= x < 256
  type U64 = x: int | 0 <= x < TWO_64
  type I64 = x: int | -TWO_63 <= x < TWO_63

  /** A Go string is a sequence of bytes. */
  type Str = seq<byte>

  datatype Option<+T> = None | Some(value: T)

  /** The sum of an unsigned addition, reduced to 64 bits. */
  function WrapU64(x: int): U64 {
    x % TWO_64
  }

  /** The result of a signed operation, reduced to 64 bits (two's complement). */
  function WrapI64(x: int): I64 {
    (x + TWO_63) % TWO_64 - TWO_63
  }

  /** The conversion int64(x) of an unsigned word. */
  function ToI64(x: U64): I64 {
    if x < TWO_63 then x else x - TWO_64
  }

  /** The conversion uint64(x) of a signed word. */
  function ToU64(x: I64): U64 {
    if x < 0 then x + TWO_64 else x
  }

  /** Every conversion keeps the value modulo 2^64; the ranges of the types then leave one result. */
  lemma SameModulo(x: int, u: U64, i: I64)
    ensures (WrapU64(x) - x) % TWO_64 == 0 && (WrapI64(x) - x) % TWO_64 == 0
    ensures (ToI64(u) - u) % TWO_64 == 0 && (ToU64(i) - i) % TWO_64 == 0
  {
  }
}
