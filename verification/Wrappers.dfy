/** Values shared by every component: optional values, results, bytes, ECU addresses and
    the truncating division of the source language. */
module Wrappers {
  datatype Option<+T> = None | Some(value: T)

  datatype Result<+T, +E> = Ok(value: T) | Err(error: E)

  type Byte = b: int | 0 <= b < 256

  datatype AddressFormat = Can11Bit | Can29Bit | Other

  datatype EcuAddress = EcuAddress(value: nat, format: AddressFormat)

  function Min(a: int, b: int): int {
    if a <= b then a else b
  }

  function Max(a: int, b: int): int {
    if a <= b then b else a
  }

  /** Integer division rounding toward zero, as the source's signed `/` does. */
  function TruncDiv(a: int, b: int): int
    requires b > 0
  {
    if a >= 0 then a / b else -((-a) / b)
  }

  /** Conversion of a real to an integer, rounding toward zero. */
  function Truncated(x: real): int {
    if x >= 0.0 then x.Floor else -((-x).Floor)
  }

  /** The source's division rounds toward zero: it never exceeds the quotient in size, and falls short
      of it by under one. */
  lemma TruncDivTruncates(a: int, b: int)
    requires b > 0
    ensures a >= 0 ==> TruncDiv(a, b) >= 0 && 0 <= a - TruncDiv(a, b) * b < b
    ensures a < 0 ==> TruncDiv(a, b) <= 0 && 0 <= TruncDiv(a, b) * b - a < b
  {
  }
}
