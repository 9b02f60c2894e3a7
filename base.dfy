/** Value types shared by the recorded-segment index: Go's fixed-width
    integers used by the index, and the Option/Result wrappers that stand
    for Go's `(value, error)` returns. */
module Base {

  /** One byte of a file or of a Go string. */
  type byte = x: int | 0 <= x < 0x100

  /** Go's `uint32`, the type of FLV timestamps and of a segment's duration. */
  type uint32 = x: int | 0 <= x < 0x1_0000_0000

  /** The 24-bit unsigned integers of the FLV tag header (UI24). */
  type uint24 = x: int | 0 <= x < 0x100_0000

  datatype Option<+T> = None | Some(value: T)

  datatype Result<+T, +E> = Ok(value: T) | Err(error: E)

  /** Appending a byte `d` to `x` in base 256 and taking it off again. */
  lemma ShiftByte(x: int, d: byte)
    ensures (x * 0x100 + d) / 0x100 == x && (x * 0x100 + d) % 0x100 == d
  {
  }
}
