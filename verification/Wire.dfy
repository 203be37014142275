/** Values shared by every layer of the capture codec: bytes, fixed-width
    integers, decode errors and the result type of a decoder. */
module Wire {

  const U64_LIMIT: int := 0x1_0000_0000_0000_0000
  const U32_LIMIT: int := 0x1_0000_0000

  type Byte = x: int | 0 <= x < 256
  type U16 = x: int | 0 <= x < 0x1_0000
  type U64 = x: int | 0 <= x < U64_LIMIT
  type U32 = x: int | 0 <= x < U32_LIMIT

  /** A non-zero 64-bit integer, the type of every real actor id. */
  type NonZeroU64 = x: int | 0 < x < U64_LIMIT witness 1

  type Bytes = seq<Byte>

  datatype DecodeError =
    | UnexpectedEof
    | OverlongVarint
    | BadMagic
    | UnsupportedVersion(found: U16, expected: U16)
    | UnknownClockMode(mode: Byte)
    | UnknownRecordTag(tag: Byte)
    | ZeroActorId
    | InvalidUtf8
    | SegmentLengthMismatch

  datatype Result<+T> = Ok(value: T) | Err(error: DecodeError) {
    predicate IsFailure() {
      Err?
    }

    function PropagateFailure<U>(): Result<U>
      requires Err?
    {
      Err(error)
    }

    function Extract(): T
      requires Ok?
    {
      value
    }
  }

  /** `a.saturating_sub(b)` on `u64`. */
  function SaturatingSub(a: U64, b: U64): U64 {
    if a < b then 0 else a - b
  }

  /** `a.saturating_add(b)` on `u64`. */
  function SaturatingAdd(a: U64, b: U64): U64 {
    if a + b < U64_LIMIT then a + b else U64_LIMIT - 1
  }
}
