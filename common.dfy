/** Small value types shared by every part of the model: optional values,
    results of daemon round trips, and the fixed-width integers of the
    daemon client's replies. */
module Common {

  datatype Option<+T> = None | Some(value: T) {
    function GetOr(default: T): T {
      match this
      case Some(v) => v
      case None => default
    }
  }

  /** The outcome of one daemon round trip: a reply, or the error that the
      client library reports (connection or protocol failure). */
  datatype Result<+T> = Ok(value: T) | Err(error: string)

  /** An operation that yields nothing on success. */
  datatype Outcome = Pass | Fail(error: string)

  const I32_MIN: int := -0x8000_0000
  const I32_MAX: int := 0x7fff_ffff
  const U64_LIMIT: int := 0x1_0000_0000_0000_0000

  newtype i32 = x: int | -0x8000_0000 <= x <= 0x7fff_ffff
  newtype u64 = x: int | 0 <= x < 0x1_0000_0000_0000_0000

  type Bytes = seq<bv8>
}
