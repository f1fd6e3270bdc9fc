/** Machine integers, checked arithmetic and the two result types used throughout. */
module Common {

  datatype Option<+T> = None | Some(value: T)

  /** The failures that callers can tell apart by their message or kind. */
  datatype Error =
    | Cancelled
    | InvalidHeader | InvalidIndex | InvalidName | WrongPassword
    | Authentication | LengthMismatch | Overflow | UnexpectedEof
    | InvalidRequest | NotFound | NotDirectory | IsDirectory
    | UnsafeSource | SourceTooLarge | SourceChanged
    | DestinationExists | ParentMissing | DuplicateEntry | Io

  datatype Result<+T> = Ok(value: T) | Err(error: Error)

  type byte = n: int | 0 <= n < 256
  type u16 = n: int | 0 <= n < 0x1_0000
  type u32 = n: int | 0 <= n < 0x1_0000_0000
  type u64 = n: int | 0 <= n < 0x1_0000_0000_0000_0000

  const U64_LIMIT := 0x1_0000_0000_0000_0000

  function CheckedAdd(a: u64, b: u64): Option<u64> {
    if a + b < U64_LIMIT then Some(a + b) else None
  }

  function CheckedMul(a: u64, b: u64): Option<u64> {
    if a * b < U64_LIMIT then Some(a * b) else None
  }

  function Min(a: int, b: int): int {
    if a <= b then a else b
  }

  /** An unexplained failure or a cancellation request; a quiet environment has none. */
  method Disturbed(quiet: bool) returns (r: bool)
    ensures quiet ==> !r
  {
    var d: bool := *;
    r := d && !quiet;
  }
}
