/** What all parts share: optional values and the kernel's status codes. */
module Prelude {
  datatype Option<+T> = None | Some(value: T)

  const PROTO_OK: int := 0
  const PROTO_ERR_UNKNOWN: int := 1
  const PROTO_ERR_FILE_NOT_FOUND: int := 11
  const PROTO_ERR_NOT_A_DIRECTORY: int := 12
  const PROTO_ERR_IS_A_DIRECTORY: int := 13
  const PROTO_ERR_FILE_UNAUTHORIZED_OP: int := 16
  const PROTO_ERR_MAX_FD_REACHED: int := 17
  const PROTO_ERR_INVALID_FD: int := 18
  const PROTO_ERR_OUT_OF_MEMORY: int := 22
  const PROTO_ERR_INVALID_ARGUMENT: int := 23
  const PROTO_ERR_PROCESS_NOT_FOUND: int := 41
  const PROTO_ERR_WOULD_BLOCK: int := 50

  // What converting an unsigned value to a 32-bit `int` leaves of it.
  function CInt(x: nat): (r: int)
    ensures x < 0x8000_0000 ==> r == x
    ensures -0x8000_0000 <= r < 0x8000_0000 && (x - r) % 0x1_0000_0000 == 0
  {
    var low := x % 0x1_0000_0000;
    if low < 0x8000_0000 then low else low - 0x1_0000_0000
  }

  function Min(a: int, b: int): int { if a < b then a else b }
  function Max(a: int, b: int): int { if a > b then a else b }
}
