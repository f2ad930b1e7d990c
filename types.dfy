/** Machine integer ranges and the Option wrapper shared by every module. */
module Types {

  /** One past the largest `u32`. */
  const U32_LIMIT: int := 0x1_0000_0000

  type u8 = x: int | 0 <= x < 0x100
  type u32 = x: int | 0 <= x < 0x1_0000_0000
  type i32 = x: int | -0x8000_0000 <= x < 0x8000_0000

  /** Rust's `Option<T>`. */
  datatype Option<+T> = None | Some(value: T) {
    function GetOr(default: T): T {
      match this
      case Some(v) => v
      case None => default
    }
  }

  /** Rust's `Result<T, E>`, used here for the panics of the source. */
  datatype Result<+T, +E> = Ok(value: T) | Err(error: E)
}
