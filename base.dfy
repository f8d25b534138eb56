/**
 * Value types shared by the model: an optional value and the fixed-width
 * integers of the Rust source (`u8`, `i32`, `u32`).
 */
module Base {

  /** Rust's `Option<T>`. */
  datatype Option<+T> = None | Some(value: T) {

    /** `Option::unwrap_or(default)`. */
    function GetOr(default: T): (r: T)
      ensures Some? ==> r == value
      ensures None? ==> r == default
    {
      match this
      case Some(v) => v
      case None => default
    }
  }

  /** One byte of a UTF-8 encoded string. */
  newtype byte = x: int | 0 <= x < 0x100

  /** Rust `i32`, the wire type of the preedit cursor offsets. */
  newtype int32 = x: int | -0x8000_0000 <= x < 0x8000_0000

  /** Rust `u32`, the wire type of lengths and serials. */
  newtype u32 = x: int | 0 <= x < 0x1_0000_0000
}
