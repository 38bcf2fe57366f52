/** Vocabulary shared by every component of the model. */
module Common {

  /** One octet. Arithmetic on octets is done on integers and wrapped by hand where the program wraps. */
  type byte = x: int | 0 <= x < 256

  datatype Option<+T> = None | Some(value: T) {
    function GetOr(default: T): T {
      if None? then default else value
    }
  }

  datatype Result<+T, +E> = Ok(value: T) | Err(error: E)

  /** Clock readings and durations are integers counting nanoseconds. */
  const MILLISECOND: int := 1_000_000
  const SECOND: int := 1_000 * MILLISECOND
  const MINUTE: int := 60 * SECOND

  function Min(a: int, b: int): int {
    if a <= b then a else b
  }
}
