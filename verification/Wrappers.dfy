/** Types shared by the modules: a value that may be absent (JavaScript's `undefined` or `null` where
    the source uses one) and a byte. */
module Wrappers {
  datatype Option<+T> = None | Some(value: T) {
    function GetOr(default: T): T {
      if None? then default else value
    }
  }

  type Byte = b: int | 0 <= b < 256
}
