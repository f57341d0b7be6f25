/** Result shapes shared by the modules of the model. */
module Wrappers {
  datatype Option<+T> = None | Some(value: T) {
    function GetOr(default: T): T {
      if Some? then value else default
    }
  }

  datatype Result<+T, +E> = Ok(value: T) | Err(error: E)
}

module Bytes {
  type Byte = x: int | 0 <= x < 256
}
