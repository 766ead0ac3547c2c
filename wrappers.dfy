/** Option and Result values. `None` stands for Python's `None` and for a missing
    dictionary key; `Err` stands for an exception that the caller sees. */
module Wrappers {

  datatype Option<+T> = None | Some(value: T) {
    /** `dict.get(key, default)`: the value if present, otherwise the default. */
    function GetOr(default: T): T {
      if Some? then value else default
    }
  }

  datatype Result<+T, +E> = Ok(value: T) | Err(error: E)
}
