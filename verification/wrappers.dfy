/** An optional value. The model uses it wherever the JavaScript code may see
    `null` or `undefined` instead of a value. */
module Wrappers {

  datatype Option<+T> = None | Some(value: T) {

    /** The carried value, falling back to `fallback` when there is none. */
    function GetOr(fallback: T): T {
      if Some? then value else fallback
    }
  }
}
