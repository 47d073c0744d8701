/** Option and Result, standing for Rust's types of the same names. */
module Basics {
  datatype Option<+T> = None | Some(value: T) {
    function GetOr(default: T): T {
      match this
      case Some(v) => v
      case None => default
    }
  }

  datatype Result<+T, +E> = Ok(value: T) | Err(error: E)

  function Min(a: nat, b: nat): nat {
    if a < b then a else b
  }

  /** The largest element; 0 for the empty sequence (`.max().unwrap_or(0)`). */
  function MaxOf(widths: seq<nat>): nat {
    if widths == [] then 0
    else
      var rest := MaxOf(widths[1..]);
      if widths[0] > rest then widths[0] else rest
  }
}
