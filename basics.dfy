/**
 * Small shared building blocks: optional values (JavaScript's
 * `undefined`/`null` versus a present value) and the minimum of two integers.
 */
module Basics {

  datatype Option<+T> = None | Some(value: T) {

    /** The value, or `default` when absent (the `x || default` idiom for non-falsy values). */
    function GetOr(default: T): T {
      match this
      case Some(v) => v
      case None => default
    }
  }

  /** The smaller of `a` and `b`: how far `slice(0, k)` reaches into a shorter array. */
  function Min(a: int, b: int): int {
    if a <= b then a else b
  }
}
