/** Optional values: JavaScript's `undefined`/`null` and "not found" results. */
module Wrappers {

  datatype Option<+T> = None | Some(value: T)

  function Max(a: int, b: int): int {
    if a >= b then a else b
  }
}
