/** Integer helpers the models share. */
module Arithmetic {
  function Max(a: int, b: int): int {
    if a >= b then a else b
  }
}
