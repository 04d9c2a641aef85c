/** The real-number vocabulary of the price models. */
module Reals {
  type Positive = x: real | x > 0.0 witness 1.0

  function Max(a: real, b: real): real {
    if a > b then a else b
  }

  function Ceiling(x: real): int {
    -((-x).Floor)
  }
}
