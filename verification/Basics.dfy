/** What several modules share: an optional value, the larger and smaller of two numbers, and products in order. */
module Basics {

  datatype Option<+T> = None | Some(value: T)

  function Max(a: int, b: int): int { if a < b then b else a }

  function Min(a: int, b: int): int { if b < a then b else a }

  function MaxReal(a: real, b: real): real { if a < b then b else a }

  function MinReal(a: real, b: real): real { if b < a then b else a }

  lemma ProductOrder(a: real, b: real, c: real)
    requires c > 0.0
    ensures a < b <==> a * c < b * c
  {
  }

  /** If `q` is `n` over `rate`, then what is at most `q` and what is above it are on the two sides of `n`. */
  lemma Around(n: real, x: real, y: real, q: real, rate: real)
    requires x <= q < y && rate > 0.0 && q * rate == n
    ensures x * rate <= n < y * rate
  {
    ProductOrder(q, y, rate);
    if x < q { ProductOrder(x, q, rate); }
  }
}
