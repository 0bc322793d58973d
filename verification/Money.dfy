/** Exact arithmetic on prices, amounts and quantities. */
module Money {

  function Product(x: real, y: real): real { x * y }

  function Quotient(x: real, y: real): real
    requires y != 0.0
  {
    x / y
  }

  /** Worth of a number of shares at a price. */
  function Value(qty: int, price: real): real { qty as real * price }

  function Max(a: real, b: real): real { if a >= b then a else b }

  function Min(a: real, b: real): real { if a <= b then a else b }

  function Least(a: nat, b: nat): nat { if a <= b then a else b }

  function Magnitude(x: real): real { if x >= 0.0 then x else -x }

  /** Python's `int(x)`: truncation toward zero. */
  function Truncate(x: real): int { if x >= 0.0 then x.Floor else -((-x).Floor) }

  lemma {:induction false} ProductNonNegative(x: real, y: real)
    requires x >= 0.0 && y >= 0.0
    ensures x * y >= 0.0
  {
  }

  lemma {:induction false} ProductMonotone(a: real, b: real, y: real)
    requires a <= b && y > 0.0
    ensures Product(a, y) <= Product(b, y)
  {
  }

  lemma {:induction false} ProductStrict(a: real, b: real, y: real)
    requires a < b && y > 0.0
    ensures Product(a, y) < Product(b, y)
  {
  }

  lemma {:induction false} ProductCancels(a: real, b: real, y: real)
    requires y > 0.0 && Product(a, y) < Product(b, y)
    ensures a < b
  {
    if b < a { ProductStrict(b, a, y); }
  }

  lemma {:induction false} ValueMonotone(qty: int, p: real, q: real)
    requires qty >= 0 && p <= q
    ensures Value(qty, p) <= Value(qty, q)
  {
    ProductNonNegative(qty as real, q - p);
  }

  /** Truncation keeps the whole part, on both sides of zero alike. */
  lemma {:induction false} TruncateIs(x: real, n: nat)
    requires x >= 0.0
    ensures n <= Truncate(x) <==> n as real <= x
    ensures Truncate(-x) == -Truncate(x)
  {
  }
}
