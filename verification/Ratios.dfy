/**
 Parts per million: `Ratio` and `Availability` of internal/availability/interval.go and
 `FormatPPM` of internal/availability/compute.go.
 */
module Ratios {

  const PPM := 1_000_000
  const MAX_INT64 := 0x7FFF_FFFF_FFFF_FFFF

  /** Largest denominator whose intermediate products always fit 64 bits. */
  const SAFE_DENOMINATOR := 4_611_683_712_586

  /** A share as a whole number of ppm, halves rounded up. */
  function Ratio(numerator: int, denominator: int): (r: int)
    ensures 0 <= r <= PPM
    ensures 0 <= numerator <= denominator && denominator > 0 ==>
              -denominator < 2 * (r * denominator - PPM * numerator) <= denominator
  {
    if denominator <= 0 then PPM
    else if numerator <= 0 then 0
    else if numerator >= denominator then PPM
    else
      Rounded(numerator * PPM * 2 + denominator, denominator);
      (numerator * PPM * 2 + denominator) / (denominator * 2)
  }

  lemma Product(a: int, b: int, d: int)
    requires a <= b && d > 0
    ensures a * d <= b * d
  {}

  lemma Rounded(n: int, d: int)
    requires d > 0 && 0 < n < 2 * (PPM * d + d)
    ensures var r := n / (d * 2); n - 2 * d < 2 * (r * d) <= n && 0 <= r <= PPM
  {
    var r := n / (d * 2);
    assert n == (d * 2) * r + n % (d * 2);
    assert (d * 2) * r == 2 * (r * d);
    if r >= PPM + 1 { Product(PPM + 1, r, d); }
    if r <= -1 { Product(r, -1, d); }
  }

  /** A larger share is never a smaller figure, and the whole is exactly 100%. */
  lemma RatioMonotone(n: int, n': int, d: int)
    requires d > 0 && n <= n'
    ensures Ratio(n, d) <= Ratio(n', d)
  {
    if 0 < n && n' < d {
      if Ratio(n', d) + 1 <= Ratio(n, d) { Product(Ratio(n', d) + 1, Ratio(n, d), d); }
    }
  }

  /** When every product `Ratio` forms fits a signed 64-bit integer: exactly up to the bound. */
  lemma NoOverflow(d: int)
    requires d > 1
    ensures d <= SAFE_DENOMINATOR
            <==> (forall n | 0 < n < d :: n * PPM * 2 + d <= MAX_INT64 && d * 2 <= MAX_INT64)
  {
    if d > SAFE_DENOMINATOR {
      var n := d - 1;
      assert n * PPM * 2 + d > MAX_INT64;
    }
  }

  function Availability(ast: int, downtime: int): (r: int)
    ensures 0 <= r <= PPM
  {
    if ast <= 0 then PPM
    else Ratio(if ast - downtime < 0 then 0 else ast - downtime, ast)
  }

  /** More downtime never reads as more available. */
  lemma AvailabilityMonotone(ast: int, down: int, down': int)
    requires down <= down'
    ensures Availability(ast, down') <= Availability(ast, down)
  {
    if ast > 0 {
      RatioMonotone(if ast - down' < 0 then 0 else ast - down', if ast - down < 0 then 0 else ast - down, ast);
    }
  }
}
