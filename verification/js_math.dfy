/** `Math.round` and `Math.ceil` of a quotient of naturals, computed in integers
    and specified by the real number they approximate. */
module JsMath {

  /** Cancelling a positive factor keeps an inequality. */
  lemma CancelLe(a: real, b: real, c: real)
    requires c > 0.0 && a * c <= b * c
    ensures a <= b
  {
    assert (b - a) * c >= 0.0;
  }

  lemma CancelLt(a: real, b: real, c: real)
    requires c > 0.0 && a * c < b * c
    ensures a < b
  {
    assert (b - a) * c > 0.0;
  }

  lemma CastMul(q: int, a: int)
    ensures (q * a) as real == (a as real) * (q as real)
  {
  }

  lemma DivTimes(p: real, c: real)
    requires c > 0.0
    ensures (p / c) * c == p
  {
  }

  /** From `q * lo <= p < q * hi` in integers to `lo <= p / q < hi` in reals. */
  lemma RealBounds(p: int, q: int, lo: int, hi: int)
    requires q > 0
    requires q * lo <= p < q * hi
    ensures (lo as real) <= (p as real) / (q as real) < (hi as real)
  {
    var c := q as real;
    var x := (p as real) / c;
    DivTimes(p as real, c);
    CastMul(q, lo);
    CastMul(q, hi);
    CancelLe(lo as real, x, c);
    CancelLt(x, hi as real, c);
  }

  /** From `q * lo < p <= q * hi` in integers to `lo < p / q <= hi` in reals. */
  lemma RealBoundsUpper(p: int, q: int, lo: int, hi: int)
    requires q > 0
    requires q * lo < p <= q * hi
    ensures (lo as real) < (p as real) / (q as real) <= (hi as real)
  {
    var c := q as real;
    var x := (p as real) / c;
    DivTimes(p as real, c);
    CastMul(q, lo);
    CastMul(q, hi);
    CancelLt(lo as real, x, c);
    CancelLe(x, hi as real, c);
  }

  lemma DivBounds(a: int, k: int)
    requires k > 0
    ensures k * (a / k) <= a < k * (a / k) + k
  {
  }

  lemma RoundBounds(p: nat, q: nat, r: int)
    requires q > 0 && r == (2 * p + q) / (2 * q)
    ensures (r as real) - 0.5 <= (p as real) / (q as real) < (r as real) + 0.5
  {
    DivBounds(2 * p + q, 2 * q);
    assert q * (2 * r - 1) <= 2 * p < q * (2 * r + 1);
    RealBounds(2 * p, q, 2 * r - 1, 2 * r + 1);
    assert (2 * p) as real / (q as real) == 2.0 * ((p as real) / (q as real));
  }

  /** `Math.round(p / q)`: the integer nearest to p / q, halves rounding up;
      in integers, 2p lies in [q(2r - 1), q(2r + 1)). */
  function RoundRatio(p: nat, q: nat): (r: nat)
    requires q > 0
    ensures q * (2 * r - 1) <= 2 * p < q * (2 * r + 1)
  {
    var r := (2 * p + q) / (2 * q);
    DivBounds(2 * p + q, 2 * q);
    r
  }

  /** The rounding is to the nearest integer of the exact quotient. */
  lemma RoundRatioNearest(p: nat, q: nat)
    requires q > 0
    ensures var r := RoundRatio(p, q);
            (r as real) - 0.5 <= (p as real) / (q as real) < (r as real) + 0.5
  {
    RoundBounds(p, q, RoundRatio(p, q));
  }

  lemma CeilBounds(p: nat, q: nat, r: int)
    requires q > 0 && r == (p + q - 1) / q
    ensures (r as real) - 1.0 < (p as real) / (q as real) <= r as real
  {
    DivBounds(p + q - 1, q);
    assert q * (r - 1) < p <= q * r;
    RealBoundsUpper(p, q, r - 1, r);
  }

  /** `Math.ceil(p / q)`: the least integer not below p / q. */
  function CeilRatio(p: nat, q: nat): (r: nat)
    requires q > 0
    ensures (r as real) - 1.0 < (p as real) / (q as real) <= r as real
  {
    var r := (p + q - 1) / q;
    CeilBounds(p, q, r);
    r
  }

  lemma DivUnique(a: int, b: int, k: int)
    requires b > 0 && b * k <= a < b * k + b
    ensures a / b == k
  {
    DivBounds(a, b);
    var d := a / b;
    if d < k {
      MulMonotone(d + 1, k, b);
    } else if d > k {
      MulMonotone(k + 1, d, b);
    }
  }

  lemma MulMonotone(a: int, b: int, c: int)
    requires a <= b && c >= 0
    ensures c * a <= c * b
  {
    assert c * b - c * a == c * (b - a);
  }


  /** Rounding is monotone in the numerator. */
  lemma RoundRatioMonotone(p1: nat, p2: nat, q: nat)
    requires q > 0 && p1 <= p2
    ensures RoundRatio(p1, q) <= RoundRatio(p2, q)
  {
    var r1 := RoundRatio(p1, q);
    var r2 := RoundRatio(p2, q);
    if r1 > r2 {
      MulMonotone(2 * r2 + 1, 2 * r1 - 1, q);
    }
  }

  /** A whole multiple rounds to itself. */
  lemma RoundRatioExact(k: nat, q: nat)
    requires q > 0
    ensures RoundRatio(k * q, q) == k
  {
    DivUnique(2 * (k * q) + q, 2 * q, k);
  }
}
