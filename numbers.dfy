/**
 * Number coercions and rounding as the server and the browser client perform them.
 *
 * A client-supplied number is either a finite value or NaN (what `Number(x)` yields for
 * `undefined`, a non-numeric string and the like). `Math.round` rounds half up.
 */
module Numbers {

  datatype Numeric = Finite(value: real) | NaN

  function Max(a: int, b: int): (m: int)
    ensures m >= a && m >= b && (m == a || m == b)
  {
    if a >= b then a else b
  }

  /**
   * `Math.max(0, Math.floor(Number(x) || 0))`: NaN counts as 0, the value is floored and
   * negatives are clamped to 0.
   */
  function WholeSeconds(n: Numeric): (r: nat)
    ensures n.Finite? && n.value >= 0.0 ==> r as real <= n.value < r as real + 1.0
    ensures n.NaN? || n.value < 1.0 <==> r == 0
  {
    match n
    case NaN => 0
    case Finite(v) => if v.Floor < 0 then 0 else v.Floor
  }

  /**
   * `Math.round(p / q)` for a positive divisor: the integer nearest to p/q, halves rounded up.
   */
  function RoundDiv(p: int, q: int): (r: int)
    requires q > 0
    ensures 2 * q * r - q <= 2 * p < 2 * q * r + q
  {
    var r := (2 * p + q) / (2 * q);
    assert 2 * q * r <= 2 * p + q < 2 * q * r + 2 * q by {
      DivBounds(2 * p + q, 2 * q);
    }
    r
  }

  lemma DivBounds(a: int, b: int)
    requires b > 0
    ensures b * (a / b) <= a < b * (a / b) + b
  {
  }

  /** Rounding a whole number leaves it unchanged. */
  lemma {:induction false} RoundDivExact(k: int, q: int)
    requires q > 0
    ensures RoundDiv(k * q, q) == k
  {
    assert 2 * (k * q) + q == k * (2 * q) + q;
    DivUnique(2 * (k * q) + q, 2 * q, k, q);
  }

  lemma DivUnique(a: int, b: int, k: int, m: int)
    requires b > 0 && 0 <= m < b && a == k * b + m
    ensures a / b == k
  {
    var d, r := a / b, a % b;
    assert a == d * b + r && 0 <= r < b;
    if d > k {
      assert b * (k + 1) == k * b + b;
      MulMono(b, k + 1, d);
    } else if d < k {
      assert b * (d + 1) == d * b + b;
      MulMono(b, d + 1, k);
    }
  }

  lemma MulMono(c: int, a: int, b: int)
    requires c >= 0 && a <= b
    ensures c * a <= c * b
  {
  }

  /** Rounding preserves the order of numerators. */
  lemma {:induction false} RoundDivMonotone(p1: int, p2: int, q: int)
    requires q > 0 && p1 <= p2
    ensures RoundDiv(p1, q) <= RoundDiv(p2, q)
  {
    var r1, r2 := RoundDiv(p1, q), RoundDiv(p2, q);
    if r1 > r2 {
      assert 2 * q * r2 + 2 * q <= 2 * q * r1 by { MulMono(2 * q, r2 + 1, r1); }
    }
  }
}
