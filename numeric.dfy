/** Python's numeric conversions, written out over unbounded reals and integers. */
module Numeric {

  /** `math.pi`, as the IEEE double the source uses. */
  const PI: real := 3.141592653589793

  function MinR(a: real, b: real): (r: real)
    ensures r <= a && r <= b && (r == a || r == b)
  {
    if a <= b then a else b
  }

  function MaxR(a: real, b: real): (r: real)
    ensures a <= r && b <= r && (r == a || r == b)
  {
    if a >= b then a else b
  }

  function MaxI(a: int, b: int): int { if a >= b then a else b }

  function MinI(a: int, b: int): int { if a <= b then a else b }

  function AbsR(a: real): real { if a >= 0.0 then a else -a }

  /** `max(lo, min(hi, x))`, the clamp the source writes inline. */
  function Clamp(lo: real, hi: real, x: real): real { MaxR(lo, MinR(hi, x)) }

  /** Python's `int()` applied to a float: truncation toward zero. */
  function Trunc(x: real): (r: int)
    ensures 0.0 <= x ==> r as real <= x < r as real + 1.0
    ensures x < 0.0 ==> r as real - 1.0 < x <= r as real
  {
    if x >= 0.0 then x.Floor else -((-x).Floor)
  }

  /** Python's `round()` on a float: nearest integer, halves go to the even neighbour. */
  function RoundHalfEven(x: real): (r: int)
    ensures -0.5 <= r as real - x <= 0.5
    ensures (r as real - x == 0.5 || x - r as real == 0.5) ==> r % 2 == 0
  {
    var f := x.Floor;
    var frac := x - f as real;
    if frac < 0.5 then f
    else if frac > 0.5 then f + 1
    else if f % 2 == 0 then f
    else f + 1
  }

  /** Rounding is monotone, which keeps resampled indices in order. */
  lemma RoundHalfEvenMonotone(x: real, y: real)
    requires x <= y
    ensures RoundHalfEven(x) <= RoundHalfEven(y)
  {
  }

  /** Rounding an integer-valued real gives that integer back. */
  lemma RoundHalfEvenOfInt(k: int)
    ensures RoundHalfEven(k as real) == k
  {
    var r := RoundHalfEven(k as real);
    assert -0.5 <= r as real - k as real <= 0.5;
  }

  /* Products are passed in as a separate parameter `p`: facts stated directly on a
     square such as `0.0 < r * r` do not carry over to terms equal to it. */

  /** The product of two positive numbers is positive. */
  lemma ProductPos(a: real, b: real, p: real)
    requires 0.0 < a && 0.0 < b && p == a * b
    ensures 0.0 < p
  {
  }

  /** The product of two non-negative numbers is non-negative. */
  lemma ProductNonneg(a: real, b: real, p: real)
    requires 0.0 <= a && 0.0 <= b && p == a * b
    ensures 0.0 <= p
  {
  }

  /** The square of a non-zero number is positive. */
  lemma SquarePos(r: real, p: real)
    requires r != 0.0 && p == r * r
    ensures 0.0 < p
  {
    if r < 0.0 {
      ProductPos(-r, -r, p);
    } else {
      ProductPos(r, r, p);
    }
  }

  /** A square is non-negative. */
  lemma SquareNonneg(r: real, p: real)
    requires p == r * r
    ensures 0.0 <= p
  {
    if r < 0.0 {
      ProductNonneg(-r, -r, p);
    } else {
      ProductNonneg(r, r, p);
    }
  }

  /** Multiplying by a non-negative weight keeps order. */
  lemma MulLe(w: real, a: real, b: real, wa: real, wb: real)
    requires 0.0 <= w && a <= b && wa == w * a && wb == w * b
    ensures wa <= wb
  {
    ProductNonneg(w, b - a, wb - wa);
  }

  /** Weights summing to one leave a common value unchanged. */
  lemma WeightsSumToOne(w1: real, w2: real, w3: real, x: real, p1: real, p2: real, p3: real)
    requires w1 + w2 + w3 == 1.0 && p1 == w1 * x && p2 == w2 * x && p3 == w3 * x
    ensures p1 + p2 + p3 == x
  {
    assert p1 + p2 + p3 == (w1 + w2 + w3) * x;
  }

  /** A non-zero number divided by itself is one. */
  lemma DivSelf(x: real, q: real)
    requires x != 0.0 && q == x / x
    ensures q == 1.0
  {
  }

  /** Multiplying a quotient back by its non-zero divisor recovers the dividend. */
  lemma MulDivCancel(a: real, b: real, p: real)
    requires b != 0.0 && p == b * (a / b)
    ensures p == a
  {
  }

  /** The quotient of a non-negative number by a positive one is non-negative. */
  lemma QuotientNonneg(a: real, b: real, q: real)
    requires 0.0 <= a && 0.0 < b && q == a / b
    ensures 0.0 <= q
  {
  }
}
