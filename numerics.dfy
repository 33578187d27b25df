/**
 * Arithmetic the urn model shares: optional values, binary draws decided by an
 * injected uniform number, numpy's round-half-to-even and Python's truncating
 * `int(a / b)`, all in exact arithmetic.
 */
module Numerics {

  datatype Option<+T> = None | Some(value: T)

  /** The value of an operation, or the exception it raised. */
  datatype Result<+T, +E> = Success(value: T) | Failure(error: E)

  /** A binary outcome, as `numpy.random.binomial(1, p)` returns it. */
  type Bit = b: int | 0 <= b <= 1

  /** The exact quotient `a / b` that Python's true division approximates. */
  function Ratio(a: int, b: int): real
    requires b != 0
  {
    a as real / b as real
  }

  /**
   * One Bernoulli(p) draw, decided by the uniform number `u` the random source
   * produced for it: the draw is 1 exactly when `u < p`. A draw in [0, 1) can
   * only give an outcome of positive probability.
   */
  function Bernoulli(p: real, u: real): (y: Bit)
    ensures 0.0 <= u < 1.0 && y == 1 ==> p > 0.0
    ensures 0.0 <= u < 1.0 && y == 0 ==> p < 1.0
    ensures p >= 1.0 && u < 1.0 ==> y == 1
    ensures p <= 0.0 && u >= 0.0 ==> y == 0
  {
    if u < p then 1 else 0
  }

  /**
   * `numpy.random.randint(0, n)` decided by a uniform number: the index
   * `floor(u * n)`, which lies in [0, n).
   */
  function PickIndex(u: real, n: nat): (k: nat)
    requires 0.0 <= u < 1.0 && n > 0
    ensures k < n
  {
    PickIndexFloor(u, n);
    (u * n as real).Floor
  }

  /** The index PickIndex gives is the whole part of `u * n`. */
  lemma PickIndexFloor(u: real, n: nat)
    requires 0.0 <= u < 1.0 && n > 0
    ensures 0 <= (u * n as real).Floor < n
    ensures (u * n as real).Floor as real <= u * n as real < ((u * n as real).Floor + 1) as real
  {
    assert u * n as real < 1.0 * n as real;
  }

  /**
   * `numpy.round(n / d)` for a positive denominator: the integer nearest to
   * n/d, a tie going to the even neighbour.
   */
  function RoundHalfEven(n: int, d: int): (r: int)
    requires d > 0
    ensures d * (2 * r - 1) <= 2 * n <= d * (2 * r + 1)
    ensures 2 * n == d * (2 * r - 1) || 2 * n == d * (2 * r + 1) ==> r % 2 == 0
  {
    var q, m := n / d, n % d;
    assert n == q * d + m && 0 <= m < d;
    assert d * (2 * q - 1) == 2 * (q * d) - d && d * (2 * q + 1) == 2 * (q * d) + d;
    assert d * (2 * (q + 1) - 1) == 2 * (q * d) + d && d * (2 * (q + 1) + 1) == 2 * (q * d) + 3 * d;
    if 2 * m < d then q
    else if 2 * m > d then q + 1
    else if q % 2 == 0 then q
    else q + 1
  }

  /** Multiplying by a positive factor keeps signs and order. */
  lemma PositiveFactor(d: int, x: int, y: int)
    requires d > 0
    ensures d * x <= d * y <==> x <= y
    ensures d * x == d * y <==> x == y
  {
    if x <= y {
      assert d * y == d * x + d * (y - x);
    } else {
      assert d * x == d * y + d * (x - y);
    }
  }

  /** The two ensures of RoundHalfEven pin the result down: nothing else satisfies them. */
  lemma RoundHalfEvenUnique(n: int, d: int, r: int)
    requires d > 0
    requires d * (2 * r - 1) <= 2 * n <= d * (2 * r + 1)
    requires 2 * n == d * (2 * r - 1) || 2 * n == d * (2 * r + 1) ==> r % 2 == 0
    ensures r == RoundHalfEven(n, d)
  {
    var s := RoundHalfEven(n, d);
    PositiveFactor(d, 2 * r - 1, 2 * s + 1);
    PositiveFactor(d, 2 * s - 1, 2 * r + 1);
  }

  /** A quotient that is a whole number is returned unchanged by the rounding. */
  lemma RoundHalfEvenExact(q: int, d: int)
    requires d > 0
    ensures RoundHalfEven(q * d, d) == q
  {
    assert d * (2 * q - 1) == 2 * (q * d) - d;
    assert d * (2 * q + 1) == 2 * (q * d) + d;
    RoundHalfEvenUnique(q * d, d, q);
  }

  /** Rounding n/d with 0 <= n <= m*d stays in [0, m]. */
  lemma RoundHalfEvenBetween(n: int, d: int, m: int)
    requires d > 0 && 0 <= n <= m * d
    ensures 0 <= RoundHalfEven(n, d) <= m
  {
    var r := RoundHalfEven(n, d);
    assert 2 * (m * d) == d * (2 * m);
    assert d * (2 * r - 1) <= d * (2 * m);
    PositiveFactor(d, 2 * r - 1, 2 * m);
    assert d * (-1) < d * (2 * r + 1) by {
      assert d * (-1) < 0 <= 2 * n;
    }
    PositiveFactor(d, 2 * r + 1, -1);
  }

  /** The floor quotient of a non-negative n by a positive d brackets n between two multiples of d. */
  lemma QuotientBounds(n: int, d: int)
    requires 0 <= n && 0 < d
    ensures 0 <= n / d && (n / d) * d <= n < (n / d) * d + d
  {
    var q, m := n / d, n % d;
    assert n == q * d + m && 0 <= m < d;
    if q < 0 {
      PositiveFactor(d, q, -1);
    }
  }

  /** `int(n / d)` for a positive d: the quotient truncated toward zero. */
  function TruncDiv(n: int, d: int): (r: int)
    requires d > 0
    ensures 0 <= n ==> 0 <= r && r * d <= n < (r + 1) * d
    ensures n < 0 ==> r <= 0 && (r - 1) * d < n <= r * d
  {
    if n >= 0 then
      QuotientBounds(n, d);
      assert (n / d + 1) * d == (n / d) * d + d;
      n / d
    else
      QuotientBounds(-n, d);
      assert (-((-n) / d)) * d == -(((-n) / d) * d);
      assert (-((-n) / d) - 1) * d == -(((-n) / d) * d + d);
      -((-n) / d)
  }
}
