/**
  Modular arithmetic on exact real angles: the floored remainder that the
  steering code calls `modulo`, and Java's truncating `%` on doubles that the
  offset getter uses.
 */
module AngleMath {

  function Abs(x: real): (r: real)
    ensures r >= 0.0 && (r == x || r == -x)
  {
    if x < 0.0 then -x else x
  }

  /** Java's Math.signum on a real: -1, 0 or 1. */
  function Signum(x: real): (r: real)
    ensures x > 0.0 ==> r == 1.0
    ensures x < 0.0 ==> r == -1.0
    ensures x == 0.0 ==> r == 0.0
  {
    if x > 0.0 then 1.0 else if x < 0.0 then -1.0 else 0.0
  }

  /** x is an integer multiple of m. */
  predicate IsMultipleOf(x: real, m: real)
    requires m != 0.0
  {
    (x / m).Floor as real == x / m
  }

  /** The floored remainder a - b * floor(a / b): its sign is that of b. */
  function Modulo(a: real, b: real): (r: real)
    requires b != 0.0
    ensures b > 0.0 ==> 0.0 <= r < b
    ensures b < 0.0 ==> b < r <= 0.0
    ensures IsMultipleOf(a - r, b)
  {
    var q := (a / b).Floor;
    MultiplesOfMultiples(a, b, q);
    FloorQuotientBounds(a, b, q);
    a - b * q as real
  }

  /** Rounds toward zero, as a double-to-long cast does. */
  function Truncate(x: real): (n: int)
    ensures Abs(n as real) <= Abs(x) < Abs(n as real) + 1.0
    ensures x >= 0.0 ==> n >= 0
    ensures x <= 0.0 ==> n <= 0
  {
    if x >= 0.0 then x.Floor else -((-x).Floor)
  }

  /** Java's `%` on doubles: a - b * trunc(a / b); its sign is that of a. */
  function JavaRemainder(a: real, b: real): (r: real)
    requires b != 0.0
    ensures a >= 0.0 ==> 0.0 <= r < Abs(b)
    ensures a < 0.0 ==> -Abs(b) < r <= 0.0
    ensures IsMultipleOf(a - r, b)
  {
    var q := Truncate(a / b);
    MultiplesOfMultiples(a, b, q);
    TruncatedQuotientBounds(a, b, q);
    a - b * q as real
  }

  /** Two angles name the same heading modulo m. */
  predicate Congruent(x: real, y: real, m: real)
    requires m > 0.0
  {
    Modulo(x, m) == Modulo(y, m)
  }

  /** The remainder a - b * q is b times the fractional part a / b - q. */
  lemma RemainderAsProduct(a: real, b: real, q: int)
    requires b != 0.0
    ensures a - b * q as real == b * (a / b - q as real)
  {
    assert b * (a / b) == a;
  }

  /** b * t for |t| < 1 is smaller than b in size and has the sign of b * t's factors. */
  lemma FractionOfDivisor(b: real, t: real)
    requires b != 0.0 && -1.0 < t < 1.0
    ensures Abs(b * t) < Abs(b)
    ensures (b > 0.0) == (t > 0.0) ==> b * t >= 0.0
    ensures (b > 0.0) != (t > 0.0) && t != 0.0 ==> b * t <= 0.0
  {
    var c, u := Abs(b), Abs(t);
    var q := c * u;
    ProductOfSizes(b, t, c, u);
    FractionOfPositive(c, u, q);
  }

  /** The product of the sizes is the size of the product, with the sign
      given by the factors. */
  lemma ProductOfSizes(b: real, t: real, c: real, u: real)
    requires c == Abs(b) && u == Abs(t)
    ensures (b >= 0.0) == (t >= 0.0) ==> b * t == c * u
    ensures (b >= 0.0) != (t >= 0.0) ==> b * t == -(c * u)
  {
    if b < 0.0 && t < 0.0 {
      assert c * u == (-b) * (-t);
    } else if b < 0.0 {
      assert c * u == (-b) * t;
    } else if t < 0.0 {
      assert c * u == b * (-t);
    }
  }

  /** For c > 0 and 0 <= u < 1, the product q = c * u lies in [0, c). */
  lemma FractionOfPositive(c: real, u: real, q: real)
    requires c > 0.0 && 0.0 <= u < 1.0 && q == c * u
    ensures 0.0 <= q < c
  {
    Scale(0.0, u, c);
    ScaleStrict(u, 1.0, c);
  }

  lemma FloorQuotientBounds(a: real, b: real, q: int)
    requires b != 0.0 && q == (a / b).Floor
    ensures b > 0.0 ==> 0.0 <= a - b * q as real < b
    ensures b < 0.0 ==> b < a - b * q as real <= 0.0
  {
    RemainderAsProduct(a, b, q);
    FractionOfDivisor(b, a / b - q as real);
  }

  lemma TruncatedQuotientBounds(a: real, b: real, q: int)
    requires b != 0.0 && q == Truncate(a / b)
    ensures a >= 0.0 ==> 0.0 <= a - b * q as real < Abs(b)
    ensures a < 0.0 ==> -Abs(b) < a - b * q as real <= 0.0
  {
    RemainderAsProduct(a, b, q);
    FractionOfDivisor(b, a / b - q as real);
    SignOfQuotient(a, b);
  }

  lemma SignOfQuotient(a: real, b: real)
    requires b != 0.0
    ensures a / b > 0.0 <==> (a > 0.0) == (b > 0.0) && a != 0.0
  {
    assert b * (a / b) == a;
    if a / b > 0.0 {
      if b > 0.0 { ScaleStrict(0.0, a / b, b); } else { ScaleStrict(0.0, a / b, -b); }
    } else if a != 0.0 && (a > 0.0) == (b > 0.0) {
      if b > 0.0 { Scale(a / b, 0.0, b); } else { Scale(a / b, 0.0, -b); }
    }
  }

  lemma Scale(x: real, y: real, c: real)
    requires x <= y && c > 0.0
    ensures x * c <= y * c
  {
  }

  lemma ScaleStrict(x: real, y: real, c: real)
    requires x < y && c > 0.0
    ensures x * c < y * c
  {
  }

  lemma MultiplesOfMultiples(a: real, b: real, q: int)
    requires b != 0.0
    ensures (a - (a - b * q as real)) / b == q as real
  {
  }

  /** Modulo(a, b) is the only value in [0, b) that differs from a by a multiple of b. */
  lemma ModuloUnique(a: real, b: real, r: real, k: int)
    requires b > 0.0 && 0.0 <= r < b
    requires a == r + k as real * b
    ensures Modulo(a, b) == r
  {
    var q := (a / b).Floor;
    assert a / b == r / b + k as real;
    assert b * (r / b) == r;
    if r / b >= 1.0 {
      Scale(1.0, r / b, b);
    }
    FloorOfShift(a / b, r / b, k);
  }

  lemma FloorOfShift(x: real, f: real, k: int)
    requires x == f + k as real && 0.0 <= f < 1.0
    ensures x.Floor == k
  {
    assert x.Floor as real <= x < x.Floor as real + 1.0;
  }

  /** Shifting by a whole number of turns does not change the remainder. */
  lemma {:induction false} ModuloShift(a: real, b: real, k: int)
    requires b > 0.0
    ensures Modulo(a + k as real * b, b) == Modulo(a, b)
  {
    var q := (a / b).Floor;
    ModuloUnique(a + k as real * b, b, Modulo(a, b), q + k);
  }

  /** An angle differs from its remainder by a whole number of turns. */
  lemma ModuloDecompose(a: real, b: real)
    requires b > 0.0
    ensures a == Modulo(a, b) + (a / b).Floor as real * b
  {
  }

  /** Angles that differ by a whole number of turns are congruent. */
  lemma CongruentByShift(x: real, y: real, m: real, k: int)
    requires m > 0.0 && x == y + k as real * m
    ensures Congruent(x, y, m)
  {
    ModuloShift(y, m, k);
  }

  /** Congruent angles differ by a whole number of turns. */
  lemma CongruentDifference(x: real, y: real, m: real) returns (k: int)
    requires m > 0.0 && Congruent(x, y, m)
    ensures x == y + k as real * m
  {
    ModuloDecompose(x, m);
    ModuloDecompose(y, m);
    k := (x / m).Floor - (y / m).Floor;
  }

  /** A half turn never names the same heading. */
  lemma HalfTurnNotCongruent(y: real, m: real)
    requires m > 0.0
    ensures !Congruent(y + m / 2.0, y, m)
  {
    var x := y + m / 2.0;
    var k1, k2 := (x / m).Floor, (y / m).Floor;
    var r1, r2 := Modulo(x, m), Modulo(y, m);
    ModuloDecompose(x, m);
    ModuloDecompose(y, m);
    assert x == r1 + k1 as real * m;
    assert y == r2 + k2 as real * m;
    var k := k1 - k2;
    var p := k as real * m;
    assert p == k1 as real * m - k2 as real * m;
    assert x - y == r1 - r2 + p;
    WholeTurns(m, k, p);
  }

  /** A whole number of turns is never strictly between 0 and one turn. */
  lemma WholeTurns(m: real, k: int, p: real)
    requires m > 0.0 && p == k as real * m
    ensures p <= 0.0 || m <= p
  {
    if k >= 1 {
      Scale(1.0, k as real, m);
      assert 1.0 * m <= p;
    } else {
      Scale(k as real, 0.0, m);
      assert p <= 0.0 * m;
    }
  }

  /** For a positive divisor, Java's `%` agrees with Modulo on non-negative
      dividends and is Modulo minus one turn on negative ones (unless both are 0). */
  lemma JavaRemainderVsModulo(a: real, b: real)
    requires b > 0.0
    ensures a >= 0.0 ==> JavaRemainder(a, b) == Modulo(a, b)
    ensures a < 0.0 && Modulo(a, b) == 0.0 ==> JavaRemainder(a, b) == 0.0
    ensures a < 0.0 && Modulo(a, b) != 0.0 ==> JavaRemainder(a, b) == Modulo(a, b) - b
    ensures Congruent(JavaRemainder(a, b), a, b)
  {
    var r := JavaRemainder(a, b);
    var k := (a / b).Floor - Truncate(a / b);
    ModuloDecompose(a, b);
    assert a == r + Truncate(a / b) as real * b;
    assert r == Modulo(a, b) + k as real * b;
    CongruentByShift(r, Modulo(a, b), b, k);
    ModuloUnique(Modulo(a, b), b, Modulo(a, b), 0);
    if a >= 0.0 {
      ModuloUnique(a, b, r, Truncate(a / b));
    } else if Modulo(a, b) != 0.0 {
      assert k == -1 by {
        assert -b < r < 0.0;
        assert r - Modulo(a, b) == k as real * b;
        assert -2.0 * b < k as real * b < 0.0;
      }
    } else {
      assert k == 0 by {
        assert -b < k as real * b <= 0.0;
      }
    }
  }
}
