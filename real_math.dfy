/** The numeric library functions the program calls: Python's `abs`, `round`
    and `math.sqrt`, `math.cos`, `math.pi`.

    Exact square roots and cosines are not rational, so Sqrt and Cos are
    given concrete rational approximations (Newton's method and a truncated
    Taylor series). No property of the model depends on how close
    these come to the true values: the proofs use only the facts stated in
    their `ensures` clauses and in CosOfPiOver. Round is exact: it
    is Python's round-half-to-even on the reals. */
module RealMath {

  const Pi: real := 3.141592653589793

  function Abs(x: real): (r: real)
    ensures 0.0 <= r && (r == x || r == -x)
  {
    if x < 0.0 then -x else x
  }

  /** Python's `round` with one argument: the nearest integer, ties to the
      even one. */
  function Round(x: real): (n: int)
    ensures x - 0.5 <= n as real <= x + 0.5
    ensures x == n as real + 0.5 ==> n % 2 == 0
    ensures x == n as real - 0.5 ==> n % 2 == 0
  {
    var f := x.Floor;
    var frac := x - f as real;
    if frac < 0.5 then f
    else if frac > 0.5 then f + 1
    else if f % 2 == 0 then f
    else f + 1
  }

  /** math.sqrt on its domain (every call site passes a sum of squares or
      a variance, never a negative number): Newton's method from the guess
      1. From there the guesses first about halve, for some log4(x) steps,
      then converge quadratically, so 6 further steps are taken. */
  function Sqrt(x: real): (r: real)
    ensures 0.0 <= r
    ensures x <= 0.0 ==> r == 0.0
    ensures 0.0 < x ==> 0.0 < r
  {
    if x <= 0.0 then 0.0 else NewtonFrom(x, 1.0, 6 + Log4(x))
  }

  /** The guess g for the square root of x after n more Newton steps. */
  function NewtonFrom(x: real, g: real, n: nat): (r: real)
    requires 0.0 < x && 0.0 < g
    ensures 0.0 < r
    decreases n
  {
    if n == 0 then g
    else
      DivNonNegative(x, g);
      NewtonFrom(x, (g + x / g) / 2.0, n - 1)
  }

  /** The whole number of times 4 goes into x before it falls below 4. */
  function Log4(x: real): nat
    decreases x.Floor
  {
    if x < 4.0 then 0 else 1 + Log4(x / 4.0)
  }

  /** math.cos, as its Taylor polynomial of degree 8 about 0. */
  function Cos(x: real): real
  {
    var y := x * x;
    1.0 - y / 2.0 * (1.0 - y / 12.0 * (1.0 - y / 30.0 * (1.0 - y / 56.0)))
  }

  function Sq(x: real): (r: real)
    ensures 0.0 <= r
  {
    x * x
  }

  lemma ProductPositive(x: real, y: real)
    requires 0.0 < x && 0.0 < y
    ensures 0.0 < x * y
  {
  }

  lemma SqPositive(x: real)
    requires x != 0.0
    ensures 0.0 < Sq(x)
  {
    var a := Abs(x);
    ProductPositive(a, a);
    calc {
      Sq(x);
      == x * x;
      == a * a;
      > 0.0;
    }
  }

  lemma SqZero(x: real)
    ensures Sq(x) == 0.0 ==> x == 0.0
  {
    if x != 0.0 {
      SqPositive(x);
    }
  }

  lemma MulNonNegative(x: real, y: real)
    requires 0.0 <= x && 0.0 <= y
    ensures 0.0 <= x * y
  {
  }

  lemma DivNonNegative(a: real, b: real)
    requires 0.0 <= a && 0.0 < b
    ensures 0.0 <= a / b
  {
  }

  lemma ScaleBelow(y: real, a: real, b: real)
    requires 0.0 <= y <= b && 0.0 <= a <= 1.0
    ensures 0.0 <= y * a <= b
  {
  }

  /** The correction math.cos(math.pi / n) by which the program divides a
      polygon's apothem is never zero, whatever the point count n >= 1, and
      it is positive from two points on. */
  lemma CosOfPiOver(n: nat)
    requires 1 <= n
    ensures Cos(Pi / n as real) != 0.0
    ensures 2 <= n ==> 0.0 < Cos(Pi / n as real)
  {
    if n == 1 {
      assert Pi / n as real == Pi;
    } else if n == 2 {
      assert Pi / n as real == Pi / 2.0;
    } else {
      var x := Pi / n as real;
      assert 0.0 < x <= Pi / 3.0 by {
        assert x * (n as real) == Pi;
        assert 3.0 <= n as real;
      }
      var y := x * x;
      assert y <= 1.05 * 1.05 by {
        assert x * x <= x * 1.05;
        assert x * 1.05 <= 1.05 * 1.05;
      }
      var a := 1.0 - y / 56.0;
      assert 0.0 <= a <= 1.0;
      ScaleBelow(y / 30.0, a, 1.0);
      var b := 1.0 - y / 30.0 * a;
      assert 0.0 <= b <= 1.0;
      ScaleBelow(y / 12.0, b, 1.0);
      var c := 1.0 - y / 12.0 * b;
      assert 0.0 <= c <= 1.0;
      ScaleBelow(y / 2.0, c, 0.6);
      assert Cos(x) == 1.0 - y / 2.0 * c;
    }
  }
}
