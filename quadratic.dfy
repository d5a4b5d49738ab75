/**
  The quadratic solver of the tracer: a2*x^2 + a1*x + a0 = 0 by the closed formula,
  with the square root supplied by the caller.
 */
module Quadratic {
  import opened Linear

  /** `float.MaxValue`, the "nothing found yet" sentinel of the solver and of the nearest-hit scan. */
  const MaxFloat: real := 340282346638528859811704183484516925440.0

  /**
    The solver's outcome. `TwoRoots` carries x0 (the minus branch) and x1 (the plus branch).
    `ZeroLeading` is a non-negative discriminant with a2 == 0: the formula then divides by zero,
    which in IEEE arithmetic yields infinities or NaN, values a real number cannot stand for.
   */
  datatype Solution = NoRealSolution | TwoRoots(x0: real, x1: real) | ZeroLeading

  function Discriminant(a2: real, a1: real, a0: real): real {
    a1 * a1 - 4.0 * a2 * a0
  }

  /** The value of the polynomial at `x`. */
  function Poly(a2: real, a1: real, a0: real, x: real): real {
    a2 * x * x + a1 * x + a0
  }

  /** `sqrt` behaves as the square root at `d` (when `d` has one). */
  predicate SqrtAt(sqrt: real -> real, d: real) {
    0.0 <= d ==> 0.0 <= sqrt(d) && sqrt(d) * sqrt(d) == d
  }

  /** `SolveQuadratic`: "no real solution" exactly when the discriminant is negative. */
  function SolveQuadratic(a2: real, a1: real, a0: real, sqrt: real -> real): (r: Solution)
    ensures r.NoRealSolution? <==> Discriminant(a2, a1, a0) < 0.0
    ensures r.ZeroLeading? <==> Discriminant(a2, a1, a0) >= 0.0 && a2 == 0.0
  {
    var discriminant := (a1 * a1) - (4.0 * a2 * a0);
    if discriminant >= 0.0 then
      if a2 == 0.0 then ZeroLeading
      else TwoRoots((-a1 - sqrt(discriminant)) / (2.0 * a2), (-a1 + sqrt(discriminant)) / (2.0 * a2))
    else NoRealSolution
  }

  /** 4*a2 times the polynomial is the square of 2*a2*x + a1 minus the discriminant. */
  lemma CompletedSquare(a2: real, a1: real, a0: real, x: real)
    ensures 4.0 * a2 * Poly(a2, a1, a0, x)
      == (2.0 * a2 * x + a1) * (2.0 * a2 * x + a1) - Discriminant(a2, a1, a0)
  {
  }

  /** The closed formula with either sign of the root gives a zero of the polynomial. */
  lemma FormulaGivesZero(a2: real, a1: real, a0: real, s: real, x: real)
    requires a2 != 0.0
    requires s * s == Discriminant(a2, a1, a0)
    requires x == (-a1 + s) / (2.0 * a2)
    ensures Poly(a2, a1, a0, x) == 0.0
  {
    assert 2.0 * a2 * x + a1 == s;
    CompletedSquare(a2, a1, a0, x);
    assert 4.0 * a2 * Poly(a2, a1, a0, x) == 0.0;
  }

  /** A negative discriminant means the polynomial has no real zero at all. */
  lemma NoRealSolutionMeansNoZero(a2: real, a1: real, a0: real, sqrt: real -> real, x: real)
    requires SolveQuadratic(a2, a1, a0, sqrt).NoRealSolution?
    ensures Poly(a2, a1, a0, x) != 0.0
  {
    CompletedSquare(a2, a1, a0, x);
    var y := 2.0 * a2 * x + a1;
    assert y * y >= 0.0;
    assert 4.0 * a2 * Poly(a2, a1, a0, x) > 0.0;
  }

  /** Both roots the solver reports are zeros of the polynomial. */
  lemma RootsAreZeros(a2: real, a1: real, a0: real, sqrt: real -> real)
    requires SqrtAt(sqrt, Discriminant(a2, a1, a0))
    ensures var r := SolveQuadratic(a2, a1, a0, sqrt);
      r.TwoRoots? ==> Poly(a2, a1, a0, r.x0) == 0.0 && Poly(a2, a1, a0, r.x1) == 0.0
  {
    var r := SolveQuadratic(a2, a1, a0, sqrt);
    if r.TwoRoots? {
      var s := sqrt(Discriminant(a2, a1, a0));
      assert (-s) * (-s) == s * s;
      FormulaGivesZero(a2, a1, a0, -s, r.x0);
      FormulaGivesZero(a2, a1, a0, s, r.x1);
    }
  }

  /** x0 takes the minus branch, so it is the smaller root when a2 > 0 and the larger when a2 < 0. */
  lemma RootsOrdered(a2: real, a1: real, a0: real, sqrt: real -> real)
    requires SqrtAt(sqrt, Discriminant(a2, a1, a0))
    ensures var r := SolveQuadratic(a2, a1, a0, sqrt);
      r.TwoRoots? ==> (a2 > 0.0 ==> r.x0 <= r.x1) && (a2 < 0.0 ==> r.x1 <= r.x0)
  {
    var r := SolveQuadratic(a2, a1, a0, sqrt);
    if r.TwoRoots? {
      var s := sqrt(Discriminant(a2, a1, a0));
      assert (r.x1 - r.x0) * (2.0 * a2) == 2.0 * s;
    }
  }

  /** Every real zero of a proper quadratic is one of the two roots the solver reports. */
  lemma EveryZeroIsARoot(a2: real, a1: real, a0: real, sqrt: real -> real, x: real)
    requires SqrtAt(sqrt, Discriminant(a2, a1, a0))
    requires a2 != 0.0
    requires Poly(a2, a1, a0, x) == 0.0
    ensures var r := SolveQuadratic(a2, a1, a0, sqrt);
      r.TwoRoots? && (x == r.x0 || x == r.x1)
  {
    var d := Discriminant(a2, a1, a0);
    var y := 2.0 * a2 * x + a1;
    CompletedSquare(a2, a1, a0, x);
    assert y * y == d;
    var s := sqrt(d);
    SameSquare(y, s);
    Isolate(a2, a1, x, y);
  }

  lemma SameSquare(y: real, s: real)
    requires y * y == s * s
    ensures y == s || y == -s
  {
    assert (y - s) * (y + s) == y * y - s * s;
    ProductZero(y - s, y + s);
  }

  lemma Isolate(a2: real, a1: real, x: real, y: real)
    requires a2 != 0.0 && 2.0 * a2 * x + a1 == y
    ensures x == (-a1 + y) / (2.0 * a2)
  {
  }

  /** x^2 - 4 = 0 has the roots -2 and 2. */
  lemma SolveExample(sqrt: real -> real)
    requires sqrt(16.0) == 4.0
    ensures SolveQuadratic(1.0, 0.0, -4.0, sqrt) == TwoRoots(-2.0, 2.0)
    ensures SolveQuadratic(1.0, 0.0, 4.0, sqrt) == NoRealSolution
  {
  }
}
