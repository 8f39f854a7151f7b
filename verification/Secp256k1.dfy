/**
 Point addition on y^2 = x^3 + 7 over a prime field (section 2.2.1 of SEC 1
 version 2.0), as used to derive a node id from a secret key.
 */
module Secp256k1 {
  import opened Base
  import opened ModArith

  datatype Point = Infinity | Affine(x: int, y: int)

  /** The ValueError of `pow` when there is no inverse. */
  datatype ArithmeticError = NotInvertible

  function CurveValue(x: int, y: int): int {
    y * y - x * x * x - 7
  }

  /** Infinity, or a reduced point on the curve. */
  ghost predicate OnCurve(p: int, a: Point) {
    a.Affine? ==> 0 <= a.x < p && 0 <= a.y < p && Divides(p, CurveValue(a.x, a.y))
  }

  /** The slope of the tangent at `a`, or of the chord through `a` and `b`. */
  function Slope(p: int, a: Point, b: Point): Option<int>
    requires p > 1 && a.Affine? && b.Affine?
  {
    if a == b then
      match ModInverse(2 * a.y, p)
      case None => None
      case Some(i) => Some(3 * a.x * a.x * i % p)
    else
      match ModInverse(b.x - a.x, p)
      case None => None
      case Some(i) => Some((b.y - a.y) * i % p)
  }

  /** `_ec_add` */
  function EcAdd(p: int, a: Point, b: Point): Result<Point, ArithmeticError>
    requires p > 1
  {
    if a.Infinity? then Ok(b)
    else if b.Infinity? then Ok(a)
    else if a.x == b.x && (a.y + b.y) % p == 0 then Ok(Infinity)
    else
      match Slope(p, a, b)
      case None => Err(NotInvertible)
      case Some(slope) =>
        var x3 := (slope * slope - a.x - b.x) % p;
        Ok(Affine(x3, (slope * (a.x - x3) - a.y) % p))
  }

  // ---------------------------------------------------------------------
  // The line through two points
  // ---------------------------------------------------------------------

  /** The line of the given slope through (x1, y1), at `x`. */
  function LineAt(slope: int, x1: int, y1: int, x: int): int {
    y1 + slope * (x - x1)
  }

  /** The cubic whose roots are the abscissas where the line meets the curve. */
  function Meeting(slope: int, x1: int, y1: int, x: int): int {
    x * x * x + 7 - LineAt(slope, x1, y1, x) * LineAt(slope, x1, y1, x)
  }

  function Cubic(x1: int, x2: int, x3: int, x: int): int {
    (x - x1) * (x - x2) * (x - x3)
  }

  /** The line of this slope meets the curve at x1, x2 and x3, and nowhere else. */
  ghost predicate MeetsAt(p: int, slope: int, x1: int, y1: int, x2: int, x3: int) {
    forall x: int :: Divides(p, Meeting(slope, x1, y1, x) - Cubic(x1, x2, x3, x))
  }

  /** Coefficients of the difference of the two cubics, whose leading terms cancel. */
  function Alpha(s: int, x1: int, y1: int, x2: int): int {
    var x3 := s * s - x1 - x2;
    2 * s * s * x1 - 2 * s * y1 - (x1 * x2 + x1 * x3 + x2 * x3)
  }

  function Beta(s: int, x1: int, y1: int, x2: int): int {
    var x3 := s * s - x1 - x2;
    7 - (y1 - s * x1) * (y1 - s * x1) + x1 * x2 * x3
  }

  lemma SquareOfSum(a: int, b: int)
    ensures (a + b) * (a + b) == a * a + 2 * a * b + b * b
  {
  }

  lemma MeetingExpanded(s: int, x1: int, y1: int, x: int)
    ensures Meeting(s, x1, y1, x) ==
            x * x * x + 7 - (y1 - s * x1) * (y1 - s * x1) -
            2 * (y1 - s * x1) * (s * x) - (s * x) * (s * x)
  {
    var c := y1 - s * x1;
    assert LineAt(s, x1, y1, x) == c + s * x by {
      assert s * (x - x1) == s * x - s * x1;
    }
    SquareOfSum(c, s * x);
  }

  lemma CubicExpanded(x1: int, x2: int, x3: int, x: int)
    ensures Cubic(x1, x2, x3, x) ==
            x * x * x - (x1 + x2 + x3) * x * x + (x1 * x2 + x1 * x3 + x2 * x3) * x -
            x1 * x2 * x3
  {
    assert (x - x1) * (x - x2) == x * x - x1 * x - x2 * x + x1 * x2;
    assert (x * x - x1 * x - x2 * x + x1 * x2) * (x - x3) ==
           x * x * x - x1 * x * x - x2 * x * x + x1 * x2 * x
           - x * x * x3 + x1 * x * x3 + x2 * x * x3 - x1 * x2 * x3;
  }

  lemma SquareTerm(s: int, x: int)
    ensures (s * x) * (s * x) == s * s * x * x
  {
  }

  lemma MixedTerm(s: int, x1: int, y1: int, x: int)
    ensures 2 * (y1 - s * x1) * (s * x) == -(2 * s * s * x1 - 2 * s * y1) * x
  {
    assert (y1 - s * x1) * (s * x) == y1 * s * x - s * x1 * (s * x);
  }

  lemma LinearTerm(a: int, b: int, x: int)
    ensures (a - b) * x == a * x - b * x && -a * x == -(a * x)
  {
  }

  lemma DifferenceIsLinear(s: int, x1: int, y1: int, x2: int, x: int)
    ensures Meeting(s, x1, y1, x) - Cubic(x1, x2, s * s - x1 - x2, x) ==
            Alpha(s, x1, y1, x2) * x + Beta(s, x1, y1, x2)
  {
    var x3 := s * s - x1 - x2;
    MeetingExpanded(s, x1, y1, x);
    CubicExpanded(x1, x2, x3, x);
    assert x1 + x2 + x3 == s * s;
    SquareTerm(s, x);
    MixedTerm(s, x1, y1, x);
    LinearTerm(2 * s * s * x1 - 2 * s * y1, x1 * x2 + x1 * x3 + x2 * x3, x);
  }

  lemma LinearPartVanishes(p: int, s: int, x1: int, y1: int, x2: int)
    requires Divides(p, Alpha(s, x1, y1, x2)) && Divides(p, Beta(s, x1, y1, x2))
    ensures MeetsAt(p, s, x1, y1, x2, s * s - x1 - x2)
  {
    hide Alpha, Beta, Meeting, Cubic;
    forall x: int
      ensures Divides(p, Meeting(s, x1, y1, x) - Cubic(x1, x2, s * s - x1 - x2, x))
    {
      DifferenceIsLinear(s, x1, y1, x2, x);
      DividesProduct(p, Alpha(s, x1, y1, x2), x);
      DividesSum(p, Alpha(s, x1, y1, x2) * x, Beta(s, x1, y1, x2));
    }
  }

  /** At the first point the linear difference is minus the curve equation. */
  lemma AtFirstPoint(s: int, x1: int, y1: int, x2: int)
    ensures Alpha(s, x1, y1, x2) * x1 + Beta(s, x1, y1, x2) == -CurveValue(x1, y1)
  {
    DifferenceIsLinear(s, x1, y1, x2, x1);
    hide Alpha, Beta;
    assert LineAt(s, x1, y1, x1) == y1;
    assert Cubic(x1, x2, s * s - x1 - x2, x1) == 0;
  }

  /** At the second point it is so up to how far the line misses that point. */
  lemma AtSecondPoint(s: int, x1: int, y1: int, x2: int, y2: int)
    ensures var miss := LineAt(s, x1, y1, x2) - y2;
            Alpha(s, x1, y1, x2) * x2 + Beta(s, x1, y1, x2) ==
            -CurveValue(x2, y2) - miss * (miss + 2 * y2)
  {
    DifferenceIsLinear(s, x1, y1, x2, x2);
    hide Alpha, Beta;
    var l := LineAt(s, x1, y1, x2);
    assert Cubic(x1, x2, s * s - x1 - x2, x2) == 0;
    assert (l - y2) * (l - y2 + 2 * y2) == l * l - y2 * y2;
  }

  lemma ChordMeets(p: int, s: int, x1: int, y1: int, x2: int, y2: int)
    requires IsPrime(p) && !Divides(p, x2 - x1)
    requires Divides(p, CurveValue(x1, y1)) && Divides(p, CurveValue(x2, y2))
    requires Divides(p, LineAt(s, x1, y1, x2) - y2)
    ensures MeetsAt(p, s, x1, y1, x2, s * s - x1 - x2)
  {
    hide LineAt, CurveValue, Alpha, Beta, MeetsAt;
    var a, b := Alpha(s, x1, y1, x2), Beta(s, x1, y1, x2);
    var miss := LineAt(s, x1, y1, x2) - y2;
    AtFirstPoint(s, x1, y1, x2);
    AtSecondPoint(s, x1, y1, x2, y2);
    DividesProduct(p, CurveValue(x1, y1), -1);
    DividesProduct(p, CurveValue(x2, y2), -1);
    DividesProduct(p, miss, miss + 2 * y2);
    DividesSum(p, -CurveValue(x2, y2), miss * (miss + 2 * y2));
    DividesSum(p, a * x2 + b, a * x1 + b);
    assert (a * x2 + b) - (a * x1 + b) == a * (x2 - x1);
    PrimeProduct(p, a, x2 - x1);
    DividesProduct(p, a, x1);
    DividesSum(p, a * x1 + b, a * x1);
    LinearPartVanishes(p, s, x1, y1, x2);
  }

  lemma TangentAlpha(s: int, x1: int, y1: int)
    ensures Alpha(s, x1, y1, x1) == 3 * x1 * x1 - s * (2 * y1)
  {
    var x3 := s * s - x1 - x1;
    assert x1 * x3 == s * s * x1 - 2 * x1 * x1;
  }

  lemma TangentMeets(p: int, s: int, x1: int, y1: int)
    requires Divides(p, CurveValue(x1, y1)) && Divides(p, s * (2 * y1) - 3 * x1 * x1)
    ensures MeetsAt(p, s, x1, y1, x1, s * s - x1 - x1)
  {
    hide CurveValue, Beta, MeetsAt, Alpha;
    var a, b := Alpha(s, x1, y1, x1), Beta(s, x1, y1, x1);
    TangentAlpha(s, x1, y1);
    AtFirstPoint(s, x1, y1, x1);
    DividesProduct(p, s * (2 * y1) - 3 * x1 * x1, -1);
    DividesProduct(p, CurveValue(x1, y1), -1);
    DividesProduct(p, a, x1);
    DividesSum(p, a * x1 + b, a * x1);
    LinearPartVanishes(p, s, x1, y1, x1);
  }

  // ---------------------------------------------------------------------
  // The slope
  // ---------------------------------------------------------------------

  /** `rise * inverse(run)`, reduced, is the quotient of rise by run. */
  lemma SlopeIsQuotient(p: int, rise: int, run: int, i: int)
    requires p > 0 && Divides(p, run * i - 1)
    ensures Divides(p, rise * i % p * run - rise)
  {
    var s := rise * i % p;
    DividesIffMod(p, rise * i);
    DividesProduct(p, s - rise * i, run);
    DividesProduct(p, run * i - 1, rise);
    DividesSum(p, (s - rise * i) * run, rise * (run * i - 1));
    QuotientIdentity(s, rise, run, i);
  }

  lemma QuotientIdentity(s: int, rise: int, run: int, i: int)
    ensures (s - rise * i) * run + rise * (run * i - 1) == s * run - rise
  {
    assert (s - rise * i) * run == s * run - rise * i * run;
    assert rise * (run * i - 1) == rise * (run * i) - rise;
  }

  /** Two curve points with one abscissa are equal or opposite. */
  lemma SameAbscissa(p: int, x: int, y1: int, y2: int)
    requires IsPrime(p) && 0 <= y1 < p && 0 <= y2 < p
    requires Divides(p, CurveValue(x, y1)) && Divides(p, CurveValue(x, y2))
    ensures y1 == y2 || (y1 + y2) % p == 0
  {
    DividesSum(p, CurveValue(x, y1), CurveValue(x, y2));
    assert CurveValue(x, y1) - CurveValue(x, y2) == (y1 - y2) * (y1 + y2);
    PrimeProduct(p, y1 - y2, y1 + y2);
    DividesIffMod(p, y1 + y2);
    if Divides(p, y1 - y2) {
      NoSmallMultiple(p, y1 - y2);
    }
  }

  /** Not opposite: the inverse the program takes exists. */
  lemma SlopeExists(p: int, a: Point, b: Point)
    requires IsPrime(p) && OnCurve(p, a) && OnCurve(p, b) && a.Affine? && b.Affine?
    requires !(a.x == b.x && (a.y + b.y) % p == 0)
    ensures a != b ==> !Divides(p, b.x - a.x)
    ensures Slope(p, a, b).Some?
    ensures var s := Slope(p, a, b).value;
            Divides(p, LineAt(s, a.x, a.y, b.x) - b.y) &&
            (a == b ==> Divides(p, s * (2 * a.y) - 3 * a.x * a.x))
  {
    if a == b {
      DividesIffMod(p, 2 * a.y);
      PrimeInverse(p, 2 * a.y);
      ModInverseCorrect(2 * a.y, p);
      SlopeIsQuotient(p, 3 * a.x * a.x, 2 * a.y, ModInverse(2 * a.y, p).value);
      DividesTimes(p, 0);
    } else {
      if a.x == b.x {
        SameAbscissa(p, a.x, a.y, b.y);
      }
      if Divides(p, b.x - a.x) {
        NoSmallMultiple(p, b.x - a.x);
      }
      PrimeInverse(p, b.x - a.x);
      ModInverseCorrect(b.x - a.x, p);
      SlopeIsQuotient(p, b.y - a.y, b.x - a.x, ModInverse(b.x - a.x, p).value);
    }
  }

  // ---------------------------------------------------------------------
  // The sum
  // ---------------------------------------------------------------------

  /** Reducing the third abscissa does not move it. */
  lemma MeetsAtReduced(p: int, s: int, x1: int, y1: int, x2: int, x3: int)
    requires p > 0 && MeetsAt(p, s, x1, y1, x2, x3)
    ensures MeetsAt(p, s, x1, y1, x2, x3 % p)
  {
    var r := x3 % p;
    DividesIffMod(p, x3);
    forall x: int
      ensures Divides(p, Meeting(s, x1, y1, x) - Cubic(x1, x2, r, x))
    {
      var m := Meeting(s, x1, y1, x);
      hide Meeting;
      assert Divides(p, m - Cubic(x1, x2, x3, x));
      DividesProduct(p, r - x3, (x - x1) * (x - x2));
      assert (x - x1) * (x - x2) * (r - x3) == Cubic(x1, x2, x3, x) - Cubic(x1, x2, r, x) by {
        assert (x - x1) * (x - x2) * ((x - x3) - (x - r)) ==
               (x - x1) * (x - x2) * (x - x3) - (x - x1) * (x - x2) * (x - r);
      }
      DividesSum(p, m - Cubic(x1, x2, x3, x), (x - x1) * (x - x2) * (r - x3));
    }
  }

  /** The reflection of a point where the line meets the curve is on the curve. */
  lemma ReflectionOnCurve(p: int, s: int, x1: int, y1: int, x2: int, x3: int, y3: int)
    requires p > 0 && MeetsAt(p, s, x1, y1, x2, x3)
    requires Divides(p, LineAt(s, x1, y1, x3) + y3)
    ensures Divides(p, CurveValue(x3, y3))
  {
    var l := LineAt(s, x1, y1, x3);
    assert Cubic(x1, x2, x3, x3) == 0;
    assert Divides(p, Meeting(s, x1, y1, x3) - Cubic(x1, x2, x3, x3));
    DividesProduct(p, Meeting(s, x1, y1, x3), -1);
    DividesProduct(p, l + y3, y3 - l);
    assert (l + y3) * (y3 - l) == y3 * y3 - l * l;
    DividesSum(p, -Meeting(s, x1, y1, x3), (l + y3) * (y3 - l));
  }

  /**
   `r` is the sum of the affine points `a` and `b` by the chord and tangent law:
   a line through both, tangent when they are equal, meets the curve in exactly
   one further point, and `r` is its reflection.
   */
  ghost predicate ChordTangentSum(p: int, a: Point, b: Point, r: Point) {
    a.Affine? && b.Affine? && r.Affine? &&
    exists s: int ::
      Divides(p, LineAt(s, a.x, a.y, b.x) - b.y) &&
      Divides(p, LineAt(s, a.x, a.y, r.x) + r.y) &&
      MeetsAt(p, s, a.x, a.y, b.x, r.x)
  }

  predicate Opposite(p: int, a: Point, b: Point)
    requires p > 0
  {
    a.Affine? && b.Affine? && a.x == b.x && (a.y + b.y) % p == 0
  }

  /** The third point, reflected and reduced. */
  lemma ThirdPoint(p: int, s: int, x1: int, y1: int, x2: int)
    requires p > 0 && MeetsAt(p, s, x1, y1, x2, s * s - x1 - x2)
    ensures var x3 := (s * s - x1 - x2) % p;
            var y3 := (s * (x1 - x3) - y1) % p;
            && 0 <= x3 < p && 0 <= y3 < p
            && Divides(p, LineAt(s, x1, y1, x3) + y3)
            && MeetsAt(p, s, x1, y1, x2, x3) && Divides(p, CurveValue(x3, y3))
  {
    hide CurveValue, MeetsAt;
    var x3 := (s * s - x1 - x2) % p;
    MeetsAtReduced(p, s, x1, y1, x2, s * s - x1 - x2);
    var y := s * (x1 - x3) - y1;
    DividesIffMod(p, y);
    assert s * (x3 - x1) == -(s * (x1 - x3));
    assert LineAt(s, x1, y1, x3) + y % p == y % p - y;
    ReflectionOnCurve(p, s, x1, y1, x2, x3, y % p);
  }

  /**
   For a prime modulus and points on the curve every inverse taken exists, the
   sum is again a reduced point on the curve or infinity, infinity exactly for
   opposite points, and otherwise the chord and tangent sum.
   */
  lemma EcAddClosed(p: int, a: Point, b: Point)
    requires IsPrime(p) && OnCurve(p, a) && OnCurve(p, b)
    ensures EcAdd(p, a, b).Ok?
    ensures var r := EcAdd(p, a, b).value;
            && OnCurve(p, r)
            && (a.Infinity? ==> r == b) && (b.Infinity? ==> r == a)
            && (a.Affine? && b.Affine? ==>
                  if Opposite(p, a, b) then r == Infinity else ChordTangentSum(p, a, b, r))
  {
    if a.Affine? && b.Affine? && !Opposite(p, a, b) {
      SlopeExists(p, a, b);
      var s := Slope(p, a, b).value;
      hide Slope, CurveValue, MeetsAt, Divides, LineAt;
      if a == b {
        TangentMeets(p, s, a.x, a.y);
      } else {
        ChordMeets(p, s, a.x, a.y, b.x, b.y);
      }
      ThirdPoint(p, s, a.x, a.y, b.x);
    }
  }
}
