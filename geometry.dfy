/** Plane geometry shared by the correspondence solver: coordinates, the Euclidean
    distance, lines through two points (as y-of-x / x-of-y evaluators and as
    a*x + b*y + c == 0 coefficients) and the intersection of two such lines.

    All arithmetic is over exact reals. Math.sqrt is a library routine whose
    internals are not modelled: every function that needs it takes it as the
    parameter `sqrt`, and the facts that depend on its meaning assume IsSqrt(sqrt). */
module Geometry {

  /** A 2-D point (x, y); normalised to the unit square by the callers. */
  type Coordinate = (real, real)

  /** Four corners in the fixed winding order 0 top-left, 1 top-right,
      2 bottom-right, 3 bottom-left. */
  type Perspective = (Coordinate, Coordinate, Coordinate, Coordinate)

  /** A line given by two points on it. */
  type Line = (Coordinate, Coordinate)

  /** (a, b, c) of the line a*x + b*y + c == 0. */
  type Coefficients = (real, real, real)

  /** The square-root routine the distance is computed with. */
  type SqrtFn = real -> real

  /** `sqrt` returns the non-negative square root of every non-negative real. */
  ghost predicate IsSqrt(sqrt: SqrtFn) {
    forall v: real :: v >= 0.0 ==> sqrt(v) >= 0.0 && sqrt(v) * sqrt(v) == v
  }

  /** Twice the signed area of the triangle p q r: zero exactly when the three
      points lie on one line. */
  predicate Collinear(p: Coordinate, q: Coordinate, r: Coordinate) {
    (q.0 - p.0) * (r.1 - p.1) - (q.1 - p.1) * (r.0 - p.0) == 0.0
  }

  /** The square root of a square of a non-negative number is that number. */
  lemma SqrtOfSquare(sqrt: SqrtFn, v: real)
    requires IsSqrt(sqrt)
    requires v >= 0.0
    ensures sqrt(v * v) == v
  {
    var r := sqrt(v * v);
    assert r >= 0.0 && r * r == v * v;
    NonNegativeRootUnique(r, v);
  }

  /** Two non-negative reals with the same square are equal. */
  lemma NonNegativeRootUnique(r: real, v: real)
    requires r >= 0.0 && v >= 0.0 && r * r == v * v
    ensures r == v
  {
    if r > v {
      assert (r - v) * (r + v) == r * r - v * v;
      MulPositive(r - v, r + v);
    } else if r < v {
      assert (v - r) * (v + r) == v * v - r * r;
      MulPositive(v - r, v + r);
    }
  }

  /** sqrt(dx^2 + dy^2): the length of the vector (dx, dy). */
  function Hypot(sqrt: SqrtFn, dx: real, dy: real): (r: real)
    ensures IsSqrt(sqrt) ==> r >= 0.0
  {
    SquareNonNegative(dx);
    SquareNonNegative(dy);
    sqrt(dx * dx + dy * dy)
  }

  /** The length squared is the sum of the squared components. */
  lemma HypotSquared(sqrt: SqrtFn, dx: real, dy: real)
    requires IsSqrt(sqrt)
    ensures Hypot(sqrt, dx, dy) * Hypot(sqrt, dx, dy) == dx * dx + dy * dy
  {
    SquareNonNegative(dx);
    SquareNonNegative(dy);
  }

  /** The Euclidean distance between two points (`distance`); it is never
      negative. */
  function Distance(sqrt: SqrtFn, p: Coordinate, q: Coordinate): (r: real)
    ensures IsSqrt(sqrt) ==> r >= 0.0
  {
    Hypot(sqrt, p.0 - q.0, p.1 - q.1)
  }

  /** The squared distance is the sum of the squared coordinate differences. */
  lemma DistanceSquared(sqrt: SqrtFn, p: Coordinate, q: Coordinate)
    requires IsSqrt(sqrt)
    ensures Distance(sqrt, p, q) * Distance(sqrt, p, q)
         == (p.0 - q.0) * (p.0 - q.0) + (p.1 - q.1) * (p.1 - q.1)
  {
    HypotSquared(sqrt, p.0 - q.0, p.1 - q.1);
  }

  /** The point k * |pq| beyond q on the line from p through q (k < 0: back
      towards p). */
  function Extend(p: Coordinate, q: Coordinate, k: real): Coordinate {
    (q.0 + (q.0 - p.0) * k, q.1 + (q.1 - p.1) * k)
  }

  /** Extend stays on the line through p and q. */
  lemma ExtendCollinear(p: Coordinate, q: Coordinate, k: real)
    ensures Collinear(p, q, Extend(p, q, k))
  {
    var r := Extend(p, q, k);
    assert r.1 - p.1 == (q.1 - p.1) * (1.0 + k);
    assert r.0 - p.0 == (q.0 - p.0) * (1.0 + k);
  }

  /** Two coordinates that agree componentwise are equal. */
  lemma CoordinateEq(r: Coordinate, e: Coordinate)
    requires r.0 == e.0 && r.1 == e.1
    ensures r == e
  {
  }

  /** A square is non-negative. */
  lemma SquareNonNegative(v: real)
    ensures v * v >= 0.0
  {
  }

  /** The product of two positive reals is positive. */
  lemma MulPositive(a: real, b: real)
    requires a > 0.0 && b > 0.0
    ensures a * b > 0.0
  {
  }

  /** The length of a vector along the x axis is its x component. */
  lemma HypotAlongX(sqrt: SqrtFn, dx: real)
    requires IsSqrt(sqrt)
    requires dx >= 0.0
    ensures Hypot(sqrt, dx, 0.0) == dx
  {
    assert dx * dx + 0.0 * 0.0 == dx * dx;
    SqrtOfSquare(sqrt, dx);
  }

  /** The length of a vector along the y axis is its y component. */
  lemma HypotAlongY(sqrt: SqrtFn, dy: real)
    requires IsSqrt(sqrt)
    requires dy >= 0.0
    ensures Hypot(sqrt, 0.0, dy) == dy
  {
    assert 0.0 * 0.0 + dy * dy == dy * dy;
    SqrtOfSquare(sqrt, dy);
  }

  /** Scaling a vector by t >= 0 scales its length by t. */
  lemma HypotScale(sqrt: SqrtFn, t: real, dx: real, dy: real)
    requires IsSqrt(sqrt)
    requires t >= 0.0
    ensures Hypot(sqrt, t * dx, t * dy) == t * Hypot(sqrt, dx, dy)
  {
    var h := Hypot(sqrt, dx, dy);
    var g := Hypot(sqrt, t * dx, t * dy);
    HypotSquared(sqrt, dx, dy);
    HypotSquared(sqrt, t * dx, t * dy);
    assert g * g == (t * dx) * (t * dx) + (t * dy) * (t * dy);
    assert (t * h) * (t * h) == t * t * (h * h);
    assert (t * dx) * (t * dx) + (t * dy) * (t * dy) == t * t * (dx * dx + dy * dy);
    assert t * h >= 0.0;
    NonNegativeRootUnique(g, t * h);
  }

  /** The distance does not depend on the order of its arguments (whatever
      `sqrt` is). */
  lemma DistanceSymmetric(sqrt: SqrtFn, p: Coordinate, q: Coordinate)
    ensures Distance(sqrt, p, q) == Distance(sqrt, q, p)
  {
    var (dx, dy) := (p.0 - q.0, p.1 - q.1);
    assert dx * dx == (-dx) * (-dx);
    assert dy * dy == (-dy) * (-dy);
  }

  /** The distance between two points at the same height is the difference
      of their x coordinates, taken positive. */
  lemma DistanceHorizontal(sqrt: SqrtFn, p: Coordinate, q: Coordinate)
    requires IsSqrt(sqrt)
    requires p.1 == q.1
    ensures Distance(sqrt, p, q) == if p.0 >= q.0 then p.0 - q.0 else q.0 - p.0
  {
    DistanceSymmetric(sqrt, p, q);
    if p.0 >= q.0 {
      HypotAlongX(sqrt, p.0 - q.0);
    } else {
      HypotAlongX(sqrt, q.0 - p.0);
    }
  }

  /** The distance between two points on one vertical is the difference of
      their y coordinates, taken positive. */
  lemma DistanceVertical(sqrt: SqrtFn, p: Coordinate, q: Coordinate)
    requires IsSqrt(sqrt)
    requires p.0 == q.0
    ensures Distance(sqrt, p, q) == if p.1 >= q.1 then p.1 - q.1 else q.1 - p.1
  {
    DistanceSymmetric(sqrt, p, q);
    if p.1 >= q.1 {
      HypotAlongY(sqrt, p.1 - q.1);
    } else {
      HypotAlongY(sqrt, q.1 - p.1);
    }
  }

  /** The distance is zero exactly between a point and itself. */
  lemma DistanceZero(sqrt: SqrtFn, p: Coordinate, q: Coordinate)
    requires IsSqrt(sqrt)
    ensures Distance(sqrt, p, q) == 0.0 <==> p == q
  {
    if p == q {
      HypotAlongX(sqrt, 0.0);
    } else {
      HypotDominates(sqrt, p.0 - q.0, p.1 - q.1);
    }
  }

  /** A vector is at least as long as each of its components. */
  lemma HypotDominates(sqrt: SqrtFn, dx: real, dy: real)
    requires IsSqrt(sqrt)
    ensures Hypot(sqrt, dx, dy) >= dx && Hypot(sqrt, dx, dy) >= -dx
    ensures Hypot(sqrt, dx, dy) >= dy && Hypot(sqrt, dx, dy) >= -dy
  {
    var r := Hypot(sqrt, dx, dy);
    HypotSquared(sqrt, dx, dy);
    RootDominates(r, dx, dy);
    RootDominates(r, dy, dx);
  }

  /** A non-negative r with r^2 == v^2 + w^2 is at least |v|. */
  lemma RootDominates(r: real, v: real, w: real)
    requires r >= 0.0 && r * r == v * v + w * w
    ensures r >= v && r >= -v
  {
    SquareNonNegative(w);
    if r < v {
      assert (v - r) * (v + r) == v * v - r * r;
      MulPositive(v - r, v + r);
    }
    if r < -v {
      assert (-v - r) * (-v + r) == v * v - r * r;
      MulPositive(-v - r, -v + r);
    }
  }

  /** (a, b, c) with a*x + b*y + c == 0 for the line through p1 and p2
      (`getCoefficients`). */
  function GetCoefficients(p1: Coordinate, p2: Coordinate): (r: Coefficients)
    ensures OnLine(r, p1) && OnLine(r, p2)
    ensures (r.0 == 0.0 && r.1 == 0.0) <==> p1 == p2
    ensures forall p :: OnLine(r, p) <==> Collinear(p1, p2, p)
  {
    var (x1, y1) := p1;
    var (x2, y2) := p2;
    var a := y2 - y1;
    var b := x1 - x2;
    var c := (x2 - x1) * y1 - (y2 - y1) * x1;
    (a, b, c)
  }

  /** p satisfies the line equation l. */
  predicate OnLine(l: Coefficients, p: Coordinate) {
    l.0 * p.0 + l.1 * p.1 + l.2 == 0.0
  }

  /** Collinearity does not depend on the order of the two defining points. */
  lemma CollinearSwap(p: Coordinate, q: Coordinate, r: Coordinate)
    ensures Collinear(p, q, r) <==> Collinear(q, p, r)
  {
    assert (p.0 - q.0) * (r.1 - q.1) - (p.1 - q.1) * (r.0 - q.0)
        == -((q.0 - p.0) * (r.1 - p.1) - (q.1 - p.1) * (r.0 - p.0));
  }

  /** The y coordinate at x of the line through p1 and p2 (the first
      closure of `makeLine`); only defined for a non-vertical line. */
  function CalcY(p1: Coordinate, p2: Coordinate, x: real): (r: real)
    requires p2.0 != p1.0
    ensures forall y :: OnLine(GetCoefficients(p1, p2), (x, y)) <==> y == r
  {
    var (x1, y1) := p1;
    var (x2, y2) := p2;
    var r := ((x - x1) * (y2 - y1)) / (x2 - x1) + y1;
    assert (r - y1) * (x2 - x1) == (x - x1) * (y2 - y1);
    r
  }

  /** The x coordinate at y of the line through p1 and p2 (the second
      closure of `makeLine`); only defined for a non-horizontal line. */
  function CalcX(p1: Coordinate, p2: Coordinate, y: real): (r: real)
    requires p2.1 != p1.1
    ensures forall x :: OnLine(GetCoefficients(p1, p2), (x, y)) <==> x == r
  {
    var (x1, y1) := p1;
    var (x2, y2) := p2;
    var r := ((y - y1) * (x2 - x1)) / (y2 - y1) + x1;
    assert (r - x1) * (y2 - y1) == (y - y1) * (x2 - x1);
    r
  }

  /** (x, CalcY(p1, p2, x)) is on the line through p1 and p2. */
  lemma CalcYOnLine(p1: Coordinate, p2: Coordinate, x: real)
    requires p2.0 != p1.0
    ensures Collinear(p1, p2, (x, CalcY(p1, p2, x)))
  {
    assert OnLine(GetCoefficients(p1, p2), (x, CalcY(p1, p2, x)));
  }

  /** (CalcX(p1, p2, y), y) is on the line through p1 and p2. */
  lemma CalcXOnLine(p1: Coordinate, p2: Coordinate, y: real)
    requires p2.1 != p1.1
    ensures Collinear(p1, p2, (CalcX(p1, p2, y), y))
  {
    assert OnLine(GetCoefficients(p1, p2), (CalcX(p1, p2, y), y));
  }

  /** A horizontal line has the same height everywhere. */
  lemma CalcYHorizontal(p1: Coordinate, p2: Coordinate, x: real)
    requires p2.0 != p1.0 && p1.1 == p2.1
    ensures CalcY(p1, p2, x) == p1.1
  {
    var l := GetCoefficients(p1, p2);
    assert l.0 == 0.0;
    assert OnLine(l, (x, p1.1)) by {
      assert OnLine(l, p1);
    }
  }

  /** A vertical line has the same x everywhere. */
  lemma CalcXVertical(p1: Coordinate, p2: Coordinate, y: real)
    requires p2.1 != p1.1 && p1.0 == p2.0
    ensures CalcX(p1, p2, y) == p1.0
  {
    var l := GetCoefficients(p1, p2);
    assert l.1 == 0.0;
    assert OnLine(l, (p1.0, y)) by {
      assert OnLine(l, p1);
    }
  }

  /** The y-of-x evaluator does not depend on the order of its two points. */
  lemma CalcYSwap(p1: Coordinate, p2: Coordinate, x: real)
    requires p2.0 != p1.0
    ensures CalcY(p1, p2, x) == CalcY(p2, p1, x)
  {
    CalcYOnLine(p2, p1, x);
    CollinearSwap(p2, p1, (x, CalcY(p2, p1, x)));
    assert OnLine(GetCoefficients(p1, p2), (x, CalcY(p2, p1, x)));
  }

  /** The x-of-y evaluator does not depend on the order of its two points. */
  lemma CalcXSwap(p1: Coordinate, p2: Coordinate, y: real)
    requires p2.1 != p1.1
    ensures CalcX(p1, p2, y) == CalcX(p2, p1, y)
  {
    CalcXOnLine(p2, p1, y);
    CollinearSwap(p2, p1, (CalcX(p2, p1, y), y));
    assert OnLine(GetCoefficients(p1, p2), (CalcX(p2, p1, y), y));
  }

  /** Going (x - q.0) / (q.0 - p.0) times |pq| beyond q reaches the point of
      the line through p and q with x coordinate x. */
  lemma ExtendMeetsX(p: Coordinate, q: Coordinate, x: real)
    requires q.0 != p.0
    ensures Extend(p, q, (x - q.0) / (q.0 - p.0)).0 == x
    ensures Extend(p, q, (x - q.0) / (q.0 - p.0)).1 == CalcY(p, q, x)
  {
    var k := (x - q.0) / (q.0 - p.0);
    var e := Extend(p, q, k);
    assert (q.0 - p.0) * k == x - q.0;
    ExtendCollinear(p, q, k);
    assert OnLine(GetCoefficients(p, q), (x, e.1));
  }

  /** Going (y - q.1) / (q.1 - p.1) times |pq| beyond q reaches the point of
      the line through p and q with y coordinate y. */
  lemma ExtendMeetsY(p: Coordinate, q: Coordinate, y: real)
    requires q.1 != p.1
    ensures Extend(p, q, (y - q.1) / (q.1 - p.1)).1 == y
    ensures Extend(p, q, (y - q.1) / (q.1 - p.1)).0 == CalcX(p, q, y)
  {
    var k := (y - q.1) / (q.1 - p.1);
    var e := Extend(p, q, k);
    assert (q.1 - p.1) * k == y - q.1;
    ExtendCollinear(p, q, k);
    assert OnLine(GetCoefficients(p, q), (e.0, y));
  }

  /** The y-of-x evaluator passes through both points that define it. */
  lemma CalcYEndpoints(p1: Coordinate, p2: Coordinate)
    requires p2.0 != p1.0
    ensures CalcY(p1, p2, p1.0) == p1.1 && CalcY(p1, p2, p2.0) == p2.1
  {
    var l := GetCoefficients(p1, p2);
    assert OnLine(l, (p1.0, p1.1)) && OnLine(l, (p2.0, p2.1));
  }

  /** The x-of-y evaluator passes through both points that define it. */
  lemma CalcXEndpoints(p1: Coordinate, p2: Coordinate)
    requires p2.1 != p1.1
    ensures CalcX(p1, p2, p1.1) == p1.0 && CalcX(p1, p2, p2.1) == p2.0
  {
    var l := GetCoefficients(p1, p2);
    assert OnLine(l, (p1.0, p1.1)) && OnLine(l, (p2.0, p2.1));
  }

  /** a1*b2 - a2*b1 for the coefficients of the two lines: zero when they
      are parallel or one of them is not a line. */
  function Determinant(l1: Line, l2: Line): real {
    var (a1, b1, _) := GetCoefficients(l1.0, l1.1);
    var (a2, b2, _) := GetCoefficients(l2.0, l2.1);
    a1 * b2 - a2 * b1
  }

  /** The common point of two lines, by Cramer's rule
      (`calculateLineIntersection`): it lies on both lines. */
  function LineIntersection(l1: Line, l2: Line): (r: Coordinate)
    requires Determinant(l1, l2) != 0.0
    ensures OnLine(GetCoefficients(l1.0, l1.1), r) && OnLine(GetCoefficients(l2.0, l2.1), r)
  {
    var (a1, b1, c1) := GetCoefficients(l1.0, l1.1);
    var (a2, b2, c2) := GetCoefficients(l2.0, l2.1);
    var d := a1 * b2 - a2 * b1;
    var x := (b1 * c2 - b2 * c1) / d;
    var y := (a2 * c1 - a1 * c2) / d;
    CramerSolves(a1, b1, c1, a2, b2, c2, d, x, y);
    (x, y)
  }

  /** The algebra behind LineIntersection. */
  lemma CramerSolves(a1: real, b1: real, c1: real, a2: real, b2: real, c2: real, d: real, x: real, y: real)
    requires d == a1 * b2 - a2 * b1 && d != 0.0
    requires x * d == b1 * c2 - b2 * c1 && y * d == a2 * c1 - a1 * c2
    ensures a1 * x + b1 * y + c1 == 0.0 && a2 * x + b2 * y + c2 == 0.0
  {
    assert (a1 * x + b1 * y + c1) * d == a1 * (b1 * c2 - b2 * c1) + b1 * (a2 * c1 - a1 * c2) + c1 * d;
    assert (a2 * x + b2 * y + c2) * d == a2 * (b1 * c2 - b2 * c1) + b2 * (a2 * c1 - a1 * c2) + c2 * d;
  }

  /** Two lines with a non-zero determinant share only one point: every point
      on both of them is LineIntersection's. */
  lemma LineIntersectionUnique(l1: Line, l2: Line, p: Coordinate)
    requires Determinant(l1, l2) != 0.0
    requires OnLine(GetCoefficients(l1.0, l1.1), p) && OnLine(GetCoefficients(l2.0, l2.1), p)
    ensures p == LineIntersection(l1, l2)
  {
    var (a1, b1, c1) := GetCoefficients(l1.0, l1.1);
    var (a2, b2, c2) := GetCoefficients(l2.0, l2.1);
    var r := LineIntersection(l1, l2);
    CramerUnique(a1, b1, c1, a2, b2, c2, p.0, p.1);
    CramerUnique(a1, b1, c1, a2, b2, c2, r.0, r.1);
  }

  /** A solution of a*u + b*v + c == 0 for both lines is fixed by Cramer's rule. */
  lemma CramerUnique(a1: real, b1: real, c1: real, a2: real, b2: real, c2: real, u: real, v: real)
    requires a1 * b2 - a2 * b1 != 0.0
    requires a1 * u + b1 * v + c1 == 0.0 && a2 * u + b2 * v + c2 == 0.0
    ensures u == (b1 * c2 - b2 * c1) / (a1 * b2 - a2 * b1)
    ensures v == (a2 * c1 - a1 * c2) / (a1 * b2 - a2 * b1)
  {
    var d := a1 * b2 - a2 * b1;
    assert u * d == b1 * c2 - b2 * c1 by {
      assert u * d == b2 * (a1 * u + b1 * v) - b1 * (a2 * u + b2 * v);
    }
    assert v * d == a2 * c1 - a1 * c2 by {
      assert v * d == a1 * (a2 * u + b2 * v) - a2 * (a1 * u + b1 * v);
    }
  }

  /** A horizontal line (through h1, h2) and a vertical line (through v1, v2)
      that are not parallel meet at (v1.0, h1.1). */
  lemma MeetAxisLines(h1: Coordinate, h2: Coordinate, v1: Coordinate, v2: Coordinate)
    requires h1.1 == h2.1 && v1.0 == v2.0
    requires Determinant((h1, h2), (v1, v2)) != 0.0
    ensures LineIntersection((h1, h2), (v1, v2)) == (v1.0, h1.1)
  {
    var p := (v1.0, h1.1);
    assert OnLine(GetCoefficients(h1, h2), p);
    assert OnLine(GetCoefficients(v1, v2), p);
    LineIntersectionUnique((h1, h2), (v1, v2), p);
  }

  /** A horizontal line (through h1, h2) and a vertical line (through v1, v2)
      have a non-zero determinant and meet at (v1.0, h1.1). */
  lemma MeetHorizontalVertical(h1: Coordinate, h2: Coordinate, v1: Coordinate, v2: Coordinate)
    requires h1.1 == h2.1 && h1.0 != h2.0
    requires v1.0 == v2.0 && v1.1 != v2.1
    ensures Determinant((h1, h2), (v1, v2)) != 0.0
    ensures LineIntersection((h1, h2), (v1, v2)) == (v1.0, h1.1)
  {
    assert Determinant((h1, h2), (v1, v2)) == -((v2.1 - v1.1) * (h1.0 - h2.0));
    MeetAxisLines(h1, h2, v1, v2);
  }
}
