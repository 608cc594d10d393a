/** Closed forms of the correspondence solver on two families of inputs,
    and the two fixtures of src/lib/transform.ts as instances of them. */
module SolverCases {
  import opened Geometry
  import opened Transform

  /** The affine map of the real line that takes s0 to t0 and s1 to t1. */
  function AxisMap(s0: real, s1: real, t0: real, t1: real, z: real): real
    requires s0 != s1
  {
    t0 + (t1 - t0) * ((z - s0) / (s1 - s0))
  }

  /** AxisMap written from its first anchor in the direction s1 -> s0, as
      the solver computes it for a crossing beyond the first corner. */
  lemma AxisMapFromFirst(s0: real, s1: real, t0: real, t1: real, z: real)
    requires s0 != s1
    ensures t0 + (t0 - t1) * ((z - s0) / (s0 - s1)) == AxisMap(s0, s1, t0, t1, z)
  {
    assert (z - s0) / (s0 - s1) == -((z - s0) / (s1 - s0));
  }

  /** AxisMap written from its second anchor in the direction s0 -> s1, as
      the solver computes it for a crossing beyond the second corner. */
  lemma AxisMapFromSecond(s0: real, s1: real, t0: real, t1: real, z: real, k: real, v: real)
    requires s0 != s1 && k == (z - s1) / (s1 - s0)
    requires v == t1 + (t1 - t0) * k
    ensures v == AxisMap(s0, s1, t0, t1, z)
  {
    var n, m := s1 - s0, t1 - t0;
    var q := (z - s0) / n;
    assert q == k + 1.0 by {
      DivDifference(z - s0, n, n);
      assert (z - s0) - n == z - s1;
      assert n / n == 1.0;
    }
    calc {
      AxisMap(s0, s1, t0, t1, z);
      t0 + m * q;
      t0 + m * (k + 1.0);
      { assert m * (k + 1.0) == m * k + m; }
      t1 + m * k;
    }
  }

  /** a / d - b / d == (a - b) / d. */
  lemma DivDifference(a: real, b: real, d: real)
    requires d != 0.0
    ensures a / d - b / d == (a - b) / d
  {
  }

  /** How far X lies beyond s2 on a horizontal source edge, when it lies on
      the ray from s1 through s2. */
  lemma RatioHorizontal(sqrt: SqrtFn, s1: Coordinate, s2: Coordinate, x: real)
    requires IsSqrt(sqrt)
    requires s1.1 == s2.1
    requires (s1.0 < s2.0 <= x) || (x <= s2.0 < s1.0)
    ensures Distance(sqrt, s1, s2) != 0.0
    ensures Ratio(sqrt, s1, s2, (x, s2.1)) == (x - s2.0) / (s2.0 - s1.0)
  {
    DistanceHorizontal(sqrt, s1, s2);
    DistanceHorizontal(sqrt, (x, s2.1), s2);
    if x < s2.0 {
      assert (s2.0 - x) / (s1.0 - s2.0) == (x - s2.0) / (s2.0 - s1.0);
    }
  }

  /** How far Y lies beyond s2 on a vertical source edge, when it lies on
      the ray from s1 through s2. */
  lemma RatioVertical(sqrt: SqrtFn, s1: Coordinate, s2: Coordinate, y: real)
    requires IsSqrt(sqrt)
    requires s1.0 == s2.0
    requires (s1.1 < s2.1 <= y) || (y <= s2.1 < s1.1)
    ensures Distance(sqrt, s1, s2) != 0.0
    ensures Ratio(sqrt, s1, s2, (s2.0, y)) == (y - s2.1) / (s2.1 - s1.1)
  {
    DistanceVertical(sqrt, s1, s2);
    DistanceVertical(sqrt, (s2.0, y), s2);
    if y < s2.1 {
      assert (s2.1 - y) / (s1.1 - s2.1) == (y - s2.1) / (s2.1 - s1.1);
    }
  }

  /** Exchanging the two anchors does not change the affine map. */
  lemma AxisMapSwap(s0: real, s1: real, t0: real, t1: real, z: real)
    requires s0 != s1
    ensures AxisMap(s1, s0, t1, t0, z) == AxisMap(s0, s1, t0, t1, z)
  {
    AxisMapFromFirst(s0, s1, t0, t1, z);
  }

  /** The image of s3, once its ratio k along s1 s2 is known. */
  lemma ImageAtRatio(sqrt: SqrtFn, s1: Coordinate, d1: Coordinate, s2: Coordinate, d2: Coordinate, s3: Coordinate, k: real)
    requires Distance(sqrt, s1, s2) != 0.0 && Distance(sqrt, d1, d2) != 0.0
    requires Ratio(sqrt, s1, s2, s3) == k
    ensures IntersectionDest(sqrt, s1, d1, s2, d2, s3).0 == d2.0 + (d2.0 - d1.0) * k
    ensures IntersectionDest(sqrt, s1, d1, s2, d2, s3).1 == d2.1 + (d2.1 - d1.1) * k
  {
    var e := Extend(d1, d2, k);
    assert e.0 == d2.0 + (d2.0 - d1.0) * k && e.1 == d2.1 + (d2.1 - d1.1) * k;
    assert IntersectionDest(sqrt, s1, d1, s2, d2, s3).0 == e.0;
  }

  /** A zero difference scaled by anything stays zero. */
  lemma ZeroScaled(a: real, b: real, k: real)
    requires a == b
    ensures a + (a - b) * k == a
  {
  }

  /** Between horizontal edges, a crossing on the ray from s1 through s2 is
      carried by the affine map of the x axis that takes s1 to d1 and s2 to
      d2, and lands at the height of the destination edge. */
  lemma HorizontalCrossingImage(sqrt: SqrtFn, s1: Coordinate, d1: Coordinate, s2: Coordinate, d2: Coordinate, x: real)
    requires IsSqrt(sqrt)
    requires s1.1 == s2.1 && ((s1.0 < s2.0 <= x) || (x <= s2.0 < s1.0))
    requires d1.1 == d2.1 && d1 != d2
    ensures Distance(sqrt, s1, s2) != 0.0 && Distance(sqrt, d1, d2) != 0.0
    ensures IntersectionDest(sqrt, s1, d1, s2, d2, (x, s2.1)).0 == AxisMap(s1.0, s2.0, d1.0, d2.0, x)
    ensures IntersectionDest(sqrt, s1, d1, s2, d2, (x, s2.1)).1 == d2.1
  {
    var k := (x - s2.0) / (s2.0 - s1.0);
    RatioHorizontal(sqrt, s1, s2, x);
    DistanceZero(sqrt, d1, d2);
    ImageAtRatio(sqrt, s1, d1, s2, d2, (x, s2.1), k);
    ZeroScaled(d2.1, d1.1, k);
    AxisMapFromSecond(s1.0, s2.0, d1.0, d2.0, x, k, IntersectionDest(sqrt, s1, d1, s2, d2, (x, s2.1)).0);
  }

  /** Between vertical edges, a crossing on the ray from s1 through s2 is
      carried by the affine map of the y axis that takes s1 to d1 and s2 to
      d2, and lands on the destination edge's vertical. */
  lemma VerticalCrossingImage(sqrt: SqrtFn, s1: Coordinate, d1: Coordinate, s2: Coordinate, d2: Coordinate, y: real)
    requires IsSqrt(sqrt)
    requires s1.0 == s2.0 && ((s1.1 < s2.1 <= y) || (y <= s2.1 < s1.1))
    requires d1.0 == d2.0 && d1 != d2
    ensures Distance(sqrt, s1, s2) != 0.0 && Distance(sqrt, d1, d2) != 0.0
    ensures IntersectionDest(sqrt, s1, d1, s2, d2, (s2.0, y)).0 == d2.0
    ensures IntersectionDest(sqrt, s1, d1, s2, d2, (s2.0, y)).1 == AxisMap(s1.1, s2.1, d1.1, d2.1, y)
  {
    var k := (y - s2.1) / (s2.1 - s1.1);
    RatioVertical(sqrt, s1, s2, y);
    DistanceZero(sqrt, d1, d2);
    ImageAtRatio(sqrt, s1, d1, s2, d2, (s2.0, y), k);
    ZeroScaled(d2.0, d1.0, k);
    AxisMapFromSecond(s1.1, s2.1, d1.1, d2.1, y, k, IntersectionDest(sqrt, s1, d1, s2, d2, (s2.0, y)).1);
  }

  /** An axis-aligned rectangle in corner order A B C D, with sides of
      non-zero length: AB and DC horizontal, AD and BC vertical. */
  predicate Rectangle(p: Perspective) {
    p.0.1 == p.1.1 && p.3.1 == p.2.1 && p.0.0 == p.3.0 && p.1.0 == p.2.0 &&
    p.0.0 != p.1.0 && p.0.1 != p.3.1
  }

  /** A rectangle inside the unit square with A at its top left. */
  predicate Upright(p: Perspective) {
    Rectangle(p) && 0.0 <= p.0.0 < p.1.0 <= 1.0 && 0.0 <= p.0.1 < p.3.1 <= 1.0
  }

  /** For a rectangular source, the edges cross the border of the unit square
      at the rectangle's own coordinates. */
  lemma RectangleCrossings(s: Perspective)
    requires Rectangle(s)
    ensures EdgesCrossable(s)
    ensures EdgeCrossings(s) == Crossings(
      i1 := (s.0.0, 0.0), i2 := (s.1.0, 0.0), i3 := (1.0, s.0.1), i4 := (1.0, s.3.1),
      i5 := (s.1.0, 1.0), i6 := (s.0.0, 1.0), i7 := (0.0, s.3.1), i8 := (0.0, s.0.1))
  {
    var (sa, sb, sc, sd) := s;
    CalcYHorizontal(sa, sb, 0.0);
    CalcYHorizontal(sa, sb, 1.0);
    CalcYHorizontal(sc, sd, 0.0);
    CalcYHorizontal(sc, sd, 1.0);
    CalcXVertical(sa, sd, 0.0);
    CalcXVertical(sa, sd, 1.0);
    CalcXVertical(sb, sc, 0.0);
    CalcXVertical(sb, sc, 1.0);
  }

  /** Rectangles have sides of non-zero length. */
  lemma RectangleMeasurable(sqrt: SqrtFn, s: Perspective, d: Perspective)
    requires IsSqrt(sqrt)
    requires Rectangle(s) && Rectangle(d)
    ensures EdgesMeasurable(sqrt, s, d)
  {
    DistanceZero(sqrt, s.0, s.1);
    DistanceZero(sqrt, d.0, d.1);
    DistanceZero(sqrt, s.2, s.3);
    DistanceZero(sqrt, d.2, d.3);
    DistanceZero(sqrt, s.0, s.3);
    DistanceZero(sqrt, d.0, d.3);
    DistanceZero(sqrt, s.1, s.2);
    DistanceZero(sqrt, d.1, d.2);
  }

  /** Where the affine map taking the source rectangle's x range onto the
      destination's sends x = 0 and x = 1. */
  function Left(s: Perspective, d: Perspective): real
    requires Rectangle(s)
  {
    AxisMap(s.0.0, s.1.0, d.0.0, d.1.0, 0.0)
  }

  function Right(s: Perspective, d: Perspective): real
    requires Rectangle(s)
  {
    AxisMap(s.0.0, s.1.0, d.0.0, d.1.0, 1.0)
  }

  /** Where the affine map taking the source rectangle's y range onto the
      destination's sends y = 0 and y = 1. */
  function Top(s: Perspective, d: Perspective): real
    requires Rectangle(s)
  {
    AxisMap(s.0.1, s.3.1, d.0.1, d.3.1, 0.0)
  }

  function Bottom(s: Perspective, d: Perspective): real
    requires Rectangle(s)
  {
    AxisMap(s.0.1, s.3.1, d.0.1, d.3.1, 1.0)
  }

  /** Images of the crossings on x = 0 and x = 1 between rectangles. */
  lemma RectangleSideImages(sqrt: SqrtFn, s: Perspective, d: Perspective)
    requires IsSqrt(sqrt)
    requires Upright(s) && Rectangle(d)
    requires EdgesMeasurable(sqrt, s, d)
    ensures var e := DestCrossings(sqrt, s, d, EdgeCrossings(s));
      e.i8.0 == Left(s, d) && e.i8.1 == d.0.1 && e.i3.0 == Right(s, d) && e.i3.1 == d.0.1 &&
      e.i7.0 == Left(s, d) && e.i7.1 == d.3.1 && e.i4.0 == Right(s, d) && e.i4.1 == d.3.1
  {
    var (sa, sb, sc, sd) := s;
    var (da, db, dc, dd) := d;
    RectangleCrossings(s);
    HorizontalCrossingImage(sqrt, sb, db, sa, da, 0.0);
    HorizontalCrossingImage(sqrt, sa, da, sb, db, 1.0);
    HorizontalCrossingImage(sqrt, sc, dc, sd, dd, 0.0);
    HorizontalCrossingImage(sqrt, sd, dd, sc, dc, 1.0);
    AxisMapSwap(sa.0, sb.0, da.0, db.0, 0.0);
    AxisMapSwap(sd.0, sc.0, dd.0, dc.0, 0.0);
  }

  /** Images of the crossings on y = 0 and y = 1 between rectangles. */
  lemma RectangleTopBottomImages(sqrt: SqrtFn, s: Perspective, d: Perspective)
    requires IsSqrt(sqrt)
    requires Upright(s) && Rectangle(d)
    requires EdgesMeasurable(sqrt, s, d)
    ensures var e := DestCrossings(sqrt, s, d, EdgeCrossings(s));
      e.i1.0 == d.0.0 && e.i1.1 == Top(s, d) && e.i2.0 == d.1.0 && e.i2.1 == Top(s, d) &&
      e.i5.0 == d.1.0 && e.i5.1 == Bottom(s, d) && e.i6.0 == d.0.0 && e.i6.1 == Bottom(s, d)
  {
    var (sa, sb, sc, sd) := s;
    var (da, db, dc, dd) := d;
    RectangleCrossings(s);
    VerticalCrossingImage(sqrt, sd, dd, sa, da, 0.0);
    VerticalCrossingImage(sqrt, sa, da, sd, dd, 1.0);
    VerticalCrossingImage(sqrt, sc, dc, sb, db, 0.0);
    VerticalCrossingImage(sqrt, sb, db, sc, dc, 1.0);
    AxisMapSwap(sa.1, sd.1, da.1, dd.1, 0.0);
    AxisMapSwap(sb.1, sc.1, db.1, dc.1, 0.0);
  }

  /** Between an upright source rectangle and any destination rectangle the
      solver never divides by zero, and it returns the unit square carried by
      the per-axis affine map that takes the source rectangle onto the
      destination rectangle: the exact answer for a scale-and-shift. */
  lemma RectangleTransform(sqrt: SqrtFn, s: Perspective, d: Perspective)
    requires IsSqrt(sqrt)
    requires Upright(s) && Rectangle(d)
    ensures Solvable(sqrt, s, d)
    ensures CalculateTransform(sqrt, s, d)
         == ((Left(s, d), Top(s, d)), (Right(s, d), Top(s, d)),
             (Right(s, d), Bottom(s, d)), (Left(s, d), Bottom(s, d)))
  {
    RectangleCrossings(s);
    RectangleMeasurable(sqrt, s, d);
    RectangleSideImages(sqrt, s, d);
    RectangleTopBottomImages(sqrt, s, d);
    var e := DestCrossings(sqrt, s, d, EdgeCrossings(s));
    MeetHorizontalVertical(e.i1, e.i2, e.i7, e.i8);
    MeetHorizontalVertical(e.i1, e.i2, e.i3, e.i4);
    MeetHorizontalVertical(e.i5, e.i6, e.i3, e.i4);
    MeetHorizontalVertical(e.i5, e.i6, e.i7, e.i8);
  }

  /** The source square of both fixtures. */
  const FixtureSource: Perspective := ((0.1, 0.1), (0.9, 0.1), (0.9, 0.9), (0.1, 0.9))

  /** `testSameSourceAndDest`: carrying the fixture square onto itself
      gives exactly the corners of the unit square. */
  lemma TestSameSourceAndDest(sqrt: SqrtFn)
    requires IsSqrt(sqrt)
    ensures Solvable(sqrt, FixtureSource, FixtureSource)
    ensures CalculateTransform(sqrt, FixtureSource, FixtureSource)
         == ((0.0, 0.0), (1.0, 0.0), (1.0, 1.0), (0.0, 1.0))
  {
    RectangleTransform(sqrt, FixtureSource, FixtureSource);
  }

  /** `testSimpleScaling`: carrying the fixture square onto the square
      (0.3, 0.3) .. (0.7, 0.7) gives (0.25, 0.25) .. (0.75, 0.75). */
  lemma TestSimpleScaling(sqrt: SqrtFn)
    requires IsSqrt(sqrt)
    ensures Solvable(sqrt, FixtureSource, ((0.3, 0.3), (0.7, 0.3), (0.7, 0.7), (0.3, 0.7)))
    ensures CalculateTransform(sqrt, FixtureSource, ((0.3, 0.3), (0.7, 0.3), (0.7, 0.7), (0.3, 0.7)))
         == ((0.25, 0.25), (0.75, 0.25), (0.75, 0.75), (0.25, 0.75))
  {
    RectangleTransform(sqrt, FixtureSource, ((0.3, 0.3), (0.7, 0.3), (0.7, 0.7), (0.3, 0.7)));
  }

  /** A quotient of two numbers of the same sign is non-negative. */
  lemma QuotientNonNegative(a: real, b: real)
    requires (a >= 0.0 && b > 0.0) || (a <= 0.0 && b < 0.0)
    ensures a / b >= 0.0
  {
    if a <= 0.0 && b < 0.0 {
      assert a / b == (-a) / (-b);
    }
  }

  /** When s1 and s2 map to themselves, the crossing of their line with a
      vertical x, on the ray from s1 through s2, maps to itself. */
  lemma FixedCrossingX(sqrt: SqrtFn, s1: Coordinate, s2: Coordinate, x: real)
    requires IsSqrt(sqrt)
    requires (s1.0 < s2.0 <= x) || (x <= s2.0 < s1.0)
    ensures Distance(sqrt, s1, s2) != 0.0
    ensures IntersectionDest(sqrt, s1, s1, s2, s2, (x, CalcY(s1, s2, x))) == (x, CalcY(s1, s2, x))
  {
    var t := (x - s2.0) / (s2.0 - s1.0);
    QuotientNonNegative(x - s2.0, s2.0 - s1.0);
    ExtendMeetsX(s1, s2, x);
    CoordinateEq(Extend(s1, s2, t), (x, CalcY(s1, s2, x)));
    IntersectionDestFixesRay(sqrt, s1, s2, t);
  }

  /** When s1 and s2 map to themselves, the crossing of their line with a
      horizontal y, on the ray from s1 through s2, maps to itself. */
  lemma FixedCrossingY(sqrt: SqrtFn, s1: Coordinate, s2: Coordinate, y: real)
    requires IsSqrt(sqrt)
    requires (s1.1 < s2.1 <= y) || (y <= s2.1 < s1.1)
    ensures Distance(sqrt, s1, s2) != 0.0
    ensures IntersectionDest(sqrt, s1, s1, s2, s2, (CalcX(s1, s2, y), y)) == (CalcX(s1, s2, y), y)
  {
    var t := (y - s2.1) / (s2.1 - s1.1);
    QuotientNonNegative(y - s2.1, s2.1 - s1.1);
    ExtendMeetsY(s1, s2, y);
    CoordinateEq(Extend(s1, s2, t), (CalcX(s1, s2, y), y));
    IntersectionDestFixesRay(sqrt, s1, s2, t);
  }

  /** A quadrilateral inside the unit square laid out as the corner labels
      say: A left of B and D left of C, A above D and B above C. */
  predicate InOrder(q: Perspective) {
    0.0 <= q.0.0 < q.1.0 <= 1.0 && 0.0 <= q.3.0 < q.2.0 <= 1.0 &&
    0.0 <= q.0.1 < q.3.1 <= 1.0 && 0.0 <= q.1.1 < q.2.1 <= 1.0
  }

  /** The edges of an in-order quadrilateral can be extended to the border
      and have non-zero length. */
  lemma InOrderMeasurable(sqrt: SqrtFn, q: Perspective)
    requires IsSqrt(sqrt)
    requires InOrder(q)
    ensures EdgesCrossable(q)
    ensures EdgesMeasurable(sqrt, q, q)
  {
    DistanceZero(sqrt, q.0, q.1);
    DistanceZero(sqrt, q.2, q.3);
    DistanceZero(sqrt, q.0, q.3);
    DistanceZero(sqrt, q.1, q.2);
  }

  /** Carrying an in-order quadrilateral onto itself leaves the crossings on
      x = 0 and x = 1 where they are. */
  lemma IdentitySideCrossings(sqrt: SqrtFn, q: Perspective)
    requires IsSqrt(sqrt)
    requires InOrder(q)
    requires EdgesMeasurable(sqrt, q, q)
    ensures var e := DestCrossings(sqrt, q, q, EdgeCrossings(q));
      var i := EdgeCrossings(q);
      e.i8 == i.i8 && e.i3 == i.i3 && e.i7 == i.i7 && e.i4 == i.i4
  {
    var (sa, sb, sc, sd) := q;
    FixedCrossingX(sqrt, sb, sa, 0.0);
    CalcYSwap(sa, sb, 0.0);
    FixedCrossingX(sqrt, sa, sb, 1.0);
    FixedCrossingX(sqrt, sc, sd, 0.0);
    FixedCrossingX(sqrt, sd, sc, 1.0);
    CalcYSwap(sc, sd, 1.0);
  }

  /** Carrying an in-order quadrilateral onto itself leaves the crossings on
      y = 0 and y = 1 where they are. */
  lemma IdentityTopBottomCrossings(sqrt: SqrtFn, q: Perspective)
    requires IsSqrt(sqrt)
    requires InOrder(q)
    requires EdgesMeasurable(sqrt, q, q)
    ensures var e := DestCrossings(sqrt, q, q, EdgeCrossings(q));
      var i := EdgeCrossings(q);
      e.i1 == i.i1 && e.i6 == i.i6 && e.i2 == i.i2 && e.i5 == i.i5
  {
    var (sa, sb, sc, sd) := q;
    FixedCrossingY(sqrt, sd, sa, 0.0);
    CalcXSwap(sa, sd, 0.0);
    FixedCrossingY(sqrt, sa, sd, 1.0);
    FixedCrossingY(sqrt, sc, sb, 0.0);
    CalcXSwap(sb, sc, 0.0);
    FixedCrossingY(sqrt, sb, sc, 1.0);
  }

  /** The border lines x = 0, x = 1, y = 0 and y = 1 carried by the crossings
      of any quadrilateral meet at the corners of the unit square. */
  lemma BorderCorners(q: Perspective)
    requires EdgesCrossable(q)
    requires CornersDefined(EdgeCrossings(q))
    ensures ProjectedCorners(EdgeCrossings(q)) == ((0.0, 0.0), (1.0, 0.0), (1.0, 1.0), (0.0, 1.0))
  {
    var e := EdgeCrossings(q);
    MeetAxisLines(e.i1, e.i2, e.i7, e.i8);
    MeetAxisLines(e.i1, e.i2, e.i3, e.i4);
    MeetAxisLines(e.i5, e.i6, e.i3, e.i4);
    MeetAxisLines(e.i5, e.i6, e.i7, e.i8);
  }

  /** Carrying an in-order quadrilateral onto itself returns exactly the
      corners of the unit square, whenever the four corner lines are not
      parallel: the solver reproduces the identity. */
  lemma IdentityTransform(sqrt: SqrtFn, q: Perspective)
    requires IsSqrt(sqrt)
    requires InOrder(q)
    requires CornersDefined(EdgeCrossings(q))
    ensures Solvable(sqrt, q, q)
    ensures CalculateTransform(sqrt, q, q) == ((0.0, 0.0), (1.0, 0.0), (1.0, 1.0), (0.0, 1.0))
  {
    InOrderMeasurable(sqrt, q);
    IdentitySideCrossings(sqrt, q);
    IdentityTopBottomCrossings(sqrt, q);
    assert DestCrossings(sqrt, q, q, EdgeCrossings(q)) == EdgeCrossings(q);
    BorderCorners(q);
  }

  /** AxisMap is affine: it interpolates linearly between its values at 0
      and 1. */
  lemma AxisMapAffine(s0: real, s1: real, t0: real, t1: real, z: real)
    requires s0 != s1
    ensures AxisMap(s0, s1, t0, t1, z)
         == AxisMap(s0, s1, t0, t1, 0.0) + z * (AxisMap(s0, s1, t0, t1, 1.0) - AxisMap(s0, s1, t0, t1, 0.0))
  {
    var n := s1 - s0;
    DivDifference(1.0 - s0, 0.0 - s0, n);
    DivDifference(z - s0, 0.0 - s0, n);
    assert (1.0 - s0) - (0.0 - s0) == 1.0;
    assert (z - s0) - (0.0 - s0) == z;
    assert z * (1.0 / n) == z / n;
  }

  /** End to end for rectangles: a point remapped through the solved
      transform lands where the scale-and-shift taking the source rectangle
      onto the destination rectangle sends it. */
  lemma RectanglePoint(sqrt: SqrtFn, s: Perspective, d: Perspective, p: Coordinate)
    requires IsSqrt(sqrt)
    requires Upright(s) && Rectangle(d)
    ensures Solvable(sqrt, s, d)
    ensures ApplyTransformToPoint(p, CalculateTransform(sqrt, s, d)).0 == AxisMap(s.0.0, s.1.0, d.0.0, d.1.0, p.0)
    ensures ApplyTransformToPoint(p, CalculateTransform(sqrt, s, d)).1 == AxisMap(s.0.1, s.3.1, d.0.1, d.3.1, p.1)
  {
    RectangleTransform(sqrt, s, d);
    RectangleImage(s, d, p, CalculateTransform(sqrt, s, d));
  }

  /** The remapping step of RectanglePoint, for any corner set of the
      solved shape. */
  lemma RectangleImage(s: Perspective, d: Perspective, p: Coordinate, t: Perspective)
    requires Rectangle(s)
    requires t == ((Left(s, d), Top(s, d)), (Right(s, d), Top(s, d)),
                   (Right(s, d), Bottom(s, d)), (Left(s, d), Bottom(s, d)))
    ensures ApplyTransformToPoint(p, t).0 == AxisMap(s.0.0, s.1.0, d.0.0, d.1.0, p.0)
    ensures ApplyTransformToPoint(p, t).1 == AxisMap(s.0.1, s.3.1, d.0.1, d.3.1, p.1)
  {
    AxisAlignedImage(p, t, Left(s, d), Right(s, d), Top(s, d), Bottom(s, d));
    AxisMapAffine(s.0.0, s.1.0, d.0.0, d.1.0, p.0);
    AxisMapAffine(s.0.1, s.3.1, d.0.1, d.3.1, p.1);
  }

  /** Remapping through an axis-aligned corner set scales and shifts each
      coordinate on its own. */
  lemma AxisAlignedImage(p: Coordinate, t: Perspective, l: real, r: real, top: real, bottom: real)
    requires t == ((l, top), (r, top), (r, bottom), (l, bottom))
    ensures ApplyTransformToPoint(p, t).0 == l + p.0 * (r - l)
    ensures ApplyTransformToPoint(p, t).1 == top + p.1 * (bottom - top)
  {
    ApplyParallelogram(p, t);
  }

  /** End to end for the identity: a pose remapped through the transform
      solved from an in-order quadrilateral onto itself is unchanged. */
  lemma IdentityPose<Rest>(sqrt: SqrtFn, q: Perspective, pose: seq<Landmark<Rest>>)
    requires IsSqrt(sqrt)
    requires InOrder(q)
    requires CornersDefined(EdgeCrossings(q))
    ensures Solvable(sqrt, q, q)
    ensures ApplyTransformToPose(pose, CalculateTransform(sqrt, q, q)) == pose
  {
    IdentityTransform(sqrt, q);
    PoseUnitSquare(pose);
  }

  /** An in-order quadrilateral, no three of whose corners are collinear, on
      which the identity fails: lines AB and DC both meet x = 0 at (0, 0.5). */
  const Trapezoid: Perspective := ((0.2, 0.4), (0.8, 0.1), (0.8, 0.9), (0.2, 0.6))

  /** On Trapezoid the crossings i8 and i7 coincide, so the left image line
      has no direction and the corners on it are not defined: the source
      divides 0 by 0 there. */
  lemma TrapezoidUndefined()
    ensures InOrder(Trapezoid) && EdgesCrossable(Trapezoid)
    ensures EdgeCrossings(Trapezoid).i8 == EdgeCrossings(Trapezoid).i7 == (0.0, 0.5)
    ensures GetCoefficients(EdgeCrossings(Trapezoid).i7, EdgeCrossings(Trapezoid).i8) == (0.0, 0.0, 0.0)
    ensures !CornersDefined(EdgeCrossings(Trapezoid))
  {
  }
}
