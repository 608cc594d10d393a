/** The correspondence solver, the point remapper and the pose remapper of
    src/lib/transform.ts.

    Corner labels follow the diagram in the solver: A top-left, B top-right,
    C bottom-right, D bottom-left; a Perspective holds them as (A, B, C, D).
    The solver extends each source edge to the border of the unit square
    (eight crossings i1..i8), carries each crossing into destination space by
    its distance ratio along the edge, and intersects the four destination
    lines through those images: the result is where the corners of the unit
    square land. */
module Transform {
  import opened Geometry

  /** dist(s3, s2) / dist(s1, s2): how far s3 lies beyond s2, in units of
      the segment s1 s2. */
  function Ratio(sqrt: SqrtFn, s1: Coordinate, s2: Coordinate, s3: Coordinate): real
    requires Distance(sqrt, s1, s2) != 0.0
  {
    Distance(sqrt, s3, s2) / Distance(sqrt, s1, s2)
  }

  /** Given s1 -> d1 and s2 -> d2, the image of a point s3 beyond s2 on the
      source line (`calculateIntersectionDest`). The destination length
      dist(d1, d2) cancels: the image is d2 pushed along d1 -> d2 by
      Ratio(s1, s2, s3), in each coordinate. */
  function IntersectionDest(sqrt: SqrtFn, s1: Coordinate, d1: Coordinate, s2: Coordinate, d2: Coordinate, s3: Coordinate): (r: Coordinate)
    requires Distance(sqrt, s1, s2) != 0.0 && Distance(sqrt, d1, d2) != 0.0
    ensures r.0 == Extend(d1, d2, Ratio(sqrt, s1, s2, s3)).0
    ensures r.1 == Extend(d1, d2, Ratio(sqrt, s1, s2, s3)).1
  {
    var distS1S2 := Distance(sqrt, s1, s2);
    var distD1D2 := Distance(sqrt, d1, d2);
    var distS3S2 := Distance(sqrt, s3, s2);
    (Advance(d2.0, d2.0 - d1.0, distD1D2, distS1S2, distS3S2),
     Advance(d2.1, d2.1 - d1.1, distD1D2, distS1S2, distS3S2))
  }

  /** One coordinate of `calculateIntersectionDest`: from `base`, go
      distS3S2 * (distD1D2 / distS1S2) along the unit direction
      delta / distD1D2. The destination length distD1D2 cancels. */
  function Advance(base: real, delta: real, distD1D2: real, distS1S2: real, distS3S2: real): (r: real)
    requires distD1D2 != 0.0 && distS1S2 != 0.0
    ensures r == base + delta * (distS3S2 / distS1S2)
  {
    var scalingFactor := distD1D2 / distS1S2;
    var direction := delta / distD1D2;
    var distD3D2 := scalingFactor * distS3S2;
    base + direction * distD3D2
  }

  /** The image of s3 is Extend(d1, d2, Ratio(s1, s2, s3)) and so lies on the
      destination line through d1 and d2. */
  lemma IntersectionDestOnDestLine(sqrt: SqrtFn, s1: Coordinate, d1: Coordinate, s2: Coordinate, d2: Coordinate, s3: Coordinate)
    requires Distance(sqrt, s1, s2) != 0.0 && Distance(sqrt, d1, d2) != 0.0
    ensures IntersectionDest(sqrt, s1, d1, s2, d2, s3) == Extend(d1, d2, Ratio(sqrt, s1, s2, s3))
    ensures Collinear(d1, d2, IntersectionDest(sqrt, s1, d1, s2, d2, s3))
  {
    CoordinateEq(IntersectionDest(sqrt, s1, d1, s2, d2, s3), Extend(d1, d2, Ratio(sqrt, s1, s2, s3)));
    ExtendCollinear(d1, d2, Ratio(sqrt, s1, s2, s3));
  }

  /** When each of s1, s2 maps to itself, a point on the ray from s1 through
      s2, at or beyond s2, maps to itself: the intent stated in the comment of
      `calculateIntersectionDest`. */
  lemma IntersectionDestFixesRay(sqrt: SqrtFn, s1: Coordinate, s2: Coordinate, t: real)
    requires IsSqrt(sqrt)
    requires s1 != s2 && t >= 0.0
    ensures Distance(sqrt, s1, s2) != 0.0
    ensures IntersectionDest(sqrt, s1, s1, s2, s2, Extend(s1, s2, t)) == Extend(s1, s2, t)
  {
    DistanceZero(sqrt, s1, s2);
    RatioAlongRay(sqrt, s1, s2, t);
    IntersectionDestOnDestLine(sqrt, s1, s1, s2, s2, Extend(s1, s2, t));
  }

  /** The point t * |s1 s2| beyond s2 lies at ratio t. */
  lemma RatioAlongRay(sqrt: SqrtFn, s1: Coordinate, s2: Coordinate, t: real)
    requires IsSqrt(sqrt)
    requires Distance(sqrt, s1, s2) != 0.0 && t >= 0.0
    ensures Ratio(sqrt, s1, s2, Extend(s1, s2, t)) == t
  {
    DistanceAlongRay(sqrt, s1, s2, t);
    QuotientOfMultiple(Distance(sqrt, Extend(s1, s2, t), s2), Distance(sqrt, s1, s2), t);
  }

  /** a / n == t when a == t * n and n != 0. */
  lemma QuotientOfMultiple(a: real, n: real, t: real)
    requires n != 0.0 && a == t * n
    ensures a / n == t
  {
  }

  /** The point t * |s1 s2| beyond s2 is at distance t * |s1 s2| from s2. */
  lemma DistanceAlongRay(sqrt: SqrtFn, s1: Coordinate, s2: Coordinate, t: real)
    requires IsSqrt(sqrt)
    requires t >= 0.0
    ensures Distance(sqrt, Extend(s1, s2, t), s2) == t * Distance(sqrt, s1, s2)
  {
    var s3 := Extend(s1, s2, t);
    var (dx, dy) := (s2.0 - s1.0, s2.1 - s1.1);
    assert s3.0 - s2.0 == t * dx && s3.1 - s2.1 == t * dy;
    HypotScale(sqrt, t, dx, dy);
    DistanceSymmetric(sqrt, s1, s2);
  }

  /** The eight points where the extended source edges cross the border of
      the unit square, labelled as in the solver's diagram:
        c1 i1 i2 c2
        i8 A  B  i3
        i7 D  C  i4
        c4 i6 i5 c3
      The same labels are used for their images in destination space. */
  datatype Crossings = Crossings(
    i1: Coordinate, i2: Coordinate, i3: Coordinate, i4: Coordinate,
    i5: Coordinate, i6: Coordinate, i7: Coordinate, i8: Coordinate)

  /** AB and DC are not vertical and AD and BC are not horizontal, so that
      each edge line meets the border lines it is evaluated on. */
  predicate EdgesCrossable(s: Perspective) {
    s.0.0 != s.1.0 && s.2.0 != s.3.0 && s.0.1 != s.3.1 && s.1.1 != s.2.1
  }

  /** Step 1 of `calculateTransform`: line AB at x = 0 and x = 1 (i8, i3),
      line CD at x = 0 and x = 1 (i7, i4), line AD at y = 0 and y = 1 (i1, i6)
      and line BC at y = 0 and y = 1 (i2, i5). */
  function EdgeCrossings(s: Perspective): (r: Crossings)
    requires EdgesCrossable(s)
    ensures r.i8.0 == 0.0 && r.i3.0 == 1.0 && Collinear(s.0, s.1, r.i8) && Collinear(s.0, s.1, r.i3)
    ensures r.i7.0 == 0.0 && r.i4.0 == 1.0 && Collinear(s.2, s.3, r.i7) && Collinear(s.2, s.3, r.i4)
    ensures r.i1.1 == 0.0 && r.i6.1 == 1.0 && Collinear(s.0, s.3, r.i1) && Collinear(s.0, s.3, r.i6)
    ensures r.i2.1 == 0.0 && r.i5.1 == 1.0 && Collinear(s.1, s.2, r.i2) && Collinear(s.1, s.2, r.i5)
  {
    var (sa, sb, sc, sd) := s;
    CalcYOnLine(sa, sb, 0.0);
    CalcYOnLine(sa, sb, 1.0);
    CalcYOnLine(sc, sd, 0.0);
    CalcYOnLine(sc, sd, 1.0);
    CalcXOnLine(sa, sd, 0.0);
    CalcXOnLine(sa, sd, 1.0);
    CalcXOnLine(sb, sc, 0.0);
    CalcXOnLine(sb, sc, 1.0);
    Crossings(
      i1 := (CalcX(sa, sd, 0.0), 0.0), i2 := (CalcX(sb, sc, 0.0), 0.0),
      i3 := (1.0, CalcY(sa, sb, 1.0)), i4 := (1.0, CalcY(sc, sd, 1.0)),
      i5 := (CalcX(sb, sc, 1.0), 1.0), i6 := (CalcX(sa, sd, 1.0), 1.0),
      i7 := (0.0, CalcY(sc, sd, 0.0)), i8 := (0.0, CalcY(sa, sb, 0.0)))
  }

  /** Every source edge and every destination edge has non-zero length, so
      that `calculateIntersectionDest` never divides by zero. */
  predicate EdgesMeasurable(sqrt: SqrtFn, s: Perspective, d: Perspective) {
    Distance(sqrt, s.0, s.1) != 0.0 && Distance(sqrt, d.0, d.1) != 0.0 &&
    Distance(sqrt, s.2, s.3) != 0.0 && Distance(sqrt, d.2, d.3) != 0.0 &&
    Distance(sqrt, s.0, s.3) != 0.0 && Distance(sqrt, d.0, d.3) != 0.0 &&
    Distance(sqrt, s.1, s.2) != 0.0 && Distance(sqrt, d.1, d.2) != 0.0
  }

  /** Step 2 of `calculateTransform`: each crossing is carried to
      destination space along its edge, measured from the corner it lies
      beyond (i8 from A along B -> A, i3 from B along A -> B, and so on), as
      far beyond the destination corner, relative to the destination edge, as
      the crossing lies beyond the source corner relative to the source edge
      (DestCrossingsSides, DestCrossingsTopBottom). Every image lies on the
      corresponding destination edge line. */
  function DestCrossings(sqrt: SqrtFn, s: Perspective, d: Perspective, i: Crossings): (r: Crossings)
    requires EdgesMeasurable(sqrt, s, d)
    ensures Collinear(d.1, d.0, r.i8) && Collinear(d.0, d.1, r.i3)
    ensures Collinear(d.2, d.3, r.i7) && Collinear(d.3, d.2, r.i4)
    ensures Collinear(d.3, d.0, r.i1) && Collinear(d.0, d.3, r.i6)
    ensures Collinear(d.2, d.1, r.i2) && Collinear(d.1, d.2, r.i5)
  {
    var (sa, sb, sc, sd) := s;
    var (da, db, dc, dd) := d;
    DistanceSymmetric(sqrt, sa, sb);
    DistanceSymmetric(sqrt, da, db);
    DistanceSymmetric(sqrt, sc, sd);
    DistanceSymmetric(sqrt, dc, dd);
    DistanceSymmetric(sqrt, sa, sd);
    DistanceSymmetric(sqrt, da, dd);
    DistanceSymmetric(sqrt, sb, sc);
    DistanceSymmetric(sqrt, db, dc);
    IntersectionDestOnDestLine(sqrt, sb, db, sa, da, i.i8);
    IntersectionDestOnDestLine(sqrt, sa, da, sb, db, i.i3);
    IntersectionDestOnDestLine(sqrt, sc, dc, sd, dd, i.i7);
    IntersectionDestOnDestLine(sqrt, sd, dd, sc, dc, i.i4);
    IntersectionDestOnDestLine(sqrt, sd, dd, sa, da, i.i1);
    IntersectionDestOnDestLine(sqrt, sa, da, sd, dd, i.i6);
    IntersectionDestOnDestLine(sqrt, sc, dc, sb, db, i.i2);
    IntersectionDestOnDestLine(sqrt, sb, db, sc, dc, i.i5);
    Crossings(
      i1 := IntersectionDest(sqrt, sd, dd, sa, da, i.i1),
      i2 := IntersectionDest(sqrt, sc, dc, sb, db, i.i2),
      i3 := IntersectionDest(sqrt, sa, da, sb, db, i.i3),
      i4 := IntersectionDest(sqrt, sd, dd, sc, dc, i.i4),
      i5 := IntersectionDest(sqrt, sb, db, sc, dc, i.i5),
      i6 := IntersectionDest(sqrt, sa, da, sd, dd, i.i6),
      i7 := IntersectionDest(sqrt, sc, dc, sd, dd, i.i7),
      i8 := IntersectionDest(sqrt, sb, db, sa, da, i.i8))
  }

  /** The images of the crossings on the vertical unit-square sides: i8 is
      extrapolated from A along B -> A, i3 from B along A -> B, i7 from D along
      C -> D and i4 from C along D -> C, each by its own source ratio. */
  lemma DestCrossingsSides(sqrt: SqrtFn, s: Perspective, d: Perspective, i: Crossings)
    requires EdgesMeasurable(sqrt, s, d)
    ensures Distance(sqrt, s.1, s.0) != 0.0 && Distance(sqrt, s.3, s.2) != 0.0
    ensures var r := DestCrossings(sqrt, s, d, i);
      r.i8 == Extend(d.1, d.0, Ratio(sqrt, s.1, s.0, i.i8)) &&
      r.i3 == Extend(d.0, d.1, Ratio(sqrt, s.0, s.1, i.i3)) &&
      r.i7 == Extend(d.2, d.3, Ratio(sqrt, s.2, s.3, i.i7)) &&
      r.i4 == Extend(d.3, d.2, Ratio(sqrt, s.3, s.2, i.i4))
  {
    DistanceSymmetric(sqrt, s.0, s.1);
    DistanceSymmetric(sqrt, d.0, d.1);
    DistanceSymmetric(sqrt, s.2, s.3);
    DistanceSymmetric(sqrt, d.2, d.3);
    IntersectionDestOnDestLine(sqrt, s.1, d.1, s.0, d.0, i.i8);
    IntersectionDestOnDestLine(sqrt, s.0, d.0, s.1, d.1, i.i3);
    IntersectionDestOnDestLine(sqrt, s.2, d.2, s.3, d.3, i.i7);
    IntersectionDestOnDestLine(sqrt, s.3, d.3, s.2, d.2, i.i4);
  }

  /** The images of the crossings on the horizontal unit-square sides: i1 is
      extrapolated from A along D -> A, i6 from D along A -> D, i2 from B along
      C -> B and i5 from C along B -> C, each by its own source ratio. */
  lemma DestCrossingsTopBottom(sqrt: SqrtFn, s: Perspective, d: Perspective, i: Crossings)
    requires EdgesMeasurable(sqrt, s, d)
    ensures Distance(sqrt, s.3, s.0) != 0.0 && Distance(sqrt, s.2, s.1) != 0.0
    ensures var r := DestCrossings(sqrt, s, d, i);
      r.i1 == Extend(d.3, d.0, Ratio(sqrt, s.3, s.0, i.i1)) &&
      r.i6 == Extend(d.0, d.3, Ratio(sqrt, s.0, s.3, i.i6)) &&
      r.i2 == Extend(d.2, d.1, Ratio(sqrt, s.2, s.1, i.i2)) &&
      r.i5 == Extend(d.1, d.2, Ratio(sqrt, s.1, s.2, i.i5))
  {
    DistanceSymmetric(sqrt, s.0, s.3);
    DistanceSymmetric(sqrt, d.0, d.3);
    DistanceSymmetric(sqrt, s.1, s.2);
    DistanceSymmetric(sqrt, d.1, d.2);
    IntersectionDestOnDestLine(sqrt, s.3, d.3, s.0, d.0, i.i1);
    IntersectionDestOnDestLine(sqrt, s.0, d.0, s.3, d.3, i.i6);
    IntersectionDestOnDestLine(sqrt, s.2, d.2, s.1, d.1, i.i2);
    IntersectionDestOnDestLine(sqrt, s.1, d.1, s.2, d.2, i.i5);
  }

  /** The four lines of step 3 are pairwise non-parallel where they are
      intersected: top (i1 i2) with left (i7 i8) and right (i3 i4), bottom
      (i5 i6) with right and left. */
  predicate CornersDefined(e: Crossings) {
    Determinant((e.i1, e.i2), (e.i7, e.i8)) != 0.0 &&
    Determinant((e.i1, e.i2), (e.i3, e.i4)) != 0.0 &&
    Determinant((e.i5, e.i6), (e.i3, e.i4)) != 0.0 &&
    Determinant((e.i5, e.i6), (e.i7, e.i8)) != 0.0
  }

  /** Step 3 of `calculateTransform`: the projected corners, each the meeting
      point of the two destination lines through the images of the crossings
      on the unit-square sides that meet at that corner. */
  function ProjectedCorners(e: Crossings): (r: Perspective)
    requires CornersDefined(e)
    ensures OnLine(GetCoefficients(e.i1, e.i2), r.0) && OnLine(GetCoefficients(e.i7, e.i8), r.0)
    ensures OnLine(GetCoefficients(e.i1, e.i2), r.1) && OnLine(GetCoefficients(e.i3, e.i4), r.1)
    ensures OnLine(GetCoefficients(e.i5, e.i6), r.2) && OnLine(GetCoefficients(e.i3, e.i4), r.2)
    ensures OnLine(GetCoefficients(e.i5, e.i6), r.3) && OnLine(GetCoefficients(e.i7, e.i8), r.3)
  {
    (LineIntersection((e.i1, e.i2), (e.i7, e.i8)),
     LineIntersection((e.i1, e.i2), (e.i3, e.i4)),
     LineIntersection((e.i5, e.i6), (e.i3, e.i4)),
     LineIntersection((e.i5, e.i6), (e.i7, e.i8)))
  }

  /** The inputs on which `calculateTransform` divides by zero nowhere. */
  predicate Solvable(sqrt: SqrtFn, s: Perspective, d: Perspective) {
    EdgesCrossable(s) && EdgesMeasurable(sqrt, s, d) &&
    CornersDefined(DestCrossings(sqrt, s, d, EdgeCrossings(s)))
  }

  /** `calculateTransform`: where the corners of the unit square land when
      the source quadrilateral s is carried onto the destination d. */
  function CalculateTransform(sqrt: SqrtFn, s: Perspective, d: Perspective): (r: Perspective)
    requires Solvable(sqrt, s, d)
    ensures var e := DestCrossings(sqrt, s, d, EdgeCrossings(s));
      OnLine(GetCoefficients(e.i1, e.i2), r.0) && OnLine(GetCoefficients(e.i7, e.i8), r.0) &&
      OnLine(GetCoefficients(e.i1, e.i2), r.1) && OnLine(GetCoefficients(e.i3, e.i4), r.1) &&
      OnLine(GetCoefficients(e.i5, e.i6), r.2) && OnLine(GetCoefficients(e.i3, e.i4), r.2) &&
      OnLine(GetCoefficients(e.i5, e.i6), r.3) && OnLine(GetCoefficients(e.i7, e.i8), r.3)
  {
    ProjectedCorners(DestCrossings(sqrt, s, d, EdgeCrossings(s)))
  }

  /** The unit square in corner order, the identity Perspective. */
  const UnitSquare: Perspective := ((0.0, 0.0), (1.0, 0.0), (1.0, 1.0), (0.0, 1.0))

  /** `applyTransformToPoint`: bilinear interpolation over the corners
      t.0 (top left), t.1 (top right), t.2 (bottom right), t.3 (bottom left):
      first down the left and right sides by y, then across by x. Each
      coordinate of the result is the average of the corners weighted by
      (1 - x)(1 - y), x(1 - y), xy and (1 - x)y. */
  function ApplyTransformToPoint(point: Coordinate, t: Perspective): (r: Coordinate)
    ensures r.0 == Weighted(point, t.0.0, t.1.0, t.2.0, t.3.0)
    ensures r.1 == Weighted(point, t.0.1, t.1.1, t.2.1, t.3.1)
  {
    var (t0, t1, t2, t3) := t;
    var (x, y) := point;
    var h1x := t0.0 * (1.0 - y) + t3.0 * y;
    var h1y := t0.1 * (1.0 - y) + t3.1 * y;
    var h2x := t1.0 * (1.0 - y) + t2.0 * y;
    var h2y := t1.1 * (1.0 - y) + t2.1 * y;
    BilinearWeights(x, y, t0.0, t1.0, t2.0, t3.0);
    BilinearWeights(x, y, t0.1, t1.1, t2.1, t3.1);
    (h1x * (1.0 - x) + h2x * x, h1y * (1.0 - x) + h2y * x)
  }

  /** The corner values v0..v3 averaged with the bilinear weights of the
      point p in the unit square. */
  function Weighted(p: Coordinate, v0: real, v1: real, v2: real, v3: real): real {
    var (x, y) := p;
    v0 * ((1.0 - x) * (1.0 - y)) + v1 * (x * (1.0 - y)) + v2 * (x * y) + v3 * ((1.0 - x) * y)
  }

  /** Interpolating down the sides and then across is the weighted average. */
  lemma BilinearWeights(x: real, y: real, v0: real, v1: real, v2: real, v3: real)
    ensures (v0 * (1.0 - y) + v3 * y) * (1.0 - x) + (v1 * (1.0 - y) + v2 * y) * x
         == Weighted((x, y), v0, v1, v2, v3)
  {
  }

  /** The bilinear weights sum to one. */
  lemma WeightsSumToOne(p: Coordinate)
    ensures Weighted(p, 1.0, 1.0, 1.0, 1.0) == 1.0
  {
  }

  /** The remapper is exact at the four corners of the unit square. */
  lemma ApplyAtCorners(t: Perspective)
    ensures ApplyTransformToPoint((0.0, 0.0), t) == t.0
    ensures ApplyTransformToPoint((1.0, 0.0), t) == t.1
    ensures ApplyTransformToPoint((1.0, 1.0), t) == t.2
    ensures ApplyTransformToPoint((0.0, 1.0), t) == t.3
  {
  }

  /** Over the unit square the remapper is the identity. */
  lemma ApplyUnitSquare(point: Coordinate)
    ensures ApplyTransformToPoint(point, UnitSquare) == point
  {
    var r := ApplyTransformToPoint(point, UnitSquare);
    assert r.0 == point.0;
    assert r.1 == point.1;
    CoordinateEq(r, point);
  }

  /** Over a parallelogram (t.2 - t.1 == t.3 - t.0) the remapper is the
      affine map t.0 + x (t.1 - t.0) + y (t.3 - t.0). */
  lemma ApplyParallelogram(point: Coordinate, t: Perspective)
    requires t.2.0 == t.1.0 + t.3.0 - t.0.0 && t.2.1 == t.1.1 + t.3.1 - t.0.1
    ensures ApplyTransformToPoint(point, t).0
         == t.0.0 + point.0 * (t.1.0 - t.0.0) + point.1 * (t.3.0 - t.0.0)
    ensures ApplyTransformToPoint(point, t).1
         == t.0.1 + point.0 * (t.1.1 - t.0.1) + point.1 * (t.3.1 - t.0.1)
  {
    ParallelogramWeights(point, t.0.0, t.1.0, t.3.0);
    ParallelogramWeights(point, t.0.1, t.1.1, t.3.1);
  }

  /** The weighted average over corner values v0, v1, v1 + v3 - v0, v3. */
  lemma ParallelogramWeights(p: Coordinate, v0: real, v1: real, v3: real)
    ensures Weighted(p, v0, v1, v1 + v3 - v0, v3) == v0 + p.0 * (v1 - v0) + p.1 * (v3 - v0)
  {
  }

  /** A detected body landmark: its normalised position and whatever else the
      detector attaches to it, which the remapper passes through. */
  datatype Landmark<Rest> = Landmark(x: real, y: real, rest: Rest)

  /** `applyTransformToPose`: every landmark, in order, with its (x, y)
      remapped through t and everything else kept. */
  function ApplyTransformToPose<Rest>(pose: seq<Landmark<Rest>>, t: Perspective): (r: seq<Landmark<Rest>>)
    ensures |r| == |pose|
    ensures forall i :: 0 <= i < |pose| ==> r[i].rest == pose[i].rest
    ensures forall i :: 0 <= i < |pose| ==>
      r[i].x == ApplyTransformToPoint((pose[i].x, pose[i].y), t).0 &&
      r[i].y == ApplyTransformToPoint((pose[i].x, pose[i].y), t).1
  {
    if |pose| == 0 then []
    else
      var p := ApplyTransformToPoint((pose[0].x, pose[0].y), t);
      [pose[0].(x := p.0, y := p.1)] + ApplyTransformToPose(pose[1..], t)
  }

  /** Remapping a pose over the unit square gives the pose back. */
  lemma PoseUnitSquare<Rest>(pose: seq<Landmark<Rest>>)
    ensures ApplyTransformToPose(pose, UnitSquare) == pose
  {
    var r := ApplyTransformToPose(pose, UnitSquare);
    forall i | 0 <= i < |pose|
      ensures r[i] == pose[i]
    {
      ApplyUnitSquare((pose[i].x, pose[i].y));
    }
  }
}
