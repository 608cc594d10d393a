# Perspective transform of a pose-tracking app, in Dafny

The app tracks a person's pose in a video and compares it with a reference
video. The app keeps a perspective and a pose for each video. Each video's
pose is remapped through that video's perspective, so that the two videos
can be compared even when they frame the scene differently. A quadrilateral
marked in a video (the *source*, corners A, B, C, D clockwise from the top
left) is matched to a destination quadrilateral in the shared, normalised
display space (the *destination*). `calculateTransform`
produces a `Perspective`: where the corners of the unit square land. Then
`applyTransformToPose` carries every normalised landmark through that
perspective by bilinear interpolation.

The model covers the following.

- **Geometry** (`geometry.dfy`): the primitives `distance`, `makeLine`
  (its `calcY` and `calcX`), `getCoefficients` and
  `calculateLineIntersection`.
- **Transform** (`transform.dfy`): the solver `calculateTransform`, in
  three steps:
  1. the eight crossings of the source edge lines with the unit-square
     sides;
  2. their images under `calculateIntersectionDest`;
  3. the corners where the image lines meet.

  It also covers `applyTransformToPoint` and `applyTransformToPose`.
- **SolverCases** (`solver_cases.dfy`): what the solver computes on whole
  families of inputs.
  - For an axis-aligned source rectangle inside the unit square and any
    axis-aligned destination rectangle, the result is the closed form of
    the scale-and-shift between them, and every remapped point moves by
    that map.
  - For source equal to destination, with the corners in order inside the
    unit square, the result is the unit square when the four image lines
    are pairwise non-parallel (`CornersDefined`). Every pose is then left
    unchanged. Being in order does not by itself give `CornersDefined`
    (SolverCases.TrapezoidUndefined).
  - The two test fixtures of the transform file (same source and
    destination; simple scaling) are instances of these, proved exactly.
- **MathUtil** (`math.dfy`): `clamp`.
- **Index** (`index.dfy`): the exported `calculateTransform` of the
  library index, a stub that returns nothing.

The library index (src/lib/index.ts:3-34) repeats `distance`, `makeLine`,
`getCoefficients` and `calculateLineIntersection` with identical bodies. They are
modelled once, in Geometry. Each Geometry row below cites one copy and
holds for both.

## Modelling decisions

- **Reals.** Numbers are Dafny reals, so arithmetic is exact.
- **Square root.** `Math.sqrt` is a parameter `sqrt` of every function
  that measures a distance. Lemmas that need its meaning require
  `IsSqrt(sqrt)`: for every v >= 0, `sqrt(v)` is non-negative and squares
  back to v.
- **Divisions.** The code divides by zero without complaint: a vertical
  edge for `calcY` or a horizontal edge for `calcX`, a zero distance, a zero determinant. Each such
  division is a precondition here: `EdgesCrossable`, `EdgesMeasurable`,
  `CornersDefined`, gathered in `Solvable`.
- **No error path.** The code raises no error for degenerate input, and
  neither does the model. Degenerate inputs are simply outside the
  preconditions.
- **Pose tail.** Only `x` and `y` of a landmark are modelled. All other
  fields are a generic `rest` that `ApplyTransformToPose` copies through.

## Model

| member | source | states |
|---|---|---|
| Geometry.Distance | src/lib/transform.ts:4-6 | the distance between two points is never negative |
| Geometry.DistanceSquared | src/lib/transform.ts:4-6 | the distance squared is the sum of the squared coordinate differences |
| Geometry.DistanceSymmetric | src/lib/index.ts:3-5 | distance(p, q) equals distance(q, p) |
| Geometry.DistanceZero | src/lib/index.ts:3-5 | the distance is zero exactly when the two points coincide |
| Geometry.DistanceHorizontal | src/lib/transform.ts:4-6 | between points at the same height, the distance is the absolute difference of x |
| Geometry.DistanceVertical | src/lib/transform.ts:4-6 | between points on one vertical, the distance is the absolute difference of y |
| Geometry.Hypot | src/lib/transform.ts:5 | the root of a sum of two squares is never negative |
| Geometry.HypotSquared | src/lib/transform.ts:5 | that root squares back to dx² + dy² |
| Geometry.HypotAlongX | src/lib/transform.ts:5 | with no vertical offset and a non-negative horizontal offset, the root is that horizontal offset |
| Geometry.HypotAlongY | src/lib/transform.ts:5 | with no horizontal offset and a non-negative vertical offset, the root is that vertical offset |
| Geometry.HypotScale | src/lib/transform.ts:5 | scaling both offsets by t >= 0 scales the root by t |
| Geometry.HypotDominates | src/lib/transform.ts:5 | the root is at least the absolute value of each offset |
| Geometry.GetCoefficients | src/lib/transform.ts:16-23 | both defining points satisfy a·x + b·y + c = 0; a and b both vanish exactly when the points coincide; a point satisfies the equation exactly when it is collinear with the two |
| Geometry.CollinearSwap | src/lib/transform.ts:16-23 | collinearity does not depend on the order of the two defining points |
| Geometry.CalcY | src/lib/transform.ts:8-14 | `calcY(x)` is the one y that puts (x, y) on the line through the two points |
| Geometry.CalcX | src/lib/transform.ts:8-14 | `calcX(y)` is the one x that puts (x, y) on the line through the two points |
| Geometry.CalcYOnLine | src/lib/transform.ts:11 | (x, calcY(x)) is collinear with the two points |
| Geometry.CalcXOnLine | src/lib/transform.ts:12 | (calcX(y), y) is collinear with the two points |
| Geometry.CalcYEndpoints | src/lib/index.ts:7-13 | calcY gives y1 at x1 and y2 at x2 |
| Geometry.CalcXEndpoints | src/lib/index.ts:7-13 | calcX gives x1 at y1 and x2 at y2 |
| Geometry.CalcYHorizontal | src/lib/transform.ts:11 | on a horizontal line, calcY is constant at the line's height |
| Geometry.CalcXVertical | src/lib/transform.ts:12 | on a vertical line, calcX is constant at the line's abscissa |
| Geometry.CalcYSwap | src/lib/transform.ts:11 | calcY does not depend on the order of the two points |
| Geometry.CalcXSwap | src/lib/transform.ts:12 | calcX does not depend on the order of the two points |
| Geometry.ExtendCollinear | src/lib/transform.ts:68 | a point moved from q along the direction p→q stays on line pq |
| Geometry.ExtendMeetsX | src/lib/transform.ts:11 | moving along pq until abscissa x reaches exactly (x, calcY(x)) |
| Geometry.ExtendMeetsY | src/lib/transform.ts:12 | moving along pq until ordinate y reaches exactly (calcX(y), y) |
| Geometry.LineIntersection | src/lib/transform.ts:25-35 | with a non-zero determinant, the result lies on both lines |
| Geometry.LineIntersectionUnique | src/lib/transform.ts:25-35 | with a non-zero determinant, any point on both lines is the result |
| Geometry.MeetAxisLines | src/lib/transform.ts:25-35 | a horizontal and a vertical line meet at (the vertical's x, the horizontal's y) |
| Geometry.MeetHorizontalVertical | src/lib/transform.ts:25-35 | a proper horizontal and a proper vertical line always have a non-zero determinant and meet there |
| Transform.IntersectionDest | src/lib/transform.ts:51-69 | the image of s3 is d2 moved along d1→d2 by the distance s3 s2 over the distance s1 s2, times the length d1 d2 |
| Transform.Advance | src/lib/transform.ts:64-68 | scale factor, unit direction and scaled distance combine to base + delta · (distS3S2 / distS1S2) |
| Transform.IntersectionDestOnDestLine | src/lib/transform.ts:51-69 | the image lies on the destination line d1 d2 |
| Transform.IntersectionDestFixesRay | src/lib/transform.ts:51-69 | when source and destination are the same, every point on the ray from s1 through s2, beyond s2, is its own image |
| Transform.RatioAlongRay | src/lib/transform.ts:62-67 | a point t lengths beyond s2 on the ray s1→s2 has ratio t |
| Transform.DistanceAlongRay | src/lib/transform.ts:66 | that point lies t times the distance s1 s2 from s2 |
| Transform.EdgeCrossings | src/lib/transform.ts:71-87 | i8, i3 lie on AB at x = 0, 1; i7, i4 on CD at x = 0, 1; i1, i6 on AD at y = 0, 1; i2, i5 on BC at y = 0, 1 |
| Transform.DestCrossings | src/lib/transform.ts:96-103 | every image lies on the destination edge line matching its source edge |
| Transform.DestCrossingsSides | src/lib/transform.ts:96-99 | the images of i8, i3, i7, i4 are the destination corner each lies beyond (A, B, D, C), pushed along its destination edge away from the other corner by the crossing's source distance from that corner over the source edge length |
| Transform.DestCrossingsTopBottom | src/lib/transform.ts:100-103 | the images of i1, i6, i2, i5 are the destination corner each lies beyond (A, D, B, C), pushed along its destination edge away from the other corner by the crossing's source distance from that corner over the source edge length |
| Transform.ProjectedCorners | src/lib/transform.ts:106-110 | each corner lies on the two image lines that meet there |
| Transform.CalculateTransform | src/lib/transform.ts:37-111 | corner 0 lies on lines (d1 d2) and (d7 d8), corner 1 on (d1 d2) and (d3 d4), corner 2 on (d5 d6) and (d3 d4), corner 3 on (d5 d6) and (d7 d8) |
| Transform.ApplyTransformToPoint | src/lib/transform.ts:113-129 | each coordinate is the corners' average with weights (1−x)(1−y), x(1−y), xy and (1−x)y |
| Transform.WeightsSumToOne | src/lib/transform.ts:122-128 | those four weights sum to one |
| Transform.ApplyAtCorners | src/lib/transform.ts:113-129 | the unit-square corners go exactly to the four transform corners |
| Transform.ApplyUnitSquare | src/lib/transform.ts:113-129 | the unit-square transform leaves every point unchanged |
| Transform.ApplyParallelogram | src/lib/transform.ts:113-129 | over a parallelogram, the map is affine: corner 0 plus x times edge 0→1 plus y times edge 0→3 |
| Transform.ApplyTransformToPose | src/lib/transform.ts:131-140 | same length; each landmark keeps its other fields and takes the x and y of its remapped point |
| Transform.PoseUnitSquare | src/lib/transform.ts:131-140 | the unit-square transform leaves every pose unchanged |
| SolverCases.AxisMapFromFirst | src/lib/transform.ts:62-68 | moving from the first anchor is the same one-dimensional affine map |
| SolverCases.AxisMapSwap | src/lib/transform.ts:62-68 | that map does not depend on which anchor is named first |
| SolverCases.AxisMapAffine | src/lib/transform.ts:62-68 | that map interpolates linearly between its values at 0 and 1 |
| SolverCases.RatioHorizontal | src/lib/transform.ts:62-67 | on a horizontal edge, a point beyond s2 has ratio (x − s2.x) / (s2.x − s1.x) |
| SolverCases.RatioVertical | src/lib/transform.ts:62-67 | the same, on a vertical edge |
| SolverCases.HorizontalCrossingImage | src/lib/transform.ts:51-69 | between horizontal edges, the image is the affine map of x that takes s1 to d1 and s2 to d2, at the destination edge's height |
| SolverCases.VerticalCrossingImage | src/lib/transform.ts:51-69 | the same, between vertical edges |
| SolverCases.RectangleCrossings | src/lib/transform.ts:76-87 | a rectangle's crossings are the unit-square side points at the rectangle's heights and abscissas |
| SolverCases.RectangleMeasurable | src/lib/transform.ts:62-63 | between two rectangles, no distance the solver divides by is zero |
| SolverCases.RectangleSideImages | src/lib/transform.ts:96-99 | between rectangles, the images of i8, i3, i7, i4 are the affine images of x = 0, 1 at the destination heights |
| SolverCases.RectangleTopBottomImages | src/lib/transform.ts:100-103 | between rectangles, the images of i1, i6, i2, i5 are the affine images of y = 0, 1 at the destination abscissas |
| SolverCases.RectangleTransform | src/lib/transform.ts:37-111 | from an upright rectangle to any rectangle, the solver succeeds and returns the unit square carried by the x and y scale-and-shift |
| SolverCases.RectanglePoint | src/lib/transform.ts:113-129 | remapping through that result moves each point by the same scale-and-shift |
| SolverCases.RectangleImage | src/lib/transform.ts:113-129 | the remapping half of the previous row, for any corner set of that shape |
| SolverCases.AxisAlignedImage | src/lib/transform.ts:113-129 | through an axis-aligned corner set, each coordinate is scaled and shifted on its own |
| SolverCases.TestSameSourceAndDest | src/lib/transform.ts:152-178 | with source = destination = the 0.1…0.9 square, the result is exactly the unit square |
| SolverCases.TestSimpleScaling | src/lib/transform.ts:180-206 | from the 0.1…0.9 square to the 0.3…0.7 square, the result is exactly the 0.25…0.75 square |
| SolverCases.FixedCrossingX | src/lib/transform.ts:51-69 | with source = destination, a crossing beyond s2 on the line through s1, s2 maps to itself |
| SolverCases.FixedCrossingY | src/lib/transform.ts:51-69 | the same, for crossings found by calcX |
| SolverCases.InOrderMeasurable | src/lib/transform.ts:62-63 | corners in order inside the unit square give crossable edges and no zero distance |
| SolverCases.IdentitySideCrossings | src/lib/transform.ts:96-99 | with source = destination in order, i8, i3, i7 and i4 map to themselves |
| SolverCases.IdentityTopBottomCrossings | src/lib/transform.ts:100-103 | with source = destination in order, i1, i6, i2 and i5 map to themselves |
| SolverCases.BorderCorners | src/lib/transform.ts:106-110 | lines through crossings on the unit-square sides meet at the unit-square corners |
| SolverCases.IdentityTransform | src/lib/transform.ts:37-111 | with source = destination in order inside the unit square, and the four image lines pairwise non-parallel (`CornersDefined`), the solver returns the unit square |
| SolverCases.IdentityPose | src/lib/transform.ts:131-140 | under the same two conditions (in order, `CornersDefined`), remapping any pose through that result leaves it unchanged |
| SolverCases.TrapezoidUndefined | src/lib/transform.ts:76-81 | the in-order quadrilateral A(0.2, 0.4), B(0.8, 0.1), C(0.8, 0.9), D(0.2, 0.6) has i8 = i7 = (0, 0.5), so the line through d7 and d8 has coefficients (0, 0, 0) and `CornersDefined` fails |
| MathUtil.Max | src/lib/math.ts:2 | the larger argument: at least both, and one of them |
| MathUtil.Min | src/lib/math.ts:2 | the smaller argument: at most both, and one of them |
| MathUtil.Clamp | src/lib/math.ts:1-3 | never above max; not below min when min <= max; num itself when in range; min below range; max above range; always max when min > max |
| MathUtil.ClampIdempotent | src/lib/math.ts:1-3 | clamping twice is clamping once |
| MathUtil.ClampMonotone | src/lib/math.ts:1-3 | clamping preserves order |
| Index.CalculateTransform | src/lib/index.ts:36-39 | ignores its arguments and returns no transform |

## Left out

- **Floating point.** There is no IEEE rounding, NaN or Infinity. A
  division by zero, which yields Infinity or NaN in the app, is a
  precondition here.
- **Tolerance.** `approxEq` and `perspectivesEqual` (src/lib/transform.ts:142-150)
  compare to within 0.001. The fixture lemmas prove exact equality
  instead, which is stronger.
- **Console.** The test functions' console output and the `test` driver
  (src/lib/transform.ts:208-212) are left out.
- **Math.sqrt.** Its implementation is left out; it is a parameter.
- **Python draft.** The commented-out Python draft of `calculateTransform`
  (src/lib/index.ts:41-125) is dead code.
- **Timestamps.** `timestampFromSeconds` (src/lib/math.ts:5-12) is string
  formatting over `Date`.
- **App plumbing.** The worker, the pose detector, the stores and the
  Svelte routes are left out.
- Transform.CalculateTransform: its own contract states only the
  incidences of the corners. What it returns is proved separately for
  rectangles (SolverCases.RectangleTransform) and for source equal to
  destination (SolverCases.IdentityTransform). No closed form is given for
  general quadrilaterals.
- SolverCases.IdentityTransform: it also requires `CornersDefined`, and being
  in order does not imply it. On the in-order quadrilateral of
  SolverCases.TrapezoidUndefined, lines AB and DC both cross x = 0 at
  (0, 0.5), so i8 = i7. In exact arithmetic the determinant at
  src/lib/transform.ts:31 is then zero, and c1 and c4 are 0/0. In floating
  point they come out NaN or dominated by rounding, not as the unit-square
  corners. The model does not cover this; with reals, these
  divisions are preconditions.
- Transform.IntersectionDest: it measures the distance s3 s2 without a sign, as the
  code does. A crossing lying between s1 and s2, or before s1, is sent
  beyond d2 instead. The exact-image lemmas (SolverCases.RatioHorizontal,
  SolverCases.FixedCrossingX and the rest) therefore require the crossing
  to lie on the ray from s1 through s2, beyond s2. This is where the
  code's comment says s3 lies.
