# A verified model of the simple ray tracer's core

This project models, in Dafny, the deterministic core of a small teaching ray tracer written in C
(`simpleRayTracer`, homeworks HW02 to HW06). Geometry is computed over `real`. Each part of the
tracer is a module.

| module | what it models |
|---|---|
| `Types` | the scene records: vectors, colours, rays, materials with their three one-bit flags, bounding boxes, the tagged shape union (tags 1 to 6, plus any other tag the C `int` can hold) and the constants |
| `Utils` | the vector algebra, `clamp`, `iclamp`, the truncating `int` cast, `vectorNormalize`, `vectorOrthogonalize` and `solveQuadratic` |
| `BoundingBoxes` | the box of each primitive (including the running min/max loop over the rectangle's eight corners) and the clamped cell-index range of a shape's box |
| `Intersections` | each ray/primitive test as a function of the old bound `*t` giving a hit with a new parameter or a miss, the dispatch on the tag, and the point-in-cell test |
| `RayBox` | the exit-face bit mask of a ray leaving a grid cell and the advance of the ray start |
| `Shapes` | surface normals and the material lookup, including the rectangle's checkerboard |
| `Projections` | the closest point of each primitive to a point: clamping, region selection and the triangle's edge fallback |
| `GridIndex` | the uniform grid's compressed-row index: the per-cell count pass, the exclusive prefix sum, the scatter pass through copied cursors, and the rebuild |
| `GridSearch` | the grid walk of a ray: clipping onto the grid, the clamped start cell, the per-cell scan, the face-bit stepping and the loop exit |
| `Trace` | the trace engine's fixed-capacity ray stack, drained first in, first out by a running ray id, with reflected and refracted children |
| `SphereDynamics` | the collision pass over the spheres (gathering neighbours from the grid cells, recording sphere contacts, choosing the nearest penetrated non-sphere) and the Euler update |
| `SceneSetup` | the material table, the shape table with its ids and cylinder caps, the lights, and the grid's cell boxes |
| `Interpolation` | `interpolateScene`, the in-place pass that fills black pixels with the average of their lit neighbours |

The C code's out-parameters become results. A routine that updates `*t` on success returns a
hit with the new parameter or a miss. The code that works step by step becomes methods over
arrays, proved against specification functions:
- the grid index passes;
- the grid walk;
- the ray stack;
- the collision and update loops;
- the scene-setup loops;
- the image pass.

Calls the trace engine makes into the rest of the tracer are parameters (`Trace.Oracles`): the
grid search, the surface normal and the material lookup. The random draws of the scene setup are
parameters too.

Three more defects in the source are stated by members rather than in the Findings table:
- `gridRayIntersectionSearch` restarts `*t` at 20000 in every cell. Its result is the last
  visited cell's scan, whatever bound the caller passed, so the shadow ray's bound of the light
  distance is discarded (`GridSearch.Search`, `GridSearch.VisitScan`).
- The same scan can leave `*t` at a hit outside the cell while reporting an earlier shape
  (`GridSearch.StaleParameter`).
- A material that draws neither flag becomes a reflector whose reflection is still 0
  (`SceneSetup.DefaultedReflectorDefect`).

## Model

| member | source | states |
|---|---|---|
| Types.Tag | HW02/simpleRayTracer/simpleRayTracer.h:21-26 | a tagged shape carries one of the six tags 1..6; an untagged one keeps its free integer tag |
| Utils.Sub | HW02/simpleRayTracer/src/utils.c:13-15 | the difference added back to the subtrahend gives the minuend |
| Utils.Scale | HW02/simpleRayTracer/src/utils.c:30-32 | scaling by 0 gives the zero vector and scaling by 1 the vector itself |
| Utils.Cross | HW02/simpleRayTracer/src/utils.c:22-26 | the cross product is orthogonal to both arguments |
| Utils.TripleProduct | HW02/simpleRayTracer/src/utils.c:39-44 | (a x b).c vanishes when c is a or b |
| Utils.TripleExpand | HW02/simpleRayTracer/src/utils.c:39-44 | the triple product written out as the 3 x 3 determinant of its arguments |
| Utils.TripleProductCyclic | HW02/simpleRayTracer/src/utils.c:39-44 | the triple product is invariant under cyclic rotation and changes sign when a and b swap |
| Utils.TripleProductDecomposition | HW02/simpleRayTracer/src/utils.c:39-44 | Cramer's rule: [a, b, c] r equals the sum of a, b, c weighted by the triple products with r substituted |
| Utils.Orthogonalize | HW02/simpleRayTracer/src/utils.c:46-52 | a minus its component along b is orthogonal to b when b is a unit vector |
| Utils.Sqrt | HW02/simpleRayTracer/src/utils.c:54-56 | the square root is non-negative, at most max(1, x), and zero exactly when x is zero |
| Utils.SqrtAbove | HW02/simpleRayTracer/src/utils.c:54-56 | the square of the computed root is never below x |
| Utils.SqrtNear | HW02/simpleRayTracer/src/utils.c:54-56 | the computed root exceeds a number whose square is at most x by no more than max(1, x) / 2^60 |
| Utils.SqrtBisectAbove | HW02/simpleRayTracer/src/utils.c:54-56 | every bisection step keeps the root below the upper end of the bracket |
| Utils.SqrtBisectNear | HW02/simpleRayTracer/src/utils.c:54-56 | after n bisection steps the bracket is (hi - lo) / 2^n wide around the root |
| Utils.Norm | HW02/simpleRayTracer/src/utils.c:54-56 | the norm is non-negative, its square is at least a.a, and the zero vector has norm 0 |
| Utils.Normalize | HW02/simpleRayTracer/src/utils.c:59-66 | the zero vector for a zero vector; otherwise a non-negative multiple of a, parallel to a |
| Utils.ScaleParallel | HW02/simpleRayTracer/src/utils.c:63 | a non-negative multiple of a is parallel to a and points the same way |
| Utils.Min | HW02/simpleRayTracer/simpleRayTracer.h:11 | the result is one of the arguments and not above either |
| Utils.Max | HW02/simpleRayTracer/simpleRayTracer.h:12 | the result is one of the arguments and not below either |
| Utils.Clamp | HW02/simpleRayTracer/src/utils.c:68-74 | never below xmin; within [xmin, xmax] when that interval is non-empty; the identity inside it; xmin below it and xmax above it |
| Utils.ClampMonotone | HW02/simpleRayTracer/src/utils.c:68-74 | clamping is monotone |
| Utils.IClamp | HW02/simpleRayTracer/src/utils.c:77-83 | an integer never below xmin, at most xmax when xmin <= xmax, and the floor of x when x lies in [xmin, xmax] |
| Utils.IClampMonotone | HW02/simpleRayTracer/src/utils.c:77-83 | the integer clamp is monotone |
| Utils.TruncToInt | HW02/simpleRayTracer/src/boundingBoxes.c:174-179 | the conversion of a real to int truncates toward zero |
| Utils.TruncMonotone | HW02/simpleRayTracer/src/boundingBoxes.c:174-179 | truncation toward zero is monotone |
| Utils.SolveQuadratic | HW02/simpleRayTracer/src/utils.c:109-132 | no roots exactly when b^2 - ac < 0; otherwise x0 <= x1; the double root -b/a when the discriminant is 0; two roots whose product is c/a when it is positive |
| Utils.DistinctRoots | HW02/simpleRayTracer/src/utils.c:117-129 | the stable pairing q/a, c/q gives ordered roots whose product is c/a |
| Utils.StableRootsProduct | HW02/simpleRayTracer/src/utils.c:119-129 | min and max of q/a and c/q multiply to c/a |
| BoundingBoxes.Extents | HW02/simpleRayTracer/src/boundingBoxes.c:5-16 | a box carries exactly the given world extents |
| BoundingBoxes.BoxTriangle | HW02/simpleRayTracer/src/boundingBoxes.c:3-17 | the box holds all three vertices and every extent is one of the vertex coordinates |
| BoundingBoxes.BoxSphere | HW02/simpleRayTracer/src/boundingBoxes.c:19-33 | the box is centered on the sphere with side 2 radius on each axis, and holds the center for a non-negative radius |
| BoundingBoxes.Reach | HW02/simpleRayTracer/src/boundingBoxes.c:45-52 | the radius reach R sqrt(p^2 + q^2) is non-negative for a non-negative radius |
| BoundingBoxes.CylinderSpan | HW02/simpleRayTracer/src/boundingBoxes.c:45-46 | one coordinate's span is H abs(a) plus twice the reach, and holds both end centers when the reach is non-negative |
| BoundingBoxes.HeightAbs | HW02/simpleRayTracer/src/boundingBoxes.c:45-52 | H fabs(a) is H a or its negation, and non-negative for H >= 0 |
| BoundingBoxes.Reaches | HW02/simpleRayTracer/src/boundingBoxes.c:45-52 | the reach along each axis uses the two other axis components and is non-negative for R >= 0 |
| BoundingBoxes.CylinderBox | HW02/simpleRayTracer/src/boundingBoxes.c:45-52 | max - min = H abs(a_x) + 2 R sqrt(a_y^2 + a_z^2) on x and likewise on y and z; holds both end centers |
| BoundingBoxes.BoxCylinder | HW02/simpleRayTracer/src/boundingBoxes.c:35-55 | for non-negative height and radius the box holds the base center and the top center |
| BoundingBoxes.ConeSpan | HW02/simpleRayTracer/src/boundingBoxes.c:66-67 | one coordinate's span holds the vertex, and the base center for a non-negative reach |
| BoundingBoxes.BoxCone | HW02/simpleRayTracer/src/boundingBoxes.c:57-76 | the box holds the vertex, and the base center for a non-negative radius |
| BoundingBoxes.BoxDisk | HW02/simpleRayTracer/src/boundingBoxes.c:138-158 | the box is symmetric about the center (min + max = 2 c on each axis) and holds it for a non-negative radius |
| BoundingBoxes.RectangleCorners | HW02/simpleRayTracer/src/boundingBoxes.c:84-117 | the thickened rectangle has eight corners, lower face first |
| BoundingBoxes.RunningMin | HW02/simpleRayTracer/src/boundingBoxes.c:119-133 | the running minimum is at most the seed and every element, and is the seed or one of the elements |
| BoundingBoxes.RunningMax | HW02/simpleRayTracer/src/boundingBoxes.c:119-133 | the running maximum is at least the seed and every element, and is the seed or one of the elements |
| BoundingBoxes.BoxRectangle | HW02/simpleRayTracer/src/boundingBoxes.c:80-136 | the box holds all eight corners of the slab of thickness 0.1 on each side of the rectangle |
| BoundingBoxes.CreateBoundingBoxRectangle | HW02/simpleRayTracer/src/boundingBoxes.c:80-136 | the corner array and the loop give BoxRectangle |
| BoundingBoxes.RunningBounds | HW02/simpleRayTracer/src/boundingBoxes.c:119-133 | the loop leaves the running minima and maxima of each coordinate over the array, seeded with 1e9 and -1e9 |
| BoundingBoxes.CellIndex | HW02/simpleRayTracer/src/boundingBoxes.c:174-188 | the truncated and clamped cell index lies in [0, n - 1] |
| BoundingBoxes.BoundingBoxShape | HW02/simpleRayTracer/src/boundingBoxes.c:161-191 | the world extents are those of the shape's own box; every cell index lies in [0, N - 1] on its axis |
| BoundingBoxes.CellIndexMonotone | HW02/simpleRayTracer/src/boundingBoxes.c:174-188 | truncation followed by the clamp is monotone for a non-negative inverse cell size |
| BoundingBoxes.CellRangeNonEmpty | HW02/simpleRayTracer/src/boundingBoxes.c:174-188 | a non-empty extent gives a non-empty index range (imin <= imax, and likewise for j and k) |
| Intersections.IntersectRayDisk | HW04/ScalingBug/src/intersectionTests.c:3-30 | a hit lies in the disk's plane, within the radius of the center, at 0 <= t < the old bound; a ray with abs(n.d) < 1e-8 misses |
| Intersections.DotPointAt | HW04/ScalingBug/src/intersectionTests.c:15-20 | n.(s + t d) = n.s + t n.d, which puts the disk test's point in the plane |
| Intersections.AxialRoots | HW04/ScalingBug/src/intersectionTests.c:59-95 | as written: a hit passes the height test strictly within (0, height) and lies below the bound; it is the near root (-sq - b) / 2a or the far root (sq - b) / 2a; the near root is taken whenever -b > sq and it passes, and some root is taken whenever -b + sq >= 0 and the far root passes; a hit is at t >= 0 only when a > 0; -b + sq < 0 misses |
| Intersections.AxialRootsAhead | HW04/ScalingBug/src/intersectionTests.c:59-95 | corrected: a hit is a root at t >= 0 that passes the height and bound tests, and no qualifying root at t >= 0 is nearer than it |
| Intersections.AxialRootsBehindStart | HW04/ScalingBug/src/intersectionTests.c:131-150 | a ray from inside the nappe of the cone with apex 0, axis +y, R = H = 1 (a = -1, b = -1, disc 0.04) gets a hit at t < 0 as written, and a miss from the corrected selection |
| Intersections.ProbeSelection | HW04/ScalingBug/src/intersectionTests.c:131-150 | for every square root strictly between 0 and 1 of the probe's discriminant, the selection as written returns a negative root and the corrected one misses |
| Intersections.ProbeHeight | HW04/ScalingBug/src/intersectionTests.c:131-150 | along the probe ray the axial height above the apex is 0.5 + t |
| Intersections.IntersectRayCylinder | HW04/ScalingBug/src/intersectionTests.c:33-97 | a hit is at 0 <= t below the bound with axial height strictly within (0, height); a negative discriminant misses |
| Intersections.ConeQuadratic | HW04/ScalingBug/src/intersectionTests.c:113-126 | at every parameter t, a t^2 + b t + c of the cone's coefficients equals the squared distance of the ray's point from the axis less (R/H)^2 times its squared height above the apex, so the roots are the ray's crossings of the infinite double cone |
| Intersections.ConeScalars | HW04/ScalingBug/src/intersectionTests.c:122-126 | the three coefficients with the source's R/H groupings recombine into abs(c + t h)^2 - (R/H)^2 (a.p + t a.d)^2, written with the dot products h.h, h.c, c.c, a.d and a.p |
| Intersections.IntersectRayCone | HW04/ScalingBug/src/intersectionTests.c:100-173 | as written: a hit is below the bound with axial height strictly within (0, height) above the apex (it can lie behind the start, see AxialRootsBehindStart) |
| Intersections.IntersectRayConeAhead | HW04/ScalingBug/src/intersectionTests.c:100-173 | corrected cone test: a hit is at 0 <= t below the bound with axial height strictly within (0, height) |
| Intersections.IntersectRayTriangle | HW04/ScalingBug/src/intersectionTests.c:179-210 | a hit lies inside the triangle at p_intersectDelta < t < the old bound |
| Intersections.TriangleHitInside | HW04/ScalingBug/src/intersectionTests.c:186-200 | when L1 >= 0, L2 >= 0 and L1 + L2 <= J, the point at t0 = [B1, B2, R] / J is a convex combination of the vertices |
| Intersections.TriangleSolve | HW04/ScalingBug/src/intersectionTests.c:186-200 | Cramer's rule: R = (L1/J) B1 + (L2/J) B2 + t0 d |
| Intersections.BarycentricRange | HW04/ScalingBug/src/intersectionTests.c:195-198 | the accepted L1, L2 give barycentric weights in [0, 1] that sum to at most 1 |
| Intersections.BarycentricAxis | HW04/ScalingBug/src/intersectionTests.c:186-190 | the solved system puts s + t d at u v0 + w v1 + (1 - u - w) v2 |
| Intersections.IntersectRayRectangle | HW04/ScalingBug/src/intersectionTests.c:213-244 | corrected test: a hit lies on the rectangle (in its plane, each offset within half its own length) at 0 <= t <= the old bound |
| Intersections.RectanglePlane | HW04/ScalingBug/src/intersectionTests.c:225-232 | the point at t0 = (C - s).n / (d.n) lies in the rectangle's plane, and X = s + t0 d - C |
| Intersections.IntersectRayRectangleAsWritten | HW04/ScalingBug/src/intersectionTests.c:213-244 | as written: a numeric hit is at 0 <= t <= the old bound; the NaN hit happens exactly when d.n and (C - s).n are both 0 |
| Intersections.RectangleAsWrittenAgreesOnSquares | HW04/ScalingBug/src/intersectionTests.c:234-238 | for equal lengths, away from the parallel case, the code as written and the corrected test agree |
| Intersections.RectangleSecondExtentDefect | HW04/ScalingBug/src/intersectionTests.c:237-238 | a hit whose second offset lies in (L2/2, L1 - L2/2] is reported as written at a point off the rectangle, where the corrected test misses |
| Intersections.RectangleSecondExtentExample | HW04/ScalingBug/src/intersectionTests.c:237-238 | a ray straight down onto a 4 x 1 rectangle, 1.5 off center along the short axis, hits as written and misses when corrected |
| Intersections.RectangleInPlaneDefect | HW04/ScalingBug/src/intersectionTests.c:226-229 | a ray lying in the rectangle's plane is reported as a NaN hit as written; the corrected test misses |
| Intersections.IntersectRaySphere | HW04/ScalingBug/src/intersectionTests.c:249-281 | a hit is at p_intersectDelta < t < the old bound; a ray starting inside the sphere misses |
| Intersections.QuadraticHit | HW04/ScalingBug/src/intersectionTests.c:269-278 | a hit is the smaller root x0 of the solved quadratic, strictly between p_intersectDelta and the bound; whenever that root exists with a != 0 and lies in that range it is the hit; the larger root is never a candidate |
| Intersections.InsideCoefficients | HW04/ScalingBug/src/intersectionTests.c:254-278 | from inside the sphere the constant coefficient is negative and the root test misses |
| Intersections.OppositeSignRoots | HW04/ScalingBug/src/intersectionTests.c:270-271 | with a >= 0 and c < 0 the smaller root is negative and never accepted |
| Intersections.IntersectRayShape | HW04/ScalingBug/src/intersectionTests.c:398-411 | dispatch on the tag to the tests as written (the rectangle's h2-against-L1 test, its NaN hit read as a miss); an unknown tag misses and every hit is within the bound |
| Intersections.DispatchKeepsSecondExtentDefect | HW04/ScalingBug/src/intersectionTests.c:398-411 | the dispatch reports the 4 x 1 rectangle example as a hit at t = 1 at a point off the rectangle |
| Intersections.UpdatedNeverGrows | HW04/ScalingBug/src/intersectionTests.c:398-411 | the stored parameter never grows, and a miss leaves it unchanged |
| Intersections.IntersectPointGridCell | HW04/ScalingBug/src/intersectionTests.c:284-300 | true exactly when each coordinate lies in the half-open slab (lo + i delta, lo + (i + 1) delta] of the cell |
| Intersections.GridCellsDisjoint | HW04/ScalingBug/src/intersectionTests.c:284-300 | with positive cell sizes a point lies in at most one cell |
| Intersections.SlabDisjoint | HW04/ScalingBug/src/intersectionTests.c:290-291 | two half-open slabs holding the same coordinate have the same index |
| RayBox.FaceExit | HW04/ScalingBug/src/intersectionTests.c:310-351 | a face has a crossing parameter exactly when the direction points toward it (x > 0 for face 2, x < 0 for face 4, and so on) |
| RayBox.Improve | HW04/ScalingBug/src/intersectionTests.c:312-314 | one step of the running minimum: never grows, takes a positive candidate below it, and otherwise stays |
| RayBox.ExitTime | HW04/ScalingBug/src/intersectionTests.c:307-351 | mint lies in (0, 20000], is at most every crossing ahead of the start, and is 20000 or one of those crossings |
| RayBox.IntersectRayBox | HW04/ScalingBug/src/intersectionTests.c:302-396 | the returned mask is ExitFaces; the start moves to the point at mint exactly when the mask is non-zero, and is untouched otherwise |
| RayBox.ExitFacesAt | HW04/ScalingBug/src/intersectionTests.c:353-388 | the second pass sets exactly the bits of ExitFaces from mint |
| RayBox.ExitFaces | HW04/ScalingBug/src/intersectionTests.c:353-388 | the mask uses only the six face bits, and is zero exactly when no face is crossed ahead at the minimum parameter |
| RayBox.ExitFacesBits | HW04/ScalingBug/src/intersectionTests.c:353-388 | only bits 1..32 are used, and bit f is set exactly when face f is crossed ahead at the minimum parameter |
| RayBox.ExitFacesOneAxis | HW04/ScalingBug/src/intersectionTests.c:353-388 | the two bits of one axis (4/16, 8/2, 32/1) are never both set |
| RayBox.ExitFaceIsNearest | HW04/ScalingBug/src/intersectionTests.c:353-388 | a face whose bit is set is crossed at mint, no later than any face ahead |
| RayBox.ExitFacesNonEmpty | HW04/ScalingBug/src/intersectionTests.c:353-390 | the mask is non-zero exactly when some face is crossed ahead of the start within 20000 |
| Shapes.RawNormal | HW03/simpleRayTracer/src/shape.c:3-70 | the sphere's normal is v - pos; the triangle's is orthogonal to both edges; the rectangle's to both axes; the cone's is zero outside the band (p_projectDelta, H - p_projectDelta) and orthogonal to v - vertex; the cylinder's is v - c orthogonalised against the axis inside the band and zero outside; the disk's is its normal when the radial distance is below R - p_projectDelta and zero otherwise; an unknown tag gives zero |
| Shapes.ComputeNormal | HW03/simpleRayTracer/src/shape.c:72-78 | the normal is the raw normal normalised, or the raw normal itself when its length is 0; it is parallel to the raw normal, points the same way, and is zero when the raw one is |
| Shapes.Unitize | HW03/simpleRayTracer/src/shape.c:73-75 | scaling by the reciprocal length keeps a vector's direction and leaves a zero-length one as it is |
| Shapes.NormalZeroOutside | HW03/simpleRayTracer/src/shape.c:21-64 | outside the cone's or cylinder's axial band, away from the disk's inside, and for an unknown tag, the normal is the zero vector |
| Shapes.Rem2 | HW03/simpleRayTracer/src/shape.c:144 | C's % 2, whose remainder takes the sign of the dividend |
| Shapes.Xor | HW03/simpleRayTracer/src/shape.c:144 | for bits, ^ is 1 exactly when they differ |
| Shapes.CheckerIndexParity | HW03/simpleRayTracer/src/shape.c:141-146 | for non-negative cells the index is 2 exactly when i and j have the same parity, and 0 otherwise |
| Shapes.CheckerIndexFlips | HW03/simpleRayTracer/src/shape.c:141-146 | for non-negative cells the index is 0 or 2, and flipping the parity of i or of j switches it |
| Shapes.CheckerIndexNegative | HW03/simpleRayTracer/src/shape.c:141-146 | for cell -1 the truncating % gives the negative indices -4 and -2 |
| Shapes.CheckerIndex | HW03/simpleRayTracer/src/shape.c:141-146 | the index is one of -4, -2, 0 and 2, and 0 or 2 for non-negative cells |
| Shapes.ComputeMaterial | HW03/simpleRayTracer/src/shape.c:80-152 | a sphere, triangle, disk, cylinder or cone reads materials[s.material]; a rectangle reads the checkerboard entry; a lookup outside the table or an unknown tag gives none |
| Shapes.RectangleMaterialFound | HW03/simpleRayTracer/src/shape.c:125-147 | a rectangle point ahead of its lower corner selects material 0 or 2 |
| Projections.DistanceTo | HW05/simpleRayTracer/src/projectionTests.c:24 | the distance between two points is non-negative and zero from a point to itself |
| Projections.DistanceSymmetric | HW05/simpleRayTracer/src/projectionTests.c:110 | the distance from p to q equals the norm of p - q, the form the cone's apex branch returns |
| Projections.SideOffset | HW05/simpleRayTracer/src/projectionTests.c:16-20 | L clamp(x / L, -0.5, 0.5) is within half a side of 0, and is x itself when x already is |
| Projections.ProjectPointRectangle | HW05/simpleRayTracer/src/projectionTests.c:4-27 | the closest point is C + u A1 + v A2 with abs(u) <= abs(L1)/2 and abs(v) <= abs(L2)/2, and the returned distance is the distance to it |
| Projections.RectangleFixesItsPoints | HW05/simpleRayTracer/src/projectionTests.c:4-27 | with orthonormal axes a point of the rectangle projects to itself at distance 0 |
| Projections.DiskScale | HW05/simpleRayTracer/src/projectionTests.c:45-46 | the scale is in [0, 1], is 1 when the offset is within the radius, and otherwise shrinks it to exactly the radius |
| Projections.ProjectPointDisk | HW05/simpleRayTracer/src/projectionTests.c:31-55 | the closest point is the center plus the in-plane offset scaled by DiskScale, and the returned distance is the distance to it |
| Projections.DiskProjectionInPlane | HW05/simpleRayTracer/src/projectionTests.c:43-50 | with a unit normal the closest point lies in the disk's plane |
| Projections.DiskFixesItsPoints | HW05/simpleRayTracer/src/projectionTests.c:31-55 | with a unit normal a point of the disk projects to itself at distance 0 |
| Projections.RadialScale | HW05/simpleRayTracer/src/projectionTests.c:78-79 | the radial factor times (abs(d) + 1e-6) is R, so for R > 0 the closest point lies strictly inside radius R of the axis |
| Projections.ProjectPointCylinder | HW05/simpleRayTracer/src/projectionTests.c:61-87 | the axial coordinate is clamped to [0, H] and is (p - c).a when that already lies in [0, H]; the closest point is the axis point pushed out by the radial factor, and the distance is the distance to it |
| Projections.GeneratorSection | HW05/simpleRayTracer/src/projectionTests.c:108-134 | corrected regions: apex exactly when R r + H h < 0; otherwise the section lies on the finite generator, and before the rim the offset is perpendicular to it |
| Projections.GeneratorFoot | HW05/simpleRayTracer/src/projectionTests.c:129-133 | the foot (R s, H s) with s = t / (H^2 + R^2) lies on the generator between apex and rim |
| Projections.GeneratorSectionAsWritten | HW05/simpleRayTracer/src/projectionTests.c:108-134 | as written: apex exactly when h <= 0 and r < R abs(h) / H; the rim when r >= 2R - R h / H; otherwise the foot of the perpendicular on the infinite generator |
| Projections.ConeSectionDefect | HW05/simpleRayTracer/src/projectionTests.c:123 | for R = 2, H = 1 and (r, h) = (2.4, 0.5) the code as written returns the point at height 1.06, above the rim; the corrected section returns the rim |
| Projections.Mirrored | HW05/simpleRayTracer/src/projectionTests.c:113-118 | reflecting r < 0 into the right half-plane and back keeps abs(rI) and hI and puts rI on the side of r |
| Projections.ProjectPointCone | HW05/simpleRayTracer/src/projectionTests.c:90-150 | corrected regions: the apex region returns the vertex at distance abs(p - v); otherwise the frame point at the mirrored section, at the returned distance |
| Projections.ProjectPointConeAsWritten | HW05/simpleRayTracer/src/projectionTests.c:90-150 | as written: the projection is the frame-based one of ConeInFrameAsWritten, at the distance to its closest point |
| Projections.ConeInFrameAsWritten | HW05/simpleRayTracer/src/projectionTests.c:100-150 | outside the apex region the closest point is the frame point at the mirrored section of the regions as written; the distance is the distance to the closest point |
| Projections.ConeRegionsAsWritten | HW05/simpleRayTracer/src/projectionTests.c:105-125 | h <= 0 with abs(r) < R abs(h) / H returns the vertex at distance abs(p - v); outside it, abs(r) >= 2R - R h / H returns the rim point (+-R, H) |
| Projections.MirroredSectionAsWritten | HW05/simpleRayTracer/src/projectionTests.c:105-134 | the mirrored section as written is absent exactly in the apex region, and is the rim (+-R, H) beyond the rim divider |
| Projections.ApexRegionDiffers | HW05/simpleRayTracer/src/projectionTests.c:108 | for R = 2, H = 1, (r, h) = (0.5, -0.5) the code returns the vertex, while the perpendicular foot (0.2, 0.1) on the generator is nearer |
| Projections.MirroredSectionOnGenerator | HW05/simpleRayTracer/src/projectionTests.c:113-137 | for H > 0 and R >= 0 the mirrored section lies on the finite generator on the side of r |
| Projections.Weights | HW05/simpleRayTracer/src/projectionTests.c:174-184 | the weights sum to 1 and solve the normal equations |
| Projections.EdgeParameter | HW05/simpleRayTracer/src/projectionTests.c:204-210 | the edge parameter is clamped into [0, 1] |
| Projections.Nearest | HW05/simpleRayTracer/src/projectionTests.c:220-229 | the smallest of the three candidates, ties going to edge 0 and then edge 1 |
| Projections.EdgesOnTriangle | HW05/simpleRayTracer/src/projectionTests.c:212-214 | each clamped edge point is a point of the triangle with weights e and 1 - e on that edge |
| Projections.ProjectWithWeights | HW05/simpleRayTracer/src/projectionTests.c:186-234 | with non-negative weights the plane point; otherwise the nearest of the three clamped edge points; the distance is the distance to the chosen point |
| Projections.ProjectWithWeightsOnTriangle | HW05/simpleRayTracer/src/projectionTests.c:186-234 | whatever the weights, the chosen point lies on the closed triangle |
| Projections.ProjectPointTriangle | HW05/simpleRayTracer/src/projectionTests.c:155-235 | corrected projection (R1 = (v1 - v2).(p - v2)): the closest point lies on the triangle at the returned distance |
| Projections.ProjectPointTriangleAsWritten | HW05/simpleRayTracer/src/projectionTests.c:155-235 | with the sign-flipped second right-hand side the point still lies on the triangle |
| Projections.RightHandSides | HW05/simpleRayTracer/src/projectionTests.c:171-179 | the normal equations' right-hand sides of a plane point are (v0 - v2).(p - v2) and (v1 - v2).(p - v2), both with a plus sign |
| Projections.WeightsUnique | HW05/simpleRayTracer/src/projectionTests.c:181-184 | a non-singular Gram system has one solution |
| Projections.BarycentricOfPlanePoint | HW05/simpleRayTracer/src/projectionTests.c:171-184 | the corrected weights of a plane point are its own barycentric weights |
| Projections.TriangleFixesItsPoints | HW05/simpleRayTracer/src/projectionTests.c:155-196 | a point of a non-degenerate triangle projects to itself at distance 0 |
| Projections.RightTriangleWeights | HW05/simpleRayTracer/src/projectionTests.c:178-184 | for the right triangle (1,0,0), (0,1,0), (0,0,0) the weights as written of the midpoint (0, 0.5, 0) are (0, -0.5, 1.5) |
| Projections.RightTriangleFallback | HW05/simpleRayTracer/src/projectionTests.c:197-229 | with those weights the fallback returns an edge point other than the midpoint |
| Projections.FallbackMisses | HW05/simpleRayTracer/src/projectionTests.c:212-229 | when none of the three edge points is p, the fallback does not return p |
| Projections.TriangleWeightsDefect | HW05/simpleRayTracer/src/projectionTests.c:179 | the code as written projects the midpoint of an edge away from itself; the corrected projection returns it at distance 0 |
| Projections.ProjectPointShape | HW05/simpleRayTracer/src/projectionTests.c:238-249 | dispatch on the tag to the cone and triangle projections as written; a sphere or an unknown tag returns 1000000 and leaves the closest point; otherwise the distance is the distance to the closest point, and a triangle's closest point lies on the triangle |
| GridIndex.IdRange | HW04/ScalingBug/src/grid.c:342 | the flat id i + j NI + k NI NJ of a cell of the grid lies in [0, NI NJ NK) |
| GridIndex.IdInjective | HW04/ScalingBug/src/grid.c:342 | distinct cells have distinct flat ids |
| GridIndex.MembersSnoc | HW04/ScalingBug/src/grid.c:339-346 | one more entry adds its shape to the members of its own cell only |
| GridIndex.MembersAppend | HW04/ScalingBug/src/grid.c:339-346 | the members of a concatenation are the members of each part, in order |
| GridIndex.EntriesPrefix | HW04/ScalingBug/src/grid.c:327-347 | the entries of the first n shapes are a prefix of the entries of all shapes |
| GridIndex.EntriesSnoc | HW04/ScalingBug/src/grid.c:327-347 | shape n adds exactly the cells of its box, k outermost and i innermost |
| GridIndex.SumSnoc | HW04/ScalingBug/src/grid.c:316-318 | the prefix sum grows by one element per step |
| GridIndex.SumMonotone | HW04/ScalingBug/src/grid.c:313-321 | with non-negative counts the prefix sums never decrease |
| GridIndex.Scan | HW04/ScalingBug/src/grid.c:313-321 | scanv[n] is the sum of the first n counts for n in 0..N (so scanv[0] = 0 and scanv[n+1] = scanv[n] + v[n]), the total is scanv[N], and no other entry changes |
| GridIndex.Reboxed | HW04/ScalingBug/src/grid.c:329-330 | recomputing a shape's box keeps its id, geometry and material |
| GridIndex.Rebox | HW04/ScalingBug/src/grid.c:327-330 | every shape's box is recomputed and nothing else changes |
| GridIndex.ReboxIdempotent | HW04/ScalingBug/src/grid.c:327-330 | recomputing the boxes twice gives what recomputing once gives |
| GridIndex.ReboxedClamped | HW04/ScalingBug/src/grid.c:330-337 | a recomputed box's index range lies inside the grid |
| GridIndex.CountStep | HW04/ScalingBug/src/grid.c:342-343 | one increment counts one more entry for its own cell |
| GridIndex.CountShapesInCells | HW04/ScalingBug/src/grid.c:324-348 | every shape's box is overwritten, and each cell's count grows by the number of shapes whose index box covers it |
| GridIndex.CountBox | HW04/ScalingBug/src/grid.c:339-346 | the loops over one box count each of its cells once |
| GridIndex.CountPlane | HW04/ScalingBug/src/grid.c:340-345 | the loops over one plane of a box count each of its cells once |
| GridIndex.CountRow | HW04/ScalingBug/src/grid.c:341-344 | the loop over one row of a box counts each of its cells once |
| GridIndex.ScatterStep | HW04/ScalingBug/src/grid.c:371-372 | one write lands inside its cell's slice, below the next cell's start, and keeps every cell's written part equal to its members so far |
| GridIndex.ScatterCell | HW04/ScalingBug/src/grid.c:371-372 | after one write each cell's cursor is its start plus its member count and its written slice holds its members |
| GridIndex.AddShapesInCells | HW04/ScalingBug/src/grid.c:351-377 | afterwards every cursor equals the next cell's start and each cell's slice holds, in shape order, the ids of the shapes covering it |
| GridIndex.AddShape | HW04/ScalingBug/src/grid.c:353-376 | the writes of shape n extend the scattered state by that shape's cells |
| GridIndex.ScatterDone | HW04/ScalingBug/src/grid.c:351-377 | when every entry is written, each cursor has reached the next start: no gaps and no overlaps |
| GridIndex.AddBox | HW04/ScalingBug/src/grid.c:363-375 | the loops over one box write the shape id once into each of its cells |
| GridIndex.AddPlane | HW04/ScalingBug/src/grid.c:364-374 | the loops over one plane write the shape id once into each of its cells |
| GridIndex.AddRow | HW04/ScalingBug/src/grid.c:365-373 | the loop over one row writes the shape id once into each of its cells |
| GridIndex.Place | HW04/ScalingBug/src/grid.c:371-372 | boxContents[boxCounters[id]] = shape id followed by ++boxCounters[id] appends the id to its cell's slice |
| GridIndex.Grid.constructor | HW02/simpleRayTracer/simpleRayTracer.h:202-205 | a new grid keeps its geometry and cell boxes and has empty index arrays |
| GridIndex.Grid.Populate | HW04/ScalingBug/src/grid.c:379-410 | the index arrays are replaced by fresh ones in compressed-row form for the recomputed boxes, and every shape's box is recomputed |
| GridIndex.BuildIndex | HW04/ScalingBug/src/grid.c:386-409 | count, scan, copy and scatter give fresh starts and contents in compressed-row form; contents is as long as the scan total |
| GridIndex.CountAndScan | HW04/ScalingBug/src/grid.c:389-395 | the starts begin at 0, never decrease, end at the total, and cell c's gap is the number of shapes covering it |
| GridIndex.StartsLayout | HW04/ScalingBug/src/grid.c:393-395 | the scan of the counts starts at 0, is sorted, and gives each cell a gap equal to its count |
| GridIndex.Locate | HW04/ScalingBug/src/grid.c:393-405 | every position of contents belongs to exactly one cell's slice |
| GridIndex.StartsUnique | HW04/ScalingBug/src/grid.c:379-410 | two compressed-row layouts of the same entries have the same starts |
| GridIndex.CsrUnique | HW04/ScalingBug/src/grid.c:379-410 | two compressed-row layouts of the same entries are identical |
| GridIndex.RebuildIdempotent | HW04/ScalingBug/src/grid.c:379-410 | two rebuilds over the same shapes give identical starts and contents |
| GridIndex.MembersRow | HW04/ScalingBug/src/grid.c:341-343 | a row of a box enters the shape once into each of its cells and into no other |
| GridIndex.MembersPlane | HW04/ScalingBug/src/grid.c:340-345 | a plane of a box enters the shape once into each of its cells and into no other |
| GridIndex.MembersBlock | HW04/ScalingBug/src/grid.c:339-346 | a box enters the shape once into each of its cells and into no other |
| GridIndex.CellMembers | HW04/ScalingBug/src/grid.c:324-377 | the ids entered for cell (i, j, k) are the ids of the shapes whose index box covers it, in shape order |
| GridSearch.Shift | HW04/ScalingBug/src/grid.c:15-18 | moving the start onto a grid face sets that coordinate to the face and advances the other two by t0 times the direction |
| GridSearch.ShiftMonotone | HW04/ScalingBug/src/grid.c:13-59 | with t0 >= 0 a shift moves each other coordinate in the direction's sign only |
| GridSearch.StepParameter | HW04/ScalingBug/src/grid.c:15 | a start below the face moving up (or above it moving down) gets a positive t0 |
| GridSearch.StepKeepsBelow | HW04/ScalingBug/src/grid.c:13-59 | a start below a slab and not moving up stays below it through any later clip step |
| GridSearch.StepKeepsAbove | HW04/ScalingBug/src/grid.c:13-59 | a start above a slab and not moving down stays above it through any later clip step |
| GridSearch.ClipAwayFails | HW04/ScalingBug/src/grid.c:13-59 | a start outside the grid on one axis that points away or grazes on that axis is reported as a miss |
| GridSearch.ClipInside | HW04/ScalingBug/src/grid.c:13-59 | a start inside the grid's box is left where it is |
| GridSearch.ClipStart | HW04/ScalingBug/src/grid.c:13-60 | a start inside the grid box is kept; a projected start lies between the grid's z planes, the last axis projected |
| GridSearch.StartCell | HW04/ScalingBug/src/grid.c:63-65 | the clamped start cell always lies inside the grid |
| GridSearch.ScanBelowReset | HW04/ScalingBug/src/grid.c:76-90 | the parameter a cell scan leaves never exceeds the reset value 20000 |
| GridSearch.Scan | HW04/ScalingBug/src/grid.c:76-90 | the current shape after a cell scan is -1 or one of the cell's objects |
| GridSearch.LastAccepted | HW04/ScalingBug/src/grid.c:80-90 | the position of the last object hit inside the cell among the first n, -1 exactly when none is |
| GridSearch.AcceptedPrefix | HW04/ScalingBug/src/grid.c:80-90 | whether an object is accepted depends only on the objects listed before it |
| GridSearch.LastAcceptedPrefix | HW04/ScalingBug/src/grid.c:80-90 | the last accepted object among the first n' objects is the same in any longer prefix |
| GridSearch.ScanFound | HW04/ScalingBug/src/grid.c:80-90 | a cell reports the last accepted object of its list, and -1 when none is accepted |
| GridSearch.StaleParameter | HW04/ScalingBug/src/grid.c:83-88 | a later object hit nearer but outside the cell lowers t while the earlier object stays current, so t and currentShape can disagree |
| GridSearch.Probe | HW04/ScalingBug/src/grid.c:83 | testing any object never reports a hit beyond the bound it was given |
| GridSearch.CellScan | HW04/ScalingBug/src/grid.c:76-90 | a cell's scan leaves t <= 20000 and reports -1 or one of the cell's listed objects |
| GridSearch.CellObjects | HW04/ScalingBug/src/grid.c:78-81 | the objects of cell c are boxContents[boxStarts[c] .. boxStarts[c+1]) in order |
| GridSearch.CellIdOrder | HW04/ScalingBug/src/grid.c:74 | the search's cell id is the id the index was built with |
| GridSearch.ScanCell | HW04/ScalingBug/src/grid.c:74-90 | the loop over a cell's slice computes the cell's scan |
| GridSearch.RouteSnoc | HW04/ScalingBug/src/grid.c:97-111 | a route extended by an adjacent cell of the grid is still a route |
| GridSearch.ExitSigns | HW04/ScalingBug/src/grid.c:99-104 | the ray leaves a cell through a face only when its direction points across that face |
| GridSearch.SomeFace | HW04/ScalingBug/src/grid.c:99-106 | a non-zero six-bit face mask has at least one face bit set |
| GridSearch.StepAhead | HW04/ScalingBug/src/grid.c:97-111 | stepping through the exit faces moves to an adjacent cell and strictly lowers the distance left to the grid's far side, so the walk ends |
| GridSearch.Search | HW04/ScalingBug/src/grid.c:4-114 | a ray that misses or points away from the grid reports false and leaves t and the shape; otherwise the walk starts at the clamped start cell, each next cell is NextCell of the exit faces of the ray moved to the previous cell's exit point, every cell before the last reports no shape, the result is the last cell's scan, and a miss ends where no face is crossed or the next cell leaves the grid |
| GridSearch.MissedSnoc | HW04/ScalingBug/src/grid.c:92-94 | a cell that reports no shape extends the run of missed cells |
| GridSearch.MissedAll | HW04/ScalingBug/src/grid.c:73-111 | every cell of a missed run reports no shape |
| GridSearch.MissedBefore | HW04/ScalingBug/src/grid.c:73-111 | every cell before the last one on the path reports no shape |
| GridSearch.Walk | HW04/ScalingBug/src/grid.c:67-113 | the do-while walk from the start cell follows the face-bit trail (cell n + 1 is NextCell of the exit faces of ray n in cell n, ray n + 1 is ray n moved to its exit point), every cell but the last misses, the result is the last cell's scan, and false means no face is crossed or the next cell is outside the grid |
| GridSearch.WalkStep | HW04/ScalingBug/src/grid.c:73-111 | one pass: stopping gives the cell's scan, and a miss that stops leaves no face or a next cell outside the grid; otherwise the trail grows by the next cell and moved ray, and fewer cells lie ahead |
| GridSearch.WalkExtend | HW04/ScalingBug/src/grid.c:97-111 | one more face step keeps the route, the trail and the missed prefix |
| GridSearch.TrailSnoc | HW04/ScalingBug/src/grid.c:95-104 | appending NextCell of the exit faces and the ray moved to the exit point extends the trail |
| GridSearch.CrossCell | HW04/ScalingBug/src/grid.c:95-104 | the exit faces of the cell's box are computed, the ray start moves to the exit point, the new cell is NextCell of the mask, and a non-zero mask leads to an adjacent cell nearer the grid's far side |
| GridSearch.NextCell | HW04/ScalingBug/src/grid.c:97-102 | each index moves by at most one, and a mask with none of the six face bits leaves the cell where it is |
| GridSearch.StepCell | HW04/ScalingBug/src/grid.c:99-104 | each face bit moves the cell index by one along its axis |
| GridSearch.VisitScan | HW04/ScalingBug/src/grid.c:74-90 | visiting a cell leaves t <= 20000 |
| Trace.Offset | HW04/ScalingBug/src/grid.c:200-202 | the start offset is the shadow delta, reversed exactly when r.n > 0 |
| Trace.Illuminate | HW04/ScalingBug/src/grid.c:209-241 | the light loop adds, source by source, the Lambert term of every source in front of the surface and not shadowed within its distance |
| Trace.LightStep | HW04/ScalingBug/src/grid.c:209-241 | a source behind the surface, or one whose shadow search reports a shape at a parameter in [0, distance), leaves the colour unchanged; the colour changes only for a source in front at a positive distance |
| Trace.ReflectRay | HW04/ScalingBug/src/grid.c:246-259 | the reflected ray starts at the offset point, one level deeper, with the coefficient scaled by the material's reflection |
| Trace.Facing | HW04/ScalingBug/src/grid.c:280-284 | r.n is made non-positive by flipping its sign when it is positive |
| Trace.RefractRay | HW04/ScalingBug/src/grid.c:267-298 | a refracted ray exists exactly when kappa > 0 (with eta inverted on entry) and it starts at the opposite offset, one level deeper, with the same coefficient |
| Trace.Reflected | HW04/ScalingBug/src/grid.c:195-261 | a reflector queues one ray exactly when the level and stack capacity allow it, and only children of the ray |
| Trace.Refracted | HW04/ScalingBug/src/grid.c:265-300 | a refractor queues at most one child of the ray |
| Trace.Surface | HW04/ScalingBug/src/grid.c:169-301 | shading a hit only appends children of the ray to the queue |
| Trace.Visit | HW04/ScalingBug/src/grid.c:150-305 | processing one ray only appends children of it to the queue |
| Trace.Shade | HW04/ScalingBug/src/grid.c:147-305 | one iteration advances the ray id by one and only appends children of the ray it took |
| Trace.Run | HW04/ScalingBug/src/grid.c:147-305 | the loop ends with every queued ray processed or the stack full, never past its capacity; it only appends to the queue and only advances the ray id |
| Trace.GridTrace | HW04/ScalingBug/src/grid.c:116-309 | the colour and the queue of the stack loop are those of the trace of the primary ray, reset to level 0 with the given coefficient |
| Trace.Trace | HW04/ScalingBug/src/grid.c:116-309 | the trace starts from the primary ray reset to level 0, processes at least it, and ends with every queued ray processed or the stack full |
| Trace.ProcessRay | HW04/ScalingBug/src/grid.c:150-304 | one pass of the loop body leaves the colour and stack that visiting the ray gives |
| Trace.ShadeSurface | HW04/ScalingBug/src/grid.c:170-301 | shading the hit shape leaves the colour and stack that Surface gives |
| Trace.Push | HW04/ScalingBug/src/grid.c:257-259 | rayStack[Nrays] = ray then ++Nrays appends the ray and keeps the rays below |
| Trace.RunQueue | HW04/ScalingBug/src/grid.c:147-305 | the queue only grows at its end, every level stays in [0, p_maxLevel), and the ray id never moves back |
| Trace.TraceQueue | HW04/ScalingBug/src/grid.c:136-147 | the queue starts with the primary ray at level 0 and the given coefficient, stays within capacity, and ends drained or full |
| Trace.PrimaryMiss | HW04/ScalingBug/src/grid.c:159-166 | a primary ray that hits nothing gives the background colour and queues nothing |
| Trace.LaterMiss | HW04/ScalingBug/src/grid.c:159-166 | a secondary ray that hits nothing leaves the colour and queue as they were |
| Trace.SurfaceChildren | HW04/ScalingBug/src/grid.c:187-301 | an emitter queues nothing; a reflector with room queues first a ray with coefficient coef times reflection; any further ray is the refracted one, with the same coefficient and kappa > 0 |
| SphereDynamics.Frozen | HW04/Scaling/src/sphereDynamics.c:53-87 | the pass reads a shape with a sphere's pending velocity and force blanked: ids, boxes, materials, positions, radii and velocities are kept, and other shapes are kept whole |
| SphereDynamics.FrozenAll | HW04/Scaling/src/sphereDynamics.c:10-14 | the frozen scene is the scene with every shape frozen, same length |
| SphereDynamics.Approach | HW04/Scaling/src/sphereDynamics.c:61-62 | v.dX / (dist^2 + eps) has the sign of v.dX |
| SphereDynamics.DotReversed | HW04/Scaling/src/sphereDynamics.c:55 | reversing the separation negates its component along any velocity |
| SphereDynamics.ApproachOpposite | HW04/Scaling/src/sphereDynamics.c:61-62 | opposite components along a separation give opposite quotients |
| SphereDynamics.NegatedQuotient | HW04/Scaling/src/sphereDynamics.c:61-62 | negating the numerator negates the quotient by a positive denominator |
| SphereDynamics.ReverseApproach | HW04/Scaling/src/sphereDynamics.c:55-62 | swapping the two spheres keeps the distance and negates each quotient |
| SphereDynamics.PairSymmetric | HW04/Scaling/src/sphereDynamics.c:55-65 | touching and separating are symmetric in the two spheres, and their kicks on each other sum to zero |
| SphereDynamics.SeparatingSymmetric | HW04/Scaling/src/sphereDynamics.c:61-65 | the diverging test gives the same answer from either sphere |
| SphereDynamics.ImpulseOpposite | HW04/Scaling/src/sphereDynamics.c:109-113 | the kick a gets from b and the kick b gets from a sum to zero |
| SphereDynamics.ClosingSymmetric | HW04/Scaling/src/sphereDynamics.c:109 | the closing rate vdotdX2 - vdotdX1 is the same from either sphere |
| SphereDynamics.OppositeScaled | HW04/Scaling/src/sphereDynamics.c:113 | equal factors on opposite separations cancel |
| SphereDynamics.LookMeaning | HW04/Scaling/src/sphereDynamics.c:50-87 | a candidate is a recordable contact exactly when it is another sphere that touches and does not diverge, and a penetration candidate exactly when it is a non-sphere nearer than the radius, at the projection distance |
| SphereDynamics.Look | HW04/Scaling/src/sphereDynamics.c:50-87 | a candidate is seen as a sphere exactly when it is another sphere of the scene, and as a solid exactly when it is another projectable non-sphere, at a non-negative depth for a tagged one |
| SphereDynamics.Depth | HW04/Scaling/src/sphereDynamics.c:80-81 | for a shape with a projection, the distance from the sphere's centre to its closest point; 1000000 for a sphere or an untagged shape |
| SphereDynamics.Step | HW04/Scaling/src/sphereDynamics.c:50-87 | one candidate only appends itself (once, within p_maxNcollisions) to the recorded ids, never raises mindist, and becomes the nearest shape only by lowering mindist below the radius |
| SphereDynamics.Scan | HW04/Scaling/src/sphereDynamics.c:45-87 | the scan only appends to the recorded ids, at most one per candidate, and never raises mindist |
| SphereDynamics.ScanFromCandidates | HW04/Scaling/src/sphereDynamics.c:45-87 | every id the scan appends, and a changed nearest shape, comes from the candidates |
| SphereDynamics.ScanConsistent | HW04/Scaling/src/sphereDynamics.c:45-87 | the scan keeps the recorded ids distinct contacts, within p_maxNcollisions, and the nearest non-sphere a penetration at distance mindist |
| SphereDynamics.ScanAppend | HW04/Scaling/src/sphereDynamics.c:36-47 | scanning two lists one after the other is scanning their concatenation |
| SphereDynamics.ScanSelf | HW04/Scaling/src/sphereDynamics.c:50 | the sphere itself, wherever it is listed, changes nothing |
| SphereDynamics.FirstIndex | HW04/Scaling/src/sphereDynamics.c:36-47 | the first position of x in a list, the length when x is absent |
| SphereDynamics.FirstIndexSnoc | HW04/Scaling/src/sphereDynamics.c:36-47 | appending keeps the first position of an element already present |
| SphereDynamics.ScanNearest | HW04/Scaling/src/sphereDynamics.c:77-87 | no non-sphere is selected exactly when none penetrates (mindist stays 1e9); otherwise the selected one is the nearest to the centre of all penetrating candidates, and strictly nearer than every penetrating candidate listed before its first appearance |
| SphereDynamics.ScanContacts | HW04/Scaling/src/sphereDynamics.c:53-76 | every recorded id is a listed contact, and every listed contact is recorded unless the buffer of p_maxNcollisions is full |
| SphereDynamics.ConsistentMeaning | HW04/Scaling/src/sphereDynamics.c:45-87 | a consistent result records only in-scene sphere contacts and a penetrating non-sphere at its projection distance |
| SphereDynamics.KicksRecorded | HW04/Scaling/src/sphereDynamics.c:95-116 | over recorded contacts the diverging guard never skips, so the velocity is the old one plus the sum of the pair kicks |
| SphereDynamics.Kicks | HW04/Scaling/src/sphereDynamics.c:95-116 | when every recorded sphere separates, the velocity is unchanged |
| SphereDynamics.Rebound | HW04/Scaling/src/sphereDynamics.c:134-141 | for a unit normal and an unchanged velocity the normal component becomes (1 - 1.8) times the old one; a velocity along the surface is kept |
| SphereDynamics.Bounce | HW04/Scaling/src/sphereDynamics.c:118-150 | a shape no nearer than the radius leaves velocity and gravity; a nearer one projects gravity onto the surface and rebounds the velocity only when the sphere moves toward it |
| SphereDynamics.Collided | HW04/Scaling/src/sphereDynamics.c:14-152 | the pass changes only the pending velocity and force of a sphere, and nothing of any other shape |
| SphereDynamics.Advanced | HW04/Scaling/src/sphereDynamics.c:163-178 | a sphere moves by dt times its new velocity and its velocity becomes the new velocity plus dt times the force; nothing else changes |
| SphereDynamics.FreeFlight | HW04/Scaling/src/sphereDynamics.c:10-178 | a sphere whose cells list only itself flies free: next velocity is its velocity, force is gravity, then position and velocity advance by dt |
| SphereDynamics.LookFrozen | HW04/Scaling/src/sphereDynamics.c:47-87 | what a sphere sees of a candidate depends only on the frozen scene |
| SphereDynamics.ScanAgree | HW04/Scaling/src/sphereDynamics.c:45-87 | two sightings agreeing on every candidate give the same scan |
| SphereDynamics.ScanFrozen | HW04/Scaling/src/sphereDynamics.c:36-92 | the scan over the live scene equals the scan over the frozen scene |
| SphereDynamics.FindRecorded | HW04/Scaling/src/sphereDynamics.c:68-70 | the search stops at the first recorded copy of the id, or at the count when there is none |
| SphereDynamics.GatherCell | HW04/Scaling/src/sphereDynamics.c:40-89 | one cell's offset loop scans its slice of boxContents onto the running state |
| SphereDynamics.CellIndex | HW04/Scaling/src/sphereDynamics.c:40-42 | the cell id of a cell inside the grid indexes its slice of the index |
| SphereDynamics.GatherRow | HW04/Scaling/src/sphereDynamics.c:38-89 | the i loop scans the cells of one row of the box in order |
| SphereDynamics.GatherNextCell | HW04/Scaling/src/sphereDynamics.c:38-89 | one pass of the i loop extends the row's scan by one cell |
| SphereDynamics.GatherPlane | HW04/Scaling/src/sphereDynamics.c:37-90 | the j loop scans the rows of one plane of the box in order |
| SphereDynamics.GatherNextRow | HW04/Scaling/src/sphereDynamics.c:37-90 | one pass of the j loop extends the plane's scan by one row |
| SphereDynamics.GatherBlock | HW04/Scaling/src/sphereDynamics.c:36-92 | the k loop scans the planes of the box in order |
| SphereDynamics.GatherNextPlane | HW04/Scaling/src/sphereDynamics.c:36-92 | one pass of the k loop extends the box's scan by one plane |
| SphereDynamics.Snapshotted | HW04/Scaling/src/sphereDynamics.c:40-46 | a built index lists, for every cell, the slice the search reads |
| SphereDynamics.ApplyKicks | HW04/Scaling/src/sphereDynamics.c:95-116 | the collide loop gives the old velocity plus the kick of every recorded sphere that is not diverging |
| SphereDynamics.ApplyBounce | HW04/Scaling/src/sphereDynamics.c:118-150 | the response to the nearest non-sphere is its bounce, and velocity with plain gravity when there is none |
| SphereDynamics.GatherNeighbours | HW04/Scaling/src/sphereDynamics.c:21-92 | the cell loops give the scan of the candidates of the sphere's box; the ids are in-scene sphere contacts and the nearest id, if any, is a non-sphere |
| SphereDynamics.GatherMeaning | HW04/Scaling/src/sphereDynamics.c:21-92 | the scan over the live scene records sphere contacts of the frozen scene and a non-sphere as the nearest shape |
| SphereDynamics.GatherCandidates | HW04/Scaling/src/sphereDynamics.c:28-92 | starting from no contacts, no nearest shape and mindist 1e9, the loops give the scan of every listed candidate in k, j, i, offset order |
| SphereDynamics.CollideSphere | HW04/Scaling/src/sphereDynamics.c:14-152 | handling one sphere replaces it by its collided form and changes no other shape |
| SphereDynamics.SphereCollisions | HW04/Scaling/src/sphereDynamics.c:3-155 | every shape becomes its collided form computed on the scene as it was, and nothing the pass reads changes |
| SphereDynamics.SphereUpdates | HW04/Scaling/src/sphereDynamics.c:157-179 | every shape becomes its advanced form |
| SceneSetup.DrandRange | HW02/simpleRayTracer/src/sceneSetup.c:3-6 | dmin + u (dmax - dmin) with u in [0, 1) lies in [dmin, dmax), and is dmin when the range is empty |
| SceneSetup.ShareBelow | HW02/simpleRayTracer/src/sceneSetup.c:3-6 | a fraction in [0, 1) of a non-negative width is at most the width, and below it when the width is positive |
| SceneSetup.BaseMaterial | HW02/simpleRayTracer/src/sceneSetup.c:24-34 | material 0 is white, a pure reflector with reflection 1, eta 1 and no refraction |
| SceneSetup.RandomMaterial | HW02/simpleRayTracer/src/sceneSetup.c:37-61 | a drawn material has eta 2, is never an emitter, refracts (0.9) exactly when the second draw exceeds 0.5, reflects when the first draw exceeds 0.5 (0.9) or as the fallback, and has pastel channels in [0.125, 0.8) |
| SceneSetup.MaterialTable | HW02/simpleRayTracer/src/sceneSetup.c:21-61 | the table holds Nmaterials entries: the base material, then one drawn material per draw in order |
| SceneSetup.EveryMaterialBounces | HW02/simpleRayTracer/src/sceneSetup.c:21-61 | every material of the table reflects or refracts, none emits, and eta is 1 or 2 |
| SceneSetup.DefaultedReflectorDefect | HW02/simpleRayTracer/src/sceneSetup.c:49-60 | a material that draws neither flag becomes a reflector whose reflection stays 0, so its reflected rays carry nothing |
| SceneSetup.SetupMaterials | HW02/simpleRayTracer/src/sceneSetup.c:21-61 | the array filled by the material loop is the material table |
| SceneSetup.MaterialIndexOf | HW02/simpleRayTracer/src/sceneSetup.c:125 | 1 + (Nmaterials - 2) u truncated lies in [1, Nmaterials - 2] |
| SceneSetup.Nshapes | HW02/simpleRayTracer/src/sceneSetup.c:68-74 | the table size is Nspheres + Nbunny T + Ncones + 3 Ncylinders + Nrectangles |
| SceneSetup.Placed | HW02/simpleRayTracer/src/sceneSetup.c:89-96 | a bunny vertex is scaled by 0.2 toward the floor y = L and shifted in x and z |
| SceneSetup.BunnyTriangle | HW02/simpleRayTracer/src/sceneSetup.c:85-102 | a bunny triangle keeps its id, has material 10, and every vertex is scaled by 0.2 toward the floor |
| SceneSetup.Cap | HW02/simpleRayTracer/src/sceneSetup.c:180-198 | the first end disk sits at the cylinder's centre facing along the axis; the second at centre plus height times axis facing back; both as wide as the cylinder |
| SceneSetup.ConeAt | HW02/simpleRayTracer/src/sceneSetup.c:112-128 | a cone hangs from the floor y = L along (0, -1, 0) with radius in [140, 180), height in [280, 320) and a material in 1..62 |
| SceneSetup.SphereAt | HW02/simpleRayTracer/src/sceneSetup.c:133-154 | a sphere starts at rest with radius in [35, 55); above its cone it shares the vertex's x and z; the drop only raises it |
| SceneSetup.Tube | HW02/simpleRayTracer/src/sceneSetup.c:159-171 | a cylinder stands on the floor (centre at L - height) along (0, cos, sin) with height in [380, 420) and radius in [100, 110) |
| SceneSetup.GroundFromCorners | HW02/simpleRayTracer/src/sceneSetup.c:203-222 | the ground square is centred at the mean of its four corners, with axes the normalised edges d - a and b - a and lengths those edges' lengths |
| SceneSetup.GroundSquare | HW02/simpleRayTracer/src/sceneSetup.c:202-222 | the ground square lies in the plane y = side with both lengths side (its axes and centre come from the corners, GroundFromCorners) |
| SceneSetup.ShapeAt | HW02/simpleRayTracer/src/sceneSetup.c:78-222 | every slot of the table carries its own index as id |
| SceneSetup.SolidAt | HW02/simpleRayTracer/src/sceneSetup.c:78-200 | every slot before the ground carries its own index as id |
| SceneSetup.Layout | HW02/simpleRayTracer/src/sceneSetup.c:74-222 | the shape table has Nshapes entries and slot n holds the shape built for n |
| SceneSetup.BunnyDigits | HW02/simpleRayTracer/src/sceneSetup.c:80-103 | a bunny slot n splits into copy n / T and triangle n % T |
| SceneSetup.SlotDigits | HW02/simpleRayTracer/src/sceneSetup.c:80-103 | slot b T + i is triangle i of copy b |
| SceneSetup.Extend | HW02/simpleRayTracer/src/sceneSetup.c:78-200 | writing slot cnt with its shape extends the prefix built so far by one |
| SceneSetup.Completed | HW02/simpleRayTracer/src/sceneSetup.c:74-222 | a table built up to the ground, with the ground written, is the whole layout |
| SceneSetup.BunnySlot | HW02/simpleRayTracer/src/sceneSetup.c:80-103 | slot b T + i holds triangle i of the model placed for copy b |
| SceneSetup.CylinderSlot | HW02/simpleRayTracer/src/sceneSetup.c:159-200 | slot CylinderBase + 3 i + p holds part p of cylinder i (the tube, then the near disk, then the far disk) |
| SceneSetup.AddBunnies | HW02/simpleRayTracer/src/sceneSetup.c:79-104 | the bunny loops fill the first Nbunny T slots |
| SceneSetup.AddBunny | HW02/simpleRayTracer/src/sceneSetup.c:81-103 | one copy of the bunny fills its T slots |
| SceneSetup.AddCones | HW02/simpleRayTracer/src/sceneSetup.c:112-130 | the cone loop fills the next Ncones slots |
| SceneSetup.AddSpheres | HW02/simpleRayTracer/src/sceneSetup.c:133-156 | the sphere loop fills the next Nspheres slots |
| SceneSetup.AddCylinders | HW02/simpleRayTracer/src/sceneSetup.c:159-200 | the cylinder loop fills the next 3 Ncylinders slots |
| SceneSetup.AddGround | HW02/simpleRayTracer/src/sceneSetup.c:203-222 | the ground goes in the last slot and nothing before it changes |
| SceneSetup.SetupShapes | HW02/simpleRayTracer/src/sceneSetup.c:74-222 | the array filled by the shape loops is the layout |
| SceneSetup.CylinderCaps | HW02/simpleRayTracer/src/sceneSetup.c:159-200 | each cylinder is followed by its near and far end disks, as wide as it, with material 10 |
| SceneSetup.SpheresOverCones | HW02/simpleRayTracer/src/sceneSetup.c:137-140 | sphere i < Ncones sits above cone i, at the cone vertex's x and z |
| SceneSetup.SpheresAtRest | HW02/simpleRayTracer/src/sceneSetup.c:148-149 | every sphere starts with zero velocity, next velocity and force |
| SceneSetup.MaterialsInTable | HW02/simpleRayTracer/src/sceneSetup.c:99-218 | every shape's material indexes the material table |
| SceneSetup.EveryShapeTagged | HW02/simpleRayTracer/src/sceneSetup.c:100-219 | the shape type of each slot is TRIANGLE, CONE, SPHERE, CYLINDER, DISK or RECTANGLE exactly by the block it lies in |
| SceneSetup.SceneGridShape | HW02/simpleRayTracer/src/sceneSetup.c:264-283 | the grid spans [-100, L + 100] in each direction in 151 cells, and dx invdx = 1 |
| SceneSetup.CellOf | HW02/simpleRayTracer/src/sceneSetup.c:286-289 | a flat id in range names exactly one cell inside the grid |
| SceneSetup.CellDigits | HW02/simpleRayTracer/src/sceneSetup.c:289 | a flat id splits into i, j, k digits that give the id back |
| SceneSetup.BoxStep | HW02/simpleRayTracer/src/sceneSetup.c:289-295 | writing one cell's box extends the boxed prefix by one id |
| SceneSetup.EveryCellBoxed | HW02/simpleRayTracer/src/sceneSetup.c:286-298 | after the loops every cell's box is its own slab product |
| SceneSetup.FillCellBoxes | HW02/simpleRayTracer/src/sceneSetup.c:285-298 | the k loop boxes every cell |
| SceneSetup.FillPlane | HW02/simpleRayTracer/src/sceneSetup.c:287-297 | the j loop boxes one plane of cells |
| SceneSetup.FillRow | HW02/simpleRayTracer/src/sceneSetup.c:288-296 | the i loop boxes one row of cells |
| SceneSetup.SetupGrid | HW02/simpleRayTracer/src/sceneSetup.c:264-298 | a fresh grid with the scene's geometry whose cell (i, j, k) has box [i dx + xmin, (i + 1) dx + xmin] and so on |
| SceneSetup.CellsShareFaces | HW02/simpleRayTracer/src/sceneSetup.c:290-295 | neighbouring cells' boxes share their faces: no gaps between cells |
| SceneSetup.CellIndexInsideCell | HW02/simpleRayTracer/src/sceneSetup.c:290-291 | a point inside cell i's x slab is mapped back to index i |
| SceneSetup.SceneLights | HW02/simpleRayTracer/src/sceneSetup.c:225-261 | five lights, each with blue intensity 1 and 0 < red <= green <= blue |
| SceneSetup.Setup | HW02/simpleRayTracer/src/sceneSetup.c:16-311 | the scene holds the material table, the shape layout, the five lights and the boxed grid |
| Interpolation.PixelInRange | HW06/OpenMP-Example/src/render2.c:134-136 | the three bytes of pixel (I, R) lie inside an NI x NJ x 3 image |
| Interpolation.PixelInjective | HW06/OpenMP-Example/src/render2.c:134-136 | distinct pixels have distinct offsets |
| Interpolation.Pixel | HW06/OpenMP-Example/src/render2.c:134-136 | a pixel read from the image has byte channels |
| Interpolation.Put | HW06/OpenMP-Example/src/render2.c:184-186 | writing pixel (I, R) sets it to the colour and leaves every other pixel unchanged |
| Interpolation.DownRow | HW06/OpenMP-Example/src/render2.c:166-170 | the corrected lower neighbour of image row J is memory row NJ - 2 - J, present exactly when that row exists |
| Interpolation.UpRow | HW06/OpenMP-Example/src/render2.c:171-175 | the corrected upper neighbour of image row J is memory row NJ - J, present exactly when that row exists |
| Interpolation.DownRowAsWritten | HW06/OpenMP-Example/src/render2.c:166-170 | as written, the read guarded by J < NJ - 1 is of memory row NJ - J, which is row NJ, past the image, for J = 0 |
| Interpolation.UpRowAsWritten | HW06/OpenMP-Example/src/render2.c:171-175 | as written, the read guarded by J > 0 is of memory row NJ - 2 - J, which is row -1, before the image, for J = NJ - 1 |
| Interpolation.VerticalReadDefect | HW06/OpenMP-Example/src/render2.c:166-175 | in a two-row image the written guards let through reads of rows 2 and -1 |
| Interpolation.AsWrittenInterior | HW06/OpenMP-Example/src/render2.c:166-175 | on interior rows the written reads fetch the corrected neighbours, with up and down swapped |
| Interpolation.VerticalNeighbour | HW06/OpenMP-Example/src/render2.c:140-175 | a neighbour that is present is read from the image, an absent one is black; either way bytes |
| Interpolation.Neighbours | HW06/OpenMP-Example/src/render2.c:140-175 | the four neighbours left, right, down and up are byte colours |
| Interpolation.Nnz | HW06/OpenMP-Example/src/render2.c:177-181 | nnz counts the lit neighbours, 0 to 4, and is 0 exactly when all four are black |
| Interpolation.ChannelSumBound | HW06/OpenMP-Example/src/render2.c:184-186 | each channel sum of four neighbours is between 0 and 255 times the number lit |
| Interpolation.Mean | HW06/OpenMP-Example/src/render2.c:184-186 | C's division of the sum by nnz is the floor of the mean and fits a byte |
| Interpolation.Average | HW06/OpenMP-Example/src/render2.c:177-186 | there is no average exactly when all four neighbours are black; otherwise each channel is the floor mean over the nnz lit neighbours |
| Interpolation.NewPixel | HW06/OpenMP-Example/src/render2.c:134-186 | a lit pixel is kept, a black pixel with all neighbours black stays black, any other black pixel becomes the average of its neighbours |
| Interpolation.PixelStep | HW06/OpenMP-Example/src/render2.c:133-186 | one inner iteration writes the new value of its own pixel |
| Interpolation.PixelStepFrame | HW06/OpenMP-Example/src/render2.c:133-186 | one inner iteration changes no other pixel |
| Interpolation.PixelStepLit | HW06/OpenMP-Example/src/render2.c:138 | a lit pixel is skipped and the image is unchanged |
| Interpolation.PixelStepIdle | HW06/OpenMP-Example/src/render2.c:182 | a black pixel with no lit neighbour leaves the image unchanged |
| Interpolation.PixelStepWrites | HW06/OpenMP-Example/src/render2.c:184-186 | a black pixel with a lit neighbour is overwritten by the average |
| Interpolation.SweepRow | HW06/OpenMP-Example/src/render2.c:132-187 | sweeping a row keeps the image size |
| Interpolation.Sweep | HW06/OpenMP-Example/src/render2.c:131-188 | sweeping rows keeps the image size |
| Interpolation.Interpolated | HW06/OpenMP-Example/src/render2.c:128-189 | the interpolated image has the original size |
| Interpolation.Before | HW06/OpenMP-Example/src/render2.c:128-189 | the image just before pixel (I, J) is visited has the original size |
| Interpolation.SweepRowFrame | HW06/OpenMP-Example/src/render2.c:132-187 | a row sweep touches only its own row, and only the pixels already passed |
| Interpolation.SweepRowLater | HW06/OpenMP-Example/src/render2.c:132-187 | a pixel of the row is final once the sweep has passed it |
| Interpolation.SweepFrame | HW06/OpenMP-Example/src/render2.c:131-188 | the sweep has not touched rows it has not reached |
| Interpolation.SweepLater | HW06/OpenMP-Example/src/render2.c:131-188 | a row is final once the sweep has passed it |
| Interpolation.FinalPixel | HW06/OpenMP-Example/src/render2.c:128-189 | each pixel is written only at its own visit, with the value computed from the image as it then is |
| Interpolation.LitPixelKept | HW06/OpenMP-Example/src/render2.c:138 | a pixel that starts lit ends unchanged |
| Interpolation.BlackPixelFilled | HW06/OpenMP-Example/src/render2.c:138-186 | a pixel that starts black ends black when its neighbours at its visit are all black, and their average otherwise |
| Interpolation.SweepOrder | HW06/OpenMP-Example/src/render2.c:131-175 | at a pixel's visit the left and previous-row neighbours already hold their final values, and the right and next-row neighbours still hold their original ones |
| Interpolation.InterpolatePixel | HW06/OpenMP-Example/src/render2.c:134-186 | the corrected loop body performs one pixel step |
| Interpolation.InterpolatePixelAsWritten | HW06/OpenMP-Example/src/render2.c:134-186 | the body as written performs the same step wherever its reads stay inside the image |
| Interpolation.Gather | HW06/OpenMP-Example/src/render2.c:140-175 | the corrected reads give the four neighbours |
| Interpolation.GatherAsWritten | HW06/OpenMP-Example/src/render2.c:140-175 | on interior rows the written reads give the four neighbours with up and down exchanged |
| Interpolation.CountLit | HW06/OpenMP-Example/src/render2.c:177-181 | the decrements leave the number of lit neighbours |
| Interpolation.Fill | HW06/OpenMP-Example/src/render2.c:184-186 | the three writes store the average of the neighbours in the pixel |
| Interpolation.WritePixel | HW06/OpenMP-Example/src/render2.c:184-186 | three byte writes store the colour in the pixel |
| Interpolation.InterpolateRow | HW06/OpenMP-Example/src/render2.c:132-187 | the I loop performs the row sweep |
| Interpolation.Interpolate | HW06/OpenMP-Example/src/render2.c:128-189 | the in-place loops produce the interpolated image |

## Left out

- Floating point: `dfloat` is modelled as `real`, so rounding, overflow and single-precision constants are not captured. Division by zero is modelled only where the code reaches it on a degenerate input: the rectangle's NaN hit, and the misses of the sphere, cylinder, cone and triangle tests when their leading coefficient or determinant is zero.
- Utils.Sqrt: the square root is the upper end of a 60-step bisection bracket, not the exact root. It is never below the root, zero exactly at zero, and within the bracket width of the root (`Utils.SqrtNear`). Norms, normalisation and distances inherit this.
- Utils.Normalize: no proof that a normalised vector has length 1 (it would need the exact root). Normals are stated as the scaled raw normal or zero.
- Projections.ProjectPointShape: callers are required to pass a projectable shape: rectangles with non-zero lengths, cones with non-zero height, non-degenerate triangles. The C code divides by zero on the others, producing NaN or infinite distances, and these are not modelled. `SphereDynamics.Collidable` carries the same requirement for a whole scene.
- Shapes.ComputeMaterial: the rectangle checkerboard requires non-zero lengths (the C code divides by them). An index outside the table, which the C code reads out of bounds, gives no material.
- SphereDynamics.ScanNearest: the statement about the chosen shape assumes the sight of index -1 is the sphere itself. The pass never looks at -1; the assumption only lets the lemma name the "no shape" result.
- SphereDynamics.SphereCollisions: the C loop writes `newVelocity` into the shape and updates it there. The model accumulates it in a local and writes the shape once. The pass never reads a pending velocity, so the final state is the same (`SphereDynamics.ScanFrozen`, `SphereDynamics.LookFrozen`). The unused `dt` argument is dropped, and so are `sphereUpdates`' unused `grid` and `g`.
- SphereDynamics.Look: a candidate index outside the scene, or a shape that cannot be projected on, is passed over. The C code would read out of bounds; a built grid never lists such an index.
- Trace.GridTrace: the primary ray's search and the shadow search are calls to `Oracles.search`. Their agreement with `GridSearch.Search` is not stated in one theorem.
- Trace.GridTrace: the `level` argument is accepted and ignored, as in the source.
- Trace.RefractRay: the refracted direction is computed, with the bisection square root and normalisation. Its contract states only the existence condition `kappa > 0` and the child's start, level and coefficient, not the direction.
- Intersections.IntersectRayShape: the rectangle test's NaN outcome, for a ray lying in the rectangle's plane, is read as a miss. In C the NaN parameter is stored; every comparison with NaN is false, so `intersectPointGridCell` accepts the NaN point in any cell and the grid search would report that rectangle. The model carries no NaN parameter past the rectangle test (`Intersections.RectangleInPlaneDefect` states the outcome itself).
- Projections: the closest points are not proved geometrically nearest. The model states the clamps, the region choices, the edge fallback's order and the distances.
- Intersections: hits are not proved geometrically correct beyond the stated parameter bounds and the point conditions listed in the table.
- SphereDynamics.Depth: the collision pass hands `projectPointShape` an uninitialised `closest`. The model passes the zero vector. It is returned unchanged only for spheres and unknown tags, which the pass never projects on.
- Scene and animation driver (`simpleRayTracer.c`), camera, sensor and pixel mapping (`render.c`, `sensor.c`, `renderKernel2`): these use cos/sin and thread scheduling and are not part of this model.
- `drand48`, `cos` and `sin` in the scene setup are parameters with stated ranges. The bunny model read by `readPlyModel` is a parameter. The ground rectangle's lengths are written as the exact side `L` rather than computed with `vectorNorm`, and `SceneSetup.GroundFromCorners` shows they are the edges' lengths.
- File I/O (`readPlyModel`, `saveppm`), the wall-clock timers in `utils.c` and `printf` are not modelled.
- Memory management in `gridPopulate` (`free`, `calloc`, `memcpy`) becomes fresh Dafny arrays. The zero-filling of `calloc` is stated as the starting state.
- The earlier HW01 and HW02 revisions of the intersection tests, and HW06's copy of the scene setup, are not modelled separately.

## Findings

The dispatchers `Intersections.IntersectRayShape` and `Projections.ProjectPointShape` run the code as written, so the grid search, the trace engine and the collision pass model the program as it is. Each corrected member stands beside its as-written one with the intended property proved about it.

| source | as written | input that shows it | evidently intended | confidence | as-written member | corrected member |
|---|---|---|---|---|---|---|
| HW04/ScalingBug/src/intersectionTests.c:238 | the second in-plane offset `h2` is checked against `[0, L1]`, the first length | a ray straight down onto a 4 x 1 rectangle at 1.5 off centre along the short axis is reported as a hit at t = 1 | `h2` checked against `[0, L2]` | not executed | Intersections.RectangleSecondExtentExample | Intersections.IntersectRayRectangle |
| HW04/ScalingBug/src/intersectionTests.c:226-229 | `t0` divides by `d.n` with no guard | a ray lying in the rectangle's plane gives 0/0, which passes every comparison and is reported as a hit | a ray parallel to the plane misses | not executed | Intersections.RectangleInPlaneDefect | Intersections.IntersectRayRectangle |
| HW06/OpenMP-Example/src/render2.c:166-175 | the guard `J < NJ - 1` reads memory row `NJ - J`; the guard `J > 0` reads row `NJ - 2 - J` | NJ = 2: J = 0 reads row 2, past the image, and J = 1 reads row -1, before it | each guard reads the neighbour it checks for, rows `NJ - 2 - J` and `NJ - J` | not executed | Interpolation.VerticalReadDefect | Interpolation.Interpolate |
| HW05/simpleRayTracer/src/projectionTests.c:123 | the rim region is `r >= 2R - R h / H`, exact only when R = H | R = 2, H = 1, (r, h) = (2.4, 0.5) projects to height 1.06, above the rim at height 1 | the regions split where the perpendicular foot leaves the finite generator, `R r + H h` against 0 and `H^2 + R^2` | not executed | Projections.ConeSectionDefect | Projections.GeneratorSection |
| HW05/simpleRayTracer/src/projectionTests.c:179 | the second right-hand side is `-(v1 - v2).(p - v2)` | the midpoint of edge v1v2 of a right triangle gets weights (0, -0.5, 1.5) and is projected away from itself | `R1 = (v1 - v2).(p - v2)`, so a point of the triangle is its own projection | not executed | Projections.TriangleWeightsDefect | Projections.ProjectPointTriangle |
| HW04/ScalingBug/src/intersectionTests.c:131-150 | the "behind us" test `-b + sqrt(disc) < 0` and the near-root test `-b > sqrt(disc)` look only at the numerators of the roots, which keeps negative roots out only when a > 0 | a ray from (0.1, 0.5, 0) up the axis +y of the cone with apex 0 and R = H = 1 gives a = -1, and a root near t = -0.4, behind the start, is reported as a hit | a root is taken only at t >= 0, the nearer qualifying one first | not executed | Intersections.AxialRootsBehindStart | Intersections.IntersectRayConeAhead |
| HW05/simpleRayTracer/src/projectionTests.c:108 | the apex region is `h <= 0` and `abs(r) < R abs(h) / H`, where the perpendicular foot falls before the apex only when R = H | R = 2, H = 1, (r, h) = (0.5, -0.5) is sent to the vertex, while the foot (0.2, 0.1) on the generator is nearer | the apex region is `R r + H h < 0`, where the foot falls before the apex | not executed | Projections.ApexRegionDiffers | Projections.GeneratorSection |
