/** Axis-aligned bounding boxes of the primitives and the range of grid cells a shape's
    box overlaps. The per-primitive boxes set only the world extents; the cell index range
    is filled in by BoundingBoxShape. */
module BoundingBoxes {
  import opened Types
  import opened Utils

  /** A box with the given world extents and an empty-so-far cell range. */
  function Extents(xmin: real, xmax: real, ymin: real, ymax: real, zmin: real, zmax: real): (b: BBox)
    ensures b.xmin == xmin && b.xmax == xmax && b.ymin == ymin && b.ymax == ymax
    ensures b.zmin == zmin && b.zmax == zmax
  {
    BBox(xmin, xmax, ymin, ymax, zmin, zmax, 0, 0, 0, 0, 0, 0)
  }

  /** p lies in the box's world extents. */
  predicate Contains(b: BBox, p: Vector) {
    b.xmin <= p.x <= b.xmax && b.ymin <= p.y <= b.ymax && b.zmin <= p.z <= b.zmax
  }

  /** The triangle's box is the tightest box holding its three vertices: each extent is one
      of the vertex coordinates. */
  function BoxTriangle(tri: Triangle): (b: BBox)
    ensures Contains(b, tri.v0) && Contains(b, tri.v1) && Contains(b, tri.v2)
    ensures b.xmin in {tri.v0.x, tri.v1.x, tri.v2.x} && b.xmax in {tri.v0.x, tri.v1.x, tri.v2.x}
    ensures b.ymin in {tri.v0.y, tri.v1.y, tri.v2.y} && b.ymax in {tri.v0.y, tri.v1.y, tri.v2.y}
    ensures b.zmin in {tri.v0.z, tri.v1.z, tri.v2.z} && b.zmax in {tri.v0.z, tri.v1.z, tri.v2.z}
  {
    Extents(Min(tri.v0.x, Min(tri.v1.x, tri.v2.x)), Max(tri.v0.x, Max(tri.v1.x, tri.v2.x)),
            Min(tri.v0.y, Min(tri.v1.y, tri.v2.y)), Max(tri.v0.y, Max(tri.v1.y, tri.v2.y)),
            Min(tri.v0.z, Min(tri.v1.z, tri.v2.z)), Max(tri.v0.z, Max(tri.v1.z, tri.v2.z)))
  }

  /** The sphere's box is centered on the sphere with side 2 radius, so it holds the center
      (and is non-empty) when the radius is non-negative. */
  function BoxSphere(s: Sphere): (b: BBox)
    ensures b.xmin + b.xmax == 2.0 * s.pos.x && b.xmax - b.xmin == 2.0 * s.radius
    ensures b.ymin + b.ymax == 2.0 * s.pos.y && b.ymax - b.ymin == 2.0 * s.radius
    ensures b.zmin + b.zmax == 2.0 * s.pos.z && b.zmax - b.zmin == 2.0 * s.radius
    ensures s.radius >= 0.0 ==> Contains(b, s.pos)
  {
    Extents(s.pos.x - s.radius, s.pos.x + s.radius,
            s.pos.y - s.radius, s.pos.y + s.radius,
            s.pos.z - s.radius, s.pos.z + s.radius)
  }

  /** The reach of a radius-R disc orthogonal to axis a along one coordinate, R |e x a|,
      with |e x a| the norm of the other two components. */
  function Reach(r: real, p: real, q: real): (w: real)
    ensures r >= 0.0 ==> w >= 0.0
  {
    SumSquaresNonNegative(p, q);
    var sq := Sqrt(p * p + q * q);
    if r >= 0.0 then
      NonNegativeProduct(r, sq);
      r * sq
    else r * sq
  }

  lemma SumSquaresNonNegative(p: real, q: real)
    ensures p * p + q * q >= 0.0
  {
    SquarePositive(p);
    SquarePositive(q);
  }

  /** One coordinate of the cylinder's box, with `ha` = H a and `haAbs` = H |a| (the code's
      (H/2) a and (H/2) |a| are their halves): from the base center c, ha/2 + haAbs/2 widened
      by the radius reach on each side. */
  function CylinderSpan(c: real, ha: real, haAbs: real, reach: real): (lohi: (real, real))
    ensures lohi.1 - lohi.0 == haAbs + 2.0 * reach
    ensures (haAbs == ha || haAbs == -ha) && haAbs >= 0.0 && reach >= 0.0
            ==> lohi.0 <= c <= lohi.1 && lohi.0 <= c + ha <= lohi.1
  {
    (c + ha / 2.0 - haAbs / 2.0 - reach, c + ha / 2.0 + haAbs / 2.0 + reach)
  }

  /** H |a| is H a or its negation, and non-negative with H. */
  lemma HeightAbs(h: real, a: real)
    ensures h * Abs(a) == h * a || h * Abs(a) == -(h * a)
    ensures h >= 0.0 ==> h * Abs(a) >= 0.0
  {
    if h >= 0.0 {
      NonNegativeProduct(h, Abs(a));
    }
  }

  /** The reach of a radius-R disc orthogonal to the axis, along each coordinate. */
  function Reaches(r: real, a: Vector): (w: Vector)
    ensures w == Vector(Reach(r, a.y, a.z), Reach(r, a.x, a.z), Reach(r, a.x, a.y))
    ensures r >= 0.0 ==> w.x >= 0.0 && w.y >= 0.0 && w.z >= 0.0
  {
    Vector(Reach(r, a.y, a.z), Reach(r, a.x, a.z), Reach(r, a.x, a.y))
  }

  /** The cylinder's box for the given reaches w: it spans H |a_x| + 2 w.x along x (likewise
      y and z), and holds both end centers when the height and the reaches are non-negative. */
  function CylinderBox(c: Vector, a: Vector, h: real, w: Vector): (b: BBox)
    ensures b.xmax - b.xmin == h * Abs(a.x) + 2.0 * w.x
    ensures b.ymax - b.ymin == h * Abs(a.y) + 2.0 * w.y
    ensures b.zmax - b.zmin == h * Abs(a.z) + 2.0 * w.z
    ensures h >= 0.0 && w.x >= 0.0 && w.y >= 0.0 && w.z >= 0.0
            ==> Contains(b, c) && Contains(b, Add(c, Scale(h, a)))
  {
    HeightAbs(h, a.x);
    HeightAbs(h, a.y);
    HeightAbs(h, a.z);
    var x := CylinderSpan(c.x, h * a.x, h * Abs(a.x), w.x);
    var y := CylinderSpan(c.y, h * a.y, h * Abs(a.y), w.y);
    var z := CylinderSpan(c.z, h * a.z, h * Abs(a.z), w.z);
    AlongAxis(c, a, h);
    Extents(x.0, x.1, y.0, y.1, z.0, z.1)
  }

  /** The cylinder's box: CylinderBox with the reaches R |e x a|, so it holds both end
      centers when the height and radius are non-negative. */
  function BoxCylinder(cyl: Cylinder): (b: BBox)
    ensures cyl.height >= 0.0 && cyl.radius >= 0.0
            ==> Contains(b, cyl.center) && Contains(b, Add(cyl.center, Scale(cyl.height, cyl.axis)))
  {
    var w := Reaches(cyl.radius, cyl.axis);
    CylinderBox(cyl.center, cyl.axis, cyl.height, w)
  }

  lemma AlongAxis(c: Vector, a: Vector, h: real)
    ensures Add(c, Scale(h, a)) == Vector(c.x + h * a.x, c.y + h * a.y, c.z + h * a.z)
  {
    assert Scale(h, a) == Vector(a.x * h, a.y * h, a.z * h);
    assert a.x * h == h * a.x && a.y * h == h * a.y && a.z * h == h * a.z;
  }

  /** One coordinate of the cone's box, with `ha` = H a: between the vertex and the base
      center moved out by the radius reach. */
  function ConeSpan(v: real, ha: real, reach: real): (lohi: (real, real))
    ensures lohi.0 <= v <= lohi.1
    ensures reach >= 0.0 ==> lohi.0 <= v + ha <= lohi.1
  {
    (Min(v, v + ha - reach), Max(v, v + ha + reach))
  }

  /** The cone's box holds the vertex, and the base center when the radius is non-negative. */
  function BoxCone(cone: Cone): (b: BBox)
    ensures Contains(b, cone.vertex)
    ensures cone.radius >= 0.0 ==> Contains(b, Add(cone.vertex, Scale(cone.height, cone.axis)))
  {
    var v := cone.vertex;
    var a := cone.axis;
    var rx, ry, rz := Reach(cone.radius, a.y, a.z), Reach(cone.radius, a.x, a.z), Reach(cone.radius, a.x, a.y);
    var x := ConeSpan(v.x, cone.height * a.x, rx);
    var y := ConeSpan(v.y, cone.height * a.y, ry);
    var z := ConeSpan(v.z, cone.height * a.z, rz);
    AlongAxis(v, a, cone.height);
    Extents(x.0, x.1, y.0, y.1, z.0, z.1)
  }

  /** The disk's thickness along its normal. */
  const DiskThickness: real := 0.1

  /** The disk's box is symmetric about its center and, for a non-negative radius, holds it. */
  function BoxDisk(disk: Disk): (b: BBox)
    ensures b.xmin + b.xmax == 2.0 * disk.center.x
    ensures b.ymin + b.ymax == 2.0 * disk.center.y
    ensures b.zmin + b.zmax == 2.0 * disk.center.z
    ensures disk.radius >= 0.0 ==> Contains(b, disk.center)
  {
    var n := disk.normal;
    var c := disk.center;
    var h := DiskThickness;
    var wx := (h / 2.0) * Abs(n.x) + Reach(disk.radius, n.y, n.z);
    var wy := (h / 2.0) * Abs(n.y) + Reach(disk.radius, n.x, n.z);
    var wz := (h / 2.0) * Abs(n.z) + Reach(disk.radius, n.x, n.y);
    Extents(c.x - wx, c.x + wx, c.y - wy, c.y + wy, c.z - wz, c.z + wz)
  }

  // ------------------------------------------------------------ rectangle

  /** The eight corners of the rectangle thickened by 0.1 along its normal, in the order
      the running bound visits them: the lower face first, then the upper one. */
  function RectangleCorners(rect: Rectangle): (v: seq<Vector>)
    ensures |v| == 8
  {
    var n := Cross(rect.axis0, rect.axis1);
    var a1 := Scale(rect.length0 / 2.0, rect.axis0);
    var a2 := Scale(rect.length1 / 2.0, rect.axis1);
    var dn := Scale(0.1, n);
    var down := Sub(rect.center, dn);
    var up := Add(rect.center, dn);
    [Sub(down, Add(a1, a2)), Add(down, Sub(a1, a2)), Add(down, Add(a1, a2)), Add(down, Sub(a2, a1)),
     Sub(up, Add(a1, a2)), Add(up, Sub(a1, a2)), Add(up, Add(a1, a2)), Add(up, Sub(a2, a1))]
  }

  /** The seed of the running bounds: 1e9 for the minima, -1e9 for the maxima. */
  const BoundSeed: real := 1000000000.0

  /** The running minimum of the first elements of xs, seeded with `seed`. */
  function RunningMin(xs: seq<real>, seed: real): (m: real)
    ensures m <= seed
    ensures forall i | 0 <= i < |xs| :: m <= xs[i]
    ensures m == seed || exists i | 0 <= i < |xs| :: m == xs[i]
  {
    if xs == [] then seed else Min(RunningMin(xs[..|xs| - 1], seed), xs[|xs| - 1])
  }

  /** The running maximum of the first elements of xs, seeded with `seed`. */
  function RunningMax(xs: seq<real>, seed: real): (m: real)
    ensures m >= seed
    ensures forall i | 0 <= i < |xs| :: m >= xs[i]
    ensures m == seed || exists i | 0 <= i < |xs| :: m == xs[i]
  {
    if xs == [] then seed else Max(RunningMax(xs[..|xs| - 1], seed), xs[|xs| - 1])
  }

  function Xs(v: seq<Vector>): (xs: seq<real>)
    ensures |xs| == |v| && forall i | 0 <= i < |v| :: xs[i] == v[i].x
  {
    seq(|v|, i requires 0 <= i < |v| => v[i].x)
  }

  function Ys(v: seq<Vector>): (ys: seq<real>)
    ensures |ys| == |v| && forall i | 0 <= i < |v| :: ys[i] == v[i].y
  {
    seq(|v|, i requires 0 <= i < |v| => v[i].y)
  }

  function Zs(v: seq<Vector>): (zs: seq<real>)
    ensures |zs| == |v| && forall i | 0 <= i < |v| :: zs[i] == v[i].z
  {
    seq(|v|, i requires 0 <= i < |v| => v[i].z)
  }

  /** The rectangle's box: running bounds over the eight corners seeded with +-1e9. It holds
      every corner. */
  function BoxRectangle(rect: Rectangle): (b: BBox)
    ensures forall n | 0 <= n < 8 :: Contains(b, RectangleCorners(rect)[n])
  {
    var v := RectangleCorners(rect);
    Extents(RunningMin(Xs(v), BoundSeed), RunningMax(Xs(v), -BoundSeed),
            RunningMin(Ys(v), BoundSeed), RunningMax(Ys(v), -BoundSeed),
            RunningMin(Zs(v), BoundSeed), RunningMax(Zs(v), -BoundSeed))
  }

  /** The rectangle's box as the source builds it: the eight corners written into an
      array, then their running bounds. */
  method CreateBoundingBoxRectangle(rect: Rectangle) returns (b: BBox)
    ensures b == BoxRectangle(rect)
  {
    var corners := RectangleCorners(rect);
    var v := new Vector[8](i requires 0 <= i < 8 => corners[i]);
    assert v[..] == corners;
    var xmin, xmax, ymin, ymax, zmin, zmax := RunningBounds(v);
    b := Extents(xmin, xmax, ymin, ymax, zmin, zmax);
  }

  /** The loop over the corner array: running minima and maxima of each coordinate,
      seeded with +-1e9. */
  method RunningBounds(v: array<Vector>) returns (xmin: real, xmax: real, ymin: real, ymax: real, zmin: real, zmax: real)
    ensures xmin == RunningMin(Xs(v[..]), BoundSeed) && xmax == RunningMax(Xs(v[..]), -BoundSeed)
    ensures ymin == RunningMin(Ys(v[..]), BoundSeed) && ymax == RunningMax(Ys(v[..]), -BoundSeed)
    ensures zmin == RunningMin(Zs(v[..]), BoundSeed) && zmax == RunningMax(Zs(v[..]), -BoundSeed)
  {
    xmin, ymin, zmin := BoundSeed, BoundSeed, BoundSeed;
    xmax, ymax, zmax := -BoundSeed, -BoundSeed, -BoundSeed;
    for n := 0 to v.Length
      invariant xmin == RunningMin(Xs(v[..n]), BoundSeed) && xmax == RunningMax(Xs(v[..n]), -BoundSeed)
      invariant ymin == RunningMin(Ys(v[..n]), BoundSeed) && ymax == RunningMax(Ys(v[..n]), -BoundSeed)
      invariant zmin == RunningMin(Zs(v[..n]), BoundSeed) && zmax == RunningMax(Zs(v[..n]), -BoundSeed)
    {
      assert Xs(v[..n + 1])[..n] == Xs(v[..n]);
      assert Ys(v[..n + 1])[..n] == Ys(v[..n]);
      assert Zs(v[..n + 1])[..n] == Zs(v[..n]);
      xmin := Min(xmin, v[n].x);
      ymin := Min(ymin, v[n].y);
      zmin := Min(zmin, v[n].z);
      xmax := Max(xmax, v[n].x);
      ymax := Max(ymax, v[n].y);
      zmax := Max(zmax, v[n].z);
    }
    assert v[..v.Length] == v[..];
  }

  // --------------------------------------------------------- shape boxes

  /** The world extents of a shape's box. An untagged shape gets no new box in the source
      (its local is left uninitialized); here it keeps the extents it carries. */
  function BoxGeometry(s: Shape): BBox {
    match s.geom
    case TriangleShape(tri) => BoxTriangle(tri)
    case SphereShape(sphere) => BoxSphere(sphere)
    case RectangleShape(rect) => BoxRectangle(rect)
    case CylinderShape(cyl) => BoxCylinder(cyl)
    case DiskShape(disk) => BoxDisk(disk)
    case ConeShape(cone) => BoxCone(cone)
    case Untagged(_) => s.bbox
  }

  /** The cell index of a world coordinate: offset from the grid's lower bound, scaled by
      the inverse cell size, truncated to int, then clamped into [0, n - 1]. */
  function CellIndex(x: real, lo: real, inv: real, n: int): (i: int)
    ensures 0 <= i
    ensures n >= 1 ==> i <= n - 1
  {
    IClamp(TruncToInt(inv * (x - lo)) as real, 0, n - 1)
  }

  /** A shape's box with its cell range: each index lies in [0, N - 1] on its axis. */
  function BoundingBoxShape(g: GridGeom, s: Shape): (b: BBox)
    ensures var e := BoxGeometry(s);
            b.xmin == e.xmin && b.xmax == e.xmax && b.ymin == e.ymin && b.ymax == e.ymax
            && b.zmin == e.zmin && b.zmax == e.zmax
    ensures 0 <= b.imin && 0 <= b.imax && 0 <= b.jmin && 0 <= b.jmax && 0 <= b.kmin && 0 <= b.kmax
    ensures g.NI >= 1 ==> b.imin <= g.NI - 1 && b.imax <= g.NI - 1
    ensures g.NJ >= 1 ==> b.jmin <= g.NJ - 1 && b.jmax <= g.NJ - 1
    ensures g.NK >= 1 ==> b.kmin <= g.NK - 1 && b.kmax <= g.NK - 1
  {
    var e := BoxGeometry(s);
    e.(imin := CellIndex(e.xmin, g.xmin, g.invdx, g.NI), imax := CellIndex(e.xmax, g.xmin, g.invdx, g.NI),
       jmin := CellIndex(e.ymin, g.ymin, g.invdy, g.NJ), jmax := CellIndex(e.ymax, g.ymin, g.invdy, g.NJ),
       kmin := CellIndex(e.zmin, g.zmin, g.invdz, g.NK), kmax := CellIndex(e.zmax, g.zmin, g.invdz, g.NK))
  }

  /** Truncation and clamping are both monotone, so a non-empty extent on an axis with a
      non-negative inverse cell size gives a non-empty index range. */
  lemma CellIndexMonotone(x: real, y: real, lo: real, inv: real, n: int)
    requires x <= y && inv >= 0.0
    ensures CellIndex(x, lo, inv, n) <= CellIndex(y, lo, inv, n)
  {
    assert inv * (x - lo) <= inv * (y - lo) by {
      NonNegativeProduct(inv, y - x);
      assert inv * (y - lo) - inv * (x - lo) == inv * (y - x);
    }
    TruncMonotone(inv * (x - lo), inv * (y - lo));
    IClampMonotone(TruncToInt(inv * (x - lo)) as real, TruncToInt(inv * (y - lo)) as real, 0, n - 1);
  }

  lemma CellRangeNonEmpty(g: GridGeom, s: Shape)
    requires g.invdx >= 0.0 && g.invdy >= 0.0 && g.invdz >= 0.0
    requires var e := BoxGeometry(s); e.xmin <= e.xmax && e.ymin <= e.ymax && e.zmin <= e.zmax
    ensures var b := BoundingBoxShape(g, s); b.imin <= b.imax && b.jmin <= b.jmax && b.kmin <= b.kmax
  {
    var e := BoxGeometry(s);
    CellIndexMonotone(e.xmin, e.xmax, g.xmin, g.invdx, g.NI);
    CellIndexMonotone(e.ymin, e.ymax, g.ymin, g.invdy, g.NJ);
    CellIndexMonotone(e.zmin, e.zmax, g.zmin, g.invdz, g.NK);
  }
}
