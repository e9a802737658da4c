/** The nearest point of a shape to a given point, used by the sphere collision pass to
    find how deep a sphere reaches into a wall. Each projection returns the point it chose
    and its distance from the query point. */
module Projections {
  import opened Types
  import opened Utils

  datatype Projection = Projection(dist: real, closest: Vector)

  /** The distance reported with a chosen point q for the query point p. */
  function DistanceTo(p: Vector, q: Vector): (d: real)
    ensures d >= 0.0
    ensures q == p ==> d == 0.0
  {
    assert q == p ==> Sub(q, p) == Zero;
    Norm(Sub(q, p))
  }

  /** The distance does not depend on which way the difference is taken. */
  lemma DistanceSymmetric(p: Vector, q: Vector)
    ensures DistanceTo(p, q) == Norm(Sub(p, q))
  {
    assert Sub(p, q) == Zero <==> Sub(q, p) == Zero;
    assert Dot(Sub(p, q), Sub(p, q)) == Dot(Sub(q, p), Sub(q, p));
  }

  lemma DotAddScaled(c: Vector, a: Vector, b: Vector, l0: real, l1: real)
    ensures Dot(c, Add(Scale(l0, a), Scale(l1, b))) == l0 * Dot(c, a) + l1 * Dot(c, b)
  {
  }

  // ------------------------------------------------------------- rectangle

  /** One in-plane coordinate of a rectangle's nearest point: the offset along an axis in
      units of the side, clamped to [-1/2, 1/2] and scaled back. It never leaves the side,
      and an offset already within half the side is kept. */
  function SideOffset(coord: real, length: real): (u: real)
    requires length != 0.0
    ensures Abs(u) <= Abs(length) / 2.0
    ensures Abs(coord) <= Abs(length) / 2.0 ==> u == coord
  {
    var c := Clamp(coord / length, -0.5, 0.5);
    if length > 0.0 then
      assert length * -0.5 <= length * c <= length * 0.5;
      if Abs(coord) <= length / 2.0 then WithinHalf(coord, length); length * c else length * c
    else
      assert length * 0.5 <= length * c <= length * -0.5;
      if Abs(coord) <= -length / 2.0 then WithinHalfNeg(coord, length); length * c else length * c
  }

  lemma WithinHalf(x: real, L: real)
    requires L > 0.0 && -L / 2.0 <= x <= L / 2.0
    ensures -0.5 <= x / L <= 0.5
  {
    var q := x / L;
    assert q * L == x;
    assert (q - 0.5) * L <= 0.0 && (q + 0.5) * L >= 0.0;
  }

  lemma WithinHalfNeg(x: real, L: real)
    requires L < 0.0 && L / 2.0 <= x <= -L / 2.0
    ensures -0.5 <= x / L <= 0.5
  {
    var q := x / L;
    assert q * L == x;
    assert (q - 0.5) * L >= 0.0 && (q + 0.5) * L <= 0.0;
  }

  /** The point of a rectangle at offsets u and v from its center along its two axes. */
  function RectanglePoint(rect: Rectangle, u: real, v: real): Vector {
    Add(rect.center, Add(Scale(u, rect.axis0), Scale(v, rect.axis1)))
  }

  /** The rectangle's point at the clamped offsets: it lies on the rectangle, within half
      of each side from the center. */
  function ProjectPointRectangle(p: Vector, rect: Rectangle): (pr: Projection)
    requires rect.length0 != 0.0 && rect.length1 != 0.0
    ensures exists u, v :: Abs(u) <= Abs(rect.length0) / 2.0 && Abs(v) <= Abs(rect.length1) / 2.0
                           && pr.closest == RectanglePoint(rect, u, v)
    ensures pr.dist == DistanceTo(p, pr.closest)
  {
    var pMC := Sub(p, rect.center);
    var u := SideOffset(Dot(pMC, rect.axis0), rect.length0);
    var v := SideOffset(Dot(pMC, rect.axis1), rect.length1);
    var closest := RectanglePoint(rect, u, v);
    Projection(DistanceTo(p, closest), closest)
  }

  predicate Orthonormal(a0: Vector, a1: Vector) {
    Dot(a0, a0) == 1.0 && Dot(a1, a1) == 1.0 && Dot(a0, a1) == 0.0
  }

  /** With orthonormal axes, a point of the rectangle is its own nearest point. */
  lemma RectangleFixesItsPoints(rect: Rectangle, u: real, v: real)
    requires rect.length0 != 0.0 && rect.length1 != 0.0 && Orthonormal(rect.axis0, rect.axis1)
    requires Abs(u) <= Abs(rect.length0) / 2.0 && Abs(v) <= Abs(rect.length1) / 2.0
    ensures var q := RectanglePoint(rect, u, v);
            ProjectPointRectangle(q, rect) == Projection(0.0, q)
  {
    var q := RectanglePoint(rect, u, v);
    var w := Add(Scale(u, rect.axis0), Scale(v, rect.axis1));
    assert Sub(q, rect.center) == w;
    DotAddScaled(rect.axis0, rect.axis0, rect.axis1, u, v);
    DotAddScaled(rect.axis1, rect.axis0, rect.axis1, u, v);
    assert Dot(rect.axis1, rect.axis0) == Dot(rect.axis0, rect.axis1);
    assert Dot(w, rect.axis0) == u && Dot(w, rect.axis1) == v;
  }

  // ------------------------------------------------------------------ disk

  /** The disk's shrink factor r / |d| for an in-plane offset longer than the radius, and 1
      otherwise: between 0 and 1, and it brings the offset's length within the radius. */
  function DiskScale(normd: real, radius: real): (s: real)
    requires normd >= 0.0 && radius >= 0.0
    ensures 0.0 <= s <= 1.0 && s * normd <= radius
    ensures normd <= radius ==> s == 1.0
    ensures normd > radius ==> s * normd == radius
  {
    if normd > radius then radius / normd else 1.0
  }

  /** The query point's offset from the disk's center with its component along the normal
      removed. */
  function InPlaneOffset(p: Vector, disk: Disk): Vector {
    Orthogonalize(Sub(p, disk.center), disk.normal)
  }

  /** The disk's nearest point: the in-plane offset, shrunk by DiskScale to the radius when
      it is longer, added to the center. */
  function ProjectPointDisk(p: Vector, disk: Disk): (pr: Projection)
    requires disk.radius >= 0.0
    ensures var d := InPlaneOffset(p, disk);
            pr.closest == Add(disk.center, Scale(DiskScale(Norm(d), disk.radius), d))
    ensures pr.dist == DistanceTo(p, pr.closest)
  {
    var d := InPlaneOffset(p, disk);
    var closest := Add(disk.center, Scale(DiskScale(Norm(d), disk.radius), d));
    Projection(DistanceTo(p, closest), closest)
  }

  /** With a unit normal the disk's nearest point lies in the disk's plane. */
  lemma DiskProjectionInPlane(p: Vector, disk: Disk)
    requires disk.radius >= 0.0 && Dot(disk.normal, disk.normal) == 1.0
    ensures Dot(Sub(ProjectPointDisk(p, disk).closest, disk.center), disk.normal) == 0.0
  {
    var d := InPlaneOffset(p, disk);
    var s := DiskScale(Norm(d), disk.radius);
    assert Sub(ProjectPointDisk(p, disk).closest, disk.center) == Scale(s, d);
    ScaleDot(s, d, disk.normal);
  }

  /** With a unit normal, a point of the disk's plane within the radius of the center is its
      own nearest point. */
  lemma DiskFixesItsPoints(disk: Disk, w: Vector)
    requires disk.radius >= 0.0 && Dot(disk.normal, disk.normal) == 1.0
    requires Dot(w, disk.normal) == 0.0 && Norm(w) <= disk.radius
    ensures var q := Add(disk.center, w);
            ProjectPointDisk(q, disk) == Projection(0.0, q)
  {
    var q := Add(disk.center, w);
    assert Sub(q, disk.center) == w;
    assert InPlaneOffset(q, disk) == w;
  }

  // -------------------------------------------------------------- cylinder

  /** The cylinder's radial slack: the offset from the axis is divided by |d| + 1e-6. */
  const RadialSlack: real := 0.000001

  /** The cylinder's radial factor R / (|d| + 1e-6). For a positive radius it is positive
      and leaves the scaled offset strictly shorter than R, so the point is just inside the
      surface rather than on it. */
  function RadialScale(normd: real, radius: real): (s: real)
    requires normd >= 0.0
    ensures s * (normd + RadialSlack) == radius
    ensures radius > 0.0 ==> 0.0 < s && s * normd < radius
  {
    var s := radius / (normd + RadialSlack);
    assert s * normd + s * RadialSlack == radius;
    s
  }

  /** The point of the cylinder's axis at height z above its base center. */
  function AxisPoint(cyl: Cylinder, z: real): Vector {
    Add(cyl.center, Scale(z, cyl.axis))
  }

  /** The cylinder's nearest point: the axis point at the query's height clamped to
      [0, H], pushed towards the query point by the radial factor. */
  function ProjectPointCylinder(p: Vector, cyl: Cylinder): (pr: Projection)
    ensures var h := Dot(Sub(p, cyl.center), cyl.axis);
            exists z :: 0.0 <= z && (cyl.height >= 0.0 ==> z <= cyl.height)
                        && (0.0 <= h <= cyl.height ==> z == h)
                        && var d := Sub(p, AxisPoint(cyl, z));
                           pr.closest == Add(AxisPoint(cyl, z), Scale(RadialScale(Norm(d), cyl.radius), d))
    ensures pr.dist == DistanceTo(p, pr.closest)
  {
    var z := Clamp(Dot(Sub(p, cyl.center), cyl.axis), 0.0, cyl.height);
    var cPza := AxisPoint(cyl, z);
    var d := Sub(p, cPza);
    var closest := Add(cPza, Scale(RadialScale(Norm(d), cyl.radius), d));
    Projection(DistanceTo(p, closest), closest)
  }

  // ------------------------------------------------------------------ cone

  /** The frame the cone projection works in: the axis a0, a1 = unit((p - v) x a0) and
      a2 = unit(a0 x a1), with the coordinates h, z, r of p - v along a0, a1, a2. */
  datatype ConeFrame = ConeFrame(a1: Vector, a2: Vector, h: real, z: real, r: real)

  function Frame(p: Vector, cone: Cone): ConeFrame {
    var pMv := Sub(p, cone.vertex);
    var a1 := Normalize(Cross(pMv, cone.axis));
    var a2 := Normalize(Cross(cone.axis, a1));
    ConeFrame(a1, a2, Dot(pMv, cone.axis), Dot(pMv, a1), Dot(pMv, a2))
  }

  /** A point of the cone's (r, h) half-plane: distance from the axis and height. */
  datatype Section = Section(rI: real, hI: real)

  /** The cone's generator in the (r, h) half-plane runs from the apex (0, 0) to the rim
      (R, H); with t = R r + H h, t / (H^2 + R^2) is the parameter of the foot of the
      perpendicular from (r, h), r >= 0. The apex (None) is nearest when t < 0 and the rim
      when t reaches H^2 + R^2. The result stays on the finite generator, and for a foot
      strictly before the rim the offset from the query is perpendicular to the generator. */
  function GeneratorSection(rr: real, h: real, R: real, H: real): (g: Option<Section>)
    requires Square(H) + Square(R) > 0.0
    ensures g.None? <==> R * rr + H * h < 0.0
    ensures g.Some? && H > 0.0 && R >= 0.0 ==>
              0.0 <= g.value.hI <= H && 0.0 <= g.value.rI <= R && g.value.rI * H == R * g.value.hI
    ensures g.Some? && R * rr + H * h < Square(H) + Square(R) ==>
              (rr - g.value.rI) * R + (h - g.value.hI) * H == 0.0
  {
    var t := R * rr + H * h;
    var den := Square(H) + Square(R);
    if t < 0.0 then None
    else if t >= den then Some(Section(R, H))
    else Some(GeneratorFoot(t, den, R, H))
  }

  /** The foot (R s, H s) of the perpendicular, s = t / den, for 0 <= t < den. */
  function GeneratorFoot(t: real, den: real, R: real, H: real): (g: Section)
    requires 0.0 <= t < den && den == Square(H) + Square(R)
    ensures H > 0.0 && R >= 0.0 ==> 0.0 <= g.hI <= H && 0.0 <= g.rI <= R && g.rI * H == R * g.hI
    ensures g.rI * R + g.hI * H == t
  {
    var s := t / den;
    assert 0.0 <= s < 1.0;
    assert s * den == t;
    assert (R * s) * R + (H * s) * H == s * den;
    assert H > 0.0 && R >= 0.0 ==> H * s <= H * 1.0 && R * s <= R * 1.0;
    Section(R * s, H * s)
  }

  /** The source's region tests for r >= 0: the apex region is h <= 0 and r < R |h| / H, the
      rim region r >= 2R - R h / H. These are the perpendiculars to the generator at the
      apex and the rim only when R == H; otherwise the foot t / (H^2 + R^2) can fall
      outside [0, 1], off the finite cone. */
  function GeneratorSectionAsWritten(rr: real, h: real, R: real, H: real): (g: Option<Section>)
    requires H != 0.0 && Square(H) + Square(R) > 0.0
    ensures g.None? <==> h <= 0.0 && rr < R * Abs(h) / H
    ensures g.Some? && rr >= 2.0 * R - R * h / H ==> g == Some(Section(R, H))
    ensures g.Some? && rr < 2.0 * R - R * h / H ==>
              g.value.rI * H == R * g.value.hI
              && g.value.rI * R + g.value.hI * H == R * rr + H * h
  {
    if h <= 0.0 && rr < R * Abs(h) / H then None
    else if rr >= 2.0 * R - R * h / H then Some(Section(R, H))
    else
      var s := (R * rr + H * h) / (Square(H) + Square(R));
      assert s * (Square(H) + Square(R)) == R * rr + H * h;
      assert (R * s) * R + (H * s) * H == s * (Square(H) + Square(R));
      Some(Section(R * s, H * s))
  }

  /** With R = 2 and H = 1, the in-plane point (r, h) = (2.4, 0.5) passes neither of the
      source's tests, and its foot has height 1.06, above the rim at height 1; the corrected
      section puts it on the rim. */
  lemma ConeSectionDefect()
    ensures GeneratorSectionAsWritten(2.4, 0.5, 2.0, 1.0) == Some(Section(2.12, 1.06))
    ensures GeneratorSection(2.4, 0.5, 2.0, 1.0) == Some(Section(2.0, 1.0))
  {
    assert Square(1.0) + Square(2.0) == 5.0;
    assert 2.4 < 2.0 * 2.0 - 2.0 * 0.5 / 1.0;
    assert (2.0 * 2.4 + 1.0 * 0.5) / 5.0 == 1.06;
  }

  /** The section for a signed r: the generator section of |r|, mirrored back to the side
      of the axis r lies on. */
  function Mirrored(r: real, g: Option<Section>): (m: Option<Section>)
    ensures m.None? <==> g.None?
    ensures m.Some? ==> Abs(m.value.rI) == Abs(g.value.rI) && m.value.hI == g.value.hI
    ensures m.Some? && g.value.rI >= 0.0 ==> m.value.rI * r >= 0.0
  {
    match g
    case None => None
    case Some(s) => Some(if r < 0.0 then Section(-s.rI, s.hI) else s)
  }

  /** The point of the cone at section (rI, hI) in frame f, keeping the query's a1
      coordinate z: v + hI a0 + z a1 + rI a2. */
  function ConePoint(cone: Cone, f: ConeFrame, g: Section): Vector {
    Add(Add(Add(cone.vertex, Scale(g.hI, cone.axis)), Scale(f.z, f.a1)), Scale(g.rI, f.a2))
  }

  /** The cone's nearest point: the vertex, at distance |p - v|, when the generator section
      is the apex, and otherwise the frame point at the mirrored section. */
  function ProjectPointCone(p: Vector, cone: Cone): (pr: Projection)
    requires cone.height != 0.0 && Square(cone.height) + Square(cone.radius) > 0.0
    ensures var f := Frame(p, cone);
            var g := Mirrored(f.r, GeneratorSection(Abs(f.r), f.h, cone.radius, cone.height));
            (g.None? ==> pr == Projection(Norm(Sub(p, cone.vertex)), cone.vertex))
            && (g.Some? ==> pr.closest == ConePoint(cone, f, g.value))
    ensures pr.dist == DistanceTo(p, pr.closest)
  {
    var f := Frame(p, cone);
    match Mirrored(f.r, GeneratorSection(Abs(f.r), f.h, cone.radius, cone.height))
    case None =>
      DistanceSymmetric(p, cone.vertex);
      Projection(Norm(Sub(p, cone.vertex)), cone.vertex)
    case Some(g) =>
      var cl := ConePoint(cone, f, g);
      Projection(DistanceTo(p, cl), cl)
  }

  /** The source's cone projection: the vertex in its apex region h <= 0, |r| < R |h| / H of
      the query's frame; otherwise the frame point at the mirrored section of
      GeneratorSectionAsWritten, the rim on r's side of the axis beyond the rim divider
      |r| >= 2R - R h / H. */
  function ProjectPointConeAsWritten(p: Vector, cone: Cone): (pr: Projection)
    requires cone.height != 0.0 && Square(cone.height) + Square(cone.radius) > 0.0
    ensures pr == ConeInFrameAsWritten(p, cone, Frame(p, cone))
    ensures pr.dist == DistanceTo(p, pr.closest)
  {
    ConeInFrameAsWritten(p, cone, Frame(p, cone))
  }

  /** The cone projection as written, for the query's frame f (h, z, r and the axes a1, a2). */
  function ConeInFrameAsWritten(p: Vector, cone: Cone, f: ConeFrame): (pr: Projection)
    requires cone.height != 0.0 && Square(cone.height) + Square(cone.radius) > 0.0
    ensures var g := Mirrored(f.r, GeneratorSectionAsWritten(Abs(f.r), f.h, cone.radius, cone.height));
            g.Some? ==> pr.closest == ConePoint(cone, f, g.value)
    ensures pr.dist == DistanceTo(p, pr.closest)
  {
    var m := Mirrored(f.r, GeneratorSectionAsWritten(Abs(f.r), f.h, cone.radius, cone.height));
    if m.None? then
      DistanceSymmetric(p, cone.vertex);
      Projection(Norm(Sub(p, cone.vertex)), cone.vertex)
    else
      var cl := ConePoint(cone, f, m.value);
      Projection(DistanceTo(p, cl), cl)
  }

  /** In the source's apex region, h <= 0 and |r| < R |h| / H in the query's frame, the
      projection is the vertex at distance |p - v|; beyond its rim divider
      |r| >= 2R - R h / H it is the rim point on the query's side of the axis. */
  lemma ConeRegionsAsWritten(p: Vector, cone: Cone, f: ConeFrame)
    requires cone.height != 0.0 && Square(cone.height) + Square(cone.radius) > 0.0
    ensures (f.h <= 0.0 && Abs(f.r) < cone.radius * Abs(f.h) / cone.height)
              ==> ConeInFrameAsWritten(p, cone, f) == Projection(Norm(Sub(p, cone.vertex)), cone.vertex)
    ensures var R, H := cone.radius, cone.height;
            (!(f.h <= 0.0 && Abs(f.r) < R * Abs(f.h) / H) && Abs(f.r) >= 2.0 * R - R * f.h / H)
              ==> ConeInFrameAsWritten(p, cone, f).closest
                  == ConePoint(cone, f, Section(if f.r < 0.0 then -R else R, H))
  {
    MirroredSectionAsWritten(f.r, f.h, cone.radius, cone.height);
  }

  /** The mirrored section as written: none exactly in the apex region, and the rim on r's
      side of the axis beyond the rim divider. */
  lemma MirroredSectionAsWritten(r: real, h: real, R: real, H: real)
    requires H != 0.0 && Square(H) + Square(R) > 0.0
    ensures var g := Mirrored(r, GeneratorSectionAsWritten(Abs(r), h, R, H));
            (g.None? <==> h <= 0.0 && Abs(r) < R * Abs(h) / H)
            && ((!(h <= 0.0 && Abs(r) < R * Abs(h) / H) && Abs(r) >= 2.0 * R - R * h / H)
                ==> g == Some(Section(if r < 0.0 then -R else R, H)))
  {
  }

  /** With R = 2 and H = 1 the in-plane point (r, h) = (0.5, -0.5) lies in the source's apex
      region, so it is sent to the vertex at distance sqrt(0.5); the foot (0.2, 0.1) of its
      perpendicular to the generator is nearer, and the corrected section picks it. */
  lemma ApexRegionDiffers()
    ensures GeneratorSectionAsWritten(0.5, -0.5, 2.0, 1.0) == None
    ensures GeneratorSection(0.5, -0.5, 2.0, 1.0) == Some(Section(0.2, 0.1))
    ensures Square(0.2 - 0.5) + Square(0.1 + 0.5) < Square(0.5) + Square(0.5)
  {
    assert Abs(-0.5) == 0.5;
    assert Square(1.0) + Square(2.0) == 5.0;
    assert (2.0 * 0.5 + 1.0 * -0.5) / 5.0 == 0.1;
  }

  /** For a cone with positive height and non-negative radius, the mirrored section of any
      in-plane point (r, h) lies between apex and rim, on the generator, on r's side of the
      axis: the cone's nearest point is the vertex or a frame point of the cone. */
  lemma MirroredSectionOnGenerator(r: real, h: real, R: real, H: real)
    requires H > 0.0 && R >= 0.0 && Square(H) + Square(R) > 0.0
    ensures var g := Mirrored(r, GeneratorSection(Abs(r), h, R, H));
            g.Some? ==>
              0.0 <= g.value.hI <= H && Abs(g.value.rI) <= R
              && Abs(g.value.rI) * H == R * g.value.hI && g.value.rI * r >= 0.0
  {
  }

  // -------------------------------------------------------------- triangle

  /** Barycentric weights of a point with respect to v0, v1, v2. */
  datatype Bary = Bary(l0: real, l1: real, l2: real)

  predicate InTriangle(b: Bary) {
    b.l0 >= 0.0 && b.l1 >= 0.0 && b.l2 >= 0.0
  }

  /** l0 v0 + l1 v1 + l2 v2, accumulated in that order. */
  function TrianglePoint(tri: Triangle, b: Bary): Vector {
    Add(Add(Scale(b.l0, tri.v0), Scale(b.l1, tri.v1)), Scale(b.l2, tri.v2))
  }

  /** The Gram matrix [a00 a01; a01 a11] of the edges v0 - v2 and v1 - v2. */
  datatype Gram = Gram(a00: real, a01: real, a11: real)

  function EdgeGram(tri: Triangle): Gram {
    var v02 := Sub(tri.v0, tri.v2);
    var v12 := Sub(tri.v1, tri.v2);
    Gram(Dot(v02, v02), Dot(v02, v12), Dot(v12, v12))
  }

  predicate Regular(g: Gram) {
    g.a00 * g.a11 - g.a01 * g.a01 != 0.0
  }

  /** The Gram determinant is non-zero and no edge has zero length: every division of the
      projection is defined. */
  predicate TriangleNondegenerate(tri: Triangle) {
    Regular(EdgeGram(tri))
    && Dot(Sub(tri.v0, tri.v1), Sub(tri.v0, tri.v1)) != 0.0
    && Dot(Sub(tri.v1, tri.v2), Sub(tri.v1, tri.v2)) != 0.0
    && Dot(Sub(tri.v0, tri.v2), Sub(tri.v0, tri.v2)) != 0.0
  }

  /** The weights solving the normal equations a00 l0 + a01 l1 = r0, a01 l0 + a11 l1 = r1 by
      Cramer's rule, with l2 = 1 - l0 - l1. */
  function Weights(g: Gram, r0: real, r1: real): (b: Bary)
    requires Regular(g)
    ensures b.l0 + b.l1 + b.l2 == 1.0
    ensures g.a00 * b.l0 + g.a01 * b.l1 == r0 && g.a01 * b.l0 + g.a11 * b.l1 == r1
  {
    var j := g.a00 * g.a11 - g.a01 * g.a01;
    var l0 := (g.a11 * r0 - g.a01 * r1) / j;
    var l1 := (-g.a01 * r0 + g.a00 * r1) / j;
    CramerCheck(g.a00, g.a01, g.a11, r0, r1, j, l0, l1);
    Bary(l0, l1, 1.0 - l0 - l1)
  }

  lemma CramerCheck(a00: real, a01: real, a11: real, r0: real, r1: real, j: real, l0: real, l1: real)
    requires j == a00 * a11 - a01 * a01 && j != 0.0
    requires l0 * j == a11 * r0 - a01 * r1 && l1 * j == -a01 * r0 + a00 * r1
    ensures a00 * l0 + a01 * l1 == r0 && a01 * l0 + a11 * l1 == r1
  {
    assert (a00 * l0 + a01 * l1) * j == r0 * j;
    assert (a01 * l0 + a11 * l1) * j == r1 * j;
  }

  /** The weights of the point of the triangle's plane nearest to p: the right-hand sides
      of the normal equations are (v0 - v2).(p - v2) and (v1 - v2).(p - v2). */
  function Barycentric(tri: Triangle, p: Vector): Bary
    requires TriangleNondegenerate(tri)
  {
    var p2 := Sub(p, tri.v2);
    Weights(EdgeGram(tri), Dot(Sub(tri.v0, tri.v2), p2), Dot(Sub(tri.v1, tri.v2), p2))
  }

  /** The source's weights, whose second right-hand side is -(v1 - v2).(p - v2). */
  function BarycentricAsWritten(tri: Triangle, p: Vector): Bary
    requires TriangleNondegenerate(tri)
  {
    var p2 := Sub(p, tri.v2);
    Weights(EdgeGram(tri), Dot(Sub(tri.v0, tri.v2), p2), -Dot(Sub(tri.v1, tri.v2), p2))
  }

  /** The parameter along the edge from a to b of the point nearest to q, clamped to
      [0, 1]: (q - a).(b - a) / |b - a|^2. */
  function EdgeParameter(a: Vector, b: Vector, q: Vector): (e: real)
    requires Dot(Sub(b, a), Sub(b, a)) != 0.0
    ensures 0.0 <= e <= 1.0
  {
    var dir := Sub(b, a);
    Clamp(Dot(Sub(q, a), dir) / Dot(dir, dir), 0.0, 1.0)
  }

  /** a + e (b - a). */
  function Along(a: Vector, b: Vector, e: real): Vector {
    Add(a, Scale(e, Sub(b, a)))
  }

  function EdgePoint(a: Vector, b: Vector, q: Vector): Vector
    requires Dot(Sub(b, a), Sub(b, a)) != 0.0
  {
    Along(a, b, EdgeParameter(a, b, q))
  }

  /** The first of three candidates with the smallest distance, ties going to the earlier
      one. */
  function Nearest(c0: Projection, c1: Projection, c2: Projection): (pr: Projection)
    ensures pr == c0 || pr == c1 || pr == c2
    ensures pr.dist <= c0.dist && pr.dist <= c1.dist && pr.dist <= c2.dist
    ensures c0.dist <= c1.dist && c0.dist <= c2.dist ==> pr == c0
    ensures c1.dist < c0.dist && c1.dist <= c2.dist ==> pr == c1
    ensures c2.dist < c0.dist && c2.dist < c1.dist ==> pr == c2
  {
    if c0.dist <= c1.dist && c0.dist <= c2.dist then c0
    else if c1.dist <= c0.dist && c1.dist <= c2.dist then c1
    else c2
  }

  /** A point with non-negative weights summing to one lies on the closed triangle. */
  ghost predicate OnTriangle(tri: Triangle, q: Vector) {
    exists b :: InTriangle(b) && b.l0 + b.l1 + b.l2 == 1.0 && q == TrianglePoint(tri, b)
  }

  /** a + e (b - a) is the combination (1 - e) a + e b, written in any order with a third
      vertex at weight zero. */
  lemma AlongIsCombination(a: Vector, b: Vector, c: Vector, e: real)
    ensures Along(a, b, e) == Add(Add(Scale(e, b), Scale(1.0 - e, a)), Scale(0.0, c))
    ensures Along(a, b, e) == Add(Add(Scale(0.0, c), Scale(e, b)), Scale(1.0 - e, a))
    ensures Along(a, b, e) == Add(Add(Scale(e, b), Scale(0.0, c)), Scale(1.0 - e, a))
  {
    var r := Along(a, b, e);
    assert r.x == a.x + (b.x - a.x) * e;
    assert r.y == a.y + (b.y - a.y) * e;
    assert r.z == a.z + (b.z - a.z) * e;
  }

  /** The points of the three edges are points of the triangle. */
  lemma EdgesOnTriangle(tri: Triangle, e: real)
    ensures Along(tri.v1, tri.v0, e) == TrianglePoint(tri, Bary(e, 1.0 - e, 0.0))
    ensures Along(tri.v2, tri.v1, e) == TrianglePoint(tri, Bary(0.0, e, 1.0 - e))
    ensures Along(tri.v2, tri.v0, e) == TrianglePoint(tri, Bary(e, 0.0, 1.0 - e))
  {
    AlongIsCombination(tri.v1, tri.v0, tri.v2, e);
    AlongIsCombination(tri.v2, tri.v1, tri.v0, e);
    AlongIsCombination(tri.v2, tri.v0, tri.v1, e);
  }

  /** The edge-fallback candidate on the edge from a to b, with its distance. */
  function EdgeCandidate(p: Vector, a: Vector, b: Vector, q: Vector): (c: Projection)
    requires Dot(Sub(b, a), Sub(b, a)) != 0.0
  {
    var cl := EdgePoint(a, b, q);
    Projection(DistanceTo(p, cl), cl)
  }

  /** Projection with given weights: the plane point when it is inside the triangle,
      otherwise the nearest of the clamped points of the edges v1v0, v2v1, v2v0. */
  function ProjectWithWeights(p: Vector, tri: Triangle, b: Bary): (pr: Projection)
    requires TriangleNondegenerate(tri)
    ensures InTriangle(b) ==> pr.closest == TrianglePoint(tri, b)
    ensures !InTriangle(b) ==>
              var q := TrianglePoint(tri, b);
              var c0 := EdgeCandidate(p, tri.v1, tri.v0, q);
              var c1 := EdgeCandidate(p, tri.v2, tri.v1, q);
              var c2 := EdgeCandidate(p, tri.v2, tri.v0, q);
              (pr == c0 || pr == c1 || pr == c2)
              && pr.dist <= c0.dist && pr.dist <= c1.dist && pr.dist <= c2.dist
    ensures pr.dist == DistanceTo(p, pr.closest)
  {
    var q := TrianglePoint(tri, b);
    if InTriangle(b) then
      Projection(DistanceTo(p, q), q)
    else
      Nearest(EdgeCandidate(p, tri.v1, tri.v0, q), EdgeCandidate(p, tri.v2, tri.v1, q),
              EdgeCandidate(p, tri.v2, tri.v0, q))
  }

  /** Whatever the weights, the chosen point lies on the closed triangle when the weights
      sum to one. */
  lemma ProjectWithWeightsOnTriangle(p: Vector, tri: Triangle, b: Bary)
    requires TriangleNondegenerate(tri) && b.l0 + b.l1 + b.l2 == 1.0
    ensures OnTriangle(tri, ProjectWithWeights(p, tri, b).closest)
  {
    var pr := ProjectWithWeights(p, tri, b);
    if !InTriangle(b) {
      var q := TrianglePoint(tri, b);
      var e0 := EdgeParameter(tri.v1, tri.v0, q);
      var e1 := EdgeParameter(tri.v2, tri.v1, q);
      var e2 := EdgeParameter(tri.v2, tri.v0, q);
      EdgesOnTriangle(tri, e0);
      EdgesOnTriangle(tri, e1);
      EdgesOnTriangle(tri, e2);
      var w := if pr == EdgeCandidate(p, tri.v1, tri.v0, q) then Bary(e0, 1.0 - e0, 0.0)
               else if pr == EdgeCandidate(p, tri.v2, tri.v1, q) then Bary(0.0, e1, 1.0 - e1)
               else Bary(e2, 0.0, 1.0 - e2);
      assert pr.closest == TrianglePoint(tri, w);
    }
  }

  /** The triangle's nearest point: the in-plane projection when its weights are all
      non-negative, else the nearest clamped edge point. */
  function ProjectPointTriangle(p: Vector, tri: Triangle): (pr: Projection)
    requires TriangleNondegenerate(tri)
    ensures OnTriangle(tri, pr.closest)
    ensures pr.dist == DistanceTo(p, pr.closest)
  {
    var b := Barycentric(tri, p);
    ProjectWithWeightsOnTriangle(p, tri, b);
    ProjectWithWeights(p, tri, b)
  }

  /** The source's projection, with the sign-flipped second normal equation: its point is
      still on the triangle. */
  function ProjectPointTriangleAsWritten(p: Vector, tri: Triangle): (pr: Projection)
    requires TriangleNondegenerate(tri)
    ensures OnTriangle(tri, pr.closest)
    ensures pr.dist == DistanceTo(p, pr.closest)
  {
    var b := BarycentricAsWritten(tri, p);
    ProjectWithWeightsOnTriangle(p, tri, b);
    ProjectWithWeights(p, tri, b)
  }

  /** Two solutions of a non-singular symmetric 2x2 system agree. */
  lemma Unique2(a00: real, a01: real, a11: real, x: real, y: real)
    requires a00 * a11 - a01 * a01 != 0.0
    requires a00 * x + a01 * y == 0.0 && a01 * x + a11 * y == 0.0
    ensures x == 0.0 && y == 0.0
  {
    assert (a00 * a11 - a01 * a01) * x == a11 * (a00 * x + a01 * y) - a01 * (a01 * x + a11 * y);
    assert (a00 * a11 - a01 * a01) * y == a00 * (a01 * x + a11 * y) - a01 * (a00 * x + a01 * y);
  }

  /** The right-hand sides of the normal equations for a point with weights b. */
  lemma RightHandSides(tri: Triangle, b: Bary)
    requires b.l0 + b.l1 + b.l2 == 1.0
    ensures var v02 := Sub(tri.v0, tri.v2);
            var v12 := Sub(tri.v1, tri.v2);
            var p2 := Sub(TrianglePoint(tri, b), tri.v2);
            var g := EdgeGram(tri);
            Dot(v02, p2) == g.a00 * b.l0 + g.a01 * b.l1 && Dot(v12, p2) == g.a01 * b.l0 + g.a11 * b.l1
  {
    var v02 := Sub(tri.v0, tri.v2);
    var v12 := Sub(tri.v1, tri.v2);
    assert Sub(TrianglePoint(tri, b), tri.v2) == Add(Scale(b.l0, v02), Scale(b.l1, v12));
    DotAddScaled(v02, v02, v12, b.l0, b.l1);
    DotAddScaled(v12, v02, v12, b.l0, b.l1);
  }

  /** The weights are the only solution of a regular system. */
  lemma WeightsUnique(g: Gram, r0: real, r1: real, b: Bary)
    requires Regular(g) && b.l0 + b.l1 + b.l2 == 1.0
    requires g.a00 * b.l0 + g.a01 * b.l1 == r0 && g.a01 * b.l0 + g.a11 * b.l1 == r1
    ensures Weights(g, r0, r1) == b
  {
    var c := Weights(g, r0, r1);
    Unique2(g.a00, g.a01, g.a11, c.l0 - b.l0, c.l1 - b.l1);
  }

  /** The weights computed for a point of the triangle's plane are that point's weights. */
  lemma BarycentricOfPlanePoint(tri: Triangle, b: Bary)
    requires TriangleNondegenerate(tri) && b.l0 + b.l1 + b.l2 == 1.0
    ensures Barycentric(tri, TrianglePoint(tri, b)) == b
  {
    var p2 := Sub(TrianglePoint(tri, b), tri.v2);
    RightHandSides(tri, b);
    WeightsUnique(EdgeGram(tri), Dot(Sub(tri.v0, tri.v2), p2), Dot(Sub(tri.v1, tri.v2), p2), b);
  }

  /** A point of a non-degenerate triangle is its own nearest point. */
  lemma TriangleFixesItsPoints(tri: Triangle, b: Bary)
    requires TriangleNondegenerate(tri) && InTriangle(b) && b.l0 + b.l1 + b.l2 == 1.0
    ensures var q := TrianglePoint(tri, b);
            ProjectPointTriangle(q, tri) == Projection(0.0, q)
  {
    BarycentricOfPlanePoint(tri, b);
  }

  /** The right triangle v0 = (1, 0, 0), v1 = (0, 1, 0), v2 = (0, 0, 0) and the midpoint
      (0, 0.5, 0) of its edge v1v2. */
  const RightTriangle: Triangle := Triangle(Vector(1.0, 0.0, 0.0), Vector(0.0, 1.0, 0.0), Zero)
  const EdgeMidpoint: Vector := Vector(0.0, 0.5, 0.0)

  /** A triangle whose edges v0 - v2 and v1 - v2 are orthonormal and whose third edge has
      squared length 2 is non-degenerate. */
  lemma NondegenerateRight(tri: Triangle)
    requires EdgeGram(tri) == Gram(1.0, 0.0, 1.0)
    requires Dot(Sub(tri.v0, tri.v1), Sub(tri.v0, tri.v1)) == 2.0
    ensures TriangleNondegenerate(tri)
  {
  }

  lemma RightTriangleGram()
    ensures EdgeGram(RightTriangle) == Gram(1.0, 0.0, 1.0)
  {
  }

  lemma RightTriangleHypotenuse()
    ensures Dot(Sub(RightTriangle.v0, RightTriangle.v1), Sub(RightTriangle.v0, RightTriangle.v1)) == 2.0
  {
  }

  lemma RightTriangleNondegenerate()
    ensures TriangleNondegenerate(RightTriangle)
  {
    RightTriangleGram();
    RightTriangleHypotenuse();
    NondegenerateRight(RightTriangle);
  }

  lemma MidpointRightHandSides()
    ensures var p2 := Sub(EdgeMidpoint, RightTriangle.v2);
            Dot(Sub(RightTriangle.v0, RightTriangle.v2), p2) == 0.0
            && Dot(Sub(RightTriangle.v1, RightTriangle.v2), p2) == 0.5
  {
  }

  lemma MidpointOnTriangle()
    ensures EdgeMidpoint == TrianglePoint(RightTriangle, Bary(0.0, 0.5, 0.5))
  {
  }

  lemma RightTriangleWeights()
    ensures TriangleNondegenerate(RightTriangle)
    ensures BarycentricAsWritten(RightTriangle, EdgeMidpoint) == Bary(0.0, -0.5, 1.5)
  {
    RightTriangleNondegenerate();
    RightTriangleGram();
    MidpointRightHandSides();
    WeightsUnique(Gram(1.0, 0.0, 1.0), 0.0, -0.5, Bary(0.0, -0.5, 1.5));
  }

  /** The plane point for the weights (0, -0.5, 1.5) and the three clamped edge points. */
  const FootOutside: Vector := Vector(0.0, -0.5, 0.0)

  lemma FootOutsidePoint()
    ensures TrianglePoint(RightTriangle, Bary(0.0, -0.5, 1.5)) == FootOutside
  {
  }

  /** The clamped edge point from the edge's squared length d, the dot product n and the
      clamped ratio e. */
  lemma EdgePointFrom(a: Vector, b: Vector, q: Vector, d: real, n: real, e: real)
    requires Dot(Sub(b, a), Sub(b, a)) == d && d != 0.0 && Dot(Sub(q, a), Sub(b, a)) == n
    requires Clamp(n / d, 0.0, 1.0) == e
    ensures EdgePoint(a, b, q) == Along(a, b, e)
  {
  }

  /** The clamped edge parameter from the edge's squared length d and the dot product n. */
  lemma EdgeParameterFrom(a: Vector, b: Vector, q: Vector, d: real, n: real, e: real)
    requires Dot(Sub(b, a), Sub(b, a)) == d && d != 0.0 && Dot(Sub(q, a), Sub(b, a)) == n
    requires Clamp(n / d, 0.0, 1.0) == e
    ensures EdgeParameter(a, b, q) == e
  {
  }

  lemma HypotenuseEdges()
    ensures Sub(FootOutside, RightTriangle.v1) == Vector(0.0, -1.5, 0.0)
    ensures Sub(RightTriangle.v0, RightTriangle.v1) == Vector(1.0, -1.0, 0.0)
  {
  }

  lemma HypotenuseDot()
    ensures Dot(Vector(0.0, -1.5, 0.0), Vector(1.0, -1.0, 0.0)) == 1.5
  {
  }

  lemma HypotenuseFoot()
    ensures Dot(Sub(FootOutside, RightTriangle.v1), Sub(RightTriangle.v0, RightTriangle.v1)) == 1.5
  {
    HypotenuseEdges();
    HypotenuseDot();
  }

  lemma Leg1Length()
    ensures Dot(Sub(RightTriangle.v1, RightTriangle.v2), Sub(RightTriangle.v1, RightTriangle.v2)) == 1.0
  {
  }

  lemma Leg0Length()
    ensures Dot(Sub(RightTriangle.v0, RightTriangle.v2), Sub(RightTriangle.v0, RightTriangle.v2)) == 1.0
  {
  }

  lemma Leg1Foot()
    ensures Dot(Sub(FootOutside, RightTriangle.v2), Sub(RightTriangle.v1, RightTriangle.v2)) == -0.5
  {
  }

  lemma Leg0Foot()
    ensures Dot(Sub(FootOutside, RightTriangle.v2), Sub(RightTriangle.v0, RightTriangle.v2)) == 0.0
  {
  }

  lemma AlongHypotenuse()
    ensures Along(RightTriangle.v1, RightTriangle.v0, 0.75) == Vector(0.75, 0.25, 0.0)
  {
  }

  lemma AlongLeg1()
    ensures Along(RightTriangle.v2, RightTriangle.v1, 0.0) == Zero
  {
  }

  lemma AlongLeg0()
    ensures Along(RightTriangle.v2, RightTriangle.v0, 0.0) == Zero
  {
  }

  lemma ClampZeroRatio()
    ensures Clamp(0.0 / 1.0, 0.0, 1.0) == 0.0
  {
  }

  lemma FallbackEdge0()
    requires Dot(Sub(RightTriangle.v0, RightTriangle.v1), Sub(RightTriangle.v0, RightTriangle.v1)) == 2.0
    ensures EdgePoint(RightTriangle.v1, RightTriangle.v0, FootOutside) == Vector(0.75, 0.25, 0.0)
  {
    HypotenuseFoot();
    EdgeParameterFrom(RightTriangle.v1, RightTriangle.v0, FootOutside, 2.0, 1.5, 0.75);
    AlongHypotenuse();
  }

  lemma FallbackEdge1()
    requires Dot(Sub(RightTriangle.v1, RightTriangle.v2), Sub(RightTriangle.v1, RightTriangle.v2)) == 1.0
    ensures EdgePoint(RightTriangle.v2, RightTriangle.v1, FootOutside) == Zero
  {
    Leg1Foot();
    EdgeParameterFrom(RightTriangle.v2, RightTriangle.v1, FootOutside, 1.0, -0.5, 0.0);
    AlongLeg1();
  }

  lemma FallbackEdge2()
    requires Dot(Sub(RightTriangle.v0, RightTriangle.v2), Sub(RightTriangle.v0, RightTriangle.v2)) == 1.0
    ensures EdgePoint(RightTriangle.v2, RightTriangle.v0, FootOutside) == Zero
  {
    Leg0Foot();
    ClampZeroRatio();
    EdgePointFrom(RightTriangle.v2, RightTriangle.v0, FootOutside, 1.0, 0.0, 0.0);
    AlongLeg0();
  }

  /** The fallback returns one of the three edge points, so it misses any point that none
      of them is. */
  lemma FallbackMisses(p: Vector, tri: Triangle, b: Bary, q: Vector, e0: Vector, e1: Vector, e2: Vector)
    requires TriangleNondegenerate(tri) && !InTriangle(b) && TrianglePoint(tri, b) == q
    requires EdgePoint(tri.v1, tri.v0, q) == e0 && EdgePoint(tri.v2, tri.v1, q) == e1
             && EdgePoint(tri.v2, tri.v0, q) == e2
    requires e0 != p && e1 != p && e2 != p
    ensures ProjectWithWeights(p, tri, b).closest != p
  {
  }

  /** FallbackMisses for the edge midpoint, once the plane point and the edge points are known. */
  lemma MidpointMissed(tri: Triangle)
    requires TriangleNondegenerate(tri)
    requires TrianglePoint(tri, Bary(0.0, -0.5, 1.5)) == FootOutside
    requires EdgePoint(tri.v1, tri.v0, FootOutside) == Vector(0.75, 0.25, 0.0)
    requires EdgePoint(tri.v2, tri.v1, FootOutside) == Zero
    requires EdgePoint(tri.v2, tri.v0, FootOutside) == Zero
    ensures ProjectWithWeights(EdgeMidpoint, tri, Bary(0.0, -0.5, 1.5)).closest != EdgeMidpoint
  {
    FallbackMisses(EdgeMidpoint, tri, Bary(0.0, -0.5, 1.5), FootOutside,
                   Vector(0.75, 0.25, 0.0), Zero, Zero);
  }

  /** With the weights (0, -0.5, 1.5) the plane point (0, -0.5, 0) lies outside the
      triangle; the clamped edge points are (0.75, 0.25, 0) and twice the origin, and none
      of them is the edge midpoint. */
  lemma RightTriangleFallback()
    requires TriangleNondegenerate(RightTriangle)
    ensures ProjectWithWeights(EdgeMidpoint, RightTriangle, Bary(0.0, -0.5, 1.5)).closest != EdgeMidpoint
  {
    FootOutsidePoint();
    RightTriangleHypotenuse();
    Leg1Length();
    Leg0Length();
    FallbackEdge0();
    FallbackEdge1();
    FallbackEdge2();
    MidpointMissed(RightTriangle);
  }

  /** The midpoint of the edge v1v2 lies on the right triangle, yet the source's weights
      (0, -0.5, 1.5) send it to the edge fallback, which returns another point; the
      corrected weights return the midpoint itself at distance 0. */
  lemma TriangleWeightsDefect()
    ensures TriangleNondegenerate(RightTriangle)
    ensures BarycentricAsWritten(RightTriangle, EdgeMidpoint) == Bary(0.0, -0.5, 1.5)
    ensures ProjectPointTriangleAsWritten(EdgeMidpoint, RightTriangle).closest != EdgeMidpoint
    ensures ProjectPointTriangle(EdgeMidpoint, RightTriangle) == Projection(0.0, EdgeMidpoint)
  {
    RightTriangleWeights();
    RightTriangleFallback();
    MidpointOnTriangle();
    TriangleFixesItsPoints(RightTriangle, Bary(0.0, 0.5, 0.5));
  }

  // -------------------------------------------------------------- dispatch

  /** The reported distance for shapes without a projection (spheres, unknown tags). */
  const NoProjection: real := 1000000.0

  /** The divisions each projection performs are defined for the shape. */
  predicate Projectable(s: Shape) {
    match s.geom
    case RectangleShape(rect) => rect.length0 != 0.0 && rect.length1 != 0.0
    case DiskShape(disk) => disk.radius >= 0.0
    case ConeShape(cone) => cone.height != 0.0 && Square(cone.height) + Square(cone.radius) > 0.0
    case TriangleShape(tri) => TriangleNondegenerate(tri)
    case _ => true
  }

  /** The projection selected by the shape's tag, running the cone and triangle projections
      as the source writes them; a sphere or an unknown tag reports distance 1000000 and
      leaves the caller's closest point as it was. */
  function ProjectPointShape(p: Vector, s: Shape, closest: Vector): (pr: Projection)
    requires Projectable(s)
    ensures s.geom.SphereShape? || s.geom.Untagged? ==> pr == Projection(NoProjection, closest)
    ensures !s.geom.SphereShape? && !s.geom.Untagged? ==> pr.dist == DistanceTo(p, pr.closest)
    ensures s.geom.TriangleShape? ==> OnTriangle(s.geom.triangle, pr.closest)
  {
    match s.geom
    case DiskShape(disk) => ProjectPointDisk(p, disk)
    case RectangleShape(rect) => ProjectPointRectangle(p, rect)
    case CylinderShape(cyl) => ProjectPointCylinder(p, cyl)
    case ConeShape(cone) => ProjectPointConeAsWritten(p, cone)
    case TriangleShape(tri) => ProjectPointTriangleAsWritten(p, tri)
    case _ => Projection(NoProjection, closest)
  }
}
