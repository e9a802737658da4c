/** Ray/primitive intersection tests. Each test receives the current nearest parameter
    `bound` (the C code's in/out `*t`) and either reports a hit with a new parameter, which
    the caller stores, or a miss, which leaves the caller's parameter untouched. */
module Intersections {
  import opened Types
  import opened Utils

  datatype Hit = Miss | Hit(t: real)

  /** start + t dir, the point the ray reaches at parameter t. */
  function PointAt(r: Ray, t: real): Vector {
    Add(r.start, Scale(t, r.dir))
  }

  /** The bound after a test: a hit replaces it, a miss keeps it. */
  function Updated(h: Hit, bound: real): real {
    if h.Hit? then h.t else bound
  }

  lemma DotPointAt(n: Vector, r: Ray, t: real)
    ensures Dot(n, PointAt(r, t)) == Dot(n, r.start) + t * Dot(n, r.dir)
  {
    assert n.x * (r.start.x + r.dir.x * t) == n.x * r.start.x + t * (n.x * r.dir.x);
    assert n.y * (r.start.y + r.dir.y * t) == n.y * r.start.y + t * (n.y * r.dir.y);
    assert n.z * (r.start.z + r.dir.z * t) == n.z * r.start.z + t * (n.z * r.dir.z);
  }

  lemma QuotientTimes(num: real, den: real)
    requires den != 0.0
    ensures (num / den) * den == num
  {
  }

  // ---------------------------------------------------------------- disk

  const DiskTolerance: real := 0.00000001   // tol = 1e-8

  /** A hit lies on the disk's plane, no farther than the radius from the center, at a
      non-negative parameter strictly below the bound; a ray nearly parallel to the plane
      misses. */
  function IntersectRayDisk(r: Ray, disk: Disk, bound: real): (h: Hit)
    ensures h.Hit? ==> 0.0 <= h.t < bound
    ensures h.Hit? ==> Dot(disk.normal, PointAt(r, h.t)) == Dot(disk.normal, disk.center)
    ensures h.Hit? ==> Norm(Sub(PointAt(r, h.t), disk.center)) <= disk.radius
    ensures Abs(Dot(disk.normal, r.dir)) < DiskTolerance ==> h == Miss
  {
    var numerator := Dot(disk.normal, disk.center) - Dot(disk.normal, r.start);
    var denominator := Dot(disk.normal, r.dir);
    if Abs(denominator) < DiskTolerance then Miss
    else
      var t := numerator / denominator;
      if t < 0.0 then Miss
      else if Norm(Sub(PointAt(r, t), disk.center)) > disk.radius then Miss
      else if t < bound then
        DotPointAt(disk.normal, r, t);
        QuotientTimes(numerator, denominator);
        Hit(t)
      else Miss
  }

  // ------------------------------------------------------- cylinder and cone

  /** Height of p above base, measured along axis. */
  function AxialHeight(p: Vector, base: Vector, axis: Vector): real {
    Dot(Sub(p, base), axis)
  }

  /** The nearer root (-sq - b) / (2a) of a t^2 + b t + c = 0, when sq is the square root of
      its discriminant and a > 0. */
  function NearRoot(a: real, b: real, sq: real): real
    requires a != 0.0
  {
    (-sq - b) / (2.0 * a)
  }

  /** The farther root (sq - b) / (2a), when a > 0. */
  function FarRoot(a: real, b: real, sq: real): real
    requires a != 0.0
  {
    (sq - b) / (2.0 * a)
  }

  /** The acceptance test for a root t: its point lies strictly between the base and the top
      along the axis, and t is below the bound. */
  predicate AxialAccepts(r: Ray, base: Vector, axis: Vector, height: real, t: real, bound: real) {
    0.0 < AxialHeight(PointAt(r, t), base, axis) < height && t < bound
  }

  /** The root selection shared by the cylinder and cone tests, for a t^2 + b t + c = 0 with
      the discriminant already known to be non-negative and sq its square root. The nearer
      root is tried first, when -b > sq; the farther one is the fall-back. Both sign tests
      look only at the numerators, so they keep roots behind the start out only when a > 0:
      with a < 0, possible for the cone, a negative root can be returned (see
      AxialRootsBehindStart). A zero leading coefficient divides by zero in C; the resulting
      infinite or NaN parameter never passes the height test, so it is a miss here. */
  function AxialRoots(r: Ray, base: Vector, axis: Vector, height: real,
                      a: real, b: real, sq: real, bound: real): (h: Hit)
    requires sq >= 0.0
    ensures h.Hit? ==> AxialAccepts(r, base, axis, height, h.t, bound)
    ensures h.Hit? ==> a != 0.0 && (h.t == NearRoot(a, b, sq) || h.t == FarRoot(a, b, sq))
    ensures (a != 0.0 && -b > sq && AxialAccepts(r, base, axis, height, NearRoot(a, b, sq), bound))
              ==> h == Hit(NearRoot(a, b, sq))
    ensures (a != 0.0 && -b + sq >= 0.0 && AxialAccepts(r, base, axis, height, FarRoot(a, b, sq), bound))
              ==> h.Hit?
    ensures h.Hit? && a > 0.0 ==> h.t >= 0.0
    ensures -b + sq < 0.0 ==> h == Miss
  {
    if -b + sq < 0.0 then Miss
    else if a == 0.0 then Miss
    else
      var tNear := NearRoot(a, b, sq);
      var tFar := FarRoot(a, b, sq);
      if -b > sq && AxialAccepts(r, base, axis, height, tNear, bound) then
        assert a > 0.0 ==> tNear >= 0.0 by {
          if a > 0.0 { PositiveQuotient(-sq - b, 2.0 * a); }
        }
        Hit(tNear)
      else if AxialAccepts(r, base, axis, height, tFar, bound) then
        assert a > 0.0 ==> tFar >= 0.0 by {
          if a > 0.0 { NonNegativeQuotient(sq - b, 2.0 * a); }
        }
        Hit(tFar)
      else Miss
  }

  /** The intended selection: the nearest of the two roots that lies ahead of the start
      (t >= 0) and passes the acceptance test, whatever the sign of a. */
  function AxialRootsAhead(r: Ray, base: Vector, axis: Vector, height: real,
                           a: real, b: real, sq: real, bound: real): (h: Hit)
    ensures h.Hit? ==> h.t >= 0.0 && AxialAccepts(r, base, axis, height, h.t, bound)
    ensures h.Hit? ==> a != 0.0 && (h.t == NearRoot(a, b, sq) || h.t == FarRoot(a, b, sq))
    ensures (a != 0.0 && NearRoot(a, b, sq) >= 0.0
             && AxialAccepts(r, base, axis, height, NearRoot(a, b, sq), bound))
              ==> h.Hit? && h.t <= NearRoot(a, b, sq)
    ensures (a != 0.0 && FarRoot(a, b, sq) >= 0.0
             && AxialAccepts(r, base, axis, height, FarRoot(a, b, sq), bound))
              ==> h.Hit? && h.t <= FarRoot(a, b, sq)
  {
    if a == 0.0 then Miss
    else
      var t0 := Min(NearRoot(a, b, sq), FarRoot(a, b, sq));
      var t1 := Max(NearRoot(a, b, sq), FarRoot(a, b, sq));
      if t0 >= 0.0 && AxialAccepts(r, base, axis, height, t0, bound) then Hit(t0)
      else if t1 >= 0.0 && AxialAccepts(r, base, axis, height, t1, bound) then Hit(t1)
      else Miss
  }

  lemma PositiveQuotient(num: real, den: real)
    requires num > 0.0 && den > 0.0
    ensures num / den > 0.0
  {
  }

  lemma NonNegativeQuotient(num: real, den: real)
    requires num >= 0.0 && den > 0.0
    ensures num / den >= 0.0
  {
  }

  /** A hit of the finite cylinder: its point lies strictly between the base disk and the
      top along the axis, ahead of the start and below the bound (the leading coefficient
      |h|^2 is never negative, so the sign tests keep roots behind the start out); no hit
      when the quadratic has no real root. */
  function IntersectRayCylinder(r: Ray, cylinder: Cylinder, bound: real): (h: Hit)
    ensures h.Hit? ==> 0.0 <= h.t < bound
    ensures h.Hit? ==> 0.0 < AxialHeight(PointAt(r, h.t), cylinder.center, cylinder.axis) < cylinder.height
    ensures CylinderDiscriminant(r, cylinder) < 0.0 ==> h == Miss
  {
    var disc := CylinderDiscriminant(r, cylinder);
    if disc < 0.0 then Miss
    else
      var hTerm := Sub(r.dir, Scale(Dot(r.dir, cylinder.axis), cylinder.axis));
      var a := Dot(hTerm, hTerm);
      var b := 2.0 * Dot(hTerm, CylinderConstTerm(r, cylinder));
      DotSelfNonNegative(hTerm);
      AxialRoots(r, cylinder.center, cylinder.axis, cylinder.height, a, b, Sqrt(disc), bound)
  }

  /** The part of start - center orthogonal to the axis. */
  function CylinderConstTerm(r: Ray, cylinder: Cylinder): Vector {
    var rel := Sub(r.start, cylinder.center);
    Sub(rel, Scale(Dot(cylinder.axis, rel), cylinder.axis))
  }

  /** b^2 - 4 a c of the infinite cylinder's quadratic. */
  function CylinderDiscriminant(r: Ray, cylinder: Cylinder): real {
    var hTerm := Sub(r.dir, Scale(Dot(r.dir, cylinder.axis), cylinder.axis));
    var constTerm := CylinderConstTerm(r, cylinder);
    var a := Dot(hTerm, hTerm);
    var b := 2.0 * Dot(hTerm, constTerm);
    var c := Dot(constTerm, constTerm) - cylinder.radius * cylinder.radius;
    b * b - 4.0 * a * c
  }

  /** The quadratic coefficients of the infinite double cone; its height must be non-zero. */
  function ConeCoefficients(r: Ray, cone: Cone): (abc: (real, real, real))
    requires cone.height != 0.0
  {
    var projectedStart := Sub(r.start, cone.vertex);
    var hTerm := Sub(r.dir, Scale(Dot(r.dir, cone.axis), cone.axis));
    var constTerm := Sub(projectedStart, Scale(Dot(cone.axis, projectedStart), cone.axis));
    ConeTerms(Dot(hTerm, hTerm), Dot(hTerm, constTerm), Dot(constTerm, constTerm),
              Dot(cone.axis, r.dir), Dot(cone.axis, projectedStart), cone.radius, cone.height)
  }

  /** The cone's coefficients from the dot products h.h, h.c, c.c, a.d and a.p, with the
      R/H factors grouped as the source groups them. */
  function ConeTerms(hh: real, hc: real, cc: real, ad: real, ap: real, R: real, H: real): (real, real, real)
    requires H != 0.0
  {
    SquareNonZero(H);
    (hh - ad * ad * R * R / (H * H),
     2.0 * hc - 2.0 * ad * R / H * ap * R / H,
     cc - ap * R / H * ap * R / H)
  }

  /** A hit of the finite cone: its point lies strictly between the apex and the base along
      the axis, below the bound. A cone of zero height divides by zero in C; it is a miss
      here. */
  function IntersectRayCone(r: Ray, cone: Cone, bound: real): (h: Hit)
    ensures h.Hit? ==> h.t < bound
    ensures h.Hit? ==> 0.0 < AxialHeight(PointAt(r, h.t), cone.vertex, cone.axis) < cone.height
  {
    if cone.height == 0.0 then Miss
    else
      var (a, b, c) := ConeCoefficients(r, cone);
      var disc := b * b - 4.0 * a * c;
      if disc < 0.0 then Miss
      else AxialRoots(r, cone.vertex, cone.axis, cone.height, a, b, Sqrt(disc), bound)
  }

  /** The intended cone test: the same quadratic, with the nearest qualifying root ahead of
      the start taken whatever the sign of a; it never reports a point behind the start. */
  function IntersectRayConeAhead(r: Ray, cone: Cone, bound: real): (h: Hit)
    ensures h.Hit? ==> 0.0 <= h.t < bound
    ensures h.Hit? ==> 0.0 < AxialHeight(PointAt(r, h.t), cone.vertex, cone.axis) < cone.height
  {
    if cone.height == 0.0 then Miss
    else
      var (a, b, c) := ConeCoefficients(r, cone);
      var disc := b * b - 4.0 * a * c;
      if disc < 0.0 then Miss
      else AxialRootsAhead(r, cone.vertex, cone.axis, cone.height, a, b, Sqrt(disc), bound)
  }

  /** The value of the quadratic with coefficients abc at t. */
  function Quadratic(abc: (real, real, real), t: real): real {
    abc.0 * t * t + abc.1 * t + abc.2
  }

  /** The cone's quadratic is its surface equation along the ray: at every parameter t,
      a t^2 + b t + c is the squared distance of the ray's point from the axis less (R/H)^2
      times its squared height above the apex, so the roots are exactly the parameters at
      which the ray meets the infinite double cone. */
  lemma ConeQuadratic(r: Ray, cone: Cone, t: real)
    requires cone.height != 0.0
    ensures var q := Sub(PointAt(r, t), cone.vertex);
            var off := Sub(q, Scale(Dot(cone.axis, q), cone.axis));
            Quadratic(ConeCoefficients(r, cone), t)
              == Dot(off, off) - Square(cone.radius / cone.height * Dot(cone.axis, q))
  {
    var ps := Sub(r.start, cone.vertex);
    var hTerm := Sub(r.dir, Scale(Dot(r.dir, cone.axis), cone.axis));
    var constTerm := Sub(ps, Scale(Dot(cone.axis, ps), cone.axis));
    var q := Sub(PointAt(r, t), cone.vertex);
    assert q == Add(ps, Scale(t, r.dir));
    DotAffine(cone.axis, ps, r.dir, t);
    var off := Sub(q, Scale(Dot(cone.axis, q), cone.axis));
    OffAxisAffine(cone.axis, ps, r.dir, t);
    assert off == Add(constTerm, Scale(t, hTerm));
    DotSelfAffine(constTerm, hTerm, t);
    ConeScalars(Dot(hTerm, hTerm), Dot(hTerm, constTerm), Dot(constTerm, constTerm),
                Dot(cone.axis, r.dir), Dot(cone.axis, ps), cone.radius, cone.height, t);
  }

  /** The value p + t d of a coordinate that starts at p and moves by d per unit of t. */
  function Along(p: real, t: real, d: real): real {
    p + t * d
  }

  /** |c + t h|^2 from the dot products c.c, h.c and h.h. */
  function SquaredAlong(cc: real, hc: real, hh: real, t: real): real {
    cc + 2.0 * t * hc + t * t * hh
  }

  /** a.(p + t d) = a.p + t a.d. */
  lemma DotAffine(a: Vector, p: Vector, d: Vector, t: real)
    ensures Dot(a, Add(p, Scale(t, d))) == Along(Dot(a, p), t, Dot(a, d))
  {
    assert a.x * (p.x + d.x * t) == a.x * p.x + t * (a.x * d.x);
    assert a.y * (p.y + d.y * t) == a.y * p.y + t * (a.y * d.y);
    assert a.z * (p.z + d.z * t) == a.z * p.z + t * (a.z * d.z);
  }

  /** The part of p + t d off the axis a is the part of p off it plus t times that of d. */
  lemma OffAxisAffine(a: Vector, p: Vector, d: Vector, t: real)
    requires Dot(a, Add(p, Scale(t, d))) == Along(Dot(a, p), t, Dot(a, d))
    ensures var q := Add(p, Scale(t, d));
            Sub(q, Scale(Dot(a, q), a))
              == Add(Sub(p, Scale(Dot(a, p), a)), Scale(t, Sub(d, Scale(Dot(d, a), a))))
  {
    var ap, ad := Dot(a, p), Dot(a, d);
    assert Dot(d, a) == ad;
    assert (ap + t * ad) * a.x == ap * a.x + t * (ad * a.x);
    assert (ap + t * ad) * a.y == ap * a.y + t * (ad * a.y);
    assert (ap + t * ad) * a.z == ap * a.z + t * (ad * a.z);
  }

  /** (c + t h).(c + t h) = c.c + 2 t h.c + t^2 h.h. */
  lemma DotSelfAffine(c: Vector, h: Vector, t: real)
    ensures var v := Add(c, Scale(t, h));
            Dot(v, v) == SquaredAlong(Dot(c, c), Dot(h, c), Dot(h, h), t)
  {
    SquareAffine(c.x, h.x, t);
    SquareAffine(c.y, h.y, t);
    SquareAffine(c.z, h.z, t);
    SquaredAlongSum(c.x * c.x, c.y * c.y, c.z * c.z, h.x * c.x, h.y * c.y, h.z * c.z,
                    h.x * h.x, h.y * h.y, h.z * h.z, t);
  }

  lemma SquareAffine(c: real, h: real, t: real)
    ensures (c + h * t) * (c + h * t) == SquaredAlong(c * c, h * c, h * h, t)
  {
  }

  /** SquaredAlong adds up coordinate by coordinate. */
  lemma SquaredAlongSum(cc1: real, cc2: real, cc3: real, hc1: real, hc2: real, hc3: real,
                        hh1: real, hh2: real, hh3: real, t: real)
    ensures SquaredAlong(cc1 + cc2 + cc3, hc1 + hc2 + hc3, hh1 + hh2 + hh3, t)
            == SquaredAlong(cc1, hc1, hh1, t) + SquaredAlong(cc2, hc2, hh2, t) + SquaredAlong(cc3, hc3, hh3, t)
  {
  }

  /** x R / H regrouped as x (R / H). */
  lemma Ratio(x: real, R: real, H: real)
    requires H != 0.0
    ensures x * R / H == x * (R / H)
  {
  }

  lemma ZeroFactor(x: real, H: real)
    requires H != 0.0 && x * H == 0.0
    ensures x == 0.0
  {
  }

  /** Dividing by H^2 is dividing by H twice. */
  lemma DivTwice(n: real, H: real)
    requires H != 0.0
    ensures n / (H * H) == n / H / H
  {
    SquareNonZero(H);
    assert n / H / H * H == n / H;
    assert n / H * H == n;
    assert n / H / H * H * H == n;
    assert n / (H * H) * (H * H) == n;
    assert (n / (H * H) - n / H / H) * H * H == 0.0;
    ZeroFactor((n / (H * H) - n / H / H) * H, H);
    ZeroFactor(n / (H * H) - n / H / H, H);
  }

  /** The source's x x R R / (H H) is the square of x (R / H). */
  lemma RatioSquare(x: real, R: real, H: real)
    requires H != 0.0
    ensures x * x * R * R / (H * H) == (x * (R / H)) * (x * (R / H))
  {
    DivTwice(x * x * R * R, H);
    Ratio(x * x * R, R, H);
    Ratio(x * x * R * (R / H), 1.0, H);
    assert x * x * R * (R / H) / H == x * x * R * (R / H) * (1.0 / H);
  }

  /** The source's x R / H y R / H is x (R / H) times y (R / H). */
  lemma RatioMixed(x: real, y: real, R: real, H: real)
    requires H != 0.0
    ensures x * R / H * y * R / H == (x * (R / H)) * (y * (R / H))
  {
    Ratio(x, R, H);
    Ratio(x * (R / H) * y, R, H);
  }

  /** (k (p + t d))^2 expanded in powers of t. */
  lemma ScaledAlongSquare(k: real, p: real, t: real, d: real)
    ensures Square(k * Along(p, t, d))
            == (p * k) * (p * k) + t * ((2.0 * d * k) * (p * k)) + t * t * ((d * k) * (d * k))
  {
    assert k * Along(p, t, d) == p * k + t * (d * k);
  }

  /** The cone's coefficients, as the source writes them with R/H factors, recombine into
      the expanded surface equation. */
  lemma ConeScalars(hh: real, hc: real, cc: real, ad: real, ap: real, R: real, H: real, t: real)
    requires H != 0.0
    ensures Quadratic(ConeTerms(hh, hc, cc, ad, ap, R, H), t)
            == SquaredAlong(cc, hc, hh, t) - Square(R / H * Along(ap, t, ad))
  {
    var abc := ConeTerms(hh, hc, cc, ad, ap, R, H);
    assert Quadratic(abc, t) == abc.0 * t * t + abc.1 * t + abc.2;
    assert abc == (hh - ad * ad * R * R / (H * H),
                   2.0 * hc - 2.0 * ad * R / H * ap * R / H,
                   cc - ap * R / H * ap * R / H);
    RatioSquare(ad, R, H);
    RatioMixed(2.0 * ad, ap, R, H);
    RatioMixed(ap, ap, R, H);
    ScaledAlongSquare(R / H, ap, t, ad);
  }

  /** A ray that starts inside the nappe of the cone with apex 0, axis +y and R = H = 1, at
      (0.1, 0.5, 0), and runs up the axis. The cone's coefficients are a = |h|^2 - (d.a)^2 =
      -1, b = -2 (d.a)(p.a) = -1 and c = |c_perp|^2 - (p.a)^2 = -0.24, so the discriminant is
      0.04. The source's sign tests pass the nearer root (sqrt(0.04) - 1) / 2 < 0, whose
      point lies on the cone behind the start; the intended selection misses, both roots
      lying behind the start. */
  lemma AxialRootsBehindStart()
    ensures var r := Ray(Vector(0.1, 0.5, 0.0), Vector(0.0, 1.0, 0.0), 0, 1.0);
            var sq := Sqrt(0.04);
            var h := AxialRoots(r, Zero, Vector(0.0, 1.0, 0.0), 1.0, -1.0, -1.0, sq, 20000.0);
            h.Hit? && h.t < 0.0
            && AxialRootsAhead(r, Zero, Vector(0.0, 1.0, 0.0), 1.0, -1.0, -1.0, sq, 20000.0) == Miss
  {
    ProbeRoot();
    ProbeSelection(Sqrt(0.04));
  }

  /** For any root sq of the probe's discriminant in (0, 1), the nearer root qualifies and is
      negative, and so is the farther one. */
  lemma ProbeSelection(sq: real)
    requires 0.0 < sq < 1.0
    ensures var r := Ray(Vector(0.1, 0.5, 0.0), Vector(0.0, 1.0, 0.0), 0, 1.0);
            var h := AxialRoots(r, Zero, Vector(0.0, 1.0, 0.0), 1.0, -1.0, -1.0, sq, 20000.0);
            h.Hit? && h.t < 0.0
            && AxialRootsAhead(r, Zero, Vector(0.0, 1.0, 0.0), 1.0, -1.0, -1.0, sq, 20000.0) == Miss
  {
    var tNear := NearRoot(-1.0, -1.0, sq);
    assert tNear == (sq - 1.0) / 2.0;
    assert FarRoot(-1.0, -1.0, sq) == -(sq + 1.0) / 2.0;
    ProbeHeight(tNear);
  }

  /** The computed square root of 0.04 lies strictly between 0 and 1. */
  lemma ProbeRoot()
    ensures 0.0 < Sqrt(0.04) < 1.0
  {
    var sq := Sqrt(0.04);
    SqrtNear(0.04);
    assert Pow2(SqrtSteps) == 2.0 * Pow2(59);
    var below := sq - Max(1.0, 0.04) / Pow2(SqrtSteps);
    if below > 0.2 {
      SquareGrows(0.2, below);
      assert false;
    }
  }

  lemma SquareGrows(y: real, x: real)
    requires 0.0 <= y < x
    ensures Square(y) < Square(x)
  {
    var d, e := x - y, x + y;
    assert d > 0.0 && e > 0.0;
    assert d * e > 0.0;
    assert x * x - y * y == d * e;
  }

  /** The probe ray's point at t has height 0.5 + t above the apex. */
  lemma ProbeHeight(t: real)
    ensures AxialHeight(PointAt(Ray(Vector(0.1, 0.5, 0.0), Vector(0.0, 1.0, 0.0), 0, 1.0), t),
                        Zero, Vector(0.0, 1.0, 0.0)) == 0.5 + t
  {
    assert PointAt(Ray(Vector(0.1, 0.5, 0.0), Vector(0.0, 1.0, 0.0), 0, 1.0), t) == Vector(0.1, 0.5 + t, 0.0);
  }

  // ------------------------------------------------------------- triangle

  /** u v0 + w v1 + (1 - u - w) v2. */
  function Barycentric(tri: Triangle, u: real, w: real): Vector {
    Add(Add(Scale(u, tri.v0), Scale(w, tri.v1)), Scale(1.0 - u - w, tri.v2))
  }

  /** p is a convex combination of the triangle's vertices. */
  ghost predicate InTriangle(tri: Triangle, p: Vector) {
    exists u: real, w: real {:trigger Barycentric(tri, u, w)} ::
      0.0 <= u && 0.0 <= w && u + w <= 1.0 && p == Barycentric(tri, u, w)
  }

  const TriangleFudge: real := 0.0   // the unused `delta`

  /** A triangle hit lies inside the triangle, at a parameter strictly between the
      intersection offset and the bound. With J == 0 the C division yields an infinite or
      NaN parameter, which never passes the final range test: a miss here. */
  function IntersectRayTriangle(r: Ray, tri: Triangle, bound: real): (h: Hit)
    ensures h.Hit? ==> IntersectDelta < h.t < bound
    ensures h.Hit? ==> InTriangle(tri, PointAt(r, h.t))
  {
    var B1 := Sub(tri.v2, tri.v0);
    var B2 := Sub(tri.v2, tri.v1);
    var B3 := r.dir;
    var R := Sub(tri.v2, r.start);
    var J := TripleProduct(B2, B3, B1);
    var L1 := TripleProduct(B2, B3, R);
    if L1 < TriangleFudge * J then Miss
    else
      var L2 := TripleProduct(B3, B1, R);
      if L2 < TriangleFudge * J || L1 + L2 > J * (1.0 + TriangleFudge) then Miss
      else if J == 0.0 then Miss
      else
        var t0 := TripleProduct(B1, B2, R) / J;
        if t0 > IntersectDelta && t0 < bound then
          TriangleHitInside(r, tri, t0);
          Hit(t0)
        else Miss
  }

  /** The barycentric coordinates L1/J and L2/J put the hit point inside the triangle. */
  lemma TriangleHitInside(r: Ray, tri: Triangle, t0: real)
    requires var B1 := Sub(tri.v2, tri.v0);
             var B2 := Sub(tri.v2, tri.v1);
             var R := Sub(tri.v2, r.start);
             var J := TripleProduct(B2, r.dir, B1);
             var L1 := TripleProduct(B2, r.dir, R);
             var L2 := TripleProduct(r.dir, B1, R);
             J != 0.0 && L1 >= 0.0 && L2 >= 0.0 && L1 + L2 <= J && t0 == TripleProduct(B1, B2, R) / J
    ensures InTriangle(tri, PointAt(r, t0))
  {
    var B1 := Sub(tri.v2, tri.v0);
    var B2 := Sub(tri.v2, tri.v1);
    var R := Sub(tri.v2, r.start);
    var J := TripleProduct(B2, r.dir, B1);
    var L1 := TripleProduct(B2, r.dir, R);
    var L2 := TripleProduct(r.dir, B1, R);
    var u := L1 / J;
    var w := L2 / J;
    BarycentricRange(L1, L2, J);
    TriangleSolve(r, tri, t0);
    BarycentricAxis(r.start.x, r.dir.x, t0, tri.v0.x, tri.v1.x, tri.v2.x, u, w);
    BarycentricAxis(r.start.y, r.dir.y, t0, tri.v0.y, tri.v1.y, tri.v2.y, u, w);
    BarycentricAxis(r.start.z, r.dir.z, t0, tri.v0.z, tri.v1.z, tri.v2.z, u, w);
    assert PointAt(r, t0) == Barycentric(tri, u, w);
  }

  /** Cramer's rule for the triangle system v2 - start = u B1 + w B2 + t dir. */
  lemma TriangleSolve(r: Ray, tri: Triangle, t0: real)
    requires var B1 := Sub(tri.v2, tri.v0);
             var B2 := Sub(tri.v2, tri.v1);
             var R := Sub(tri.v2, r.start);
             var J := TripleProduct(B2, r.dir, B1);
             J != 0.0 && t0 == TripleProduct(B1, B2, R) / J
    ensures var B1 := Sub(tri.v2, tri.v0);
            var B2 := Sub(tri.v2, tri.v1);
            var R := Sub(tri.v2, r.start);
            var J := TripleProduct(B2, r.dir, B1);
            var u := TripleProduct(B2, r.dir, R) / J;
            var w := TripleProduct(r.dir, B1, R) / J;
            R.x == u * B1.x + w * B2.x + t0 * r.dir.x
            && R.y == u * B1.y + w * B2.y + t0 * r.dir.y
            && R.z == u * B1.z + w * B2.z + t0 * r.dir.z
  {
    var B1 := Sub(tri.v2, tri.v0);
    var B2 := Sub(tri.v2, tri.v1);
    var R := Sub(tri.v2, r.start);
    var J := TripleProduct(B2, r.dir, B1);
    var L1 := TripleProduct(B2, r.dir, R);
    var L2 := TripleProduct(r.dir, B1, R);
    var T := TripleProduct(B1, B2, R);
    TripleProductCyclic(B1, B2, r.dir);
    TripleProductDecomposition(B1, B2, r.dir, R);
    SolveAxis(J, R.x, L1, L2, T, B1.x, B2.x, r.dir.x);
    SolveAxis(J, R.y, L1, L2, T, B1.y, B2.y, r.dir.y);
    SolveAxis(J, R.z, L1, L2, T, B1.z, B2.z, r.dir.z);
  }

  lemma BarycentricRange(L1: real, L2: real, J: real)
    requires J > 0.0 && L1 >= 0.0 && L2 >= 0.0 && L1 + L2 <= J
    ensures 0.0 <= L1 / J && 0.0 <= L2 / J && L1 / J + L2 / J <= 1.0
  {
    assert L1 / J + L2 / J == (L1 + L2) / J;
  }

  /** Dividing J R = L1 B1 + L2 B2 + T d by J. */
  lemma SolveAxis(J: real, R: real, L1: real, L2: real, T: real, B1: real, B2: real, d: real)
    requires J != 0.0 && J * R == L1 * B1 + L2 * B2 + T * d
    ensures R == (L1 / J) * B1 + (L2 / J) * B2 + (T / J) * d
  {
    var u, w, t := L1 / J, L2 / J, T / J;
    assert L1 == u * J && L2 == w * J && T == t * J;
    assert J * R == J * (u * B1 + w * B2 + t * d);
  }

  /** v2 - s = u (v2 - v0) + w (v2 - v1) + t d rearranged into s + t d = u v0 + w v1 + (1-u-w) v2. */
  lemma BarycentricAxis(s: real, d: real, t: real, v0: real, v1: real, v2: real, u: real, w: real)
    requires v2 - s == u * (v2 - v0) + w * (v2 - v1) + t * d
    ensures s + d * t == v0 * u + v1 * w + v2 * (1.0 - u - w)
  {
  }

  // ------------------------------------------------------------ rectangle

  /** p lies on the rectangle: in its plane and within half a side length of the center
      along each axis. */
  predicate OnRectangle(rect: Rectangle, p: Vector) {
    var X := Sub(p, rect.center);
    Dot(X, Cross(rect.axis0, rect.axis1)) == 0.0
    && -0.5 * rect.length0 <= Dot(rect.axis0, X) <= 0.5 * rect.length0
    && -0.5 * rect.length1 <= Dot(rect.axis1, X) <= 0.5 * rect.length1
  }

  /** The rectangle test with the second extent checked against its own length and a ray
      parallel to the plane treated as a miss: a hit lies on the rectangle, at a parameter
      between 0 and the bound inclusive. */
  function IntersectRayRectangle(r: Ray, rect: Rectangle, bound: real): (h: Hit)
    ensures h.Hit? ==> 0.0 <= h.t <= bound
    ensures h.Hit? ==> OnRectangle(rect, PointAt(r, h.t))
  {
    var n := Cross(rect.axis0, rect.axis1);
    var numerator := Dot(Sub(rect.center, r.start), n);
    var denominator := Dot(r.dir, n);
    if denominator == 0.0 then Miss
    else
      var t0 := numerator / denominator;
      if t0 < 0.0 || t0 > bound then Miss
      else
        var X := Add(Sub(r.start, rect.center), Scale(t0, r.dir));
        var h1 := Dot(rect.axis0, X) + 0.5 * rect.length0;
        if h1 < 0.0 || h1 > rect.length0 then Miss
        else
          var h2 := Dot(rect.axis1, X) + 0.5 * rect.length1;
          if h2 < 0.0 || h2 > rect.length1 then Miss
          else
            RectanglePlane(r, rect, t0);
            Hit(t0)
  }

  lemma RectanglePlane(r: Ray, rect: Rectangle, t0: real)
    requires var n := Cross(rect.axis0, rect.axis1);
             Dot(r.dir, n) != 0.0 && t0 == Dot(Sub(rect.center, r.start), n) / Dot(r.dir, n)
    ensures Add(Sub(r.start, rect.center), Scale(t0, r.dir)) == Sub(PointAt(r, t0), rect.center)
    ensures Dot(Sub(PointAt(r, t0), rect.center), Cross(rect.axis0, rect.axis1)) == 0.0
  {
    var n := Cross(rect.axis0, rect.axis1);
    var X := Sub(PointAt(r, t0), rect.center);
    DotPointAt(n, r, t0);
    QuotientTimes(Dot(Sub(rect.center, r.start), n), Dot(r.dir, n));
    assert Dot(X, n) == Dot(n, PointAt(r, t0)) - Dot(n, rect.center);
  }

  /** The outcome of the rectangle test as written, where a NaN parameter can be stored. */
  datatype RectangleOutcome = RectangleMiss | RectangleHit(t: real) | RectangleHitNaN

  /** The rectangle test exactly as written: the second extent h2 is compared with the first
      length L1, and the division by d.n is unguarded. When d.n == 0 and the numerator is
      also 0 the quotient is NaN, every comparison with it is false, and the test succeeds
      with *t = NaN; with a non-zero numerator the quotient is infinite and fails the range
      test. */
  function IntersectRayRectangleAsWritten(r: Ray, rect: Rectangle, bound: real): (o: RectangleOutcome)
    ensures o.RectangleHit? ==> 0.0 <= o.t <= bound
    ensures o.RectangleHitNaN? <==> (Dot(r.dir, Cross(rect.axis0, rect.axis1)) == 0.0
                                     && Dot(Sub(rect.center, r.start), Cross(rect.axis0, rect.axis1)) == 0.0)
  {
    var n := Cross(rect.axis0, rect.axis1);
    var numerator := Dot(Sub(rect.center, r.start), n);
    var denominator := Dot(r.dir, n);
    if denominator == 0.0 then
      if numerator == 0.0 then RectangleHitNaN else RectangleMiss
    else
      var t0 := numerator / denominator;
      if t0 < 0.0 || t0 > bound then RectangleMiss
      else
        var X := Add(Sub(r.start, rect.center), Scale(t0, r.dir));
        var h1 := Dot(rect.axis0, X) + 0.5 * rect.length0;
        if h1 < 0.0 || h1 > rect.length0 then RectangleMiss
        else
          var h2 := Dot(rect.axis1, X) + 0.5 * rect.length1;
          if h2 < 0.0 || h2 > rect.length0 then RectangleMiss
          else RectangleHit(t0)
  }

  /** For a square (equal lengths) hit away from the parallel case, the code as written and
      the corrected test agree. */
  lemma RectangleAsWrittenAgreesOnSquares(r: Ray, rect: Rectangle, bound: real)
    requires rect.length0 == rect.length1
    requires Dot(r.dir, Cross(rect.axis0, rect.axis1)) != 0.0
    ensures IntersectRayRectangleAsWritten(r, rect, bound)
         == (match IntersectRayRectangle(r, rect, bound)
             case Miss => RectangleMiss
             case Hit(t) => RectangleHit(t))
  {
  }

  /** When the hit point is within the first extent and its offset along the second axis
      lies between L2/2 and L1 - L2/2, the code as written reports a hit at a point that is
      off the rectangle, where the corrected test misses. */
  lemma RectangleSecondExtentDefect(r: Ray, rect: Rectangle, bound: real, t0: real)
    requires Dot(r.dir, Cross(rect.axis0, rect.axis1)) != 0.0
    requires t0 == Dot(Sub(rect.center, r.start), Cross(rect.axis0, rect.axis1)) / Dot(r.dir, Cross(rect.axis0, rect.axis1))
    requires 0.0 <= t0 <= bound && 0.0 <= rect.length1
    requires var X := Sub(PointAt(r, t0), rect.center);
             -0.5 * rect.length0 <= Dot(rect.axis0, X) <= 0.5 * rect.length0
             && 0.5 * rect.length1 < Dot(rect.axis1, X) <= rect.length0 - 0.5 * rect.length1
    ensures IntersectRayRectangleAsWritten(r, rect, bound) == RectangleHit(t0)
    ensures !OnRectangle(rect, PointAt(r, t0))
    ensures IntersectRayRectangle(r, rect, bound) == Miss
  {
    RectanglePlane(r, rect, t0);
    var X := Add(Sub(r.start, rect.center), Scale(t0, r.dir));
    assert X == Sub(PointAt(r, t0), rect.center);
    var h1 := Dot(rect.axis0, X) + 0.5 * rect.length0;
    var h2 := Dot(rect.axis1, X) + 0.5 * rect.length1;
    assert 0.0 <= h1 <= rect.length0;
    assert rect.length1 < h2 <= rect.length0;
  }

  /** A ray straight down onto a 4 x 1 rectangle, 1.5 off center along the short axis: the
      code as written reports a hit at parameter 1 at a point outside the rectangle; the
      corrected test misses. */
  lemma RectangleSecondExtentExample()
    ensures var rect := Rectangle(Zero, Vector(1.0, 0.0, 0.0), Vector(0.0, 1.0, 0.0), 4.0, 1.0);
            var r := Ray(Vector(0.0, 1.5, 1.0), Vector(0.0, 0.0, -1.0), 0, 1.0);
            IntersectRayRectangleAsWritten(r, rect, 20000.0) == RectangleHit(1.0)
            && !OnRectangle(rect, PointAt(r, 1.0))
            && IntersectRayRectangle(r, rect, 20000.0) == Miss
  {
    var rect := Rectangle(Zero, Vector(1.0, 0.0, 0.0), Vector(0.0, 1.0, 0.0), 4.0, 1.0);
    var r := Ray(Vector(0.0, 1.5, 1.0), Vector(0.0, 0.0, -1.0), 0, 1.0);
    var n := Cross(rect.axis0, rect.axis1);
    assert n == Vector(0.0, 0.0, 1.0);
    assert Dot(Sub(rect.center, r.start), n) == -1.0;
    assert Dot(r.dir, n) == -1.0;
    assert PointAt(r, 1.0) == Vector(0.0, 1.5, 0.0);
    assert Sub(PointAt(r, 1.0), rect.center) == Vector(0.0, 1.5, 0.0);
    RectangleSecondExtentDefect(r, rect, 20000.0, 1.0);
  }

  /** The dispatch runs the test as written: the same ray reports the off-rectangle hit at
      t = 1 for any shape carrying that rectangle. */
  lemma DispatchKeepsSecondExtentDefect(id: int, material: int, bbox: BBox)
    ensures var rect := Rectangle(Zero, Vector(1.0, 0.0, 0.0), Vector(0.0, 1.0, 0.0), 4.0, 1.0);
            var r := Ray(Vector(0.0, 1.5, 1.0), Vector(0.0, 0.0, -1.0), 0, 1.0);
            IntersectRayShape(r, Shape(id, RectangleShape(rect), material, bbox), 20000.0) == Hit(1.0)
            && !OnRectangle(rect, PointAt(r, 1.0))
  {
    var rect := Rectangle(Zero, Vector(1.0, 0.0, 0.0), Vector(0.0, 1.0, 0.0), 4.0, 1.0);
    var r := Ray(Vector(0.0, 1.5, 1.0), Vector(0.0, 0.0, -1.0), 0, 1.0);
    RectangleSecondExtentExample();
    DispatchRectangle(r, rect, Shape(id, RectangleShape(rect), material, bbox), 20000.0, 1.0);
  }

  /** A numeric hit of the rectangle test as written is the dispatch's hit. */
  lemma DispatchRectangle(r: Ray, rect: Rectangle, s: Shape, bound: real, t: real)
    requires s.geom == RectangleShape(rect)
    requires IntersectRayRectangleAsWritten(r, rect, bound) == RectangleHit(t)
    ensures IntersectRayShape(r, s, bound) == Hit(t)
  {
  }

  /** A ray that lies in the rectangle's plane: the code as written stores a NaN parameter
      and reports a hit whatever the extents; the corrected test misses. */
  lemma RectangleInPlaneDefect(r: Ray, rect: Rectangle, bound: real)
    requires Dot(r.dir, Cross(rect.axis0, rect.axis1)) == 0.0
    requires Dot(Sub(rect.center, r.start), Cross(rect.axis0, rect.axis1)) == 0.0
    ensures IntersectRayRectangleAsWritten(r, rect, bound) == RectangleHitNaN
    ensures IntersectRayRectangle(r, rect, bound) == Miss
  {
  }

  // --------------------------------------------------------------- sphere

  /** A sphere hit is the smaller root of |start + t dir - pos|^2 = radius^2, accepted only
      strictly between the intersection offset and the bound. A zero direction makes the
      C roots 0/0 = NaN, which fail the range test: a miss here. Only the smaller root is
      examined, so a ray that starts inside the sphere (where the roots have opposite
      signs) never hits it. */
  function IntersectRaySphere(r: Ray, s: Sphere, bound: real): (h: Hit)
    ensures h.Hit? ==> IntersectDelta < h.t < bound
    ensures var dist := Sub(r.start, s.pos); Dot(dist, dist) < s.radius * s.radius ==> h == Miss
  {
    var dist := Sub(r.start, s.pos);
    InsideCoefficients(r, s, dist, bound);
    // A = d.d, B = 2 d.(start - pos), C = |start - pos|^2 - radius^2; the root solver takes B/2
    QuadraticHit(Dot(r.dir, r.dir), 0.5 * (2.0 * Dot(r.dir, dist)), Dot(dist, dist) - s.radius * s.radius, bound)
  }

  /** The root test on A t^2 + 2 (B/2) t + C = 0: no roots when A is zero (the NaN case),
      otherwise only the smaller root is a candidate, accepted strictly between the
      intersection offset and the bound. */
  function QuadraticHit(a: real, halfB: real, c: real, bound: real): (h: Hit)
    ensures h.Hit? ==> IntersectDelta < h.t < bound
    ensures h.Hit? ==> a != 0.0 && SolveQuadratic(a, halfB, c).Roots? && h.t == SolveQuadratic(a, halfB, c).x0
    ensures (a != 0.0 && SolveQuadratic(a, halfB, c).Roots?
             && IntersectDelta < SolveQuadratic(a, halfB, c).x0 < bound)
              ==> h == Hit(SolveQuadratic(a, halfB, c).x0)
  {
    if a == 0.0 then Miss
    else
      match SolveQuadratic(a, halfB, c)
      case NoRoots => Miss
      case Roots(t0, _) => if t0 > IntersectDelta && t0 < bound then Hit(t0) else Miss
  }

  /** From inside the sphere the constant coefficient is negative. */
  lemma InsideCoefficients(r: Ray, s: Sphere, dist: Vector, bound: real)
    ensures Dot(dist, dist) < s.radius * s.radius
            ==> QuadraticHit(Dot(r.dir, r.dir), 0.5 * (2.0 * Dot(r.dir, dist)), Dot(dist, dist) - s.radius * s.radius, bound) == Miss
  {
    if Dot(dist, dist) < s.radius * s.radius {
      DotSelfNonNegative(r.dir);
      OppositeSignRoots(Dot(r.dir, r.dir), 0.5 * (2.0 * Dot(r.dir, dist)), Dot(dist, dist) - s.radius * s.radius, bound);
    }
  }

  /** With a > 0 and c < 0 the quadratic has two real roots of opposite signs, so the
      smaller is negative and never accepted. */
  lemma OppositeSignRoots(a: real, b: real, c: real, bound: real)
    requires a >= 0.0 && c < 0.0
    ensures a != 0.0 ==> SolveQuadratic(a, b, c).Roots? && SolveQuadratic(a, b, c).x0 < 0.0
    ensures QuadraticHit(a, b, c, bound) == Miss
  {
    if a == 0.0 {
      return;
    }
    NegativeProduct(a, c);
    SquarePositive(b);
    var q := SolveQuadratic(a, b, c);
    assert Square(b) - a * c > 0.0;
    NegativeQuotient(c, a);
    if q.x0 >= 0.0 {
      assert false;
    }
  }

  lemma NegativeProduct(a: real, c: real)
    requires a > 0.0 && c < 0.0
    ensures a * c < 0.0
  {
  }

  lemma NegativeQuotient(c: real, a: real)
    requires a > 0.0 && c < 0.0
    ensures c / a < 0.0
  {
  }

  // ------------------------------------------------------------- dispatch

  /** Dispatch on the type tag; an unknown tag never hits. Every hit is within the bound.
      Rectangles run the test as the source writes it, second offset against the first
      length; its NaN outcome, for a ray lying in the rectangle's plane, has no value here
      and is a miss. */
  function IntersectRayShape(r: Ray, s: Shape, bound: real): (h: Hit)
    ensures h.Hit? ==> h.t <= bound
    ensures s.geom.Untagged? ==> h == Miss
  {
    match s.geom
    case SphereShape(sphere) => IntersectRaySphere(r, sphere, bound)
    case ConeShape(cone) => IntersectRayCone(r, cone, bound)
    case DiskShape(disk) => IntersectRayDisk(r, disk, bound)
    case CylinderShape(cylinder) => IntersectRayCylinder(r, cylinder, bound)
    case RectangleShape(rect) =>
      (match IntersectRayRectangleAsWritten(r, rect, bound)
       case RectangleHit(t) => Hit(t)
       case _ => Miss)
    case TriangleShape(tri) => IntersectRayTriangle(r, tri, bound)
    case Untagged(_) => Miss
  }

  /** The bound only ever shrinks, and stays put on a miss. */
  lemma UpdatedNeverGrows(r: Ray, s: Shape, bound: real)
    ensures Updated(IntersectRayShape(r, s, bound), bound) <= bound
    ensures IntersectRayShape(r, s, bound).Miss? ==> Updated(IntersectRayShape(r, s, bound), bound) == bound
  {
  }

  // ------------------------------------------------------- grid cell test

  /** p lies in cell (i, j, k): each coordinate in the half-open slab (lo, lo + delta]. */
  function IntersectPointGridCell(g: GridGeom, p: Vector, i: int, j: int, k: int): (b: bool)
    ensures b <==> (g.xmin + i as real * g.dx < p.x <= g.xmin + (i + 1) as real * g.dx
                    && g.ymin + j as real * g.dy < p.y <= g.ymin + (j + 1) as real * g.dy
                    && g.zmin + k as real * g.dz < p.z <= g.zmin + (k + 1) as real * g.dz)
  {
    if p.x <= g.xmin + i as real * g.dx then false
    else if p.x > g.xmin + (i + 1) as real * g.dx then false
    else if p.y <= g.ymin + j as real * g.dy then false
    else if p.y > g.ymin + (j + 1) as real * g.dy then false
    else if p.z <= g.zmin + k as real * g.dz then false
    else if p.z > g.zmin + (k + 1) as real * g.dz then false
    else true
  }

  /** With positive cell sizes the half-open cells are disjoint: a point lies in at most one. */
  lemma GridCellsDisjoint(g: GridGeom, p: Vector, i: int, j: int, k: int, i': int, j': int, k': int)
    requires g.dx > 0.0 && g.dy > 0.0 && g.dz > 0.0
    requires IntersectPointGridCell(g, p, i, j, k) && IntersectPointGridCell(g, p, i', j', k')
    ensures i == i' && j == j' && k == k'
  {
    SlabDisjoint(g.xmin, g.dx, p.x, i, i');
    SlabDisjoint(g.ymin, g.dy, p.y, j, j');
    SlabDisjoint(g.zmin, g.dz, p.z, k, k');
  }

  lemma SlabDisjoint(lo: real, delta: real, x: real, i: int, i': int)
    requires delta > 0.0
    requires lo + i as real * delta < x <= lo + (i + 1) as real * delta
    requires lo + i' as real * delta < x <= lo + (i' + 1) as real * delta
    ensures i == i'
  {
    SlabBelow(lo, delta, x, i, i');
    SlabBelow(lo, delta, x, i', i);
  }

  /** A point above slab i' and at or below the top of slab i has i' <= i. */
  lemma SlabBelow(lo: real, delta: real, x: real, i: int, i': int)
    requires delta > 0.0
    requires x <= lo + (i + 1) as real * delta
    requires lo + i' as real * delta < x
    ensures i' <= i
  {
    var top := (i + 1) as real;
    var bottom := i' as real;
    assert x <= lo + top * delta;
    assert lo + bottom * delta < x;
    assert bottom * delta < top * delta;
    if bottom >= top {
      assert false;
    }
  }
}
