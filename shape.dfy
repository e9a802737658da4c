/** Surface normals and materials of shapes, selected by the shape's type tag. */
module Shapes {
  import opened Types
  import opened Utils

  // --------------------------------------------------------------- normals

  /** The axial coordinate lies strictly inside (ProjectDelta, h - ProjectDelta), away from
      both rims of a cone or cylinder. */
  predicate InBand(z: real, h: real) {
    z > ProjectDelta && z < h - ProjectDelta
  }

  /** The normal of shape s at point v before it is normalised:
      a sphere's is v - pos; a triangle's is (v2 - v0) x (v1 - v0), orthogonal to both edges;
      a rectangle's is axis0 x axis1, orthogonal to both axes;
      a cone's is (v - vertex) x (axis x (v - vertex)), zero outside the axial band;
      a cylinder's is the part of v - center orthogonal to the axis, zero outside the band;
      a disk's is its normal, zero unless v is within R - ProjectDelta of the axis;
      a shape with an unknown tag gets the zero vector. */
  function RawNormal(v: Vector, s: Shape): (n: Vector)
    ensures s.geom.SphereShape? ==> n == Sub(v, s.geom.sphere.pos)
    ensures s.geom.TriangleShape? ==>
              var tri := s.geom.triangle;
              Dot(n, Sub(tri.v2, tri.v0)) == 0.0 && Dot(n, Sub(tri.v1, tri.v0)) == 0.0
    ensures s.geom.RectangleShape? ==>
              Dot(n, s.geom.rectangle.axis0) == 0.0 && Dot(n, s.geom.rectangle.axis1) == 0.0
    ensures s.geom.ConeShape? ==>
              var cone := s.geom.cone;
              var vMv := Sub(v, cone.vertex);
              (!InBand(Dot(vMv, cone.axis), cone.height) ==> n == Zero)
              && Dot(n, vMv) == 0.0
    ensures s.geom.CylinderShape? ==>
              var cyl := s.geom.cylinder;
              var vMc := Sub(v, cyl.center);
              (InBand(Dot(vMc, cyl.axis), cyl.height) ==> n == Orthogonalize(vMc, cyl.axis))
              && (!InBand(Dot(vMc, cyl.axis), cyl.height) ==> n == Zero)
              && (Dot(cyl.axis, cyl.axis) == 1.0 ==> Dot(n, cyl.axis) == 0.0)
    ensures s.geom.DiskShape? ==>
              var disk := s.geom.disk;
              var radial := Norm(Orthogonalize(Sub(v, disk.center), disk.normal));
              n == (if radial < disk.radius - ProjectDelta then disk.normal else Zero)
    ensures s.geom.Untagged? ==> n == Zero
  {
    match s.geom
    case SphereShape(sphere) => Sub(v, sphere.pos)
    case TriangleShape(tri) =>
      var a := Sub(tri.v2, tri.v0);
      var b := Sub(tri.v1, tri.v0);
      Cross(a, b)
    case ConeShape(cone) =>
      var vMinusVertex := Sub(v, cone.vertex);
      var z := Dot(vMinusVertex, cone.axis);
      if InBand(z, cone.height) then
        var w := Cross(cone.axis, vMinusVertex);
        assert Dot(Cross(vMinusVertex, w), vMinusVertex) == 0.0;
        Cross(vMinusVertex, w)
      else Zero
    case DiskShape(disk) =>
      var z := Norm(Orthogonalize(Sub(v, disk.center), disk.normal));
      if z < disk.radius - ProjectDelta then disk.normal else Zero
    case CylinderShape(cyl) =>
      var vMc := Sub(v, cyl.center);
      var z := Dot(vMc, cyl.axis);
      if InBand(z, cyl.height) then Orthogonalize(vMc, cyl.axis) else Zero
    case RectangleShape(rect) => Cross(rect.axis0, rect.axis1)
    case Untagged(_) => Zero
  }

  /** The normal of shape s at v: the raw normal scaled by the reciprocal of its length,
      or the raw normal itself when that length is zero. Either way it is parallel to the
      raw normal and points the same way, and it is the zero vector when the raw one is. */
  function ComputeNormal(v: Vector, s: Shape): (n: Vector)
    ensures var raw := RawNormal(v, s);
            n == Normalize(raw) || (Norm(raw) == 0.0 && n == raw)
    ensures var raw := RawNormal(v, s);
            Cross(n, raw) == Zero && Dot(n, raw) >= 0.0 && (raw == Zero ==> n == Zero)
  {
    Unitize(RawNormal(v, s))
  }

  /** The last step of ComputeNormal: scale by the reciprocal length when it is non-zero. */
  function Unitize(raw: Vector): (n: Vector)
    ensures n == Normalize(raw) || (Norm(raw) == 0.0 && n == raw)
    ensures Cross(n, raw) == Zero && Dot(n, raw) >= 0.0 && (raw == Zero ==> n == Zero)
  {
    var tmp := Norm(raw);
    if tmp != 0.0 then Scale(1.0 / tmp, raw)
    else
      ScaleParallel(1.0, raw);
      raw
  }

  /** The normal is zero for a cone or cylinder point outside the axial band, for a disk
      point at or beyond R - ProjectDelta from the axis, and for an unknown tag. */
  lemma NormalZeroOutside(v: Vector, s: Shape)
    requires match s.geom
             case ConeShape(cone) => !InBand(Dot(Sub(v, cone.vertex), cone.axis), cone.height)
             case CylinderShape(cyl) => !InBand(Dot(Sub(v, cyl.center), cyl.axis), cyl.height)
             case DiskShape(disk) =>
               Norm(Orthogonalize(Sub(v, disk.center), disk.normal)) >= disk.radius - ProjectDelta
             case Untagged(_) => true
             case _ => false
    ensures ComputeNormal(v, s) == Zero
  {
    assert RawNormal(v, s) == Zero;
  }

  // ------------------------------------------------------------- materials

  /** C's remainder by 2, truncating toward zero: -1 for negative odd numbers. */
  function Rem2(a: int): (r: int)
    ensures a >= 0 ==> r == a % 2
    ensures a < 0 ==> r == -((-a) % 2)
  {
    if a >= 0 then a % 2 else -((-a) % 2)
  }

  /** C's ^ on ints whose values are remainders by 2, in two's complement: -1 has every
      bit set, so -1 ^ 0 == -1, -1 ^ 1 == -2 and -1 ^ -1 == 0. */
  function Xor(a: int, b: int): (r: int)
    requires -1 <= a <= 1 && -1 <= b <= 1
    ensures a >= 0 && b >= 0 ==> (r == 1 <==> a != b) && (r == 0 <==> a == b)
  {
    if a == b then 0
    else if a >= 0 && b >= 0 then 1
    else if a + b == -1 then -1   // -1 ^ 0
    else -2                       // -1 ^ 1
  }

  /** The rectangle's checkerboard material index, 2 * ((i % 2) ^ ((j + 1) % 2)). */
  function CheckerIndex(i: int, j: int): (m: int)
    ensures m == -4 || m == -2 || m == 0 || m == 2
    ensures i >= 0 && j >= 0 ==> m == 0 || m == 2
  {
    2 * Xor(Rem2(i), Rem2(j + 1))
  }

  /** For non-negative cell numbers the index is 2 exactly when i and j have the same
      parity, and 0 otherwise. */
  lemma CheckerIndexParity(i: int, j: int)
    requires i >= 0 && j >= 0
    ensures CheckerIndex(i, j) == (if i % 2 == j % 2 then 2 else 0)
  {
    assert Rem2(i) == i % 2 && Rem2(j + 1) == (j + 1) % 2;
    if i % 2 == 0 {
      if j % 2 == 0 {
        assert (j + 1) % 2 == 1;
        assert Xor(0, 1) == 1;
      } else {
        assert (j + 1) % 2 == 0;
        assert Xor(0, 0) == 0;
      }
    } else {
      if j % 2 == 0 {
        assert (j + 1) % 2 == 1;
        assert Xor(1, 1) == 0;
      } else {
        assert (j + 1) % 2 == 0;
        assert Xor(1, 0) == 1;
      }
    }
  }

  /** Moving one cell along either axis switches the index between 0 and 2. */
  lemma CheckerIndexFlips(i: int, j: int)
    requires i >= 0 && j >= 0
    ensures CheckerIndex(i, j) == 0 || CheckerIndex(i, j) == 2
    ensures CheckerIndex(i + 1, j) == 2 - CheckerIndex(i, j)
    ensures CheckerIndex(i, j + 1) == 2 - CheckerIndex(i, j)
  {
    CheckerIndexParity(i, j);
    CheckerIndexParity(i + 1, j);
    CheckerIndexParity(i, j + 1);
  }

  /** A cell number below zero (a point before the rectangle's corner along an axis) makes
      the index negative: cell (-1, 0) selects material -4 and cell (-1, 1) material -2. */
  lemma CheckerIndexNegative()
    ensures CheckerIndex(-1, 0) == -4 && CheckerIndex(-1, 1) == -2
  {
    assert Rem2(-1) == -1 && Rem2(1) == 1 && Rem2(2) == 0;
  }

  /** The checkerboard cell of a point on a rectangle along one axis: the offset from the
      rectangle's lower edge in eighths of the side, truncated to int. */
  function CheckerCell(axis: Vector, x: Vector, length: real): int
    requires length != 0.0
  {
    var h := Dot(axis, x) + 0.5 * length;
    TruncToInt(8.0 * (h / length))
  }

  /** The table entry a shape's material comes from: its own material index, or for a
      rectangle the checkerboard index of the point. */
  function MaterialIndex(v: Vector, s: Shape): int
    requires s.geom.RectangleShape? ==> s.geom.rectangle.length0 != 0.0 && s.geom.rectangle.length1 != 0.0
  {
    match s.geom
    case RectangleShape(rect) =>
      var x := Sub(v, rect.center);
      CheckerIndex(CheckerCell(rect.axis0, x, rect.length0), CheckerCell(rect.axis1, x, rect.length1))
    case _ => s.material
  }

  /** The material of shape s at v, looked up in the table without a bounds check: none
      when the index falls outside the table (the source reads out of bounds) or when the
      tag is unknown (the source returns an unset value). */
  function ComputeMaterial(materials: seq<Material>, v: Vector, s: Shape): (m: Option<Material>)
    requires s.geom.RectangleShape? ==> s.geom.rectangle.length0 != 0.0 && s.geom.rectangle.length1 != 0.0
    ensures m.Some? <==> !s.geom.Untagged? && 0 <= MaterialIndex(v, s) < |materials|
    ensures m.Some? ==> m.value == materials[MaterialIndex(v, s)]
    ensures !s.geom.RectangleShape? && !s.geom.Untagged? && 0 <= s.material < |materials| ==>
              m == Some(materials[s.material])
  {
    if s.geom.Untagged? then None
    else
      var idM := MaterialIndex(v, s);
      if 0 <= idM < |materials| then Some(materials[idM]) else None
  }

  /** A point of a rectangle that lies in front of its lower corner on both axes selects
      material 0 or 2, so a table of at least three materials always has its entry. */
  lemma RectangleMaterialFound(materials: seq<Material>, v: Vector, s: Shape)
    requires s.geom.RectangleShape? && s.geom.rectangle.length0 != 0.0 && s.geom.rectangle.length1 != 0.0
    requires var rect := s.geom.rectangle;
             var x := Sub(v, rect.center);
             CheckerCell(rect.axis0, x, rect.length0) >= 0 && CheckerCell(rect.axis1, x, rect.length1) >= 0
    requires |materials| >= 3
    ensures var m := ComputeMaterial(materials, v, s);
            m == Some(materials[0]) || m == Some(materials[2])
  {
    var rect := s.geom.rectangle;
    var x := Sub(v, rect.center);
    CheckerIndexFlips(CheckerCell(rect.axis0, x, rect.length0), CheckerCell(rect.axis1, x, rect.length1));
  }
}
