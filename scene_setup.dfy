/** The scene tables: the material table with its randomly drawn entries, the shape table
    filled through a running counter, and the grid with the box of every cell. Every
    outcome of the random generator is an input here. */
module SceneSetup {
  import opened Types
  import opened Utils
  import BoundingBoxes
  import GridIndex

  /** The side of the cubic world. */
  const L: real := 2048.0

  const Nmaterials: int := 64
  const Nbunny: int := 10
  const Nspheres: int := 100
  const Ncones: int := 20
  const Ncylinders: int := 20
  const Nrectangles: int := 1

  /** An outcome of the uniform generator, in [0, 1). */
  predicate Unit(u: real) {
    0.0 <= u < 1.0
  }

  /** dmin + u (dmax - dmin): a draw in [dmin, dmax). */
  function DrandRange(u: real, dmin: real, dmax: real): (r: real)
    requires Unit(u) && dmin <= dmax
    ensures dmin <= r <= dmax && (dmin < dmax ==> r < dmax)
  {
    var w := dmax - dmin;
    NonNegativeProduct(u, w);
    ShareBelow(u, w);
    dmin + u * w
  }

  /** The share u w of a width w, for u in [0, 1), is below w whenever w is positive. */
  lemma ShareBelow(u: real, w: real)
    requires Unit(u) && w >= 0.0
    ensures u * w <= w && (w > 0.0 ==> u * w < w)
  {
    var rest := 1.0 - u;
    assert rest > 0.0;
    NonNegativeProduct(rest, w);
    assert u * w + rest * w == w;
  }

  // ------------------------------------------------------------ materials

  /** A zero-filled material: black, no reflection or refraction, every flag clear. */
  const ZeroMaterial: Material := Material(Black, 0.0, 0.0, 0.0, Info(false, false, false))

  /** The draws behind material i >= 1: three colour draws and the two coin flips. */
  datatype MaterialDraw = MaterialDraw(red: real, green: real, blue: real, reflect: real, refract: real)

  predicate MaterialDrawn(d: MaterialDraw) {
    Unit(d.red) && Unit(d.green) && Unit(d.blue)
  }

  /** Material 0: white, a pure reflector with reflection 1, eta 1, no refraction. */
  function BaseMaterial(): (m: Material)
    ensures m.info == Info(false, true, false)
    ensures m.reflection == 1.0 && m.eta == 1.0 && m.refraction == 0.0
  {
    ZeroMaterial.(diffuse := Colour(1.0, 1.0, 1.0), reflection := 1.0, eta := 1.0, refraction := 0.0,
                  info := Info(false, true, false))
  }

  /** Material i >= 1: a pastel colour, eta 2, a reflector with reflection 0.9 when the
      first flip exceeds 1/2, a refractor with refraction 0.9 instead of 1 when the second
      does, and a reflector by default when neither does; never an emitter. */
  function RandomMaterial(d: MaterialDraw): (m: Material)
    requires MaterialDrawn(d)
    ensures m.eta == 2.0 && !m.info.emitter
    ensures m.info.reflector || m.info.refractor
    ensures m.info.refractor <==> d.refract > 0.5
    ensures m.info.reflector <==> d.reflect > 0.5 || d.refract <= 0.5
    ensures m.refraction == (if d.refract > 0.5 then 0.9 else 1.0)
    ensures m.reflection == (if d.reflect > 0.5 then 0.9 else 0.0)
    ensures 0.125 <= m.diffuse.red < 0.8 && 0.125 <= m.diffuse.green < 0.8 && 0.125 <= m.diffuse.blue < 0.8
  {
    var m := ZeroMaterial.(diffuse := Colour(DrandRange(d.red, 0.125, 0.8), DrandRange(d.green, 0.125, 0.8),
                                             DrandRange(d.blue, 0.125, 0.8)),
                           eta := 2.0, refraction := 1.0);
    var m := if d.reflect > 0.5 then m.(reflection := 0.9, info := m.info.(reflector := true)) else m;
    var m := if d.refract > 0.5 then m.(refraction := 0.9, info := m.info.(refractor := true)) else m;
    if !m.info.refractor && !m.info.reflector then m.(info := m.info.(reflector := true)) else m
  }

  /** The whole table: material 0, then one drawn material per draw. */
  function MaterialTable(draws: seq<MaterialDraw>): (ms: seq<Material>)
    requires forall i :: 0 <= i < |draws| ==> MaterialDrawn(draws[i])
    ensures |ms| == |draws| + 1 && ms[0] == BaseMaterial()
    ensures forall i :: 1 <= i < |ms| ==> ms[i] == RandomMaterial(draws[i - 1])
  {
    [BaseMaterial()] + seq(|draws|, i requires 0 <= i < |draws| => RandomMaterial(draws[i]))
  }

  /** Whatever the draws, every material reflects or refracts and none emits light. */
  lemma EveryMaterialBounces(draws: seq<MaterialDraw>)
    requires forall i :: 0 <= i < |draws| ==> MaterialDrawn(draws[i])
    ensures forall m :: m in MaterialTable(draws) ==> (m.info.reflector || m.info.refractor) && !m.info.emitter
    ensures forall m :: m in MaterialTable(draws) ==> m.eta == 1.0 || m.eta == 2.0
  {
    var ms := MaterialTable(draws);
    forall m | m in ms
      ensures (m.info.reflector || m.info.refractor) && !m.info.emitter && (m.eta == 1.0 || m.eta == 2.0)
    {
      var i :| 0 <= i < |ms| && ms[i] == m;
      if i > 0 {
        assert m == RandomMaterial(draws[i - 1]);
      }
    }
  }

  /** When both flips stay at or below 1/2 the material is made a reflector by default but
      keeps reflection 0, so it reflects nothing. */
  lemma DefaultedReflectorDefect(d: MaterialDraw)
    requires MaterialDrawn(d) && d.reflect <= 0.5 && d.refract <= 0.5
    ensures RandomMaterial(d).info.reflector && !RandomMaterial(d).info.refractor
    ensures RandomMaterial(d).reflection == 0.0
  {
  }

  /** Fills the zero-filled table: material 0 field by field, then each further material
      from its draws, flag by flag as the generator is consulted. */
  method SetupMaterials(draws: seq<MaterialDraw>) returns (materials: array<Material>)
    requires |draws| == Nmaterials - 1
    requires forall i :: 0 <= i < |draws| ==> MaterialDrawn(draws[i])
    ensures fresh(materials)
    ensures materials[..] == MaterialTable(draws)
  {
    materials := new Material[Nmaterials](_ => ZeroMaterial);
    materials[0] := materials[0].(diffuse := Colour(1.0, 1.0, 1.0));
    materials[0] := materials[0].(reflection := 1.0, eta := 1.0, refraction := 0.0);
    materials[0] := materials[0].(info := Info(false, true, false));
    for i := 1 to Nmaterials
      invariant materials[0] == BaseMaterial()
      invariant forall i' :: 1 <= i' < i ==> materials[i'] == RandomMaterial(draws[i' - 1])
      invariant forall i' :: i <= i' < Nmaterials ==> materials[i'] == ZeroMaterial
    {
      var d := draws[i - 1];
      materials[i] := materials[i].(diffuse := Colour(DrandRange(d.red, 0.125, 0.8), DrandRange(d.green, 0.125, 0.8),
                                                      DrandRange(d.blue, 0.125, 0.8)));
      materials[i] := materials[i].(eta := 2.0, refraction := 1.0);
      if d.reflect > 0.5 {
        materials[i] := materials[i].(reflection := 0.9, info := materials[i].info.(reflector := true));
      }
      if d.refract > 0.5 {
        materials[i] := materials[i].(refraction := 0.9, info := materials[i].info.(refractor := true));
      }
      if !materials[i].info.refractor && !materials[i].info.reflector {
        materials[i] := materials[i].(info := materials[i].info.(reflector := true));
      }
    }
    assert materials[..] == MaterialTable(draws);
  }

  // --------------------------------------------------------------- shapes

  /** The box of a zero-filled shape record. */
  const NoBox: BBox := BBox(0.0, 0.0, 0.0, 0.0, 0.0, 0.0, 0, 0, 0, 0, 0, 0)

  /** A zero-filled shape record: id 0, material 0, type tag 0 (no shape at all). */
  const Blank: Shape := Shape(0, Untagged(0), 0, NoBox)

  /** The material index drawn for a cone, sphere or cylinder: 1 + (Nmaterials - 2) u,
      truncated on the way into an int; for u in [0, 1) an entry from 1 to Nmaterials - 2. */
  function MaterialIndexOf(u: real): (m: int)
    requires Unit(u)
    ensures 1 <= m <= Nmaterials - 2
  {
    ShareBelow(u, 62.0);
    TruncToInt(1.0 + (Nmaterials - 2) as real * u)
  }

  /** The offsets of one copy of the model; the y draw is made but never used. */
  datatype BunnyDraw = BunnyDraw(x: real, y: real, z: real)
  datatype ConeDraw = ConeDraw(radius: real, height: real, x: real, z: real, material: real)
  /** Spheres above a cone do not draw x and z. */
  datatype SphereDraw = SphereDraw(radius: real, x: real, z: real, drop: real, material: real)
  /** The tilt draw only enters through its cosine and sine, which are given as such. */
  datatype CylinderDraw = CylinderDraw(radius: real, height: real, cosPhi: real, sinPhi: real,
                                       x: real, z: real, material: real)

  datatype SceneDraws = SceneDraws(bunnies: seq<BunnyDraw>, cones: seq<ConeDraw>,
                                   spheres: seq<SphereDraw>, cylinders: seq<CylinderDraw>)

  /** As many draws as copies, cones, spheres and cylinders, with every material draw
      an outcome of the generator. */
  predicate Drawn(d: SceneDraws) {
    && |d.bunnies| == Nbunny && |d.cones| == Ncones && |d.spheres| == Nspheres && |d.cylinders| == Ncylinders
    && (forall b :: 0 <= b < Nbunny ==> Unit(d.bunnies[b].x) && Unit(d.bunnies[b].z))
    && (forall i :: 0 <= i < Ncones ==> Unit(d.cones[i].material))
    && (forall i :: 0 <= i < Nspheres ==> Unit(d.spheres[i].material))
    && (forall i :: 0 <= i < Ncylinders ==> Unit(d.cylinders[i].material))
  }

  /** Where each block of the table starts, for a model of T triangles. */
  function ConeBase(T: int): int { Nbunny * T }
  function SphereBase(T: int): int { ConeBase(T) + Ncones }
  function CylinderBase(T: int): int { SphereBase(T) + Nspheres }
  function GroundIndex(T: int): int { CylinderBase(T) + 3 * Ncylinders }

  /** The table size: the spheres, every copy of every triangle, the cones, each cylinder
      with its two end disks, and the ground; one past the ground's slot. */
  function Nshapes(T: int): (n: int)
    ensures n == GroundIndex(T) + Nrectangles
  {
    Nspheres + Nbunny * T + Ncones + 3 * Ncylinders + Nrectangles
  }

  /** A model vertex scaled by 0.2 towards the ground plane y = L, then shifted. */
  function Placed(v: Vector, b: BunnyDraw): (w: Vector)
    requires Unit(b.x) && Unit(b.z)
    ensures L - w.y == 0.2 * (L - v.y)
  {
    var offx := DrandRange(b.x, 50.0, L - 50.0);
    var offz := DrandRange(b.z, 50.0, L - 50.0);
    Vector(0.2 * v.x + offx, L - 0.2 * (L - v.y), 0.2 * v.z + offz)
  }

  /** A model triangle placed as a shape: every vertex scaled towards the ground plane,
      with material 10. */
  function BunnyTriangle(t: Triangle, b: BunnyDraw, id: int): (s: Shape)
    requires Unit(b.x) && Unit(b.z)
    ensures s.id == id && s.material == 10 && s.geom.TriangleShape?
    ensures L - s.geom.triangle.v0.y == 0.2 * (L - t.v0.y) && L - s.geom.triangle.v1.y == 0.2 * (L - t.v1.y)
            && L - s.geom.triangle.v2.y == 0.2 * (L - t.v2.y)
  {
    Shape(id, TriangleShape(Triangle(Placed(t.v0, b), Placed(t.v1, b), Placed(t.v2, b))), 10, NoBox)
  }

  /** A cone hanging from the ground plane y = L, pointing up (axis -y). */
  function ConeAt(c: ConeDraw, id: int): (s: Shape)
    requires Unit(c.material)
    ensures s.id == id && s.geom.ConeShape? && 1 <= s.material <= Nmaterials - 2
    ensures s.geom.cone.vertex.y == L && s.geom.cone.axis == Vector(0.0, -1.0, 0.0)
    ensures Unit(c.radius) ==> 140.0 <= s.geom.cone.radius < 180.0
    ensures Unit(c.height) ==> 280.0 <= s.geom.cone.height < 320.0
  {
    var vertex := Vector(0.5 * L + L * (c.x - 0.5), L, 0.5 * L + L * (c.z - 0.5));
    Shape(id, ConeShape(Cone(vertex, Vector(0.0, -1.0, 0.0), 140.0 + 40.0 * c.radius, 280.0 + 40.0 * c.height)),
          MaterialIndexOf(c.material), NoBox)
  }

  /** A resting sphere: above the vertex of the cone it is paired with, or at a drawn
      spot, then raised by up to 400; both velocities and the force are zero. */
  function SphereAt(s: SphereDraw, above: Option<Cone>, id: int): (sh: Shape)
    requires Unit(s.material)
    ensures sh.id == id && sh.geom.SphereShape? && 1 <= sh.material <= Nmaterials - 2
    ensures sh.geom.sphere.velocity == Zero && sh.geom.sphere.newVelocity == Zero && sh.geom.sphere.force == Zero
    ensures Unit(s.radius) ==> 35.0 <= sh.geom.sphere.radius < 55.0
    ensures above.Some? ==> sh.geom.sphere.pos.x == above.value.vertex.x && sh.geom.sphere.pos.z == above.value.vertex.z
    ensures Unit(s.drop) ==> sh.geom.sphere.pos.y >= (match above case Some(_) => L / 4.0 - 100.0
                                                                  case None => L / 4.0 - sh.geom.sphere.radius)
  {
    var radius := 35.0 + 20.0 * s.radius;
    var pos := match above
      case Some(cone) => Vector(cone.vertex.x, L / 4.0 - 100.0, cone.vertex.z)
      case None => Vector(L * s.x, L / 4.0 - radius, L * s.z);
    var pos := pos.(y := pos.y + 400.0 * s.drop);
    Shape(id, SphereShape(Sphere(pos, radius, Zero, Zero, Zero)), MaterialIndexOf(s.material), NoBox)
  }

  /** A cylinder standing on the ground plane y = L, its axis (0, cos, sin). */
  function Tube(c: CylinderDraw): (cyl: Cylinder)
    ensures cyl.center.y == L - cyl.height && cyl.axis == Vector(0.0, c.cosPhi, c.sinPhi)
    ensures Unit(c.height) ==> 380.0 <= cyl.height < 420.0
    ensures Unit(c.radius) ==> 100.0 <= cyl.radius < 110.0
  {
    var height := 380.0 + 40.0 * c.height;
    Cylinder(Vector(L / 2.0 + L * (c.x - 0.5), L - height, L / 2.0 + L * (c.z - 0.5)),
             Vector(0.0, c.cosPhi, c.sinPhi), 100.0 + 10.0 * c.radius, height)
  }

  /** The end disk of a cylinder: at its center facing along the axis, or at the far end
      facing back; always as wide as the cylinder. */
  function Cap(cyl: Cylinder, far: bool): (disk: Disk)
    ensures disk.radius == cyl.radius
    ensures !far ==> disk.center == cyl.center && disk.normal == cyl.axis
    ensures far ==> Sub(disk.center, cyl.center) == Scale(cyl.height, cyl.axis) && Add(disk.normal, cyl.axis) == Zero
  {
    if far then Disk(Add(cyl.center, Scale(cyl.height, cyl.axis)), Scale(-1.0, cyl.axis), cyl.radius)
    else Disk(cyl.center, Scale(1.0, cyl.axis), cyl.radius)
  }

  /** Slot `part` (0, 1 or 2) of the three a cylinder takes: the cylinder, then its caps. */
  function CylinderPart(c: CylinderDraw, part: int, id: int): Shape
    requires Unit(c.material)
  {
    if part == 0 then Shape(id, CylinderShape(Tube(c)), MaterialIndexOf(c.material), NoBox)
    else Shape(id, DiskShape(Cap(Tube(c), part == 2)), 10, NoBox)
  }

  /** The ground: the square y = side over 0 <= x, z <= side, with axes along x and z. */
  function GroundSquare(side: real): (rect: Rectangle)
    ensures rect.center.y == side && rect.length0 == side && rect.length1 == side
  {
    Rectangle(Vector(side / 2.0, side, side / 2.0), Vector(1.0, 0.0, 0.0), Vector(0.0, 0.0, 1.0), side, side)
  }

  /** The square is the one spanned by the corners a = (0, side, 0), b = (0, side, side),
      c = (side, side, side) and d = (side, side, 0): centred at their mean, its axes the
      edges d - a and b - a divided by their lengths, and those lengths the exact ones. */
  lemma GroundFromCorners(side: real)
    requires side > 0.0
    ensures var a, b, c, d := Vector(0.0, side, 0.0), Vector(0.0, side, side), Vector(side, side, side), Vector(side, side, 0.0);
            var rect := GroundSquare(side);
            && rect.center == Scale(0.25, Add(Add(a, b), Add(c, d)))
            && rect.axis0 == Scale(1.0 / rect.length0, Sub(d, a)) && Dot(Sub(d, a), Sub(d, a)) == Square(rect.length0)
            && rect.axis1 == Scale(1.0 / rect.length1, Sub(b, a)) && Dot(Sub(b, a), Sub(b, a)) == Square(rect.length1)
  {
  }

  /** The ground plane of the world, material 2. */
  function Ground(id: int): Shape {
    Shape(id, RectangleShape(GroundSquare(L)), 2, NoBox)
  }

  /** The entry at slot n of the table, by the block n falls in; its id is n. */
  function ShapeAt(tris: seq<Triangle>, d: SceneDraws, n: int): (s: Shape)
    requires Drawn(d) && 0 <= n < Nshapes(|tris|)
    ensures s.id == n
  {
    if n < GroundIndex(|tris|) then SolidAt(tris, d, n) else Ground(n)
  }

  /** The entry at a slot before the ground's. */
  function SolidAt(tris: seq<Triangle>, d: SceneDraws, n: int): (s: Shape)
    requires Drawn(d) && 0 <= n < GroundIndex(|tris|)
    ensures s.id == n
  {
    var T := |tris|;
    if n < ConeBase(T) then
      BunnyDigits(n, T);
      BunnyTriangle(tris[n % T], d.bunnies[n / T], n)
    else if n < SphereBase(T) then ConeAt(d.cones[n - ConeBase(T)], n)
    else if n < CylinderBase(T) then
      var i := n - SphereBase(T);
      SphereAt(d.spheres[i], if i < Ncones then Some(ConeAt(d.cones[i], 0).geom.cone) else None, n)
    else
      var k := n - CylinderBase(T);
      CylinderPart(d.cylinders[k / 3], k % 3, n)
  }

  /** The table the setup fills. */
  function Layout(tris: seq<Triangle>, d: SceneDraws): (shapes: seq<Shape>)
    requires Drawn(d)
    ensures |shapes| == Nshapes(|tris|)
    ensures forall n :: 0 <= n < |shapes| ==> shapes[n] == ShapeAt(tris, d, n)
  {
    seq(Nshapes(|tris|), n requires 0 <= n < Nshapes(|tris|) => ShapeAt(tris, d, n))
  }

  /** Slot n of the copies holds triangle n % T of copy n / T. */
  lemma BunnyDigits(n: int, T: int)
    requires 0 <= n < Nbunny * T
    ensures T > 0 && 0 <= n / T < Nbunny && 0 <= n % T < T
  {
    if T <= 0 {
      GridIndex.MulMonotone(T, 0, Nbunny);
      assert false;
    }
  }

  /** Slot b T + i is triangle i of copy b. */
  lemma SlotDigits(b: int, i: int, T: int)
    requires 0 <= i < T
    ensures (b * T + i) / T == b && (b * T + i) % T == i
  {
    var n := b * T + i;
    GridIndex.Radix(i, b, n % T, n / T, T);
  }

  /** Every slot below cnt already holds its final entry. */
  predicate Built(shapes: seq<Shape>, tris: seq<Triangle>, d: SceneDraws, cnt: int)
    requires Drawn(d)
  {
    cnt <= GroundIndex(|tris|) && |shapes| == Nshapes(|tris|)
    && forall n :: 0 <= n < cnt ==> shapes[n] == SolidAt(tris, d, n)
  }

  /** Storing slot cnt's entry extends what is built by one slot. */
  lemma Extend(shapes: seq<Shape>, tris: seq<Triangle>, d: SceneDraws, cnt: int)
    requires Drawn(d) && Built(shapes, tris, d, cnt) && 0 <= cnt < GroundIndex(|tris|)
    ensures Built(shapes[cnt := SolidAt(tris, d, cnt)], tris, d, cnt + 1)
  {
  }

  /** A table built up to the ground's slot, with the ground stored there, is the layout. */
  lemma Completed(shapes: seq<Shape>, tris: seq<Triangle>, d: SceneDraws)
    requires Drawn(d) && Built(shapes, tris, d, GroundIndex(|tris|))
    requires shapes[GroundIndex(|tris|)] == Ground(GroundIndex(|tris|))
    ensures shapes == Layout(tris, d)
  {
    forall n | 0 <= n < |shapes|
      ensures shapes[n] == ShapeAt(tris, d, n)
    {
      if n < GroundIndex(|tris|) {
        assert shapes[n] == SolidAt(tris, d, n);
      }
    }
  }

  /** Slot b T + i holds triangle i of copy b. */
  lemma BunnySlot(tris: seq<Triangle>, d: SceneDraws, b: int, i: int)
    requires Drawn(d) && 0 <= b < Nbunny && 0 <= i < |tris|
    ensures b * |tris| + i < ConeBase(|tris|)
    ensures SolidAt(tris, d, b * |tris| + i) == BunnyTriangle(tris[i], d.bunnies[b], b * |tris| + i)
  {
    GridIndex.MulMonotone(b + 1, Nbunny, |tris|);
    SlotDigits(b, i, |tris|);
  }

  /** Slot 3 i + part of the cylinder block holds that part of cylinder i. */
  lemma CylinderSlot(tris: seq<Triangle>, d: SceneDraws, i: int, part: int)
    requires Drawn(d) && 0 <= i < Ncylinders && 0 <= part < 3
    ensures SolidAt(tris, d, CylinderBase(|tris|) + 3 * i + part)
            == CylinderPart(d.cylinders[i], part, CylinderBase(|tris|) + 3 * i + part)
  {
    SlotDigits(i, part, 3);
  }

  /** Copies the model Nbunny times into the first slots, each copy scaled, lowered onto
      the ground and shifted by its own offsets, with material 10. */
  method AddBunnies(shapes: array<Shape>, tris: seq<Triangle>, d: SceneDraws)
    requires Drawn(d) && shapes.Length == Nshapes(|tris|)
    modifies shapes
    ensures Built(shapes[..], tris, d, ConeBase(|tris|))
  {
    var T := |tris|;
    for b := 0 to Nbunny
      invariant Built(shapes[..], tris, d, b * T)
    {
      AddBunny(shapes, tris, d, b);
    }
  }

  /** Copy b of the model, triangle after triangle, at slots b T to (b + 1) T. */
  method AddBunny(shapes: array<Shape>, tris: seq<Triangle>, d: SceneDraws, b: int)
    requires Drawn(d) && 0 <= b < Nbunny
    requires Built(shapes[..], tris, d, b * |tris|)
    modifies shapes
    ensures Built(shapes[..], tris, d, (b + 1) * |tris|)
  {
    var T := |tris|;
    var bd := d.bunnies[b];
    GridIndex.MulMonotone(b + 1, Nbunny, T);
    var bcnt := b * T;
    for i := 0 to T
      invariant bcnt == b * T + i
      invariant Built(shapes[..], tris, d, bcnt)
    {
      var t := tris[i];
      t := t.(v0 := Placed(t.v0, bd));
      t := t.(v1 := Placed(t.v1, bd));
      t := t.(v2 := Placed(t.v2, bd));
      BunnySlot(tris, d, b, i);
      Extend(shapes[..], tris, d, bcnt);
      shapes[bcnt] := Shape(bcnt, TriangleShape(t), 10, NoBox);
      bcnt := bcnt + 1;
    }
  }

  /** The cones, after the copies. */
  method AddCones(shapes: array<Shape>, tris: seq<Triangle>, d: SceneDraws)
    requires Drawn(d) && Built(shapes[..], tris, d, ConeBase(|tris|))
    modifies shapes
    ensures Built(shapes[..], tris, d, SphereBase(|tris|))
  {
    var cnt := ConeBase(|tris|);
    for i := 0 to Ncones
      invariant cnt == ConeBase(|tris|) + i
      invariant Built(shapes[..], tris, d, cnt)
    {
      var c := d.cones[i];
      var vertex := Vector(0.5 * L + L * (c.x - 0.5), L, 0.5 * L + L * (c.z - 0.5));
      var cone := Cone(vertex, Vector(0.0, -1.0, 0.0), 140.0 + 40.0 * c.radius, 280.0 + 40.0 * c.height);
      Extend(shapes[..], tris, d, cnt);
      shapes[cnt] := Shape(cnt, ConeShape(cone), MaterialIndexOf(c.material), NoBox);
      cnt := cnt + 1;
    }
  }

  /** The spheres, after the cones; sphere i < Ncones takes x and z from the vertex of the
      cone Ncones slots back, which is cone i. */
  method AddSpheres(shapes: array<Shape>, tris: seq<Triangle>, d: SceneDraws)
    requires Drawn(d) && Built(shapes[..], tris, d, SphereBase(|tris|))
    modifies shapes
    ensures Built(shapes[..], tris, d, CylinderBase(|tris|))
  {
    var cnt := SphereBase(|tris|);
    for i := 0 to Nspheres
      invariant cnt == SphereBase(|tris|) + i
      invariant Built(shapes[..], tris, d, cnt)
    {
      var s := d.spheres[i];
      var radius := 35.0 + 20.0 * s.radius;
      var pos;
      if i < Ncones {
        var below := shapes[cnt - Ncones];
        assert below == SolidAt(tris, d, cnt - Ncones);
        pos := Vector(below.geom.cone.vertex.x, L / 4.0 - 100.0, below.geom.cone.vertex.z);
      } else {
        pos := Vector(L * s.x, L / 4.0 - radius, L * s.z);
      }
      pos := pos.(y := pos.y + 400.0 * s.drop);
      Extend(shapes[..], tris, d, cnt);
      shapes[cnt] := Shape(cnt, SphereShape(Sphere(pos, radius, Zero, Zero, Zero)), MaterialIndexOf(s.material), NoBox);
      cnt := cnt + 1;
    }
  }

  /** The cylinders, after the spheres, each followed by its two end disks (material 10),
      which are built from the cylinder just stored. */
  method AddCylinders(shapes: array<Shape>, tris: seq<Triangle>, d: SceneDraws)
    requires Drawn(d) && Built(shapes[..], tris, d, CylinderBase(|tris|))
    modifies shapes
    ensures Built(shapes[..], tris, d, GroundIndex(|tris|))
  {
    var cnt := CylinderBase(|tris|);
    for i := 0 to Ncylinders
      invariant cnt == CylinderBase(|tris|) + 3 * i
      invariant Built(shapes[..], tris, d, cnt)
    {
      var c := d.cylinders[i];
      CylinderSlot(tris, d, i, 0);
      Extend(shapes[..], tris, d, cnt);
      shapes[cnt] := Shape(cnt, CylinderShape(Tube(c)), MaterialIndexOf(c.material), NoBox);
      cnt := cnt + 1;
      var oldCylinder := shapes[cnt - 1].geom.cylinder;
      CylinderSlot(tris, d, i, 1);
      Extend(shapes[..], tris, d, cnt);
      shapes[cnt] := Shape(cnt, DiskShape(Disk(oldCylinder.center, Scale(1.0, oldCylinder.axis), oldCylinder.radius)),
                           10, NoBox);
      cnt := cnt + 1;
      CylinderSlot(tris, d, i, 2);
      Extend(shapes[..], tris, d, cnt);
      var far := Add(oldCylinder.center, Scale(oldCylinder.height, oldCylinder.axis));
      shapes[cnt] := Shape(cnt, DiskShape(Disk(far, Scale(-1.0, oldCylinder.axis), oldCylinder.radius)), 10, NoBox);
      cnt := cnt + 1;
    }
  }

  /** Fills the zero-filled table block by block through the running count: copies of the
      model, cones, spheres, cylinders with their caps, and the ground last. */
  method SetupShapes(tris: seq<Triangle>, d: SceneDraws) returns (shapes: array<Shape>)
    requires Drawn(d)
    ensures fresh(shapes)
    ensures shapes[..] == Layout(tris, d)
  {
    shapes := new Shape[Nshapes(|tris|)](_ => Blank);
    AddBunnies(shapes, tris, d);
    AddCones(shapes, tris, d);
    AddSpheres(shapes, tris, d);
    AddCylinders(shapes, tris, d);
    AddGround(shapes, tris, d);
    Completed(shapes[..], tris, d);
  }

  /** The ground, in the last slot. */
  method AddGround(shapes: array<Shape>, tris: seq<Triangle>, d: SceneDraws)
    requires Drawn(d) && Built(shapes[..], tris, d, GroundIndex(|tris|))
    modifies shapes
    ensures Built(shapes[..], tris, d, GroundIndex(|tris|))
    ensures shapes[GroundIndex(|tris|)] == Ground(GroundIndex(|tris|))
  {
    var cnt := GroundIndex(|tris|);
    shapes[cnt] := Ground(cnt);
  }

  // ------------------------------------------------- what the table holds

  /** Each cylinder is followed by its two caps, both of its radius and of material 10:
      the first at its center facing along its axis, the second at center + height axis
      facing back. */
  lemma CylinderCaps(tris: seq<Triangle>, d: SceneDraws, i: int)
    requires Drawn(d) && 0 <= i < Ncylinders
    ensures var shapes := Layout(tris, d);
            var c := CylinderBase(|tris|) + 3 * i;
            c + 2 < |shapes|
            && shapes[c].geom.CylinderShape? && shapes[c + 1].geom.DiskShape? && shapes[c + 2].geom.DiskShape?
            && var cyl := shapes[c].geom.cylinder;
               var near := shapes[c + 1].geom.disk;
               var far := shapes[c + 2].geom.disk;
               && near.center == cyl.center && near.normal == cyl.axis && near.radius == cyl.radius
               && Sub(far.center, cyl.center) == Scale(cyl.height, cyl.axis)
               && Add(far.normal, cyl.axis) == Zero && far.radius == cyl.radius
               && shapes[c + 1].material == 10 && shapes[c + 2].material == 10
  {
    var c := CylinderBase(|tris|) + 3 * i;
    CylinderSlot(tris, d, i, 0);
    CylinderSlot(tris, d, i, 1);
    CylinderSlot(tris, d, i, 2);
  }

  /** The first Ncones spheres rest above the cones, sphere i over the vertex of cone i. */
  lemma SpheresOverCones(tris: seq<Triangle>, d: SceneDraws, i: int)
    requires Drawn(d) && 0 <= i < Ncones
    ensures var shapes := Layout(tris, d);
            var cone := shapes[ConeBase(|tris|) + i];
            var sphere := shapes[SphereBase(|tris|) + i];
            cone.geom.ConeShape? && sphere.geom.SphereShape?
            && sphere.geom.sphere.pos.x == cone.geom.cone.vertex.x
            && sphere.geom.sphere.pos.z == cone.geom.cone.vertex.z
  {
  }

  /** Every sphere starts at rest: no velocity, no pending velocity, no force. */
  lemma SpheresAtRest(tris: seq<Triangle>, d: SceneDraws, n: int)
    requires Drawn(d) && 0 <= n < Nshapes(|tris|) && Layout(tris, d)[n].geom.SphereShape?
    ensures var sphere := Layout(tris, d)[n].geom.sphere;
            sphere.velocity == Zero && sphere.newVelocity == Zero && sphere.force == Zero
  {
    if n < ConeBase(|tris|) {
      BunnyDigits(n, |tris|);
    }
  }

  /** Every shape's material is an entry of the table: 10 for the model and the caps, 2
      for the ground, and a drawn entry from 1 to Nmaterials - 2 otherwise. */
  lemma MaterialsInTable(tris: seq<Triangle>, d: SceneDraws, n: int)
    requires Drawn(d) && 0 <= n < Nshapes(|tris|)
    ensures 0 <= Layout(tris, d)[n].material < Nmaterials
  {
    var T := |tris|;
    if n < ConeBase(T) {
      BunnyDigits(n, T);
    } else if n >= CylinderBase(T) && n < GroundIndex(T) {
      var k := n - CylinderBase(T);
      assert Layout(tris, d)[n] == CylinderPart(d.cylinders[k / 3], k % 3, n);
    }
  }

  /** The tags in the table: triangles, cones, spheres, then cylinder, disk, disk, and the
      rectangle; no slot is left untagged. */
  lemma EveryShapeTagged(tris: seq<Triangle>, d: SceneDraws, n: int)
    requires Drawn(d) && 0 <= n < Nshapes(|tris|)
    ensures var s := Layout(tris, d)[n];
            var T := |tris|;
            && (n < ConeBase(T) <==> Tag(s.geom) == TRIANGLE)
            && (ConeBase(T) <= n < SphereBase(T) <==> Tag(s.geom) == CONE)
            && (SphereBase(T) <= n < CylinderBase(T) <==> Tag(s.geom) == SPHERE)
            && (CylinderBase(T) <= n < GroundIndex(T) && (n - CylinderBase(T)) % 3 == 0 <==> Tag(s.geom) == CYLINDER)
            && (CylinderBase(T) <= n < GroundIndex(T) && (n - CylinderBase(T)) % 3 != 0 <==> Tag(s.geom) == DISK)
            && (n == GroundIndex(T) <==> Tag(s.geom) == RECTANGLE)
  {
    var T := |tris|;
    if n < ConeBase(T) {
      BunnyDigits(n, T);
    } else if n >= CylinderBase(T) && n < GroundIndex(T) {
      var k := n - CylinderBase(T);
      assert Layout(tris, d)[n] == CylinderPart(d.cylinders[k / 3], k % 3, n);
    }
  }

  // ----------------------------------------------------------------- grid

  /** How far the grid reaches beyond the world on every side. */
  const Delta: real := 100.0

  /** 151 cells per axis over [-Delta, L + Delta], each side a 151st of the span, with
      the reciprocals NI / span alongside. */
  const SceneGrid: GridGeom :=
    GridGeom(151, 151, 151, -Delta, L + Delta, -Delta, L + Delta, -Delta, L + Delta,
             (L + 2.0 * Delta) / 151.0, (L + 2.0 * Delta) / 151.0, (L + 2.0 * Delta) / 151.0,
             151.0 / (L + 2.0 * Delta), 151.0 / (L + 2.0 * Delta), 151.0 / (L + 2.0 * Delta))

  /** The scene grid has cells on every axis, each cell side times its reciprocal is one,
      and NI cells of side dx span exactly [xmin, xmax] (likewise on y and z). */
  lemma SceneGridShape()
    ensures var g := SceneGrid;
            && GridIndex.Dims(g) && g.dx > 0.0 && g.dy > 0.0 && g.dz > 0.0
            && g.dx * g.invdx == 1.0 && g.dy * g.invdy == 1.0 && g.dz * g.invdz == 1.0
            && g.xmin + g.NI as real * g.dx == g.xmax
            && g.ymin + g.NJ as real * g.dy == g.ymax
            && g.zmin + g.NK as real * g.dz == g.zmax
  {
  }

  datatype Cell = Cell(i: int, j: int, k: int)

  /** The box of cell (i, j, k): [i dx + xmin, (i + 1) dx + xmin] and so on, with the
      zero cell range of a zero-filled record. */
  function CellBox(g: GridGeom, c: Cell): BBox {
    BBox(c.i as real * g.dx + g.xmin, (c.i + 1) as real * g.dx + g.xmin,
         c.j as real * g.dy + g.ymin, (c.j + 1) as real * g.dy + g.ymin,
         c.k as real * g.dz + g.zmin, (c.k + 1) as real * g.dz + g.zmin,
         0, 0, 0, 0, 0, 0)
  }

  /** The cell with flat id c: its digits in the mixed radix NI, NJ. */
  function CellOf(g: GridGeom, c: int): (cell: Cell)
    requires GridIndex.Dims(g) && 0 <= c < GridIndex.Cells(g)
    ensures GridIndex.InGrid(g, cell.i, cell.j, cell.k)
    ensures GridIndex.Id(g, cell.i, cell.j, cell.k) == c
  {
    var q := c / g.NI;
    CellDigits(g, c);
    Cell(c % g.NI, q % g.NJ, q / g.NJ)
  }

  lemma CellDigits(g: GridGeom, c: int)
    requires GridIndex.Dims(g) && 0 <= c < GridIndex.Cells(g)
    ensures var q := c / g.NI;
            && 0 <= q / g.NJ < g.NK
            && GridIndex.Id(g, c % g.NI, q % g.NJ, q / g.NJ) == c
  {
    var q := c / g.NI;
    var i, j, k := c % g.NI, q % g.NJ, q / g.NJ;
    assert c == g.NI * q + i;
    assert q == g.NJ * k + j;
    if q < 0 {
      GridIndex.MulMonotone(q, -1, g.NI);
      assert false;
    }
    if k < 0 {
      GridIndex.MulMonotone(k, -1, g.NJ);
      assert false;
    }
    var p := g.NJ * g.NK;
    assert GridIndex.Cells(g) == g.NI * p;
    if q >= p {
      GridIndex.MulMonotone(p, q, g.NI);
      assert false;
    }
    if k >= g.NK {
      GridIndex.MulMonotone(g.NK, k, g.NJ);
      assert false;
    }
    assert GridIndex.Id(g, i, j, k) == i + g.NI * (j + g.NJ * k);
  }

  /** The box the setup stores at flat id c. */
  function CellBoxAt(g: GridGeom, c: int): BBox
    requires GridIndex.Dims(g) && 0 <= c < GridIndex.Cells(g)
  {
    CellBox(g, CellOf(g, c))
  }

  /** The ids below n hold their cells' boxes. */
  predicate CellsBoxed(g: GridGeom, boxes: seq<BBox>, n: int)
    requires GridIndex.Dims(g)
  {
    |boxes| == GridIndex.Cells(g) && n <= GridIndex.Cells(g)
    && forall c :: 0 <= c < n ==> boxes[c] == CellBoxAt(g, c)
  }

  /** Storing the box of the cell whose id is next extends the boxed ids by one. */
  lemma BoxStep(g: GridGeom, boxes: seq<BBox>, i: int, j: int, k: int)
    requires GridIndex.Dims(g) && GridIndex.InGrid(g, i, j, k)
    requires CellsBoxed(g, boxes, GridIndex.Id(g, i, j, k))
    ensures 0 <= GridIndex.Id(g, i, j, k) < |boxes|
    ensures CellsBoxed(g, boxes[GridIndex.Id(g, i, j, k) := CellBox(g, Cell(i, j, k))], GridIndex.Id(g, i, j, k) + 1)
  {
    var id := GridIndex.Id(g, i, j, k);
    GridIndex.IdRange(g, i, j, k);
    var cell := CellOf(g, id);
    GridIndex.IdInjective(g, cell.i, cell.j, cell.k, i, j, k);
  }

  /** Once every id is boxed, every cell's box sits at its id. */
  lemma EveryCellBoxed(g: GridGeom, boxes: seq<BBox>, i: int, j: int, k: int)
    requires GridIndex.Dims(g) && CellsBoxed(g, boxes, GridIndex.Cells(g)) && GridIndex.InGrid(g, i, j, k)
    ensures 0 <= GridIndex.Id(g, i, j, k) < |boxes|
    ensures boxes[GridIndex.Id(g, i, j, k)] == CellBox(g, Cell(i, j, k))
  {
    var id := GridIndex.Id(g, i, j, k);
    GridIndex.IdRange(g, i, j, k);
    var cell := CellOf(g, id);
    GridIndex.IdInjective(g, cell.i, cell.j, cell.k, i, j, k);
  }

  /** The k, j, i loop nest over every cell, storing each cell's box at its id. */
  method FillCellBoxes(g: GridGeom, boxes: array<BBox>)
    requires GridIndex.Dims(g) && boxes.Length == GridIndex.Cells(g)
    modifies boxes
    ensures CellsBoxed(g, boxes[..], GridIndex.Cells(g))
  {
    for k := 0 to g.NK
      invariant CellsBoxed(g, boxes[..], GridIndex.Id(g, 0, 0, k))
    {
      FillPlane(g, boxes, k);
    }
    assert GridIndex.Id(g, 0, 0, g.NK) == GridIndex.Cells(g);
  }

  /** Plane k: rows j = 0 .. NJ - 1. */
  method FillPlane(g: GridGeom, boxes: array<BBox>, k: int)
    requires GridIndex.Dims(g) && 0 <= k < g.NK
    requires CellsBoxed(g, boxes[..], GridIndex.Id(g, 0, 0, k))
    modifies boxes
    ensures CellsBoxed(g, boxes[..], GridIndex.Id(g, 0, 0, k + 1))
  {
    for j := 0 to g.NJ
      invariant CellsBoxed(g, boxes[..], GridIndex.Id(g, 0, j, k))
    {
      FillRow(g, boxes, j, k);
    }
    assert GridIndex.Id(g, 0, g.NJ, k) == GridIndex.Id(g, 0, 0, k + 1);
  }

  /** Row (j, k): cells i = 0 .. NI - 1, whose ids follow one another. */
  method FillRow(g: GridGeom, boxes: array<BBox>, j: int, k: int)
    requires GridIndex.Dims(g) && 0 <= j < g.NJ && 0 <= k < g.NK
    requires CellsBoxed(g, boxes[..], GridIndex.Id(g, 0, j, k))
    modifies boxes
    ensures CellsBoxed(g, boxes[..], GridIndex.Id(g, 0, j + 1, k))
  {
    for i := 0 to g.NI
      invariant CellsBoxed(g, boxes[..], GridIndex.Id(g, 0, j, k) + i)
    {
      var id := i + j * g.NI + k * g.NI * g.NJ;
      BoxStep(g, boxes[..], i, j, k);
      boxes[id] := CellBox(g, Cell(i, j, k));
    }
  }

  /** The scene's grid, with the box of every cell stored at the cell's id and no index
      of shapes yet. */
  method SetupGrid() returns (grid: GridIndex.Grid)
    ensures fresh(grid) && fresh(grid.bboxes)
    ensures grid.geom == SceneGrid && grid.bboxes.Length == GridIndex.Cells(SceneGrid)
    ensures forall i, j, k :: GridIndex.InGrid(SceneGrid, i, j, k) ==>
              grid.bboxes[GridIndex.Id(SceneGrid, i, j, k)] == CellBox(SceneGrid, Cell(i, j, k))
  {
    SceneGridShape();
    var g := SceneGrid;
    var boxes := new BBox[GridIndex.Cells(g)](_ => NoBox);
    FillCellBoxes(g, boxes);
    forall i, j, k | GridIndex.InGrid(g, i, j, k)
      ensures 0 <= GridIndex.Id(g, i, j, k) < boxes.Length
      ensures boxes[GridIndex.Id(g, i, j, k)] == CellBox(g, Cell(i, j, k))
    {
      EveryCellBoxed(g, boxes[..], i, j, k);
    }
    grid := new GridIndex.Grid(g, boxes);
  }

  /** Neighbouring cells share faces. */
  lemma CellsShareFaces(g: GridGeom, c: Cell)
    ensures CellBox(g, c).xmax == CellBox(g, c.(i := c.i + 1)).xmin
    ensures CellBox(g, c).ymax == CellBox(g, c.(j := c.j + 1)).ymin
    ensures CellBox(g, c).zmax == CellBox(g, c.(k := c.k + 1)).zmin
  {
  }

  /** A point inside a cell's box along x maps back to that cell under the index the grid
      computes for shapes, when dx and invdx are reciprocal. */
  lemma CellIndexInsideCell(g: GridGeom, c: Cell, x: real)
    requires GridIndex.InGrid(g, c.i, c.j, c.k) && g.dx > 0.0 && g.dx * g.invdx == 1.0
    requires CellBox(g, c).xmin <= x < CellBox(g, c).xmax
    ensures BoundingBoxes.CellIndex(x, g.xmin, g.invdx, g.NI) == c.i
  {
    var u := x - g.xmin - c.i as real * g.dx;
    assert 0.0 <= u < g.dx;
    assert g.invdx > 0.0 by {
      if g.invdx <= 0.0 {
        NonNegativeProduct(g.dx, -g.invdx);
        assert false;
      }
    }
    var t := g.invdx * (x - g.xmin);
    assert t == c.i as real * (g.dx * g.invdx) + u * g.invdx;
    NonNegativeProduct(u, g.invdx);
    assert u * g.invdx < g.dx * g.invdx by {
      NonNegativeProduct(g.dx - u, g.invdx);
      assert (g.dx - u) * g.invdx != 0.0;
    }
    assert c.i as real <= t < c.i as real + 1.0;
  }

  // --------------------------------------------------------------- lights

  /** The five lights: white ones above the centre and at the far corner, and three
      bluish ones, each with full blue and no channel above it. */
  function SceneLights(): (lights: seq<Light>)
    ensures |lights| == 5
    ensures forall l :: l in lights ==>
              0.0 < l.intensity.red <= l.intensity.green <= l.intensity.blue == 1.0
  {
    [Light(Vector(L / 2.0, 0.0, -100.0), Colour(1.0, 1.0, 1.0)),
     Light(Vector(3200.0, 3000.0, -1000.0), Colour(0.6, 0.7, 1.0)),
     Light(Vector(600.0, 0.0, -100.0), Colour(0.3, 0.5, 1.0)),
     Light(Vector(L / 2.0, 0.0, L / 2.0), Colour(0.8, 0.8, 1.0)),
     Light(Vector(L, L, -1000.0), Colour(1.0, 1.0, 1.0))]
  }

  // ---------------------------------------------------------------- scene

  /** The whole scene: the material table, the shape table, the lights and the grid with
      its cell boxes, from the model's triangles and every outcome of the generator. */
  method Setup(tris: seq<Triangle>, materialDraws: seq<MaterialDraw>, d: SceneDraws)
    returns (materials: array<Material>, shapes: array<Shape>, lights: seq<Light>, grid: GridIndex.Grid)
    requires |materialDraws| == Nmaterials - 1
    requires forall i :: 0 <= i < |materialDraws| ==> MaterialDrawn(materialDraws[i])
    requires Drawn(d)
    ensures fresh(materials) && fresh(shapes) && fresh(grid)
    ensures materials[..] == MaterialTable(materialDraws)
    ensures shapes[..] == Layout(tris, d)
    ensures lights == SceneLights()
    ensures grid.geom == SceneGrid && grid.bboxes.Length == GridIndex.Cells(SceneGrid)
    ensures forall i, j, k :: GridIndex.InGrid(SceneGrid, i, j, k) ==>
              grid.bboxes[GridIndex.Id(SceneGrid, i, j, k)] == CellBox(SceneGrid, Cell(i, j, k))
  {
    materials := SetupMaterials(materialDraws);
    shapes := SetupShapes(tris, d);
    lights := SceneLights();
    grid := SetupGrid();
  }
}
