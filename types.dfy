/** Entities of the ray tracer: vectors, rays, materials, bounding boxes and the
    tagged union of shapes, with the compile-time constants they use. */
module Types {

  // Shape tags of the C tagged union.
  const TRIANGLE: int := 1
  const SPHERE: int := 2
  const CONE: int := 3
  const DISK: int := 4
  const CYLINDER: int := 5
  const RECTANGLE: int := 6

  const Eps: real := 0.000001              // p_eps
  const IntersectDelta: real := 0.1        // p_intersectDelta
  const ShadowDelta: real := 0.1           // p_shadowDelta
  const ProjectDelta: real := 0.01         // p_projectDelta
  const MaxLevel: int := 4                 // p_maxLevel
  const MaxNrays: int := 32                // p_maxNrays = 2 << p_maxLevel
  const MaxNcollisions: int := 8           // p_maxNcollisions

  datatype Option<T> = None | Some(value: T)

  datatype Vector = Vector(x: real, y: real, z: real)

  const Zero: Vector := Vector(0.0, 0.0, 0.0)

  datatype Colour = Colour(red: real, green: real, blue: real)

  const Black: Colour := Colour(0.0, 0.0, 0.0)

  /** The three one-bit flags of a material. */
  datatype Info = Info(refractor: bool, reflector: bool, emitter: bool)

  datatype Material = Material(diffuse: Colour, reflection: real, refraction: real, eta: real, info: Info)

  datatype Light = Light(pos: Vector, intensity: Colour)

  datatype Ray = Ray(start: Vector, dir: Vector, level: int, coef: real)

  /** World-space extent and the range of grid cells a shape overlaps. */
  datatype BBox = BBox(xmin: real, xmax: real, ymin: real, ymax: real, zmin: real, zmax: real,
                       imin: int, imax: int, jmin: int, jmax: int, kmin: int, kmax: int)

  datatype Sphere = Sphere(pos: Vector, radius: real, velocity: Vector, newVelocity: Vector, force: Vector)
  datatype Triangle = Triangle(v0: Vector, v1: Vector, v2: Vector)
  datatype Rectangle = Rectangle(center: Vector, axis0: Vector, axis1: Vector, length0: real, length1: real)
  datatype Cone = Cone(vertex: Vector, axis: Vector, radius: real, height: real)
  datatype Disk = Disk(center: Vector, normal: Vector, radius: real)
  datatype Cylinder = Cylinder(center: Vector, axis: Vector, radius: real, height: real)

  /** The union member selected by the integer type tag; a tag outside 1..6 selects none. */
  datatype Geometry =
    | TriangleShape(triangle: Triangle)
    | SphereShape(sphere: Sphere)
    | ConeShape(cone: Cone)
    | DiskShape(disk: Disk)
    | CylinderShape(cylinder: Cylinder)
    | RectangleShape(rectangle: Rectangle)
    | Untagged(tag: int)

  datatype Shape = Shape(id: int, geom: Geometry, material: int, bbox: BBox)

  /** The uniform grid over the scene: NI x NJ x NK cells of size dx x dy x dz starting at
      (xmin, ymin, zmin), with the reciprocals of the cell sizes stored alongside. */
  datatype GridGeom = GridGeom(NI: int, NJ: int, NK: int,
                               xmin: real, xmax: real, ymin: real, ymax: real, zmin: real, zmax: real,
                               dx: real, dy: real, dz: real, invdx: real, invdy: real, invdz: real)

  /** The integer type tag the C union carries. */
  function Tag(g: Geometry): (t: int)
    ensures g.Untagged? ==> t == g.tag
    ensures !g.Untagged? ==> 1 <= t <= 6
  {
    match g
    case TriangleShape(_) => TRIANGLE
    case SphereShape(_) => SPHERE
    case ConeShape(_) => CONE
    case DiskShape(_) => DISK
    case CylinderShape(_) => CYLINDER
    case RectangleShape(_) => RECTANGLE
    case Untagged(tag) => tag
  }

  /** A well-formed union: an untagged shape carries a tag outside 1..6. */
  predicate TagValid(g: Geometry) {
    g.Untagged? ==> !(1 <= g.tag <= 6)
  }
}
