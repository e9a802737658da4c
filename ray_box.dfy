/** The exit-face test of a ray against an axis-aligned box (one grid cell): which faces
    the ray leaves through first, as a six-bit mask, and the ray restarted at that exit. */
module RayBox {
  import opened Types
  import opened Utils
  import opened Intersections

  /** The parameter used when no face is crossed ahead of the start. */
  const NoExit: real := 20000.0

  /** Face f's crossing parameter, when the direction points toward that face. Faces are
      numbered as their mask bits: 0 z-min, 1 y-min, 2 x-max, 3 y-max, 4 x-min, 5 z-max. */
  function FaceExit(r: Ray, box: BBox, f: int): (c: Option<real>)
    requires 0 <= f < 6
    ensures c.Some? <==> (if f == 0 then r.dir.z < 0.0 else if f == 1 then r.dir.y < 0.0
                          else if f == 2 then r.dir.x > 0.0 else if f == 3 then r.dir.y > 0.0
                          else if f == 4 then r.dir.x < 0.0 else r.dir.z > 0.0)
  {
    var d := r.dir;
    var s := r.start;
    if f == 0 then (if d.z < 0.0 then Some((box.zmin - s.z) / d.z) else None)
    else if f == 1 then (if d.y < 0.0 then Some((box.ymin - s.y) / d.y) else None)
    else if f == 2 then (if d.x > 0.0 then Some((box.xmax - s.x) / d.x) else None)
    else if f == 3 then (if d.y > 0.0 then Some((box.ymax - s.y) / d.y) else None)
    else if f == 4 then (if d.x < 0.0 then Some((box.xmin - s.x) / d.x) else None)
    else (if d.z > 0.0 then Some((box.zmax - s.z) / d.z) else None)
  }

  /** Face f is crossed ahead of the start. */
  predicate Ahead(r: Ray, box: BBox, f: int)
    requires 0 <= f < 6
  {
    FaceExit(r, box, f).Some? && FaceExit(r, box, f).value > 0.0
  }

  /** The running minimum with one more candidate crossing. */
  function Improve(m: real, c: Option<real>): (m': real)
    ensures m' <= m
    ensures c.Some? && c.value > 0.0 ==> m' <= c.value
    ensures m' == m || (c.Some? && c.value > 0.0 && m' == c.value)
  {
    if c.Some? && c.value > 0.0 then Min(m, c.value) else m
  }

  /** The first crossing ahead of the start, or NoExit when it is nearer than every one:
      the candidates are taken in the order x+, x-, y+, y-, z+, z-. */
  function ExitTime(r: Ray, box: BBox): (m: real)
    ensures 0.0 < m <= NoExit
    ensures forall f | 0 <= f < 6 :: Ahead(r, box, f) ==> m <= FaceExit(r, box, f).value
    ensures m == NoExit || exists f | 0 <= f < 6 :: Ahead(r, box, f) && m == FaceExit(r, box, f).value
  {
    var m2 := Improve(NoExit, FaceExit(r, box, 2));
    var m4 := Improve(m2, FaceExit(r, box, 4));
    var m3 := Improve(m4, FaceExit(r, box, 3));
    var m1 := Improve(m3, FaceExit(r, box, 1));
    var m5 := Improve(m1, FaceExit(r, box, 5));
    Improve(m5, FaceExit(r, box, 0))
  }

  /** Face f is crossed ahead of the start, no later than every other crossing. */
  predicate Exits(r: Ray, box: BBox, f: int)
    requires 0 <= f < 6
  {
    Ahead(r, box, f) && FaceExit(r, box, f).value <= ExitTime(r, box)
  }

  function Bit(b: bool, mask: bv32): bv32 {
    if b then mask else 0
  }

  /** The mask with bit f set exactly for the faces the ray exits through. */
  function ExitFaces(r: Ray, box: BBox): (m: bv32)
    ensures m & 0xFFFF_FFC0 == 0
    ensures m == 0 <==> !Exits(r, box, 0) && !Exits(r, box, 1) && !Exits(r, box, 2)
                        && !Exits(r, box, 3) && !Exits(r, box, 4) && !Exits(r, box, 5)
  {
    Bit(Exits(r, box, 0), 1) | Bit(Exits(r, box, 1), 2) | Bit(Exits(r, box, 2), 4)
    | Bit(Exits(r, box, 3), 8) | Bit(Exits(r, box, 4), 16) | Bit(Exits(r, box, 5), 32)
  }

  /** The exit-face mask and the ray moved to the exit point when some face is crossed;
      the ray is returned unchanged otherwise. */
  method IntersectRayBox(r: Ray, box: BBox) returns (face: bv32, r': Ray)
    ensures face == ExitFaces(r, box)
    ensures face != 0 ==> r' == r.(start := PointAt(r, ExitTime(r, box)))
    ensures face == 0 ==> r' == r
  {
    var d := r.dir;
    var s := r.start;
    var mint := NoExit;
    if d.x > 0.0 {
      var newt := (box.xmax - s.x) / d.x;
      if newt > 0.0 { mint := Min(mint, newt); }
    }
    assert mint == Improve(NoExit, FaceExit(r, box, 2));
    ghost var m2 := mint;
    if d.x < 0.0 {
      var newt := (box.xmin - s.x) / d.x;
      if newt > 0.0 { mint := Min(mint, newt); }
    }
    assert mint == Improve(m2, FaceExit(r, box, 4));
    ghost var m4 := mint;
    if d.y > 0.0 {
      var newt := (box.ymax - s.y) / d.y;
      if newt > 0.0 { mint := Min(mint, newt); }
    }
    assert mint == Improve(m4, FaceExit(r, box, 3));
    ghost var m3 := mint;
    if d.y < 0.0 {
      var newt := (box.ymin - s.y) / d.y;
      if newt > 0.0 { mint := Min(mint, newt); }
    }
    assert mint == Improve(m3, FaceExit(r, box, 1));
    ghost var m1 := mint;
    if d.z > 0.0 {
      var newt := (box.zmax - s.z) / d.z;
      if newt > 0.0 { mint := Min(mint, newt); }
    }
    assert mint == Improve(m1, FaceExit(r, box, 5));
    ghost var m5 := mint;
    if d.z < 0.0 {
      var newt := (box.zmin - s.z) / d.z;
      if newt > 0.0 { mint := Min(mint, newt); }
    }
    assert mint == Improve(m5, FaceExit(r, box, 0));
    assert mint == ExitTime(r, box);
    face := ExitFacesAt(r, box, mint);

    if face > 0 {
      r' := r.(start := Add(s, Scale(mint, d)));
    } else {
      r' := r;
    }
  }

  /** The second pass of the exit-face test: with the nearest crossing `mint` known, set
      the bit of every face crossed at it. */
  method ExitFacesAt(r: Ray, box: BBox, mint: real) returns (face: bv32)
    requires mint == ExitTime(r, box)
    ensures face == ExitFaces(r, box)
  {
    var d := r.dir;
    var s := r.start;
    face := 0;
    ghost var e0, e1, e2 := Exits(r, box, 0), Exits(r, box, 1), Exits(r, box, 2);
    ghost var e3, e4, e5 := Exits(r, box, 3), Exits(r, box, 4), Exits(r, box, 5);
    assert e0 <==> d.z < 0.0 && (box.zmin - s.z) / d.z > 0.0 && (box.zmin - s.z) / d.z <= mint;
    assert e1 <==> d.y < 0.0 && (box.ymin - s.y) / d.y > 0.0 && (box.ymin - s.y) / d.y <= mint;
    assert e2 <==> d.x > 0.0 && (box.xmax - s.x) / d.x > 0.0 && (box.xmax - s.x) / d.x <= mint;
    assert e3 <==> d.y > 0.0 && (box.ymax - s.y) / d.y > 0.0 && (box.ymax - s.y) / d.y <= mint;
    assert e4 <==> d.x < 0.0 && (box.xmin - s.x) / d.x > 0.0 && (box.xmin - s.x) / d.x <= mint;
    assert e5 <==> d.z > 0.0 && (box.zmax - s.z) / d.z > 0.0 && (box.zmax - s.z) / d.z <= mint;

    if d.x > 0.0 {
      var newt := (box.xmax - s.x) / d.x;
      if newt > 0.0 && newt <= mint { face := face | 4; }
    }
    if d.x < 0.0 {
      var newt := (box.xmin - s.x) / d.x;
      if newt > 0.0 && newt <= mint { face := face | 16; }
    }
    if d.y > 0.0 {
      var newt := (box.ymax - s.y) / d.y;
      if newt > 0.0 && newt <= mint { face := face | 8; }
    }
    if d.y < 0.0 {
      var newt := (box.ymin - s.y) / d.y;
      if newt > 0.0 && newt <= mint { face := face | 2; }
    }
    if d.z > 0.0 {
      var newt := (box.zmax - s.z) / d.z;
      if newt > 0.0 && newt <= mint { face := face | 32; }
    }
    if d.z < 0.0 {
      var newt := (box.zmin - s.z) / d.z;
      if newt > 0.0 && newt <= mint { face := face | 1; }
    }
    assert face == Bit(e2, 4) | Bit(e4, 16) | Bit(e3, 8) | Bit(e1, 2) | Bit(e5, 32) | Bit(e0, 1);
    assert face == ExitFaces(r, box);
  }

  /** Bit f of the mask is set exactly when the ray exits through face f. */
  lemma ExitFacesBits(r: Ray, box: BBox)
    ensures ExitFaces(r, box) & 0xFFFF_FFC0 == 0
    ensures (ExitFaces(r, box) & 1 != 0 <==> Exits(r, box, 0)) && (ExitFaces(r, box) & 2 != 0 <==> Exits(r, box, 1))
    ensures (ExitFaces(r, box) & 4 != 0 <==> Exits(r, box, 2)) && (ExitFaces(r, box) & 8 != 0 <==> Exits(r, box, 3))
    ensures (ExitFaces(r, box) & 16 != 0 <==> Exits(r, box, 4)) && (ExitFaces(r, box) & 32 != 0 <==> Exits(r, box, 5))
  {
  }

  /** The two faces of one axis are never both set: the direction points toward at most one. */
  lemma ExitFacesOneAxis(r: Ray, box: BBox)
    ensures ExitFaces(r, box) & 20 != 20
    ensures ExitFaces(r, box) & 10 != 10
    ensures ExitFaces(r, box) & 33 != 33
  {
    ExitFacesBits(r, box);
  }

  /** A set bit marks a face whose crossing is the nearest crossing ahead of the start. */
  lemma ExitFaceIsNearest(r: Ray, box: BBox, f: int, g: int)
    requires 0 <= f < 6 && 0 <= g < 6
    requires Exits(r, box, f) && Ahead(r, box, g)
    ensures FaceExit(r, box, f).value == ExitTime(r, box)
    ensures FaceExit(r, box, f).value <= FaceExit(r, box, g).value
  {
  }

  /** Some face is set exactly when a crossing lies ahead of the start no farther than the
      NoExit parameter; the ray then moves by that nearest parameter. */
  lemma ExitFacesNonEmpty(r: Ray, box: BBox)
    ensures ExitFaces(r, box) != 0 <==> exists f | 0 <= f < 6 :: Ahead(r, box, f) && FaceExit(r, box, f).value <= NoExit
  {
    ExitFacesBits(r, box);
    if exists f | 0 <= f < 6 :: Ahead(r, box, f) && FaceExit(r, box, f).value <= NoExit {
      var f :| 0 <= f < 6 && Ahead(r, box, f) && FaceExit(r, box, f).value <= NoExit;
      var m := ExitTime(r, box);
      if m != NoExit {
        var g :| 0 <= g < 6 && Ahead(r, box, g) && m == FaceExit(r, box, g).value;
        assert Exits(r, box, g);
      } else {
        assert Exits(r, box, f);
      }
    }
  }
}
