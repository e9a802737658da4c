/** The walk of a ray through the uniform grid: project the start onto the grid, find the
    start cell, then test the shapes listed in each cell and step to the neighbouring
    cell through the face the ray leaves by, until a shape is hit inside the current
    cell, no face is crossed, or the walk leaves the grid. */
module GridSearch {
  import opened Types
  import opened Utils
  import opened Intersections
  import opened RayBox
  import opened GridIndex

  /** The parameter every cell's scan starts from. */
  const SearchReset: real := 20000.0

  // ------------------------------------------------- projecting the start

  /** Coordinate a (0 x, 1 y, 2 z) of a vector. */
  function Coord(v: Vector, a: int): real
    requires 0 <= a < 3
  {
    if a == 0 then v.x else if a == 1 then v.y else v.z
  }

  function Lo(g: GridGeom, a: int): real
    requires 0 <= a < 3
  {
    if a == 0 then g.xmin else if a == 1 then g.ymin else g.zmin
  }

  function Hi(g: GridGeom, a: int): real
    requires 0 <= a < 3
  {
    if a == 0 then g.xmax else if a == 1 then g.ymax else g.zmax
  }

  /** v moved along d by t0, with coordinate a set to the plane it reaches, `bound`. */
  function Shift(v: Vector, d: Vector, a: int, t0: real, bound: real): (w: Vector)
    requires 0 <= a < 3
    ensures Coord(w, a) == bound
    ensures forall b | 0 <= b < 3 && b != a :: Coord(w, b) == Coord(v, b) + t0 * Coord(d, b)
  {
    if a == 0 then Vector(bound, v.y + t0 * d.y, v.z + t0 * d.z)
    else if a == 1 then Vector(v.x + t0 * d.x, bound, v.z + t0 * d.z)
    else Vector(v.x + t0 * d.x, v.y + t0 * d.y, bound)
  }

  /** One projection of the start: when it lies beyond the plane `bound` of axis a (below
      it for a lower plane, above it for an upper one), either the direction points back
      toward the grid and the start moves onto the plane, or the search gives up. */
  function ClipStep(o: Option<Vector>, d: Vector, a: int, lower: bool, bound: real): Option<Vector>
    requires 0 <= a < 3
  {
    if o.None? then None
    else
      var c, dc := Coord(o.value, a), Coord(d, a);
      if lower && c < bound then
        (if dc <= 0.0 then None else Some(Shift(o.value, d, a, -(c - bound) / dc, bound)))
      else if !lower && c > bound then
        (if dc >= 0.0 then None else Some(Shift(o.value, d, a, -(c - bound) / dc, bound)))
      else o
  }

  /** The start projected onto the grid, axis by axis in the order x, y, z, lower plane
      first; None when the ray starts outside and points away from (or grazes) the grid. */
  function ClipStart(g: GridGeom, s: Vector, d: Vector): (o: Option<Vector>)
    ensures (g.xmin <= s.x <= g.xmax && g.ymin <= s.y <= g.ymax && g.zmin <= s.z <= g.zmax) ==> o == Some(s)
    ensures o.Some? && g.zmin <= g.zmax ==> g.zmin <= o.value.z <= g.zmax
  {
    var ox := ClipStep(ClipStep(Some(s), d, 0, true, g.xmin), d, 0, false, g.xmax);
    var oy := ClipStep(ClipStep(ox, d, 1, true, g.ymin), d, 1, false, g.ymax);
    ClipStep(ClipStep(oy, d, 2, true, g.zmin), d, 2, false, g.zmax)
  }

  /** The grid's extent on every axis is non-empty. */
  predicate Ordered(g: GridGeom) {
    g.xmin <= g.xmax && g.ymin <= g.ymax && g.zmin <= g.zmax
  }

  lemma PositiveQuotient(x: real, y: real)
    requires x > 0.0 && y > 0.0
    ensures x / y > 0.0
  {
    ReciprocalPositive(y);
    assert x / y == x * (1.0 / y);
  }

  /** Moving by a non-negative multiple of d along a plane of another axis cannot lift
      coordinate b when d does not increase it, nor lower it when d does not decrease it. */
  lemma ShiftMonotone(v: Vector, d: Vector, a: int, t0: real, bound: real, b: int)
    requires 0 <= a < 3 && 0 <= b < 3 && a != b && t0 >= 0.0
    ensures Coord(d, b) <= 0.0 ==> Coord(Shift(v, d, a, t0, bound), b) <= Coord(v, b)
    ensures Coord(d, b) >= 0.0 ==> Coord(Shift(v, d, a, t0, bound), b) >= Coord(v, b)
  {
    if Coord(d, b) <= 0.0 {
      NonNegativeProduct(t0, -Coord(d, b));
      assert t0 * Coord(d, b) == -(t0 * -Coord(d, b));
    } else {
      NonNegativeProduct(t0, Coord(d, b));
    }
  }

  /** The parameter of a projection step that moves the start. */
  lemma StepParameter(c: real, dc: real, bound: real)
    requires (c < bound && dc > 0.0) || (c > bound && dc < 0.0)
    ensures -(c - bound) / dc > 0.0
  {
    if dc > 0.0 {
      PositiveQuotient(bound - c, dc);
    } else {
      PositiveQuotient(c - bound, -dc);
      assert -(c - bound) / dc == (c - bound) / -dc;
    }
  }

  /** Below the lower plane of axis b and not moving up on it: no projection step ever
      lifts the start, so it either stays below or the search gives up. */
  lemma StepKeepsBelow(o: Option<Vector>, d: Vector, a: int, lower: bool, bound: real, b: int, lo: real, hi: real)
    requires 0 <= a < 3 && 0 <= b < 3 && lo <= hi
    requires a == b ==> bound == (if lower then lo else hi)
    requires o.Some? ==> Coord(o.value, b) < lo
    requires Coord(d, b) <= 0.0
    ensures ClipStep(o, d, a, lower, bound).Some? ==> Coord(ClipStep(o, d, a, lower, bound).value, b) < lo
  {
    if o.Some? && a != b {
      var c, dc := Coord(o.value, a), Coord(d, a);
      if (lower && c < bound && dc > 0.0) || (!lower && c > bound && dc < 0.0) {
        StepParameter(c, dc, bound);
        ShiftMonotone(o.value, d, a, -(c - bound) / dc, bound, b);
      }
    }
  }

  /** The mirror image: above the upper plane of axis b and not moving down on it. */
  lemma StepKeepsAbove(o: Option<Vector>, d: Vector, a: int, lower: bool, bound: real, b: int, lo: real, hi: real)
    requires 0 <= a < 3 && 0 <= b < 3 && lo <= hi
    requires a == b ==> bound == (if lower then lo else hi)
    requires o.Some? ==> Coord(o.value, b) > hi
    requires Coord(d, b) >= 0.0
    ensures ClipStep(o, d, a, lower, bound).Some? ==> Coord(ClipStep(o, d, a, lower, bound).value, b) > hi
  {
    if o.Some? && a != b {
      var c, dc := Coord(o.value, a), Coord(d, a);
      if (lower && c < bound && dc > 0.0) || (!lower && c > bound && dc < 0.0) {
        StepParameter(c, dc, bound);
        ShiftMonotone(o.value, d, a, -(c - bound) / dc, bound, b);
      }
    }
  }

  /** A ray that starts beyond the grid on some axis and does not point back toward it on
      that axis is rejected before any cell is visited. */
  lemma ClipAwayFails(g: GridGeom, s: Vector, d: Vector, b: int)
    requires Ordered(g) && 0 <= b < 3
    requires (Coord(s, b) < Lo(g, b) && Coord(d, b) <= 0.0) || (Coord(s, b) > Hi(g, b) && Coord(d, b) >= 0.0)
    ensures ClipStart(g, s, d) == None
  {
    var lo, hi := Lo(g, b), Hi(g, b);
    var o1 := ClipStep(Some(s), d, 0, true, g.xmin);
    var o2 := ClipStep(o1, d, 0, false, g.xmax);
    var o3 := ClipStep(o2, d, 1, true, g.ymin);
    var o4 := ClipStep(o3, d, 1, false, g.ymax);
    var o5 := ClipStep(o4, d, 2, true, g.zmin);
    var o6 := ClipStep(o5, d, 2, false, g.zmax);
    if Coord(s, b) < lo {
      StepKeepsBelow(Some(s), d, 0, true, g.xmin, b, lo, hi);
      StepKeepsBelow(o1, d, 0, false, g.xmax, b, lo, hi);
      StepKeepsBelow(o2, d, 1, true, g.ymin, b, lo, hi);
      StepKeepsBelow(o3, d, 1, false, g.ymax, b, lo, hi);
      StepKeepsBelow(o4, d, 2, true, g.zmin, b, lo, hi);
      StepKeepsBelow(o5, d, 2, false, g.zmax, b, lo, hi);
      if b == 0 { assert o1 == None; } else if b == 1 { assert o3 == None; } else { assert o5 == None; }
    } else {
      StepKeepsAbove(Some(s), d, 0, true, g.xmin, b, lo, hi);
      StepKeepsAbove(o1, d, 0, false, g.xmax, b, lo, hi);
      StepKeepsAbove(o2, d, 1, true, g.ymin, b, lo, hi);
      StepKeepsAbove(o3, d, 1, false, g.ymax, b, lo, hi);
      StepKeepsAbove(o4, d, 2, true, g.zmin, b, lo, hi);
      StepKeepsAbove(o5, d, 2, false, g.zmax, b, lo, hi);
      if b == 0 { assert o2 == None; } else if b == 1 { assert o4 == None; } else { assert o6 == None; }
    }
  }

  /** A start inside the closed grid box is used as it is. */
  lemma ClipInside(g: GridGeom, s: Vector, d: Vector)
    requires g.xmin <= s.x <= g.xmax && g.ymin <= s.y <= g.ymax && g.zmin <= s.z <= g.zmax
    ensures ClipStart(g, s, d) == Some(s)
  {
  }

  /** The cell the walk starts in: each index is the scaled offset from the grid's lower
      corner, clamped to the grid and rounded down. */
  function StartCell(g: GridGeom, s: Vector): (c: (int, int, int))
    ensures Dims(g) ==> InGrid(g, c.0, c.1, c.2)
  {
    (IClamp((s.x - g.xmin) * g.invdx, 0, g.NI - 1),
     IClamp((s.y - g.ymin) * g.invdy, 0, g.NJ - 1),
     IClamp((s.z - g.zmin) * g.invdz, 0, g.NK - 1))
  }

  // ------------------------------------------------------ one cell's scan

  datatype CellResult = CellResult(t: real, cur: int)

  /** The scan of a cell's object list, given `hit(o, b)`, the outcome of testing object o
      against the ray under the bound b, and `inside(t)`, whether the ray's point at
      parameter t lies in the cell. The parameter starts at SearchReset; every hit lowers
      it, whether or not its point lies in the cell, and a hit inside the cell makes that
      object the current shape. */
  function Scan(hit: (int, real) -> Hit, inside: real -> bool, objs: seq<int>): (res: CellResult)
    ensures res.cur == -1 || res.cur in objs
  {
    if |objs| == 0 then CellResult(SearchReset, -1)
    else
      var prev := Scan(hit, inside, objs[..|objs| - 1]);
      var h := hit(objs[|objs| - 1], prev.t);
      if h.Hit? then CellResult(h.t, if inside(h.t) then objs[|objs| - 1] else prev.cur)
      else prev
  }

  /** A hit never lies beyond the bound it was asked for. */
  ghost predicate Shrinks(hit: (int, real) -> Hit) {
    forall o, b :: hit(o, b).Hit? ==> hit(o, b).t <= b
  }

  lemma ShrinksAt(hit: (int, real) -> Hit, o: int, b: real)
    requires Shrinks(hit)
    ensures hit(o, b).Hit? ==> hit(o, b).t <= b
  {
  }

  /** The parameter a scan leaves never exceeds the one it starts from. */
  lemma {:induction false} ScanBelowReset(hit: (int, real) -> Hit, inside: real -> bool, objs: seq<int>)
    requires Shrinks(hit)
    ensures Scan(hit, inside, objs).t <= SearchReset
    decreases |objs|
  {
    if |objs| > 0 {
      var prev := Scan(hit, inside, objs[..|objs| - 1]);
      ScanBelowReset(hit, inside, objs[..|objs| - 1]);
      var h := hit(objs[|objs| - 1], prev.t);
      ShrinksAt(hit, objs[|objs| - 1], prev.t);
    }
  }

  /** Object m of the list is hit, under the parameter left by the objects before it, at a
      point inside the cell. */
  predicate Accepted(hit: (int, real) -> Hit, inside: real -> bool, objs: seq<int>, m: int)
    requires 0 <= m < |objs|
  {
    var h := hit(objs[m], Scan(hit, inside, objs[..m]).t);
    h.Hit? && inside(h.t)
  }

  /** The position of the last accepted object among the first n, -1 when there is none. */
  function LastAccepted(hit: (int, real) -> Hit, inside: real -> bool, objs: seq<int>, n: int): (m: int)
    requires 0 <= n <= |objs|
    ensures -1 <= m < n
    ensures m == -1 <==> forall m' :: 0 <= m' < n ==> !Accepted(hit, inside, objs, m')
    ensures m != -1 ==> Accepted(hit, inside, objs, m)
    ensures forall m' :: m < m' < n ==> !Accepted(hit, inside, objs, m')
  {
    if n == 0 then -1
    else if Accepted(hit, inside, objs, n - 1) then n - 1
    else LastAccepted(hit, inside, objs, n - 1)
  }

  /** Whether an object is accepted depends only on the objects listed before it. */
  lemma AcceptedPrefix(hit: (int, real) -> Hit, inside: real -> bool, objs: seq<int>, n: int, m: int)
    requires 0 <= m < n <= |objs|
    ensures Accepted(hit, inside, objs, m) == Accepted(hit, inside, objs[..n], m)
  {
    assert objs[..n][..m] == objs[..m];
  }

  /** The last accepted object among the first n' objects is the same in a prefix of
      length n as in the whole list. */
  lemma {:induction false} LastAcceptedPrefix(hit: (int, real) -> Hit, inside: real -> bool, objs: seq<int>, n: int, n': int)
    requires 0 <= n' <= n <= |objs|
    ensures LastAccepted(hit, inside, objs[..n], n') == LastAccepted(hit, inside, objs, n')
    decreases n'
  {
    if n' > 0 {
      AcceptedPrefix(hit, inside, objs, n, n' - 1);
      LastAcceptedPrefix(hit, inside, objs, n, n' - 1);
    }
  }

  /** A cell reports the last accepted object of its list, and no shape when no listed
      object is accepted. */
  lemma {:induction false} ScanFound(hit: (int, real) -> Hit, inside: real -> bool, objs: seq<int>)
    ensures var m := LastAccepted(hit, inside, objs, |objs|);
            Scan(hit, inside, objs).cur == if m == -1 then -1 else objs[m]
    decreases |objs|
  {
    if |objs| > 0 {
      var n := |objs| - 1;
      ScanFound(hit, inside, objs[..n]);
      assert objs[..n][..n] == objs[..n];
      if !Accepted(hit, inside, objs, n) {
        LastAcceptedPrefix(hit, inside, objs, n, n);
      }
    }
  }

  /** The scan's two results can disagree: after an object has been accepted, a later
      one hit nearer but outside the cell lowers the parameter while the earlier object
      stays the reported one. */
  lemma StaleParameter(hit: (int, real) -> Hit, inside: real -> bool, pre: seq<int>, o: int)
    requires Scan(hit, inside, pre).cur != -1
    requires hit(o, Scan(hit, inside, pre).t).Hit? && !inside(hit(o, Scan(hit, inside, pre).t).t)
    ensures Scan(hit, inside, pre + [o]) == CellResult(hit(o, Scan(hit, inside, pre).t).t, Scan(hit, inside, pre).cur)
    ensures Scan(hit, inside, pre + [o]).cur in pre
  {
    assert (pre + [o])[..|pre|] == pre;
  }

  /** Testing object o of the scene against the ray (an index outside the scene is a
      miss, which a valid grid never produces). */
  function Probe(shapes: seq<Shape>, r: Ray): (hit: (int, real) -> Hit)
    ensures Shrinks(hit)
  {
    (o: int, b: real) => if 0 <= o < |shapes| then IntersectRayShape(r, shapes[o], b) else Miss
  }

  /** Whether the ray's point at parameter t lies in cell (i, j, k). */
  function InCell(g: GridGeom, r: Ray, i: int, j: int, k: int): real -> bool {
    (t: real) => IntersectPointGridCell(g, PointAt(r, t), i, j, k)
  }

  /** The scan of cell (i, j, k) of the grid, listing objs, with the ray r. */
  function CellScan(g: GridGeom, shapes: seq<Shape>, objs: seq<int>, r: Ray, i: int, j: int, k: int): (res: CellResult)
    ensures res.t <= SearchReset
    ensures res.cur == -1 || res.cur in objs
  {
    ScanBelowReset(Probe(shapes, r), InCell(g, r, i, j, k), objs);
    Scan(Probe(shapes, r), InCell(g, r, i, j, k), objs)
  }

  // ------------------------------------------------------------ the walk

  /** The grid's index is in the shape the walk reads: a box for every cell, one start
      per cell plus the end, non-decreasing and within the contents. */
  predicate Indexed(grid: Grid)
    reads grid, grid.boxStarts
  {
    Dims(grid.geom)
    && grid.boxStarts.Length == Cells(grid.geom) + 1
    && grid.bboxes.Length >= Cells(grid.geom)
    && Sorted(grid.boxStarts[..])
    && 0 <= grid.boxStarts[0] && grid.boxStarts[Cells(grid.geom)] <= grid.boxContents.Length
  }

  /** An index the walk can use on a scene of n shapes: every listed object is one of
      them. */
  predicate Valid(grid: Grid, n: int)
    reads grid, grid.boxStarts, grid.boxContents
  {
    Indexed(grid) && forall p :: 0 <= p < grid.boxContents.Length ==> 0 <= grid.boxContents[p] < n
  }

  /** The objects listed for cell c. */
  function CellObjects(grid: Grid, c: int): (objs: seq<int>)
    requires Indexed(grid) && 0 <= c < Cells(grid.geom)
    reads grid, grid.boxStarts, grid.boxContents
    ensures |objs| == grid.boxStarts[c + 1] - grid.boxStarts[c]
    ensures forall n :: 0 <= n < |objs| ==> objs[n] == grid.boxContents[grid.boxStarts[c] + n]
  {
    assert grid.boxStarts[c] <= grid.boxStarts[c + 1] <= grid.boxStarts[Cells(grid.geom)];
    grid.boxContents[grid.boxStarts[c]..grid.boxStarts[c + 1]]
  }

  /** The flat id the walk computes, i + NI j + NI NJ k, is the grid's cell id. */
  lemma CellIdOrder(g: GridGeom, i: int, j: int, k: int)
    ensures i + g.NI * j + g.NI * g.NJ * k == Id(g, i, j, k)
  {
    assert g.NI * j == j * g.NI;
    assert g.NI * g.NJ * k == k * g.NI * g.NJ;
  }

  /** The scan of cell (i, j, k): the parameter restarts from SearchReset and the
      objects the cell lists are tried in order. */
  method ScanCell(grid: Grid, shapes: seq<Shape>, r: Ray, i: int, j: int, k: int) returns (t: real, cur: int)
    requires Valid(grid, |shapes|) && InGrid(grid.geom, i, j, k)
    ensures CellResult(t, cur) == VisitScan(grid, shapes, r, (i, j, k))
  {
    IdRange(grid.geom, i, j, k);
    CellIdOrder(grid.geom, i, j, k);
    var cellID := i + grid.geom.NI * j + grid.geom.NI * grid.geom.NJ * k;
    ghost var objs := CellObjects(grid, cellID);
    ghost var hit, inside := Probe(shapes, r), InCell(grid.geom, r, i, j, k);
    t, cur := SearchReset, -1;
    var start, end := grid.boxStarts[cellID], grid.boxStarts[cellID + 1];
    var offset := start;
    while offset < end
      invariant start <= offset <= end
      invariant CellResult(t, cur) == Scan(hit, inside, objs[..offset - start])
    {
      var obj := grid.boxContents[offset];
      assert objs[..offset + 1 - start] == objs[..offset - start] + [obj];
      assert objs[..offset + 1 - start][..offset - start] == objs[..offset - start];
      var h := IntersectRayShape(r, shapes[obj], t);
      if h.Hit? {
        t := h.t;
        if IntersectPointGridCell(grid.geom, PointAt(r, t), i, j, k) {
          cur := obj;
        }
      }
      offset := offset + 1;
    }
    assert objs[..end - start] == objs;
  }

  /** Index c after the walk steps through the upper (up) or lower (down) face on its
      axis; both can be set only for a ray that leaves through a corner of two axes,
      never of the same one. */
  function Advance(c: int, up: bool, down: bool): int {
    c + (if up then 1 else 0) - (if down then 1 else 0)
  }

  /** The cell the walk moves to from c when the ray leaves c's box through the faces of
      the mask: bits 4 and 16 step i up and down, 8 and 2 step j, 32 and 1 step k. */
  function NextCell(face: bv32, c: (int, int, int)): (c': (int, int, int))
    ensures -1 <= c'.0 - c.0 <= 1 && -1 <= c'.1 - c.1 <= 1 && -1 <= c'.2 - c.2 <= 1
    ensures face & 63 == 0 ==> c' == c
  {
    (Advance(c.0, face & 4 != 0, face & 16 != 0),
     Advance(c.1, face & 8 != 0, face & 2 != 0),
     Advance(c.2, face & 32 != 0, face & 1 != 0))
  }

  /** On one axis, the index stays or moves by one the way the direction points. */
  predicate AxisStep(a: int, a': int, dc: real) {
    a' == a || (dc > 0.0 && a' == a + 1) || (dc < 0.0 && a' == a - 1)
  }

  /** c' is a different cell next to c (sharing a face, an edge or a corner) in the
      direction d. */
  predicate Adjacent(c: (int, int, int), c': (int, int, int), d: Vector) {
    c != c' && AxisStep(c.0, c'.0, d.x) && AxisStep(c.1, c'.1, d.y) && AxisStep(c.2, c'.2, d.z)
  }

  /** Every cell of path lies in the grid and each is adjacent to the one before in the
      direction d. */
  predicate Route(g: GridGeom, path: seq<(int, int, int)>, d: Vector) {
    (forall n :: 0 <= n < |path| ==> InGrid(g, path[n].0, path[n].1, path[n].2))
    && forall n :: 0 <= n < |path| - 1 ==> Adjacent(path[n], path[n + 1], d)
  }

  lemma RouteSnoc(g: GridGeom, path: seq<(int, int, int)>, c: (int, int, int), d: Vector)
    requires Route(g, path, d) && |path| > 0 && InGrid(g, c.0, c.1, c.2) && Adjacent(path[|path| - 1], c, d)
    ensures Route(g, path + [c], d)
  {
  }

  /** How many more cells the walk can cross on one axis of n cells from index x. */
  function Room(x: int, n: int, dc: real): int {
    if dc > 0.0 then n - x else if dc < 0.0 then x + 1 else 0
  }

  /** The cells still ahead of c in the direction d, summed over the axes. */
  function Potential(g: GridGeom, c: (int, int, int), d: Vector): int {
    Room(c.0, g.NI, d.x) + Room(c.1, g.NJ, d.y) + Room(c.2, g.NK, d.z)
  }

  /** A face in the exit mask lies ahead in the direction of the ray. */
  lemma ExitSigns(r: Ray, box: BBox)
    ensures ExitFaces(r, box) & 4 != 0 ==> r.dir.x > 0.0
    ensures ExitFaces(r, box) & 16 != 0 ==> r.dir.x < 0.0
    ensures ExitFaces(r, box) & 8 != 0 ==> r.dir.y > 0.0
    ensures ExitFaces(r, box) & 2 != 0 ==> r.dir.y < 0.0
    ensures ExitFaces(r, box) & 32 != 0 ==> r.dir.z > 0.0
    ensures ExitFaces(r, box) & 1 != 0 ==> r.dir.z < 0.0
  {
    ExitFacesBits(r, box);
    assert Exits(r, box, 2) ==> FaceExit(r, box, 2).Some?;
    assert Exits(r, box, 4) ==> FaceExit(r, box, 4).Some?;
    assert Exits(r, box, 3) ==> FaceExit(r, box, 3).Some?;
    assert Exits(r, box, 1) ==> FaceExit(r, box, 1).Some?;
    assert Exits(r, box, 5) ==> FaceExit(r, box, 5).Some?;
    assert Exits(r, box, 0) ==> FaceExit(r, box, 0).Some?;
  }

  /** A non-empty mask of six bits has one of them set. */
  lemma SomeFace(face: bv32)
    requires face & 0xFFFF_FFC0 == 0 && face != 0
    ensures face & 1 != 0 || face & 2 != 0 || face & 4 != 0 || face & 8 != 0 || face & 16 != 0 || face & 32 != 0
  {
  }

  /** Each step of the walk moves to an adjacent cell in the ray's direction and leaves
      fewer cells ahead. */
  lemma StepAhead(g: GridGeom, r: Ray, box: BBox, c: (int, int, int))
    requires ExitFaces(r, box) != 0 && InGrid(g, c.0, c.1, c.2)
    ensures Adjacent(c, NextCell(ExitFaces(r, box), c), r.dir)
    ensures 0 <= Potential(g, NextCell(ExitFaces(r, box), c), r.dir) < Potential(g, c, r.dir)
  {
    var face := ExitFaces(r, box);
    ExitSigns(r, box);
    ExitFacesBits(r, box);
    SomeFace(face);
  }

  /** The search of the grid for the first shape the ray hits. The start is projected
      onto the grid; if that fails, nothing is written and the caller's t0 and cur0 are
      returned. Otherwise the walk visits the cells of `path`, starting in the start
      cell and stepping to an adjacent cell in the ray's direction, and stops at the first
      cell whose scan reports a shape, or after the last cell, when the ray leaves its box
      through no face or leaves the grid. The parameter returned is the last cell's scan
      parameter, not t0. */
  method Search(grid: Grid, shapes: seq<Shape>, r: Ray, t0: real, cur0: int)
    returns (found: bool, t: real, cur: int, ghost path: seq<(int, int, int)>, ghost rays: seq<Ray>)
    requires Valid(grid, |shapes|)
    ensures ClipStart(grid.geom, r.start, r.dir).None? ==> !found && t == t0 && cur == cur0 && path == []
    ensures ClipStart(grid.geom, r.start, r.dir).Some? ==>
              |path| > 0 && path[0] == StartCell(grid.geom, ClipStart(grid.geom, r.start, r.dir).value)
              && Trail(grid, path, rays, r.(start := ClipStart(grid.geom, r.start, r.dir).value))
              && (!found ==> WalkEnds(grid, path[|path| - 1], rays[|rays| - 1]))
    ensures Route(grid.geom, path, r.dir)
    ensures forall n :: 0 <= n < |path| - 1 ==> VisitScan(grid, shapes, r, path[n]).cur == -1
    ensures |path| > 0 ==> CellResult(t, cur) == VisitScan(grid, shapes, r, path[|path| - 1])
    ensures found <==> |path| > 0 && cur != -1
  {
    var clipped := ClipStart(grid.geom, r.start, r.dir);
    if clipped.None? {
      return false, t0, cur0, [], [];
    }
    found, t, cur, path, rays := Walk(grid, shapes, r, clipped.value);
    MissedBefore(grid, shapes, r, path);
  }

  /** The ray moved to the point where it leaves the box of cell c. */
  function Moved(grid: Grid, ray: Ray, c: (int, int, int)): Ray
    requires Indexed(grid) && InGrid(grid.geom, c.0, c.1, c.2)
    reads grid, grid.boxStarts, grid.bboxes
  {
    ray.(start := PointAt(ray, ExitTime(ray, CellBox(grid, c))))
  }

  /** Step n of the walk: rays[n] crosses a face of cell path[n], the next ray starts at its
      exit point, and the next cell is the one beyond the faces it crosses. */
  ghost predicate TrailStep(grid: Grid, path: seq<(int, int, int)>, rays: seq<Ray>, n: int)
    requires Indexed(grid) && 0 <= n < |path| - 1 && |rays| == |path|
    reads grid, grid.boxStarts, grid.bboxes
  {
    InGrid(grid.geom, path[n].0, path[n].1, path[n].2)
    && ExitFaces(rays[n], CellBox(grid, path[n])) != 0
    && rays[n + 1] == Moved(grid, rays[n], path[n])
    && path[n + 1] == NextCell(ExitFaces(rays[n], CellBox(grid, path[n])), path[n])
  }

  /** The cells of path are the ones the walk from ray0 visits: one ray per cell, the first
      ray0, each next cell and ray given by the faces the ray before leaves through. */
  ghost predicate Trail(grid: Grid, path: seq<(int, int, int)>, rays: seq<Ray>, ray0: Ray)
    requires Indexed(grid)
    reads grid, grid.boxStarts, grid.bboxes
  {
    |rays| == |path| && |path| > 0 && rays[0] == ray0
    && forall n :: 0 <= n < |path| - 1 ==> TrailStep(grid, path, rays, n)
  }

  /** The walk stops in cell c without a hit: the ray leaves c's box through no face, or
      the cell beyond the faces lies outside the grid. */
  ghost predicate WalkEnds(grid: Grid, c: (int, int, int), ray: Ray)
    requires Indexed(grid)
    reads grid, grid.boxStarts, grid.bboxes
  {
    InGrid(grid.geom, c.0, c.1, c.2)
    && (ExitFaces(ray, CellBox(grid, c)) == 0
        || var c' := NextCell(ExitFaces(ray, CellBox(grid, c)), c); !InGrid(grid.geom, c'.0, c'.1, c'.2))
  }

  lemma TrailSnoc(grid: Grid, path: seq<(int, int, int)>, rays: seq<Ray>, ray0: Ray, c: (int, int, int), ray: Ray)
    requires Indexed(grid) && Trail(grid, path, rays, ray0)
    requires InGrid(grid.geom, path[|path| - 1].0, path[|path| - 1].1, path[|path| - 1].2)
    requires ExitFaces(rays[|rays| - 1], CellBox(grid, path[|path| - 1])) != 0
    requires ray == Moved(grid, rays[|rays| - 1], path[|path| - 1])
    requires c == NextCell(ExitFaces(rays[|rays| - 1], CellBox(grid, path[|path| - 1])), path[|path| - 1])
    ensures Trail(grid, path + [c], rays + [ray], ray0)
  {
    var path', rays' := path + [c], rays + [ray];
    forall n | 0 <= n < |path'| - 1
      ensures TrailStep(grid, path', rays', n)
    {
      if n < |path| - 1 {
        assert TrailStep(grid, path, rays, n);
      }
    }
  }

  /** No cell of the sequence reports a shape. */
  ghost predicate Missed(grid: Grid, shapes: seq<Shape>, r: Ray, cells: seq<(int, int, int)>)
    requires Indexed(grid)
    reads grid, grid.boxStarts, grid.boxContents
    decreases |cells|
  {
    |cells| == 0
    || (Missed(grid, shapes, r, cells[..|cells| - 1]) && VisitScan(grid, shapes, r, cells[|cells| - 1]).cur == -1)
  }

  lemma MissedSnoc(grid: Grid, shapes: seq<Shape>, r: Ray, cells: seq<(int, int, int)>, c: (int, int, int))
    requires Indexed(grid) && Missed(grid, shapes, r, cells) && VisitScan(grid, shapes, r, c).cur == -1
    ensures Missed(grid, shapes, r, cells + [c])
  {
    assert (cells + [c])[..|cells|] == cells;
  }

  lemma {:induction false} MissedAll(grid: Grid, shapes: seq<Shape>, r: Ray, cells: seq<(int, int, int)>)
    requires Indexed(grid) && Missed(grid, shapes, r, cells)
    ensures forall n :: 0 <= n < |cells| ==> VisitScan(grid, shapes, r, cells[n]).cur == -1
    decreases |cells|
  {
    if |cells| > 0 {
      MissedAll(grid, shapes, r, cells[..|cells| - 1]);
      assert forall n :: 0 <= n < |cells| - 1 ==> cells[..|cells| - 1][n] == cells[n];
    }
  }

  /** Every cell of a path before its last is missed when the path without it is. */
  lemma MissedBefore(grid: Grid, shapes: seq<Shape>, r: Ray, path: seq<(int, int, int)>)
    requires Indexed(grid) && |path| > 0 && Missed(grid, shapes, r, path[..|path| - 1])
    ensures forall n :: 0 <= n < |path| - 1 ==> VisitScan(grid, shapes, r, path[n]).cur == -1
  {
    MissedAll(grid, shapes, r, path[..|path| - 1]);
    forall n | 0 <= n < |path| - 1
      ensures VisitScan(grid, shapes, r, path[n]).cur == -1
    {
      assert path[..|path| - 1][n] == path[n];
    }
  }

  /** The walk from the projected start s. */
  method Walk(grid: Grid, shapes: seq<Shape>, r: Ray, s: Vector)
    returns (found: bool, t: real, cur: int, ghost path: seq<(int, int, int)>, ghost rays: seq<Ray>)
    requires Valid(grid, |shapes|)
    ensures |path| > 0 && path[0] == StartCell(grid.geom, s)
    ensures Route(grid.geom, path, r.dir)
    ensures Trail(grid, path, rays, r.(start := s))
    ensures Missed(grid, shapes, r, path[..|path| - 1])
    ensures CellResult(t, cur) == VisitScan(grid, shapes, r, path[|path| - 1])
    ensures found <==> cur != -1
    ensures !found ==> WalkEnds(grid, path[|path| - 1], rays[|rays| - 1])
  {
    var start := StartCell(grid.geom, s);
    var cell := start;
    var newr := r.(start := s);
    ghost var seen: seq<(int, int, int)> := [];
    path, rays := [start], [newr];
    while true
      invariant WalkInv(grid, shapes, r, r.(start := s), seen, path, rays, cell, newr) && path[0] == start
      decreases Potential(grid.geom, cell, r.dir)
    {
      var stop;
      ghost var path', rays';
      stop, found, t, cur, cell, newr, path', rays' := WalkStep(grid, shapes, r, r.(start := s), seen, path, rays, cell, newr);
      if stop {
        assert path[..|path| - 1] == seen;
        return;
      }
      seen, path, rays := path, path', rays';
    }
  }

  /** The state of the walk in cell c with ray: path is the cells seen so far followed by c,
      each adjacent to the one before, the rays follow the trail from ray0 and end with
      ray, and every cell before c is missed. */
  ghost predicate WalkInv(grid: Grid, shapes: seq<Shape>, r: Ray, ray0: Ray, seen: seq<(int, int, int)>,
                          path: seq<(int, int, int)>, rays: seq<Ray>, c: (int, int, int), ray: Ray)
    reads grid, grid.boxStarts, grid.boxContents, grid.bboxes
  {
    Indexed(grid) && InGrid(grid.geom, c.0, c.1, c.2) && ray.dir == r.dir
    && path == seen + [c] && Route(grid.geom, path, r.dir)
    && Trail(grid, path, rays, ray0) && rays[|rays| - 1] == ray
    && Missed(grid, shapes, r, seen)
  }

  /** One pass of the walk's loop: scan cell c; stop on a shape, or when the ray leaves the
      cell through no face or into a cell outside the grid; otherwise move to the next cell,
      with fewer cells ahead. */
  method WalkStep(grid: Grid, shapes: seq<Shape>, r: Ray, ghost ray0: Ray, ghost seen: seq<(int, int, int)>,
                  ghost path: seq<(int, int, int)>, ghost rays: seq<Ray>, c: (int, int, int), ray: Ray)
    returns (stop: bool, found: bool, t: real, cur: int, c': (int, int, int), ray': Ray,
             ghost path': seq<(int, int, int)>, ghost rays': seq<Ray>)
    requires Valid(grid, |shapes|) && WalkInv(grid, shapes, r, ray0, seen, path, rays, c, ray)
    ensures stop ==> CellResult(t, cur) == VisitScan(grid, shapes, r, c) && (found <==> cur != -1)
    ensures stop && !found ==> WalkEnds(grid, c, ray)
    ensures !stop ==> path' == path + [c'] && rays' == rays + [ray']
    ensures !stop ==> WalkInv(grid, shapes, r, ray0, path, path', rays', c', ray')
    ensures !stop ==> 0 <= Potential(grid.geom, c', r.dir) < Potential(grid.geom, c, r.dir)
  {
    t, cur := ScanCell(grid, shapes, r, c.0, c.1, c.2);
    if cur != -1 {
      return true, true, t, cur, c, ray, path, rays;
    }
    var face, i', j', k';
    face, ray', i', j', k' := CrossCell(grid, ray, c.0, c.1, c.2);
    c' := (i', j', k');
    if face == 0 || !InGrid(grid.geom, i', j', k') {
      return true, false, t, cur, c', ray', path, rays;
    }
    WalkExtend(grid, shapes, r, ray0, seen, path, rays, face, c', ray');
    stop, found := false, false;
    path', rays' := path + [c'], rays + [ray'];
  }

  /** One more step of the walk keeps its invariants: the cell just scanned is missed, the
      next cell is adjacent and inside the grid, and it and its ray follow the trail. */
  lemma WalkExtend(grid: Grid, shapes: seq<Shape>, r: Ray, ray0: Ray, seen: seq<(int, int, int)>,
                   path: seq<(int, int, int)>, rays: seq<Ray>, face: bv32, c: (int, int, int), ray: Ray)
    requires Indexed(grid) && |path| > 0 && path == seen + [path[|path| - 1]]
    requires InGrid(grid.geom, path[|path| - 1].0, path[|path| - 1].1, path[|path| - 1].2)
    requires InGrid(grid.geom, c.0, c.1, c.2)
    requires Route(grid.geom, path, r.dir) && Trail(grid, path, rays, ray0) && Missed(grid, shapes, r, seen)
    requires VisitScan(grid, shapes, r, path[|path| - 1]).cur == -1
    requires face == ExitFaces(rays[|rays| - 1], CellBox(grid, path[|path| - 1])) && face != 0
    requires ray == rays[|rays| - 1].(start := PointAt(rays[|rays| - 1], ExitTime(rays[|rays| - 1], CellBox(grid, path[|path| - 1]))))
    requires c == NextCell(face, path[|path| - 1]) && Adjacent(path[|path| - 1], c, r.dir)
    ensures Route(grid.geom, path + [c], r.dir)
    ensures Trail(grid, path + [c], rays + [ray], ray0)
    ensures Missed(grid, shapes, r, path)
  {
    MissedSnoc(grid, shapes, r, seen, path[|path| - 1]);
    RouteSnoc(grid.geom, path, c, r.dir);
    TrailSnoc(grid, path, rays, ray0, c, ray);
  }

  /** The ray leaves the box of cell (i, j, k): the faces it crosses, the ray moved to
      the exit point, and the cell beyond those faces, adjacent and with fewer cells ahead
      whenever some face is crossed. */
  method CrossCell(grid: Grid, r: Ray, i: int, j: int, k: int) returns (face: bv32, r': Ray, i': int, j': int, k': int)
    requires Indexed(grid) && InGrid(grid.geom, i, j, k)
    ensures face == ExitFaces(r, CellBox(grid, (i, j, k)))
    ensures face != 0 ==> r' == r.(start := PointAt(r, ExitTime(r, CellBox(grid, (i, j, k)))))
    ensures face == 0 ==> r' == r
    ensures (i', j', k') == NextCell(face, (i, j, k))
    ensures face != 0 ==> Adjacent((i, j, k), (i', j', k'), r.dir)
    ensures face != 0 ==> 0 <= Potential(grid.geom, (i', j', k'), r.dir) < Potential(grid.geom, (i, j, k), r.dir)
  {
    var g := grid.geom;
    IdRange(g, i, j, k);
    CellIdOrder(g, i, j, k);
    var cellID := i + g.NI * j + g.NI * g.NJ * k;
    face, r' := IntersectRayBox(r, grid.bboxes[cellID]);
    i', j', k' := StepCell(face, i, j, k);
    if face != 0 {
      StepAhead(g, r, grid.bboxes[cellID], (i, j, k));
    }
  }

  /** The box of cell c. */
  function CellBox(grid: Grid, c: (int, int, int)): BBox
    requires Indexed(grid) && InGrid(grid.geom, c.0, c.1, c.2)
    reads grid, grid.boxStarts, grid.bboxes
  {
    IdRange(grid.geom, c.0, c.1, c.2);
    grid.bboxes[Id(grid.geom, c.0, c.1, c.2)]
  }

  /** The cell indices after crossing the faces of the mask. */
  method StepCell(face: bv32, i: int, j: int, k: int) returns (i': int, j': int, k': int)
    ensures (i', j', k') == NextCell(face, (i, j, k))
  {
    i', j', k' := i, j, k;
    if face & 1 != 0 { k' := k' - 1; }
    if face & 2 != 0 { j' := j' - 1; }
    if face & 4 != 0 { i' := i' + 1; }
    if face & 8 != 0 { j' := j' + 1; }
    if face & 16 != 0 { i' := i' - 1; }
    if face & 32 != 0 { k' := k' + 1; }
  }

  /** The scan of cell c of the grid. */
  function VisitScan(grid: Grid, shapes: seq<Shape>, r: Ray, c: (int, int, int)): (res: CellResult)
    requires Indexed(grid)
    reads grid, grid.boxStarts, grid.boxContents
    ensures res.t <= SearchReset
  {
    if InGrid(grid.geom, c.0, c.1, c.2) then
      IdRange(grid.geom, c.0, c.1, c.2);
      CellScan(grid.geom, shapes, CellObjects(grid, Id(grid.geom, c.0, c.1, c.2)), r, c.0, c.1, c.2)
    else CellResult(SearchReset, -1)
  }
}
