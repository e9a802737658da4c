/** One step of the bouncing-sphere animation: a collision pass that sets every sphere's
    next velocity and force from the shapes listed in the grid cells its box covers, and an
    Euler-forward update that moves the spheres. */
module SphereDynamics {
  import opened Types
  import opened Utils
  import opened GridIndex
  import opened GridSearch
  import opened Projections
  import opened Shapes

  const NoCollision: real := 1000000000.0   // mindist's starting value, 1e9
  const SphereBounce: real := 1.0           // bounce factor between spheres
  const WallBounce: real := 1.8             // bounce factor off other shapes: sticky at 1, elastic at 2

  // ------------------------------------------------------- what the pass reads

  /** A shape as the collision pass sees it: a sphere's pending velocity and force are
      never read, so they are blanked; every other shape is kept whole. */
  function Frozen(s: Shape): (f: Shape)
    ensures f.id == s.id && f.bbox == s.bbox && f.material == s.material
    ensures s.geom.SphereShape? <==> f.geom.SphereShape?
    ensures !s.geom.SphereShape? ==> f == s
    ensures s.geom.SphereShape? ==>
              var a, b := s.geom.sphere, f.geom.sphere;
              b.pos == a.pos && b.radius == a.radius && b.velocity == a.velocity
  {
    match s.geom
    case SphereShape(sp) => s.(geom := SphereShape(sp.(newVelocity := Zero, force := Zero)))
    case _ => s
  }

  function FrozenAll(shapes: seq<Shape>): (f: seq<Shape>)
    ensures |f| == |shapes| && forall n :: 0 <= n < |shapes| ==> f[n] == Frozen(shapes[n])
  {
    seq(|shapes|, n requires 0 <= n < |shapes| => Frozen(shapes[n]))
  }

  /** Every shape can be projected on (the pass projects sphere centres on the others). */
  predicate Collidable(shapes: seq<Shape>) {
    forall n :: 0 <= n < |shapes| ==> Projectable(shapes[n])
  }

  /** Every sphere's box of cell indices lies inside the grid, as populating the grid leaves it. */
  predicate Boxed(g: GridGeom, shapes: seq<Shape>) {
    forall n :: 0 <= n < |shapes| && shapes[n].geom.SphereShape? ==> Clamped(g, shapes[n].bbox)
  }

  // ------------------------------------------------------------- sphere pairs

  /** Two spheres collide when their centres are closer than the sum of their radii. */
  predicate Touching(a: Sphere, b: Sphere) {
    Norm(Sub(b.pos, a.pos)) < a.radius + b.radius
  }

  /** The component of v along dX, divided by |dX|^2 + eps (dist is |dX|). */
  function Approach(v: Vector, dX: Vector, dist: real): (r: real)
    requires dist >= 0.0
    ensures Dot(v, dX) > 0.0 ==> r > 0.0
    ensures Dot(v, dX) < 0.0 ==> r < 0.0
  {
    NonNegativeProduct(dist, dist);
    Dot(v, dX) / (dist * dist + Eps)
  }

  /** The spheres move apart along the line of centres: a away from b and b away from a. */
  predicate Separating(a: Sphere, b: Sphere) {
    var dX := Sub(b.pos, a.pos);
    var dist := Norm(dX);
    Approach(a.velocity, dX, dist) < 0.0 && Approach(b.velocity, dX, dist) > 0.0
  }

  /** The difference of b's and a's approach rates along the line of centres from a. */
  function Closing(a: Sphere, b: Sphere): real {
    var dX := Sub(b.pos, a.pos);
    var dist := Norm(dX);
    Approach(b.velocity, dX, dist) - Approach(a.velocity, dX, dist)
  }

  /** The velocity change a receives from b: SphereBounce times the closing rate, times
      the line of centres. */
  function Impulse(a: Sphere, b: Sphere): Vector {
    Scale(SphereBounce * Closing(a, b), Sub(b.pos, a.pos))
  }

  /** Reversing a vector negates its component along v. */
  lemma DotReversed(v: Vector, p: Vector, q: Vector)
    ensures Dot(v, Sub(p, q)) == -Dot(v, Sub(q, p))
  {
  }

  /** Rates along opposite directions of the same length are opposite. */
  lemma ApproachOpposite(v: Vector, d: Vector, e: Vector, n: real)
    requires n >= 0.0 && Dot(v, d) == -Dot(v, e)
    ensures Approach(v, d, n) == -Approach(v, e, n)
  {
    NonNegativeProduct(n, n);
    NegatedQuotient(Dot(v, e), n * n + Eps);
  }

  lemma NegatedQuotient(a: real, w: real)
    requires w > 0.0
    ensures (-a) / w == -(a / w)
  {
  }

  /** Swapping the two spheres reverses dX and keeps its length, so every approach rate
      along it changes sign. */
  lemma ReverseApproach(v: Vector, p: Vector, q: Vector)
    ensures Norm(Sub(p, q)) == Norm(Sub(q, p))
    ensures Approach(v, Sub(p, q), Norm(Sub(p, q))) == -Approach(v, Sub(q, p), Norm(Sub(q, p)))
  {
    DistanceSymmetric(p, q);
    DotReversed(v, p, q);
    ApproachOpposite(v, Sub(p, q), Sub(q, p), Norm(Sub(p, q)));
  }

  /** Collisions between spheres are symmetric: a touches b exactly when b touches a, they
      separate exactly when b and a do, and the impulses they receive from each other are
      equal and opposite, so a colliding pair conserves momentum for equal masses. */
  lemma PairSymmetric(a: Sphere, b: Sphere)
    ensures Touching(a, b) <==> Touching(b, a)
    ensures Separating(a, b) <==> Separating(b, a)
    ensures Add(Impulse(a, b), Impulse(b, a)) == Zero
  {
    DistanceSymmetric(a.pos, b.pos);
    SeparatingSymmetric(a, b);
    ImpulseOpposite(a, b);
  }

  lemma SeparatingSymmetric(a: Sphere, b: Sphere)
    ensures Separating(a, b) <==> Separating(b, a)
  {
    ReverseApproach(a.velocity, a.pos, b.pos);
    ReverseApproach(b.velocity, a.pos, b.pos);
  }

  lemma ImpulseOpposite(a: Sphere, b: Sphere)
    ensures Add(Impulse(a, b), Impulse(b, a)) == Zero
  {
    ClosingSymmetric(a, b);
    OppositeScaled(SphereBounce, Closing(a, b), Closing(b, a), b.pos, a.pos);
  }

  /** The closing rate is the same seen from either sphere. */
  lemma ClosingSymmetric(a: Sphere, b: Sphere)
    ensures Closing(a, b) == Closing(b, a)
  {
    ReverseApproach(a.velocity, a.pos, b.pos);
    ReverseApproach(b.velocity, a.pos, b.pos);
  }

  /** Equal multiples of opposite vectors cancel. */
  lemma OppositeScaled(c: real, u: real, w: real, p: Vector, q: Vector)
    requires u == w
    ensures Add(Scale(c * u, Sub(p, q)), Scale(c * w, Sub(q, p))) == Zero
  {
  }

  // ------------------------------------------------------------ gathering

  /** What the offset loop finds out about one candidate: that it is the sphere itself;
      that it is a sphere, and whether the two collide (touching and not separating); or
      that it is another shape, with the distance from the sphere's centre to it. */
  datatype Sight = Itself | Ball(contact: bool) | Solid(depth: real)

  /** The distance from the sphere's centre to its projection on shape other: the
      length from the centre to the closest point found, for a shape with a projection;
      the NoProjection marker for a sphere or an untagged shape. */
  function Depth(a: Sphere, other: Shape): (d: real)
    requires Projectable(other)
    ensures !other.geom.SphereShape? && !other.geom.Untagged? ==>
              d >= 0.0 && d == DistanceTo(a.pos, ProjectPointShape(a.pos, other, Zero).closest)
    ensures other.geom.SphereShape? || other.geom.Untagged? ==> d == NoProjection
  {
    ProjectPointShape(a.pos, other, Zero).dist
  }

  /** Candidate o as sphere s sees it; an index outside the scene, or a shape that cannot
      be projected on, is passed over like s itself (the pass's callers rule both out). */
  function Look(s: Shape, shapes: seq<Shape>, o: int): (sight: Sight)
    ensures sight.Ball? <==> s.geom.SphereShape? && 0 <= o < |shapes| && s.id != o && shapes[o].geom.SphereShape?
    ensures sight.Solid? <==> (s.geom.SphereShape? && 0 <= o < |shapes| && s.id != o
                               && !shapes[o].geom.SphereShape? && Projectable(shapes[o]))
    ensures sight.Solid? && !shapes[o].geom.Untagged? ==> sight.depth >= 0.0
  {
    if !s.geom.SphereShape? || !(0 <= o < |shapes|) || s.id == o then Itself
    else match shapes[o].geom
      case SphereShape(b) => Ball(Touching(s.geom.sphere, b) && !Separating(s.geom.sphere, b))
      case _ => if Projectable(shapes[o]) then Solid(Depth(s.geom.sphere, shapes[o])) else Itself
  }

  function Sighting(s: Shape, shapes: seq<Shape>): int -> Sight {
    o => Look(s, shapes, o)
  }

  /** Shape o is a sphere that s collides with: not s, touching it and not separating. */
  predicate SphereContact(s: Shape, shapes: seq<Shape>, o: int)
    requires s.geom.SphereShape? && 0 <= o < |shapes|
  {
    s.id != o && shapes[o].geom.SphereShape?
    && Touching(s.geom.sphere, shapes[o].geom.sphere) && !Separating(s.geom.sphere, shapes[o].geom.sphere)
  }

  /** Shape o is a non-sphere other than s whose projection lies within s's radius (and
      below the starting minimum). */
  predicate Penetrates(s: Shape, shapes: seq<Shape>, o: int)
    requires s.geom.SphereShape? && 0 <= o < |shapes| && Projectable(shapes[o])
  {
    s.id != o && !shapes[o].geom.SphereShape?
    && Depth(s.geom.sphere, shapes[o]) < s.geom.sphere.radius && Depth(s.geom.sphere, shapes[o]) < NoCollision
  }

  /** A sight the pass records as a sphere to collide with. */
  predicate Colliding(sight: Sight) {
    sight == Ball(true)
  }

  /** A sight the pass can choose as the nearest shape: closer than the radius and than the
      starting minimum. */
  predicate Nearby(radius: real, sight: Sight) {
    sight.Solid? && sight.depth < radius && sight.depth < NoCollision
  }

  /** The sights name the shapes the collision predicates name: a candidate is seen as a
      colliding sphere exactly when it is a sphere contact of s, and as a nearby shape at
      distance d exactly when it penetrates s and its depth is d. */
  lemma LookMeaning(s: Shape, shapes: seq<Shape>, o: int)
    requires s.geom.SphereShape? && Collidable(shapes) && 0 <= o < |shapes|
    ensures Colliding(Sighting(s, shapes)(o)) <==> SphereContact(s, shapes, o)
    ensures Nearby(s.geom.sphere.radius, Sighting(s, shapes)(o)) <==> Penetrates(s, shapes, o)
    ensures Sighting(s, shapes)(o).Solid? ==> Sighting(s, shapes)(o).depth == Depth(s.geom.sphere, shapes[o])
  {
    assert Sighting(s, shapes)(o) == Look(s, shapes, o);
  }

  /** The pass's state while it walks the candidates: the spheres recorded for collision,
      the nearest non-sphere found so far (-1 for none) and its projected distance. */
  datatype Gather = Gather(ids: seq<int>, shapeId: int, mindist: real)

  const NoGather: Gather := Gather([], -1, NoCollision)

  predicate Distinct(ids: seq<int>) {
    forall p, q :: 0 <= p < q < |ids| ==> ids[p] != ids[q]
  }

  /** What the gathered state promises: at most MaxNcollisions distinct recorded spheres,
      each seen colliding; a chosen shape, if any, seen nearby at distance mindist. */
  predicate Consistent(radius: real, look: int -> Sight, st: Gather) {
    |st.ids| <= MaxNcollisions && Distinct(st.ids)
    && (forall p :: 0 <= p < |st.ids| ==> Colliding(look(st.ids[p])))
    && st.mindist <= NoCollision
    && (st.shapeId == -1 || (Nearby(radius, look(st.shapeId)) && st.mindist == look(st.shapeId).depth))
  }

  /** The body of the offset loop for candidate o with sight sight: s itself is skipped; a
      colliding sphere is recorded once while there is room; a non-sphere closer than the
      radius and than every earlier one becomes the nearest. */
  function Step(radius: real, st: Gather, o: int, sight: Sight): (r: Gather)
    ensures st.ids <= r.ids && |r.ids| <= |st.ids| + 1
    ensures |r.ids| == |st.ids| + 1 ==> r.ids[|st.ids|] == o && o !in st.ids && |r.ids| <= MaxNcollisions
    ensures r.mindist <= st.mindist
    ensures r.shapeId == st.shapeId || (r.shapeId == o && r.mindist < st.mindist && r.mindist < radius)
    ensures sight.Itself? ==> r == st
  {
    match sight
    case Itself => st
    case Ball(contact) =>
      if |st.ids| < MaxNcollisions && contact && o !in st.ids then st.(ids := st.ids + [o]) else st
    case Solid(dist) =>
      if dist < radius && dist < st.mindist then Gather(st.ids, o, dist) else st
  }

  /** The candidates visited in order. */
  function Scan(radius: real, look: int -> Sight, st: Gather, cands: seq<int>): (r: Gather)
    ensures st.ids <= r.ids && |r.ids| <= |st.ids| + |cands|
    ensures r.mindist <= st.mindist
    decreases |cands|
  {
    if cands == [] then st
    else
      var o := cands[|cands| - 1];
      Step(radius, Scan(radius, look, st, cands[..|cands| - 1]), o, look(o))
  }

  /** Every step keeps the state consistent. */
  lemma {:induction false} ScanConsistent(radius: real, look: int -> Sight, st: Gather, cands: seq<int>)
    requires Consistent(radius, look, st)
    ensures Consistent(radius, look, Scan(radius, look, st, cands))
    decreases |cands|
  {
    if cands != [] {
      var o := cands[|cands| - 1];
      var prev := Scan(radius, look, st, cands[..|cands| - 1]);
      ScanConsistent(radius, look, st, cands[..|cands| - 1]);
      var r := Step(radius, prev, o, look(o));
      if |r.ids| > |prev.ids| {
        assert r.ids == prev.ids + [o];
        assert forall p :: 0 <= p < |prev.ids| ==> r.ids[p] == prev.ids[p];
      }
    }
  }

  /** Everything the scan adds comes from the candidates: each newly recorded sphere, and
      the nearest shape when it changed. */
  lemma {:induction false} ScanFromCandidates(radius: real, look: int -> Sight, st: Gather, cands: seq<int>)
    ensures forall p :: |st.ids| <= p < |Scan(radius, look, st, cands).ids| ==> Scan(radius, look, st, cands).ids[p] in cands
    ensures Scan(radius, look, st, cands).shapeId == st.shapeId || Scan(radius, look, st, cands).shapeId in cands
    decreases |cands|
  {
    if cands != [] {
      var front := cands[..|cands| - 1];
      ScanFromCandidates(radius, look, st, front);
      assert forall x :: x in front ==> x in cands;
    }
  }

  lemma {:induction false} ScanAppend(radius: real, look: int -> Sight, st: Gather, xs: seq<int>, ys: seq<int>)
    ensures Scan(radius, look, st, xs + ys) == Scan(radius, look, Scan(radius, look, st, xs), ys)
    decreases |ys|
  {
    var zs := xs + ys;
    if ys != [] {
      var ys' := ys[..|ys| - 1];
      assert zs[..|zs| - 1] == xs + ys';
      ScanAppend(radius, look, st, xs, ys');
    } else {
      assert zs == xs;
    }
  }

  /** Candidates the sphere sees as itself leave the state as it was. */
  lemma {:induction false} ScanSelf(radius: real, look: int -> Sight, st: Gather, cands: seq<int>)
    requires forall q :: 0 <= q < |cands| ==> look(cands[q]) == Itself
    ensures Scan(radius, look, st, cands) == st
    decreases |cands|
  {
    if cands != [] {
      ScanSelf(radius, look, st, cands[..|cands| - 1]);
    }
  }

  /** The first position of x in xs, or |xs| when x does not occur. */
  function FirstIndex(xs: seq<int>, x: int): (p: int)
    ensures 0 <= p <= |xs|
    ensures p < |xs| <==> x in xs
    ensures p < |xs| ==> xs[p] == x
    ensures forall q :: 0 <= q < p ==> xs[q] != x
    decreases |xs|
  {
    if xs == [] then 0
    else if xs[0] == x then 0
    else 1 + FirstIndex(xs[1..], x)
  }

  /** x's first position in xs + [y] is its first position in xs when it occurs there. */
  lemma {:induction false} FirstIndexSnoc(xs: seq<int>, y: int, x: int)
    requires x in xs
    ensures FirstIndex(xs + [y], x) == FirstIndex(xs, x)
    decreases |xs|
  {
    if xs[0] != x {
      assert (xs + [y])[1..] == xs[1..] + [y];
      FirstIndexSnoc(xs[1..], y, x);
    }
  }

  /** Lines 83-86 choose the nearest non-sphere: from the start, no shape is chosen exactly
      when no candidate is nearby, and then mindist keeps its starting value (-1, the mark
      for none, is never a shape the sphere sees); otherwise the
      chosen shape is nearby, its distance is the least of all nearby candidates, and every
      nearby candidate before the chosen shape's first appearance is strictly farther (ties
      go to the first). */
  lemma {:induction false} ScanNearest(radius: real, look: int -> Sight, cands: seq<int>)
    requires look(-1) == Itself
    ensures var r := Scan(radius, look, NoGather, cands);
            (r.shapeId == -1 <==> forall q :: 0 <= q < |cands| ==> !Nearby(radius, look(cands[q])))
            && (r.shapeId == -1 ==> r.mindist == NoCollision)
    ensures var r := Scan(radius, look, NoGather, cands);
            r.shapeId != -1 ==>
              Nearby(radius, look(r.shapeId)) && r.mindist == look(r.shapeId).depth
              && (forall q :: 0 <= q < |cands| && Nearby(radius, look(cands[q])) ==>
                    r.mindist <= look(cands[q]).depth)
              && FirstIndex(cands, r.shapeId) < |cands|
              && (forall q :: 0 <= q < FirstIndex(cands, r.shapeId) && Nearby(radius, look(cands[q])) ==>
                    r.mindist < look(cands[q]).depth)
    decreases |cands|
  {
    if cands != [] {
      var init := cands[..|cands| - 1];
      var o := cands[|cands| - 1];
      assert cands == init + [o];
      ScanNearest(radius, look, init);
      var st := Scan(radius, look, NoGather, init);
      var r := Scan(radius, look, NoGather, cands);
      assert r == Step(radius, st, o, look(o));
      assert forall q :: 0 <= q < |init| ==> cands[q] == init[q];
      if r.shapeId != st.shapeId || r.mindist != st.mindist {
        // o is the new nearest: every earlier nearby candidate is at least st.mindist
        // away, farther than o, so o does not occur earlier
        assert r.shapeId == o && r.mindist < st.mindist && Nearby(radius, look(o));
        assert o !in init;
        assert FirstIndex(cands, o) == |init|;
      } else if st.shapeId != -1 {
        assert st.shapeId in init;
        FirstIndexSnoc(init, o, st.shapeId);
      }
    }
  }

  /** Lines 53-74 record sphere contacts: every recorded id is a candidate seen colliding,
      recorded once; and every candidate seen colliding is recorded unless the
      MaxNcollisions slots are full. */
  lemma {:induction false} ScanContacts(radius: real, look: int -> Sight, cands: seq<int>)
    ensures var r := Scan(radius, look, NoGather, cands);
            Consistent(radius, look, r) && forall p :: 0 <= p < |r.ids| ==> r.ids[p] in cands
    ensures var r := Scan(radius, look, NoGather, cands);
            forall q :: 0 <= q < |cands| && Colliding(look(cands[q])) ==>
              cands[q] in r.ids || |r.ids| == MaxNcollisions
    decreases |cands|
  {
    ScanConsistent(radius, look, NoGather, cands);
    if cands != [] {
      var init := cands[..|cands| - 1];
      var o := cands[|cands| - 1];
      ScanContacts(radius, look, init);
      var st := Scan(radius, look, NoGather, init);
      var r := Scan(radius, look, NoGather, cands);
      assert r == Step(radius, st, o, look(o));
      forall q | 0 <= q < |cands| && Colliding(look(cands[q]))
        ensures cands[q] in r.ids || |r.ids| == MaxNcollisions
      {
        if q < |init| {
          assert cands[q] == init[q];
          if cands[q] in st.ids {
            var p :| 0 <= p < |st.ids| && st.ids[p] == cands[q];
            assert r.ids[p] == cands[q];
          }
        }
      }
      forall p | 0 <= p < |r.ids|
        ensures r.ids[p] in cands
      {
        if p < |st.ids| {
          assert r.ids[p] == st.ids[p] && st.ids[p] in init;
        }
      }
    }
  }
  // ------------------------------------------------------------ candidates

  /** The objects listed for cell c of an index given by its cell starts and flat contents;
      none for a cell the index does not cover. */
  function Listed(starts: seq<int>, contents: seq<int>, c: int): seq<int> {
    if 0 <= c && c + 1 < |starts| && 0 <= starts[c] <= starts[c + 1] <= |contents|
    then contents[starts[c]..starts[c + 1]] else []
  }

  /** The objects listed for cell (i, j, k) of grid geometry g. */
  function Seen(g: GridGeom, starts: seq<int>, contents: seq<int>): (int, int, int) -> seq<int> {
    (i, j, k) => Listed(starts, contents, Id(g, i, j, k))
  }

  /** The objects listed for cells i0 .. iEnd - 1 of row (j, k), cell after cell. */
  function RowObjects(cellOf: (int, int, int) -> seq<int>, j: int, k: int, i0: int, iEnd: int): seq<int>
    decreases iEnd - i0
  {
    if iEnd <= i0 then []
    else RowObjects(cellOf, j, k, i0, iEnd - 1) + cellOf(iEnd - 1, j, k)
  }

  /** The objects listed for rows jmin .. jEnd - 1 of plane k of box b. */
  function PlaneObjects(cellOf: (int, int, int) -> seq<int>, b: BBox, k: int, jEnd: int): seq<int>
    decreases jEnd - b.jmin
  {
    if jEnd <= b.jmin then []
    else PlaneObjects(cellOf, b, k, jEnd - 1) + RowObjects(cellOf, jEnd - 1, k, b.imin, b.imax + 1)
  }

  /** The objects listed for planes kmin .. kEnd - 1 of box b. */
  function BlockObjects(cellOf: (int, int, int) -> seq<int>, b: BBox, kEnd: int): seq<int>
    decreases kEnd - b.kmin
  {
    if kEnd <= b.kmin then []
    else BlockObjects(cellOf, b, kEnd - 1) + PlaneObjects(cellOf, b, kEnd - 1, b.jmax + 1)
  }

  /** Every object listed in the cells of box b of the grid's index, k outermost and i
      innermost, repeats kept. */
  function Candidates(grid: Grid, b: BBox): seq<int>
    reads grid, grid.boxStarts, grid.boxContents
  {
    BlockObjects(Seen(grid.geom, grid.boxStarts[..], grid.boxContents[..]), b, b.kmax + 1)
  }

  // ------------------------------------------------------------- responses

  /** A consistent state gathered for sphere s names what the collision predicates name:
      every recorded id is a sphere contact of s, and a chosen shape penetrates s at
      distance mindist. */
  lemma ConsistentMeaning(s: Shape, shapes: seq<Shape>, st: Gather)
    requires s.geom.SphereShape? && Collidable(shapes)
    requires Consistent(s.geom.sphere.radius, Sighting(s, shapes), st)
    ensures forall p :: 0 <= p < |st.ids| ==> 0 <= st.ids[p] < |shapes| && SphereContact(s, shapes, st.ids[p])
    ensures st.shapeId != -1 ==>
              0 <= st.shapeId < |shapes| && Penetrates(s, shapes, st.shapeId)
              && st.mindist == Depth(s.geom.sphere, shapes[st.shapeId])
  {
    forall p | 0 <= p < |st.ids|
      ensures 0 <= st.ids[p] < |shapes| && SphereContact(s, shapes, st.ids[p])
    {
      assert Colliding(Sighting(s, shapes)(st.ids[p]));
      assert Sighting(s, shapes)(st.ids[p]) == Look(s, shapes, st.ids[p]);
      LookMeaning(s, shapes, st.ids[p]);
    }
    if st.shapeId != -1 {
      assert Sighting(s, shapes)(st.shapeId) == Look(s, shapes, st.shapeId);
      LookMeaning(s, shapes, st.shapeId);
    }
  }

  /** The velocity after the recorded spheres' impulses, applied in order; the test of
      line 107 is repeated, so a pair that separates adds nothing. */
  function Kicks(a: Sphere, shapes: seq<Shape>, ids: seq<int>, v: Vector): (w: Vector)
    requires forall p :: 0 <= p < |ids| ==> 0 <= ids[p] < |shapes| && shapes[ids[p]].geom.SphereShape?
    ensures (forall p :: 0 <= p < |ids| ==> Separating(a, shapes[ids[p]].geom.sphere)) ==> w == v
    decreases |ids|
  {
    if ids == [] then v
    else
      var prev := Kicks(a, shapes, ids[..|ids| - 1], v);
      var b := shapes[ids[|ids| - 1]].geom.sphere;
      if Separating(a, b) then prev else Add(prev, Impulse(a, b))
  }

  /** The sum of the impulses from the spheres ids, starting from v. */
  function ImpulseSum(a: Sphere, shapes: seq<Shape>, ids: seq<int>, v: Vector): Vector
    requires forall p :: 0 <= p < |ids| ==> 0 <= ids[p] < |shapes| && shapes[ids[p]].geom.SphereShape?
    decreases |ids|
  {
    if ids == [] then v
    else Add(ImpulseSum(a, shapes, ids[..|ids| - 1], v), Impulse(a, shapes[ids[|ids| - 1]].geom.sphere))
  }

  /** The recorded spheres passed the separation test when recorded, so the repeated test
      always passes and every one of them contributes its impulse. */
  lemma {:induction false} KicksRecorded(s: Shape, shapes: seq<Shape>, ids: seq<int>, v: Vector)
    requires s.geom.SphereShape?
    requires forall p :: 0 <= p < |ids| ==>
               0 <= ids[p] < |shapes| && shapes[ids[p]].geom.SphereShape? && SphereContact(s, shapes, ids[p])
    ensures Kicks(s.geom.sphere, shapes, ids, v) == ImpulseSum(s.geom.sphere, shapes, ids, v)
    decreases |ids|
  {
    if ids != [] {
      KicksRecorded(s, shapes, ids[..|ids| - 1], v);
    }
  }

  function Gravity(g: real): Vector {
    Vector(0.0, g, 0.0)
  }

  /** Line 140: v plus the bounce off a surface of normal n, -WallBounce (u . n) n, where u
      is the sphere's old velocity. For a unit normal and v == u, the normal component
      of the velocity is reversed and scaled by WallBounce - 1. */
  function Rebound(v: Vector, u: Vector, n: Vector): (r: Vector)
    ensures Dot(n, n) == 1.0 && v == u ==> Dot(r, n) == (1.0 - WallBounce) * Dot(u, n)
    ensures Dot(u, n) == 0.0 ==> r == v
  {
    var r := Add(v, Scale(-WallBounce * Dot(u, n), n));
    ScaleDot(-WallBounce * Dot(u, n), n, n);
    r
  }

  datatype Response = Response(velocity: Vector, force: Vector)

  /** Lines 121-150 for the nearest non-sphere other: when the centre's projection on it
      is within the radius, a sphere moving into it (velocity against the displacement from
      the projection) rebounds along the surface normal there, and gravity loses its
      component along that normal; otherwise velocity and gravity are kept. */
  function Bounce(a: Sphere, v: Vector, other: Shape, g: real): (r: Response)
    requires Projectable(other)
    ensures Depth(a, other) >= a.radius ==> r == Response(v, Gravity(g))
    ensures var pr := ProjectPointShape(a.pos, other, Zero);
            var n := ComputeNormal(pr.closest, other);
            Depth(a, other) < a.radius ==>
              r.force == Orthogonalize(Gravity(g), n)
              && (Dot(n, n) == 1.0 ==> Dot(r.force, n) == 0.0)
              && (Dot(a.velocity, Sub(a.pos, pr.closest)) >= 0.0 ==> r.velocity == v)
              && (Dot(a.velocity, Sub(a.pos, pr.closest)) < 0.0 ==> r.velocity == Rebound(v, a.velocity, n))
  {
    var gforce := Gravity(g);
    var pr := ProjectPointShape(a.pos, other, Zero);
    if pr.dist < a.radius then
      var disp := Sub(a.pos, pr.closest);
      var n := ComputeNormal(pr.closest, other);
      var velocity := if Dot(a.velocity, disp) < 0.0 then Rebound(v, a.velocity, n) else v;
      assert Dot(n, gforce) == Dot(gforce, n);
      Response(velocity, Sub(gforce, Scale(Dot(n, gforce), n)))
    else Response(v, gforce)
  }

  /** Shape id after the collision pass, computed from what the pass reads: a sphere gets
      as new velocity its velocity plus the impulses of the recorded spheres and the rebound
      off the nearest penetrating non-sphere, and as force gravity without its component
      along that shape's normal; other shapes are unchanged. */
  function Collided(grid: Grid, shapes: seq<Shape>, id: int, g: real): (r: Shape)
    requires Valid(grid, |shapes|) && Collidable(shapes) && Boxed(grid.geom, shapes) && 0 <= id < |shapes|
    reads grid, grid.boxStarts, grid.boxContents
    ensures Frozen(r) == Frozen(shapes[id])
    ensures !shapes[id].geom.SphereShape? ==> r == shapes[id]
  {
    match shapes[id].geom
    case SphereShape(a) =>
      var s := shapes[id];
      var st := Scan(a.radius, Sighting(s, shapes), NoGather, Candidates(grid, s.bbox));
      ScanConsistent(a.radius, Sighting(s, shapes), NoGather, Candidates(grid, s.bbox));
      ConsistentMeaning(s, shapes, st);
      var v := Kicks(a, shapes, st.ids, a.velocity);
      var resp := if st.shapeId != -1 then Bounce(a, v, shapes[st.shapeId], g) else Response(v, Gravity(g));
      s.(geom := SphereShape(a.(newVelocity := resp.velocity, force := resp.force)))
    case _ => shapes[id]
  }

  /** Lines 163-178 for one shape: a sphere takes its new velocity, moves by dt times it
      and is then accelerated by dt times its force; other shapes stay as they are. */
  function Advanced(s: Shape, dt: real): (r: Shape)
    ensures !s.geom.SphereShape? ==> r == s
    ensures r.id == s.id && r.bbox == s.bbox && r.material == s.material
    ensures s.geom.SphereShape? ==>
              r.geom.SphereShape?
              && var a, b := s.geom.sphere, r.geom.sphere;
                 Sub(b.pos, a.pos) == Scale(dt, a.newVelocity)
                 && Sub(b.velocity, a.newVelocity) == Scale(dt, a.force)
                 && b.radius == a.radius && b.newVelocity == a.newVelocity && b.force == a.force
  {
    match s.geom
    case SphereShape(sphere) =>
      var velocity := sphere.newVelocity;
      var pos := Add(sphere.pos, Scale(dt, velocity));
      s.(geom := SphereShape(sphere.(pos := pos, velocity := Add(velocity, Scale(dt, sphere.force)))))
    case _ => s
  }

  /** A sphere whose cells list no shape but itself flies free: the collision pass gives it
      its own velocity and plain gravity, so the update moves it by dt times its velocity and
      adds dt g to its vertical speed. */
  lemma FreeFlight(grid: Grid, shapes: seq<Shape>, id: int, g: real, dt: real)
    requires Valid(grid, |shapes|) && Collidable(shapes) && Boxed(grid.geom, shapes) && 0 <= id < |shapes|
    requires shapes[id].geom.SphereShape?
    requires var cands := Candidates(grid, shapes[id].bbox);
             forall q :: 0 <= q < |cands| ==> cands[q] == shapes[id].id
    ensures var r := Collided(grid, shapes, id, g).geom.sphere;
            r.newVelocity == shapes[id].geom.sphere.velocity && r.force == Gravity(g)
    ensures var a, r := shapes[id].geom.sphere, Advanced(Collided(grid, shapes, id, g), dt).geom.sphere;
            r.pos == Add(a.pos, Scale(dt, a.velocity)) && r.velocity == Add(a.velocity, Scale(dt, Gravity(g)))
  {
    var s := shapes[id];
    var cands := Candidates(grid, s.bbox);
    forall q | 0 <= q < |cands|
      ensures Sighting(s, shapes)(cands[q]) == Itself
    {
      assert Sighting(s, shapes)(cands[q]) == Look(s, shapes, cands[q]);
    }
    ScanSelf(s.geom.sphere.radius, Sighting(s, shapes), NoGather, cands);
  }

  // ---------------------------------------------------------------- methods

  /** Candidate o sees the same as in the frozen view: the pass reads no field it writes. */
  lemma LookFrozen(s: Shape, shapes: seq<Shape>, o: int)
    ensures Look(s, shapes, o) == Look(Frozen(s), FrozenAll(shapes), o)
  {
    if s.geom.SphereShape? && 0 <= o < |shapes| && s.id != o {
      assert FrozenAll(shapes)[o] == Frozen(shapes[o]);
    }
  }

  /** Two ways of seeing that agree on every candidate gather the same state. */
  lemma {:induction false} ScanAgree(radius: real, look: int -> Sight, look': int -> Sight, st: Gather, cands: seq<int>)
    requires forall q :: 0 <= q < |cands| ==> look(cands[q]) == look'(cands[q])
    ensures Scan(radius, look, st, cands) == Scan(radius, look', st, cands)
    decreases |cands|
  {
    if cands != [] {
      ScanAgree(radius, look, look', st, cands[..|cands| - 1]);
    }
  }

  /** Sphere s gathers from the live scene what it gathers from the frozen view. */
  lemma ScanFrozen(s: Shape, shapes: seq<Shape>, cands: seq<int>)
    requires s.geom.SphereShape?
    ensures Scan(s.geom.sphere.radius, Sighting(s, shapes), NoGather, cands)
            == Scan(s.geom.sphere.radius, Sighting(Frozen(s), FrozenAll(shapes)), NoGather, cands)
  {
    forall q | 0 <= q < |cands|
      ensures Sighting(s, shapes)(cands[q]) == Sighting(Frozen(s), FrozenAll(shapes))(cands[q])
    {
      LookFrozen(s, shapes, cands[q]);
    }
    ScanAgree(s.geom.sphere.radius, Sighting(s, shapes), Sighting(Frozen(s), FrozenAll(shapes)), NoGather, cands);
  }

  /** Lines 68-70: the first slot of ids[..n] that holds o, or n when none does. */
  method FindRecorded(ids: array<int>, n: int, o: int) returns (m: int)
    requires 0 <= n <= ids.Length
    ensures 0 <= m <= n
    ensures m < n ==> ids[m] == o
    ensures forall p :: 0 <= p < m ==> ids[p] != o
  {
    m := 0;
    while m < n && ids[m] != o
      invariant 0 <= m <= n
      invariant forall p :: 0 <= p < m ==> ids[p] != o
    {
      m := m + 1;
    }
  }

  /** A buffer of MaxNcollisions slots for recorded spheres that is not part of the index. */
  predicate Buffer(grid: Grid, ids: array<int>)
    reads grid
  {
    ids.Length == MaxNcollisions && ids != grid.boxStarts && ids != grid.boxContents
  }

  /** The index arrays of grid hold starts and contents, and every cell's range of the
      contents lies within them; a cell's range is only brought up where the index is read. */
  predicate Snapshot(grid: Grid, starts: seq<int>, contents: seq<int>)
    reads grid, grid.boxStarts, grid.boxContents
  {
    starts == grid.boxStarts[..] && contents == grid.boxContents[..]
    && forall c {:trigger Listed(starts, contents, c)} :: 0 <= c && c + 1 < |starts| ==>
         0 <= starts[c] <= starts[c + 1] <= |contents|
  }

  /** cellOf gives the objects of every cell of the grid, which the index covers. */
  ghost predicate Covered(g: GridGeom, cellOf: (int, int, int) -> seq<int>, starts: seq<int>, contents: seq<int>) {
    forall i, j, k {:trigger Listed(starts, contents, Id(g, i, j, k))} :: InGrid(g, i, j, k) ==>
      0 <= Id(g, i, j, k) && Id(g, i, j, k) + 1 < |starts| && cellOf(i, j, k) == Listed(starts, contents, Id(g, i, j, k))
  }

  /** The state the row, plane and block loops keep: a buffer, the index as a snapshot, and
      cellOf covering the grid. */
  ghost predicate Ready(grid: Grid, ids: array<int>, starts: seq<int>, contents: seq<int>,
                        cellOf: (int, int, int) -> seq<int>)
    reads grid, grid.boxStarts, grid.boxContents
  {
    Buffer(grid, ids) && Snapshot(grid, starts, contents) && Covered(grid.geom, cellOf, starts, contents)
  }

  /** Lines 45-89: the objects of cell cellID visited in order, each seen through look, the
      recorded spheres kept in the fixed buffer ids. */
  method GatherCell(grid: Grid, look: int -> Sight, radius: real, ghost starts: seq<int>, ghost contents: seq<int>,
                    cellID: int, ids: array<int>, n0: int, shapeId0: int, mindist0: real)
    returns (n: int, shapeId: int, mindist: real)
    requires Buffer(grid, ids) && Snapshot(grid, starts, contents)
    requires 0 <= cellID && cellID + 1 < |starts| && 0 <= n0 <= MaxNcollisions
    modifies ids
    ensures Snapshot(grid, starts, contents)
    ensures 0 <= n <= MaxNcollisions
    ensures Gather(ids[..n], shapeId, mindist)
            == Scan(radius, look, Gather(old(ids[..n0]), shapeId0, mindist0), Listed(starts, contents, cellID))
  {
    ghost var st0 := Gather(ids[..n0], shapeId0, mindist0);
    n, shapeId, mindist := n0, shapeId0, mindist0;
    var start, end := grid.boxStarts[cellID], grid.boxStarts[cellID + 1];
    ghost var objs := Listed(starts, contents, cellID);
    assert objs == contents[start..end];
    var offset := start;
    while offset < end
      invariant start <= offset <= end
      invariant 0 <= n <= MaxNcollisions
      invariant Gather(ids[..n], shapeId, mindist) == Scan(radius, look, st0, objs[..offset - start])
    {
      var otherShapeId := grid.boxContents[offset];
      ghost var prev := Gather(ids[..n], shapeId, mindist);
      assert objs[..offset + 1 - start] == objs[..offset - start] + [otherShapeId];
      match look(otherShapeId) {
        case Itself =>
        case Ball(contact) =>
          if n < MaxNcollisions && contact {
            var m := FindRecorded(ids, n, otherShapeId);
            if m == n {
              ids[n] := otherShapeId;
              n := n + 1;
              assert ids[..n] == prev.ids + [otherShapeId];
            }
          }
        case Solid(dist) =>
          if dist < radius && dist < mindist {
            shapeId := otherShapeId;
            mindist := dist;
          }
      }
      offset := offset + 1;
    }
    assert objs[..end - start] == objs;
  }

  /** Line 40: the flat id of cell (i, j, k), whose objects cellOf gives. */
  method CellIndex(g: GridGeom, i: int, j: int, k: int, ghost starts: seq<int>, ghost contents: seq<int>,
                   ghost cellOf: (int, int, int) -> seq<int>) returns (cellID: int)
    requires Covered(g, cellOf, starts, contents) && InGrid(g, i, j, k)
    ensures 0 <= cellID && cellID + 1 < |starts| && cellOf(i, j, k) == Listed(starts, contents, cellID)
  {
    CellIdOrder(g, i, j, k);
    cellID := i + g.NI * j + g.NI * g.NJ * k;
    assert Listed(starts, contents, Id(g, i, j, k)) == Listed(starts, contents, cellID);
  }

  /** Line 38: cells imin .. imax of row (j, k) of box b. */
  method GatherRow(grid: Grid, look: int -> Sight, radius: real, ghost starts: seq<int>, ghost contents: seq<int>,
                   ghost cellOf: (int, int, int) -> seq<int>,
                   b: BBox, j: int, k: int, ids: array<int>, n0: int, shapeId0: int, mindist0: real)
    returns (n: int, shapeId: int, mindist: real)
    requires Ready(grid, ids, starts, contents, cellOf)
    requires Clamped(grid.geom, b) && 0 <= j < grid.geom.NJ && 0 <= k < grid.geom.NK && 0 <= n0 <= MaxNcollisions
    modifies ids
    ensures Ready(grid, ids, starts, contents, cellOf)
    ensures 0 <= n <= MaxNcollisions
    ensures Gather(ids[..n], shapeId, mindist)
            == Scan(radius, look, Gather(old(ids[..n0]), shapeId0, mindist0), RowObjects(cellOf, j, k, b.imin, b.imax + 1))
  {
    ghost var st0 := Gather(ids[..n0], shapeId0, mindist0);
    n, shapeId, mindist := n0, shapeId0, mindist0;
    var i := b.imin;
    while i <= b.imax
      invariant b.imin <= i && (i <= b.imax + 1 || i == b.imin)
      invariant 0 <= n <= MaxNcollisions && Ready(grid, ids, starts, contents, cellOf)
      invariant Gather(ids[..n], shapeId, mindist) == Scan(radius, look, st0, RowObjects(cellOf, j, k, b.imin, i))
    {
      n, shapeId, mindist := GatherNextCell(grid, look, radius, starts, contents, cellOf, b, i, j, k, ids, n, shapeId, mindist, st0);
      i := i + 1;
    }
  }

  /** One turn of the loop of line 38: cell (i, j, k) added to the scan of cells imin .. i - 1. */
  method GatherNextCell(grid: Grid, look: int -> Sight, radius: real, ghost starts: seq<int>, ghost contents: seq<int>,
                        ghost cellOf: (int, int, int) -> seq<int>,
                        b: BBox, i: int, j: int, k: int, ids: array<int>, n0: int, shapeId0: int, mindist0: real,
                        ghost st0: Gather)
    returns (n: int, shapeId: int, mindist: real)
    requires Ready(grid, ids, starts, contents, cellOf)
    requires b.imin <= i < grid.geom.NI && 0 <= i && 0 <= j < grid.geom.NJ && 0 <= k < grid.geom.NK
    requires 0 <= n0 <= MaxNcollisions
    requires Gather(ids[..n0], shapeId0, mindist0) == Scan(radius, look, st0, RowObjects(cellOf, j, k, b.imin, i))
    modifies ids
    ensures Ready(grid, ids, starts, contents, cellOf)
    ensures 0 <= n <= MaxNcollisions
    ensures Gather(ids[..n], shapeId, mindist) == Scan(radius, look, st0, RowObjects(cellOf, j, k, b.imin, i + 1))
  {
    var cellID := CellIndex(grid.geom, i, j, k, starts, contents, cellOf);
    n, shapeId, mindist := GatherCell(grid, look, radius, starts, contents, cellID, ids, n0, shapeId0, mindist0);
    ScanAppend(radius, look, st0, RowObjects(cellOf, j, k, b.imin, i), cellOf(i, j, k));
  }

  /** Line 37: rows jmin .. jmax of plane k of box b. */
  method GatherPlane(grid: Grid, look: int -> Sight, radius: real, ghost starts: seq<int>, ghost contents: seq<int>,
                     ghost cellOf: (int, int, int) -> seq<int>,
                     b: BBox, k: int, ids: array<int>, n0: int, shapeId0: int, mindist0: real)
    returns (n: int, shapeId: int, mindist: real)
    requires Ready(grid, ids, starts, contents, cellOf)
    requires Clamped(grid.geom, b) && 0 <= k < grid.geom.NK && 0 <= n0 <= MaxNcollisions
    modifies ids
    ensures Ready(grid, ids, starts, contents, cellOf)
    ensures 0 <= n <= MaxNcollisions
    ensures Gather(ids[..n], shapeId, mindist)
            == Scan(radius, look, Gather(old(ids[..n0]), shapeId0, mindist0), PlaneObjects(cellOf, b, k, b.jmax + 1))
  {
    ghost var st0 := Gather(ids[..n0], shapeId0, mindist0);
    n, shapeId, mindist := n0, shapeId0, mindist0;
    var j := b.jmin;
    while j <= b.jmax
      invariant b.jmin <= j && (j <= b.jmax + 1 || j == b.jmin)
      invariant 0 <= n <= MaxNcollisions && Ready(grid, ids, starts, contents, cellOf)
      invariant Gather(ids[..n], shapeId, mindist) == Scan(radius, look, st0, PlaneObjects(cellOf, b, k, j))
    {
      n, shapeId, mindist := GatherNextRow(grid, look, radius, starts, contents, cellOf, b, j, k, ids, n, shapeId, mindist, st0);
      j := j + 1;
    }
  }

  /** One turn of the loop of line 37: row j added to the scan of rows jmin .. j - 1 of plane k. */
  method GatherNextRow(grid: Grid, look: int -> Sight, radius: real, ghost starts: seq<int>, ghost contents: seq<int>,
                       ghost cellOf: (int, int, int) -> seq<int>,
                       b: BBox, j: int, k: int, ids: array<int>, n0: int, shapeId0: int, mindist0: real, ghost st0: Gather)
    returns (n: int, shapeId: int, mindist: real)
    requires Ready(grid, ids, starts, contents, cellOf)
    requires Clamped(grid.geom, b) && b.jmin <= j <= b.jmax && 0 <= k < grid.geom.NK && 0 <= n0 <= MaxNcollisions
    requires Gather(ids[..n0], shapeId0, mindist0) == Scan(radius, look, st0, PlaneObjects(cellOf, b, k, j))
    modifies ids
    ensures Ready(grid, ids, starts, contents, cellOf)
    ensures 0 <= n <= MaxNcollisions
    ensures Gather(ids[..n], shapeId, mindist) == Scan(radius, look, st0, PlaneObjects(cellOf, b, k, j + 1))
  {
    n, shapeId, mindist := GatherRow(grid, look, radius, starts, contents, cellOf, b, j, k, ids, n0, shapeId0, mindist0);
    ScanAppend(radius, look, st0, PlaneObjects(cellOf, b, k, j), RowObjects(cellOf, j, k, b.imin, b.imax + 1));
  }

  /** Line 36: planes kmin .. kmax of box b. */
  method GatherBlock(grid: Grid, look: int -> Sight, radius: real, ghost starts: seq<int>, ghost contents: seq<int>,
                     ghost cellOf: (int, int, int) -> seq<int>,
                     b: BBox, ids: array<int>, n0: int, shapeId0: int, mindist0: real)
    returns (n: int, shapeId: int, mindist: real)
    requires Ready(grid, ids, starts, contents, cellOf)
    requires Clamped(grid.geom, b) && 0 <= n0 <= MaxNcollisions
    modifies ids
    ensures 0 <= n <= MaxNcollisions
    ensures Gather(ids[..n], shapeId, mindist)
            == Scan(radius, look, Gather(old(ids[..n0]), shapeId0, mindist0), BlockObjects(cellOf, b, b.kmax + 1))
  {
    ghost var st0 := Gather(ids[..n0], shapeId0, mindist0);
    n, shapeId, mindist := n0, shapeId0, mindist0;
    var k := b.kmin;
    while k <= b.kmax
      invariant b.kmin <= k && (k <= b.kmax + 1 || k == b.kmin)
      invariant 0 <= n <= MaxNcollisions && Ready(grid, ids, starts, contents, cellOf)
      invariant Gather(ids[..n], shapeId, mindist) == Scan(radius, look, st0, BlockObjects(cellOf, b, k))
    {
      n, shapeId, mindist := GatherNextPlane(grid, look, radius, starts, contents, cellOf, b, k, ids, n, shapeId, mindist, st0);
      k := k + 1;
    }
  }

  /** One turn of the loop of line 36: plane k added to the scan of planes kmin .. k - 1. */
  method GatherNextPlane(grid: Grid, look: int -> Sight, radius: real, ghost starts: seq<int>, ghost contents: seq<int>,
                         ghost cellOf: (int, int, int) -> seq<int>,
                         b: BBox, k: int, ids: array<int>, n0: int, shapeId0: int, mindist0: real, ghost st0: Gather)
    returns (n: int, shapeId: int, mindist: real)
    requires Ready(grid, ids, starts, contents, cellOf)
    requires Clamped(grid.geom, b) && b.kmin <= k <= b.kmax && 0 <= n0 <= MaxNcollisions
    requires Gather(ids[..n0], shapeId0, mindist0) == Scan(radius, look, st0, BlockObjects(cellOf, b, k))
    modifies ids
    ensures Ready(grid, ids, starts, contents, cellOf)
    ensures 0 <= n <= MaxNcollisions
    ensures Gather(ids[..n], shapeId, mindist) == Scan(radius, look, st0, BlockObjects(cellOf, b, k + 1))
  {
    n, shapeId, mindist := GatherPlane(grid, look, radius, starts, contents, cellOf, b, k, ids, n0, shapeId0, mindist0);
    ScanAppend(radius, look, st0, BlockObjects(cellOf, b, k), PlaneObjects(cellOf, b, k, b.jmax + 1));
  }

  /** An indexed grid's arrays make a snapshot that covers every cell of the grid. */
  lemma Snapshotted(grid: Grid)
    requires Indexed(grid)
    ensures var starts, contents := grid.boxStarts[..], grid.boxContents[..];
            Snapshot(grid, starts, contents) && Covered(grid.geom, Seen(grid.geom, starts, contents), starts, contents)
  {
    var starts, contents := grid.boxStarts[..], grid.boxContents[..];
    forall c {:trigger starts[c]} | 0 <= c && c + 1 < |starts|
      ensures 0 <= starts[c] <= starts[c + 1] <= |contents|
    {
      assert starts[0] <= starts[c] <= starts[c + 1] <= starts[|starts| - 1];
    }
    forall i, j, k | InGrid(grid.geom, i, j, k)
      ensures 0 <= Id(grid.geom, i, j, k) && Id(grid.geom, i, j, k) + 1 < |starts|
    {
      IdRange(grid.geom, i, j, k);
    }
  }

  /** Lines 95-116: the velocity plus the impulse of every recorded sphere that is not
      separating from a, read from the live array; the array's spheres agree with the
      frozen scene F in the fields the loop reads. */
  method ApplyKicks(shapes: array<Shape>, a: Sphere, ids: array<int>, n: int, ghost F: seq<Shape>)
    returns (newVelocity: Vector)
    requires F == FrozenAll(shapes[..]) && 0 <= n <= ids.Length
    requires forall p :: 0 <= p < n ==> 0 <= ids[p] < shapes.Length && F[ids[p]].geom.SphereShape?
    ensures newVelocity == Kicks(a, F, ids[..n], a.velocity)
  {
    newVelocity := a.velocity;
    var m := 0;
    while m < n
      invariant 0 <= m <= n
      invariant newVelocity == Kicks(a, F, ids[..m], a.velocity)
    {
      var other := shapes[ids[m]];
      assert F[ids[m]] == Frozen(other) && ids[..m + 1][..m] == ids[..m];
      var b := other.geom.sphere;
      var dX := Sub(b.pos, a.pos);
      var dist := Norm(dX);
      var vdotdX1 := Approach(a.velocity, dX, dist);
      var vdotdX2 := Approach(b.velocity, dX, dist);
      if !(vdotdX1 < 0.0 && vdotdX2 > 0.0) {
        var dVdotdX := vdotdX2 - vdotdX1;
        newVelocity := Add(newVelocity, Scale(SphereBounce * dVdotdX, dX));
      }
      m := m + 1;
    }
    assert ids[..m] == ids[..n];
  }

  /** Lines 118-152: gravity, and when a nearest non-sphere was chosen the bounce off it;
      the response Collided gives for the velocity v. */
  method ApplyBounce(shapes: array<Shape>, a: Sphere, v: Vector, shapeId: int, g: real, ghost F: seq<Shape>)
    returns (resp: Response)
    requires F == FrozenAll(shapes[..]) && -1 <= shapeId < shapes.Length
    requires shapeId != -1 ==> Projectable(F[shapeId]) && !F[shapeId].geom.SphereShape?
    ensures resp == if shapeId != -1 then Bounce(a, v, F[shapeId], g) else Response(v, Gravity(g))
  {
    var newVelocity := v;
    var gforce := Gravity(g);
    if shapeId != -1 {
      var otherShape := shapes[shapeId];
      assert F[shapeId] == otherShape;
      var pr := ProjectPointShape(a.pos, otherShape, Zero);
      if pr.dist < a.radius {
        var disp := Sub(a.pos, pr.closest);
        var vdotdisp := Dot(a.velocity, disp);
        var normal := ComputeNormal(pr.closest, otherShape);
        if vdotdisp < 0.0 {
          newVelocity := Rebound(newVelocity, a.velocity, normal);
        }
        gforce := Sub(gforce, Scale(Dot(normal, gforce), normal));
      }
    }
    resp := Response(newVelocity, gforce);
  }

  /** Lines 14-89 for the sphere id: the candidates of its bounding box scanned as the
      frozen scene shows them; every recorded id is a sphere in contact with it, and a
      chosen shape is a non-sphere that can be projected on. */
  method GatherNeighbours(grid: Grid, shapes: array<Shape>, id: int, ghost F: seq<Shape>)
    returns (ids: array<int>, n: int, shapeId: int, mindist: real)
    requires Valid(grid, shapes.Length) && 0 <= id < shapes.Length && shapes[id].geom.SphereShape?
    requires F == FrozenAll(shapes[..]) && Collidable(F) && Boxed(grid.geom, F)
    ensures fresh(ids) && 0 <= n <= ids.Length
    ensures Gather(ids[..n], shapeId, mindist)
            == Scan(F[id].geom.sphere.radius, Sighting(F[id], F), NoGather, Candidates(grid, F[id].bbox))
    ensures forall p :: 0 <= p < n ==>
              0 <= ids[p] < |F| && F[ids[p]].geom.SphereShape? && SphereContact(F[id], F, ids[p])
    ensures -1 <= shapeId < |F| && (shapeId != -1 ==> Projectable(F[shapeId]) && !F[shapeId].geom.SphereShape?)
  {
    var shape := shapes[id];
    assert F[id] == Frozen(shape);
    ids, n, shapeId, mindist := GatherCandidates(grid, Sighting(shape, shapes[..]), shape.geom.sphere.radius, shape.bbox);
    GatherMeaning(shape, shapes[..], Candidates(grid, shape.bbox), Gather(ids[..n], shapeId, mindist));
  }

  /** A scan of candidates by the live view of sphere s gives what a scan by the frozen
      view gives, and what it gathers has the meaning ConsistentMeaning states. */
  lemma GatherMeaning(s: Shape, shapes: seq<Shape>, cands: seq<int>, st: Gather)
    requires s.geom.SphereShape? && Collidable(FrozenAll(shapes))
    requires st == Scan(s.geom.sphere.radius, Sighting(s, shapes), NoGather, cands)
    ensures st == Scan(s.geom.sphere.radius, Sighting(Frozen(s), FrozenAll(shapes)), NoGather, cands)
    ensures forall p :: 0 <= p < |st.ids| ==>
              0 <= st.ids[p] < |shapes| && FrozenAll(shapes)[st.ids[p]].geom.SphereShape?
              && SphereContact(Frozen(s), FrozenAll(shapes), st.ids[p])
    ensures -1 <= st.shapeId < |shapes|
    ensures st.shapeId != -1 ==> Projectable(FrozenAll(shapes)[st.shapeId]) && !FrozenAll(shapes)[st.shapeId].geom.SphereShape?
  {
    var F := FrozenAll(shapes);
    ScanFrozen(s, shapes, cands);
    ScanConsistent(s.geom.sphere.radius, Sighting(Frozen(s), F), NoGather, cands);
    ConsistentMeaning(Frozen(s), F, st);
  }

  /** Lines 14-89 with the view of the candidates left open: a fresh buffer filled by the
      scan of the cells of box b. */
  method GatherCandidates(grid: Grid, look: int -> Sight, radius: real, b: BBox)
    returns (ids: array<int>, n: int, shapeId: int, mindist: real)
    requires Indexed(grid) && Clamped(grid.geom, b)
    ensures fresh(ids) && 0 <= n <= ids.Length
    ensures Gather(ids[..n], shapeId, mindist) == Scan(radius, look, NoGather, Candidates(grid, b))
  {
    ids := new int[MaxNcollisions];
    Snapshotted(grid);
    ghost var starts, contents := grid.boxStarts[..], grid.boxContents[..];
    assert ids[..0] == [];
    n, shapeId, mindist := GatherBlock(grid, look, radius, starts, contents, Seen(grid.geom, starts, contents), b, ids, 0, -1, NoCollision);
  }

  /** Lines 14-153 for the sphere id: its neighbours gathered, the impulses of the recorded
      spheres summed onto its velocity, the rebound off the nearest non-sphere added and
      gravity projected; only its new velocity and force are written. */
  method CollideSphere(grid: Grid, g: real, shapes: array<Shape>, id: int, ghost F: seq<Shape>)
    requires Valid(grid, shapes.Length) && 0 <= id < shapes.Length && shapes[id].geom.SphereShape?
    requires F == FrozenAll(shapes[..]) && Collidable(F) && Boxed(grid.geom, F)
    modifies shapes
    ensures shapes[..] == old(shapes[..])[id := Collided(grid, F, id, g)]
  {
    var shape := shapes[id];
    var a := shape.geom.sphere;
    var fa := Frozen(shape).geom.sphere;
    var ids, n, shapeId, mindist := GatherNeighbours(grid, shapes, id, F);
    var newVelocity := ApplyKicks(shapes, fa, ids, n, F);
    var resp := ApplyBounce(shapes, fa, newVelocity, shapeId, g, F);
    ghost var r := Collided(grid, F, id, g);
    assert r == F[id].(geom := SphereShape(fa.(newVelocity := resp.velocity, force := resp.force)));
    var updated := shape.(geom := SphereShape(a.(newVelocity := resp.velocity, force := resp.force)));
    assert updated == r;
    shapes[id] := updated;
    assert shapes[..] == old(shapes[..])[id := r];
  }

  /** Lines 3-155: every sphere gets the new velocity and force Collided computes from the
      scene as it was before the pass, whatever order the spheres are visited in, because
      the pass writes only fields it never reads; every other shape is left alone. */
  method SphereCollisions(grid: Grid, g: real, shapes: array<Shape>)
    requires Valid(grid, shapes.Length) && Collidable(shapes[..]) && Boxed(grid.geom, shapes[..])
    modifies shapes
    ensures forall n :: 0 <= n < shapes.Length ==> shapes[n] == Collided(grid, FrozenAll(old(shapes[..])), n, g)
    ensures FrozenAll(shapes[..]) == FrozenAll(old(shapes[..]))
  {
    ghost var F := FrozenAll(shapes[..]);
    assert Collidable(F) && Boxed(grid.geom, F);
    var id := 0;
    while id < shapes.Length
      invariant 0 <= id <= shapes.Length
      invariant FrozenAll(shapes[..]) == F
      invariant forall n :: 0 <= n < id ==> shapes[n] == Collided(grid, F, n, g)
      invariant forall n :: id <= n < shapes.Length ==> shapes[n] == old(shapes[n])
    {
      if shapes[id].geom.SphereShape? {
        CollideSphere(grid, g, shapes, id, F);
      } else {
        assert Collided(grid, F, id, g) == shapes[id];
      }
      id := id + 1;
    }
  }

  /** Lines 157-179: every shape replaced by its Euler-forward step. */
  method SphereUpdates(dt: real, shapes: array<Shape>)
    modifies shapes
    ensures forall n :: 0 <= n < shapes.Length ==> shapes[n] == Advanced(old(shapes[n]), dt)
  {
    var id := 0;
    while id < shapes.Length
      invariant 0 <= id <= shapes.Length
      invariant forall n :: 0 <= n < id ==> shapes[n] == Advanced(old(shapes[n]), dt)
      invariant forall n :: id <= n < shapes.Length ==> shapes[n] == old(shapes[n])
    {
      var shape := shapes[id];
      if shape.geom.SphereShape? {
        var sphere := shape.geom.sphere;
        sphere := sphere.(velocity := sphere.newVelocity);
        var pos := Add(sphere.pos, Scale(dt, sphere.velocity));
        var velocity := Add(sphere.velocity, Scale(dt, sphere.force));
        shapes[id] := shape.(geom := SphereShape(shape.geom.sphere.(pos := pos, velocity := velocity)));
      }
      id := id + 1;
    }
  }
}
