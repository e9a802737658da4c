/** The trace engine of one primary ray: a fixed-capacity stack of rays drained first in,
    first out by a running ray id. Each ray that hits a shape either adds its emitted light
    (an emitter) or adds the light of every unshadowed light source and queues up to two
    secondary rays, a reflected one and then a refracted one. */
module Trace {
  import opened Types
  import opened Utils
  import opened Intersections

  /** The calls the trace makes into the rest of the tracer: the grid search (from a start
      along a direction, with an initial parameter, giving the shape id it leaves, -1 for
      none, and the parameter it leaves), the surface normal and the material of a shape
      at a point. */
  datatype Oracles = Oracles(
    search: (Vector, Vector, real) -> (int, real),
    normal: (Vector, int) -> Vector,
    material: (Vector, int) -> Material)

  /** The parameter a primary or secondary ray's search starts from. */
  const SearchStart: real := 20000.0

  /** c plus k times d, channel by channel. */
  function Plus(c: Colour, k: real, d: Colour): Colour {
    Colour(c.red + k * d.red, c.green + k * d.green, c.blue + k * d.blue)
  }

  /** The signed offset of a reflected ray's start off the surface: ShadowDelta along the
      normal, reversed when the ray arrives from the side the normal points to. A refracted
      ray starts at the opposite offset. */
  function Offset(rdotn: real): (sc: real)
    ensures sc == ShadowDelta || sc == -ShadowDelta
    ensures rdotn > 0.0 <==> sc < 0.0
  {
    if rdotn > 0.0 then -ShadowDelta else ShadowDelta
  }

  // ------------------------------------------------------------ light sources

  /** Light source l seen from `start` on a surface with normal n: nothing when it lies
      behind the surface or at the start, or when the search toward it reports a shape at
      a parameter in [0, distance); otherwise the Lambert term times the intensity times
      the diffuse colour. */
  function LightStep(o: Oracles, l: Light, start: Vector, n: Vector, coef: real, diffuse: Colour, c: Colour): (c': Colour)
    ensures Dot(n, Sub(l.pos, start)) <= 0.0 ==> c' == c
    ensures (Dot(n, Sub(l.pos, start)) > 0.0 && Norm(Sub(l.pos, start)) > 0.0
             && o.search(start, Scale(1.0 / Norm(Sub(l.pos, start)), Sub(l.pos, start)), Norm(Sub(l.pos, start))).0 != -1
             && 0.0 <= o.search(start, Scale(1.0 / Norm(Sub(l.pos, start)), Sub(l.pos, start)), Norm(Sub(l.pos, start))).1
                  < Norm(Sub(l.pos, start)))
             ==> c' == c
    ensures c' != c ==> Dot(n, Sub(l.pos, start)) > 0.0 && Norm(Sub(l.pos, start)) > 0.0
  {
    var dist := Sub(l.pos, start);
    if Dot(n, dist) <= 0.0 then c
    else
      var lightDist := Norm(dist);
      if lightDist <= 0.0 then c
      else
        var dir := Scale(1.0 / lightDist, dist);
        var found := o.search(start, dir, lightDist);
        var shadowId, tshadow := found.0, found.1;
        if shadowId != -1 && tshadow >= 0.0 && tshadow < lightDist then c
        else
          var lambert := Dot(dir, n) * coef;
          Colour(c.red + lambert * l.intensity.red * diffuse.red,
                 c.green + lambert * l.intensity.green * diffuse.green,
                 c.blue + lambert * l.intensity.blue * diffuse.blue)
  }

  /** The colour after the light sources of `lights`, taken in order. */
  function Lit(o: Oracles, lights: seq<Light>, start: Vector, n: Vector, coef: real, diffuse: Colour, c: Colour): Colour {
    if |lights| == 0 then c
    else LightStep(o, lights[|lights| - 1], start, n, coef, diffuse, Lit(o, lights[..|lights| - 1], start, n, coef, diffuse, c))
  }

  /** The light loop: each source adds its term to the colour. */
  method Illuminate(o: Oracles, lights: seq<Light>, start: Vector, n: Vector, coef: real, diffuse: Colour, c0: Colour)
    returns (c: Colour)
    ensures c == Lit(o, lights, start, n, coef, diffuse, c0)
  {
    c := c0;
    for j := 0 to |lights|
      invariant c == Lit(o, lights[..j], start, n, coef, diffuse, c0)
    {
      assert lights[..j + 1][..j] == lights[..j];
      c := LightStep(o, lights[j], start, n, coef, diffuse, c);
    }
    assert lights[..|lights|] == lights;
  }

  // -------------------------------------------------------- secondary rays

  /** The reflected ray: from the offset start, along the direction mirrored in the
      normal, one level deeper, with the reduced coefficient. */
  function ReflectRay(r: Ray, start: Vector, n: Vector, rdotn: real, reflection: real): (child: Ray)
    ensures child.level == r.level + 1 && child.coef == r.coef * reflection && child.start == start
  {
    Ray(start, Add(r.dir, Scale(-2.0 * rdotn, n)), r.level + 1, r.coef * reflection)
  }

  /** The ratio of refractive indices: eta leaving the surface (the ray arrives from the
      side the normal points to), 1/eta entering it. */
  function Ratio(rdotn: real, eta0: real): real
    requires rdotn > 0.0 || eta0 != 0.0
  {
    if rdotn > 0.0 then eta0 else 1.0 / eta0
  }

  /** The incidence r.n turned to face the ray: never positive. */
  function Facing(rdotn: real): (rd: real)
    ensures rd <= 0.0 && (rd == rdotn || rd == -rdotn)
  {
    if rdotn > 0.0 then -rdotn else rdotn
  }

  /** kappa = 1 - ratio^2 (1 - (r.n)^2), the squared cosine of the refracted angle. */
  function Kappa(rdotn: real, eta0: real): real
    requires rdotn > 0.0 || eta0 != 0.0
  {
    var eta := Ratio(rdotn, eta0);
    var rd := Facing(rdotn);
    1.0 - eta * eta * (1.0 - rd * rd)
  }

  /** The refracted ray, if any: from the offset start, one level deeper, keeping the
      parent's coefficient; there is one only when kappa is positive. An entering ray on a
      material with eta 0 gets none. */
  function RefractRay(r: Ray, start: Vector, n: Vector, rdotn: real, eta0: real): (child: Option<Ray>)
    ensures child.Some? <==> (rdotn > 0.0 || eta0 != 0.0) && Kappa(rdotn, eta0) > 0.0
    ensures child.Some? ==> child.value.level == r.level + 1 && child.value.coef == r.coef && child.value.start == start
  {
    if rdotn <= 0.0 && eta0 == 0.0 then None
    else
      var eta := Ratio(rdotn, eta0);
      var rd := Facing(rdotn);
      var kappa := Kappa(rdotn, eta0);
      if kappa > 0.0 then
        var fac := eta * rd - Sqrt(kappa);
        Some(Ray(start, Normalize(Add(Scale(eta, r.dir), Scale(fac, n))), r.level + 1, r.coef))
      else None
  }

  /** A child may be queued: it stays below the maximum level and the stack has room. */
  predicate Room(r: Ray, rays: seq<Ray>) {
    r.level + 1 < MaxLevel && |rays| < MaxNrays
  }

  /** The rays appended after ray r was processed are one level deeper than it and below
      the maximum level, at most two of them, and the stack stays within its capacity. */
  ghost predicate Children(r: Ray, before: seq<Ray>, after: seq<Ray>) {
    before <= after && |after| <= |before| + 2 && |after| <= MaxNrays
    && forall m :: |before| <= m < |after| ==> after[m].level == r.level + 1 < MaxLevel
  }

  /** A reflector's contribution: the light sources seen from the start offset off the
      surface, and the reflected ray, with the coefficient reduced by the material's
      reflection, when there is room for it. */
  function Reflected(o: Oracles, lights: seq<Light>, r: Ray, p: Vector, n: Vector, mat: Material, c: Colour, rays: seq<Ray>)
    : (res: (Colour, seq<Ray>))
    requires |rays| <= MaxNrays
    ensures Children(r, rays, res.1)
    ensures |res.1| == if Room(r, rays) then |rays| + 1 else |rays|
  {
    var rdotn := Dot(r.dir, n);
    var start := Add(p, Scale(Offset(rdotn), n));
    var c' := Lit(o, lights, start, n, r.coef, mat.diffuse, c);
    (c', if Room(r, rays) then rays + [ReflectRay(r, start, n, rdotn, mat.reflection)] else rays)
  }

  /** A refractor's contribution: the refracted ray, when there is room for it and kappa
      is positive. */
  function Refracted(r: Ray, p: Vector, n: Vector, mat: Material, rays: seq<Ray>): (rays': seq<Ray>)
    requires |rays| <= MaxNrays
    ensures Children(r, rays, rays') && |rays'| <= |rays| + 1
  {
    if Room(r, rays) then
      var rdotn := Dot(r.dir, n);
      var child := RefractRay(r, Add(p, Scale(-Offset(rdotn), n)), n, rdotn, mat.eta);
      if child.Some? then rays + [child.value] else rays
    else rays
  }

  /** An emitter's contribution: (r.n) times the ray's coefficient times its diffuse colour. */
  function Emitted(r: Ray, n: Vector, mat: Material, c: Colour): Colour {
    Plus(c, Dot(r.dir, n) * r.coef, mat.diffuse)
  }

  /** A ray that hit shape id at point p: an emitter adds (r.n) coef times its diffuse
      colour and queues nothing; any other material applies the reflector's and then the
      refractor's contribution, as its flags say. */
  function Surface(o: Oracles, lights: seq<Light>, r: Ray, p: Vector, id: int, c: Colour, rays: seq<Ray>)
    : (res: (Colour, seq<Ray>))
    requires |rays| <= MaxNrays
    ensures Children(r, rays, res.1)
  {
    var n := o.normal(p, id);
    var mat := o.material(p, id);
    if mat.info.emitter then (Emitted(r, n, mat, c), rays)
    else
      var (c1, rays1) := if mat.info.reflector then Reflected(o, lights, r, p, n, mat, c, rays) else (c, rays);
      (c1, if mat.info.refractor then Refracted(r, p, n, mat, rays1) else rays1)
  }

  /** One ray: a miss sets the colour to the background for the primary ray and changes
      nothing for any other; a hit is shaded at the point the search reports. */
  function Visit(o: Oracles, lights: seq<Light>, bg: Colour, r: Ray, primary: bool, c: Colour, rays: seq<Ray>)
    : (res: (Colour, seq<Ray>))
    requires |rays| <= MaxNrays
    ensures Children(r, rays, res.1)
  {
    var found := o.search(r.start, r.dir, SearchStart);
    if found.0 == -1 then (if primary then bg else c, rays)
    else Surface(o, lights, r, PointAt(r, found.1), found.0, c, rays)
  }

  /** The trace's state: the colour so far, the rays queued so far (those before rayID
      already processed), and the id of the next ray. */
  datatype TraceState = TraceState(c: Colour, rays: seq<Ray>, rayID: int)

  /** Processing ray rayID, the next in queue order. */
  function Shade(o: Oracles, lights: seq<Light>, bg: Colour, st: TraceState): (st': TraceState)
    requires 0 <= st.rayID < |st.rays| <= MaxNrays
    ensures st'.rayID == st.rayID + 1
    ensures Children(st.rays[st.rayID], st.rays, st'.rays)
  {
    var (c, rays) := Visit(o, lights, bg, st.rays[st.rayID], st.rayID == 0, st.c, st.rays);
    TraceState(c, rays, st.rayID + 1)
  }

  /** The loop: rays are processed in queue order while some is pending and the stack is
      not full; a full stack stops the trace even with rays still pending. */
  function Run(o: Oracles, lights: seq<Light>, bg: Colour, st: TraceState): (end: TraceState)
    requires 0 <= st.rayID <= |st.rays| <= MaxNrays
    ensures 0 <= end.rayID <= |end.rays| <= MaxNrays
    ensures end.rayID == |end.rays| || |end.rays| == MaxNrays
    ensures st.rays <= end.rays && st.rayID <= end.rayID
    decreases MaxNrays - st.rayID
  {
    if st.rayID < |st.rays| && |st.rays| < MaxNrays then Run(o, lights, bg, Shade(o, lights, bg, st)) else st
  }

  /** The primary ray, reset to level 0 with the given coefficient, traced from black. */
  function Trace(o: Oracles, lights: seq<Light>, r: Ray, coef: real, bg: Colour): (end: TraceState)
    ensures 1 <= |end.rays| <= MaxNrays && end.rays[0] == r.(level := 0, coef := coef)
    ensures 1 <= end.rayID <= |end.rays| && (end.rayID == |end.rays| || |end.rays| == MaxNrays)
  {
    Run(o, lights, bg, TraceState(Black, [r.(level := 0, coef := coef)], 0))
  }

  /** The trace of a primary ray. The `level` argument is not used: the primary ray
      starts at level 0 whatever it is. */
  method GridTrace(o: Oracles, lights: seq<Light>, r: Ray, level: int, coef: real, bg: Colour)
    returns (c: Colour, ghost queue: seq<Ray>)
    ensures c == Trace(o, lights, r, coef, bg).c && queue == Trace(o, lights, r, coef, bg).rays
  {
    c := Black;
    var rayStack := new Ray[MaxNrays];
    var nrays, rayID := 0, 0;
    var r0 := r.(level := 0, coef := coef);
    rayStack[nrays] := r0;
    nrays := nrays + 1;
    assert rayStack[..nrays] == [r0];
    while rayID < nrays && nrays < MaxNrays
      invariant 0 <= rayID <= nrays <= MaxNrays == rayStack.Length
      invariant Run(o, lights, bg, TraceState(c, rayStack[..nrays], rayID)) == Trace(o, lights, r, coef, bg)
      decreases MaxNrays - rayID
    {
      ghost var st := TraceState(c, rayStack[..nrays], rayID);
      var ray := rayStack[rayID];
      c, nrays := ProcessRay(o, lights, bg, rayStack, nrays, ray, rayID == 0, c);
      rayID := rayID + 1;
      assert TraceState(c, rayStack[..nrays], rayID) == Shade(o, lights, bg, st);
    }
    queue := rayStack[..nrays];
  }

  /** Processing ray r, queued below nrays: the colour and the stack after it. */
  method ProcessRay(o: Oracles, lights: seq<Light>, bg: Colour, rayStack: array<Ray>, nrays: int, r: Ray, primary: bool, c0: Colour)
    returns (c: Colour, nrays': int)
    requires 0 <= nrays <= MaxNrays == rayStack.Length
    modifies rayStack
    ensures 0 <= nrays' <= MaxNrays
    ensures (c, rayStack[..nrays']) == Visit(o, lights, bg, r, primary, c0, old(rayStack[..nrays]))
  {
    var found := o.search(r.start, r.dir, SearchStart);
    var currentShapeId, t := found.0, found.1;
    if currentShapeId == -1 {
      c, nrays' := c0, nrays;
      if primary {
        c := bg;
      }
      return;
    }
    var intersection := PointAt(r, t);
    c, nrays' := ShadeSurface(o, lights, rayStack, nrays, r, intersection, currentShapeId, c0);
  }

  /** Shading of the surface point p of shape id that ray r hit. */
  method ShadeSurface(o: Oracles, lights: seq<Light>, rayStack: array<Ray>, nrays: int, r: Ray, p: Vector, id: int, c0: Colour)
    returns (c: Colour, nrays': int)
    requires 0 <= nrays <= MaxNrays == rayStack.Length
    modifies rayStack
    ensures 0 <= nrays' <= MaxNrays
    ensures (c, rayStack[..nrays']) == Surface(o, lights, r, p, id, c0, old(rayStack[..nrays]))
  {
    c, nrays' := c0, nrays;
    var n := o.normal(p, id);
    var rdotn := Dot(r.dir, n);
    var currentMat := o.material(p, id);
    if currentMat.info.emitter {
      c := Emitted(r, n, currentMat, c);
      return;
    }
    if currentMat.info.reflector {
      var shadowStart := Add(p, Scale(Offset(rdotn), n));
      c := Illuminate(o, lights, shadowStart, n, r.coef, currentMat.diffuse, c);
      if r.level + 1 < MaxLevel && nrays' < MaxNrays {
        Push(rayStack, nrays', ReflectRay(r, shadowStart, n, rdotn, currentMat.reflection));
        nrays' := nrays' + 1;
      }
    }
    ghost var before := old(rayStack[..nrays]);
    assert (c, rayStack[..nrays']) == if currentMat.info.reflector then Reflected(o, lights, r, p, n, currentMat, c0, before) else (c0, before);
    ghost var mid := rayStack[..nrays'];
    if currentMat.info.refractor {
      if r.level + 1 < MaxLevel && nrays' < MaxNrays {
        var shadowStart := Add(p, Scale(-Offset(rdotn), n));
        var child := RefractRay(r, shadowStart, n, rdotn, currentMat.eta);
        if child.Some? {
          Push(rayStack, nrays', child.value);
          nrays' := nrays' + 1;
        }
      }
      assert rayStack[..nrays'] == Refracted(r, p, n, currentMat, mid);
    }
  }

  /** Writes ray x at position n of the stack, past the n rays queued. */
  method Push(rayStack: array<Ray>, n: int, x: Ray)
    requires 0 <= n < rayStack.Length
    modifies rayStack
    ensures rayStack[..n + 1] == old(rayStack[..n]) + [x]
  {
    rayStack[n] := x;
  }

  // ------------------------------------------------------------ properties

  /** Every queued ray lies at a level in [0, MaxLevel). */
  ghost predicate Levels(rays: seq<Ray>) {
    forall m :: 0 <= m < |rays| ==> 0 <= rays[m].level < MaxLevel
  }

  /** The queue only grows at its end, never past MaxNrays, and keeps every level in
      [0, MaxLevel); the running id never moves back. */
  lemma {:induction false} RunQueue(o: Oracles, lights: seq<Light>, bg: Colour, st: TraceState)
    requires 0 <= st.rayID <= |st.rays| <= MaxNrays
    requires Levels(st.rays)
    ensures st.rays <= Run(o, lights, bg, st).rays
    ensures Levels(Run(o, lights, bg, st).rays)
    ensures st.rayID <= Run(o, lights, bg, st).rayID
    decreases MaxNrays - st.rayID
  {
    if st.rayID < |st.rays| && |st.rays| < MaxNrays {
      var st' := Shade(o, lights, bg, st);
      assert Levels(st'.rays) by {
        forall m | 0 <= m < |st'.rays|
          ensures 0 <= st'.rays[m].level < MaxLevel
        {
          if m >= |st.rays| {
            assert st'.rays[m].level == st.rays[st.rayID].level + 1;
          } else {
            assert st'.rays[m] == st.rays[m];
          }
        }
      }
      RunQueue(o, lights, bg, st');
    }
  }

  /** The trace of a primary ray: its queue starts with the primary ray at level 0 with
      the given coefficient, holds at most MaxNrays rays, all at levels below MaxLevel,
      and the loop ends with every queued ray processed or the stack full. */
  lemma TraceQueue(o: Oracles, lights: seq<Light>, r: Ray, coef: real, bg: Colour)
    ensures var end := Trace(o, lights, r, coef, bg);
      1 <= |end.rays| <= MaxNrays && end.rays[0] == Ray(r.start, r.dir, 0, coef) && Levels(end.rays)
      && (end.rayID == |end.rays| || |end.rays| == MaxNrays)
  {
    RunQueue(o, lights, bg, TraceState(Black, [r.(level := 0, coef := coef)], 0));
  }

  /** A primary ray that hits nothing leaves the background colour and nothing queued
      behind it. */
  lemma PrimaryMiss(o: Oracles, lights: seq<Light>, r: Ray, coef: real, bg: Colour)
    requires o.search(r.start, r.dir, SearchStart).0 == -1
    ensures Trace(o, lights, r, coef, bg) == TraceState(bg, [Ray(r.start, r.dir, 0, coef)], 1)
  {
    var st := TraceState(Black, [r.(level := 0, coef := coef)], 0);
    assert st.rays == [Ray(r.start, r.dir, 0, coef)];
    assert Shade(o, lights, bg, st) == TraceState(bg, st.rays, 1);
    assert Run(o, lights, bg, st) == Run(o, lights, bg, TraceState(bg, st.rays, 1));
  }

  /** A secondary ray that hits nothing changes neither the colour nor the queue. */
  lemma LaterMiss(o: Oracles, lights: seq<Light>, bg: Colour, st: TraceState)
    requires 0 < st.rayID < |st.rays| <= MaxNrays
    requires o.search(st.rays[st.rayID].start, st.rays[st.rayID].dir, SearchStart).0 == -1
    ensures Shade(o, lights, bg, st) == st.(rayID := st.rayID + 1)
  {
  }

  /** The rays queued for one hit: an emitter queues none; otherwise a reflector's child
      comes first, at the reflection-reduced coefficient, and a refractor's child comes
      last, at the parent's coefficient and only when kappa is positive. */
  lemma SurfaceChildren(o: Oracles, lights: seq<Light>, r: Ray, p: Vector, id: int, c: Colour, rays: seq<Ray>)
    requires |rays| <= MaxNrays
    ensures var res := Surface(o, lights, r, p, id, c, rays);
      var n := o.normal(p, id);
      var mat := o.material(p, id);
      var rdotn := Dot(r.dir, n);
      (mat.info.emitter ==> res.1 == rays)
      && (!mat.info.emitter && mat.info.reflector && Room(r, rays) ==>
            |res.1| > |rays| && res.1[|rays|].coef == r.coef * mat.reflection)
      && (forall m :: |rays| <= m < |res.1| ==>
            (m == |rays| && mat.info.reflector && res.1[m].coef == r.coef * mat.reflection)
            || (m == |res.1| - 1 && mat.info.refractor && res.1[m].coef == r.coef
                && (rdotn > 0.0 || mat.eta != 0.0) && Kappa(rdotn, mat.eta) > 0.0))
  {
    var n := o.normal(p, id);
    var mat := o.material(p, id);
    var rdotn := Dot(r.dir, n);
    if !mat.info.emitter {
      var mid := if mat.info.reflector then Reflected(o, lights, r, p, n, mat, c, rays).1 else rays;
      assert mat.info.reflector && Room(r, rays) ==> mid[|rays|].coef == r.coef * mat.reflection;
      assert |mid| <= |rays| + 1 && rays <= mid;
      var fin := if mat.info.refractor then Refracted(r, p, n, mat, mid) else mid;
      assert Surface(o, lights, r, p, id, c, rays).1 == fin;
      if |fin| > |mid| {
        var child := RefractRay(r, Add(p, Scale(-Offset(rdotn), n)), n, rdotn, mat.eta);
        assert child.Some? && fin == mid + [child.value];
      }
    }
  }
}
