/** The uniform grid's cell index in compressed-row form: a per-cell count of the shapes
    whose clamped index box covers the cell, an exclusive prefix sum of the counts
    (`boxStarts`), and a flat array (`boxContents`) holding, cell after cell, the ids of
    the covering shapes. */
module GridIndex {
  import opened Types
  import opened BoundingBoxes

  // ------------------------------------------------------------- cell ids

  /** Every axis of the grid has at least one cell. */
  predicate Dims(g: GridGeom) {
    g.NI >= 1 && g.NJ >= 1 && g.NK >= 1
  }

  /** The number of cells, NI * NJ * NK. */
  function Cells(g: GridGeom): int {
    g.NI * g.NJ * g.NK
  }

  predicate InGrid(g: GridGeom, i: int, j: int, k: int) {
    0 <= i < g.NI && 0 <= j < g.NJ && 0 <= k < g.NK
  }

  /** The flat id of cell (i, j, k): i runs fastest, then j, then k. */
  function Id(g: GridGeom, i: int, j: int, k: int): int {
    i + j * g.NI + k * g.NI * g.NJ
  }

  lemma MulMonotone(a: int, b: int, c: int)
    requires a <= b && c >= 0
    ensures a * c <= b * c
  {
    assert b * c - a * c == (b - a) * c;
  }

  /** The id of a cell of the grid is an index into an array of Cells(g) entries. */
  lemma IdRange(g: GridGeom, i: int, j: int, k: int)
    requires Dims(g) && InGrid(g, i, j, k)
    ensures 0 <= Id(g, i, j, k) < Cells(g)
  {
    var p := g.NI * g.NJ;
    assert k * g.NI * g.NJ == k * p;
    assert Cells(g) == g.NK * p;
    MulMonotone(0, j, g.NI);
    MulMonotone(j, g.NJ - 1, g.NI);
    assert (g.NJ - 1) * g.NI == p - g.NI;
    MulMonotone(0, k, p);
    MulMonotone(k, g.NK - 1, p);
    assert (g.NK - 1) * p == g.NK * p - p;
  }

  /** Mixed-radix digits are unique: i + n a determines i in [0, n) and a. */
  lemma Radix(i: int, a: int, i': int, a': int, n: int)
    requires 0 <= i < n && 0 <= i' < n
    requires i + n * a == i' + n * a'
    ensures i == i' && a == a'
  {
    assert n * (a - a') == i' - i;
    if a > a' {
      MulMonotone(1, a - a', n);
      assert false;
    } else if a < a' {
      MulMonotone(1, a' - a, n);
      assert false;
    }
  }

  /** Distinct cells of the grid have distinct ids. */
  lemma IdInjective(g: GridGeom, i: int, j: int, k: int, i': int, j': int, k': int)
    requires InGrid(g, i, j, k) && InGrid(g, i', j', k')
    requires Id(g, i, j, k) == Id(g, i', j', k')
    ensures i == i' && j == j' && k == k'
  {
    assert Id(g, i, j, k) == i + g.NI * (j + g.NJ * k);
    assert Id(g, i', j', k') == i' + g.NI * (j' + g.NJ * k');
    Radix(i, j + g.NJ * k, i', j' + g.NJ * k', g.NI);
    Radix(j, k, j', k', g.NJ);
  }

  // ------------------------------------------- the entries, in loop order

  /** One write of the count and scatter passes: shape `shape` covers cell `cell`. */
  datatype Entry = Entry(cell: int, shape: int)

  /** The cells of row (j, k) of box b with i in [imin, iEnd), in increasing i. */
  function Row(g: GridGeom, b: BBox, id: int, j: int, k: int, iEnd: int): seq<Entry>
    decreases iEnd - b.imin
  {
    if iEnd <= b.imin then []
    else Row(g, b, id, j, k, iEnd - 1) + [Entry(Id(g, iEnd - 1, j, k), id)]
  }

  /** The rows of plane k of box b with j in [jmin, jEnd), in increasing j. */
  function Plane(g: GridGeom, b: BBox, id: int, k: int, jEnd: int): seq<Entry>
    decreases jEnd - b.jmin
  {
    if jEnd <= b.jmin then []
    else Plane(g, b, id, k, jEnd - 1) + Row(g, b, id, jEnd - 1, k, b.imax + 1)
  }

  /** The planes of box b with k in [kmin, kEnd), in increasing k. */
  function Block(g: GridGeom, b: BBox, id: int, kEnd: int): seq<Entry>
    decreases kEnd - b.kmin
  {
    if kEnd <= b.kmin then []
    else Block(g, b, id, kEnd - 1) + Plane(g, b, id, kEnd - 1, b.jmax + 1)
  }

  /** Every cell of a shape's index box, k outermost and i innermost, tagged with its id. */
  function Visits(g: GridGeom, s: Shape): seq<Entry> {
    Block(g, s.bbox, s.id, s.bbox.kmax + 1)
  }

  /** The entries of all shapes, shape after shape. */
  function Entries(g: GridGeom, shapes: seq<Shape>): seq<Entry> {
    if |shapes| == 0 then []
    else Entries(g, shapes[..|shapes| - 1]) + Visits(g, shapes[|shapes| - 1])
  }

  /** The shape ids entered for cell c, in order. */
  function Members(es: seq<Entry>, c: int): seq<int> {
    if |es| == 0 then []
    else Members(es[..|es| - 1], c) + (if es[|es| - 1].cell == c then [es[|es| - 1].shape] else [])
  }

  lemma MembersSnoc(es: seq<Entry>, e: Entry, c: int)
    ensures Members(es + [e], c) == Members(es, c) + (if e.cell == c then [e.shape] else [])
  {
    assert (es + [e])[..|es + [e]| - 1] == es;
  }

  /** The members of a concatenation are the members of each part, in order. */
  lemma {:induction false} MembersAppend(a: seq<Entry>, b: seq<Entry>, c: int)
    ensures Members(a + b, c) == Members(a, c) + Members(b, c)
    decreases |b|
  {
    if |b| == 0 {
      assert a + b == a;
    } else {
      var b' := b[..|b| - 1];
      var e := b[|b| - 1];
      assert b == b' + [e];
      assert a + b == (a + b') + [e];
      MembersAppend(a, b', c);
      MembersSnoc(a + b', e, c);
      MembersSnoc(b', e, c);
    }
  }

  /** A prefix of the entries enters no more ids for any cell. */
  lemma MembersPrefix(a: seq<Entry>, b: seq<Entry>, c: int)
    requires a <= b
    ensures |Members(a, c)| <= |Members(b, c)|
  {
    assert b == a + b[|a|..];
    MembersAppend(a, b[|a|..], c);
  }

  // ------------------------------------------------------ prefix orders

  lemma PrefixAppend(x: seq<Entry>, a: seq<Entry>, b: seq<Entry>)
    requires a <= b
    ensures x + a <= x + b
  {
    assert x + b == (x + a) + b[|a|..];
  }

  lemma {:induction false} RowPrefix(g: GridGeom, b: BBox, id: int, j: int, k: int, iEnd: int, iEnd': int)
    requires iEnd <= iEnd'
    ensures Row(g, b, id, j, k, iEnd) <= Row(g, b, id, j, k, iEnd')
    decreases iEnd' - iEnd
  {
    if iEnd < iEnd' && iEnd' > b.imin {
      RowPrefix(g, b, id, j, k, iEnd, iEnd' - 1);
    }
  }

  lemma {:induction false} PlanePrefix(g: GridGeom, b: BBox, id: int, k: int, jEnd: int, jEnd': int)
    requires jEnd <= jEnd'
    ensures Plane(g, b, id, k, jEnd) <= Plane(g, b, id, k, jEnd')
    decreases jEnd' - jEnd
  {
    if jEnd < jEnd' && jEnd' > b.jmin {
      PlanePrefix(g, b, id, k, jEnd, jEnd' - 1);
    }
  }

  lemma {:induction false} BlockPrefix(g: GridGeom, b: BBox, id: int, kEnd: int, kEnd': int)
    requires kEnd <= kEnd'
    ensures Block(g, b, id, kEnd) <= Block(g, b, id, kEnd')
    decreases kEnd' - kEnd
  {
    if kEnd < kEnd' && kEnd' > b.kmin {
      BlockPrefix(g, b, id, kEnd, kEnd' - 1);
    }
  }

  /** The entries of the first n shapes are a prefix of the entries of all of them. */
  lemma {:induction false} EntriesPrefix(g: GridGeom, shapes: seq<Shape>, n: int)
    requires 0 <= n <= |shapes|
    ensures Entries(g, shapes[..n]) <= Entries(g, shapes)
    decreases |shapes| - n
  {
    if n < |shapes| {
      var m := |shapes|;
      assert shapes[..m] == shapes;
      EntriesPrefix(g, shapes[..m - 1], n);
      assert shapes[..m - 1][..n] == shapes[..n];
    } else {
      assert shapes[..n] == shapes;
    }
  }

  lemma EntriesSnoc(g: GridGeom, shapes: seq<Shape>, n: int)
    requires 0 <= n < |shapes|
    ensures Entries(g, shapes[..n + 1]) == Entries(g, shapes[..n]) + Visits(g, shapes[n])
  {
    assert shapes[..n + 1][..n] == shapes[..n];
  }

  // --------------------------------------------------------- prefix sum

  /** The sum of a sequence of counts. */
  function Sum(v: seq<int>): int {
    if |v| == 0 then 0 else Sum(v[..|v| - 1]) + v[|v| - 1]
  }

  lemma SumSnoc(v: seq<int>, n: int)
    requires 0 <= n < |v|
    ensures Sum(v[..n + 1]) == Sum(v[..n]) + v[n]
  {
    assert v[..n + 1][..n] == v[..n];
  }

  /** Over non-negative counts the running sums never decrease. */
  lemma {:induction false} SumMonotone(v: seq<int>, a: int, b: int)
    requires 0 <= a <= b <= |v|
    requires forall n :: 0 <= n < |v| ==> v[n] >= 0
    ensures Sum(v[..a]) <= Sum(v[..b])
    decreases b - a
  {
    if a < b {
      SumMonotone(v, a, b - 1);
      SumSnoc(v, b - 1);
    }
  }

  /** The exclusive prefix sum: scanv[n] is the sum of v[0..n) for n in [0, N], and the
      total of all N counts is returned. Entries of scanv past N are left alone. */
  method Scan(N: int, v: array<int>, scanv: array<int>) returns (total: int)
    requires 0 <= N <= v.Length && N < scanv.Length
    requires v != scanv
    modifies scanv
    ensures forall n :: 0 <= n <= N ==> scanv[n] == Sum(v[..n])
    ensures total == Sum(v[..N])
    ensures forall n :: N < n < scanv.Length ==> scanv[n] == old(scanv[n])
  {
    scanv[0] := 0;
    var n := 0;
    while n < N
      invariant 0 <= n <= N
      invariant forall m :: 0 <= m <= n ==> scanv[m] == Sum(v[..m])
      invariant forall m :: N < m < scanv.Length ==> scanv[m] == old(scanv[m])
    {
      SumSnoc(v[..], n);
      assert v[..][..n + 1] == v[..n + 1] && v[..][..n] == v[..n];
      scanv[n + 1] := v[n] + scanv[n];
      n := n + 1;
    }
    total := scanv[N];
  }

  // ------------------------------------------------------- count pass

  /** A shape with its box recomputed and its cell range clamped to the grid. */
  function Reboxed(g: GridGeom, s: Shape): (s': Shape)
    ensures s'.id == s.id && s'.geom == s.geom && s'.material == s.material
  {
    s.(bbox := BoundingBoxShape(g, s))
  }

  function Rebox(g: GridGeom, shapes: seq<Shape>): (r: seq<Shape>)
    ensures |r| == |shapes|
    ensures forall n :: 0 <= n < |shapes| ==> r[n] == Reboxed(g, shapes[n])
  {
    seq(|shapes|, n requires 0 <= n < |shapes| => Reboxed(g, shapes[n]))
  }

  /** Recomputing the boxes twice gives the boxes of recomputing them once. */
  lemma ReboxedIdempotent(g: GridGeom, s: Shape)
    ensures Reboxed(g, Reboxed(g, s)) == Reboxed(g, s)
  {
  }

  lemma ReboxIdempotent(g: GridGeom, shapes: seq<Shape>)
    ensures Rebox(g, Rebox(g, shapes)) == Rebox(g, shapes)
  {
    forall n | 0 <= n < |shapes|
      ensures Rebox(g, Rebox(g, shapes))[n] == Rebox(g, shapes)[n]
    {
      ReboxedIdempotent(g, shapes[n]);
    }
  }

  /** A cell range inside the grid on every axis. */
  predicate Clamped(g: GridGeom, b: BBox) {
    0 <= b.imin && b.imax < g.NI && 0 <= b.jmin && b.jmax < g.NJ && 0 <= b.kmin && b.kmax < g.NK
  }

  lemma ReboxedClamped(g: GridGeom, s: Shape)
    requires Dims(g)
    ensures Clamped(g, Reboxed(g, s).bbox)
  {
  }

  /** counts holds base plus, per cell, the number of ids entered for it. */
  predicate Counted(counts: seq<int>, base: seq<int>, es: seq<Entry>) {
    |counts| == |base| && forall c :: 0 <= c < |counts| ==> counts[c] == base[c] + |Members(es, c)|
  }

  lemma CountStep(counts: seq<int>, base: seq<int>, es: seq<Entry>, e: Entry)
    requires Counted(counts, base, es) && 0 <= e.cell < |counts|
    ensures Counted(counts[e.cell := counts[e.cell] + 1], base, es + [e])
  {
    forall c | 0 <= c < |counts| {
      MembersSnoc(es, e, c);
    }
  }

  /** The count pass: every shape's box is recomputed and clamped to the grid, then each
      cell of its index box is counted once. Counts start from whatever the array holds. */
  method CountShapesInCells(g: GridGeom, shapes: array<Shape>, counts: array<int>)
    requires Dims(g) && Cells(g) <= counts.Length
    modifies shapes, counts
    ensures shapes[..] == Rebox(g, old(shapes[..]))
    ensures forall c :: 0 <= c < counts.Length ==> counts[c] == old(counts[c]) + |Members(Entries(g, shapes[..]), c)|
  {
    ghost var base := counts[..];
    var n := 0;
    while n < shapes.Length
      invariant 0 <= n <= shapes.Length
      invariant forall m :: 0 <= m < n ==> shapes[m] == Reboxed(g, old(shapes[m]))
      invariant forall m :: n <= m < shapes.Length ==> shapes[m] == old(shapes[m])
      invariant Counted(counts[..], base, Entries(g, shapes[..n]))
    {
      ghost var before := shapes[..n];
      shapes[n] := Reboxed(g, shapes[n]);
      assert shapes[..n] == before;
      ReboxedClamped(g, old(shapes[n]));
      CountBox(g, shapes[n].bbox, shapes[n].id, counts, base, Entries(g, shapes[..n]));
      EntriesSnoc(g, shapes[..], n);
      assert shapes[..][..n] == shapes[..n] && shapes[..][..n + 1] == shapes[..n + 1];
      n := n + 1;
    }
    assert shapes[..n] == shapes[..];
    assert shapes[..] == Rebox(g, old(shapes[..]));
  }

  /** The count pass over one shape's clamped index box, plane by plane. */
  method CountBox(g: GridGeom, b: BBox, id: int, counts: array<int>, ghost base: seq<int>, ghost done: seq<Entry>)
    requires Dims(g) && Clamped(g, b) && Cells(g) <= counts.Length
    requires Counted(counts[..], base, done)
    modifies counts
    ensures Counted(counts[..], base, done + Block(g, b, id, b.kmax + 1))
  {
    var k := b.kmin;
    ghost var es := done;
    assert done + Block(g, b, id, k) == done;
    while k <= b.kmax
      invariant k == b.kmin || b.kmin <= k <= b.kmax + 1
      invariant es == done + Block(g, b, id, k)
      invariant Counted(counts[..], base, es)
    {
      CountPlane(g, b, id, k, counts, base, es);
      es := es + Plane(g, b, id, k, b.jmax + 1);
      k := k + 1;
    }
    assert Block(g, b, id, k) == Block(g, b, id, b.kmax + 1);
  }

  /** The count pass over plane k of a clamped index box, row by row. */
  method CountPlane(g: GridGeom, b: BBox, id: int, k: int, counts: array<int>, ghost base: seq<int>, ghost done: seq<Entry>)
    requires Dims(g) && Clamped(g, b) && 0 <= k < g.NK && Cells(g) <= counts.Length
    requires Counted(counts[..], base, done)
    modifies counts
    ensures Counted(counts[..], base, done + Plane(g, b, id, k, b.jmax + 1))
  {
    var j := b.jmin;
    ghost var es := done;
    assert done + Plane(g, b, id, k, j) == done;
    while j <= b.jmax
      invariant j == b.jmin || b.jmin <= j <= b.jmax + 1
      invariant es == done + Plane(g, b, id, k, j)
      invariant Counted(counts[..], base, es)
    {
      CountRow(g, b, id, j, k, counts, base, es);
      es := es + Row(g, b, id, j, k, b.imax + 1);
      j := j + 1;
    }
    assert Plane(g, b, id, k, j) == Plane(g, b, id, k, b.jmax + 1);
  }

  /** The innermost loop of the count pass: row (j, k) of a clamped index box. */
  method CountRow(g: GridGeom, b: BBox, id: int, j: int, k: int, counts: array<int>, ghost base: seq<int>, ghost done: seq<Entry>)
    requires Dims(g) && Clamped(g, b) && 0 <= j < g.NJ && 0 <= k < g.NK && Cells(g) <= counts.Length
    requires Counted(counts[..], base, done)
    modifies counts
    ensures Counted(counts[..], base, done + Row(g, b, id, j, k, b.imax + 1))
  {
    var i := b.imin;
    ghost var es := done;
    assert done + Row(g, b, id, j, k, i) == done;
    while i <= b.imax
      invariant i == b.imin || b.imin <= i <= b.imax + 1
      invariant es == done + Row(g, b, id, j, k, i)
      invariant Counted(counts[..], base, es)
    {
      var c := i + j * g.NI + k * g.NI * g.NJ;
      IdRange(g, i, j, k);
      CountStep(counts[..], base, es, Entry(c, id));
      counts[c] := counts[c] + 1;
      es := es + [Entry(c, id)];
      i := i + 1;
    }
    assert Row(g, b, id, j, k, i) == Row(g, b, id, j, k, b.imax + 1);
  }

  // ----------------------------------------------------- scatter pass

  /** Non-decreasing starts. */
  predicate Sorted(starts: seq<int>) {
    forall a, b :: 0 <= a <= b < |starts| ==> starts[a] <= starts[b]
  }

  /** The scatter's state after entries es: the cursor of each cell c has moved past the
      ids entered for c, which sit in order from starts[c], and never beyond starts[c + 1]. */
  predicate Scattered(N: int, starts: seq<int>, cursor: seq<int>, contents: seq<int>, es: seq<Entry>) {
    0 <= N && |starts| == N + 1 && |cursor| == N + 1 && cursor[N] == starts[N] && starts[N] <= |contents|
    && forall c :: 0 <= c < N ==>
         0 <= starts[c] <= cursor[c] <= starts[c + 1] && cursor[c] <= |contents|
         && cursor[c] == starts[c] + |Members(es, c)| && contents[starts[c]..cursor[c]] == Members(es, c)
  }

  /** Cell c's slice of starts has room for exactly the entries of all in cell c. */
  predicate Sized(N: int, starts: seq<int>, all: seq<Entry>) {
    |starts| == N + 1 && forall c :: 0 <= c < N ==> starts[c + 1] - starts[c] == |Members(all, c)|
  }

  /** The state the scatter loops keep: the grid's dimensions, sorted starts sized for all,
      and the cursors and contents scattered for the entries es. */
  ghost predicate Scattering(g: GridGeom, starts: seq<int>, cursor: array<int>, contents: array<int>,
                             es: seq<Entry>, all: seq<Entry>)
    reads cursor, contents
  {
    Dims(g) && Sorted(starts) && cursor != contents && Sized(Cells(g), starts, all)
    && Scattered(Cells(g), starts, cursor[..], contents[..], es)
  }

  /** One more plane of the block: the entries so far plus plane k are the entries
      before plane k + 1, still a prefix of all. */
  lemma BlockStep(g: GridGeom, b: BBox, id: int, k: int, done: seq<Entry>, all: seq<Entry>)
    requires b.kmin <= k <= b.kmax && done + Block(g, b, id, b.kmax + 1) <= all
    ensures done + Block(g, b, id, k) + Plane(g, b, id, k, b.jmax + 1) == done + Block(g, b, id, k + 1)
    ensures done + Block(g, b, id, k + 1) <= all
  {
    BlockPrefix(g, b, id, k + 1, b.kmax + 1);
    PrefixAppend(done, Block(g, b, id, k + 1), Block(g, b, id, b.kmax + 1));
    assert Block(g, b, id, k + 1) == Block(g, b, id, k) + Plane(g, b, id, k, b.jmax + 1);
  }

  lemma PlaneStep(g: GridGeom, b: BBox, id: int, k: int, j: int, done: seq<Entry>, all: seq<Entry>)
    requires b.jmin <= j <= b.jmax && done + Plane(g, b, id, k, b.jmax + 1) <= all
    ensures done + Plane(g, b, id, k, j) + Row(g, b, id, j, k, b.imax + 1) == done + Plane(g, b, id, k, j + 1)
    ensures done + Plane(g, b, id, k, j + 1) <= all
  {
    PlanePrefix(g, b, id, k, j + 1, b.jmax + 1);
    PrefixAppend(done, Plane(g, b, id, k, j + 1), Plane(g, b, id, k, b.jmax + 1));
  }

  lemma RowStep(g: GridGeom, b: BBox, id: int, j: int, k: int, i: int, done: seq<Entry>, all: seq<Entry>)
    requires b.imin <= i <= b.imax && done + Row(g, b, id, j, k, b.imax + 1) <= all
    ensures done + Row(g, b, id, j, k, i) + [Entry(Id(g, i, j, k), id)] == done + Row(g, b, id, j, k, i + 1)
    ensures done + Row(g, b, id, j, k, i + 1) <= all
  {
    RowPrefix(g, b, id, j, k, i + 1, b.imax + 1);
    PrefixAppend(done, Row(g, b, id, j, k, i + 1), Row(g, b, id, j, k, b.imax + 1));
  }

  lemma PrefixTrans(a: seq<Entry>, b: seq<Entry>, c: seq<Entry>)
    requires a <= b && b <= c
    ensures a <= c
  {
  }

  lemma SliceUpdateOutside(contents: seq<int>, a: int, b: int, w: int, v: int)
    requires 0 <= a <= b <= |contents| && 0 <= w < |contents| && (w < a || b <= w)
    ensures contents[w := v][a..b] == contents[a..b]
  {
  }

  lemma SliceUpdateEnd(contents: seq<int>, a: int, w: int, v: int)
    requires 0 <= a <= w < |contents|
    ensures contents[w := v][a..w + 1] == contents[a..w] + [v]
  {
  }

  /** One write of the scatter keeps every other cell's ids in place and appends the new
      id to its own cell, inside that cell's slice. */
  lemma ScatterStep(N: int, starts: seq<int>, cursor: seq<int>, contents: seq<int>, es: seq<Entry>, e: Entry, all: seq<Entry>)
    requires Scattered(N, starts, cursor, contents, es) && Sorted(starts)
    requires 0 <= e.cell < N && es + [e] <= all
    requires Sized(N, starts, all)
    ensures cursor[e.cell] < starts[e.cell + 1] <= |contents|
    ensures Scattered(N, starts, cursor[e.cell := cursor[e.cell] + 1], contents[cursor[e.cell] := e.shape], es + [e])
  {
    var c0, w := e.cell, cursor[e.cell];
    MembersPrefix(es + [e], all, c0);
    MembersSnoc(es, e, c0);
    assert w < starts[c0 + 1];
    var cursor', contents' := cursor[c0 := w + 1], contents[w := e.shape];
    forall c | 0 <= c < N
      ensures 0 <= starts[c] <= cursor'[c] <= starts[c + 1] && cursor'[c] <= |contents'|
      ensures cursor'[c] == starts[c] + |Members(es + [e], c)|
      ensures contents'[starts[c]..cursor'[c]] == Members(es + [e], c)
    {
      ScatterCell(N, starts, cursor, contents, es, e, c);
    }
  }

  /** What the write of entry e at its cell's cursor does to cell c's slice, given room in
      e's cell for one more id. */
  lemma ScatterCell(N: int, starts: seq<int>, cursor: seq<int>, contents: seq<int>, es: seq<Entry>, e: Entry, c: int)
    requires Scattered(N, starts, cursor, contents, es) && Sorted(starts)
    requires 0 <= e.cell < N && cursor[e.cell] < starts[e.cell + 1] && 0 <= c < N
    ensures var cursor', contents' := cursor[e.cell := cursor[e.cell] + 1], contents[cursor[e.cell] := e.shape];
            0 <= starts[c] <= cursor'[c] <= starts[c + 1] && cursor'[c] <= |contents'|
            && cursor'[c] == starts[c] + |Members(es + [e], c)|
            && contents'[starts[c]..cursor'[c]] == Members(es + [e], c)
  {
    var c0, w := e.cell, cursor[e.cell];
    MembersSnoc(es, e, c);
    if c == c0 {
      SliceUpdateEnd(contents, starts[c], w, e.shape);
    } else if c < c0 {
      assert starts[c + 1] <= starts[c0];
      SliceUpdateOutside(contents, starts[c], cursor[c], w, e.shape);
    } else {
      assert starts[c0 + 1] <= starts[c];
      SliceUpdateOutside(contents, starts[c], cursor[c], w, e.shape);
    }
  }

  /** The scatter pass: each shape's id is written once into every cell of its index box,
      at that cell's cursor, which then moves on. Starting from cursors equal to the
      starts, the pass ends with every cursor at the next cell's start and the ids of each
      cell, in shape order, filling exactly its slice [starts[c], starts[c + 1]). */
  method AddShapesInCells(g: GridGeom, shapes: seq<Shape>, cursor: array<int>, contents: array<int>, ghost starts: seq<int>)
    requires Dims(g) && forall n :: 0 <= n < |shapes| ==> Clamped(g, shapes[n].bbox)
    requires |starts| == Cells(g) + 1 && cursor[..] == starts && Sorted(starts) && 0 <= starts[0]
    requires starts[Cells(g)] <= contents.Length
    requires forall c :: 0 <= c < Cells(g) ==> starts[c + 1] - starts[c] == |Members(Entries(g, shapes), c)|
    requires cursor != contents
    modifies cursor, contents
    ensures cursor[Cells(g)] == starts[Cells(g)]
    ensures forall c :: 0 <= c < Cells(g) ==>
              cursor[c] == starts[c + 1] && contents[starts[c]..starts[c + 1]] == Members(Entries(g, shapes), c)
  {
    ghost var all := Entries(g, shapes);
    var n := 0;
    assert Scattered(Cells(g), starts, cursor[..], contents[..], Entries(g, shapes[..0]));
    while n < |shapes|
      invariant 0 <= n <= |shapes|
      invariant Scattering(g, starts, cursor, contents, Entries(g, shapes[..n]), all)
    {
      AddShape(g, shapes, n, cursor, contents, starts, all);
      n := n + 1;
    }
    assert shapes[..n] == shapes;
    ScatterDone(Cells(g), starts, cursor[..], contents[..], all);
  }

  /** The scatter of shape n, after the shapes before it. */
  method AddShape(g: GridGeom, shapes: seq<Shape>, n: int, cursor: array<int>, contents: array<int>,
                  ghost starts: seq<int>, ghost all: seq<Entry>)
    requires 0 <= n < |shapes| && Clamped(g, shapes[n].bbox) && all == Entries(g, shapes)
    requires Scattering(g, starts, cursor, contents, Entries(g, shapes[..n]), all)
    modifies cursor, contents
    ensures Scattering(g, starts, cursor, contents, Entries(g, shapes[..n + 1]), all)
  {
    EntriesSnoc(g, shapes, n);
    EntriesPrefix(g, shapes, n + 1);
    AddBox(g, shapes[n].bbox, shapes[n].id, cursor, contents, starts, Entries(g, shapes[..n]), all);
  }

  /** Once every entry is scattered into slices sized for exactly those entries, each
      cursor has reached the next cell's start and each slice is full. */
  lemma ScatterDone(N: int, starts: seq<int>, cursor: seq<int>, contents: seq<int>, es: seq<Entry>)
    requires Scattered(N, starts, cursor, contents, es) && Sized(N, starts, es)
    ensures forall c :: 0 <= c < N ==>
              cursor[c] == starts[c + 1] && contents[starts[c]..starts[c + 1]] == Members(es, c)
  {
  }

  /** The scatter over one shape's clamped index box, plane by plane. */
  method AddBox(g: GridGeom, b: BBox, id: int, cursor: array<int>, contents: array<int>,
                ghost starts: seq<int>, ghost done: seq<Entry>, ghost all: seq<Entry>)
    requires Scattering(g, starts, cursor, contents, done, all) && Clamped(g, b)
    requires done + Block(g, b, id, b.kmax + 1) <= all
    modifies cursor, contents
    ensures Scattering(g, starts, cursor, contents, done + Block(g, b, id, b.kmax + 1), all)
  {
    var k := b.kmin;
    ghost var es := done;
    assert done + Block(g, b, id, k) == done;
    while k <= b.kmax
      invariant k == b.kmin || b.kmin <= k <= b.kmax + 1
      invariant es == done + Block(g, b, id, k)
      invariant Scattering(g, starts, cursor, contents, es, all)
    {
      BlockStep(g, b, id, k, done, all);
      AddPlane(g, b, id, k, cursor, contents, starts, es, all);
      es := es + Plane(g, b, id, k, b.jmax + 1);
      k := k + 1;
    }
    assert Block(g, b, id, k) == Block(g, b, id, b.kmax + 1);
  }

  /** The scatter over plane k of a clamped index box, row by row. */
  method AddPlane(g: GridGeom, b: BBox, id: int, k: int, cursor: array<int>, contents: array<int>,
                  ghost starts: seq<int>, ghost done: seq<Entry>, ghost all: seq<Entry>)
    requires Scattering(g, starts, cursor, contents, done, all) && Clamped(g, b) && 0 <= k < g.NK
    requires done + Plane(g, b, id, k, b.jmax + 1) <= all
    modifies cursor, contents
    ensures Scattering(g, starts, cursor, contents, done + Plane(g, b, id, k, b.jmax + 1), all)
  {
    var j := b.jmin;
    ghost var es := done;
    assert done + Plane(g, b, id, k, j) == done;
    while j <= b.jmax
      invariant j == b.jmin || b.jmin <= j <= b.jmax + 1
      invariant es == done + Plane(g, b, id, k, j)
      invariant Scattering(g, starts, cursor, contents, es, all)
    {
      PlaneStep(g, b, id, k, j, done, all);
      AddRow(g, b, id, j, k, cursor, contents, starts, es, all);
      es := es + Row(g, b, id, j, k, b.imax + 1);
      j := j + 1;
    }
    assert Plane(g, b, id, k, j) == Plane(g, b, id, k, b.jmax + 1);
  }

  /** The innermost loop of the scatter: row (j, k) of a clamped index box. */
  method AddRow(g: GridGeom, b: BBox, id: int, j: int, k: int, cursor: array<int>, contents: array<int>,
                ghost starts: seq<int>, ghost done: seq<Entry>, ghost all: seq<Entry>)
    requires Scattering(g, starts, cursor, contents, done, all) && Clamped(g, b) && 0 <= j < g.NJ && 0 <= k < g.NK
    requires done + Row(g, b, id, j, k, b.imax + 1) <= all
    modifies cursor, contents
    ensures Scattering(g, starts, cursor, contents, done + Row(g, b, id, j, k, b.imax + 1), all)
  {
    var i := b.imin;
    ghost var es := done;
    assert done + Row(g, b, id, j, k, i) == done;
    while i <= b.imax
      invariant i == b.imin || b.imin <= i <= b.imax + 1
      invariant es == done + Row(g, b, id, j, k, i)
      invariant Scattering(g, starts, cursor, contents, es, all)
    {
      var c := i + j * g.NI + k * g.NI * g.NJ;
      IdRange(g, i, j, k);
      RowStep(g, b, id, j, k, i, done, all);
      assert Id(g, i, j, k) == c;
      Place(c, id, cursor, contents, Cells(g), starts, es, all);
      es := es + [Entry(c, id)];
      i := i + 1;
    }
    assert Row(g, b, id, j, k, i) == Row(g, b, id, j, k, b.imax + 1);
  }

  /** One write of the scatter: the id goes to its cell's cursor, which moves on by one. */
  method Place(c: int, id: int, cursor: array<int>, contents: array<int>,
               ghost N: int, ghost starts: seq<int>, ghost es: seq<Entry>, ghost all: seq<Entry>)
    requires cursor != contents && Sorted(starts)
    requires Scattered(N, starts, cursor[..], contents[..], es)
    requires 0 <= c < N && es + [Entry(c, id)] <= all
    requires Sized(N, starts, all)
    modifies cursor, contents
    ensures Scattered(N, starts, cursor[..], contents[..], es + [Entry(c, id)])
  {
    ghost var cs, ct := cursor[..], contents[..];
    ScatterStep(N, starts, cs, ct, es, Entry(c, id), all);
    var w := cursor[c];
    contents[w] := id;
    cursor[c] := w + 1;
    assert contents[..] == ct[w := id] && cursor[..] == cs[c := w + 1];
  }

  // ----------------------------------------------- the populated index

  /** boxStarts and boxContents in compressed-row form for the entries es: the starts
      begin at 0, never decrease and end at the length of the contents, and the slice of
      cell c holds the ids entered for c, in order. */
  predicate Csr(N: int, starts: seq<int>, contents: seq<int>, es: seq<Entry>) {
    0 <= N && |starts| == N + 1 && starts[0] == 0 && starts[N] == |contents| && Sorted(starts)
    && forall c :: 0 <= c < N ==> contents[starts[c]..starts[c + 1]] == Members(es, c)
  }

  /** The grid: its geometry, the box of every cell, and the cell index over the shapes. */
  class Grid {
    const geom: GridGeom
    const bboxes: array<BBox>
    var boxStarts: array<int>
    var boxContents: array<int>

    /** A grid with no index yet; both index arrays are empty. */
    constructor (geom: GridGeom, bboxes: array<BBox>)
      ensures this.geom == geom && this.bboxes == bboxes
      ensures boxStarts.Length == 0 && boxContents.Length == 0
    {
      this.geom := geom;
      this.bboxes := bboxes;
      boxStarts := new int[0];
      boxContents := new int[0];
    }

    /** Rebuilds the index from scratch: count the shapes per cell (recomputing every
        shape's box), scan the counts into the starts, copy the starts into cursors, and
        scatter the ids into contents as long as the scan total. */
    method Populate(shapes: array<Shape>)
      requires Dims(geom)
      modifies this, shapes
      ensures shapes[..] == Rebox(geom, old(shapes[..]))
      ensures fresh(boxStarts) && fresh(boxContents)
      ensures Csr(Cells(geom), boxStarts[..], boxContents[..], Entries(geom, shapes[..]))
    {
      var starts, contents := BuildIndex(geom, shapes);
      boxStarts := starts;
      boxContents := contents;
    }
  }

  /** The body of the rebuild, on fresh arrays. */
  method BuildIndex(g: GridGeom, shapes: array<Shape>) returns (starts: array<int>, contents: array<int>)
    requires Dims(g)
    modifies shapes
    ensures shapes[..] == Rebox(g, old(shapes[..]))
    ensures fresh(starts) && fresh(contents)
    ensures Csr(Cells(g), starts[..], contents[..], Entries(g, shapes[..]))
  {
    var total;
    starts, total := CountAndScan(g, shapes);
    var N := starts.Length - 1;
    var boxed := shapes[..];
    ghost var ss := starts[..];
    var cursor := new int[N + 1](_ => 0);
    forall c | 0 <= c < N + 1 {
      cursor[c] := starts[c];
    }
    assert cursor[..] == ss;
    contents := new int[total](_ => 0);
    forall n | 0 <= n < |boxed|
      ensures Clamped(g, boxed[n].bbox)
    {
      ReboxedClamped(g, old(shapes[n]));
    }
    AddShapesInCells(g, boxed, cursor, contents, ss);
    assert starts[..] == ss && shapes[..] == boxed;
  }

  /** The first half of the rebuild: the count pass into a zeroed array, then its scan. */
  method CountAndScan(g: GridGeom, shapes: array<Shape>) returns (starts: array<int>, total: int)
    requires Dims(g)
    modifies shapes
    ensures shapes[..] == Rebox(g, old(shapes[..]))
    ensures fresh(starts) && starts.Length == Cells(g) + 1 && starts[0] == 0 && Sorted(starts[..])
    ensures total == starts[Cells(g)]
    ensures forall c :: 0 <= c < Cells(g) ==> starts[c + 1] - starts[c] == |Members(Entries(g, shapes[..]), c)|
  {
    var N := g.NI * g.NJ * g.NK;
    assert N >= 0 by { MulMonotone(0, g.NI, g.NJ); MulMonotone(0, g.NI * g.NJ, g.NK); }
    var counts := new int[N + 1](_ => 0);
    CountShapesInCells(g, shapes, counts);
    ghost var es := Entries(g, shapes[..]);
    ghost var cs := counts[..];
    assert forall c :: 0 <= c < N + 1 ==> cs[c] == |Members(es, c)|;
    starts := new int[N + 1](_ => 0);
    total := Scan(N, counts, starts);
    assert counts[..] == cs;
    StartsLayout(N, cs, starts[..], es);
  }

  /** The scan of the per-cell counts lays out one slice per cell, as long as its count. */
  lemma StartsLayout(N: int, counts: seq<int>, starts: seq<int>, es: seq<Entry>)
    requires 0 <= N < |counts| && |starts| == N + 1
    requires forall c :: 0 <= c < N + 1 ==> counts[c] == |Members(es, c)|
    requires forall n :: 0 <= n <= N ==> starts[n] == Sum(counts[..n])
    ensures starts[0] == 0 && Sorted(starts)
    ensures forall c :: 0 <= c < N ==> starts[c + 1] - starts[c] == |Members(es, c)|
  {
    assert counts[..0] == [];
    forall a, b | 0 <= a <= b < |starts|
      ensures starts[a] <= starts[b]
    {
      SumMonotone(counts[..N], a, b);
      assert counts[..N][..a] == counts[..a] && counts[..N][..b] == counts[..b];
    }
    forall c | 0 <= c < N
      ensures starts[c + 1] - starts[c] == |Members(es, c)|
    {
      SumSnoc(counts, c);
    }
  }

  /** The cell whose slice holds position p. */
  lemma {:induction false} Locate(N: int, starts: seq<int>, p: int) returns (c: int)
    requires 0 <= N && |starts| == N + 1 && starts[0] <= p < starts[N]
    ensures 0 <= c < N && starts[c] <= p < starts[c + 1]
    decreases N
  {
    if p < starts[N - 1] {
      c := Locate(N - 1, starts[..N], p);
    } else {
      c := N - 1;
    }
  }

  lemma {:induction false} StartsUnique(N: int, s1: seq<int>, c1: seq<int>, s2: seq<int>, c2: seq<int>, es: seq<Entry>, n: int)
    requires Csr(N, s1, c1, es) && Csr(N, s2, c2, es) && 0 <= n <= N
    ensures s1[n] == s2[n]
  {
    if n > 0 {
      StartsUnique(N, s1, c1, s2, c2, es, n - 1);
      assert |c1[s1[n - 1]..s1[n]]| == |Members(es, n - 1)| == |c2[s2[n - 1]..s2[n]]|;
    }
  }

  /** The compressed-row form of a list of entries is unique: any two are equal. */
  lemma CsrUnique(N: int, s1: seq<int>, c1: seq<int>, s2: seq<int>, c2: seq<int>, es: seq<Entry>)
    requires Csr(N, s1, c1, es) && Csr(N, s2, c2, es)
    ensures s1 == s2 && c1 == c2
  {
    forall n | 0 <= n <= N
      ensures s1[n] == s2[n]
    {
      StartsUnique(N, s1, c1, s2, c2, es, n);
    }
    assert s1 == s2;
    forall p | 0 <= p < |c1|
      ensures c1[p] == c2[p]
    {
      var c := Locate(N, s1, p);
      assert c1[p] == c1[s1[c]..s1[c + 1]][p - s1[c]];
      assert c2[p] == c2[s1[c]..s1[c + 1]][p - s1[c]];
    }
  }

  /** Rebuilding the index over the shapes the first rebuild left behind gives identical
      arrays: the boxes it recomputes are the ones already there. */
  lemma RebuildIdempotent(g: GridGeom, shapes: seq<Shape>, s1: seq<int>, c1: seq<int>, s2: seq<int>, c2: seq<int>)
    requires Csr(Cells(g), s1, c1, Entries(g, Rebox(g, shapes)))
    requires Csr(Cells(g), s2, c2, Entries(g, Rebox(g, Rebox(g, shapes))))
    ensures s1 == s2 && c1 == c2
  {
    ReboxIdempotent(g, shapes);
    CsrUnique(Cells(g), s1, c1, s2, c2, Entries(g, Rebox(g, shapes)));
  }

  // ------------------------------------------------- cell membership

  /** Box b's index range contains cell (i, j, k). */
  predicate Covers(b: BBox, i: int, j: int, k: int) {
    b.imin <= i <= b.imax && b.jmin <= j <= b.jmax && b.kmin <= k <= b.kmax
  }

  /** The ids of the shapes whose index box contains cell (i, j, k), in shape order. */
  function Covering(shapes: seq<Shape>, i: int, j: int, k: int): seq<int> {
    if |shapes| == 0 then []
    else Covering(shapes[..|shapes| - 1], i, j, k)
         + (if Covers(shapes[|shapes| - 1].bbox, i, j, k) then [shapes[|shapes| - 1].id] else [])
  }

  lemma {:induction false} MembersRow(g: GridGeom, b: BBox, id: int, j': int, k': int, iEnd: int, i: int, j: int, k: int)
    requires InGrid(g, i, j, k) && 0 <= j' < g.NJ && 0 <= k' < g.NK && 0 <= b.imin && iEnd <= g.NI
    ensures Members(Row(g, b, id, j', k', iEnd), Id(g, i, j, k))
            == if j' == j && k' == k && b.imin <= i < iEnd then [id] else []
    decreases iEnd - b.imin
  {
    if iEnd > b.imin {
      MembersRow(g, b, id, j', k', iEnd - 1, i, j, k);
      MembersSnoc(Row(g, b, id, j', k', iEnd - 1), Entry(Id(g, iEnd - 1, j', k'), id), Id(g, i, j, k));
      if Id(g, iEnd - 1, j', k') == Id(g, i, j, k) {
        IdInjective(g, iEnd - 1, j', k', i, j, k);
      }
    }
  }

  lemma {:induction false} MembersPlane(g: GridGeom, b: BBox, id: int, k': int, jEnd: int, i: int, j: int, k: int)
    requires InGrid(g, i, j, k) && Clamped(g, b) && 0 <= k' < g.NK && jEnd <= g.NJ
    ensures Members(Plane(g, b, id, k', jEnd), Id(g, i, j, k))
            == if k' == k && b.jmin <= j < jEnd && b.imin <= i <= b.imax then [id] else []
    decreases jEnd - b.jmin, 1
  {
    if jEnd > b.jmin {
      MembersPlaneStep(g, b, id, k', jEnd, i, j, k);
    } else {
      assert Plane(g, b, id, k', jEnd) == [];
    }
  }

  /** The step of MembersPlane: row jEnd - 1 lists the id for the cell exactly when the
      cell lies in that row of plane k', and the rows before it when it lies in one of theirs. */
  lemma {:induction false} MembersPlaneStep(g: GridGeom, b: BBox, id: int, k': int, jEnd: int, i: int, j: int, k: int)
    requires InGrid(g, i, j, k) && Clamped(g, b) && 0 <= k' < g.NK && b.jmin < jEnd <= g.NJ
    ensures Members(Plane(g, b, id, k', jEnd), Id(g, i, j, k))
            == if k' == k && b.jmin <= j < jEnd && b.imin <= i <= b.imax then [id] else []
    decreases jEnd - b.jmin, 0
  {
    MembersPlane(g, b, id, k', jEnd - 1, i, j, k);
    MembersRow(g, b, id, jEnd - 1, k', b.imax + 1, i, j, k);
    MembersJoin(Plane(g, b, id, k', jEnd - 1), Row(g, b, id, jEnd - 1, k', b.imax + 1), Id(g, i, j, k), id,
                k' == k && b.jmin <= j < jEnd - 1 && b.imin <= i <= b.imax,
                jEnd - 1 == j && k' == k && b.imin <= i < b.imax + 1);
  }

  lemma {:induction false} MembersBlock(g: GridGeom, b: BBox, id: int, kEnd: int, i: int, j: int, k: int)
    requires InGrid(g, i, j, k) && Clamped(g, b) && kEnd <= g.NK
    ensures Members(Block(g, b, id, kEnd), Id(g, i, j, k))
            == if b.kmin <= k < kEnd && b.jmin <= j <= b.jmax && b.imin <= i <= b.imax then [id] else []
    decreases kEnd - b.kmin, 1
  {
    if kEnd > b.kmin {
      MembersBlockStep(g, b, id, kEnd, i, j, k);
    } else {
      assert Block(g, b, id, kEnd) == [];
    }
  }

  /** The step of MembersBlock: plane kEnd - 1 lists the id for the cell exactly when
      the cell lies in that plane of the box, and the planes before it when it lies in one
      of theirs. */
  lemma {:induction false} MembersBlockStep(g: GridGeom, b: BBox, id: int, kEnd: int, i: int, j: int, k: int)
    requires InGrid(g, i, j, k) && Clamped(g, b) && b.kmin < kEnd <= g.NK
    ensures Members(Block(g, b, id, kEnd), Id(g, i, j, k))
            == if b.kmin <= k < kEnd && b.jmin <= j <= b.jmax && b.imin <= i <= b.imax then [id] else []
    decreases kEnd - b.kmin, 0
  {
    var before, last, c := Block(g, b, id, kEnd - 1), Plane(g, b, id, kEnd - 1, b.jmax + 1), Id(g, i, j, k);
    var early := b.kmin <= k < kEnd - 1 && b.jmin <= j <= b.jmax && b.imin <= i <= b.imax;
    var now := kEnd - 1 == k && b.jmin <= j < b.jmax + 1 && b.imin <= i <= b.imax;
    assert Members(before, c) == (if early then [id] else []) by {
      MembersBlock(g, b, id, kEnd - 1, i, j, k);
    }
    assert Members(last, c) == (if now then [id] else []) by {
      MembersPlane(g, b, id, kEnd - 1, b.jmax + 1, i, j, k);
    }
    MembersJoin(before, last, c, id, early, now);
  }

  /** Two runs of entries that each list id at most once for cell c, not both, list it
      once together exactly when one of them does. */
  lemma MembersJoin(before: seq<Entry>, last: seq<Entry>, c: int, id: int, early: bool, now: bool)
    requires Members(before, c) == (if early then [id] else [])
    requires Members(last, c) == (if now then [id] else [])
    requires !(early && now)
    ensures Members(before + last, c) == if early || now then [id] else []
  {
    MembersAppend(before, last, c);
  }

  /** The ids entered for a cell of the grid are exactly the ids of the shapes whose
      clamped index box contains it, in shape order, each once. */
  lemma {:induction false} CellMembers(g: GridGeom, shapes: seq<Shape>, i: int, j: int, k: int)
    requires InGrid(g, i, j, k) && forall n :: 0 <= n < |shapes| ==> Clamped(g, shapes[n].bbox)
    ensures Members(Entries(g, shapes), Id(g, i, j, k)) == Covering(shapes, i, j, k)
    decreases |shapes|
  {
    if |shapes| > 0 {
      var last := shapes[|shapes| - 1];
      CellMembers(g, shapes[..|shapes| - 1], i, j, k);
      MembersBlock(g, last.bbox, last.id, last.bbox.kmax + 1, i, j, k);
      MembersAppend(Entries(g, shapes[..|shapes| - 1]), Visits(g, last), Id(g, i, j, k));
    }
  }
}
