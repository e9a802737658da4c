/** Vector algebra, clamps, the square root and the quadratic solver of the
    ray tracer, over exact reals in place of floating point. */
module Utils {
  import opened Types

  function Sub(v1: Vector, v2: Vector): (r: Vector)
    ensures Add(r, v2) == v1
  {
    Vector(v1.x - v2.x, v1.y - v2.y, v1.z - v2.z)
  }

  function Add(v1: Vector, v2: Vector): Vector {
    Vector(v1.x + v2.x, v1.y + v2.y, v1.z + v2.z)
  }

  function Dot(v1: Vector, v2: Vector): real {
    v1.x * v2.x + v1.y * v2.y + v1.z * v2.z
  }

  function Scale(c: real, v: Vector): (r: Vector)
    ensures c == 0.0 ==> r == Zero
    ensures c == 1.0 ==> r == v
  {
    Vector(v.x * c, v.y * c, v.z * c)
  }

  /** The cross product is orthogonal to both of its arguments. */
  function Cross(v1: Vector, v2: Vector): (r: Vector)
    ensures Dot(r, v1) == 0.0 && Dot(r, v2) == 0.0
  {
    Vector(v1.y * v2.z - v1.z * v2.y,
           v1.z * v2.x - v1.x * v2.z,
           v1.x * v2.y - v1.y * v2.x)
  }

  /** (a x b).c, which vanishes when c is a or b. */
  function TripleProduct(a: Vector, b: Vector, c: Vector): (r: real)
    ensures c == a || c == b ==> r == 0.0
  {
    Dot(Cross(a, b), c)
  }

  lemma TripleExpand(a: Vector, b: Vector, c: Vector)
    ensures TripleProduct(a, b, c)
         == (a.y * b.z - a.z * b.y) * c.x + (a.z * b.x - a.x * b.z) * c.y + (a.x * b.y - a.y * b.x) * c.z
  {
  }

  /** The triple product is invariant under cyclic rotation and changes sign under a swap. */
  lemma TripleProductCyclic(a: Vector, b: Vector, c: Vector)
    ensures TripleProduct(a, b, c) == TripleProduct(b, c, a)
    ensures TripleProduct(a, b, c) == -TripleProduct(b, a, c)
  {
    TripleExpand(a, b, c);
    TripleExpand(b, c, a);
    TripleExpand(b, a, c);
  }

  /** Cramer's rule in vector form: any r is the combination of a, b, c whose coefficients,
      scaled by [a, b, c], are the triple products with r put in place of a, b and c. */
  lemma TripleProductDecomposition(a: Vector, b: Vector, c: Vector, r: Vector)
    ensures TripleProduct(a, b, c) * r.x
         == TripleProduct(b, c, r) * a.x + TripleProduct(c, a, r) * b.x + TripleProduct(a, b, r) * c.x
    ensures TripleProduct(a, b, c) * r.y
         == TripleProduct(b, c, r) * a.y + TripleProduct(c, a, r) * b.y + TripleProduct(a, b, r) * c.y
    ensures TripleProduct(a, b, c) * r.z
         == TripleProduct(b, c, r) * a.z + TripleProduct(c, a, r) * b.z + TripleProduct(a, b, r) * c.z
  {
    TripleExpand(a, b, c);
    TripleExpand(b, c, r);
    TripleExpand(c, a, r);
    TripleExpand(a, b, r);
    CramerComponents(a.x, a.y, a.z, b.x, b.y, b.z, c.x, c.y, c.z, r.x, r.y, r.z,
                     TripleProduct(a, b, c), TripleProduct(b, c, r), TripleProduct(c, a, r), TripleProduct(a, b, r));
  }

  lemma CramerComponents(a1: real, a2: real, a3: real, b1: real, b2: real, b3: real,
                         c1: real, c2: real, c3: real, r1: real, r2: real, r3: real,
                         j: real, p: real, q: real, s: real)
    requires j == (a2 * b3 - a3 * b2) * c1 + (a3 * b1 - a1 * b3) * c2 + (a1 * b2 - a2 * b1) * c3
    requires p == (b2 * c3 - b3 * c2) * r1 + (b3 * c1 - b1 * c3) * r2 + (b1 * c2 - b2 * c1) * r3
    requires q == (c2 * a3 - c3 * a2) * r1 + (c3 * a1 - c1 * a3) * r2 + (c1 * a2 - c2 * a1) * r3
    requires s == (a2 * b3 - a3 * b2) * r1 + (a3 * b1 - a1 * b3) * r2 + (a1 * b2 - a2 * b1) * r3
    ensures j * r1 == p * a1 + q * b1 + s * c1
    ensures j * r2 == p * a2 + q * b2 + s * c2
    ensures j * r3 == p * a3 + q * b3 + s * c3
  {
  }

  /** Removes from a its component along b; orthogonal to b when b is a unit vector. */
  function Orthogonalize(a: Vector, b: Vector): (r: Vector)
    ensures Dot(b, b) == 1.0 ==> Dot(r, b) == 0.0
  {
    Sub(a, Scale(Dot(a, b), b))
  }

  function Square(a: real): real { a * a }

  lemma SquarePositive(a: real)
    ensures a * a >= 0.0
  {
    if a < 0.0 {
      var b := -a;
      assert b * b > 0.0;
      assert b * b == a * a;
    }
  }

  lemma SquareNonZero(a: real)
    requires a != 0.0
    ensures a * a > 0.0
  {
    if a < 0.0 {
      var b := -a;
      assert b * b > 0.0;
      assert b * b == a * a;
    }
  }

  lemma DotSelfNonNegative(a: Vector)
    ensures Dot(a, a) >= 0.0
  {
    SquarePositive(a.x);
    SquarePositive(a.y);
    SquarePositive(a.z);
  }

  function Pow2(n: nat): (r: real)
    ensures r >= 1.0
  {
    if n == 0 then 1.0 else 2.0 * Pow2(n - 1)
  }

  lemma HalfOver(d: real, p: real)
    requires p > 0.0
    ensures (d / 2.0) / p == d / (2.0 * p)
  {
  }

  /** n bisection steps on a bracket [lo, hi] of the square root of x; the upper end of
      the final bracket is returned, so the result never falls below the root. */
  function SqrtBisect(x: real, lo: real, hi: real, n: nat): (r: real)
    requires 0.0 <= lo <= hi && Square(lo) <= x <= Square(hi)
    ensures lo <= r <= hi
    decreases n
  {
    if n == 0 then hi
    else
      var mid := (lo + hi) / 2.0;
      if Square(mid) <= x then SqrtBisect(x, mid, hi, n - 1) else SqrtBisect(x, lo, mid, n - 1)
  }

  /** The bracket keeps the root below its upper end, so the result squared is at least x. */
  lemma {:induction false} SqrtBisectAbove(x: real, lo: real, hi: real, n: nat)
    requires 0.0 <= lo <= hi && Square(lo) <= x <= Square(hi)
    ensures x <= Square(SqrtBisect(x, lo, hi, n))
    decreases n
  {
    if n > 0 {
      var mid := (lo + hi) / 2.0;
      if Square(mid) <= x {
        SqrtBisectAbove(x, mid, hi, n - 1);
      } else {
        SqrtBisectAbove(x, lo, mid, n - 1);
      }
    }
  }

  /** Each step halves the bracket, so after n steps the result is within (hi - lo) / 2^n
      of a value whose square does not exceed x. */
  lemma {:induction false} SqrtBisectNear(x: real, lo: real, hi: real, n: nat)
    requires 0.0 <= lo <= hi && Square(lo) <= x <= Square(hi)
    ensures var below := SqrtBisect(x, lo, hi, n) - (hi - lo) / Pow2(n);
            lo <= below && Square(below) <= x
    decreases n
  {
    if n > 0 {
      var mid := (lo + hi) / 2.0;
      var p := Pow2(n - 1);
      assert (hi - lo) / Pow2(n) == ((hi - lo) / 2.0) / p by { HalfOver(hi - lo, p); }
      assert hi - mid == (hi - lo) / 2.0 && mid - lo == (hi - lo) / 2.0;
      if Square(mid) <= x {
        SqrtBisectNear(x, mid, hi, n - 1);
      } else {
        SqrtBisectNear(x, lo, mid, n - 1);
      }
    }
  }

  const SqrtSteps: nat := 60

  /** The square root, as the upper end of a 60-step bisection bracket: never below the
      true root and zero exactly at zero (SqrtNear bounds it from above). */
  function Sqrt(x: real): (r: real)
    requires x >= 0.0
    ensures 0.0 <= r <= Max(1.0, x)
    ensures r == 0.0 <==> x == 0.0
  {
    if x == 0.0 then 0.0
    else
      SqrtStart(x);
      SqrtBisectAbove(x, 0.0, Max(1.0, x), SqrtSteps);
      SqrtBisect(x, 0.0, Max(1.0, x), SqrtSteps)
  }

  /** The result squared is never below x (kept out of Sqrt's own contract so that several
      square roots in one formula stay cheap for the solver). */
  lemma SqrtAbove(x: real)
    requires x >= 0.0
    ensures x <= Square(Sqrt(x))
  {
    if x > 0.0 {
      SqrtStart(x);
      SqrtBisectAbove(x, 0.0, Max(1.0, x), SqrtSteps);
    }
  }

  lemma SqrtStart(x: real)
    requires x > 0.0
    ensures Square(0.0) <= x <= Square(Max(1.0, x))
  {
    if x >= 1.0 { assert x * 1.0 <= x * x; }
  }

  /** The bisection result exceeds the true root by at most max(1, x) / 2^60. */
  lemma SqrtNear(x: real)
    requires x > 0.0
    ensures var below := Sqrt(x) - Max(1.0, x) / Pow2(SqrtSteps);
            0.0 <= below && Square(below) <= x
  {
    SqrtStart(x);
    SqrtBisectNear(x, 0.0, Max(1.0, x), SqrtSteps);
  }

  /** The length of a: non-negative, its square at least Dot(a, a), zero for the zero vector. */
  function Norm(a: Vector): (r: real)
    ensures r >= 0.0 && Dot(a, a) <= Square(r)
    ensures a == Zero ==> r == 0.0
  {
    if a == Zero then 0.0
    else
      DotSelfNonNegative(a);
      SqrtAbove(Dot(a, a));
      Sqrt(Dot(a, a))
  }

  /** a divided by its length, or the zero vector when the length is zero: a non-negative
      multiple of a, parallel to it. */
  function Normalize(a: Vector): (r: Vector)
    ensures a == Zero ==> r == Zero
    ensures Cross(r, a) == Zero && Dot(r, a) >= 0.0
  {
    var d := Norm(a);
    if d != 0.0 then
      ReciprocalPositive(d);
      ScaleParallel(1.0 / d, a);
      Scale(1.0 / d, a)
    else Zero
  }

  /** A non-negative multiple of a is parallel to a and points the same way. */
  lemma ScaleParallel(c: real, a: Vector)
    requires c >= 0.0
    ensures Cross(Scale(c, a), a) == Zero && Dot(Scale(c, a), a) >= 0.0
  {
    ScaleDot(c, a, a);
    ScaleCross(c, a);
    DotSelfNonNegative(a);
    NonNegativeProduct(c, Dot(a, a));
  }

  lemma ScaleDot(c: real, a: Vector, b: Vector)
    ensures Dot(Scale(c, a), b) == c * Dot(a, b)
  {
    assert (a.x * c) * b.x == c * (a.x * b.x);
    assert (a.y * c) * b.y == c * (a.y * b.y);
    assert (a.z * c) * b.z == c * (a.z * b.z);
  }

  lemma ScaleCross(c: real, a: Vector)
    ensures Cross(Scale(c, a), a) == Zero
  {
    assert (a.y * c) * a.z == (a.z * c) * a.y;
    assert (a.z * c) * a.x == (a.x * c) * a.z;
    assert (a.x * c) * a.y == (a.y * c) * a.x;
  }

  lemma ReciprocalPositive(d: real)
    requires d > 0.0
    ensures 1.0 / d > 0.0
  {
  }

  lemma NonNegativeProduct(a: real, b: real)
    requires a >= 0.0 && b >= 0.0
    ensures a * b >= 0.0
  {
  }

  /** C's min macro: ((a) < (b)) ? (a) : (b). */
  function Min(a: real, b: real): (r: real)
    ensures r <= a && r <= b && (r == a || r == b)
  {
    if a < b then a else b
  }

  /** C's max macro: ((a) > (b)) ? (a) : (b). */
  function Max(a: real, b: real): (r: real)
    ensures r >= a && r >= b && (r == a || r == b)
  {
    if a > b then a else b
  }

  function Abs(a: real): (r: real)
    ensures r >= 0.0 && (r == a || r == -a)
  {
    if a < 0.0 then -a else a
  }

  /** min with xmax first, then max with xmin: never below xmin, within [xmin, xmax] when
      that interval is non-empty, and the identity on it. */
  function Clamp(x: real, xmin: real, xmax: real): (r: real)
    ensures r >= xmin
    ensures xmin <= xmax ==> r <= xmax
    ensures xmin <= x <= xmax ==> r == x
    ensures x <= xmin ==> r == xmin
    ensures xmin <= xmax <= x ==> r == xmax
  {
    Max(Min(x, xmax), xmin)
  }

  lemma ClampMonotone(x: real, y: real, xmin: real, xmax: real)
    requires x <= y
    ensures Clamp(x, xmin, xmax) <= Clamp(y, xmin, xmax)
  {
  }

  /** floor of the clamped value; an integer in [xmin, xmax] for integer bounds. */
  function IClamp(x: real, xmin: int, xmax: int): (r: int)
    ensures xmin <= r
    ensures xmin <= xmax ==> r <= xmax
    ensures xmin as real <= x <= xmax as real ==> r as real <= x < r as real + 1.0
  {
    Clamp(x, xmin as real, xmax as real).Floor
  }

  lemma IClampMonotone(x: real, y: real, xmin: int, xmax: int)
    requires x <= y
    ensures IClamp(x, xmin, xmax) <= IClamp(y, xmin, xmax)
  {
    ClampMonotone(x, y, xmin as real, xmax as real);
  }

  /** C's conversion of a floating value to int: truncation toward zero. */
  function TruncToInt(x: real): (n: int)
    ensures x >= 0.0 ==> n >= 0 && n as real <= x < n as real + 1.0
    ensures x <= 0.0 ==> n <= 0 && n as real - 1.0 < x <= n as real
  {
    if x >= 0.0 then x.Floor else -((-x).Floor)
  }

  lemma TruncMonotone(x: real, y: real)
    requires x <= y
    ensures TruncToInt(x) <= TruncToInt(y)
  {
  }

  datatype Roots = NoRoots | Roots(x0: real, x1: real)

  /** The real roots of a t^2 + 2 b t + c, smaller first: none exactly when the discriminant
      b^2 - a c is negative, the double root -b/a when it vanishes, and otherwise two roots
      whose product is c/a (the numerically stable pairing q/a, c/q). */
  function SolveQuadratic(a: real, b: real, c: real): (r: Roots)
    requires a != 0.0
    ensures r.NoRoots? <==> Square(b) - a * c < 0.0
    ensures r.Roots? ==> r.x0 <= r.x1
    ensures Square(b) - a * c == 0.0 ==> r == Roots(-b / a, -b / a)
    ensures Square(b) - a * c > 0.0 ==> r.Roots? && r.x0 * r.x1 == c / a
  {
    var discr := Square(b) - a * c;
    if discr < 0.0 then NoRoots
    else if discr == 0.0 then Roots(Min(-b / a, -b / a), Max(-b / a, -b / a))
    else DistinctRoots(a, b, c, Sqrt(discr))
  }

  /** The two-root branch: q = -(b + sign(b) sqrt(discr)) is never zero, and the roots
      q/a and c/q multiply to c/a. */
  function DistinctRoots(a: real, b: real, c: real, sq: real): (r: Roots)
    requires a != 0.0 && sq > 0.0
    ensures r.Roots? && r.x0 <= r.x1 && r.x0 * r.x1 == c / a
  {
    var q := if b > 0.0 then -(b + sq) else -(b - sq);
    StableRootsProduct(a, q, c);
    Roots(Min(q / a, c / q), Max(q / a, c / q))
  }

  lemma StableRootsProduct(a: real, q: real, c: real)
    requires a != 0.0 && q != 0.0
    ensures Min(q / a, c / q) * Max(q / a, c / q) == c / a
  {
    var u, v := q / a, c / q;
    assert u * v == c / a by {
      assert u * a == q;
      assert v * q == c;
    }
  }
}
