/**
 * Geometry shared by the three polygon editors
 * (src/components/draw/PolygonMultipleKonvaCanvas.tsx, PolygonKonvaCanvas.tsx
 * and PolygonCanvas.tsx): points, the 0..1000 normalisation, the two
 * segment-crossing tests and the self-intersection criterion.
 *
 * Coordinates are real numbers, not IEEE doubles, so every division and
 * comparison below is exact.
 */
module PolygonGeometry {

  datatype Point = Point(x: real, y: real)

  // ---------------------------------------------------------------------
  // Normalisation to the 0..1000 space

  predicate IsIntegral(r: real) {
    r == r.Floor as real
  }

  /** Math.round for the values that occur here: floor(v + 0.5). */
  function Round(v: real): (r: int)
    ensures v - 0.5 < r as real <= v + 0.5
  {
    (v + 0.5).Floor
  }

  /** normalizePoint: map canvas pixels to integers of the 0..1000 space. */
  function NormalizePoint(p: Point, width: real, height: real): (r: Point)
    requires width > 0.0 && height > 0.0
    ensures IsIntegral(r.x) && IsIntegral(r.y)
  {
    Point(Round(p.x / width * 1000.0) as real, Round(p.y / height * 1000.0) as real)
  }

  /** denormalizePoint: map the 0..1000 space back to canvas pixels, without rounding. */
  function DenormalizePoint(p: Point, width: real, height: real): Point {
    Point(p.x / 1000.0 * width, p.y / 1000.0 * height)
  }

  /** (v / 1000 * e) / e * 1000 == v: denormalising then normalising an axis value loses nothing. */
  lemma ScaleBack(v: real, extent: real)
    requires extent > 0.0
    ensures v / 1000.0 * extent / extent * 1000.0 == v
  {
    var u := v / 1000.0 * extent;
    assert u / extent * extent == u;
    assert (u / extent * 1000.0) * extent == v * extent;
    CancelNonZero(u / extent * 1000.0, v, extent);
  }

  lemma RoundIntegral(v: real)
    requires IsIntegral(v)
    ensures Round(v) as real == v
  {
    var n := v.Floor;
    assert Round(v) == (n as real + 0.5).Floor;
    FloorHalf(n);
  }

  lemma FloorHalf(n: int)
    ensures (n as real + 0.5).Floor == n
  {
  }

  /** A coordinate inside [0, extent] normalises into [0, 1000]. */
  lemma NormalizeAxisRange(v: real, extent: real)
    requires extent > 0.0 && 0.0 <= v <= extent
    ensures 0 <= Round(v / extent * 1000.0) <= 1000
  {
    DivBounds(v, extent);
  }

  lemma DivBounds(v: real, extent: real)
    requires extent > 0.0 && 0.0 <= v <= extent
    ensures 0.0 <= v / extent <= 1.0
  {
    var q := v / extent;
    assert q * extent == v;
  }

  /** A point of the canvas normalises to integer coordinates in [0, 1000]. */
  lemma NormalizeInRange(p: Point, width: real, height: real)
    requires width > 0.0 && height > 0.0
    requires 0.0 <= p.x <= width && 0.0 <= p.y <= height
    ensures var q := NormalizePoint(p, width, height);
      0.0 <= q.x <= 1000.0 && 0.0 <= q.y <= 1000.0
  {
    NormalizeAxisRange(p.x, width);
    NormalizeAxisRange(p.y, height);
  }

  /** An integral normalised point survives denormalisation and normalisation unchanged. */
  lemma NormalizeDenormalize(q: Point, width: real, height: real)
    requires width > 0.0 && height > 0.0 && IsIntegral(q.x) && IsIntegral(q.y)
    ensures NormalizePoint(DenormalizePoint(q, width, height), width, height) == q
  {
    var d := DenormalizePoint(q, width, height);
    ScaleBack(q.x, width);
    ScaleBack(q.y, height);
    assert d.x / width * 1000.0 == q.x;
    assert d.y / height * 1000.0 == q.y;
    RoundIntegral(q.x);
    RoundIntegral(q.y);
  }

  /** The other direction is lossy by at most half a unit of the 0..1000 space. */
  lemma DenormalizeNormalizeError(p: Point, width: real, height: real)
    requires width > 0.0 && height > 0.0
    ensures var r := DenormalizePoint(NormalizePoint(p, width, height), width, height);
      -width / 2000.0 <= r.x - p.x <= width / 2000.0 &&
      -height / 2000.0 <= r.y - p.y <= height / 2000.0
  {
    var q := NormalizePoint(p, width, height);
    assert p.x / width * 1000.0 - 0.5 < q.x <= p.x / width * 1000.0 + 0.5;
    assert p.y / height * 1000.0 - 0.5 < q.y <= p.y / height * 1000.0 + 0.5;
    AxisError(p.x, width, q.x);
    AxisError(p.y, height, q.y);
  }

  /** k is within half a unit of v's normalised value, so k denormalised is within extent / 2000 of v. */
  lemma AxisError(v: real, extent: real, k: real)
    requires extent > 0.0
    requires v / extent * 1000.0 - 0.5 < k <= v / extent * 1000.0 + 0.5
    ensures -extent / 2000.0 <= k / 1000.0 * extent - v <= extent / 2000.0
  {
    var q := v / extent;
    var u := q * 1000.0;
    var m := extent / 1000.0;
    assert q * extent == v;
    assert m * 1000.0 == extent;
    assert u * m == v by {
      assert u * m == q * (1000.0 * m);
    }
    assert k / 1000.0 * extent == k * m by {
      assert k / 1000.0 * extent == (k / 1000.0) * (m * 1000.0);
    }
    var e := k - u;
    assert k * m - u * m == e * m;
    var err := k / 1000.0 * extent - v;
    assert err == e * m;
    ScaleBound(e, m);
    assert err <= m / 2.0;
    assert m / 2.0 == extent / 2000.0;
    assert err <= extent / 2000.0;
  }

  lemma ScaleBound(e: real, m: real)
    requires m > 0.0 && -0.5 <= e <= 0.5
    ensures -m / 2.0 <= e * m <= m / 2.0
  {
    assert (0.5 - e) * m >= 0.0;
    assert (e + 0.5) * m >= 0.0;
  }

  function NormalizePoints(pts: seq<Point>, width: real, height: real): (r: seq<Point>)
    requires width > 0.0 && height > 0.0
    ensures |r| == |pts|
    ensures forall i :: 0 <= i < |r| ==> IsIntegral(r[i].x) && IsIntegral(r[i].y)
  {
    seq(|pts|, i requires 0 <= i < |pts| => NormalizePoint(pts[i], width, height))
  }

  function DenormalizePoints(pts: seq<Point>, width: real, height: real): (r: seq<Point>)
    ensures |r| == |pts|
  {
    seq(|pts|, i requires 0 <= i < |pts| => DenormalizePoint(pts[i], width, height))
  }

  predicate AllIntegral(pts: seq<Point>) {
    forall i :: 0 <= i < |pts| ==> IsIntegral(pts[i].x) && IsIntegral(pts[i].y)
  }

  /** Stored (normalised, integral) points come back unchanged from the canvas. */
  lemma PointsRoundTrip(pts: seq<Point>, width: real, height: real)
    requires width > 0.0 && height > 0.0 && AllIntegral(pts)
    ensures NormalizePoints(DenormalizePoints(pts, width, height), width, height) == pts
  {
    var back := NormalizePoints(DenormalizePoints(pts, width, height), width, height);
    forall i | 0 <= i < |pts|
      ensures back[i] == pts[i]
    {
      NormalizeDenormalize(pts[i], width, height);
    }
  }

  /** dx² + dy²: the editors compare it with the squared radius instead of taking a root. */
  function SquaredDistance(p: Point, q: Point): (d: real)
    ensures d >= 0.0
  {
    (p.x - q.x) * (p.x - q.x) + (p.y - q.y) * (p.y - q.y)
  }

  /** The close-the-polygon test of the two Konva editors: Math.sqrt(dx² + dy²) < 10. */
  predicate NearFirst(p: Point, first: Point) {
    SquaredDistance(p, first) < 100.0
  }

  // ---------------------------------------------------------------------
  // Segment crossing

  /** The point at parameter t on the line through p and q. */
  function Lerp(p: Point, q: Point, t: real): Point {
    Point(p.x + t * (q.x - p.x), p.y + t * (q.y - p.y))
  }

  /** The segments a1–a2 and b1–b2 meet at a point strictly inside both. */
  ghost predicate MeetInside(a1: Point, a2: Point, b1: Point, b2: Point) {
    exists s, t :: 0.0 < s < 1.0 && 0.0 < t < 1.0 && Lerp(a1, a2, s) == Lerp(b1, b2, t)
  }

  /** The segments a1–a2 and b1–b2 have a common point, endpoints included. */
  ghost predicate MeetClosed(a1: Point, a2: Point, b1: Point, b2: Point) {
    exists s, t :: 0.0 <= s <= 1.0 && 0.0 <= t <= 1.0 && Lerp(a1, a2, s) == Lerp(b1, b2, t)
  }

  /** The cross product of the two direction vectors; zero for parallel segments. */
  function Det(a1: Point, a2: Point, b1: Point, b2: Point): real {
    (a2.x - a1.x) * (b2.y - b1.y) - (a2.y - a1.y) * (b2.x - b1.x)
  }

  function Lambda(a1: Point, a2: Point, b1: Point, b2: Point): real
    requires Det(a1, a2, b1, b2) != 0.0
  {
    ((b2.y - b1.y) * (b2.x - a1.x) + (b1.x - b2.x) * (b2.y - a1.y)) / Det(a1, a2, b1, b2)
  }

  function Gamma(a1: Point, a2: Point, b1: Point, b2: Point): real
    requires Det(a1, a2, b1, b2) != 0.0
  {
    ((a1.y - a2.y) * (b2.x - a1.x) + (a2.x - a1.x) * (b2.y - a1.y)) / Det(a1, a2, b1, b2)
  }

  /** doLinesIntersect of the two Konva editors: both parameters strictly inside (0, 1). */
  predicate DoLinesIntersect(a1: Point, a2: Point, b1: Point, b2: Point) {
    if Det(a1, a2, b1, b2) == 0.0 then false
    else
      var lambda := Lambda(a1, a2, b1, b2);
      var gamma := Gamma(a1, a2, b1, b2);
      0.0 < lambda && lambda < 1.0 && 0.0 < gamma && gamma < 1.0
  }

  /** The parameter ua of PolygonCanvas.tsx's test, along a–b. */
  function Ua(a: Point, b: Point, c: Point, d: Point): real
    requires Det(a, b, c, d) != 0.0
  {
    (((c.x - a.x) * (d.y - c.y)) - ((c.y - a.y) * (d.x - c.x))) / Det(a, b, c, d)
  }

  /** The parameter ub of PolygonCanvas.tsx's test, along c–d. */
  function Ub(a: Point, b: Point, c: Point, d: Point): real
    requires Det(a, b, c, d) != 0.0
  {
    (((c.x - a.x) * (b.y - a.y)) - ((c.y - a.y) * (b.x - a.x))) / Det(a, b, c, d)
  }

  /** doLinesIntersect of PolygonCanvas.tsx: both parameters in the closed interval [0, 1]. */
  predicate DoLinesIntersectInclusive(a: Point, b: Point, c: Point, d: Point) {
    if Det(a, b, c, d) == 0.0 then false
    else
      var ua := Ua(a, b, c, d);
      var ub := Ub(a, b, c, d);
      !(ua < 0.0 || ua > 1.0 || ub < 0.0 || ub > 1.0)
  }

  lemma CancelNonZero(u: real, v: real, m: real)
    requires m != 0.0 && u * m == v * m
    ensures u == v
  {
    assert (u - v) * m == 0.0;
  }

  /** Solving the 2 × 2 system s·d - t·e = w by Cramer's rule, forwards. */
  lemma MeetSolves(dx: real, dy: real, ex: real, ey: real, wx: real, wy: real, s: real, t: real)
    requires s * dx - t * ex == wx && s * dy - t * ey == wy
    ensures s * (dx * ey - dy * ex) == wx * ey - wy * ex
    ensures t * (dx * ey - dy * ex) == dy * wx - dx * wy
  {
    calc {
      s * (dx * ey - dy * ex);
      (s * dx) * ey - (s * dy) * ex;
      (wx + t * ex) * ey - (wy + t * ey) * ex;
      wx * ey - wy * ex;
    }
    calc {
      t * (dx * ey - dy * ex);
      (t * ey) * dx - (t * ex) * dy;
      (s * dy - wy) * dx - (s * dx - wx) * dy;
      dy * wx - dx * wy;
    }
  }

  /** ... and backwards: Cramer's solution satisfies the system. */
  lemma SolvesMeet(dx: real, dy: real, ex: real, ey: real, wx: real, wy: real, s: real, t: real)
    requires dx * ey - dy * ex != 0.0
    requires s * (dx * ey - dy * ex) == wx * ey - wy * ex
    requires t * (dx * ey - dy * ex) == dy * wx - dx * wy
    ensures s * dx - t * ex == wx && s * dy - t * ey == wy
  {
    var det := dx * ey - dy * ex;
    calc {
      (s * dx - t * ex) * det;
      (s * det) * dx - (t * det) * ex;
      (wx * ey - wy * ex) * dx - (dy * wx - dx * wy) * ex;
      wx * det;
    }
    CancelNonZero(s * dx - t * ex, wx, det);
    calc {
      (s * dy - t * ey) * det;
      (s * det) * dy - (t * det) * ey;
      (wx * ey - wy * ex) * dy - (dy * wx - dx * wy) * ey;
      wy * det;
    }
    CancelNonZero(s * dy - t * ey, wy, det);
  }

  /**
   * Lambda and 1 - Gamma are Cramer's solution of the system whose
   * coefficients are the direction vectors d = a2 - a1, e = b2 - b1 and
   * whose right-hand side is w = b1 - a1.
   */
  lemma ParametersSolve(a1: Point, a2: Point, b1: Point, b2: Point,
                        dx: real, dy: real, ex: real, ey: real, wx: real, wy: real, det: real)
    requires dx == a2.x - a1.x && dy == a2.y - a1.y && ex == b2.x - b1.x && ey == b2.y - b1.y
    requires wx == b1.x - a1.x && wy == b1.y - a1.y
    requires det == Det(a1, a2, b1, b2) && det != 0.0
    ensures CramerSolution(dx, dy, ex, ey, wx, wy, det, Lambda(a1, a2, b1, b2), 1.0 - Gamma(a1, a2, b1, b2))
  {
    var nl := (b2.y - b1.y) * (b2.x - a1.x) + (b1.x - b2.x) * (b2.y - a1.y);
    var ng := (a1.y - a2.y) * (b2.x - a1.x) + (a2.x - a1.x) * (b2.y - a1.y);
    assert Lambda(a1, a2, b1, b2) * det == nl;
    assert Gamma(a1, a2, b1, b2) * det == ng;
    assert (1.0 - Gamma(a1, a2, b1, b2)) * det == det - ng;
  }

  /** Two Lerp points coincide exactly when (s, t) solves s·d - t·e = w. */
  lemma LerpSystem(a1: Point, a2: Point, b1: Point, b2: Point,
                   dx: real, dy: real, ex: real, ey: real, wx: real, wy: real, s: real, t: real)
    requires dx == a2.x - a1.x && dy == a2.y - a1.y && ex == b2.x - b1.x && ey == b2.y - b1.y
    requires wx == b1.x - a1.x && wy == b1.y - a1.y
    ensures Lerp(a1, a2, s) == Lerp(b1, b2, t) <==> s * dx - t * ex == wx && s * dy - t * ey == wy
  {
    var sdx, sdy := s * dx, s * dy;
    var tex, tey := t * ex, t * ey;
    assert Lerp(a1, a2, s) == Point(a1.x + sdx, a1.y + sdy);
    assert Lerp(b1, b2, t) == Point(b1.x + tex, b1.y + tey);
  }

  /**
   * (ls, lt) is Cramer's solution of s·d - t·e = w: det is the non-zero
   * determinant and ls·det, lt·det the two minors.
   */
  predicate CramerSolution(dx: real, dy: real, ex: real, ey: real, wx: real, wy: real,
                           det: real, ls: real, lt: real)
  {
    det == dx * ey - dy * ex && det != 0.0 &&
    ls * det == wx * ey - wy * ex && lt * det == dy * wx - dx * wy
  }

  /** A non-singular 2 × 2 system has Cramer's solution and no other. */
  lemma CramerUnique(dx: real, dy: real, ex: real, ey: real, wx: real, wy: real,
                     det: real, s: real, t: real, ls: real, lt: real)
    requires CramerSolution(dx, dy, ex, ey, wx, wy, det, ls, lt)
    ensures (s * dx - t * ex == wx && s * dy - t * ey == wy) <==> (s == ls && t == lt)
  {
    if s * dx - t * ex == wx && s * dy - t * ey == wy {
      MeetSolves(dx, dy, ex, ey, wx, wy, s, t);
      CancelNonZero(s, ls, det);
      CancelNonZero(t, lt, det);
    }
    if s == ls && t == lt {
      SolvesMeet(dx, dy, ex, ey, wx, wy, s, t);
    }
  }

  /**
   * For non-parallel segments the lines meet exactly once: at parameter
   * Lambda on a1–a2 and 1 - Gamma on b1–b2.
   */
  lemma CrossingParameters(a1: Point, a2: Point, b1: Point, b2: Point, s: real, t: real)
    requires Det(a1, a2, b1, b2) != 0.0
    ensures Lerp(a1, a2, s) == Lerp(b1, b2, t) <==>
      s == Lambda(a1, a2, b1, b2) && t == 1.0 - Gamma(a1, a2, b1, b2)
  {
    var dx, dy, ex, ey := a2.x - a1.x, a2.y - a1.y, b2.x - b1.x, b2.y - b1.y;
    var wx, wy := b1.x - a1.x, b1.y - a1.y;
    var det := Det(a1, a2, b1, b2);
    ParametersSolve(a1, a2, b1, b2, dx, dy, ex, ey, wx, wy, det);
    LerpSystem(a1, a2, b1, b2, dx, dy, ex, ey, wx, wy, s, t);
    CramerUnique(dx, dy, ex, ey, wx, wy, det, s, t, Lambda(a1, a2, b1, b2), 1.0 - Gamma(a1, a2, b1, b2));
  }

  /**
   * The strict test reports exactly the non-parallel segment pairs that meet
   * strictly inside both segments. Parallel or collinear pairs are never
   * reported, even when they overlap.
   */
  lemma DoLinesIntersectMeaning(a1: Point, a2: Point, b1: Point, b2: Point)
    ensures DoLinesIntersect(a1, a2, b1, b2) <==> Det(a1, a2, b1, b2) != 0.0 && MeetInside(a1, a2, b1, b2)
  {
    if Det(a1, a2, b1, b2) != 0.0 {
      var l, g := Lambda(a1, a2, b1, b2), Gamma(a1, a2, b1, b2);
      CrossingParameters(a1, a2, b1, b2, l, 1.0 - g);
      if MeetInside(a1, a2, b1, b2) {
        var s, t :| 0.0 < s < 1.0 && 0.0 < t < 1.0 && Lerp(a1, a2, s) == Lerp(b1, b2, t);
        CrossingParameters(a1, a2, b1, b2, s, t);
      }
    }
  }

  /** PolygonCanvas.tsx's ua and ub are the Konva editors' lambda and 1 - gamma. */
  lemma InclusiveParameters(a: Point, b: Point, c: Point, d: Point)
    requires Det(a, b, c, d) != 0.0
    ensures Ua(a, b, c, d) == Lambda(a, b, c, d) && Ub(a, b, c, d) == 1.0 - Gamma(a, b, c, d)
  {
    var det := Det(a, b, c, d);
    var dx, dy, ex, ey := b.x - a.x, b.y - a.y, d.x - c.x, d.y - c.y;
    var wx, wy := c.x - a.x, c.y - a.y;
    var l, tg := Lambda(a, b, c, d), 1.0 - Gamma(a, b, c, d);
    ParametersSolve(a, b, c, d, dx, dy, ex, ey, wx, wy, det);
    assert l * det == wx * ey - wy * ex && tg * det == dy * wx - dx * wy;
    var ua, ub := Ua(a, b, c, d), Ub(a, b, c, d);
    assert ua * det == wx * ey - wy * ex;
    assert ub * det == dy * wx - dx * wy;
    CancelNonZero(ua, l, det);
    CancelNonZero(ub, tg, det);
  }

  /** The inclusive test computes the same two parameters, in closed intervals. */
  lemma DoLinesIntersectInclusiveMeaning(a: Point, b: Point, c: Point, d: Point)
    ensures DoLinesIntersectInclusive(a, b, c, d) <==> Det(a, b, c, d) != 0.0 && MeetClosed(a, b, c, d)
  {
    if Det(a, b, c, d) != 0.0 {
      InclusiveParameters(a, b, c, d);
      var l, tg := Lambda(a, b, c, d), 1.0 - Gamma(a, b, c, d);
      CrossingParameters(a, b, c, d, l, tg);
      if MeetClosed(a, b, c, d) {
        var s, t :| 0.0 <= s <= 1.0 && 0.0 <= t <= 1.0 && Lerp(a, b, s) == Lerp(c, d, t);
        CrossingParameters(a, b, c, d, s, t);
      }
    }
  }

  // ---------------------------------------------------------------------
  // Self-intersection

  /**
   * Edges i and j (edge k joins point k to point k + 1 mod n) form a pair
   * the validity check must test: i < j, not consecutive, and not the
   * closing pair (0, n - 1).
   */
  predicate NonAdjacentPair(n: nat, i: int, j: int) {
    0 <= i < j < n && j >= i + 2 && !(i == 0 && j == n - 1)
  }

  /** The vertex indices of edge k of a closed polygon with n points. */
  function EdgeEnds(n: nat, k: nat): set<nat>
    requires k < n
  {
    {k, (k + 1) % n}
  }

  /** The end of edge k that follows k around the polygon. */
  lemma NextVertex(n: nat, k: nat)
    requires k < n
    ensures (k + 1) % n == if k + 1 < n then k + 1 else 0
  {
  }

  lemma TwoSetsDisjoint(a: nat, b: nat, c: nat, d: nat)
    ensures {a, b} !! {c, d} <==> a != c && a != d && b != c && b != d
  {
    if a == c || a == d {
      assert a in {a, b} * {c, d};
    } else if b == c || b == d {
      assert b in {a, b} * {c, d};
    }
  }

  /** The enumerated pairs are exactly the edge pairs that share no vertex. */
  lemma NonAdjacentMeansDisjoint(n: nat, i: nat, j: nat)
    requires i < j < n
    ensures NonAdjacentPair(n, i, j) <==> EdgeEnds(n, i) !! EdgeEnds(n, j)
  {
    NextVertex(n, i);
    NextVertex(n, j);
    var ni := if i + 1 < n then i + 1 else 0;
    var nj := if j + 1 < n then j + 1 else 0;
    assert EdgeEnds(n, i) == {i, ni};
    assert EdgeEnds(n, j) == {j, nj};
    TwoSetsDisjoint(i, ni, j, nj);
  }

  /** Edge k as a pair of end points. */
  predicate EdgesCross(pts: seq<Point>, inclusive: bool, i: nat, j: nat)
    requires i < |pts| && j < |pts|
  {
    var n := |pts|;
    if inclusive then DoLinesIntersectInclusive(pts[i], pts[(i + 1) % n], pts[j], pts[(j + 1) % n])
    else DoLinesIntersect(pts[i], pts[(i + 1) % n], pts[j], pts[(j + 1) % n])
  }

  /**
   * The validity every editor computes: fewer than three points is always
   * valid; otherwise no non-adjacent pair of edges crosses.
   */
  ghost predicate PolygonValid(pts: seq<Point>, inclusive: bool) {
    |pts| < 3 ||
    forall i: nat, j: nat :: NonAdjacentPair(|pts|, i, j) ==> !EdgesCross(pts, inclusive, i, j)
  }

  /** A triangle has no non-adjacent edge pair, so every triangle is valid. */
  lemma TriangleValid(pts: seq<Point>, inclusive: bool)
    requires |pts| <= 3
    ensures PolygonValid(pts, inclusive)
  {
  }

  /**
   * The pairs visited by the nested loops of the two Konva editors,
   * for i in [0, n) and j in [i + 2, n + (i > 0 ? 1 : 0) - 1).
   */
  predicate KonvaLoopVisits(n: nat, i: int, j: int) {
    0 <= i < n && i + 2 <= j < n + (if i > 0 then 1 else 0) - 1
  }

  /**
   * Those bounds enumerate exactly the non-adjacent pairs, and inside them
   * neither the `j >= n` skip nor the `(i, j) != (0, n - 1)` test can fire.
   */
  lemma KonvaLoopExact(n: nat, i: int, j: int)
    ensures KonvaLoopVisits(n, i, j) <==> NonAdjacentPair(n, i, j)
    ensures KonvaLoopVisits(n, i, j) ==> j < n && !(i == 0 && j == n - 1)
  {
  }

  /** The pairs visited by PolygonCanvas.tsx: j in [i + 2, n + (i == 0 ? -1 : 0)). */
  predicate CanvasLoopVisits(n: nat, i: int, j: int) {
    0 <= i < n && i + 2 <= j < n + (if i == 0 then -1 else 0)
  }

  /** The same set of pairs; the adjacent-edge skip inside the loop never fires. */
  lemma CanvasLoopExact(n: nat, i: int, j: int)
    ensures CanvasLoopVisits(n, i, j) <==> NonAdjacentPair(n, i, j)
    ensures CanvasLoopVisits(n, i, j) ==> !((i == 0 && j == n - 1) || -1 <= i - j <= 1) && j % n == j
  {
  }

  function Square(): seq<Point> {
    [Point(0.0, 0.0), Point(0.0, 10.0), Point(10.0, 10.0), Point(10.0, 0.0)]
  }

  function Bowtie(): seq<Point> {
    [Point(0.0, 0.0), Point(10.0, 10.0), Point(10.0, 0.0), Point(0.0, 10.0)]
  }

  /** Only (0, 2) and (1, 3) are non-adjacent among four edges. */
  lemma QuadPairs(i: nat, j: nat)
    requires NonAdjacentPair(4, i, j)
    ensures (i == 0 && j == 2) || (i == 1 && j == 3)
  {
  }

  lemma SquareValid(inclusive: bool)
    ensures PolygonValid(Square(), inclusive)
  {
    var sq := Square();
    forall i: nat, j: nat | NonAdjacentPair(4, i, j)
      ensures !EdgesCross(sq, inclusive, i, j)
    {
      QuadPairs(i, j);
    }
  }

  lemma BowtieInvalid(inclusive: bool)
    ensures !PolygonValid(Bowtie(), inclusive)
  {
    assert NonAdjacentPair(4, 0, 2);
    assert EdgesCross(Bowtie(), inclusive, 0, 2);
  }
}

/** The keys the editors react to; every other key is Other. */
module EditorKeys {
  datatype Key = Backspace | Delete | Enter | Escape | Other
}
