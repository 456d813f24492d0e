/**
 * The polygon page of src/pages/DrawPolygon.tsx: stored shapes use a
 * y axis that points up, the editor one that points down, so the page
 * flips y to 1000 - y on the way in (convertedInitData) and on the way
 * out (handleChange).
 */
module DrawPolygonPage {
  import opened PolygonGeometry
  import opened MultiPolygonEditor

  function FlipY(p: Point): (r: Point)
    ensures r.x == p.x
  {
    Point(p.x, 1000.0 - p.y)
  }

  function FlipPoints(pts: seq<Point>): (r: seq<Point>)
    ensures |r| == |pts|
  {
    seq(|pts|, i requires 0 <= i < |pts| => FlipY(pts[i]))
  }

  /** convertedInitData: every shape with every point flipped; ids and validity kept. */
  function FlipShapes(shapes: seq<Shape>): (r: seq<Shape>)
    ensures |r| == |shapes|
    ensures forall k :: 0 <= k < |r| ==>
      r[k].id == shapes[k].id && r[k].isValid == shapes[k].isValid && |r[k].points| == |shapes[k].points|
  {
    seq(|shapes|, k requires 0 <= k < |shapes| => shapes[k].(points := FlipPoints(shapes[k].points)))
  }

  /**
   * handleChange: flip y of every point of every shape the editor reports,
   * one point at a time, and keep the result as the page's shapes.
   */
  method HandleChange(shapes: seq<Shape>) returns (newShapes: seq<Shape>)
    ensures newShapes == FlipShapes(shapes)
  {
    newShapes := [];
    for k := 0 to |shapes|
      invariant newShapes == FlipShapes(shapes[..k])
    {
      var s := shapes[k];
      var pts := s.points;
      for i := 0 to |pts|
        invariant |pts| == |s.points|
        invariant forall m :: 0 <= m < i ==> pts[m] == FlipY(s.points[m])
        invariant forall m :: i <= m < |pts| ==> pts[m] == s.points[m]
      {
        pts := pts[i := Point(pts[i].x, 1000.0 - pts[i].y)];
      }
      assert pts == FlipPoints(s.points);
      assert shapes[..k + 1] == shapes[..k] + [s];
      newShapes := newShapes + [s.(points := pts)];
    }
    assert shapes[..|shapes|] == shapes;
  }

  /** Flipping twice is the identity. */
  lemma FlipShapesInvolution(shapes: seq<Shape>)
    ensures FlipShapes(FlipShapes(shapes)) == shapes
  {
    var twice := FlipShapes(FlipShapes(shapes));
    forall k | 0 <= k < |shapes|
      ensures twice[k] == shapes[k]
    {
      assert FlipPoints(FlipPoints(shapes[k].points)) == shapes[k].points;
    }
  }

  /** The flip maps [0, 1000] onto [0, 1000]: every value in range is the image of one in range. */
  lemma FlipRange(p: Point)
    ensures 0.0 <= p.y <= 1000.0 <==> 0.0 <= FlipY(p).y <= 1000.0
    ensures 0.0 <= p.y <= 1000.0 ==>
      var pre := Point(p.x, 1000.0 - p.y);
      0.0 <= pre.y <= 1000.0 && FlipY(pre) == p
  {
  }

  /** An integral point stays integral, so flipped data can still be stored. */
  lemma FlipIntegral(p: Point)
    requires IsIntegral(p.x) && IsIntegral(p.y)
    ensures IsIntegral(FlipY(p).x) && IsIntegral(FlipY(p).y)
  {
    var n := p.y.Floor;
    assert 1000.0 - p.y == (1000 - n) as real;
  }

  /**
   * The page's data survives a visit to the editor unchanged: flipped in,
   * placed on the canvas, normalised back by the editor and flipped out.
   */
  lemma PageRoundTrip(pts: seq<Point>, width: real, height: real)
    requires width > 0.0 && height > 0.0 && AllIntegral(pts)
    ensures FlipPoints(NormalizePoints(DenormalizePoints(FlipPoints(pts), width, height), width, height)) == pts
  {
    var flipped := FlipPoints(pts);
    forall i | 0 <= i < |pts|
      ensures IsIntegral(flipped[i].x) && IsIntegral(flipped[i].y)
    {
      FlipIntegral(pts[i]);
    }
    PointsRoundTrip(flipped, width, height);
    assert FlipPoints(flipped) == pts;
  }
}
