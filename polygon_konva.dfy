/**
 * The single-polygon Konva editor of src/components/draw/PolygonKonvaCanvas.tsx:
 * one point list, a drawing/editing mode, and the two host callbacks
 * (onChange with normalised points, onIsValid with the validity).
 *
 * The callbacks are modelled as the last value each one received. The
 * effect that reports a changed point list runs as the last step of every
 * handler that replaces the list.
 */
module SinglePolygonEditor {
  import opened Wrappers
  import opened PolygonGeometry
  import opened EditorKeys

  /** The number of points at which drawing finishes by itself. */
  const AutoFinishPoints: nat := 10

  /**
   * checkPolygonValidity: the nested loops over edge pairs, with an isValid
   * flag and a break out of both loops at the first crossing pair.
   */
  method CheckPolygonValidity(polyPoints: seq<Point>) returns (isValid: bool)
    ensures isValid == PolygonValid(polyPoints, false)
  {
    var n := |polyPoints|;
    if n < 3 {
      return true;
    }
    isValid := true;
    var i := 0;
    while i < n
      invariant 0 <= i <= n
      invariant isValid ==> forall i', j' :: 0 <= i' < i && KonvaLoopVisits(n, i', j') ==> !EdgesCross(polyPoints, false, i', j')
      invariant !isValid ==> !PolygonValid(polyPoints, false)
    {
      var a1 := polyPoints[i];
      var a2 := polyPoints[(i + 1) % n];
      var j := i + 2;
      while j < n + (if i > 0 then 1 else 0) - 1
        invariant i + 2 <= j
        invariant isValid
        invariant forall j' :: i + 2 <= j' < j && KonvaLoopVisits(n, i, j') ==> !EdgesCross(polyPoints, false, i, j')
      {
        if j >= n {
          j := j + 1;
          continue;
        }
        var b1 := polyPoints[j];
        var b2 := polyPoints[(j + 1) % n];
        if (i != 0 || j != n - 1) && DoLinesIntersect(a1, a2, b1, b2) {
          KonvaLoopExact(n, i, j);
          assert EdgesCross(polyPoints, false, i, j);
          isValid := false;
          break;
        }
        j := j + 1;
      }
      if !isValid {
        break;
      }
      i := i + 1;
    }
    if isValid {
      forall i': nat, j': nat | NonAdjacentPair(n, i', j')
        ensures !EdgesCross(polyPoints, false, i', j')
      {
        KonvaLoopExact(n, i', j');
      }
    }
  }

  class SingleShapeEditor {
    const width: real
    const height: real
    var points: seq<Point>
    var isDrawing: bool
    var hoverFirstPoint: bool
    /** The last list handed to onChange, if any. */
    var changed: Option<seq<Point>>
    /** The last value handed to onIsValid, if any. */
    var reportedValid: Option<bool>

    ghost predicate Consistent()
      reads this
    {
      width > 0.0 && height > 0.0
    }

    /** Between events a polygon in progress has fewer than AutoFinishPoints points. */
    ghost predicate Valid()
      reads this
    {
      Consistent() && (isDrawing ==> |points| < AutoFinishPoints)
    }

    /**
     * The state after the mount effects: the points of initData on the
     * canvas, drawing exactly when initData is empty, and the host told the
     * normalised points (three or more) and the validity (any points).
     */
    constructor(initData: seq<Point>, width: real, height: real)
      requires width > 0.0 && height > 0.0
      ensures Valid()
      ensures this.width == width && this.height == height
      ensures points == DenormalizePoints(initData, width, height)
      ensures isDrawing <==> |initData| == 0
      ensures !hoverFirstPoint
      ensures changed == if |initData| >= 3 then Some(NormalizePoints(points, width, height)) else None
      ensures reportedValid == if |initData| > 0 then Some(PolygonValid(points, false)) else None
    {
      this.width := width;
      this.height := height;
      var pts := DenormalizePoints(initData, width, height);
      points := pts;
      isDrawing := |initData| == 0;
      hoverFirstPoint := false;
      changed := None;
      reportedValid := None;
      if |initData| > 0 {
        var v := CheckPolygonValidity(pts);
        reportedValid := Some(v);
      }
      if |pts| >= 3 {
        changed := Some(NormalizePoints(pts, width, height));
      }
    }

    /** The points effect: with three or more points, report them normalised and their validity. */
    method PointsChanged()
      requires Consistent()
      modifies this
      ensures points == old(points) && isDrawing == old(isDrawing) && hoverFirstPoint == old(hoverFirstPoint)
      ensures |points| >= 3 ==>
        changed == Some(NormalizePoints(points, width, height)) && reportedValid == Some(PolygonValid(points, false))
      ensures |points| < 3 ==> changed == old(changed) && reportedValid == old(reportedValid)
    {
      if |points| >= 3 {
        changed := Some(NormalizePoints(points, width, height));
        var v := CheckPolygonValidity(points);
        reportedValid := Some(v);
      }
    }

    /** finishDrawing: leave drawing mode when there are three or more points; the points stay. */
    method FinishDrawing()
      requires Consistent()
      modifies this
      ensures Consistent()
      ensures isDrawing == (old(isDrawing) && old(|points|) < 3)
      ensures points == old(points) && changed == old(changed) && reportedValid == old(reportedValid)
      ensures hoverFirstPoint == old(hoverFirstPoint)
    {
      if |points| >= 3 {
        isDrawing := false;
      }
    }

    /** handleMouseMove: while drawing with two or more points, remember whether p is near the first. */
    method HandleMouseMove(p: Point)
      requires Valid()
      modifies this
      ensures Valid()
      ensures hoverFirstPoint == if old(isDrawing) && old(|points|) >= 2
        then NearFirst(p, old(points[0])) else old(hoverFirstPoint)
      ensures points == old(points) && isDrawing == old(isDrawing)
      ensures changed == old(changed) && reportedValid == old(reportedValid)
    {
      if isDrawing && |points| >= 2 {
        hoverFirstPoint := NearFirst(p, points[0]);
      }
    }

    /**
     * handleCanvasClick at p. Not drawing: nothing changes. Drawing and
     * hovering the first point with two or more points: finish, adding no
     * point. Otherwise p is appended and reported, and the tenth point
     * finishes.
     */
    method HandleCanvasClick(p: Point)
      requires Valid()
      modifies this
      ensures Valid()
      ensures !old(isDrawing) ==> unchanged(this)
      ensures old(isDrawing) && old(|points|) >= 2 && old(hoverFirstPoint) ==>
        points == old(points) && isDrawing == (old(|points|) < 3) &&
        changed == old(changed) && reportedValid == old(reportedValid)
      ensures old(isDrawing) && !(old(|points|) >= 2 && old(hoverFirstPoint)) ==>
        points == old(points) + [p] && isDrawing == (|points| < AutoFinishPoints)
      ensures old(isDrawing) && !(old(|points|) >= 2 && old(hoverFirstPoint)) && |points| >= 3 ==>
        changed == Some(NormalizePoints(points, width, height)) && reportedValid == Some(PolygonValid(points, false))
      ensures old(isDrawing) && !(old(|points|) >= 2 && old(hoverFirstPoint)) && |points| < 3 ==>
        changed == old(changed) && reportedValid == old(reportedValid)
      ensures hoverFirstPoint == old(hoverFirstPoint)
    {
      if !isDrawing {
        return;
      }
      if |points| >= 2 && hoverFirstPoint {
        FinishDrawing();
        return;
      }
      points := points + [p];
      PointsChanged();
      if |points| == AutoFinishPoints {
        FinishDrawing();
      }
    }

    /** A click on point index: the first point closes a polygon in progress of three or more points. */
    method PointClick(index: nat)
      requires Valid() && index < |points|
      modifies this
      ensures Valid()
      ensures index == 0 && old(isDrawing) && old(|points|) >= 3 ==> !isDrawing
      ensures !(index == 0 && old(isDrawing) && old(|points|) >= 3) ==> isDrawing == old(isDrawing)
      ensures points == old(points) && changed == old(changed) && reportedValid == old(reportedValid)
      ensures hoverFirstPoint == old(hoverFirstPoint)
    {
      if index == 0 && isDrawing && |points| >= 3 {
        FinishDrawing();
      }
    }

    /** handlePointDragMove: point index moves to p; nothing else in the list changes. */
    method DragPoint(index: nat, p: Point)
      requires Valid() && index < |points|
      modifies this
      ensures Valid()
      ensures points == old(points)[index := p] && isDrawing == old(isDrawing)
      ensures |points| >= 3 ==>
        changed == Some(NormalizePoints(points, width, height)) && reportedValid == Some(PolygonValid(points, false))
      ensures |points| < 3 ==> changed == old(changed) && reportedValid == old(reportedValid)
      ensures hoverFirstPoint == old(hoverFirstPoint)
    {
      points := points[index := p];
      PointsChanged();
    }

    /**
     * removeLastPoint: drop the last point and let the points effect report
     * what remains; no points, no change; the mode never changes.
     */
    method RemoveLastPoint()
      requires Valid()
      modifies this
      ensures Valid()
      ensures old(|points|) == 0 ==> unchanged(this)
      ensures old(|points|) > 0 ==> points == old(points)[..old(|points|) - 1]
      ensures |points| >= 3 ==>
        changed == Some(NormalizePoints(points, width, height)) && reportedValid == Some(PolygonValid(points, false))
      ensures |points| < 3 ==> changed == old(changed) && reportedValid == old(reportedValid)
      ensures isDrawing == old(isDrawing) && hoverFirstPoint == old(hoverFirstPoint)
    {
      if |points| > 0 {
        points := points[..|points| - 1];
        PointsChanged();
      }
    }

    /** clearPolygon: no points, back to drawing, and the host told an empty list that is valid. */
    method ClearPolygon()
      requires Valid()
      modifies this
      ensures Valid()
      ensures points == [] && isDrawing
      ensures changed == Some([]) && reportedValid == Some(true)
      ensures hoverFirstPoint == old(hoverFirstPoint)
    {
      points := [];
      isDrawing := true;
      changed := Some([]);
      reportedValid := Some(true);
    }

    /**
     * The keydown listener. Drawing: Backspace removes the last point and
     * Escape clears. Not drawing: only Delete clears. Every other key is ignored.
     */
    method KeyDown(key: Key)
      requires Valid()
      modifies this
      ensures Valid()
      ensures old(isDrawing) && key == Backspace ==>
        points == (if old(|points|) > 0 then old(points)[..old(|points|) - 1] else old(points)) && isDrawing
      ensures old(isDrawing) && key == Backspace && |points| >= 3 ==>
        changed == Some(NormalizePoints(points, width, height)) && reportedValid == Some(PolygonValid(points, false))
      ensures old(isDrawing) && key == Backspace && |points| < 3 ==>
        changed == old(changed) && reportedValid == old(reportedValid)
      ensures (old(isDrawing) && key == Escape) || (!old(isDrawing) && key == Delete) ==>
        points == [] && isDrawing && changed == Some([]) && reportedValid == Some(true)
      ensures !(old(isDrawing) && (key == Backspace || key == Escape)) && !(!old(isDrawing) && key == Delete) ==>
        unchanged(this)
      ensures hoverFirstPoint == old(hoverFirstPoint)
    {
      if isDrawing {
        if key == Backspace {
          RemoveLastPoint();
        } else if key == Escape {
          ClearPolygon();
        }
      } else if key == Delete {
        ClearPolygon();
      }
    }
  }
}
