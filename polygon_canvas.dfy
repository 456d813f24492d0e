/**
 * The HTML-canvas polygon editor of src/components/draw/PolygonCanvas.tsx:
 * a drawing mode that ends for good once the polygon is finished, and an
 * edit mode in which points are dragged. Positions arrive already relative
 * to the canvas; the host callbacks are modelled as the last value each
 * one received.
 */
module CanvasPolygonEditor {
  import opened Wrappers
  import opened PolygonGeometry
  import opened EditorKeys

  /** The point-picking radius in pixels. */
  const NearThreshold: real := 10.0

  /** The number of points at which drawing finishes by itself. */
  const AutoFinishPoints: nat := 10

  /** isNearPoint with its default threshold: Math.sqrt(dx² + dy²) <= 10, boundary included. */
  predicate IsNearPoint(p1: Point, p2: Point) {
    SquaredDistance(p1, p2) <= NearThreshold * NearThreshold
  }

  /** Nearness does not depend on the order of the two points. */
  lemma IsNearPointSymmetric(p1: Point, p2: Point)
    ensures IsNearPoint(p1, p2) <==> IsNearPoint(p2, p1)
  {
    assert (p1.x - p2.x) * (p1.x - p2.x) == (p2.x - p1.x) * (p2.x - p1.x);
    assert (p1.y - p2.y) * (p1.y - p2.y) == (p2.y - p1.y) * (p2.y - p1.y);
  }

  /**
   * A point exactly 10 pixels away is near here, while the Konva editors'
   * close-the-polygon test, which is strict, does not count it.
   */
  lemma BoundaryIsNear()
    ensures IsNearPoint(Point(10.0, 0.0), Point(0.0, 0.0))
    ensures !NearFirst(Point(10.0, 0.0), Point(0.0, 0.0))
  {
  }

  /** findPointIndex: the smallest index of a point near the query, or -1 when there is none. */
  method FindPointIndex(points: seq<Point>, point: Point) returns (r: int)
    ensures -1 <= r < |points|
    ensures r == -1 <==> forall i :: 0 <= i < |points| ==> !IsNearPoint(point, points[i])
    ensures r >= 0 ==> IsNearPoint(point, points[r]) && forall i :: 0 <= i < r ==> !IsNearPoint(point, points[i])
  {
    for i := 0 to |points|
      invariant forall k :: 0 <= k < i ==> !IsNearPoint(point, points[k])
    {
      if IsNearPoint(point, points[i]) {
        return i;
      }
    }
    return -1;
  }

  /**
   * checkIfValid: nested loops over j in [i + 2, n + (i == 0 ? -1 : 0)),
   * skipping adjacent pairs, returning false at the first pair that meets
   * under the inclusive test; fewer than three points are valid.
   */
  method CheckIfValid(pts: seq<Point>) returns (valid: bool)
    ensures valid == PolygonValid(pts, true)
  {
    var n := |pts|;
    if n < 3 {
      return true;
    }
    for i := 0 to n
      invariant forall i', j' :: 0 <= i' < i && CanvasLoopVisits(n, i', j') ==> !EdgesCross(pts, true, i', j')
    {
      var a := pts[i];
      var b := pts[(i + 1) % n];
      var j := i + 2;
      while j < n + (if i == 0 then -1 else 0)
        invariant i + 2 <= j
        invariant forall j' :: i + 2 <= j' < j && CanvasLoopVisits(n, i, j') ==> !EdgesCross(pts, true, i, j')
      {
        CanvasLoopExact(n, i, j);
        if (i == 0 && j == n - 1) || (if i - j < 0 then j - i else i - j) <= 1 {
          j := j + 1;
          continue;
        }
        var c := pts[j % n];
        var d := pts[(j + 1) % n];
        if DoLinesIntersectInclusive(a, b, c, d) {
          assert EdgesCross(pts, true, i, j);
          return false;
        }
        j := j + 1;
      }
    }
    forall i: nat, j: nat | NonAdjacentPair(n, i, j)
      ensures !EdgesCross(pts, true, i, j)
    {
      CanvasLoopExact(n, i, j);
    }
    return true;
  }

  class PolygonCanvasEditor {
    /** canvas.width and canvas.height, the extents normalizePoints divides by. */
    const canvasWidth: real
    const canvasHeight: real
    var points: seq<Point>
    var isDrawing: bool
    var dragIndex: Option<nat>
    var isDragging: bool
    /** The last list handed to onChange, if any. */
    var changed: Option<seq<Point>>
    /** The last value handed to onIsValid, if any. */
    var reportedValid: Option<bool>

    /**
     * A drag is on exactly when it has an index, that index names a point,
     * and dragging happens only in edit mode. A polygon in progress has
     * fewer than AutoFinishPoints points between events.
     */
    ghost predicate Valid()
      reads this
    {
      canvasWidth > 0.0 && canvasHeight > 0.0 &&
      (isDragging <==> dragIndex.Some?) &&
      (dragIndex.Some? ==> dragIndex.value < |points| && !isDrawing) &&
      (isDrawing ==> |points| < AutoFinishPoints)
    }

    constructor(canvasWidth: real, canvasHeight: real)
      requires canvasWidth > 0.0 && canvasHeight > 0.0
      ensures Valid()
      ensures this.canvasWidth == canvasWidth && this.canvasHeight == canvasHeight
      ensures points == [] && isDrawing && dragIndex == None && !isDragging
      ensures changed == None && reportedValid == None
    {
      this.canvasWidth := canvasWidth;
      this.canvasHeight := canvasHeight;
      points := [];
      isDrawing := true;
      dragIndex := None;
      isDragging := false;
      changed := None;
      reportedValid := None;
    }

    /** onChange(normalizePoints(pts)) followed by checkIfValid(pts). */
    method Report(pts: seq<Point>)
      requires canvasWidth > 0.0 && canvasHeight > 0.0
      modifies this
      ensures changed == Some(NormalizePoints(pts, canvasWidth, canvasHeight))
      ensures reportedValid == Some(PolygonValid(pts, true))
      ensures points == old(points) && isDrawing == old(isDrawing)
      ensures dragIndex == old(dragIndex) && isDragging == old(isDragging)
    {
      changed := Some(NormalizePoints(pts, canvasWidth, canvasHeight));
      var v := CheckIfValid(pts);
      reportedValid := Some(v);
    }

    /**
     * The keydown listener, active only while drawing: Backspace or Delete
     * pops the last point and reports the rest; Escape clears to an empty,
     * valid polygon, still drawing. Edit mode ignores every key.
     */
    method KeyDown(key: Key)
      requires Valid()
      modifies this
      ensures Valid()
      ensures !old(isDrawing) || key == Enter || key == Other ==> unchanged(this)
      ensures old(isDrawing) && (key == Backspace || key == Delete) && old(|points|) > 0 ==>
        points == old(points)[..old(|points|) - 1] && isDrawing &&
        changed == Some(NormalizePoints(points, canvasWidth, canvasHeight)) &&
        reportedValid == Some(PolygonValid(points, true))
      ensures old(isDrawing) && (key == Backspace || key == Delete) && old(|points|) == 0 ==> unchanged(this)
      ensures old(isDrawing) && key == Escape ==>
        points == [] && isDrawing && changed == Some([]) && reportedValid == Some(true)
      ensures dragIndex == old(dragIndex) && isDragging == old(isDragging)
    {
      if !isDrawing {
        return;
      }
      if key == Backspace || key == Delete {
        if |points| > 0 {
          var newPoints := points[..|points| - 1];
          points := newPoints;
          Report(newPoints);
        }
      } else if key == Escape {
        points := [];
        isDrawing := true;
        changed := Some([]);
        reportedValid := Some(true);
      }
    }

    /** handleMouseMove: during a drag the dragged point follows p and the list is reported. */
    method MouseMove(p: Point)
      requires Valid()
      modifies this
      ensures Valid()
      ensures old(dragIndex).Some? ==>
        points == old(points)[old(dragIndex).value := p] &&
        changed == Some(NormalizePoints(points, canvasWidth, canvasHeight)) &&
        reportedValid == Some(PolygonValid(points, true))
      ensures old(dragIndex).None? ==> unchanged(this)
      ensures isDrawing == old(isDrawing) && dragIndex == old(dragIndex) && isDragging == old(isDragging)
    {
      if dragIndex.Some? && isDragging {
        var newPoints := points[dragIndex.value := p];
        points := newPoints;
        Report(newPoints);
      }
    }

    /** handleMouseDown: in edit mode, a press near a point starts dragging the first such point. */
    method MouseDown(p: Point)
      requires Valid()
      modifies this
      ensures Valid()
      ensures old(isDrawing) ==> unchanged(this)
      ensures !old(isDrawing) && (exists i :: 0 <= i < |points| && IsNearPoint(p, points[i])) ==>
        dragIndex.Some? && isDragging && IsNearPoint(p, points[dragIndex.value]) &&
        forall i :: 0 <= i < dragIndex.value ==> !IsNearPoint(p, points[i])
      ensures !(exists i :: 0 <= i < old(|points|) && IsNearPoint(p, old(points[i]))) ==> unchanged(this)
      ensures points == old(points) && isDrawing == old(isDrawing)
      ensures changed == old(changed) && reportedValid == old(reportedValid)
    {
      if isDrawing {
        return;
      }
      var pointIndex := FindPointIndex(points, p);
      if pointIndex != -1 {
        dragIndex := Some(pointIndex);
        isDragging := true;
      }
    }

    /** handleMouseUp, also the mouse-leave handler: any drag ends. */
    method MouseUp()
      requires Valid()
      modifies this
      ensures Valid()
      ensures dragIndex == None && !isDragging
      ensures points == old(points) && isDrawing == old(isDrawing)
      ensures changed == old(changed) && reportedValid == old(reportedValid)
    {
      if dragIndex.Some? && isDragging {
        isDragging := false;
        dragIndex := None;
      }
    }

    /** finishDrawing: with three or more points, enter edit mode for good and report the validity. */
    method FinishDrawing()
      requires canvasWidth > 0.0 && canvasHeight > 0.0 && dragIndex.None? && !isDragging
      modifies this
      ensures old(|points|) >= 3 ==> !isDrawing && reportedValid == Some(PolygonValid(points, true))
      ensures old(|points|) < 3 ==> unchanged(this)
      ensures points == old(points) && changed == old(changed)
      ensures dragIndex == old(dragIndex) && isDragging == old(isDragging)
    {
      if |points| >= 3 {
        isDrawing := false;
        var v := CheckIfValid(points);
        reportedValid := Some(v);
      }
    }

    /**
     * handleCanvasClick at p, ignored in edit mode. A click near the first
     * of three or more points finishes without adding a point; otherwise p
     * is appended and reported, and at ten points drawing finishes.
     */
    method HandleCanvasClick(p: Point)
      requires Valid()
      modifies this
      ensures Valid()
      ensures !old(isDrawing) ==> unchanged(this)
      ensures old(isDrawing) && old(|points|) >= 3 && IsNearPoint(p, old(points[0])) ==>
        points == old(points) && !isDrawing && changed == old(changed) &&
        reportedValid == Some(PolygonValid(points, true))
      ensures old(isDrawing) && !(old(|points|) >= 3 && IsNearPoint(p, old(points[0]))) ==>
        points == old(points) + [p] && isDrawing == (|points| < AutoFinishPoints) &&
        changed == Some(NormalizePoints(points, canvasWidth, canvasHeight)) &&
        reportedValid == Some(PolygonValid(points, true))
      ensures dragIndex == old(dragIndex) && isDragging == old(isDragging)
    {
      if !isDrawing {
        return;
      }
      if |points| >= 3 && IsNearPoint(p, points[0]) {
        FinishDrawing();
        return;
      }
      var newPoints := points + [p];
      points := newPoints;
      Report(newPoints);
      if |newPoints| >= AutoFinishPoints {
        FinishDrawing();
      }
    }
  }

  /** Edit mode is terminal: no event brings the editor back to drawing. */
  method EditModeIsTerminal(e: PolygonCanvasEditor, key: Key, p: Point)
    requires e.Valid() && !e.isDrawing
    modifies e
    ensures !e.isDrawing
  {
    e.KeyDown(key);
    e.MouseDown(p);
    e.MouseMove(p);
    e.HandleCanvasClick(p);
    e.MouseUp();
  }
}
