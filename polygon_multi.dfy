/**
 * The multi-shape polygon editor of
 * src/components/draw/PolygonMultipleKonvaCanvas.tsx: a collection of
 * closed shapes, one shape in progress, and a selected shape that is
 * brought to the front of the drawing order.
 *
 * Each React handler is one method whose steps run in sequence; the state
 * a later step reads is the state the earlier step left. Shape ids are
 * natural numbers: 0 stands for a missing or empty id, and fresh ids come
 * from a counter instead of Math.random.
 */
module MultiPolygonEditor {
  import opened Wrappers
  import opened PolygonGeometry
  import opened EditorKeys

  /** The number of points at which drawing finishes by itself. */
  const AutoFinishPoints: nat := 10

  datatype Shape = Shape(points: seq<Point>, isValid: bool, id: nat)

  /** A shape as the host receives it: points normalised, id and validity as they are. */
  function NormalizeShape(s: Shape, width: real, height: real): (r: Shape)
    requires width > 0.0 && height > 0.0
    ensures r.id == s.id && r.isValid == s.isValid && |r.points| == |s.points|
    ensures AllIntegral(r.points)
  {
    s.(points := NormalizePoints(s.points, width, height))
  }

  // ---------------------------------------------------------------------
  // The shape list operations

  /** bringShapeToFront: the shape at k moves to the end; an index out of range changes nothing. */
  function MovedToFront(s: seq<Shape>, k: int): (r: seq<Shape>)
    ensures |r| == |s|
    ensures !(0 <= k < |s|) ==> r == s
  {
    if 0 <= k < |s| then s[..k] + s[k + 1..] + [s[k]] else s
  }

  /** The moved shape is last, and the others keep their relative order. */
  lemma MovedToFrontOrder(s: seq<Shape>, k: int)
    requires 0 <= k < |s|
    ensures MovedToFront(s, k)[|s| - 1] == s[k]
    ensures forall i :: 0 <= i < |s| - 1 ==>
      MovedToFront(s, k)[i] == if i < k then s[i] else s[i + 1]
  {
  }

  /** Bringing to front only reorders: it is a permutation. */
  lemma {:induction false} MovedToFrontPermutes(s: seq<Shape>, k: int)
    ensures multiset(MovedToFront(s, k)) == multiset(s)
  {
    if 0 <= k < |s| {
      calc {
        multiset(MovedToFront(s, k));
        multiset(s[..k] + s[k + 1..]) + multiset{s[k]};
        multiset(s[..k]) + multiset(s[k + 1..]) + multiset{s[k]};
        multiset(s[..k]) + multiset(s[k..k + 1]) + multiset(s[k + 1..]);
        { assert s[..k] + s[k..k + 1] + s[k + 1..] == s; }
        multiset(s);
      }
    }
  }

  /** Every id of the reordered list is an id of the original list. */
  lemma MovedToFrontIds(s: seq<Shape>, k: int, nextId: int)
    requires forall i :: 0 <= i < |s| ==> 0 < s[i].id < nextId
    ensures forall i :: 0 <= i < |s| ==> 0 < MovedToFront(s, k)[i].id < nextId
  {
    if 0 <= k < |s| {
      MovedToFrontOrder(s, k);
    }
  }

  /** Bringing the last shape to front changes nothing, so the selection effect settles. */
  lemma MovedToFrontLast(s: seq<Shape>)
    requires |s| > 0
    ensures MovedToFront(s, |s| - 1) == s
  {
    assert s[..|s| - 1] + s[|s|..] + [s[|s| - 1]] == s;
  }

  /** deleteSelectedShape's filter: every shape except the one at k. */
  function Without(s: seq<Shape>, k: nat): (r: seq<Shape>)
    ensures k < |s| ==> |r| == |s| - 1
    ensures k >= |s| ==> r == s
  {
    if k < |s| then s[..k] + s[k + 1..] else s
  }

  /** Exactly the shape at k is gone; the rest keep their order. */
  lemma WithoutElements(s: seq<Shape>, k: nat)
    requires k < |s|
    ensures forall i :: 0 <= i < |s| - 1 ==> Without(s, k)[i] == if i < k then s[i] else s[i + 1]
  {
    var r := Without(s, k);
    assert r == s[..k] + s[k + 1..];
    forall i | 0 <= i < |s| - 1
      ensures r[i] == if i < k then s[i] else s[i + 1]
    {
      if i < k {
        assert r[i] == s[..k][i];
      } else {
        assert r[i] == s[k + 1..][i - k];
      }
    }
  }

  /** Deleting removes one occurrence of the shape at k and nothing else. */
  lemma WithoutMultiset(s: seq<Shape>, k: nat)
    requires k < |s|
    ensures multiset(Without(s, k)) + multiset{s[k]} == multiset(s)
  {
    calc {
      multiset(Without(s, k)) + multiset{s[k]};
      multiset(s[..k] + s[k + 1..]) + multiset{s[k]};
      multiset(s[..k]) + multiset(s[k + 1..]) + multiset{s[k]};
      multiset(s[..k]) + multiset(s[k..k + 1]) + multiset(s[k + 1..]);
      { assert s[..k] + s[k..k + 1] + s[k + 1..] == s; }
      multiset(s);
    }
  }

  // ---------------------------------------------------------------------
  // Validity

  /**
   * checkPolygonValidity: the nested loops over edge pairs, returning false
   * at the first crossing pair; fewer than three points are valid.
   */
  method CheckPolygonValidity(polyPoints: seq<Point>) returns (valid: bool)
    ensures valid == PolygonValid(polyPoints, false)
  {
    var n := |polyPoints|;
    if n < 3 {
      return true;
    }
    for i := 0 to n
      invariant forall i', j' :: 0 <= i' < i && KonvaLoopVisits(n, i', j') ==> !EdgesCross(polyPoints, false, i', j')
    {
      var a1 := polyPoints[i];
      var a2 := polyPoints[(i + 1) % n];
      var j := i + 2;
      while j < n + (if i > 0 then 1 else 0) - 1
        invariant i + 2 <= j
        invariant forall j' :: i + 2 <= j' < j && KonvaLoopVisits(n, i, j') ==> !EdgesCross(polyPoints, false, i, j')
      {
        if j >= n {
          j := j + 1;
          continue;
        }
        var b1 := polyPoints[j];
        var b2 := polyPoints[(j + 1) % n];
        if (i != 0 || j != n - 1) && DoLinesIntersect(a1, a2, b1, b2) {
          KonvaLoopExact(n, i, j);
          assert EdgesCross(polyPoints, false, i, j);
          return false;
        }
        j := j + 1;
      }
    }
    forall i: nat, j: nat | NonAdjacentPair(n, i, j)
      ensures !EdgesCross(polyPoints, false, i, j)
    {
      KonvaLoopExact(n, i, j);
    }
    return true;
  }

  // ---------------------------------------------------------------------
  // The editor

  /** The list after finishDrawing appends the shape made of pts with the given id. */
  ghost function WithShape(shapes: seq<Shape>, pts: seq<Point>, id: nat): seq<Shape> {
    shapes + [Shape(pts, PolygonValid(pts, false), id)]
  }

  /** The shapes after point pi of shape k moved to p and its validity was recomputed. */
  ghost function Edited(shapes: seq<Shape>, k: nat, pi: nat, p: Point): seq<Shape>
    requires k < |shapes| && pi < |shapes[k].points|
  {
    var pts := shapes[k].points[pi := p];
    shapes[k := shapes[k].(points := pts, isValid := PolygonValid(pts, false))]
  }

  /** initialShapesWithIds: a shape without id gets base + its position as a fresh id. */
  function WithIds(shapes: seq<Shape>, base: nat): (r: seq<Shape>)
    ensures |r| == |shapes|
    ensures forall k :: 0 <= k < |r| ==> r[k].points == shapes[k].points && r[k].isValid == shapes[k].isValid
    ensures forall k :: 0 <= k < |r| && shapes[k].id != 0 ==> r[k].id == shapes[k].id
    ensures forall k :: 0 <= k < |r| ==> r[k].id != 0
  {
    seq(|shapes|, k requires 0 <= k < |shapes| =>
      if shapes[k].id == 0 then shapes[k].(id := base + k + 1) else shapes[k])
  }

  function MaxId(shapes: seq<Shape>): (m: nat)
    ensures forall k :: 0 <= k < |shapes| ==> shapes[k].id <= m
  {
    if |shapes| == 0 then 0
    else var rest := MaxId(shapes[1..]);
      assert forall k :: 1 <= k < |shapes| ==> shapes[k] == shapes[1..][k - 1];
      if shapes[0].id <= rest then rest else shapes[0].id
  }

  class MultiShapeEditor {
    const width: real
    const height: real
    const maxShapes: nat
    var shapes: seq<Shape>
    var currentPoints: seq<Point>
    var isDrawing: bool
    var hoverFirstPoint: bool
    var selectedShapeIndex: Option<nat>
    var nextId: nat

    /**
     * The state every handler keeps: points are in progress exactly while
     * drawing, a selection names a shape, and every id is non-empty and
     * below the next fresh one.
     */
    ghost predicate Consistent()
      reads this
    {
      width > 0.0 && height > 0.0 && nextId > 0 &&
      (isDrawing ==> 1 <= |currentPoints| <= AutoFinishPoints) &&
      (!isDrawing ==> currentPoints == []) &&
      (selectedShapeIndex.Some? ==> selectedShapeIndex.value < |shapes|) &&
      (forall k :: 0 <= k < |shapes| ==> 0 < shapes[k].id < nextId)
    }

    /** Between events the shape in progress has fewer than AutoFinishPoints points. */
    ghost predicate Valid()
      reads this
    {
      Consistent() && (isDrawing ==> |currentPoints| < AutoFinishPoints)
    }

    /** The cap on the number of shapes, and room for the one in progress. */
    ghost predicate Bounded()
      reads this
    {
      |shapes| <= maxShapes && (isDrawing ==> |shapes| < maxShapes)
    }

    /** canAddMoreShapes, as the onChange effect recomputes it after every change of the list. */
    function CanAddMoreShapes(): bool
      reads this
    {
      |shapes| < maxShapes
    }

    /** What the onChange effect hands to the host: every shape with normalised points. */
    function Reported(): (r: seq<Shape>)
      reads this
      requires width > 0.0 && height > 0.0
      ensures |r| == |shapes|
      ensures forall k :: 0 <= k < |r| ==> r[k] == NormalizeShape(shapes[k], width, height)
    {
      seq(|shapes|, k reads this requires 0 <= k < |shapes| => NormalizeShape(shapes[k], width, height))
    }

    /**
     * The initial state after the mount effect: the shapes of initData with
     * denormalised points and every missing id filled in; not drawing and
     * nothing selected.
     */
    constructor(initData: seq<Shape>, maxShapes: nat, width: real, height: real)
      requires width > 0.0 && height > 0.0
      ensures Valid()
      ensures this.width == width && this.height == height && this.maxShapes == maxShapes
      ensures |shapes| == |initData|
      ensures forall k :: 0 <= k < |shapes| ==>
        shapes[k].points == DenormalizePoints(initData[k].points, width, height) &&
        shapes[k].isValid == initData[k].isValid &&
        (initData[k].id != 0 ==> shapes[k].id == initData[k].id)
      ensures currentPoints == [] && !isDrawing && !hoverFirstPoint && selectedShapeIndex == None
      ensures Bounded() <==> |initData| <= maxShapes
    {
      this.width := width;
      this.height := height;
      this.maxShapes := maxShapes;
      var base := MaxId(initData);
      var withIds := WithIds(initData, base);
      shapes := seq(|withIds|, k requires 0 <= k < |withIds| =>
        withIds[k].(points := DenormalizePoints(withIds[k].points, width, height)));
      currentPoints := [];
      isDrawing := false;
      hoverFirstPoint := false;
      selectedShapeIndex := None;
      nextId := base + |initData| + 1;
    }

    /** generateId: a fresh id, larger than every id in use. */
    method GenerateId() returns (id: nat)
      modifies this
      ensures id == old(nextId) && nextId == id + 1
      ensures shapes == old(shapes) && currentPoints == old(currentPoints) && isDrawing == old(isDrawing)
      ensures hoverFirstPoint == old(hoverFirstPoint) && selectedShapeIndex == old(selectedShapeIndex)
    {
      id := nextId;
      nextId := nextId + 1;
    }

    /**
     * finishDrawing: with at least three points, append them as a new shape
     * with a fresh id and its validity, clear them and leave drawing mode;
     * otherwise nothing happens.
     */
    method FinishDrawing()
      requires Consistent()
      modifies this
      ensures Consistent()
      ensures old(Valid()) || old(|currentPoints|) >= 3 ==> Valid()
      ensures old(|currentPoints|) < 3 ==> unchanged(this)
      ensures old(|currentPoints|) >= 3 ==>
        shapes == WithShape(old(shapes), old(currentPoints), old(nextId)) &&
        currentPoints == [] && !isDrawing && nextId == old(nextId) + 1 &&
        hoverFirstPoint == old(hoverFirstPoint) && selectedShapeIndex == old(selectedShapeIndex)
      ensures old(|currentPoints|) >= 3 ==> forall k :: 0 <= k < old(|shapes|) ==> shapes[k].id != old(nextId)
      ensures old(Bounded()) ==> Bounded()
    {
      if |currentPoints| >= 3 {
        var isValid := CheckPolygonValidity(currentPoints);
        var id := GenerateId();
        shapes := shapes + [Shape(currentPoints, isValid, id)];
        currentPoints := [];
        isDrawing := false;
      }
    }

    /** cancelDrawing: drop the points in progress and leave drawing mode. */
    method CancelDrawing()
      requires Valid()
      modifies this
      ensures Valid()
      ensures currentPoints == [] && !isDrawing
      ensures shapes == old(shapes) && nextId == old(nextId)
      ensures hoverFirstPoint == old(hoverFirstPoint) && selectedShapeIndex == old(selectedShapeIndex)
      ensures old(Bounded()) ==> Bounded()
    {
      currentPoints := [];
      isDrawing := false;
    }

    /**
     * handleMouseMove: while drawing with two or more points, remember
     * whether the pointer is within 10 pixels of the first point.
     */
    method HandleMouseMove(p: Point)
      requires Valid()
      modifies this
      ensures Valid()
      ensures hoverFirstPoint == if old(isDrawing) && old(|currentPoints|) >= 2
        then NearFirst(p, old(currentPoints[0])) else old(hoverFirstPoint)
      ensures shapes == old(shapes) && currentPoints == old(currentPoints) && isDrawing == old(isDrawing)
      ensures selectedShapeIndex == old(selectedShapeIndex) && nextId == old(nextId)
    {
      if isDrawing && |currentPoints| >= 2 {
        hoverFirstPoint := NearFirst(p, currentPoints[0]);
      }
    }

    /**
     * handleCanvasClick at pixel p; onStage says the stage background, not a
     * shape, was the target. While drawing: hovering the first point with two
     * or more points finishes (no point is added); otherwise p is appended,
     * and the tenth point finishes the shape. Not drawing: a background click
     * deselects, or else starts a new shape at p when there is room.
     */
    method HandleCanvasClick(p: Point, onStage: bool)
      requires Valid()
      modifies this
      ensures Valid()
      ensures old(isDrawing) && old(|currentPoints|) >= 2 && old(hoverFirstPoint) ==>
        if old(|currentPoints|) >= 3 then
          shapes == WithShape(old(shapes), old(currentPoints), old(nextId)) &&
          currentPoints == [] && !isDrawing && nextId == old(nextId) + 1
        else unchanged(this)
      ensures old(isDrawing) && !(old(|currentPoints|) >= 2 && old(hoverFirstPoint)) ==>
        if old(|currentPoints|) + 1 == AutoFinishPoints then
          shapes == WithShape(old(shapes), old(currentPoints) + [p], old(nextId)) &&
          currentPoints == [] && !isDrawing && nextId == old(nextId) + 1
        else
          shapes == old(shapes) && currentPoints == old(currentPoints) + [p] && isDrawing &&
          nextId == old(nextId)
      ensures old(isDrawing) ==> selectedShapeIndex == old(selectedShapeIndex)
      ensures !old(isDrawing) && !onStage ==> unchanged(this)
      ensures !old(isDrawing) && onStage && old(selectedShapeIndex).Some? ==>
        selectedShapeIndex == None && shapes == old(shapes) && !isDrawing && currentPoints == [] &&
        nextId == old(nextId)
      ensures !old(isDrawing) && onStage && old(selectedShapeIndex).None? ==>
        shapes == old(shapes) && selectedShapeIndex == None && nextId == old(nextId) &&
        if old(|shapes|) < maxShapes then isDrawing && currentPoints == [p]
        else !isDrawing && currentPoints == []
      ensures hoverFirstPoint == old(hoverFirstPoint)
      ensures old(Bounded()) ==> Bounded()
    {
      if isDrawing {
        if |currentPoints| >= 2 && hoverFirstPoint {
          FinishDrawing();
          return;
        }
        currentPoints := currentPoints + [p];
        if |currentPoints| == AutoFinishPoints {
          FinishDrawing();
        }
        return;
      }
      if onStage {
        if selectedShapeIndex.Some? {
          selectedShapeIndex := None;
          return;
        }
        if CanAddMoreShapes() {
          isDrawing := true;
          currentPoints := [p];
        }
      }
    }

    /** A click on point index of the shape in progress: the first point closes it once it has three points. */
    method DrawingPointClick(index: nat)
      requires Valid() && isDrawing && index < |currentPoints|
      modifies this
      ensures Valid()
      ensures index == 0 && old(|currentPoints|) >= 3 ==>
        shapes == WithShape(old(shapes), old(currentPoints), old(nextId)) && currentPoints == [] && !isDrawing &&
        nextId == old(nextId) + 1 && selectedShapeIndex == old(selectedShapeIndex) &&
        hoverFirstPoint == old(hoverFirstPoint)
      ensures !(index == 0 && old(|currentPoints|) >= 3) ==> unchanged(this)
      ensures old(Bounded()) ==> Bounded()
    {
      if index == 0 && |currentPoints| >= 3 {
        FinishDrawing();
      }
    }

    /**
     * bringShapeToFront: move shape index to the end of the list and select
     * it there; an index out of range changes nothing.
     */
    method BringShapeToFront(index: int)
      requires Valid()
      modifies this
      ensures Valid()
      ensures shapes == MovedToFront(old(shapes), index)
      ensures selectedShapeIndex == if 0 <= index < old(|shapes|) then Some(|shapes| - 1) else old(selectedShapeIndex)
      ensures currentPoints == old(currentPoints) && isDrawing == old(isDrawing) && nextId == old(nextId)
      ensures hoverFirstPoint == old(hoverFirstPoint)
      ensures old(Bounded()) ==> Bounded()
    {
      if index < 0 || index >= |shapes| {
        return;
      }
      var updatedShapes := shapes;
      var shapeToMove := updatedShapes[index];
      updatedShapes := updatedShapes[..index] + updatedShapes[index + 1..];
      updatedShapes := updatedShapes + [shapeToMove];
      assert updatedShapes == MovedToFront(shapes, index);
      MovedToFrontIds(shapes, index, nextId);
      shapes := updatedShapes;
      selectedShapeIndex := Some(|updatedShapes| - 1);
    }

    /**
     * handleShapeClick on shape k: ignored while drawing or when k is already
     * selected; otherwise k is selected and the selection effect brings it
     * to the front.
     */
    method ShapeClick(k: nat)
      requires Valid() && k < |shapes|
      modifies this
      ensures Valid()
      ensures old(isDrawing) || old(selectedShapeIndex) == Some(k) ==> unchanged(this)
      ensures !old(isDrawing) && old(selectedShapeIndex) != Some(k) ==>
        shapes == MovedToFront(old(shapes), k) && selectedShapeIndex == Some(|shapes| - 1) &&
        currentPoints == old(currentPoints) && isDrawing == old(isDrawing) && nextId == old(nextId) &&
        hoverFirstPoint == old(hoverFirstPoint)
      ensures old(Bounded()) ==> Bounded()
    {
      if isDrawing {
        return;
      }
      if selectedShapeIndex == Some(k) {
        return;
      }
      selectedShapeIndex := Some(k);
      BringShapeToFront(k);
    }

    /**
     * handlePointDragMove for point pi of shape k, now at p. Only that point
     * changes and only that shape's validity is recomputed; a shape that was
     * not selected becomes selected and is brought to the front. Index -1
     * is the shape in progress, whose points are only replaced.
     */
    method DragPoint(k: int, pi: nat, p: Point)
      requires Valid()
      requires k == -1 ==> pi < |currentPoints|
      requires k != -1 ==> 0 <= k < |shapes| && pi < |shapes[k].points|
      modifies this
      ensures Valid()
      ensures k == -1 ==>
        currentPoints == old(currentPoints)[pi := p] && shapes == old(shapes) &&
        selectedShapeIndex == old(selectedShapeIndex)
      ensures k != -1 && old(selectedShapeIndex) == Some(k) ==>
        shapes == Edited(old(shapes), k, pi, p) && selectedShapeIndex == old(selectedShapeIndex)
      ensures k != -1 && old(selectedShapeIndex) != Some(k) ==>
        shapes == MovedToFront(Edited(old(shapes), k, pi, p), k) && selectedShapeIndex == Some(|shapes| - 1)
      ensures k != -1 ==> currentPoints == old(currentPoints)
      ensures isDrawing == old(isDrawing) && nextId == old(nextId) && hoverFirstPoint == old(hoverFirstPoint)
      ensures old(Bounded()) ==> Bounded()
    {
      if k == -1 {
        currentPoints := currentPoints[pi := p];
        return;
      }
      EditShapePoint(k, pi, p);
      if selectedShapeIndex != Some(k) {
        selectedShapeIndex := Some(k);
        BringShapeToFront(k);
      }
    }

    /** The edit of an existing shape: replace point pi and recompute the shape's validity. */
    method EditShapePoint(k: nat, pi: nat, p: Point)
      requires Valid() && k < |shapes| && pi < |shapes[k].points|
      modifies this
      ensures Valid()
      ensures shapes == Edited(old(shapes), k, pi, p)
      ensures currentPoints == old(currentPoints) && isDrawing == old(isDrawing) && nextId == old(nextId)
      ensures hoverFirstPoint == old(hoverFirstPoint) && selectedShapeIndex == old(selectedShapeIndex)
    {
      var newPoints := shapes[k].points[pi := p];
      var isValid := CheckPolygonValidity(newPoints);
      var updated := shapes[k].(points := newPoints, isValid := isValid);
      assert updated.id == shapes[k].id;
      shapes := shapes[k := updated];
    }

    /**
     * removeLastPoint: drop the newest point of the shape in progress;
     * removing the only point leaves drawing mode; no points, no change.
     */
    method RemoveLastPoint()
      requires Valid()
      modifies this
      ensures Valid()
      ensures old(|currentPoints|) == 0 ==> unchanged(this)
      ensures old(|currentPoints|) > 0 ==> currentPoints == old(currentPoints)[..old(|currentPoints|) - 1]
      ensures isDrawing == (old(isDrawing) && old(|currentPoints|) != 1)
      ensures shapes == old(shapes) && selectedShapeIndex == old(selectedShapeIndex) && nextId == old(nextId)
      ensures hoverFirstPoint == old(hoverFirstPoint)
      ensures old(Bounded()) ==> Bounded()
    {
      if |currentPoints| > 0 {
        var removed := |currentPoints|;
        currentPoints := currentPoints[..|currentPoints| - 1];
        if removed == 1 {
          isDrawing := false;
        }
      }
    }

    /** deleteSelectedShape: remove the selected shape and clear the selection; no selection, no change. */
    method DeleteSelectedShape()
      requires Valid()
      modifies this
      ensures Valid()
      ensures old(selectedShapeIndex).None? ==> unchanged(this)
      ensures old(selectedShapeIndex).Some? ==>
        shapes == Without(old(shapes), old(selectedShapeIndex).value) && selectedShapeIndex == None
      ensures currentPoints == old(currentPoints) && isDrawing == old(isDrawing) && nextId == old(nextId)
      ensures hoverFirstPoint == old(hoverFirstPoint)
      ensures old(Bounded()) ==> Bounded()
    {
      if selectedShapeIndex.Some? {
        shapes := Without(shapes, selectedShapeIndex.value);
        selectedShapeIndex := None;
      }
    }

    /**
     * The keydown listener. Drawing: Backspace or Delete removes the last
     * point, Enter finishes, Escape cancels. Otherwise Backspace or Delete
     * deletes the selected shape. Every other key is ignored.
     */
    method KeyDown(key: Key)
      requires Valid()
      modifies this
      ensures Valid()
      ensures key == Other || (!old(isDrawing) && (key == Enter || key == Escape)) ==> unchanged(this)
      ensures old(isDrawing) && key == Escape ==>
        currentPoints == [] && !isDrawing && shapes == old(shapes) &&
        selectedShapeIndex == old(selectedShapeIndex) && nextId == old(nextId)
      ensures old(isDrawing) && key == Enter && old(|currentPoints|) < 3 ==> unchanged(this)
      ensures old(isDrawing) && key == Enter && old(|currentPoints|) >= 3 ==>
        shapes == WithShape(old(shapes), old(currentPoints), old(nextId)) && currentPoints == [] && !isDrawing &&
        nextId == old(nextId) + 1 && selectedShapeIndex == old(selectedShapeIndex)
      ensures old(isDrawing) && (key == Backspace || key == Delete) ==>
        currentPoints == old(currentPoints)[..old(|currentPoints|) - 1] &&
        isDrawing == (old(|currentPoints|) != 1) && shapes == old(shapes) &&
        selectedShapeIndex == old(selectedShapeIndex) && nextId == old(nextId)
      ensures !old(isDrawing) && (key == Backspace || key == Delete) ==>
        currentPoints == [] && !isDrawing && selectedShapeIndex == None && nextId == old(nextId) &&
        shapes == (if old(selectedShapeIndex).Some? then Without(old(shapes), old(selectedShapeIndex).value) else old(shapes))
      ensures hoverFirstPoint == old(hoverFirstPoint)
      ensures old(Bounded()) ==> Bounded()
    {
      if isDrawing {
        match key {
          case Backspace => RemoveLastPoint();
          case Delete => RemoveLastPoint();
          case Enter => FinishDrawing();
          case Escape => CancelDrawing();
          case Other =>
        }
      } else {
        match key {
          case Backspace => DeleteSelectedShape();
          case Delete => DeleteSelectedShape();
          case _ =>
        }
      }
    }
  }
}
