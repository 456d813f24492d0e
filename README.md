# react-draw-selection, modelled in Dafny

This project models the logic under the React and Konva plumbing of the
react-draw-selection components. There are four parts:

- **The grid-row codec** (`src/utils/functions.ts`). A row of 22 booleans is
  read as an unsigned integer, most significant bit first, and back. Both
  directions check their input domain.
- **The rubber-band grid painters** (`DrawingGrid.tsx` and `CanvasGrid.tsx`).
  Each is a boolean matrix held in an `array2`. Mouse-down picks the fill
  mode as the negation of the start cell. Every move overwrites the
  rectangle between the start cell and the cell under the pointer.
  `CanvasGrid` repaints only when the pointer enters a new cell.
- **The three polygon editors**:
  - the multi-shape Konva editor, with a shape list, a selection that is
    brought to the front, and a cap on the number of shapes;
  - the single-polygon Konva editor;
  - the HTML-canvas editor, whose edit mode drags points.

  Each editor has a self-intersection validator over the non-adjacent edge
  pairs of the closed polygon. It is proved equal to one reference predicate,
  `PolygonValid`. The segment tests are proved to mean what they say: the two
  segments meet at parameters strictly inside (0, 1) for the Konva editors,
  and inside the closed [0, 1] for the canvas editor. Normalisation to the
  integer range 0..1000 is proved to round-trip on integral data.
- **The polygon page** (`DrawPolygon.tsx`). It flips y to 1000 − y on the way
  in and on the way out. The flip is an involution, so a page's stored data
  survives a visit to the editor.

Modules:

| file | module | models |
|---|---|---|
| wrappers.dfy | Wrappers | `Option`, `Result` |
| row_codec.dfy | RowCodec | `src/utils/functions.ts` |
| grid_paint.dfy | GridPaint | cell arithmetic and `applyRectangle`, shared by both painters |
| drawing_grid.dfy | DrawingGridCanvas | `src/components/grid/DrawingGrid.tsx` |
| canvas_grid.dfy | CanvasGridCanvas | `src/components/CanvasGrid.tsx` |
| geometry.dfy | PolygonGeometry, EditorKeys | normalisation, distance, segment tests, edge-pair enumeration and validity, shared by the editors |
| polygon_multi.dfy | MultiPolygonEditor | `src/components/draw/PolygonMultipleKonvaCanvas.tsx` |
| polygon_konva.dfy | SinglePolygonEditor | `src/components/draw/PolygonKonvaCanvas.tsx` |
| polygon_canvas.dfy | CanvasPolygonEditor | `src/components/draw/PolygonCanvas.tsx` |
| draw_polygon.dfy | DrawPolygonPage | `src/pages/DrawPolygon.tsx` |

Modelling choices:

- **Each event handler is one method.** Its steps run in order, and a later
  step sees the state an earlier step left. React instead applies one
  handler's state updates together at the next render.
- **Effects that react to a state change** (reporting to the host,
  bringing the selection to the front) run as the last step of the handler
  that caused the change.
- **The host callbacks** `onChange` and `onIsValid` are fields holding the
  last value each one received.
- **Coordinates are `real`.** `Math.round(v)` is `⌊v + 0.5⌋`.
  `Math.sqrt(d²) < 10` becomes `d² < 100`, and `<= 10` becomes `d² <= 100`.
- **Pointer positions arrive already relative to the stage or canvas**, and
  grid handlers receive the cell `getCellFromMouse` computed. Keys are an
  enumeration.

## Model

| member | source | states |
|---|---|---|
| RowCodec.BooleanArrayToDecimal | src/utils/functions.ts:2-14 | Fails with InvalidLength exactly when the row does not have 22 entries. Otherwise returns Σ 2^(21−i) over the true positions, which is below 2^22. |
| RowCodec.DecimalToBooleanArray | src/utils/functions.ts:17-32 | Fails with OutOfRange exactly when the value is negative or at least 2^22. Otherwise returns the 22-bit MSB-first decoding, of length 22. |
| RowCodec.Encode | src/utils/functions.ts:7-13 | The encoding of a row of n booleans is below 2^n. |
| RowCodec.Decode | src/utils/functions.ts:22-31 | Decoding a value below 2^n yields exactly n booleans. |
| RowCodec.DecodeEncode | src/utils/functions.ts:2-32 | Decoding the encoding of any row gives that row back. |
| RowCodec.EncodeDecode | src/utils/functions.ts:2-32 | Encoding the decoding of any v < 2^n gives v back. |
| RowCodec.DecodeBit | src/utils/functions.ts:23-30 | Decoded element k is true iff bit n−1−k of the value is set. |
| RowCodec.RowExtremes | src/utils/functions.ts:7-13 | The all-false row encodes to 0 and the all-true row to 4194303 = 2^22 − 1. |
| RowCodec.Pow2RowWidth | src/utils/functions.ts:19 | 2^22 = 4194304, the decoder's exclusive upper bound. |
| GridPaint.Paint | src/components/grid/DrawingGrid.tsx:120-140 | Painting a rectangle keeps the number of rows and the length of every row. |
| GridPaint.PaintCells | src/components/grid/DrawingGrid.tsx:128-139 | Inside the rectangle spanned by the two corners every cell holds the fill mode. Outside it every cell is as before. |
| GridPaint.PaintKeepsShape | src/components/grid/DrawingGrid.tsx:128-139 | A height × width grid stays height × width. |
| GridPaint.PaintSymmetric | src/components/grid/DrawingGrid.tsx:120-138 | Swapping the start and current corners gives the same grid. |
| GridPaint.PaintIdempotent | src/components/grid/DrawingGrid.tsx:131-136 | Painting the same rectangle twice with the same mode equals painting it once. |
| GridPaint.StrokeAccumulates | src/components/CanvasGrid.tsx:108-128 | After two paints of one stroke, a cell holds the fill mode iff it lies in either rectangle, and is otherwise untouched. Shrinking the rectangle reverts nothing. |
| GridPaint.CellIndex | src/components/grid/DrawingGrid.tsx:69-87 | The cell index along one axis lies in [0, cells−1]. A position before the canvas gives 0 and one past it gives cells−1. Inside, the index is the cell whose pixel span contains the position. |
| GridPaint.GetCellFromMouse | src/components/grid/DrawingGrid.tsx:83-86 | The cell under the pointer is always inside the grid. |
| GridPaint.PaintRectangle | src/components/grid/DrawingGrid.tsx:131-136 | The nested loops write the fill mode into exactly the cells of the rectangle and leave every other cell of the buffer as it was. The buffer's contents equal Paint of its old contents. |
| DrawingGridCanvas.InitialGrid | src/components/grid/DrawingGrid.tsx:30-35 | Always a gridHeight × gridWidth grid. It is initialGrid when that has those dimensions. When the row count or the first row's length differs, every cell is false. A jagged initialGrid is normalised; see "## Left out". |
| DrawingGridCanvas.DrawingGrid.constructor | src/components/grid/DrawingGrid.tsx:27-35 | The grid is InitialGrid of the props; not drawing, filling mode on, no start cell. |
| DrawingGridCanvas.DrawingGrid.HandleClick | src/components/grid/DrawingGrid.tsx:143-147 | When disabled the grid is unchanged. Otherwise the clicked cell is painted with the current mode. |
| DrawingGridCanvas.DrawingGrid.HandleMouseDown | src/components/grid/DrawingGrid.tsx:149-160 | When disabled nothing changes. Otherwise a stroke starts at the cell, the mode becomes the negation of that cell, and the 1×1 rectangle is painted. |
| DrawingGridCanvas.DrawingGrid.HandleMouseMove | src/components/grid/DrawingGrid.tsx:162-169 | Without an active stroke and start cell, or when disabled, the grid is unchanged. Otherwise the start-to-pointer rectangle is painted. |
| DrawingGridCanvas.DrawingGrid.HandleMouseUp | src/components/grid/DrawingGrid.tsx:171-175 | The stroke ends and the grid and mode are untouched; when disabled nothing changes. |
| DrawingGridCanvas.DrawingGrid.HandleMouseLeave | src/components/grid/DrawingGrid.tsx:177-181 | The same as mouse-up. |
| CanvasGridCanvas.CellFromMouse | src/components/CanvasGrid.tsx:48-62 | The cell is clamped into [0, 21] × [0, 17]. |
| CanvasGridCanvas.CanvasGrid.constructor | src/components/CanvasGrid.tsx:14-21 | The grid is 18 rows of 22 false cells, and no stroke is active. |
| CanvasGridCanvas.CanvasGrid.HandleMouseDown | src/components/CanvasGrid.tsx:131-142 | Start and current cell become the cell, the mode becomes its negation, and the 1×1 rectangle is painted. |
| CanvasGridCanvas.CanvasGrid.HandleMouseMove | src/components/CanvasGrid.tsx:144-154 | With no stroke, or the same cell as last time, nothing changes. A new cell during a stroke becomes the current cell and the start-to-current rectangle is painted. The mode and start cell are kept. |
| CanvasGridCanvas.CanvasGrid.HandleMouseUp | src/components/CanvasGrid.tsx:156-160 | The drawing flag, start cell and current cell are cleared; the grid is unchanged. |
| CanvasGridCanvas.CanvasGrid.HandleMouseLeave | src/components/CanvasGrid.tsx:162-166 | The same as mouse-up. |
| PolygonGeometry.Round | src/components/draw/PolygonMultipleKonvaCanvas.tsx:66-69 | Math.round(v) lies in (v − 0.5, v + 0.5]. |
| PolygonGeometry.NormalizePoint | src/components/draw/PolygonMultipleKonvaCanvas.tsx:66-69 | A normalised point has integral coordinates. |
| PolygonGeometry.RoundIntegral | src/components/draw/PolygonMultipleKonvaCanvas.tsx:66-69 | Rounding an integer gives that integer. |
| PolygonGeometry.ScaleBack | src/components/draw/PolygonMultipleKonvaCanvas.tsx:66-74 | Scaling from 0..1000 to the canvas and back is exact before rounding. |
| PolygonGeometry.NormalizeAxisRange | src/components/draw/PolygonMultipleKonvaCanvas.tsx:66-69 | A coordinate on the canvas normalises into [0, 1000]. |
| PolygonGeometry.NormalizeInRange | src/components/draw/PolygonMultipleKonvaCanvas.tsx:66-69 | A point on the canvas normalises into [0, 1000] on both axes. |
| PolygonGeometry.NormalizeDenormalize | src/components/draw/PolygonMultipleKonvaCanvas.tsx:66-74 | An integral 0..1000 point, denormalised and normalised again, is unchanged. |
| PolygonGeometry.DenormalizeNormalizeError | src/components/draw/PolygonMultipleKonvaCanvas.tsx:66-74 | A canvas point normalised and then denormalised moves by at most width/2000 horizontally and height/2000 vertically. |
| PolygonGeometry.NormalizePoints | src/components/draw/PolygonCanvas.tsx:136-144 | Normalising a list keeps its length and makes every point integral. |
| PolygonGeometry.DenormalizePoints | src/components/draw/PolygonKonvaCanvas.tsx:40-43 | Denormalising a list keeps its length. |
| PolygonGeometry.PointsRoundTrip | src/components/draw/PolygonKonvaCanvas.tsx:35-43 | An integral point list loaded onto the canvas and normalised back is unchanged. |
| PolygonGeometry.SquaredDistance | src/components/draw/PolygonMultipleKonvaCanvas.tsx:220-225 | The squared distance that replaces the square root is never negative. |
| PolygonGeometry.LerpSystem | src/components/draw/PolygonMultipleKonvaCanvas.tsx:145-161 | Two segment points are equal iff their parameters solve the 2×2 linear system. |
| PolygonGeometry.ParametersSolve | src/components/draw/PolygonMultipleKonvaCanvas.tsx:145-161 | With a non-zero determinant, λ and 1 − γ as computed are Cramer's solution of that system (`CramerSolution`: each times the determinant equals its minor). |
| PolygonGeometry.CramerUnique | src/components/draw/PolygonMultipleKonvaCanvas.tsx:145-161 | When (ls, lt) is Cramer's solution of a non-singular system, (s, t) solves the system iff s = ls and t = lt. |
| PolygonGeometry.CrossingParameters | src/components/draw/PolygonMultipleKonvaCanvas.tsx:145-161 | With a non-zero determinant the segments meet at parameters (s, t) iff s = λ and t = 1 − γ. |
| PolygonGeometry.DoLinesIntersectMeaning | src/components/draw/PolygonMultipleKonvaCanvas.tsx:145-161 | doLinesIntersect holds iff the determinant is non-zero and the two segments share a point at parameters strictly inside (0, 1) on both. Parallel and collinear segments never count. |
| PolygonGeometry.InclusiveParameters | src/components/draw/PolygonCanvas.tsx:164-179 | With a non-zero denominator, PolygonCanvas.tsx's ua equals the Konva editors' λ and its ub equals 1 − γ. |
| PolygonGeometry.DoLinesIntersectInclusiveMeaning | src/components/draw/PolygonCanvas.tsx:164-179 | The inclusive test holds iff the denominator is non-zero and the segments share a point at parameters in the closed [0, 1]. Touching endpoints count. |
| PolygonGeometry.NonAdjacentMeansDisjoint | src/components/draw/PolygonMultipleKonvaCanvas.tsx:164-188 | A pair i < j is non-adjacent (j ≥ i+2 and (i, j) ≠ (0, n−1)) iff the two closed-polygon edges share no vertex. |
| PolygonGeometry.KonvaLoopExact | src/components/draw/PolygonMultipleKonvaCanvas.tsx:164-188 | The Konva loops' index bounds and skip test visit exactly the non-adjacent edge pairs. |
| PolygonGeometry.CanvasLoopExact | src/components/draw/PolygonCanvas.tsx:182-208 | The canvas loop bounds visit exactly the non-adjacent pairs. Within them the adjacency skip never fires and j % n == j. |
| PolygonGeometry.TriangleValid | src/components/draw/PolygonMultipleKonvaCanvas.tsx:164-188 | Every polygon of at most three points is valid under both tests. |
| PolygonGeometry.QuadPairs | src/components/draw/PolygonMultipleKonvaCanvas.tsx:164-188 | A quadrilateral has exactly the non-adjacent pairs (0, 2) and (1, 3). |
| PolygonGeometry.SquareValid | src/components/draw/PolygonMultipleKonvaCanvas.tsx:164-188 | The square (0,0),(0,10),(10,10),(10,0) is valid under both tests. |
| PolygonGeometry.BowtieInvalid | src/components/draw/PolygonMultipleKonvaCanvas.tsx:164-188 | The bowtie (0,0),(10,10),(10,0),(0,10) is invalid under both tests. |
| MultiPolygonEditor.NormalizeShape | src/components/draw/PolygonMultipleKonvaCanvas.tsx:91-101 | A reported shape keeps its id, validity and point count, and has integral points. |
| MultiPolygonEditor.MovedToFront | src/components/draw/PolygonMultipleKonvaCanvas.tsx:191-205 | Bringing to front keeps the length, and an out-of-range index changes nothing. |
| MultiPolygonEditor.MovedToFrontOrder | src/components/draw/PolygonMultipleKonvaCanvas.tsx:191-205 | The moved shape is last and the others keep their relative order. |
| MultiPolygonEditor.MovedToFrontPermutes | src/components/draw/PolygonMultipleKonvaCanvas.tsx:191-205 | The result is a permutation of the list. |
| MultiPolygonEditor.MovedToFrontIds | src/components/draw/PolygonMultipleKonvaCanvas.tsx:191-205 | If every id lies between 0 and nextId before the move, the same holds after it. |
| MultiPolygonEditor.MovedToFrontLast | src/components/draw/PolygonMultipleKonvaCanvas.tsx:104-108 | Bringing the last shape to front changes nothing, so the selection effect settles after one round. |
| MultiPolygonEditor.Without | src/components/draw/PolygonMultipleKonvaCanvas.tsx:387-393 | Deleting an index in range shortens the list by one. Deleting out of range changes nothing. |
| MultiPolygonEditor.WithoutElements | src/components/draw/PolygonMultipleKonvaCanvas.tsx:387-393 | Exactly the shape at the index is gone, and the others keep their order. |
| MultiPolygonEditor.WithoutMultiset | src/components/draw/PolygonMultipleKonvaCanvas.tsx:387-393 | Deleting removes one occurrence of that shape and nothing else. |
| MultiPolygonEditor.CheckPolygonValidity | src/components/draw/PolygonMultipleKonvaCanvas.tsx:164-188 | The nested loops with early return yield true iff there are fewer than three points or no non-adjacent edge pair crosses strictly. |
| MultiPolygonEditor.WithIds | src/components/draw/PolygonMultipleKonvaCanvas.tsx:45-48 | Every shape gets a non-empty id, an existing id is kept, and points and validity are kept. |
| MultiPolygonEditor.MaxId | src/components/draw/PolygonMultipleKonvaCanvas.tsx:40-48 | An upper bound on every id in the list, from which fresh ids are drawn. |
| MultiPolygonEditor.MultiShapeEditor.Reported | src/components/draw/PolygonMultipleKonvaCanvas.tsx:91-101 | What onChange receives is every shape, in order, with normalised points. |
| MultiPolygonEditor.MultiShapeEditor.constructor | src/components/draw/PolygonMultipleKonvaCanvas.tsx:45-88 | Shapes are initData's, denormalised, each with a non-empty id that keeps any given id. Nothing is in progress or selected. The shape cap holds iff initData fits in maxShapes. |
| MultiPolygonEditor.MultiShapeEditor.GenerateId | src/components/draw/PolygonMultipleKonvaCanvas.tsx:40-42 | Returns a fresh id, above every id in use, and changes nothing else. |
| MultiPolygonEditor.MultiShapeEditor.FinishDrawing | src/components/draw/PolygonMultipleKonvaCanvas.tsx:295-317 | With fewer than three points nothing changes. Otherwise exactly one shape is appended, with the current points, their validity and a fresh id. The points are cleared, drawing ends, and the cap is kept. |
| MultiPolygonEditor.MultiShapeEditor.CancelDrawing | src/components/draw/PolygonMultipleKonvaCanvas.tsx:319-327 | The points in progress are dropped and drawing ends. The shapes and selection are kept. |
| MultiPolygonEditor.MultiShapeEditor.HandleMouseMove | src/components/draw/PolygonMultipleKonvaCanvas.tsx:207-237 | While drawing with two or more points, hoverFirstPoint becomes "pointer strictly within 10 of the first point". Nothing else changes. |
| MultiPolygonEditor.MultiShapeEditor.HandleCanvasClick | src/components/draw/PolygonMultipleKonvaCanvas.tsx:239-293 | While drawing: hovering the first point finishes with three or more points, and with exactly two changes nothing. Otherwise the point is appended, and the tenth point finishes the shape. Not drawing: a click on a shape changes nothing. A background click deselects a selection, or else starts a shape only when the list is below maxShapes. Every branch states the whole new state (a finish takes the next id), the hover flag is kept, and the cap is preserved. |
| MultiPolygonEditor.MultiShapeEditor.DrawingPointClick | src/components/draw/PolygonMultipleKonvaCanvas.tsx:530-535 | Clicking the first point of three or more finishes the shape: the points become a new shape with the next id, which is then consumed, and the selection and hover flag are kept. Any other point click changes nothing. |
| MultiPolygonEditor.MultiShapeEditor.BringShapeToFront | src/components/draw/PolygonMultipleKonvaCanvas.tsx:191-205 | The list becomes MovedToFront of the old list. The selection becomes the last index, or is unchanged for an out-of-range index. Nothing else changes. |
| MultiPolygonEditor.MultiShapeEditor.ShapeClick | src/components/draw/PolygonMultipleKonvaCanvas.tsx:361-374 | Ignored while drawing or when the shape is already selected. Otherwise the shape is selected and brought to the front; the points in progress, the mode, the next id and the hover flag are kept. |
| MultiPolygonEditor.MultiShapeEditor.DragPoint | src/components/draw/PolygonMultipleKonvaCanvas.tsx:329-359 | Dragging point pi of shape k replaces only that point and recomputes only that shape's validity. An unselected shape becomes selected and moves to the front. For the shape in progress only its point is replaced. |
| MultiPolygonEditor.MultiShapeEditor.EditShapePoint | src/components/draw/PolygonMultipleKonvaCanvas.tsx:341-352 | The list becomes the old list with one point of one shape replaced and that shape's validity recomputed. |
| MultiPolygonEditor.MultiShapeEditor.RemoveLastPoint | src/components/draw/PolygonMultipleKonvaCanvas.tsx:376-385 | Pops one point, or does nothing when there are none. Drawing ends exactly when the only point was removed. The shapes, selection, next id and hover flag are kept. |
| MultiPolygonEditor.MultiShapeEditor.DeleteSelectedShape | src/components/draw/PolygonMultipleKonvaCanvas.tsx:387-393 | Removes exactly the selected index and clears the selection. Does nothing when nothing is selected. The points in progress, mode, next id and hover flag are kept. |
| MultiPolygonEditor.MultiShapeEditor.KeyDown | src/components/draw/PolygonMultipleKonvaCanvas.tsx:112-138 | While drawing: Backspace or Delete pops a point (drawing ends when it was the only one), Enter finishes with three or more points and otherwise changes nothing, and Escape cancels; all three keep the selection. Not drawing: Backspace or Delete deletes the selected shape and leaves nothing selected. Every other key changes nothing, and no key changes the hover flag. Each branch states the next id. |
| SinglePolygonEditor.CheckPolygonValidity | src/components/draw/PolygonKonvaCanvas.tsx:80-107 | The flag-and-break loops yield true iff there are fewer than three points or no non-adjacent edge pair crosses strictly. |
| SinglePolygonEditor.SingleShapeEditor.constructor | src/components/draw/PolygonKonvaCanvas.tsx:27-60 | The points are initData's, denormalised. Drawing starts iff initData is empty. The host is told the validity for non-empty data, and the normalised points for three or more. |
| SinglePolygonEditor.SingleShapeEditor.PointsChanged | src/components/draw/PolygonKonvaCanvas.tsx:55-60 | With three or more points the host receives them normalised, with their validity. Otherwise it is told nothing. |
| SinglePolygonEditor.SingleShapeEditor.FinishDrawing | src/components/draw/PolygonKonvaCanvas.tsx:170-177 | Drawing ends only with three or more points, and the points stay. |
| SinglePolygonEditor.SingleShapeEditor.HandleMouseMove | src/components/draw/PolygonKonvaCanvas.tsx:109-137 | While drawing with two or more points, hoverFirstPoint becomes "pointer strictly within 10 of the first point". |
| SinglePolygonEditor.SingleShapeEditor.HandleCanvasClick | src/components/draw/PolygonKonvaCanvas.tsx:139-168 | In edit mode nothing changes. Hovering the first point with two or more points adds nothing, and finishes with three or more. Otherwise one point is appended, and the tenth finishes. The host is told the normalised points and their validity once there are three or more; below three the reports stay as they were. The hover flag is kept. |
| SinglePolygonEditor.SingleShapeEditor.PointClick | src/components/draw/PolygonKonvaCanvas.tsx:296-302 | Clicking the first point while drawing with three or more points finishes; the points, reports and hover flag never change. |
| SinglePolygonEditor.SingleShapeEditor.DragPoint | src/components/draw/PolygonKonvaCanvas.tsx:179-183 | Only the dragged index changes. With three or more points the host is told the normalised list and its validity; below three the reports stay as they were. The mode and hover flag are kept. |
| SinglePolygonEditor.SingleShapeEditor.RemoveLastPoint | src/components/draw/PolygonKonvaCanvas.tsx:185-190 | Drops exactly the last point, does nothing on an empty list, and never changes the mode or hover flag. With three or more points left, the host is told them normalised and their validity; below three the reports stay as they were. |
| SinglePolygonEditor.SingleShapeEditor.ClearPolygon | src/components/draw/PolygonKonvaCanvas.tsx:192-197 | No points, drawing again, and the host is told an empty list that is valid. |
| SinglePolygonEditor.SingleShapeEditor.KeyDown | src/components/draw/PolygonKonvaCanvas.tsx:199-210 | While drawing, Backspace pops, and the report then follows the three-point rule of RemoveLastPoint; Escape clears. In edit mode only Delete clears. Every other key changes nothing, and no key changes the hover flag. |
| CanvasPolygonEditor.IsNearPointSymmetric | src/components/draw/PolygonCanvas.tsx:147-151 | Nearness does not depend on the order of the two points. |
| CanvasPolygonEditor.BoundaryIsNear | src/components/draw/PolygonCanvas.tsx:147-151 | A point exactly 10 away is near here (≤ 10). It is not near for the Konva editors' strict close test. |
| CanvasPolygonEditor.FindPointIndex | src/components/draw/PolygonCanvas.tsx:154-161 | Returns the smallest index of a point near the query, and −1 iff no point is near. |
| CanvasPolygonEditor.CheckIfValid | src/components/draw/PolygonCanvas.tsx:182-208 | True iff there are fewer than three points or no non-adjacent edge pair meets under the inclusive test. |
| CanvasPolygonEditor.PolygonCanvasEditor.constructor | src/components/draw/PolygonCanvas.tsx:20-24 | An empty polygon in drawing mode with no drag, and nothing reported. |
| CanvasPolygonEditor.PolygonCanvasEditor.Report | src/components/draw/PolygonCanvas.tsx:136-144 | The host receives the normalised list and its inclusive validity. |
| CanvasPolygonEditor.PolygonCanvasEditor.KeyDown | src/components/draw/PolygonCanvas.tsx:31-48 | Edit mode ignores keys. While drawing, Backspace or Delete pops one point and reports the rest (no-op when empty). Escape clears to an empty, valid polygon that is still drawing. |
| CanvasPolygonEditor.PolygonCanvasEditor.MouseMove | src/components/draw/PolygonCanvas.tsx:57-74 | During a drag only the dragged index moves, and the list is reported. Without a drag nothing changes. |
| CanvasPolygonEditor.PolygonCanvasEditor.MouseDown | src/components/draw/PolygonCanvas.tsx:77-95 | A drag starts only in edit mode, on the first point near the pointer. When no point is near, nothing changes. |
| CanvasPolygonEditor.PolygonCanvasEditor.MouseUp | src/components/draw/PolygonCanvas.tsx:128-133 | Any drag ends; the points and mode are untouched. |
| CanvasPolygonEditor.PolygonCanvasEditor.FinishDrawing | src/components/draw/PolygonCanvas.tsx:211-216 | Drawing ends only with three or more points, and then the validity is reported. |
| CanvasPolygonEditor.PolygonCanvasEditor.HandleCanvasClick | src/components/draw/PolygonCanvas.tsx:98-125 | In edit mode nothing changes. Near the first of three or more points, drawing finishes without adding a point. Otherwise the point is appended and reported, and reaching ten points finishes. |
| CanvasPolygonEditor.EditModeIsTerminal | src/components/draw/PolygonCanvas.tsx:31-133 | Once in edit mode, no key, mouse or click event returns the editor to drawing. |
| DrawPolygonPage.FlipY | src/pages/DrawPolygon.tsx:13 | The flip keeps x. |
| DrawPolygonPage.FlipPoints | src/pages/DrawPolygon.tsx:11-14 | Flipping a list keeps its length. |
| DrawPolygonPage.FlipShapes | src/pages/DrawPolygon.tsx:9-20 | convertedInitData keeps the shape count, and each shape's id, validity and point count. |
| DrawPolygonPage.HandleChange | src/pages/DrawPolygon.tsx:22-31 | The point-by-point loop yields exactly FlipShapes of the reported shapes. |
| DrawPolygonPage.FlipShapesInvolution | src/pages/DrawPolygon.tsx:13-25 | Flipping twice is the identity. |
| DrawPolygonPage.FlipRange | src/pages/DrawPolygon.tsx:13-25 | The flip maps [0, 1000] onto [0, 1000]. |
| DrawPolygonPage.FlipIntegral | src/pages/DrawPolygon.tsx:13-25 | An integral point stays integral. |
| DrawPolygonPage.PageRoundTrip | src/pages/DrawPolygon.tsx:9-31 | Integral page data flipped in, put on the canvas, normalised back by the editor and flipped out is unchanged. |

## Left out

- Rendering is not modelled: `drawGrid`, the JSX and Konva trees, cursor
  styling, hover highlighting and canvas resizing are all painting.
- DOM and event wiring is not modelled: the `window`/`document` listeners,
  `getBoundingClientRect`, `getStage().getPointerPosition()`,
  `cancelBubble`, and the null guards on the stage, pointer and canvas.
  Handlers take positions already converted to stage or canvas
  coordinates, cells already computed, and keys as an enumeration.
- React's batching and its stale closures are not modelled. Handler
  steps run in order, and three consequences are listed below.
- MultiPolygonEditor.MultiShapeEditor.HandleCanvasClick: the tenth point finishes a shape made of all ten points. In the source, `finishDrawing` still sees the nine pre-click points of the closure.
- CanvasPolygonEditor.PolygonCanvasEditor.HandleCanvasClick: at the tenth point the model reports the validity of the ten points. In the source, the closure's `finishDrawing` validates the nine pre-click points, and that report reaches the host last.
- DrawingGridCanvas.DrawingGrid.HandleMouseDown: the 1×1 paint uses the newly chosen fill mode. In the source it uses the previous render's `isFilling`. The same holds for `CanvasGridCanvas.CanvasGrid.HandleMouseDown`.
- SinglePolygonEditor.SingleShapeEditor.constructor: the mount effect's first `onChange` reports the points before the loaded data replaces them. It is transient and not modelled.
- MultiPolygonEditor.MultiShapeEditor.constructor: the first `onChange` at mount reports the shapes of `initData` with ids but before the mount effect denormalises them and stores them. It is transient, later reports overwrite it, and it is not modelled.
- DrawingGridCanvas.InitialGrid: when `initialGrid` has `gridHeight` rows and its first row has `gridWidth` cells, the source keeps it exactly as given, even when a later row is shorter or longer. The model stores the grid in a rectangular buffer, so it pads a shorter row with false and drops the cells beyond `gridWidth` in a longer one. The grid handed to `onGridChange` differs from the source's only in those rows.
- DrawingGridCanvas.InitialGrid: `gridHeight = 0` is excluded, as it is for the whole `DrawingGrid` class. The source then returns an empty grid for a non-empty `initialGrid` and throws on `initialGrid[0].length` for an empty one; a zero-height canvas has no cells to paint.
- Floating point is not modelled. Coordinates are exact reals, so IEEE rounding, NaN and infinities are beyond the model. `Math.round` is ⌊v + 0.5⌋.
- `normalizePoints` without a canvas (it returns an empty list) is not modelled, because the canvas editor is constructed with its canvas extents.
- `generateId` draws from `Math.random`. It is modelled as a counter above every id in use. An empty id is 0.
- The codec width is fixed at 22, as in the source. The specification functions `Encode` and `Decode` are stated for any width.
- `DrawPolygonPage.HandleChange`: the source flips `p.y` in place on the point objects the editor passed. The model flips a copy, so aliasing between the editor's objects and the page's is not captured.
- Not modelled: `mousePos` bookkeeping in the multi-shape editor (used only to draw the line to the cursor), `handlePolygonClick` of `PolygonKonvaCanvas.tsx` (it does nothing) and `console.log` calls.
- `src/components/CanvasTest.tsx` is not part of this model: a drag-rectangle demo made of pointer deltas and painting.
- `src/pages/DrawGrid.tsx` and `src/App.tsx` are not part of this model: page glue and composition. The per-row encoding that `DrawGrid.tsx` uses is `RowCodec`.
- `src/components/grid/BaseGrid.tsx` is not part of this model, because it only paints grid lines.
- `utils/interface` and `utils/mockData` are not part of this model.
