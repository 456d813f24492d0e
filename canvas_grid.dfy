/**
 * The standalone painter of src/components/CanvasGrid.tsx: a fixed
 * 18 × 22 grid edited by rubber-band strokes, which remembers the last
 * processed cell and repaints only when the pointer enters a new cell.
 *
 * As in DrawingGridCanvas, the updates of one handler are performed in
 * order; in the source the 1×1 paint at mouse-down uses the fill mode of
 * the previous render, which then also decides a click that never moves.
 */
module CanvasGridCanvas {
  import opened Wrappers
  import opened GridPaint

  const GridWidth: nat := 22
  const GridHeight: nat := 18

  /** getCellFromMouse with the fixed dimensions: clamped into [0, 21] × [0, 17]. */
  function CellFromMouse(px: real, py: real, canvasWidth: real, canvasHeight: real): (c: Cell)
    requires canvasWidth > 0.0 && canvasHeight > 0.0
    ensures 0 <= c.x <= 21 && 0 <= c.y <= 17
  {
    GetCellFromMouse(px, py, canvasWidth, canvasHeight, GridWidth, GridHeight)
  }

  class CanvasGrid {
    var grid: array2<bool>
    var isDrawing: bool
    var isFilling: bool
    var startCell: Option<Cell>
    var currentCell: Option<Cell>

    ghost predicate Valid()
      reads this
    {
      && grid.Length0 == GridHeight && grid.Length1 == GridWidth
      && (startCell.Some? ==> InBounds(startCell.value, GridWidth, GridHeight))
      && (currentCell.Some? ==> InBounds(currentCell.value, GridWidth, GridHeight))
    }

    ghost function Cells(): Grid
      reads this, grid
    {
      CellsOf(grid)
    }

    /** The grid the mount effect installs: 18 rows of 22 false cells. */
    constructor ()
      ensures Valid() && fresh(grid)
      ensures Cells() == seq(GridHeight, _ => seq(GridWidth, _ => false))
      ensures !isDrawing && isFilling && startCell == None && currentCell == None
    {
      grid := new bool[GridHeight, GridWidth]((y, x) => false);
      isDrawing := false;
      isFilling := true;
      startCell := None;
      currentCell := None;
      new;
      forall y | 0 <= y < GridHeight
        ensures CellsOf(grid)[y] == seq(GridWidth, _ => false)
      {
      }
    }

    /** handleMouseDown: start = current = cell, mode = !grid[y][x], paint 1×1. */
    method HandleMouseDown(cell: Cell)
      requires Valid() && InBounds(cell, GridWidth, GridHeight)
      modifies this, grid
      ensures Valid() && grid == old(grid)
      ensures isDrawing && startCell == Some(cell) && currentCell == Some(cell)
      ensures isFilling == !old(grid[cell.y, cell.x])
      ensures Cells() == Paint(old(Cells()), cell, cell, isFilling)
    {
      isDrawing := true;
      startCell := Some(cell);
      currentCell := Some(cell);
      isFilling := !grid[cell.y, cell.x];
      PaintRectangle(grid, cell, cell, isFilling);
    }

    /** handleMouseMove: paint only when drawing and the pointer entered a new cell. */
    method HandleMouseMove(cell: Cell)
      requires Valid() && InBounds(cell, GridWidth, GridHeight)
      modifies this, grid
      ensures Valid() && grid == old(grid)
      ensures isDrawing == old(isDrawing) && isFilling == old(isFilling) && startCell == old(startCell)
      ensures !old(isDrawing) || old(currentCell) == Some(cell) ==>
        currentCell == old(currentCell) && Cells() == old(Cells())
      ensures old(isDrawing) && old(currentCell) != Some(cell) ==>
        && currentCell == Some(cell)
        && Cells() == if startCell.Some? then Paint(old(Cells()), startCell.value, cell, isFilling)
                      else old(Cells())
    {
      if !isDrawing {
        return;
      }
      if currentCell.None? || cell != currentCell.value {
        currentCell := Some(cell);
        if startCell.Some? {
          PaintRectangle(grid, startCell.value, cell, isFilling);
        }
      }
    }

    /** handleMouseUp: clear the stroke; the grid is unchanged. */
    method HandleMouseUp()
      requires Valid()
      modifies this
      ensures Valid() && grid == old(grid) && isFilling == old(isFilling)
      ensures !isDrawing && startCell == None && currentCell == None
    {
      isDrawing := false;
      startCell := None;
      currentCell := None;
    }

    /** handleMouseLeave: the same as a mouse-up. */
    method HandleMouseLeave()
      requires Valid()
      modifies this
      ensures Valid() && grid == old(grid) && isFilling == old(isFilling)
      ensures !isDrawing && startCell == None && currentCell == None
    {
      isDrawing := false;
      startCell := None;
      currentCell := None;
    }
  }
}
