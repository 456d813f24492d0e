/**
 * The rubber-band grid painter of src/components/grid/DrawingGrid.tsx.
 *
 * A stroke starts on mouse-down: the start cell is recorded and the fill
 * mode becomes the negation of that cell's value. Every mouse-move then
 * overwrites the rectangle between the fixed start cell and the cell under
 * the pointer. Handlers receive the cell already computed by
 * GridPaint.GetCellFromMouse, which lies inside the grid.
 *
 * React applies the state updates of one handler together at the next
 * render; the model performs them in order. One divergence follows: in the
 * source the 1×1 paint at mouse-down still sees the fill mode of the
 * previous render, here it uses the newly chosen mode.
 */
module DrawingGridCanvas {
  import opened Wrappers
  import opened GridPaint

  /**
   * The initial grid: initialGrid itself when it has gridHeight rows and
   * its first row has gridWidth cells, otherwise all false. A cell missing
   * from a shorter later row reads as false, as undefined does in the source.
   */
  function InitialGrid(initialGrid: seq<seq<bool>>, gridHeight: nat, gridWidth: nat): (g: Grid)
    requires gridHeight > 0
    ensures IsGrid(g, gridHeight, gridWidth)
    ensures IsGrid(initialGrid, gridHeight, gridWidth) ==> g == initialGrid
    ensures !(|initialGrid| == gridHeight && |initialGrid[0]| == gridWidth) ==>
      forall y, x :: 0 <= y < gridHeight && 0 <= x < gridWidth ==> !g[y][x]
  {
    if |initialGrid| == gridHeight && |initialGrid[0]| == gridWidth then
      var g := seq(gridHeight, y requires 0 <= y < gridHeight =>
        seq(gridWidth, x requires 0 <= x < gridWidth => x < |initialGrid[y]| && initialGrid[y][x]));
      assert IsGrid(initialGrid, gridHeight, gridWidth) ==> forall y | 0 <= y < gridHeight :: g[y] == initialGrid[y];
      g
    else
      seq(gridHeight, _ => seq(gridWidth, _ => false))
  }

  class DrawingGrid {
    const gridWidth: nat
    const gridHeight: nat
    const disabled: bool
    var grid: array2<bool>
    var isDrawing: bool
    var isFilling: bool
    var startCell: Option<Cell>

    ghost predicate Valid()
      reads this
    {
      && gridWidth > 0 && gridHeight > 0
      && grid.Length0 == gridHeight && grid.Length1 == gridWidth
      && (startCell.Some? ==> InBounds(startCell.value, gridWidth, gridHeight))
    }

    /** The grid state reported to onGridChange. */
    ghost function Cells(): Grid
      reads this, grid
    {
      CellsOf(grid)
    }

    constructor (gridWidth: nat, gridHeight: nat, disabled: bool, initialGrid: seq<seq<bool>>)
      requires gridWidth > 0 && gridHeight > 0
      ensures Valid() && fresh(grid)
      ensures this.gridWidth == gridWidth && this.gridHeight == gridHeight && this.disabled == disabled
      ensures Cells() == InitialGrid(initialGrid, gridHeight, gridWidth)
      ensures !isDrawing && isFilling && startCell == None
    {
      var g := InitialGrid(initialGrid, gridHeight, gridWidth);
      this.gridWidth := gridWidth;
      this.gridHeight := gridHeight;
      this.disabled := disabled;
      grid := new bool[gridHeight, gridWidth]((y, x) requires 0 <= y < gridHeight && 0 <= x < gridWidth => g[y][x]);
      isDrawing := false;
      isFilling := true;
      startCell := None;
      new;
      forall y | 0 <= y < gridHeight
        ensures CellsOf(grid)[y] == g[y]
      {
      }
    }

    /** handleClick: paint the single cell under the pointer with the current mode. */
    method HandleClick(cell: Cell)
      requires Valid() && InBounds(cell, gridWidth, gridHeight)
      modifies grid
      ensures Valid()
      ensures Cells() == if disabled then old(Cells()) else Paint(old(Cells()), cell, cell, isFilling)
    {
      if disabled {
        return;
      }
      PaintRectangle(grid, cell, cell, isFilling);
    }

    /** handleMouseDown: start a stroke whose mode is the negation of the start cell. */
    method HandleMouseDown(cell: Cell)
      requires Valid() && InBounds(cell, gridWidth, gridHeight)
      modifies this, grid
      ensures Valid() && grid == old(grid)
      ensures disabled ==> unchanged(this) && unchanged(grid)
      ensures !disabled ==>
        && isDrawing && startCell == Some(cell)
        && isFilling == !old(grid[cell.y, cell.x])
        && Cells() == Paint(old(Cells()), cell, cell, isFilling)
    {
      if disabled {
        return;
      }
      isDrawing := true;
      startCell := Some(cell);
      isFilling := !grid[cell.y, cell.x];
      PaintRectangle(grid, cell, cell, isFilling);
    }

    /** handleMouseMove: repaint the start-to-pointer rectangle while a stroke is active. */
    method HandleMouseMove(cell: Cell)
      requires Valid() && InBounds(cell, gridWidth, gridHeight)
      modifies grid
      ensures Valid()
      ensures Cells() == if disabled || !isDrawing || startCell.None? then old(Cells())
                         else Paint(old(Cells()), startCell.value, cell, isFilling)
    {
      if disabled || !isDrawing || startCell.None? {
        return;
      }
      PaintRectangle(grid, startCell.value, cell, isFilling);
    }

    /** handleMouseUp: end the stroke; the grid is not touched. */
    method HandleMouseUp()
      requires Valid()
      modifies this
      ensures Valid() && grid == old(grid) && isFilling == old(isFilling)
      ensures disabled ==> unchanged(this)
      ensures !disabled ==> !isDrawing && startCell == None
    {
      if disabled {
        return;
      }
      isDrawing := false;
      startCell := None;
    }

    /** handleMouseLeave: the same as a mouse-up. */
    method HandleMouseLeave()
      requires Valid()
      modifies this
      ensures Valid() && grid == old(grid) && isFilling == old(isFilling)
      ensures disabled ==> unchanged(this)
      ensures !disabled ==> !isDrawing && startCell == None
    {
      if disabled {
        return;
      }
      isDrawing := false;
      startCell := None;
    }
  }

  /**
   * A stroke from (2, 2) to (5, 5) on a fresh 22 × 18 grid fills exactly
   * the 4 × 4 block x, y ∈ [2, 5].
   */
  method StrokeExample()
  {
    var painter := new DrawingGrid(22, 18, false, []);
    var before := painter.Cells();
    assert !before[2][2];
    painter.HandleMouseDown(Cell(2, 2));
    assert painter.isFilling;
    painter.HandleMouseMove(Cell(5, 5));
    var moved := painter.Cells();
    assert moved == Paint(Paint(before, Cell(2, 2), Cell(2, 2), true), Cell(2, 2), Cell(5, 5), true);
    painter.HandleMouseUp();
    var after := painter.Cells();
    assert after == moved;
    forall y, x | 0 <= y < 18 && 0 <= x < 22
      ensures after[y][x] <==> 2 <= x <= 5 && 2 <= y <= 5
    {
      StrokeAccumulates(before, Cell(2, 2), Cell(2, 2), Cell(5, 5), true, x, y);
    }
    assert forall y, x :: 0 <= y < 18 && 0 <= x < 22 ==>
      (after[y][x] <==> 2 <= x <= 5 && 2 <= y <= 5);
  }
}
