/**
 * Cell arithmetic and rectangle painting shared by the two grid painters
 * (src/components/grid/DrawingGrid.tsx and src/components/CanvasGrid.tsx).
 * A grid is indexed grid[y][x]: y is the row, x the column.
 */
module GridPaint {

  datatype Cell = Cell(x: int, y: int)

  type Grid = seq<seq<bool>>

  predicate InBounds(c: Cell, width: nat, height: nat) {
    0 <= c.x < width && 0 <= c.y < height
  }

  /** A height × width matrix. */
  predicate IsGrid(g: Grid, height: nat, width: nat) {
    |g| == height && forall y :: 0 <= y < |g| ==> |g[y]| == width
  }

  function Min(a: int, b: int): int { if a <= b then a else b }
  function Max(a: int, b: int): int { if a <= b then b else a }

  /** (x, y) lies in the axis-aligned rectangle spanned by the corners s and c. */
  predicate InRect(s: Cell, c: Cell, x: int, y: int) {
    Min(s.x, c.x) <= x <= Max(s.x, c.x) && Min(s.y, c.y) <= y <= Max(s.y, c.y)
  }

  /** The grid after every cell of the rectangle s–c is overwritten with fill. */
  function Paint(g: Grid, s: Cell, c: Cell, fill: bool): (r: Grid)
    ensures |r| == |g| && forall y :: 0 <= y < |g| ==> |r[y]| == |g[y]|
  {
    seq(|g|, y requires 0 <= y < |g| =>
      seq(|g[y]|, x requires 0 <= x < |g[y]| => if InRect(s, c, x, y) then fill else g[y][x]))
  }

  /** Inside the rectangle every cell holds fill; outside nothing changes. */
  lemma PaintCells(g: Grid, s: Cell, c: Cell, fill: bool, x: int, y: int)
    requires 0 <= y < |g| && 0 <= x < |g[y]|
    ensures InRect(s, c, x, y) ==> Paint(g, s, c, fill)[y][x] == fill
    ensures !InRect(s, c, x, y) ==> Paint(g, s, c, fill)[y][x] == g[y][x]
  {
  }

  lemma PaintKeepsShape(g: Grid, s: Cell, c: Cell, fill: bool, height: nat, width: nat)
    requires IsGrid(g, height, width)
    ensures IsGrid(Paint(g, s, c, fill), height, width)
  {
  }

  /** Which corner is the start does not matter. */
  lemma PaintSymmetric(g: Grid, s: Cell, c: Cell, fill: bool)
    ensures Paint(g, s, c, fill) == Paint(g, c, s, fill)
  {
    forall y | 0 <= y < |g|
      ensures Paint(g, s, c, fill)[y] == Paint(g, c, s, fill)[y]
    {
    }
  }

  /** Painting the same rectangle twice with the same mode is painting it once. */
  lemma PaintIdempotent(g: Grid, s: Cell, c: Cell, fill: bool)
    ensures Paint(Paint(g, s, c, fill), s, c, fill) == Paint(g, s, c, fill)
  {
    var once := Paint(g, s, c, fill);
    forall y | 0 <= y < |g|
      ensures Paint(once, s, c, fill)[y] == once[y]
    {
    }
  }

  /**
   * Two paints of one stroke: every cell of either rectangle ends up holding
   * fill, so shrinking the rectangle does not revert what the larger one
   * painted; cells outside both are untouched.
   */
  lemma StrokeAccumulates(g: Grid, s: Cell, c1: Cell, c2: Cell, fill: bool, x: int, y: int)
    requires 0 <= y < |g| && 0 <= x < |g[y]|
    ensures Paint(Paint(g, s, c1, fill), s, c2, fill)[y][x]
         == if InRect(s, c1, x, y) || InRect(s, c2, x, y) then fill else g[y][x]
  {
  }

  /** Math.floor(p / (extent / cells)) clamped into [0, cells - 1]. */
  function CellIndex(p: real, extent: real, cells: nat): (k: int)
    requires extent > 0.0 && cells > 0
    ensures 0 <= k < cells
    ensures p < 0.0 ==> k == 0
    ensures p >= extent ==> k == cells - 1
    ensures 0.0 <= p < extent ==>
      k as real * (extent / cells as real) <= p < (k + 1) as real * (extent / cells as real)
  {
    var size := extent / cells as real;
    var f := (p / size).Floor;
    FloorFacts(p, extent, cells, size, f);
    Min(Max(f, 0), cells - 1)
  }

  lemma FloorFacts(p: real, extent: real, cells: nat, size: real, f: int)
    requires extent > 0.0 && cells > 0 && size == extent / cells as real && f == (p / size).Floor
    ensures f as real * size <= p < (f + 1) as real * size
    ensures p < 0.0 ==> f < 0
    ensures 0.0 <= p < extent ==> 0 <= f < cells
    ensures p >= extent ==> f >= cells
  {
    FloorSpan(p, size, f);
    assert extent / size == cells as real;
    if p >= extent {
      DivMonotone(extent, p, size);
    } else if p >= 0.0 {
      DivStrictMonotone(p, extent, size);
    }
  }

  lemma FloorSpan(p: real, size: real, f: int)
    requires size > 0.0 && f == (p / size).Floor
    ensures f as real * size <= p < (f + 1) as real * size
    ensures p < 0.0 ==> f < 0
    ensures p >= 0.0 ==> f >= 0
  {
    var q := p / size;
    assert q * size == p;
    assert f as real <= q < f as real + 1.0;
    assert (q - f as real) * size >= 0.0;
    var gap := f as real + 1.0 - q;
    MulPositive(gap, size);
    var upper := (f + 1) as real * size;
    assert upper == (f as real + 1.0) * size;
    assert upper - p == gap * size;
  }

  lemma MulPositive(a: real, b: real)
    requires a > 0.0 && b > 0.0
    ensures a * b > 0.0
  {
  }

  lemma DivMonotone(a: real, b: real, size: real)
    requires size > 0.0 && a <= b
    ensures a / size <= b / size
  {
    assert (b / size - a / size) * size == b - a;
  }

  lemma DivStrictMonotone(a: real, b: real, size: real)
    requires size > 0.0 && a < b
    ensures a / size < b / size
  {
    assert (b / size - a / size) * size == b - a;
  }

  /**
   * getCellFromMouse: the cell under a pointer position given relative to
   * the canvas, clamped into the grid.
   */
  function GetCellFromMouse(px: real, py: real, canvasWidth: real, canvasHeight: real,
                            gridWidth: nat, gridHeight: nat): (c: Cell)
    requires canvasWidth > 0.0 && canvasHeight > 0.0 && gridWidth > 0 && gridHeight > 0
    ensures InBounds(c, gridWidth, gridHeight)
  {
    Cell(CellIndex(px, canvasWidth, gridWidth), CellIndex(py, canvasHeight, gridHeight))
  }

  /** The contents of a 2-D buffer as a grid value. */
  ghost function CellsOf(g: array2<bool>): (r: Grid)
    reads g
    ensures IsGrid(r, g.Length0, g.Length1)
  {
    seq(g.Length0, y requires 0 <= y < g.Length0 reads g =>
      seq(g.Length1, x requires 0 <= x < g.Length1 reads g => g[y, x]))
  }

  /**
   * applyRectangle: overwrite, row by row, every cell of the rectangle
   * spanned by start and current with fill.
   */
  method PaintRectangle(g: array2<bool>, start: Cell, current: Cell, fill: bool)
    requires InBounds(start, g.Length1, g.Length0) && InBounds(current, g.Length1, g.Length0)
    modifies g
    ensures forall y, x :: 0 <= y < g.Length0 && 0 <= x < g.Length1 ==>
      g[y, x] == if InRect(start, current, x, y) then fill else old(g[y, x])
    ensures CellsOf(g) == Paint(old(CellsOf(g)), start, current, fill)
  {
    ghost var before := CellsOf(g);
    var minX, maxX := Min(start.x, current.x), Max(start.x, current.x);
    var minY, maxY := Min(start.y, current.y), Max(start.y, current.y);
    var y := minY;
    while y <= maxY
      invariant minY <= y <= maxY + 1
      invariant forall r, c :: 0 <= r < g.Length0 && 0 <= c < g.Length1 ==>
        g[r, c] == if minY <= r < y && minX <= c <= maxX then fill else old(g[r, c])
    {
      var x := minX;
      while x <= maxX
        invariant minX <= x <= maxX + 1
        invariant forall r, c :: 0 <= r < g.Length0 && 0 <= c < g.Length1 ==>
          g[r, c] == if (minY <= r < y && minX <= c <= maxX) || (r == y && minX <= c < x) then fill else old(g[r, c])
      {
        g[y, x] := fill;
        x := x + 1;
      }
      y := y + 1;
    }
    forall r | 0 <= r < g.Length0
      ensures CellsOf(g)[r] == Paint(before, start, current, fill)[r]
    {
    }
  }
}
