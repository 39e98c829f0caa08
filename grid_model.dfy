/** Values shared by the placement grid and its composition: the cell record,
    grid coordinates, the grid itself, and the pixel-to-cell hit test used by
    the click, right-click and drop handlers. */
module GridModel {
  import opened Wrappers

  /** One placed tile: the image it shows (the data URL it was dropped with,
      treated as an opaque token) and its manual pixel offset in its cell. */
  datatype Cell = Cell(img: string, offsetX: int, offsetY: int)

  /** A grid coordinate, row first, as in `grid[row][col]`. */
  datatype Pos = Pos(row: int, col: int)

  /** Rows of optional cells; `None` is an empty cell. */
  type Grid = seq<seq<Option<Cell>>>

  /** `g` has exactly `rows` rows of exactly `cols` cells each. */
  predicate Shaped(g: Grid, rows: int, cols: int) {
    |g| == rows && forall i :: 0 <= i < |g| ==> |g[i]| == cols
  }

  /** Every cell of `g` is empty. */
  predicate AllEmpty(g: Grid) {
    forall i, j :: 0 <= i < |g| && 0 <= j < |g[i]| ==> g[i][j] == None
  }

  predicate InGrid(g: Grid, p: Pos) {
    0 <= p.row < |g| && 0 <= p.col < |g[p.row]|
  }

  /** `g` with the cell at `p` replaced by `v`. */
  function Put(g: Grid, p: Pos, v: Option<Cell>): (r: Grid)
    requires InGrid(g, p)
    ensures |r| == |g| && forall i :: 0 <= i < |g| ==> |r[i]| == |g[i]|
    ensures forall i, j :: 0 <= i < |g| && 0 <= j < |g[i]| ==>
              r[i][j] == if i == p.row && j == p.col then v else g[i][j]
  {
    g[p.row := g[p.row][p.col := v]]
  }

  /** A cell record moved by (dx, dy) pixels; its image is kept. */
  function Shift(c: Cell, dx: int, dy: int): Cell {
    Cell(c.img, c.offsetX + dx, c.offsetY + dy)
  }

  /** `Shift` lifted to a possibly empty cell: an empty cell stays empty. */
  function ShiftSlot(o: Option<Cell>, dx: int, dy: int): Option<Cell> {
    match o
    case None => None
    case Some(c) => Some(Shift(c, dx, dy))
  }

  /** `Math.floor(n / d)` for a positive divisor. */
  function FloorDiv(n: int, d: int): (q: int)
    requires d > 0
    ensures q * d <= n < q * d + d
  {
    n / d
  }

  lemma MulMonotone(a: int, b: int, d: int)
    requires a <= b && d > 0
    ensures a * d <= b * d
  {
    assert b * d - a * d == (b - a) * d;
  }

  /** The floored quotient lands in [0, k) exactly when n lands in [0, k*d). */
  lemma FloorDivInRange(n: int, d: int, k: int)
    requires d > 0
    ensures 0 <= FloorDiv(n, d) < k <==> 0 <= n < k * d
  {
    var q := FloorDiv(n, d);
    if 0 <= q < k {
      MulMonotone(0, q, d);
      MulMonotone(q + 1, k, d);
    }
    if 0 <= n < k * d {
      if q < 0 {
        MulMonotone(q + 1, 0, d);
      }
      if q >= k {
        MulMonotone(k, q, d);
      }
    }
  }

  /** The cell under pixel (x, y) of a grid of `rows` x `cols` cells of
      `cellW` x `cellH` pixels: column `floor(x / cellW)`, row
      `floor(y / cellH)`, or None when either falls outside the grid. */
  function HitTest(x: int, y: int, cellW: int, cellH: int, rows: int, cols: int): (r: Option<Pos>)
    requires cellW > 0 && cellH > 0
    ensures r.Some? <==> 0 <= x < cols * cellW && 0 <= y < rows * cellH
    ensures r.Some? ==> r.value == Pos(FloorDiv(y, cellH), FloorDiv(x, cellW))
    ensures r.Some? ==> 0 <= r.value.row < rows && 0 <= r.value.col < cols
    ensures r.Some? ==> r.value.col * cellW <= x < r.value.col * cellW + cellW
    ensures r.Some? ==> r.value.row * cellH <= y < r.value.row * cellH + cellH
  {
    var col := FloorDiv(x, cellW);
    var row := FloorDiv(y, cellH);
    FloorDivInRange(x, cellW, cols);
    FloorDivInRange(y, cellH, rows);
    if row < 0 || row >= rows then None
    else if col < 0 || col >= cols then None
    else Some(Pos(row, col))
  }
}
