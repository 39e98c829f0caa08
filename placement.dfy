/** The placement grid editor: the grid of placed tiles, its settings, the
    selected cell, and the handlers that change them (grid reset and resize,
    click to select, right-click to clear, drop to place, offset editing of
    the selected cell, and whole-row or whole-column nudges). */
module Placement {
  import opened Wrappers
  import opened GridModel
  import opened Composition
  import opened Canvas

  /** The four offset buttons. */
  datatype Move = Up | Down | Left | Right

  /** Horizontal change a button makes: left -1, right +1. */
  function MoveX(m: Move): int {
    match m
    case Left => -1
    case Right => 1
    case _ => 0
  }

  /** Vertical change a button makes: up -1, down +1 (y grows downwards). */
  function MoveY(m: Move): int {
    match m
    case Up => -1
    case Down => 1
    case _ => 0
  }

  class PlacementGrid {
    var gridCols: int
    var gridRows: int
    var cellW: int
    var cellH: int
    /** Size of the on-screen grid canvas. */
    var canvasWidth: int
    var canvasHeight: int
    var grid: Grid
    var selected: Option<Pos>

    /** The grid has the configured shape, the canvas fits it, and a
        selection (when there is one) names a cell of the grid. */
    ghost predicate Valid()
      reads this
    {
      && 0 <= gridRows && 0 <= gridCols && 0 < cellW && 0 < cellH
      && Shaped(grid, gridRows, gridCols)
      && canvasWidth == CanvasDim(gridCols * cellW, DefaultWidth)
      && canvasHeight == CanvasDim(gridRows * cellH, DefaultHeight)
      && (selected.Some? ==> InGrid(grid, selected.value))
    }

    /** The record under the selection, if a cell is selected and not empty. */
    ghost function SelectedCell(): Option<Cell>
      reads this
      requires Valid()
    {
      match selected
      case None => None
      case Some(p) => grid[p.row][p.col]
    }

    /** The start-up state: 6 rows of 9 empty 64 x 64 cells, nothing selected. */
    constructor ()
      ensures Valid()
      ensures gridCols == 9 && gridRows == 6 && cellW == 64 && cellH == 64
      ensures AllEmpty(grid) && selected == None
    {
      gridCols, gridRows, cellW, cellH := 9, 6, 64, 64;
      grid, selected := [], None;
      canvasWidth, canvasHeight := 0, 0;
      new;
      ResetGrid();
      ResizeCanvas();
    }

    /** Rebuilds the grid, row by row, as `gridRows` rows of `gridCols`
        empty cells. */
    method ResetGrid()
      requires 0 <= gridRows && 0 <= gridCols
      modifies this`grid
      ensures Shaped(grid, gridRows, gridCols) && AllEmpty(grid)
    {
      grid := [];
      var r := 0;
      while r < gridRows
        invariant 0 <= r <= gridRows
        invariant Shaped(grid, r, gridCols) && AllEmpty(grid)
      {
        var row: seq<Option<Cell>> := [];
        var c := 0;
        while c < gridCols
          invariant 0 <= c <= gridCols
          invariant |row| == c && forall j :: 0 <= j < c ==> row[j] == None
        {
          row := row + [None];
          c := c + 1;
        }
        grid := grid + [row];
        r := r + 1;
      }
    }

    /** Sizes the grid canvas to the grid: `gridCols*cellW` x `gridRows*cellH`
        pixels, as far as the canvas accepts those numbers. */
    method ResizeCanvas()
      modifies this`canvasWidth, this`canvasHeight
      ensures canvasWidth == CanvasDim(gridCols * cellW, DefaultWidth)
      ensures canvasHeight == CanvasDim(gridRows * cellH, DefaultHeight)
    {
      canvasWidth := CanvasDim(gridCols * cellW, DefaultWidth);
      canvasHeight := CanvasDim(gridRows * cellH, DefaultHeight);
    }

    /** The grid-settings "apply" button: takes the new shape and cell size,
        discards every placement and clears the selection. */
    method ApplySettings(cols: int, rows: int, w: int, h: int)
      requires 0 <= cols && 0 <= rows && 0 < w && 0 < h
      modifies this
      ensures Valid()
      ensures gridCols == cols && gridRows == rows && cellW == w && cellH == h
      ensures AllEmpty(grid) && selected == None
      ensures Layout(grid, cellW, cellH) == []
    {
      gridCols, gridRows, cellW, cellH := cols, rows, w, h;
      ResetGrid();
      ResizeCanvas();
      selected := None;
      EmptyGridDrawsNothing(grid, cellW, cellH);
    }

    /** Left click at canvas pixel (x, y): selects the cell under it, empty or
        not, and returns the offsets shown in the offset fields (the cell's
        own, or zero for an empty cell); outside the grid nothing happens. */
    method Click(x: int, y: int) returns (shown: Option<(int, int)>)
      requires Valid()
      modifies this`selected
      ensures Valid()
      ensures var hit := HitTest(x, y, cellW, cellH, gridRows, gridCols);
              && selected == (if hit.Some? then hit else old(selected))
              && shown == (if hit.None? then None
                           else match grid[hit.value.row][hit.value.col]
                                case None => Some((0, 0))
                                case Some(cell) => Some((cell.offsetX, cell.offsetY)))
    {
      var hit := HitTest(x, y, cellW, cellH, gridRows, gridCols);
      if hit.None? {
        return None;
      }
      var p := hit.value;
      selected := Some(p);
      match grid[p.row][p.col]
      case None => shown := Some((0, 0));
      case Some(cell) => shown := Some((cell.offsetX, cell.offsetY));
    }

    /** Right click at (x, y): empties the cell under it and clears the
        selection, whichever cell it was; outside the grid nothing happens. */
    method ContextMenu(x: int, y: int)
      requires Valid()
      modifies this`grid, this`selected
      ensures Valid()
      ensures var hit := HitTest(x, y, cellW, cellH, gridRows, gridCols);
              if hit.None? then grid == old(grid) && selected == old(selected)
              else grid == Put(old(grid), hit.value, None) && selected == None
    {
      var hit := HitTest(x, y, cellW, cellH, gridRows, gridCols);
      if hit.None? {
        return;
      }
      grid := Put(grid, hit.value, None);
      selected := None;
    }

    /** Drop of a tile whose payload is `imgSrc` at (x, y): the cell under it
        gets a fresh record with zero offsets, replacing what was there, and
        becomes the selection. Outside the grid, or with an empty payload,
        nothing happens. */
    method Drop(x: int, y: int, imgSrc: string)
      requires Valid()
      modifies this`grid, this`selected
      ensures Valid()
      ensures var hit := HitTest(x, y, cellW, cellH, gridRows, gridCols);
              if hit.None? || imgSrc == "" then grid == old(grid) && selected == old(selected)
              else grid == Put(old(grid), hit.value, Some(Cell(imgSrc, 0, 0))) && selected == hit
    {
      var hit := HitTest(x, y, cellW, cellH, gridRows, gridCols);
      if hit.None? {
        return;
      }
      if imgSrc == "" {
        return;
      }
      grid := Put(grid, hit.value, Some(Cell(imgSrc, 0, 0)));
      selected := hit;
    }

    /** Typing into the offset fields: the selected cell takes the offsets
        (ox, oy); with no selection or an empty selected cell nothing happens. */
    method SetSelectedOffsets(ox: int, oy: int)
      requires Valid()
      modifies this`grid
      ensures Valid()
      ensures match old(SelectedCell())
              case None => grid == old(grid)
              case Some(cell) => grid == Put(old(grid), selected.value, Some(Cell(cell.img, ox, oy)))
    {
      if selected.None? {
        return;
      }
      var p := selected.value;
      var slot := grid[p.row][p.col];
      if slot.None? {
        return;
      }
      var cell := slot.value;
      grid := Put(grid, p, Some(cell.(offsetX := ox, offsetY := oy)));
    }

    /** One of the four offset buttons: up/down move the selected cell's
        offsetY by -1/+1, left/right its offsetX by -1/+1. With no selection
        or an empty selected cell nothing happens. Returns the offsets then
        written to the offset fields, if any. */
    method Nudge(m: Move) returns (shown: Option<(int, int)>)
      requires Valid()
      modifies this`grid
      ensures Valid()
      ensures match old(SelectedCell())
              case None => grid == old(grid) && shown == None
              case Some(cell) =>
                var moved := Shift(cell, MoveX(m), MoveY(m));
                grid == Put(old(grid), selected.value, Some(moved))
                && shown == Some((moved.offsetX, moved.offsetY))
    {
      if selected.None? {
        return None;
      }
      var p := selected.value;
      var slot := grid[p.row][p.col];
      if slot.None? {
        return None;
      }
      var cell := slot.value;
      match m {
        case Up => cell := cell.(offsetY := cell.offsetY - 1);
        case Down => cell := cell.(offsetY := cell.offsetY + 1);
        case Left => cell := cell.(offsetX := cell.offsetX - 1);
        case Right => cell := cell.(offsetX := cell.offsetX + 1);
      }
      grid := Put(grid, p, Some(cell));
      shown := Some((cell.offsetX, cell.offsetY));
    }

    /** The offset reset button: the selected cell's offsets become zero;
        with no selection or an empty selected cell nothing happens. Returns
        the offsets then written to the offset fields, if any. */
    method ResetOffsets() returns (shown: Option<(int, int)>)
      requires Valid()
      modifies this`grid
      ensures Valid()
      ensures match old(SelectedCell())
              case None => grid == old(grid) && shown == None
              case Some(cell) => grid == Put(old(grid), selected.value, Some(Cell(cell.img, 0, 0)))
                                 && shown == Some((0, 0))
    {
      if selected.None? {
        return None;
      }
      var p := selected.value;
      var slot := grid[p.row][p.col];
      if slot.None? {
        return None;
      }
      var cell := slot.value;
      grid := Put(grid, p, Some(cell.(offsetX := 0, offsetY := 0)));
      shown := Some((0, 0));
    }

    /** The row buttons (up passes dy = -1, down dy = +1): every placed tile
        of row `target` moves by dy vertically; empty cells and other rows are
        untouched, and a target outside the grid changes nothing. */
    method ShiftRow(target: int, dy: int)
      requires Valid()
      modifies this`grid
      ensures Valid()
      ensures forall i, j :: 0 <= i < gridRows && 0 <= j < gridCols ==>
                grid[i][j] == if i == target then ShiftSlot(old(grid)[i][j], 0, dy) else old(grid)[i][j]
      ensures !(0 <= target < gridRows) ==> grid == old(grid)
    {
      if target < 0 || target >= gridRows {
        return;
      }
      var c := 0;
      while c < gridCols
        invariant 0 <= c <= gridCols
        invariant Shaped(grid, gridRows, gridCols)
        invariant forall i, j :: 0 <= i < gridRows && 0 <= j < gridCols ==>
                    grid[i][j] == if i == target && j < c then ShiftSlot(old(grid)[i][j], 0, dy) else old(grid)[i][j]
      {
        var slot := grid[target][c];
        if slot.Some? {
          grid := Put(grid, Pos(target, c), Some(slot.value.(offsetY := slot.value.offsetY + dy)));
        }
        c := c + 1;
      }
    }

    /** The column buttons (left passes dx = -1, right dx = +1): every placed
        tile of column `target` moves by dx horizontally; empty cells and
        other columns are untouched, and a target outside the grid changes
        nothing. */
    method ShiftCol(target: int, dx: int)
      requires Valid()
      modifies this`grid
      ensures Valid()
      ensures forall i, j :: 0 <= i < gridRows && 0 <= j < gridCols ==>
                grid[i][j] == if j == target then ShiftSlot(old(grid)[i][j], dx, 0) else old(grid)[i][j]
      ensures !(0 <= target < gridCols) ==> grid == old(grid)
    {
      if target < 0 || target >= gridCols {
        return;
      }
      var r := 0;
      while r < gridRows
        invariant 0 <= r <= gridRows
        invariant Shaped(grid, gridRows, gridCols)
        invariant forall i, j :: 0 <= i < gridRows && 0 <= j < gridCols ==>
                    grid[i][j] == if j == target && i < r then ShiftSlot(old(grid)[i][j], dx, 0) else old(grid)[i][j]
      {
        var slot := grid[r][target];
        if slot.Some? {
          grid := Put(grid, Pos(r, target), Some(slot.value.(offsetX := slot.value.offsetX + dx)));
        }
        r := r + 1;
      }
    }

    /** The redraw: the draw calls it makes for the placed tiles. */
    method DrawGrid() returns (draws: seq<Draw>)
      requires Valid()
      ensures draws == Layout(grid, cellW, cellH)
    {
      draws := Compose(grid, gridRows, gridCols, cellW, cellH);
    }

    /** The PNG export: a canvas of gridCols*cellW x gridRows*cellH pixels
        with the same draw calls as the redraw. */
    method SavePng() returns (width: int, height: int, draws: seq<Draw>)
      requires Valid()
      ensures width == CanvasDim(gridCols * cellW, DefaultWidth)
      ensures height == CanvasDim(gridRows * cellH, DefaultHeight)
      ensures width == canvasWidth && height == canvasHeight
      ensures draws == Layout(grid, cellW, cellH)
    {
      width := CanvasDim(gridCols * cellW, DefaultWidth);
      height := CanvasDim(gridRows * cellH, DefaultHeight);
      draws := Compose(grid, gridRows, gridCols, cellW, cellH);
    }
  }
}
