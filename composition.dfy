/** The placement formula shared by the on-screen redraw and the PNG export:
    every occupied cell (r, c), visited row by row, is drawn as a
    `cellW` x `cellH` image whose top-left corner is the cell's corner
    (c*cellW, r*cellH) moved by the cell's offset. Empty cells draw nothing. */
module Composition {
  import opened Wrappers
  import opened GridModel

  /** One `drawImage(img, x, y, w, h)` call on the composed canvas. */
  datatype Draw = Draw(img: string, x: int, y: int, w: int, h: int)

  predicate Occupied(g: Grid, p: Pos) {
    InGrid(g, p) && g[p.row][p.col].Some?
  }

  /** Strict row-major order on grid coordinates. */
  predicate Before(p: Pos, q: Pos) {
    p.row < q.row || (p.row == q.row && p.col < q.col)
  }

  /** The occupied cells among the first `n` cells of row `r`, left to right. */
  function RowSlots(g: Grid, r: nat, n: nat): (s: seq<Pos>)
    requires r < |g| && n <= |g[r]|
    ensures forall k :: 0 <= k < |s| ==> s[k].row == r && 0 <= s[k].col < n && g[r][s[k].col].Some?
  {
    if n == 0 then []
    else RowSlots(g, r, n - 1) + (if g[r][n - 1].Some? then [Pos(r, n - 1)] else [])
  }

  /** The occupied cells of the first `n` rows, in row-major order; every
      listed position is an occupied cell of those rows. */
  function Slots(g: Grid, n: nat): (s: seq<Pos>)
    requires n <= |g|
    ensures forall k :: 0 <= k < |s| ==> s[k].row < n && Occupied(g, s[k])
  {
    if n == 0 then [] else Slots(g, n - 1) + RowSlots(g, n - 1, |g[n - 1]|)
  }

  /** A row's slots run strictly left to right. */
  lemma {:induction false} RowSlotsSorted(g: Grid, r: nat, n: nat)
    requires r < |g| && n <= |g[r]|
    ensures forall i, j :: 0 <= i < j < |RowSlots(g, r, n)| ==> RowSlots(g, r, n)[i].col < RowSlots(g, r, n)[j].col
  {
    if n > 0 {
      RowSlotsSorted(g, r, n - 1);
    }
  }

  /** The slots are strictly increasing in row-major order, so no cell is
      visited twice. */
  lemma {:induction false} SlotsSorted(g: Grid, n: nat)
    requires n <= |g|
    ensures forall i, j :: 0 <= i < j < |Slots(g, n)| ==> Before(Slots(g, n)[i], Slots(g, n)[j])
  {
    if n > 0 {
      SlotsSorted(g, n - 1);
      RowSlotsSorted(g, n - 1, |g[n - 1]|);
    }
  }

  /** No occupied cell among the first `n` of row `r` is missing from its
      row's slots. */
  lemma {:induction false} RowSlotsComplete(g: Grid, r: nat, n: nat, c: nat)
    requires r < |g| && c < n <= |g[r]| && g[r][c].Some?
    ensures Pos(r, c) in RowSlots(g, r, n)
  {
    var prev := RowSlots(g, r, n - 1);
    if c < n - 1 {
      RowSlotsComplete(g, r, n - 1, c);
      var k :| 0 <= k < |prev| && prev[k] == Pos(r, c);
      assert RowSlots(g, r, n)[k] == Pos(r, c);
    } else {
      assert RowSlots(g, r, n) == prev + [Pos(r, c)];
      assert RowSlots(g, r, n)[|prev|] == Pos(r, c);
    }
  }

  /** No occupied cell of the first `n` rows is missing from the slots. */
  lemma {:induction false} SlotsComplete(g: Grid, n: nat, p: Pos)
    requires n <= |g| && Occupied(g, p) && p.row < n
    ensures p in Slots(g, n)
  {
    if p.row < n - 1 {
      SlotsComplete(g, n - 1, p);
    } else {
      RowSlotsComplete(g, p.row, |g[p.row]|, p.col);
    }
  }

  /** The draw call for the occupied cell at `p`. */
  function DrawOf(g: Grid, p: Pos, cellW: int, cellH: int): Draw
    requires Occupied(g, p)
  {
    var cell := g[p.row][p.col].value;
    Draw(cell.img, p.col * cellW + cell.offsetX, p.row * cellH + cell.offsetY, cellW, cellH)
  }

  /** Every position in `ps` is an occupied cell of `g`. */
  predicate AllOccupied(g: Grid, ps: seq<Pos>) {
    forall k :: 0 <= k < |ps| ==> Occupied(g, ps[k])
  }

  /** The draw calls for the occupied positions `ps`, one each, in order. */
  function DrawsAt(g: Grid, ps: seq<Pos>, cellW: int, cellH: int): (r: seq<Draw>)
    requires AllOccupied(g, ps)
    ensures |r| == |ps|
  {
    if ps == [] then []
    else DrawsAt(g, ps[..|ps| - 1], cellW, cellH) + [DrawOf(g, ps[|ps| - 1], cellW, cellH)]
  }

  /** The k-th draw call is that of the k-th position. */
  lemma {:induction false} DrawsAtIndex(g: Grid, ps: seq<Pos>, k: nat, cellW: int, cellH: int)
    requires AllOccupied(g, ps) && k < |ps|
    ensures DrawsAt(g, ps, cellW, cellH)[k] == DrawOf(g, ps[k], cellW, cellH)
  {
    if k < |ps| - 1 {
      DrawsAtIndex(g, ps[..|ps| - 1], k, cellW, cellH);
    }
  }

  lemma DrawsAtAppend(g: Grid, ps: seq<Pos>, p: Pos, cellW: int, cellH: int)
    requires AllOccupied(g, ps) && Occupied(g, p)
    ensures AllOccupied(g, ps + [p])
    ensures DrawsAt(g, ps + [p], cellW, cellH) == DrawsAt(g, ps, cellW, cellH) + [DrawOf(g, p, cellW, cellH)]
  {
    assert (ps + [p])[..|ps|] == ps;
  }

  /** The draw calls for the first `n` cells of row `r`, left to right. */
  function RowDraws(g: Grid, r: nat, n: nat, cellW: int, cellH: int): seq<Draw>
    requires r < |g| && n <= |g[r]|
  {
    if n == 0 then []
    else RowDraws(g, r, n - 1, cellW, cellH)
         + (if g[r][n - 1].Some? then [DrawOf(g, Pos(r, n - 1), cellW, cellH)] else [])
  }

  /** The draw calls for the first `n` rows, row by row. */
  function GridDraws(g: Grid, n: nat, cellW: int, cellH: int): seq<Draw>
    requires n <= |g|
  {
    if n == 0 then [] else GridDraws(g, n - 1, cellW, cellH) + RowDraws(g, n - 1, |g[n - 1]|, cellW, cellH)
  }

  /** The draw calls of one composition of the whole grid. */
  function Layout(g: Grid, cellW: int, cellH: int): seq<Draw> {
    GridDraws(g, |g|, cellW, cellH)
  }

  lemma {:induction false} RowDrawsAtSlots(g: Grid, r: nat, n: nat, cellW: int, cellH: int)
    requires r < |g| && n <= |g[r]|
    ensures RowDraws(g, r, n, cellW, cellH) == DrawsAt(g, RowSlots(g, r, n), cellW, cellH)
  {
    if n > 0 {
      var prev := RowSlots(g, r, n - 1);
      RowDrawsAtSlots(g, r, n - 1, cellW, cellH);
      if g[r][n - 1].Some? {
        assert RowSlots(g, r, n) == prev + [Pos(r, n - 1)];
        DrawsAtAppend(g, prev, Pos(r, n - 1), cellW, cellH);
      } else {
        assert RowSlots(g, r, n) == prev;
        assert RowDraws(g, r, n, cellW, cellH) == RowDraws(g, r, n - 1, cellW, cellH);
      }
    }
  }

  lemma {:induction false} DrawsAtConcat(g: Grid, ps: seq<Pos>, qs: seq<Pos>, cellW: int, cellH: int)
    requires AllOccupied(g, ps) && AllOccupied(g, qs)
    ensures AllOccupied(g, ps + qs)
    ensures DrawsAt(g, ps + qs, cellW, cellH) == DrawsAt(g, ps, cellW, cellH) + DrawsAt(g, qs, cellW, cellH)
    decreases |qs|
  {
    if qs != [] {
      var front, last := qs[..|qs| - 1], qs[|qs| - 1];
      assert qs == front + [last];
      assert AllOccupied(g, front);
      DrawsAtConcat(g, ps, front, cellW, cellH);
      assert ps + qs == (ps + front) + [last];
      DrawsAtAppend(g, ps + front, last, cellW, cellH);
      DrawsAtAppend(g, front, last, cellW, cellH);
    } else {
      assert ps + qs == ps;
    }
  }

  /** The composition draws exactly the slots, in order: the i-th draw call
      is that of the i-th occupied cell in row-major order. */
  lemma {:induction false} LayoutIsDrawsAtSlots(g: Grid, n: nat, cellW: int, cellH: int)
    requires n <= |g|
    ensures GridDraws(g, n, cellW, cellH) == DrawsAt(g, Slots(g, n), cellW, cellH)
  {
    if n > 0 {
      LayoutIsDrawsAtSlots(g, n - 1, cellW, cellH);
      RowDrawsAtSlots(g, n - 1, |g[n - 1]|, cellW, cellH);
      DrawsAtConcat(g, Slots(g, n - 1), RowSlots(g, n - 1, |g[n - 1]|), cellW, cellH);
    }
  }

  /** The placement loop shared by the redraw and the PNG export: visits
      the cells row by row, left to right, and issues one draw call for each
      placed tile. */
  method Compose(g: Grid, rows: nat, cols: nat, cellW: int, cellH: int) returns (draws: seq<Draw>)
    requires Shaped(g, rows, cols)
    ensures draws == Layout(g, cellW, cellH)
  {
    draws := [];
    var r := 0;
    while r < rows
      invariant 0 <= r <= rows
      invariant draws == GridDraws(g, r, cellW, cellH)
    {
      var c := 0;
      while c < cols
        invariant 0 <= c <= cols
        invariant draws == GridDraws(g, r, cellW, cellH) + RowDraws(g, r, c, cellW, cellH)
      {
        if g[r][c].Some? {
          var cell := g[r][c].value;
          draws := draws + [Draw(cell.img, c * cellW + cell.offsetX, r * cellH + cell.offsetY, cellW, cellH)];
        }
        c := c + 1;
      }
      r := r + 1;
    }
  }

  /** Every occupied cell of a grid is drawn, exactly at index of its
      position in the row-major slot list, by the placement formula. */
  lemma {:induction false} LayoutDrawsEveryOccupiedCell(g: Grid, p: Pos, cellW: int, cellH: int)
    requires Occupied(g, p)
    ensures exists k :: 0 <= k < |Slots(g, |g|)| && k < |Layout(g, cellW, cellH)|
                     && Slots(g, |g|)[k] == p && Layout(g, cellW, cellH)[k] == DrawOf(g, p, cellW, cellH)
  {
    var s := Slots(g, |g|);
    SlotsComplete(g, |g|, p);
    LayoutIsDrawsAtSlots(g, |g|, cellW, cellH);
    var k :| 0 <= k < |s| && s[k] == p;
    DrawsAtIndex(g, s, k, cellW, cellH);
  }

  /** A grid with no occupied cell composes to no draw call at all. */
  lemma EmptyGridDrawsNothing(g: Grid, cellW: int, cellH: int)
    requires AllEmpty(g)
    ensures Layout(g, cellW, cellH) == []
  {
    LayoutIsDrawsAtSlots(g, |g|, cellW, cellH);
  }

  /** A tile just dropped on cell `p` (offsets zero) is drawn at exactly that
      cell's top-left corner at the cell's size. */
  lemma DroppedTileDrawnAtCellCorner(g: Grid, p: Pos, img: string, cellW: int, cellH: int)
    requires InGrid(g, p)
    ensures Draw(img, p.col * cellW, p.row * cellH, cellW, cellH)
              in Layout(Put(g, p, Some(Cell(img, 0, 0))), cellW, cellH)
  {
    var g' := Put(g, p, Some(Cell(img, 0, 0)));
    LayoutDrawsEveryOccupiedCell(g', p, cellW, cellH);
  }

  /** A cleared cell contributes no slot, hence no draw call. */
  lemma ClearedCellNotDrawn(g: Grid, p: Pos)
    requires InGrid(g, p)
    ensures p !in Slots(Put(g, p, None), |g|)
  {
  }
}
