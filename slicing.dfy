/** The slicer: it cuts a loaded sprite sheet into a `rows` x `cols` grid of
    `w` x `h` tiles starting at source offset (offX, offY), and keeps the
    pan state of its preview, which the user drags with the mouse. */
module Slicing {
  import opened Wrappers
  import opened GridModel
  import opened Canvas

  /** The six numbers the slicer reads: tile size, grid shape, source offset. */
  datatype SliceSettings = SliceSettings(w: int, h: int, cols: int, rows: int, offX: int, offY: int)

  datatype Rect = Rect(x: int, y: int, w: int, h: int)

  /** One cut tile: the rectangle of the source image it copies and the size
      the tile's canvas gets from `canvas.width = w; canvas.height = h`. The
      source rectangle is copied to (0, 0, w, h) on that canvas. */
  datatype Tile = Tile(source: Rect, width: int, height: int)

  /** How many times `for (let i = 0; i < n; i++)` runs its body. */
  function Passes(n: int): nat {
    if n < 0 then 0 else n
  }

  /** The tile in row r, column c of the slicing grid. */
  function TileAt(s: SliceSettings, r: int, c: int): Tile {
    Tile(Rect(s.offX + c * s.w, s.offY + r * s.h, s.w, s.h),
         CanvasDim(s.w, DefaultWidth), CanvasDim(s.h, DefaultHeight))
  }

  /** The first `n` tiles of row `r`, left to right. */
  function RowPlan(s: SliceSettings, r: int, n: nat): (t: seq<Tile>)
    ensures |t| == n
    ensures forall c :: 0 <= c < n ==> t[c] == TileAt(s, r, c)
  {
    if n == 0 then [] else RowPlan(s, r, n - 1) + [TileAt(s, r, n - 1)]
  }

  /** The tiles of the first `n` rows, row by row. */
  function Plan(s: SliceSettings, n: nat): (t: seq<Tile>)
    ensures |t| == n * Passes(s.cols)
  {
    if n == 0 then []
    else
      var prev := Plan(s, n - 1);
      assert (n - 1) * Passes(s.cols) + Passes(s.cols) == n * Passes(s.cols);
      prev + RowPlan(s, n - 1, Passes(s.cols))
  }

  /** Everything one run of the slicer cuts. */
  function SlicePlan(s: SliceSettings): seq<Tile> {
    Plan(s, Passes(s.rows))
  }

  /** Row r, column c of the grid sits at index r*cols + c. */
  lemma {:induction false} PlanAt(s: SliceSettings, n: nat, r: nat, c: nat)
    requires r < n && c < Passes(s.cols)
    ensures r * Passes(s.cols) + c < |Plan(s, n)|
    ensures Plan(s, n)[r * Passes(s.cols) + c] == TileAt(s, r, c)
  {
    var m := Passes(s.cols);
    assert |Plan(s, n - 1)| == (n - 1) * m;
    if r < n - 1 {
      PlanAt(s, n - 1, r, c);
    } else {
      assert Plan(s, n)[r * m + c] == RowPlan(s, n - 1, m)[c];
    }
  }

  /** One run yields rows*cols tiles in row-major order; the tile at row r,
      column c copies the w x h source rectangle at (offX + c*w, offY + r*h);
      every tile's canvas has the size the browser gives `w` x `h`, which is
      `w` x `h` itself for sizes in [0, 2^31) and the 300 x 150 default for
      small negative ones. */
  lemma SlicePlanSpec(s: SliceSettings)
    ensures |SlicePlan(s)| == Passes(s.rows) * Passes(s.cols)
    ensures forall r, c :: 0 <= r < Passes(s.rows) && 0 <= c < Passes(s.cols) ==>
              r * Passes(s.cols) + c < |SlicePlan(s)|
              && SlicePlan(s)[r * Passes(s.cols) + c] == TileAt(s, r, c)
    ensures forall k :: 0 <= k < |SlicePlan(s)| ==>
              SlicePlan(s)[k].width == CanvasDim(s.w, DefaultWidth)
              && SlicePlan(s)[k].height == CanvasDim(s.h, DefaultHeight)
              && SlicePlan(s)[k].source.w == s.w && SlicePlan(s)[k].source.h == s.h
  {
    forall r, c | 0 <= r < Passes(s.rows) && 0 <= c < Passes(s.cols)
      ensures r * Passes(s.cols) + c < |SlicePlan(s)|
      ensures SlicePlan(s)[r * Passes(s.cols) + c] == TileAt(s, r, c)
    {
      PlanAt(s, Passes(s.rows), r, c);
    }
    SizesUniform(s, Passes(s.rows));
  }

  lemma {:induction false} SizesUniform(s: SliceSettings, n: nat)
    ensures forall k :: 0 <= k < |Plan(s, n)| ==>
              Plan(s, n)[k].width == CanvasDim(s.w, DefaultWidth)
              && Plan(s, n)[k].height == CanvasDim(s.h, DefaultHeight)
              && Plan(s, n)[k].source.w == s.w && Plan(s, n)[k].source.h == s.h
  {
    if n > 0 {
      SizesUniform(s, n - 1);
    }
  }

  /** A slice width of -5 cuts a source rectangle of width -5, as passed to
      `drawImage`, onto a canvas set to the default width 300. */
  lemma NegativeWidthSlice()
    ensures SlicePlan(SliceSettings(-5, 10, 1, 1, 0, 0)) == [Tile(Rect(0, 0, -5, 10), 300, 10)]
  {
    NegativeDimFallsBack(-5, DefaultWidth);
  }

  predicate Overlap(a: Rect, b: Rect) {
    a.x < b.x + b.w && b.x < a.x + a.w && a.y < b.y + b.h && b.y < a.y + a.h
  }

  /** With positive tile sizes, two different grid positions cut disjoint
      source rectangles: the slicing grid is a partition into uniform tiles. */
  lemma TilesDisjoint(s: SliceSettings, r1: int, c1: int, r2: int, c2: int)
    requires s.w > 0 && s.h > 0
    requires r1 != r2 || c1 != c2
    ensures !Overlap(TileAt(s, r1, c1).source, TileAt(s, r2, c2).source)
  {
    if c1 < c2 {
      MulMonotone(c1 + 1, c2, s.w);
    } else if c2 < c1 {
      MulMonotone(c2 + 1, c1, s.w);
    } else if r1 < r2 {
      MulMonotone(r1 + 1, r2, s.h);
    } else {
      MulMonotone(r2 + 1, r1, s.h);
    }
  }

  datatype Point = Point(x: int, y: int)

  /** The preview's pan state: whether a drag is in progress, the last
      pointer position seen during it, and the pan offset of the preview. */
  datatype DragState = DragState(dragging: bool, startX: int, startY: int, offX: int, offY: int)

  /** mousedown: a drag starts at the pointer. */
  function Pressed(d: DragState, p: Point): DragState {
    d.(dragging := true, startX := p.x, startY := p.y)
  }

  /** mousemove: while dragging, the pan grows by the pointer's move since
      the last event, and that event's point becomes the new reference. */
  function Moved(d: DragState, p: Point): DragState {
    if !d.dragging then d
    else d.(offX := d.offX + (p.x - d.startX), offY := d.offY + (p.y - d.startY),
             startX := p.x, startY := p.y)
  }

  /** mouseup and mouseleave: the drag ends; the pan stays. */
  function Released(d: DragState): DragState {
    d.(dragging := false)
  }

  /** A run of mousemove events, in order. */
  function MovedAll(d: DragState, ps: seq<Point>): DragState
    decreases |ps|
  {
    if ps == [] then d else MovedAll(Moved(d, ps[0]), ps[1..])
  }

  /** The pan telescopes: after any run of moves during a drag, the pan is
      the pan before them plus the pointer's total displacement from the
      reference point, and the last point is the new reference. */
  lemma {:induction false} MovesTelescope(d: DragState, ps: seq<Point>)
    requires d.dragging && ps != []
    ensures var last := ps[|ps| - 1];
            MovedAll(d, ps) == DragState(true, last.x, last.y,
                                         d.offX + (last.x - d.startX), d.offY + (last.y - d.startY))
    decreases |ps|
  {
    if |ps| > 1 {
      MovesTelescope(Moved(d, ps[0]), ps[1..]);
    }
  }

  /** Moves while not dragging change nothing. */
  lemma {:induction false} IdleMovesIgnored(d: DragState, ps: seq<Point>)
    requires !d.dragging
    ensures MovedAll(d, ps) == d
    decreases |ps|
  {
    if ps != [] {
      IdleMovesIgnored(Moved(d, ps[0]), ps[1..]);
    }
  }

  /** A whole drag gesture: after mousedown at p and any non-empty run of
      moves, the pan is the pan at mousedown plus the displacement from p to
      the last point; after the release no further move changes it. */
  lemma DragGesture(d: DragState, p: Point, ps: seq<Point>, later: seq<Point>)
    requires ps != []
    ensures var last := ps[|ps| - 1];
            var e := MovedAll(Pressed(d, p), ps);
            e.offX == d.offX + (last.x - p.x) && e.offY == d.offY + (last.y - p.y)
            && MovedAll(Released(e), later) == Released(e)
  {
    MovesTelescope(Pressed(d, p), ps);
    IdleMovesIgnored(Released(MovedAll(Pressed(d, p), ps)), later);
  }

  class Slicer {
    /** The loaded sprite sheet (its data URL), if any. */
    var source: Option<string>
    /** The tile list shown under the slicer. */
    var tiles: seq<Tile>
    /** Pan of the preview. */
    var offsetX: int
    var offsetY: int
    var dragging: bool
    var dragStartX: int
    var dragStartY: int

    function Pan(): DragState
      reads this
    {
      DragState(dragging, dragStartX, dragStartY, offsetX, offsetY)
    }

    constructor ()
      ensures source == None && tiles == []
      ensures Pan() == DragState(false, 0, 0, 0, 0)
    {
      source, tiles := None, [];
      offsetX, offsetY := 0, 0;
      dragging, dragStartX, dragStartY := false, 0, 0;
    }

    /** The loaded image has been decoded: it becomes the source and the
        preview pan returns to the origin. */
    method ImageLoaded(img: string)
      modifies this`source, this`offsetX, this`offsetY
      ensures source == Some(img)
      ensures Pan() == old(Pan()).(offX := 0, offY := 0)
    {
      source := Some(img);
      offsetX, offsetY := 0, 0;
    }

    method MouseDown(x: int, y: int)
      modifies this`dragging, this`dragStartX, this`dragStartY
      ensures Pan() == Pressed(old(Pan()), Point(x, y))
    {
      dragging := true;
      dragStartX, dragStartY := x, y;
    }

    method MouseMove(x: int, y: int)
      modifies this`offsetX, this`offsetY, this`dragStartX, this`dragStartY
      ensures Pan() == Moved(old(Pan()), Point(x, y))
    {
      if !dragging {
        return;
      }
      var dx := x - dragStartX;
      var dy := y - dragStartY;
      offsetX := offsetX + dx;
      offsetY := offsetY + dy;
      dragStartX, dragStartY := x, y;
    }

    /** mouseup and mouseleave. */
    method MouseUp()
      modifies this`dragging
      ensures Pan() == Released(old(Pan()))
    {
      dragging := false;
    }

    /** The slice button: with no loaded image it reports failure and leaves
        the tile list alone; otherwise it clears the list and appends the
        tiles of the slicing grid row by row. */
    method Slice(s: SliceSettings) returns (loaded: bool)
      modifies this`tiles
      ensures loaded == source.Some?
      ensures tiles == if loaded then SlicePlan(s) else old(tiles)
    {
      if source.None? {
        return false;
      }
      loaded := true;
      tiles := [];
      var r := 0;
      while r < s.rows
        invariant 0 <= r <= Passes(s.rows)
        invariant tiles == Plan(s, r)
      {
        var c := 0;
        while c < s.cols
          invariant 0 <= c <= Passes(s.cols)
          invariant tiles == Plan(s, r) + RowPlan(s, r, c)
        {
          var sx := s.offX + c * s.w;
          var sy := s.offY + r * s.h;
          var width := CanvasDim(s.w, DefaultWidth);
          var height := CanvasDim(s.h, DefaultHeight);
          var tile := Tile(Rect(sx, sy, s.w, s.h), width, height);
          assert tile == TileAt(s, r, c);
          tiles := tiles + [tile];
          c := c + 1;
        }
        r := r + 1;
      }
    }
  }
}
