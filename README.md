# NoWords CharaTool — a Dafny model of the tile placer and slicer

NoWords CharaTool cuts a sprite sheet into uniform tiles and lets the user
place those tiles on a grid and export the grid as one PNG. This project
models the integer logic under the tool's event handlers in `script.js`:

- **Placement grid** (`placement.dfy`, class `Placement.PlacementGrid`): a
  `gridRows` x `gridCols` grid of optional cell records
  `{img, offsetX, offsetY}` plus an optional selected cell. It covers start-up,
  grid reset and resize, the canvas size, and the handlers for click (select),
  right-click (clear), drop (place), offset fields, offset buttons, offset
  reset, and the whole-row and whole-column nudges. Every handler validates
  the pixel or target it is given and does nothing when it falls outside the
  grid.
- **Hit testing** (`grid_model.dfy`): a pixel maps to cell
  `(floor(y / cellH), floor(x / cellW))`, or to nothing outside the grid.
- **Composition** (`composition.dfy`): the placement formula shared by the
  on-screen redraw and the PNG export. Every occupied cell (r, c) is drawn,
  in row-major order, as a `cellW` x `cellH` image at
  `(c*cellW + offsetX, r*cellH + offsetY)`. The export canvas is
  sized `gridCols*cellW` x `gridRows*cellH`, subject to the browser's rule
  for canvas sizes described below.
- **Slicing** (`slicing.dfy`, class `Slicing.Slicer`): the slice button
  yields `rows*cols` tiles in row-major order. Each tile copies the source
  rectangle `(offX + c*w, offY + r*h, w, h)` onto a canvas sized `w` x `h`,
  again subject to that rule. The
  button does nothing when no image is loaded. The same class holds the pan
  state of the preview: mousedown starts a drag, mousemove adds the pointer's
  movement to the pan, and mouseup or mouseleave ends the drag.

Handlers that change state are class methods, specified by their whole new
state. Each loop of the modelled logic is a method with loop invariants, proved
against a definition of what it builds:
- the draw loop of the redraw and the export (script.js:55-68, 280-293), as `Composition.Compose`, against `Layout`;
- the slicing loop (script.js:456-480), as `Slicing.Slicer.Slice`, against `SlicePlan`;
- the grid rebuild (script.js:26-35), as `ResetGrid`, against `Shaped` and `AllEmpty`;
- the row and column nudges (script.js:236-270), as `ShiftRow` and `ShiftCol`, against `ShiftSlot` applied to each cell of the target line.

The preview drag has no loop. Each mouse event is a class method whose new
pan state is a pure step function of the old one: `MouseDown` is `Pressed`,
`MouseMove` is `Moved`, and `MouseUp` is `Released`. `ImageLoaded` sets the
source and zeroes the pan directly. The lemmas beside them state what the source
promises: row-major order, completeness, the tile formula, and that the pan
telescopes over a drag.

Canvas sizes follow the browser's rule for `canvas.width = v` (`canvas.dfy`).
The value wraps modulo 2^32. A result above 2147483647 is not accepted, and
the canvas is set to its default of 300 x 150. So a slice size of -5 gives
canvases 300 wide, not -5.

An image is an opaque token: the data-URL string a tile is dropped with, or
the loaded sheet's source. Nothing about pixels is modelled.

## Model

| member | source | states |
|---|---|---|
| `GridModel.FloorDiv` | script.js:90-91 | `Math.floor(n / d)` for a positive divisor is the `q` with `q*d <= n < q*d + d` |
| `GridModel.FloorDivInRange` | script.js:93-94 | the floored cell index lies in `[0, k)` exactly when the pixel lies in `[0, k*d)` |
| `GridModel.HitTest` | script.js:90-94 | a pixel hits a cell iff `0 <= x < gridCols*cellW` and `0 <= y < gridRows*cellH`; the cell is `(floor(y/cellH), floor(x/cellW))`, inside the grid, and the pixel lies inside that cell's box (the same test guards right-click, script.js:120-124, and drop, script.js:143-147) |
| `Canvas.CanvasDim` | script.js:38-39 | a canvas assigned a size in `[0, 2^31)` takes exactly that size, and never ends up larger than 2147483647 (the same assignment sizes the export canvas, script.js:277-278, and each tile canvas, script.js:463-464) |
| `Canvas.NegativeDimFallsBack` | script.js:463-464 | a negative size of magnitude at most 2^31 leaves the canvas at its default size |
| `Canvas.OversizedDimFallsBack` | script.js:38-39 | a size from 2^31 up to 2^32 also leaves the canvas at its default size |
| `Canvas.DimWraps` | script.js:463-464 | the assigned value only counts modulo 2^32 |
| `GridModel.Put` | script.js:155 | replacing one cell keeps the grid's shape, gives that cell the new value and leaves every other cell as it was |
| `Placement.PlacementGrid.constructor` | script.js:12-21 | the start-up state is 6 rows of 9 empty 64 x 64 cells with nothing selected and the canvas sized to the grid (start-up at script.js:521-523) |
| `Placement.PlacementGrid.ResetGrid` | script.js:26-35 | the grid is rebuilt as exactly `gridRows` rows of exactly `gridCols` empty cells; nothing else changes |
| `Placement.PlacementGrid.ResizeCanvas` | script.js:37-40 | the canvas becomes the size the browser gives `gridCols*cellW` x `gridRows*cellH`: exactly that for sizes below 2^31 |
| `Placement.PlacementGrid.ApplySettings` | script.js:166-178 | takes the new shape and cell size, leaves an all-empty grid of that shape, clears the selection, and the grid then composes to no draw call |
| `Placement.PlacementGrid.Click` | script.js:85-109 | a click inside the grid selects the cell under it, empty or not, and shows that cell's offsets (zero for an empty cell); outside the grid nothing changes; the grid never changes |
| `Placement.PlacementGrid.ContextMenu` | script.js:114-130 | a right-click inside the grid empties exactly the cell under it and clears the selection, whichever cell was selected; outside the grid neither grid nor selection changes |
| `Placement.PlacementGrid.Drop` | script.js:137-161 | a drop inside the grid with a non-empty payload overwrites exactly that cell with a new record with zero offsets, and selects it; an empty payload or a pixel outside the grid changes nothing |
| `Placement.PlacementGrid.SetSelectedOffsets` | script.js:183-194 | the selected cell's record takes the typed offsets and keeps its image; with no selection or an empty selected cell nothing changes; no other cell changes |
| `Placement.PlacementGrid.Nudge` | script.js:199-217 | up/down change only the selected cell's `offsetY`, by -1/+1, and left/right only its `offsetX`, by -1/+1, and the new offsets are returned as written to the offset fields; with no selection or an empty selected cell nothing changes and nothing is written; no other cell changes |
| `Placement.PlacementGrid.ResetOffsets` | script.js:219-231 | the selected cell's offsets become 0, its image is kept, and (0, 0) is returned as written to the offset fields; with no selection or an empty selected cell nothing changes and nothing is written; no other cell changes |
| `Placement.PlacementGrid.ShiftRow` | script.js:236-252 | every placed tile in the target row moves by `dy` in `offsetY` only; empty cells and other rows are unchanged; a target outside `[0, gridRows)` changes nothing (row-up passes -1, row-down +1) |
| `Placement.PlacementGrid.ShiftCol` | script.js:254-270 | every placed tile in the target column moves by `dx` in `offsetX` only; empty cells and other columns are unchanged; a target outside `[0, gridCols)` changes nothing (col-left passes -1, col-right +1) |
| `Placement.PlacementGrid.DrawGrid` | script.js:52-68 | the redraw issues exactly the draw calls of `Layout` for the current grid and cell size, and changes no state |
| `Placement.PlacementGrid.SavePng` | script.js:275-294 | the export canvas gets the browser's size for `gridCols*cellW` x `gridRows*cellH`, the same as the grid canvas, and receives exactly the draw calls of `Layout` |
| `Composition.Compose` | script.js:55-68 | the nested row-then-column loop issues exactly the draw calls of `Layout` |
| `Composition.RowSlots` | script.js:56-58 | the positions collected from one row are all in that row, within the visited columns, and occupied |
| `Composition.Slots` | script.js:55-58 | the positions collected from the grid all lie in the visited rows and are occupied |
| `Composition.RowSlotsSorted` | script.js:56 | a row's positions are strictly increasing left to right |
| `Composition.SlotsSorted` | script.js:55-56 | the grid's positions are strictly increasing in row-major order, so no cell is visited twice |
| `Composition.RowSlotsComplete` | script.js:56-58 | no occupied cell of a row is skipped |
| `Composition.SlotsComplete` | script.js:55-58 | no occupied cell of the grid is skipped, so with `Slots` and `SlotsSorted` every occupied cell is visited exactly once and empty cells never |
| `Composition.DrawsAt` | script.js:59-65 | one draw call per visited position |
| `Composition.DrawsAtIndex` | script.js:59-65 | the k-th draw call is the k-th position's image at `(c*cellW + offsetX, r*cellH + offsetY)` with size `cellW` x `cellH` |
| `Composition.DrawsAtAppend` | script.js:58-65 | visiting one more occupied cell appends exactly its draw call |
| `Composition.DrawsAtConcat` | script.js:55-68 | the draw calls of two runs of positions, one after the other, are those of the first run followed by those of the second |
| `Composition.RowDrawsAtSlots` | script.js:56-66 | the inner loop over one row issues exactly the draw calls of that row's occupied positions, in order |
| `Composition.LayoutIsDrawsAtSlots` | script.js:55-68 | the whole composition is exactly the draw calls of the occupied cells in row-major order, one each |
| `Composition.LayoutDrawsEveryOccupiedCell` | script.js:55-68 | every occupied cell is drawn, by the placement formula, at the index of its position in row-major order |
| `Composition.EmptyGridDrawsNothing` | script.js:55-68 | a grid with no placed tile composes to no draw call |
| `Composition.DroppedTileDrawnAtCellCorner` | script.js:155 | a tile just dropped on a cell (offsets zero) is drawn exactly at that cell's top-left corner at the cell size |
| `Composition.ClearedCellNotDrawn` | script.js:126 | a cell emptied by right-click is not among the visited slots, so it is not drawn |
| `Slicing.RowPlan` | script.js:457-471 | one row of the slicing grid is `cols` tiles whose c-th is the tile at column c |
| `Slicing.Plan` | script.js:456-480 | the first n rows of the slicing grid hold `n*cols` tiles |
| `Slicing.PlanAt` | script.js:456-460 | the tile at row r, column c sits at index `r*cols + c` |
| `Slicing.SlicePlanSpec` | script.js:456-471 | one run yields exactly `rows*cols` tiles (none for a non-positive count) in row-major order; tile (r, c) copies the source rect `(offX + c*w, offY + r*h, w, h)`, and every tile's canvas has the size the browser gives `w` x `h` (script.js:463-464) |
| `Slicing.SizesUniform` | script.js:462-470 | every cut tile has a `w` x `h` source rectangle and the same canvas size, the browser's size for `w` x `h` |
| `Slicing.NegativeWidthSlice` | script.js:459-470 | a 1 x 1 slice of width -5 cuts the source rect `(0, 0, -5, 10)` onto a canvas of the default width 300 and height 10 |
| `Slicing.TilesDisjoint` | script.js:459-460 | with positive tile sizes, two different grid positions cut non-overlapping source rectangles |
| `Slicing.MovesTelescope` | script.js:392-402 | during a drag, after any run of moves the pan is the pan before them plus the pointer's displacement from the reference point to the last point, and the last point is the new reference |
| `Slicing.IdleMovesIgnored` | script.js:393 | moves while not dragging change nothing |
| `Slicing.DragGesture` | script.js:386-411 | after mousedown at p and any moves, the pan is the pan at mousedown plus the displacement from p to the last point; after mouseup or mouseleave no move changes it |
| `Slicing.Slicer.constructor` | script.js:306-321 | at start-up no image is loaded, the tile list is empty, the pan is zero and no drag is in progress |
| `Slicing.Slicer.ImageLoaded` | script.js:331-341 | a decoded image becomes the source and the preview pan returns to (0, 0); the drag state is kept |
| `Slicing.Slicer.MouseDown` | script.js:386-390 | a drag starts with the pointer as reference; the pan is unchanged |
| `Slicing.Slicer.MouseMove` | script.js:392-403 | while dragging, the pan grows by the pointer's move since the last event and the reference moves to the pointer; otherwise nothing changes |
| `Slicing.Slicer.MouseUp` | script.js:410-411 | mouseup and mouseleave end the drag and keep the pan |
| `Slicing.Slicer.Slice` | script.js:439-480 | with no loaded image it reports failure and leaves the tile list as it was; otherwise the list is cleared first and becomes exactly `SlicePlan` of the settings |

## Left out

- Rendering: clearing the canvas, grid lines, the selection highlight and the preview guide lines (script.js:42-47, 53, 70-79, 350-381) are drawing, not state. The redraw that ends each handler is the query `DrawGrid`; the handlers themselves do not return draw calls.
- Pixels: `drawImage` resampling, `toDataURL` PNG encoding and the download link (script.js:296-300, 467-476) are canvas calls. The model stops at the rectangles passed to them.
- File loading through `FileReader` and the `Image` load event (script.js:325-345) is asynchronous I/O. Only the state change at the end of loading is modelled, as `ImageLoaded`. The preview canvas size of 300 x 300 is left out.
- Image decoding is not modelled. `sliceSourceImage` is set before its load event (script.js:331-341), and the model takes no source object that has not had that event. That covers slicing before decoding finishes and a chosen file that never decodes. With a broken image the source clears the list (script.js:454), and the first `drawImage` (script.js:467) throws, leaving the list empty. The model instead returns `false` with the old list, or slices the previously loaded image. A dropped tile's fresh `Image` (script.js:152-153) is usually not decoded when the redraw at script.js:160 runs, so that first redraw paints nothing for it. The recorded `Draw` calls are still the ones the source issues.
- Saving and loading the slice settings in `localStorage` (script.js:482, 489-516) is persistence I/O.
- Wheel zoom (script.js:416-434), the preview scale, and the `Math.round(offset / scale)` readout written to the offset fields on every move (script.js:404-405) are floating-point. The model's pan is an integer, moved only by drags and image loads.
- Form reads and `parseInt`: inputs arrive as integers. `NaN` or garbage values are outside the model. For one, a `NaN` row target passes the bounds check at script.js:238.
- Placement.PlacementGrid.ApplySettings: requires non-negative counts and positive cell sizes, which the source does not check. A zero cell size would make the hit test divide by zero.
- GridModel.HitTest: takes integer pixel coordinates. The browser can report fractional ones, which `Math.floor` would also floor.
- Placement.PlacementGrid.Nudge: takes one of the four moves. A button with any other `data-move` value changes no offset in the source either.
- Cell records are values. The source mutates a cell object in place, but each drop creates a fresh object, so no two cells share one. The model writes back the updated record instead.
- The `cell.img` test in the draw loops (script.js:58, 284) always passes, because every placed record holds an image. The model draws every non-empty cell.
- The alert of the slice button (script.js:441) becomes the result `false` of `Slice`; the success message (script.js:483) becomes `true`.
- Trim with recentering, horizontal flip, multi-selection with a primary member, colour-key transparency, a letterboxed guide rectangle and line-by-line slicing: `script.js` implements none of these; the model follows the code.
- Placement.PlacementGrid.SetSelectedOffsets: takes the contents of both offset fields as parameters. The fields themselves are not state. `Click`, `Nudge` and `ResetOffsets` return what they write to the fields, but `Drop` writes nothing there (script.js:149-160). So after a drop the fields still show the previous cell's offsets, and typing into one field gives the new tile the other field's stale value. A caller passing the field contents reproduces this, but the model does not track it.
- JavaScript numbers are doubles. The model's unbounded integers agree with them only while every value and product stays below 2^53 in magnitude. Canvas sizes are modelled exactly, including the fallback to the default size above 2147483647 (`canvas.dfy`).
