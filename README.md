# Paint: undo ring, flood fill and drawing tools

A Dafny model of the core of *Paint*, a small Win2D drawing program.

- **Canvas** (`src/Paint/Drawing/Canvas.cs`) keeps `MAX_UNDO = 5` render targets as a ring of history states. Every edit first acquires a fresh slot through `GetCanvasBuffer`. That call copies the current state into the next slot, evicts the oldest state when the ring is full, and forgets the undone states. `Undo` and `Redo` then only move the head.
- **Fill tool** (`src/Paint/Tools/FillTool.cs`) reads the pixels of the acquired slot into a flat row-major colour array. It flood-fills the 4-connected region under the pointer with a queue-driven scanline fill and draws the array back.
- **Pencil tools**. Two versions exist.
  - The newer one (`Paint/Tools/PencilTool.cs`) caches the slot acquired on press. It paints every in-contact sample of a move on that slot, with the brush offset truncated to whole pixels.
  - The older one (`src/Paint/Tools/PencilTool.cs`) is handed its target. It paints only the current sample, with an exact offset.
  - Each paint is a stamp of the brush when the stroke has no previous offset, and a line back to the previous offset otherwise.
- **Selection tool** (`src/Paint/Tools/SelectionTool.cs`) keeps an anchor and a signed size, set by press and drag.
- **Controller** (`Paint/Core/PaintCore.cs`) owns the canvas, the current tool and the colour. It dispatches pointer events, switches tools (disposing the old one) and pastes bitmaps, growing the canvas to the elementwise maximum of the two sizes. It copies out the selection and delegates Undo, Redo, Resize and Clear to the canvas.

Modules:

| file | module | contents |
|---|---|---|
| `pixels.dfy` | `Pixels` | colours, sizes, the C# `(int)` cast, row-major buffers, index arithmetic, `DrawImage`, region copy |
| `undo_ring.dfy` | `UndoRing`, `History` | the ring's index arithmetic as functions, and the kept and undone states it exposes |
| `canvas.dfy` | `Drawing` | `class Canvas`, proved against `UndoRing` and `History` |
| `regions.dfy` | `Regions` | an independent definition of a flood fill (reachability through target-coloured 4-neighbours) and the invariants of the scanline loop |
| `fill_tool.dfy` | `FillTools` | `class FillTool`, with `FloodPixel` over an `array<Color>` proved to meet `Regions.FloodFilled` |
| `strokes.dfy` | `Strokes` | the draw-command log (stamps and lines) and the trace a sequence of paints produces |
| `pencil_tool.dfy` | `Pencil` | `class PencilTool` (newer version) |
| `legacy_pencil_tool.dfy` | `LegacyPencil` | `class LegacyPencilTool` (older version) |
| `selection_tool.dfy` | `Selection` | `class SelectionTool` |
| `paint_core.dfy` | `PaintCores` | `class PaintCore` and the paste rule |

## Model

| member | source | states |
|---|---|---|
| Pixels.Trunc | Paint/Tools/PencilTool.cs:97 | the `(int)` cast truncates toward zero: the result is within one of the real, below it for non-negative reals and above it for negative ones |
| Pixels.IndexInRange | src/Paint/Tools/FillTool.cs:107 | a pixel inside the grid has an index inside the flat array |
| Pixels.IndexDecode | src/Paint/Tools/FillTool.cs:120-121 | an index built from (x, y) decodes back to x through `%` and to y through `/` |
| Pixels.IndexInjective | src/Paint/Tools/FillTool.cs:107 | distinct pixels have distinct indices |
| Pixels.IndexEncode | src/Paint/Tools/FillTool.cs:117-121 | every index of the array is the index of the pixel it decodes to, inside the grid |
| Pixels.RowInRange | src/Paint/Tools/FillTool.cs:124-158 | a row and its neighbouring rows lie inside the flat array |
| Pixels.SamePixels | src/Paint/Drawing/Canvas.cs:60-64 | two buffers of one size that agree pixel for pixel are equal |
| Pixels.Filled | src/Paint/Drawing/Canvas.cs:62 | a render target cleared to a colour has that colour at every pixel |
| Pixels.Blank | src/Paint/Drawing/Canvas.cs:62 | a cleared render target is transparent at every pixel |
| Pixels.DrawImage | src/Paint/Drawing/Canvas.cs:60-64 | drawing an image at the origin replaces the pixels it covers, keeps the others and keeps the target's size |
| Pixels.DrawOntoBlankCopies | src/Paint/Drawing/Canvas.cs:60-64 | clearing a target of the source's size and drawing the source into it reproduces the source |
| Pixels.DrawCoveringReplaces | src/Paint/Tools/FillTool.cs:77-82 | drawing a bitmap of the target's size replaces the target's content |
| Pixels.CopyRegion | src/Paint/Drawing/Canvas.cs:80-98 | the copy has the rectangle's size, the source's pixel under each of its pixels, and transparent pixels off the source |
| Pixels.CopyWholeIsIdentity | src/Paint/Drawing/Canvas.cs:73-78 | copying the whole buffer gives it back |
| UndoRing.Steps | src/Paint/Drawing/Canvas.cs:37-42 | the forward distance between two slots is in [0, 5) and is 0 exactly for equal slots |
| UndoRing.Next | src/Paint/Drawing/Canvas.cs:37 | the next slot is a slot one step ahead |
| UndoRing.Prev | src/Paint/Drawing/Canvas.cs:183 | the previous slot is a different slot whose next slot is the given one |
| UndoRing.UndoDepth | src/Paint/Drawing/Canvas.cs:180 | the number of possible undos is below 5 and is 0 exactly when head == tail |
| UndoRing.Acquire | src/Paint/Drawing/Canvas.cs:36-45 | GetCanvasBuffer keeps the invariant: the head advances mod 5, the tail advances only when the new head meets it, the redo count resets, and the undo depth grows by one up to 4 |
| UndoRing.Undo | src/Paint/Drawing/Canvas.cs:180-184 | Undo keeps the invariant and is a no-op when head == tail; otherwise the head steps back, the redo count grows by one and the depth shrinks by one |
| UndoRing.Redo | src/Paint/Drawing/Canvas.cs:206-210 | Redo keeps the invariant and is a no-op with nothing undone; otherwise the head steps forward and the redo count shrinks by one |
| UndoRing.UndoThenRedo | src/Paint/Drawing/Canvas.cs:180-184 | a successful Undo followed by Redo restores head, tail and redo count |
| UndoRing.RedoThenUndo | src/Paint/Drawing/Canvas.cs:206-210 | a successful Redo followed by Undo restores head, tail and redo count |
| UndoRing.RedoAfterAcquireIsNoOp | src/Paint/Drawing/Canvas.cs:45 | after an acquisition there is nothing to redo |
| UndoRing.UndoTimes | src/Paint/Drawing/Canvas.cs:176-200 | any number of Undo calls keeps the invariant |
| UndoRing.AcquireTimes | src/Paint/Drawing/Canvas.cs:34-71 | any number of acquisitions keeps the invariant |
| UndoRing.UndoTimesEffect | src/Paint/Drawing/Canvas.cs:180-184 | n Undo calls succeed while states remain: the depth falls by min(n, depth), the redo count rises by the same amount, and the tail stays |
| UndoRing.AcquireTimesEffect | src/Paint/Drawing/Canvas.cs:36-45 | n acquisitions add n undoable states, capped at 4, and leave nothing to redo |
| UndoRing.EditsThenUndosReachOldest | src/Paint/Drawing/Canvas.cs:176-200 | from an empty history, n edits followed by n undos reach the oldest state, where Undo is a no-op |
| UndoRing.AtMostFourUndos | src/Paint/Drawing/Canvas.cs:279 | from any state, 4 Undo calls reach the oldest state kept |
| History.PastOf | src/Paint/Drawing/Canvas.cs:271-274 | the kept states run from the tail's slot to the head's slot, one more than the undo depth |
| History.FutureOf | src/Paint/Drawing/Canvas.cs:271-274 | there are as many undone states as the redo count |
| History.Retained | src/Paint/Drawing/Canvas.cs:40-43 | a full history loses its oldest state; any other history is kept whole |
| History.AcquireHistory | src/Paint/Drawing/Canvas.cs:34-71 | acquiring a slot and filling it appends the new state to the kept states (evicting the oldest when full) and clears the undone states |
| History.ReplaceHeadHistory | src/Paint/Drawing/Canvas.cs:116-121 | replacing the head slot's content replaces only the newest kept state |
| History.UndoHistory | src/Paint/Drawing/Canvas.cs:176-200 | a successful Undo moves the newest kept state to the front of the undone states |
| History.RedoHistory | src/Paint/Drawing/Canvas.cs:202-226 | a successful Redo moves the first undone state back to the end of the kept states |
| Drawing.Canvas.CurrentBuffer | src/Paint/Drawing/Canvas.cs:228-231 | the current buffer is the newest kept state |
| Drawing.Canvas.constructor | src/Paint/Drawing/Canvas.cs:21-27 | a new canvas has the given size, one blank state and nothing to redo |
| Drawing.Canvas.CreateBuffers | src/Paint/Drawing/Canvas.cs:242-255 | every one of the 5 slots gets a cleared buffer of the canvas size, and all indices are 0 |
| Drawing.Canvas.GetCanvasBuffer | src/Paint/Drawing/Canvas.cs:34-71 | the indices follow UndoRing.Acquire; the new slot is reallocated at the canvas size only when its size differs from the current buffer's, then cleared and drawn with the previous head; the history gains that state and loses the undone ones; on a consistent canvas the new head equals the previous head's content |
| Drawing.Canvas.Copy | src/Paint/Drawing/Canvas.cs:80-98 | the copy has the rectangle's size, the current buffer's pixels under it and transparent pixels off the canvas |
| Drawing.Canvas.CopyAll | src/Paint/Drawing/Canvas.cs:73-78 | a whole-canvas copy equals the current buffer |
| Drawing.Canvas.Resize | src/Paint/Drawing/Canvas.cs:100-135 | an unchanged size returns false and changes nothing; otherwise the size changes, a slot is acquired and replaced by a blank buffer of the new size (the newest kept state), SizeChanged is raised once, and the result is true |
| Drawing.Canvas.ClearCanvas | src/Paint/Drawing/Canvas.cs:145-155 | acquires a slot and clears it: the newest kept state is blank at the canvas size and nothing is left to redo |
| Drawing.Canvas.Draw | src/Paint/Tools/FillTool.cs:77-82 | a drawing session on a slot changes that slot only; on the head it replaces the newest kept state |
| Drawing.Canvas.Undo | src/Paint/Drawing/Canvas.cs:176-200 | the indices follow UndoRing.Undo; a successful Undo moves the current buffer to the front of the undone states; the canvas takes the new head's size, and SizeChanged is raised exactly when the size changes |
| Drawing.Canvas.Redo | src/Paint/Drawing/Canvas.cs:202-226 | the indices follow UndoRing.Redo; a successful Redo moves the first undone state back to the end of the kept states; SizeChanged is raised exactly when the size changes |
| Drawing.UndoThenRedoRestores | src/Paint/Drawing/Canvas.cs:176-226 | a successful Undo followed by Redo restores the indices, the size, the current buffer and the whole history |
| Regions.Paint | src/Paint/Tools/FillTool.cs:137-138 | writing one pixel changes that pixel alone |
| Regions.SeedInRegion | src/Paint/Tools/FillTool.cs:107-115 | a target-coloured seed is in its own region |
| Regions.RegionHasTarget | src/Paint/Tools/FillTool.cs:107-112 | every pixel of a region, and its seed, is on the canvas with the target colour |
| Regions.EmptyRegion | src/Paint/Tools/FillTool.cs:107-112 | a seed not of the target colour has an empty region, and filling from it changes nothing |
| Regions.FillWithOwnColor | src/Paint/Tools/FillTool.cs:71-83 | filling with the seed's own colour changes nothing, so skipping the fill in that case is faithful |
| Regions.FillChangesOnlyTarget | src/Paint/Tools/FillTool.cs:124-138 | a fill changes only target-coloured pixels, each to the fill colour |
| Regions.FloodFilledUnique | src/Paint/Tools/FillTool.cs:88-161 | the canvas, the colours and the seed determine the result of a fill |
| Regions.ExtendRegion | src/Paint/Tools/FillTool.cs:140-158 | a target-coloured neighbour of a region pixel is in the region |
| Regions.PathStart | src/Paint/Tools/FillTool.cs:140-158 | the second pixel of a walk neighbours the first and has the target colour |
| Regions.IsolatedSeed | src/Paint/Tools/FillTool.cs:140-158 | a seed with no target-coloured neighbour is its own whole region |
| Regions.DiagonalGapStopsFill | src/Paint/Tools/FillTool.cs:140-158 | target pixels that touch only at a corner lie in different regions |
| Regions.RunInRegion | src/Paint/Tools/FillTool.cs:123-133 | every pixel of a target-coloured row run is in the region once one of them is |
| Regions.CountUpdate | src/Paint/Tools/FillTool.cs:137-138 | painting a target pixel leaves one target pixel fewer (the termination measure) |
| Regions.SeedQueue | src/Paint/Tools/FillTool.cs:114-115 | the queue holding only the seed satisfies the loop invariant |
| Regions.ClosedEmptyRun | src/Paint/Tools/FillTool.cs:123-135 | a dequeued pixel no longer of the target colour contributes nothing |
| Regions.DequeueStep | src/Paint/Tools/FillTool.cs:117-121 | removing the queue head keeps the invariant of the outer loop |
| Regions.ColorAtIndex | src/Paint/Tools/FillTool.cs:124-130 | the scan's array reads are the colours of the pixels they index |
| Regions.NeighbourIndices | src/Paint/Tools/FillTool.cs:140-158 | the indices enqueued above and below are those pixels' indices |
| Regions.PaintedNeighbours | src/Paint/Tools/FillTool.cs:140-158 | target neighbours of a painted pixel are queued |
| Regions.PaintStep | src/Paint/Tools/FillTool.cs:137-158 | painting one run pixel and queuing its target neighbours above and below keeps the invariant |
| Regions.StartFill | src/Paint/Tools/FillTool.cs:114-115 | the invariant holds when the loop starts |
| Regions.TakeRun | src/Paint/Tools/FillTool.cs:119-135 | the scanned run of a dequeued pixel lies in the region |
| Regions.PaintRunPixel | src/Paint/Tools/FillTool.cs:135-138 | each pixel of the run is in the region and still of the target colour when painted |
| Regions.EnqueuedInArray | src/Paint/Tools/FillTool.cs:140-158 | every queued index is an index of the array |
| Regions.PaintPixel | src/Paint/Tools/FillTool.cs:135-158 | the run loop's invariant survives one iteration |
| Regions.EndRun | src/Paint/Tools/FillTool.cs:135-159 | finishing a run restores the outer loop's invariant |
| Regions.PathChanged | src/Paint/Tools/FillTool.cs:117-160 | a walk from the seed to an unpainted target pixel must pass a painted pixel's unqueued target neighbour, which cannot exist once the queue is empty |
| Regions.ClosedFillIsRegion | src/Paint/Tools/FillTool.cs:117-160 | with an empty queue every region pixel has been painted |
| Regions.FinishFill | src/Paint/Tools/FillTool.cs:117-160 | when the queue empties, the array is exactly the flood fill of the seed's region |
| FillTools.SeedInCanvas | src/Paint/Tools/FillTool.cs:75 | a position on the canvas truncates to a pixel on the canvas |
| FillTools.SampledIndexMissesSeed | src/Paint/Tools/FillTool.cs:71 | as written, a press at (0, 1.5) on a 4-wide canvas seeds the fill at index 4 but reads the target colour from index 6 |
| FillTools.SampledIndexOnWholeRows | src/Paint/Tools/FillTool.cs:71 | the index read at line 71 is the seed's index when the row coordinate is whole |
| FillTools.GuardAdmitsOffCanvas | src/Paint/Tools/FillTool.cs:68-71 | as written, the `||` guard lets (1, 500) through on a 4 by 4 canvas, whose read index lies past the array |
| FillTools.OnCanvasPassesGuard | src/Paint/Tools/FillTool.cs:68-69 | every on-canvas position passes the guard |
| FillTools.FillTool.constructor | src/Paint/Tools/FillTool.cs:20-24 | a new tool fills with the given colour |
| FillTools.FillTool.SetColor | src/Paint/Tools/FillTool.cs:52-55 | only the fill colour changes |
| FillTools.FillTool.Dispose | src/Paint/Tools/FillTool.cs:163-166 | the tool is disposed and keeps its colour |
| FillTools.FillTool.CanvasPointerPressed | src/Paint/Tools/FillTool.cs:36-40 | for a position on the canvas, every press acquires one history slot (UndoRing.Acquire), even when nothing is filled; the newest state is the flood fill of the previous state from the pixel under the pointer, with that pixel's colour as the target (the corrected read of line 71) |
| FillTools.FillTool.PaintCanvas | src/Paint/Tools/FillTool.cs:47-50 | for a position on the target, the given slot becomes the flood fill of the region under the position, with the seed pixel's colour as the target, and no other slot changes |
| FillTools.FillTool.FillCanvas | src/Paint/Tools/FillTool.cs:57-86 | for a position on the target, the target colour is read at the seed pixel (the corrected read of line 71, see Findings); the slot becomes the flood fill from the seed (unchanged when the seed already has the fill colour), and no other slot changes |
| FillTools.FillTool.FloodPixel | src/Paint/Tools/FillTool.cs:88-161 | given target ≠ fill colour, the loop terminates; a seed off the canvas or outside the clip leaves the array unchanged; otherwise exactly the seed's 4-connected target region takes the fill colour |
| FillTools.FillTool.ScanRun | src/Paint/Tools/FillTool.cs:123-133 | the west and east scans stop at the first non-target pixel or the canvas edge, and everything between is target-coloured |
| FillTools.FillTool.PaintRun | src/Paint/Tools/FillTool.cs:135-159 | painting a run keeps the fill invariant and lowers the count of target pixels when the run is non-empty |
| FillTools.FillTool.PaintAndEnqueue | src/Paint/Tools/FillTool.cs:137-158 | one run pixel takes the fill colour, and its target neighbours above and below are queued |
| Strokes.Contacts | Paint/Tools/PencilTool.cs:69-80 | the in-contact positions are a subsequence: none when no sample is in contact, all of them when every sample is |
| Strokes.Segment | Paint/Tools/PencilTool.cs:104-114 | a paint stamps at the offset exactly when there is no previous offset, and otherwise draws a line from the offset back to the previous one |
| Strokes.AfterConcat | Paint/Tools/PencilTool.cs:116 | the previous offset after painting two runs of offsets is the one after painting them as one run, and painting nothing keeps it |
| Strokes.Trace | Paint/Tools/PencilTool.cs:69-80 | painting n offsets issues n commands |
| Strokes.TraceAppend | Paint/Tools/PencilTool.cs:69-80 | painting one more offset appends one command |
| Strokes.TraceShape | Paint/Tools/PencilTool.cs:104-116 | a trace is a connected polyline: every command after the first is a line back to the offset before it |
| Strokes.ContactsAppend | Paint/Tools/PencilTool.cs:69-80 | one more sample adds its position when it is in contact |
| Pencil.BrushOffset | Paint/Tools/PencilTool.cs:95-97 | the offset is position − brushSize/2 truncated to whole pixels: within one pixel of it and on its side of zero |
| Pencil.OffsetsConcat | Paint/Tools/PencilTool.cs:95-97 | the offsets of two runs of positions are the offsets of each run, in order |
| Pencil.OffsetsAppend | Paint/Tools/PencilTool.cs:95-97 | one more position adds its offset at the end |
| Pencil.WholeOffsetsAreExact | Paint/Tools/PencilTool.cs:95-97 | a whole-pixel centre is not moved by the truncation |
| Pencil.PencilTool.constructor | Paint/Tools/PencilTool.cs:19-23 | a new pencil has one brush of the given size and colour, no stroke, no target and an empty log |
| Pencil.PencilTool.DrawBrush | Paint/Tools/PencilTool.cs:25-46 | the brush is reallocated only when its size changes, and takes the colour |
| Pencil.PencilTool.SetColor | Paint/Tools/PencilTool.cs:48-51 | the brush takes the colour and keeps its size and allocation |
| Pencil.PencilTool.CanvasPointerExited | Paint/Tools/PencilTool.cs:53-56 | exit clears only the previous offset |
| Pencil.PencilTool.CanvasPointerReleased | Paint/Tools/PencilTool.cs:58-62 | release clears the previous offset and the cached target |
| Pencil.PencilTool.PaintCanvas | Paint/Tools/PencilTool.cs:93-119 | one command (stamp or line, by Strokes.Segment) at the truncated offset is logged, and the offset becomes the previous one |
| Pencil.PencilTool.CanvasPointerPressed | Paint/Tools/PencilTool.cs:83-91 | a press acquires one history slot, caches it, and logs a stamp on it at the pointer's offset; the slot holds the content before the logged stamp |
| Pencil.PencilTool.CanvasPointerMoved | Paint/Tools/PencilTool.cs:64-81 | the in-contact intermediate samples and then the current sample, in order, extend the log by their trace on the cached target; out-of-contact samples paint nothing |
| Pencil.PencilTool.PaintSamples | Paint/Tools/PencilTool.cs:69-75 | the loop over the intermediate samples logs the trace of their in-contact positions |
| Pencil.PencilTool.PaintSample | Paint/Tools/PencilTool.cs:71-74 | one sample in contact extends the trace by one command; others change nothing |
| Pencil.PencilTool.Dispose | Paint/Tools/PencilTool.cs:121-127 | the brush is released and the stroke broken |
| Pencil.StampThenTrace | Paint/Tools/PencilTool.cs:83-119 | a press followed by moves draws the trace of the press position and the contacts, starting with a stamp |
| Pencil.TraceSplit | Paint/Tools/PencilTool.cs:104-116 | a trace from no previous offset is a stamp followed by the trace continuing from it |
| LegacyPencil.LegacyOffset | src/Paint/Tools/PencilTool.cs:78-79 | the older offset centres the brush on the pointer exactly |
| LegacyPencil.OffsetsAgreeUpToTruncation | src/Paint/Tools/PencilTool.cs:78-79 | the newer offset is the older one truncated: less than a pixel apart, and equal on whole pixels |
| Pixels.WholeTrunc | src/Paint/Tools/PencilTool.cs:78-79 | truncating a whole number gives it back, so the two pencils agree on whole-pixel offsets |
| LegacyPencil.LegacyPencilTool.constructor | src/Paint/Tools/PencilTool.cs:18-22 | a new pencil has one brush of the given size and colour, no stroke and an empty log |
| LegacyPencil.LegacyPencilTool.DrawBrush | src/Paint/Tools/PencilTool.cs:24-45 | the brush is reallocated only when its size changes, and takes the colour |
| LegacyPencil.LegacyPencilTool.SetColor | src/Paint/Tools/PencilTool.cs:47-50 | the brush takes the colour and keeps its size and allocation |
| LegacyPencil.LegacyPencilTool.CanvasPointerExited | src/Paint/Tools/PencilTool.cs:52-55 | exit clears the previous offset |
| LegacyPencil.LegacyPencilTool.CanvasPointerMoved | src/Paint/Tools/PencilTool.cs:57-65 | only the current sample is painted, and only while in contact |
| LegacyPencil.LegacyPencilTool.CanvasPointerPressed | src/Paint/Tools/PencilTool.cs:67-74 | a press always logs a stamp at the pointer's exact offset on the given target |
| LegacyPencil.LegacyPencilTool.PaintCanvas | src/Paint/Tools/PencilTool.cs:76-100 | one command (stamp or line) at the exact offset is logged, and the offset becomes the previous one |
| LegacyPencil.LegacyPencilTool.CanvasPointerReleased | src/Paint/Tools/PencilTool.cs:102-105 | release clears the previous offset |
| LegacyPencil.LegacyPencilTool.Dispose | src/Paint/Tools/PencilTool.cs:107-113 | the brush is released and the stroke broken |
| LegacyPencil.PressThenMove | src/Paint/Tools/PencilTool.cs:57-100 | a press and one move in contact log the trace of the two offsets: a stamp, then a line back to it |
| Selection.SelectionArea | src/Paint/Tools/SelectionTool.cs:137-144 | a rectangle exists exactly when the size is non-negative, spanning from the anchor to anchor + size |
| Selection.DraggedSize | src/Paint/Tools/SelectionTool.cs:96 | the size is pointer − anchor, signed |
| Selection.SelectionTool.constructor | src/Paint/Tools/SelectionTool.cs:22-54 | a new selection is empty at the origin and not attached |
| Selection.SelectionTool.EnsureParent | src/Paint/Tools/SelectionTool.cs:72-81 | the visual is attached on the first element sender and stays attached |
| Selection.SelectionTool.CanvasPointerPressed | src/Paint/Tools/SelectionTool.cs:102-109 | the anchor moves to the pointer and the size becomes 20 by 20 |
| Selection.SelectionTool.CanvasPointerMoved | src/Paint/Tools/SelectionTool.cs:88-100 | in contact, the size becomes pointer − anchor (possibly negative); otherwise it is unchanged; the anchor never moves |
| Selection.SelectionTool.Dispose | src/Paint/Tools/SelectionTool.cs:116-125 | the tool is disposed and the selection kept |
| Selection.SelectionTool.GetSelectionRect | src/Paint/Tools/SelectionTool.cs:137-144 | the rectangle (offset, size), or none exactly when a size component is negative |
| Selection.PressThenDrag | src/Paint/Tools/SelectionTool.cs:88-144 | press then drag selects exactly the rectangle between the two points, or nothing when dragged up or to the left |
| Selection.PressSelectsSquare | src/Paint/Tools/SelectionTool.cs:102-144 | a press alone selects the 20 by 20 square at the pointer |
| PaintCores.PasteSize | Paint/Core/PaintCore.cs:186-193 | the elementwise maximum of canvas and bitmap sizes, at least both; it equals the canvas size exactly when the bitmap fits |
| PaintCores.PasteSizeIsSmallest | Paint/Core/PaintCore.cs:191-193 | no smaller size holds both canvas and bitmap |
| PaintCores.PasteSizeIdempotent | Paint/Core/PaintCore.cs:186-193 | pasting the same bitmap again does not grow the canvas |
| PaintCores.Pasted | Paint/Core/PaintCore.cs:182-218 | the pasted content: the bitmap where it reaches, the earlier content where only that reaches, transparent elsewhere |
| PaintCores.PixelRect | Paint/Core/PaintCore.cs:224-226 | the selection rectangle in whole pixels, each component truncated |
| PaintCores.PasteGrowing | Paint/Core/PaintCore.cs:186-206 | the grow path resizes to PasteSize, then draws the old copy and the bitmap on top in a fresh slot: two acquisitions, one SizeChanged, nothing to redo, and the kept states end with the blank resized state and then the pasted state |
| PaintCores.DrawOverBlank | Paint/Core/PaintCore.cs:197-205 | a fresh slot on the cleared canvas receives the copy and then the bitmap, and is appended to the kept states (evicting the oldest when full) with nothing left to redo |
| PaintCores.PasteFitting | Paint/Core/PaintCore.cs:207-217 | a bitmap that fits is drawn onto one fresh slot, without a resize |
| PaintCores.PaintCore.constructor | Paint/Core/PaintCore.cs:29-36 | a 400 by 400 canvas, black as the colour, and a new pencil with a 1 by 1 black brush |
| PaintCores.PaintCore.SwitchTool | Paint/Core/PaintCore.cs:111-120 | the previous tool is disposed and the given one becomes current |
| PaintCores.PaintCore.SwitchToFillTool | Paint/Core/PaintCore.cs:99-103 | a new fill tool in the current colour replaces the disposed previous tool |
| PaintCores.PaintCore.SwitchToPencilTool | Paint/Core/PaintCore.cs:105-109 | a new pencil with a 1 by 1 brush in the current colour replaces the disposed previous tool |
| PaintCores.PaintCore.SwitchToSelectionTool | Paint/Core/PaintCore.cs:122-126 | a new, empty selection tool replaces the disposed previous tool |
| PaintCores.PaintCore.SetColor | Paint/Core/PaintCore.cs:246-250 | the colour is stored and forwarded, so the fill tool and pencil draw in it; the pencil keeps its brush size, stroke target, log and previous offset, and the selection tool is untouched |
| PaintCores.PaintCore.CanvasPointerPressed | Paint/Core/PaintCore.cs:53-56 | fill and pencil presses each take one history slot; the fill makes the new state the flood fill of the pixel under the pointer; the pencil caches the new slot, logs a stamp at the truncated brush offset and keeps it as the previous offset; the selection is anchored at the pointer with side 20 and the canvas is left alone |
| PaintCores.PaintCore.CanvasPointerMoved | Paint/Core/PaintCore.cs:48-51 | a move is forwarded to the current tool: the fill tool is untouched, the selection stretches from its anchor to an in-contact pointer, and the pencil extends its log by the trace of the in-contact samples on its cached target, which it keeps, ending at the last of their offsets |
| PaintCores.PaintCore.CanvasPointerExited | Paint/Core/PaintCore.cs:38-41 | only the pencil reacts, by breaking its stroke; it keeps its target, log and brush |
| PaintCores.PaintCore.CanvasPointerReleased | Paint/Core/PaintCore.cs:43-46 | only the pencil reacts, by ending its stroke and forgetting its target; its log and brush are kept |
| PaintCores.PaintCore.Paste | Paint/Core/PaintCore.cs:182-218 | the canvas grows to PasteSize and the newest state is Pasted(earlier, bitmap); when the size stays one slot is taken and it is appended to the kept states, when it grows two are taken and the kept states gain the blank resized state and then the pasted one; nothing is left to redo |
| PaintCores.PaintCore.CopyToStreamReference | Paint/Core/PaintCore.cs:220-244 | a copy exists exactly when the selection tool is current with a non-negative selection, and holds the pixels under the truncated selection |
| PaintCores.PaintCore.Resize | Paint/Core/PaintCore.cs:252-255 | delegated: a new size takes one slot holding a blank buffer, appended to the kept states with nothing left to redo, and raises SizeChanged once; the same size changes nothing |
| PaintCores.PaintCore.ClearCanvas | Paint/Core/PaintCore.cs:257-260 | delegated: one slot cleared to transparent, appended to the kept states with nothing left to redo |
| PaintCores.PaintCore.Undo | Paint/Core/PaintCore.cs:262-265 | delegated: nothing at the oldest state; otherwise the newest kept state moves to the front of the redo states and the one before it becomes current, the size following it (SizeChanged when it differs) |
| PaintCores.PaintCore.Redo | Paint/Core/PaintCore.cs:267-270 | delegated: nothing with nothing undone; otherwise the first undone state is appended to the kept states and becomes current, the size following it (SizeChanged when it differs) |
| PaintCores.PencilStroke | Paint/Core/PaintCore.cs:48-56 | a press and an in-contact drag through the controller log a stamp at the first offset and a line from the second back to it, on the current slot |
| PaintCores.PressDragLog | Paint/Tools/PencilTool.cs:77-116 | the commands of a press and one in-contact drag sample are the trace of the two positions from no previous offset: a stamp, then a line back to it |
| PaintCores.UndoOnce | Paint/Core/PaintCore.cs:262-265 | with two or more kept states, Undo through the controller makes the state kept before the newest one current and puts the newest one first for Redo |
| PaintCores.PasteThenUndo | Paint/Core/PaintCore.cs:182-218 | Undo after a paste gives back the earlier content when the bitmap fits and the blank resized canvas when it grows; the pasted content is left to redo |

The handlers that the source leaves empty are empty methods with no contract:

- `FillTool.CanvasPointerExited`, `CanvasPointerMoved` and `CanvasPointerReleased`.
- `SelectionTool.CanvasPointerExited`, `CanvasPointerReleased`, `PaintCanvas` and `SetColor`.

Because they change nothing, the tool never touches canvas pixels through them.

## Left out

- Rasterisation: pencil strokes are a log of stamp and line commands, not pixels. `DrawImage` replaces the covered pixels without alpha blending, and a freshly allocated render target is taken to be transparent. Because strokes never reach the canvas buffers, every statement about canvas content is about a canvas without pencil strokes: the flood fill of a fill press, Copy, Paste and the states Undo and Redo bring back. For example, after a pencil line across a blank canvas, the source fills one side of the line, while the model's fill covers both sides.
- The DPI scale factor (`GraphicsInformation.Dpi / 96`) is taken as 1. Single-precision floats are exact reals.
- Locks, the presenter loop, device loss, and the composition visuals other than the selection's offset, size and parent. The `_numUndone = 0` write outside the lock is treated as sequential.
- File and clipboard I/O: image decoding in `PasteAsync`, PNG encoding and the temporary file in `CopytToStreamReference`, and `NewImage`, `OpenFile` and `SaveCanvas`. The pasted bitmap is a parameter.
- `PaintCore` is written against a newer `Canvas` (`Paint/Drawing/Canvas.cs`), which is not part of this model. The `src/Paint/Drawing/Canvas.cs` model stands in for it.
- The controller's pointer events are reduced to the sender flag, the current sample and the intermediate samples.
- The controller's `Dispose` and the canvas's `Blit`, `SaveCanvas` and presenter registration are not modelled.
- FillTools.FillTool.FillCanvas: requires the position to lie on the target, and reads the target colour at the seed pixel instead of at index `(int)(X + Y * width)` (line 71, see Findings). Off-target positions take several paths in the source, none modelled: some pass the guard and read past the array, so the source throws (GuardAdmitsOffCanvas, (1, 500) on 4 by 4). Some read inside the array and FloodPixel then returns at its bounds check, lines 90-96, so nothing changes ((4, 2) on 4 by 4 reads index 12). Some fill from a truncated seed on the canvas ((-0.5, 2) reads index 7 and seeds at (0, 2)).
- FillTools.FillTool.CanvasPointerPressed: carries the same on-canvas requires and the same corrected target read as FillCanvas. The press still takes a history slot in every case the model covers, but off-canvas presses are not modelled.
- FillTools.FillTool.PaintCanvas: carries the same on-target requires and the same corrected target read as FillCanvas.
- Pencil.PencilTool.constructor: requires a non-zero brush size. With a zero size the source never allocates the brush and then clears it.
- LegacyPencil.LegacyPencilTool.constructor: requires a non-zero brush size, for the same reason.
- Pencil.PencilTool.CanvasPointerMoved: requires a press before any in-contact sample. Without one the source dereferences a null cached buffer.
- PaintCores.PaintCore.CanvasPointerPressed: requires an on-canvas position when the fill tool is current, and inherits the corrected target read, as FillCanvas does.
- Render-target identity: a render target is identified by its history slot number, while the source caches the render target object. If that slot is reallocated later (src/Paint/Drawing/Canvas.cs:53-58, on a size mismatch), the source pencil draws on a disposed target, whereas the model logs commands against the slot.
- Pencil.PencilTool.Dispose: a second Dispose throws in the source because the brush is already null; the model lets it through and only marks the tool disposed.
- LegacyPencil.LegacyPencilTool.Dispose: a second Dispose throws in the source for the same reason; the model only marks the tool disposed.
- PaintCores.PaintCore.CanvasPointerMoved: requires a press before any in-contact pencil sample, as the pencil does.
- Selection.SelectionTool.GetSelectionRect: a negative selection size returns None, where the source's Rect constructor throws (src/Paint/Tools/SelectionTool.cs:137-144); the exception is not modelled.
- PaintCores.PaintCore.CopyToStreamReference: the selection is truncated to whole pixels before copying. A selection dragged up or to the left yields no copy, where the source's Rect constructor would throw.
- The helper methods split up code that the source writes inline: `ScanRun`, `PaintRun`, `PaintAndEnqueue`, `PaintSamples`, `PaintSample`, `PasteGrowing`, `DrawOverBlank` and `PasteFitting`. They take no decisions of their own.
- Resize does not keep the canvas content: the acquired slot is replaced by a cleared buffer of the new size. That is what `src/Paint/Drawing/Canvas.cs:116-121` does, so the model follows the code.
- The newer pencil truncates its offset toward zero, as the `(int)` casts do. It does not floor.

## Findings

| source | as written | input that shows it | evidently intended | confidence | as-written member | corrected member |
|---|---|---|---|---|---|---|
| src/Paint/Tools/FillTool.cs:71 | the target colour is read at `(int)(X + Y * width)`, truncating the sum rather than each coordinate | a press at (0, 1.5) on a 4-pixel-wide canvas seeds the fill at pixel (0, 1), index 4, but reads index 6, pixel (2, 1) | read the colour of the seed pixel `(int)X + (int)Y * width` | not executed | FillTools.SampledIndexMissesSeed | FillTools.FillTool.FillCanvas |
| src/Paint/Tools/FillTool.cs:68-69 | the bounds test joins the two coordinate checks with `\|\|` and includes Right and Bottom | (1, 500) on a 4 by 4 canvas passes the test, and the index read at line 71 is 2001, past the 16-entry array | both coordinates inside the canvas, Right and Bottom excluded | not executed | FillTools.GuardAdmitsOffCanvas | FillTools.FillTool.FillCanvas |
