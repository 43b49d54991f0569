/** The earlier pencil tool (src/Paint/Tools/PencilTool.cs). Its handlers are handed the render
    target to draw on instead of taking a history slot, a move paints only the current sample,
    and the brush offset is the pointer position less half the brush size, not truncated. Render
    targets are identified by number, as in the Strokes module; the brush render target is
    reduced to its size, colour and allocation count as in the Pencil module. */
module LegacyPencil {
  import opened Pixels
  import opened Strokes
  import Pencil

  /** Where PaintCanvas puts the brush for a pointer at `position`: the brush centred on the
      pointer, with no rounding. */
  function LegacyOffset(size: Vector2, position: Vector2): (o: Vector2)
    ensures o.x + size.x / 2.0 == position.x && o.y + size.y / 2.0 == position.y
  {
    Vector2(size.x / -2.0 + position.x, size.y / -2.0 + position.y)
  }

  /** The two pencils put the brush at the same place up to the truncation of the later one:
      its offset is the earlier offset truncated toward zero, less than a pixel away from it,
      and equal to it when the earlier offset is a whole pixel. */
  lemma OffsetsAgreeUpToTruncation(size: Vector2, position: Vector2)
    ensures Pencil.BrushOffset(size, position) ==
      Vector2(Trunc(LegacyOffset(size, position).x) as real, Trunc(LegacyOffset(size, position).y) as real)
    ensures -1.0 < LegacyOffset(size, position).x - Pencil.BrushOffset(size, position).x < 1.0
    ensures -1.0 < LegacyOffset(size, position).y - Pencil.BrushOffset(size, position).y < 1.0
    ensures LegacyOffset(size, position).x == LegacyOffset(size, position).x.Floor as real &&
            LegacyOffset(size, position).y == LegacyOffset(size, position).y.Floor as real ==>
      Pencil.BrushOffset(size, position) == LegacyOffset(size, position)
  {
    var o := LegacyOffset(size, position);
    assert o.x == size.x / -2.0 + position.x && o.y == size.y / -2.0 + position.y;
    WholeTrunc(o.x);
    WholeTrunc(o.y);
  }

  class LegacyPencilTool {
    /** `_brushSize`. */
    var brushSize: Vector2
    /** The colour the brush render target was last cleared to. */
    var brushColor: Color
    /** How many brush render targets have been allocated. */
    var brushAllocations: nat
    /** `_previousPosition`: the offset of the last brush drawn in this stroke. */
    var previousPosition: Option<Vector2>
    /** Every drawing command issued so far, oldest first. */
    var log: seq<DrawCommand>
    /** Dispose has released the brush. */
    var disposed: bool

    /** The brush exists: it was allocated and not yet disposed. */
    predicate HasBrush()
      reads this
    {
      brushAllocations > 0 && !disposed
    }

    function CurrentBrush(): Brush
      reads this
    {
      Brush(brushSize, brushColor)
    }

    /** PencilTool(device, brushSize, color): the brush size starts as the zero vector, so
        DrawBrush allocates the brush unless the requested size is zero, in which case the
        source clears a brush that was never allocated. */
    constructor (brushSize: Vector2, color: Color)
      requires brushSize != Vector2(0.0, 0.0)
      ensures this.brushSize == brushSize && brushColor == color && brushAllocations == 1
      ensures previousPosition == None && log == [] && !disposed
    {
      this.brushSize := Vector2(0.0, 0.0);
      brushColor := color;
      brushAllocations := 0;
      previousPosition := None;
      log := [];
      disposed := false;
      new;
      DrawBrush(brushSize, color);
    }

    /** DrawBrush: a new brush render target is allocated only when the size changes; the brush
        is then cleared to the colour. */
    method DrawBrush(size: Vector2, color: Color)
      requires brushAllocations > 0 || size != brushSize
      modifies this
      ensures brushSize == size && brushColor == color
      ensures brushAllocations == old(brushAllocations) + (if size != old(brushSize) then 1 else 0)
      ensures previousPosition == old(previousPosition) && log == old(log) && disposed == old(disposed)
    {
      if brushSize != size {
        brushSize := size;
        brushAllocations := brushAllocations + 1;
      }
      brushColor := color;
    }

    /** SetColor: the brush keeps its size and render target and takes the new colour. */
    method SetColor(color: Color)
      requires HasBrush()
      modifies this
      ensures HasBrush() && brushSize == old(brushSize) && brushColor == color
      ensures brushAllocations == old(brushAllocations)
      ensures previousPosition == old(previousPosition) && log == old(log)
    {
      DrawBrush(brushSize, color);
    }

    /** CanvasPointerExited: the stroke is broken, so the next sample draws a stamp. */
    method CanvasPointerExited(target: int)
      modifies this
      ensures previousPosition == None
      ensures brushSize == old(brushSize) && brushColor == old(brushColor) && brushAllocations == old(brushAllocations)
      ensures log == old(log) && disposed == old(disposed)
    {
      previousPosition := None;
    }

    /** CanvasPointerMoved: the current sample is painted on the target when the pointer is in
        contact; intermediate samples are not looked at. */
    method CanvasPointerMoved(target: int, current: PointerPoint)
      requires HasBrush()
      modifies this
      ensures log == old(log) + (if current.inContact
        then [Segment(target, CurrentBrush(), old(previousPosition), LegacyOffset(brushSize, current.position))]
        else [])
      ensures previousPosition == if current.inContact
        then Some(LegacyOffset(brushSize, current.position)) else old(previousPosition)
      ensures brushSize == old(brushSize) && brushColor == old(brushColor) && brushAllocations == old(brushAllocations)
      ensures disposed == old(disposed)
    {
      if current.inContact {
        PaintCanvas(target, current.position);
      }
    }

    /** CanvasPointerPressed: a new stroke starts with a stamp of the brush at the pointer. */
    method CanvasPointerPressed(target: int, position: Vector2)
      requires HasBrush()
      modifies this
      ensures log == old(log) + [DrawCommand(target, CurrentBrush(), Stamp(LegacyOffset(brushSize, position)))]
      ensures previousPosition == Some(LegacyOffset(brushSize, position))
      ensures brushSize == old(brushSize) && brushColor == old(brushColor) && brushAllocations == old(brushAllocations)
      ensures disposed == old(disposed)
    {
      previousPosition := None;
      PaintCanvas(target, position);
    }

    /** PaintCanvas: draws the brush on the target, centred on the position, as a line back to
        the previous offset when the stroke has one and as a stamp otherwise; the offset becomes
        the previous one. */
    method PaintCanvas(target: int, position: Vector2)
      requires HasBrush()
      modifies this
      ensures log == old(log) + [Segment(target, CurrentBrush(), old(previousPosition), LegacyOffset(brushSize, position))]
      ensures previousPosition == Some(LegacyOffset(brushSize, position))
      ensures brushSize == old(brushSize) && brushColor == old(brushColor) && brushAllocations == old(brushAllocations)
      ensures disposed == old(disposed)
    {
      var size := brushSize;
      var offset := Vector2(size.x / -2.0 + position.x, size.y / -2.0 + position.y);

      if previousPosition.Some? {
        log := log + [DrawCommand(target, CurrentBrush(), Line(offset, previousPosition.value))];
      } else {
        log := log + [DrawCommand(target, CurrentBrush(), Stamp(offset))];
      }

      previousPosition := Some(offset);
    }

    /** CanvasPointerReleased: the stroke ends. */
    method CanvasPointerReleased(target: int)
      modifies this
      ensures previousPosition == None
      ensures brushSize == old(brushSize) && brushColor == old(brushColor) && brushAllocations == old(brushAllocations)
      ensures log == old(log) && disposed == old(disposed)
    {
      previousPosition := None;
    }

    /** Dispose: releases the brush and breaks the stroke. */
    method Dispose()
      modifies this
      ensures disposed && previousPosition == None
      ensures brushSize == old(brushSize) && brushColor == old(brushColor) && brushAllocations == old(brushAllocations)
      ensures log == old(log)
    {
      disposed := true;
      previousPosition := None;
    }
  }

  /** A press and one move in contact draw a stamp at the press and a line from the move back
      to it: the trace of the two offsets. */
  method PressThenMove(tool: LegacyPencilTool, target: int, from: Vector2, to: Vector2)
    requires tool.HasBrush()
    modifies tool
    ensures tool.log == old(tool.log) +
      Trace(target, tool.CurrentBrush(), None, [LegacyOffset(tool.brushSize, from), LegacyOffset(tool.brushSize, to)])
    ensures tool.previousPosition == Some(LegacyOffset(tool.brushSize, to))
  {
    tool.CanvasPointerPressed(target, from);
    tool.CanvasPointerMoved(target, PointerPoint(to, true));
    var offsets := [LegacyOffset(tool.brushSize, from), LegacyOffset(tool.brushSize, to)];
    assert offsets[..1] == [offsets[0]];
  }
}
