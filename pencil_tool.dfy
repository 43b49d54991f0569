/** The pencil tool (Paint/Tools/PencilTool.cs): a press acquires a history slot and keeps its
    render target as the stroke's target; every sample in contact then draws the brush on that
    target, a stamp for the first one and a line back to the previous offset for the others.
    The brush offset is the pointer position less half the brush size, truncated to whole
    pixels. The brush render target is reduced to its size and colour and to the number of
    times it has been allocated; the pixel scale factor (DPI / 96) is taken as 1. */
module Pencil {
  import opened Pixels
  import opened UndoRing
  import opened History
  import opened Drawing
  import opened Strokes

  /** Where PaintCanvas puts the brush for a pointer at `position`: the brush centred on the
      pointer, each coordinate truncated toward zero by the (int) casts. */
  function BrushOffset(size: Vector2, position: Vector2): (o: Vector2)
    ensures o.x == o.x.Floor as real && o.y == o.y.Floor as real
    ensures -1.0 < (position.x - size.x / 2.0) - o.x < 1.0
    ensures -1.0 < (position.y - size.y / 2.0) - o.y < 1.0
    ensures 0.0 <= position.x - size.x / 2.0 ==> o.x <= position.x - size.x / 2.0
    ensures position.x - size.x / 2.0 <= 0.0 ==> position.x - size.x / 2.0 <= o.x
    ensures 0.0 <= position.y - size.y / 2.0 ==> o.y <= position.y - size.y / 2.0
    ensures position.y - size.y / 2.0 <= 0.0 ==> position.y - size.y / 2.0 <= o.y
  {
    var centred := Vector2(size.x / -2.0 + position.x, size.y / -2.0 + position.y);
    Vector2(Trunc(centred.x) as real, Trunc(centred.y) as real)
  }

  /** The brush offsets of a sequence of pointer positions. */
  function Offsets(size: Vector2, positions: seq<Vector2>): seq<Vector2> {
    seq(|positions|, i requires 0 <= i < |positions| => BrushOffset(size, positions[i]))
  }

  /** The offsets of two runs of positions are the offsets of each run, in order. */
  lemma OffsetsConcat(size: Vector2, a: seq<Vector2>, b: seq<Vector2>)
    ensures Offsets(size, a + b) == Offsets(size, a) + Offsets(size, b)
  {
  }

  lemma OffsetsAppend(size: Vector2, positions: seq<Vector2>, p: Vector2)
    ensures Offsets(size, positions + [p]) == Offsets(size, positions) + [BrushOffset(size, p)]
  {
    OffsetsConcat(size, positions, [p]);
  }

  /** A whole-pixel brush centred on a whole-pixel position lands exactly on its corner. */
  lemma WholeOffsetsAreExact(size: Vector2, position: Vector2)
    requires position.x - size.x / 2.0 == (position.x - size.x / 2.0).Floor as real
    requires position.y - size.y / 2.0 == (position.y - size.y / 2.0).Floor as real
    ensures BrushOffset(size, position) == Vector2(position.x - size.x / 2.0, position.y - size.y / 2.0)
  {
    var cx, cy := size.x / -2.0 + position.x, size.y / -2.0 + position.y;
    assert cx == position.x - size.x / 2.0 && cy == position.y - size.y / 2.0;
    WholeTrunc(cx);
    WholeTrunc(cy);
    assert Trunc(cx) as real == cx && Trunc(cy) as real == cy;
  }

  class PencilTool {
    /** `_brushSize`. */
    var brushSize: Vector2
    /** The colour the brush render target was last cleared to. */
    var brushColor: Color
    /** How many brush render targets have been allocated. */
    var brushAllocations: nat
    /** `_previousPosition`: the offset of the last brush drawn in this stroke. */
    var previousPosition: Option<Vector2>
    /** `_cachedBuffer`: the slot acquired by the last press, until the pointer is released. */
    var cachedBuffer: Option<int>
    /** Every drawing command issued so far, oldest first. */
    var log: seq<DrawCommand>
    /** Dispose has released the brush. */
    var disposed: bool

    /** The brush exists: it was allocated and not yet disposed. */
    predicate HasBrush()
      reads this
    {
      brushAllocations > 0 && !disposed
    }

    function CurrentBrush(): Brush
      reads this
    {
      Brush(brushSize, brushColor)
    }

    /** PencilTool(device, brushSize, color): the brush size starts as the zero vector, so
        DrawBrush allocates the brush unless the requested size is zero, in which case the
        source dereferences a brush that was never allocated. */
    constructor (brushSize: Vector2, color: Color)
      requires brushSize != Vector2(0.0, 0.0)
      ensures this.brushSize == brushSize && brushColor == color && brushAllocations == 1
      ensures previousPosition == None && cachedBuffer == None && log == [] && !disposed
    {
      this.brushSize := Vector2(0.0, 0.0);
      brushColor := color;
      brushAllocations := 0;
      previousPosition := None;
      cachedBuffer := None;
      log := [];
      disposed := false;
      new;
      DrawBrush(brushSize, color);
    }

    /** DrawBrush: a new brush render target is allocated only when the size changes; the brush
        is then cleared to the colour. */
    method DrawBrush(size: Vector2, color: Color)
      requires brushAllocations > 0 || size != brushSize
      modifies this
      ensures brushSize == size && brushColor == color
      ensures brushAllocations == old(brushAllocations) + (if size != old(brushSize) then 1 else 0)
      ensures previousPosition == old(previousPosition) && cachedBuffer == old(cachedBuffer)
      ensures log == old(log) && disposed == old(disposed)
    {
      if brushSize != size {
        brushSize := size;
        brushAllocations := brushAllocations + 1;
      }
      brushColor := color;
    }

    /** SetColor: the brush keeps its size and render target and takes the new colour. */
    method SetColor(color: Color)
      requires HasBrush()
      modifies this
      ensures HasBrush() && brushSize == old(brushSize) && brushColor == color
      ensures brushAllocations == old(brushAllocations)
      ensures previousPosition == old(previousPosition) && cachedBuffer == old(cachedBuffer) && log == old(log)
    {
      DrawBrush(brushSize, color);
    }

    /** CanvasPointerExited: the stroke is broken, so the next sample draws a stamp. */
    method CanvasPointerExited()
      modifies this
      ensures previousPosition == None
      ensures brushSize == old(brushSize) && brushColor == old(brushColor) && brushAllocations == old(brushAllocations)
      ensures cachedBuffer == old(cachedBuffer) && log == old(log) && disposed == old(disposed)
    {
      previousPosition := None;
    }

    /** CanvasPointerReleased: the stroke ends and its target is forgotten. */
    method CanvasPointerReleased()
      modifies this
      ensures previousPosition == None && cachedBuffer == None
      ensures brushSize == old(brushSize) && brushColor == old(brushColor) && brushAllocations == old(brushAllocations)
      ensures log == old(log) && disposed == old(disposed)
    {
      previousPosition := None;
      cachedBuffer := None;
    }

    /** PaintCanvas: draws the brush on the target at the truncated brush offset, as a line
        back to the previous offset when the stroke has one and as a stamp otherwise; the
        offset becomes the previous one. */
    method PaintCanvas(target: int, position: Vector2)
      requires HasBrush()
      modifies this
      ensures log == old(log) + [Segment(target, CurrentBrush(), old(previousPosition), BrushOffset(brushSize, position))]
      ensures previousPosition == Some(BrushOffset(brushSize, position))
      ensures brushSize == old(brushSize) && brushColor == old(brushColor) && brushAllocations == old(brushAllocations)
      ensures cachedBuffer == old(cachedBuffer) && disposed == old(disposed)
    {
      var size := brushSize;
      var offset := Vector2(size.x / -2.0 + position.x, size.y / -2.0 + position.y);
      offset := Vector2(Trunc(offset.x) as real, Trunc(offset.y) as real);

      if previousPosition.Some? {
        log := log + [DrawCommand(target, CurrentBrush(), Line(offset, previousPosition.value))];
      } else {
        log := log + [DrawCommand(target, CurrentBrush(), Stamp(offset))];
      }

      previousPosition := Some(offset);
    }

    /** CanvasPointerPressed: acquires a history slot, makes its render target the stroke's
        target, and stamps the brush at the pointer. The stamp goes to the log only: the slot's
        content stated here is the content before the logged stamp, since strokes are not
        rasterised into the canvas's buffers. */
    method CanvasPointerPressed(canvas: Canvas, position: Vector2)
      requires HasBrush() && canvas.Slots()
      modifies this, canvas`head, canvas`tail, canvas`numUndone, canvas.buffers
      ensures canvas.Slots() && canvas.Indices() == Acquire(old(canvas.Indices()))
      ensures canvas.Past() == Retained(old(canvas.Past())) + [canvas.CurrentBuffer()] && canvas.Future() == []
      ensures old(canvas.Valid()) ==> canvas.Valid() && canvas.CurrentBuffer() == old(canvas.CurrentBuffer())
      ensures cachedBuffer == Some(canvas.head)
      ensures log == old(log) + [DrawCommand(canvas.head, CurrentBrush(), Stamp(BrushOffset(brushSize, position)))]
      ensures previousPosition == Some(BrushOffset(brushSize, position))
      ensures brushSize == old(brushSize) && brushColor == old(brushColor) && brushAllocations == old(brushAllocations)
      ensures disposed == old(disposed)
    {
      var slot := canvas.GetCanvasBuffer();
      cachedBuffer := Some(slot);

      previousPosition := None;

      PaintCanvas(slot, position);
    }

    /** CanvasPointerMoved: every intermediate sample in contact, then the current sample if it
        is in contact, is painted on the stroke's target. The source dereferences the target,
        so a sample in contact needs one (a press must have come first). */
    method CanvasPointerMoved(points: seq<PointerPoint>, current: PointerPoint)
      requires HasBrush()
      requires cachedBuffer.None? ==> (forall i :: 0 <= i < |points| ==> !points[i].inContact) && !current.inContact
      modifies this
      ensures brushSize == old(brushSize) && brushColor == old(brushColor) && brushAllocations == old(brushAllocations)
      ensures cachedBuffer == old(cachedBuffer) && disposed == old(disposed)
      ensures var offsets := Offsets(brushSize, Contacts(points + [current]));
        log == old(log) + (if cachedBuffer.Some? then Trace(cachedBuffer.value, CurrentBrush(), old(previousPosition), offsets) else []) &&
        previousPosition == After(old(previousPosition), offsets)
    {
      ghost var target := if cachedBuffer.Some? then cachedBuffer.value else 0;
      ghost var brush := CurrentBrush();
      ghost var previous := previousPosition;
      ghost var start := log;
      ghost var contacts := PaintSamples(points, target, brush, previous, start);
      ContactsAppend(points, current);
      contacts := PaintSample(current, target, brush, previous, start, contacts);
    }

    /** CanvasPointerMoved's loop over the intermediate samples. */
    method PaintSamples(points: seq<PointerPoint>, ghost target: int, ghost brush: Brush,
                        ghost previous: Option<Vector2>, ghost start: seq<DrawCommand>) returns (ghost contacts: seq<Vector2>)
      requires HasBrush() && CurrentBrush() == brush
      requires cachedBuffer != Some(target) ==> forall i :: 0 <= i < |points| ==> !points[i].inContact
      requires log == start && previousPosition == previous
      modifies this
      ensures contacts == Contacts(points)
      ensures log == start + Trace(target, brush, previous, Offsets(brushSize, contacts))
      ensures previousPosition == After(previous, Offsets(brushSize, contacts))
      ensures brushSize == old(brushSize) && brushColor == old(brushColor) && brushAllocations == old(brushAllocations)
      ensures cachedBuffer == old(cachedBuffer) && disposed == old(disposed)
    {
      contacts := [];
      for i := 0 to |points|
        invariant brushSize == old(brushSize) && brushColor == old(brushColor) && brushAllocations == old(brushAllocations)
        invariant cachedBuffer == old(cachedBuffer) && disposed == old(disposed)
        invariant contacts == Contacts(points[..i])
        invariant log == start + Trace(target, brush, previous, Offsets(brushSize, contacts))
        invariant previousPosition == After(previous, Offsets(brushSize, contacts))
      {
        assert points[..i + 1] == points[..i] + [points[i]];
        ContactsAppend(points[..i], points[i]);
        contacts := PaintSample(points[i], target, brush, previous, start, contacts);
      }
      assert points[..|points|] == points;
    }

    /** The body of CanvasPointerMoved's loop, also applied to the current sample: a sample in
        contact is painted on the stroke's target, which extends the stroke's trace by one
        command. */
    method PaintSample(point: PointerPoint, ghost target: int, ghost brush: Brush, ghost previous: Option<Vector2>,
                       ghost start: seq<DrawCommand>, ghost contacts: seq<Vector2>) returns (ghost contacts': seq<Vector2>)
      requires HasBrush() && CurrentBrush() == brush
      requires point.inContact ==> cachedBuffer == Some(target)
      requires log == start + Trace(target, brush, previous, Offsets(brushSize, contacts))
      requires previousPosition == After(previous, Offsets(brushSize, contacts))
      modifies this
      ensures contacts' == contacts + (if point.inContact then [point.position] else [])
      ensures log == start + Trace(target, brush, previous, Offsets(brushSize, contacts'))
      ensures previousPosition == After(previous, Offsets(brushSize, contacts'))
      ensures brushSize == old(brushSize) && brushColor == old(brushColor) && brushAllocations == old(brushAllocations)
      ensures cachedBuffer == old(cachedBuffer) && disposed == old(disposed)
    {
      contacts' := contacts;
      if point.inContact {
        ghost var offsets := Offsets(brushSize, contacts);
        ghost var offset := BrushOffset(brushSize, point.position);
        OffsetsAppend(brushSize, contacts, point.position);
        TraceAppend(target, brush, previous, offsets, offset);
        ghost var log0 := log;
        PaintCanvas(cachedBuffer.value, point.position);
        assert log == log0 + [Segment(target, brush, After(previous, offsets), offset)];
        contacts' := contacts + [point.position];
      }
    }

    /** Dispose: releases the brush and breaks the stroke. */
    method Dispose()
      modifies this
      ensures disposed && previousPosition == None
      ensures brushSize == old(brushSize) && brushColor == old(brushColor) && brushAllocations == old(brushAllocations)
      ensures cachedBuffer == old(cachedBuffer) && log == old(log)
    {
      disposed := true;
      previousPosition := None;
    }
  }

  /** A press followed by moves draws one connected stroke: the stamp CanvasPointerPressed
      draws, followed by the trace CanvasPointerMoved draws from the offset the press left, is
      the trace of the press position and the samples in contact starting from no previous
      offset (TraceShape then says that every command after the stamp is a line back to the
      offset before it). */
  lemma StampThenTrace(target: int, brush: Brush, size: Vector2, start: Vector2, contacts: seq<Vector2>)
    ensures [DrawCommand(target, brush, Stamp(BrushOffset(size, start)))] +
      Trace(target, brush, Some(BrushOffset(size, start)), Offsets(size, contacts)) ==
      Trace(target, brush, None, Offsets(size, [start] + contacts))
  {
    var all := Offsets(size, [start] + contacts);
    assert all[1..] == Offsets(size, contacts);
    TraceSplit(target, brush, all);
  }

  /** A trace that starts with a stamp is that stamp followed by the trace of the remaining
      offsets continuing from it. */
  lemma {:induction false} TraceSplit(target: int, brush: Brush, offsets: seq<Vector2>)
    requires |offsets| > 0
    ensures Trace(target, brush, None, offsets) ==
      [DrawCommand(target, brush, Stamp(offsets[0]))] + Trace(target, brush, Some(offsets[0]), offsets[1..])
    decreases |offsets|
  {
    if |offsets| > 1 {
      var init := offsets[..|offsets| - 1];
      TraceSplit(target, brush, init);
      assert init[1..] == offsets[1..][..|offsets[1..]| - 1];
      assert After(None, init) == After(Some(offsets[0]), init[1..]);
    }
  }
}
