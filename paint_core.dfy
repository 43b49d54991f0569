/** The controller behind the main page (Paint/Core/PaintCore.cs): it owns the canvas, the
    current tool and the drawing colour, hands pointer events to the current tool, pastes
    bitmaps, copies out the selection, and passes Undo, Redo, Resize and Clear on to the canvas.
    The canvas is the Drawing module's model; the composition visual, the presenter, the
    device and the image file are not modelled. */
module PaintCores {
  import opened Pixels
  import opened UndoRing
  import opened History
  import opened Drawing
  import opened Strokes
  import opened FillTools
  import opened Pencil
  import opened Selection
  import opened Regions

  /** The current tool, one of the three kinds the controller can switch to. */
  datatype Tool = FillT(fill: FillTool) | PencilT(pencil: PencilTool) | SelectionT(selection: SelectionTool)
  {
    /** The tool object itself. */
    function Obj(): object
    {
      match this
      case FillT(f) => f
      case PencilT(p) => p
      case SelectionT(s) => s
    }

    /** Dispose has been called on the tool. */
    predicate Disposed()
      reads Obj()
    {
      match this
      case FillT(f) => f.disposed
      case PencilT(p) => p.disposed
      case SelectionT(s) => s.disposed
    }
  }

  /** A pointer event as a tool sees it: whether its sender is a UI element, the current sample
      and the samples gathered since the previous event. */
  datatype PointerEvent = PointerEvent(senderIsElement: bool, current: PointerPoint, intermediate: seq<PointerPoint>)

  /** The initial canvas size. */
  const InitialSize: Size := Size(400, 400)

  /** The brush size the pencil is created with. */
  const PencilBrush: Vector2 := Vector2(1.0, 1.0)

  /** The canvas size after pasting a bitmap of size `b` on a canvas of size `c`: when the
      bitmap is wider or taller than the canvas, each dimension becomes the larger of the two;
      otherwise the size stays. */
  function PasteSize(c: Size, b: Size): (r: Size)
    ensures r.width >= c.width && r.height >= c.height
    ensures r.width >= b.width && r.height >= b.height
    ensures r.width == c.width || r.width == b.width
    ensures r.height == c.height || r.height == b.height
    ensures (r == c) <==> (b.width <= c.width && b.height <= c.height)
  {
    if b.width > c.width || b.height > c.height then
      Size(if b.width > c.width then b.width else c.width,
           if b.height > c.height then b.height else c.height)
    else c
  }

  /** PasteSize is the smallest size holding both the canvas and the bitmap. */
  lemma PasteSizeIsSmallest(c: Size, b: Size, s: Size)
    requires s.width >= c.width && s.height >= c.height && s.width >= b.width && s.height >= b.height
    ensures PasteSize(c, b).width <= s.width && PasteSize(c, b).height <= s.height
  {
  }

  /** Pasting twice the same bitmap does not grow the canvas a second time. */
  lemma PasteSizeIdempotent(c: Size, b: Size)
    ensures PasteSize(PasteSize(c, b), b) == PasteSize(c, b)
  {
  }

  /** The content after pasting `bitmap` on a canvas showing `current`: the bitmap where it
      reaches, the earlier content where only that reaches, and transparent pixels in the part
      of a grown canvas that neither covers. */
  function Pasted(current: Buffer, bitmap: Buffer): (r: Buffer)
    requires current.Valid() && bitmap.Valid()
    ensures r.Valid() && r.size == PasteSize(current.size, bitmap.size)
    ensures forall x, y :: 0 <= x < r.size.width && 0 <= y < r.size.height ==>
      At(r, x, y) ==
        if x < bitmap.size.width && y < bitmap.size.height then At(bitmap, x, y)
        else if x < current.size.width && y < current.size.height then At(current, x, y)
        else Transparent
  {
    var s := PasteSize(current.size, bitmap.size);
    if s != current.size then DrawImage(DrawImage(Blank(s), current), bitmap)
    else DrawImage(current, bitmap)
  }

  /** A selection rectangle in whole pixels, each coordinate truncated toward zero. */
  function PixelRect(a: Area): (r: Rect)
    requires 0.0 <= a.width && 0.0 <= a.height
    ensures r.width as real <= a.width < r.width as real + 1.0
    ensures r.height as real <= a.height < r.height as real + 1.0
    ensures r.x == Trunc(a.x) && r.y == Trunc(a.y)
  {
    Rect(Trunc(a.x), Trunc(a.y), Trunc(a.width), Trunc(a.height))
  }

  /** PasteAsync's first branch, for a bitmap wider or taller than the canvas: the current
      content is copied, the canvas is resized to PasteSize (which takes a history slot
      cleared to the new size), a second slot is acquired, and the copy and then the bitmap
      are drawn onto it. */
  method PasteGrowing(canvas: Canvas, bitmap: Buffer)
    requires canvas.Valid() && bitmap.Valid()
    requires bitmap.size.width > canvas.size.width || bitmap.size.height > canvas.size.height
    modifies canvas, canvas.buffers
    ensures canvas.Valid() && canvas.size == PasteSize(old(canvas.size), bitmap.size)
    ensures canvas.CurrentBuffer() == Pasted(old(canvas.CurrentBuffer()), bitmap)
    ensures canvas.Indices() == Acquire(Acquire(old(canvas.Indices())))
    ensures canvas.Past() ==
      Retained(Retained(old(canvas.Past())) + [Blank(canvas.size)]) + [canvas.CurrentBuffer()]
    ensures canvas.Future() == []
    ensures canvas.sizeChanged == old(canvas.sizeChanged) + [canvas.size]
  {
    var copy := canvas.CopyAll();

    var newSize := Size(
      if bitmap.size.width > canvas.size.width then bitmap.size.width else canvas.size.width,
      if bitmap.size.height > canvas.size.height then bitmap.size.height else canvas.size.height);

    var _ := canvas.Resize(newSize);
    DrawOverBlank(canvas, copy, bitmap);
  }

  /** The end of PasteGrowing, on the canvas just cleared by the resize: a slot is acquired and
      the copy and the bitmap are drawn onto it, in that order. */
  method DrawOverBlank(canvas: Canvas, copy: Buffer, bitmap: Buffer)
    requires canvas.Valid() && canvas.CurrentBuffer() == Blank(canvas.size)
    requires copy.Valid() && bitmap.Valid()
    modifies canvas, canvas.buffers
    ensures canvas.Valid() && canvas.size == old(canvas.size) && canvas.sizeChanged == old(canvas.sizeChanged)
    ensures canvas.CurrentBuffer() == DrawImage(DrawImage(Blank(canvas.size), copy), bitmap)
    ensures canvas.Indices() == Acquire(old(canvas.Indices()))
    ensures canvas.Past() == Retained(old(canvas.Past())) + [canvas.CurrentBuffer()] && canvas.Future() == []
  {
    var slot := canvas.GetCanvasBuffer();
    ghost var past := canvas.Past();
    canvas.Draw(slot, DrawImage(DrawImage(canvas.buffers[slot], copy), bitmap));
    assert past[..|past| - 1] == Retained(old(canvas.Past()));
  }

  /** PasteAsync's second branch, for a bitmap that fits: a history slot is acquired and the
      bitmap drawn onto it. */
  method PasteFitting(canvas: Canvas, bitmap: Buffer)
    requires canvas.Valid() && bitmap.Valid()
    requires bitmap.size.width <= canvas.size.width && bitmap.size.height <= canvas.size.height
    modifies canvas, canvas.buffers
    ensures canvas.Valid() && canvas.size == old(canvas.size)
    ensures canvas.CurrentBuffer() == Pasted(old(canvas.CurrentBuffer()), bitmap)
    ensures canvas.Indices() == Acquire(old(canvas.Indices()))
    ensures canvas.Past() == Retained(old(canvas.Past())) + [canvas.CurrentBuffer()] && canvas.Future() == []
  {
    var slot := canvas.GetCanvasBuffer();
    canvas.Draw(slot, DrawImage(canvas.buffers[slot], bitmap));
  }

  class PaintCore {
    /** `_canvas`. */
    const canvas: Canvas
    /** `_currentTool`. */
    var currentTool: Tool
    /** `_currentColor`. */
    var color: Color

    /** The controller's invariant: the canvas is consistent, and so is the current tool. */
    ghost predicate Valid()
      reads this, canvas, canvas.buffers, currentTool.Obj()
    {
      canvas.Valid() && ToolValid()
    }

    /** The tool half of the invariant: the current tool has not been disposed (the pencil
        still has its brush), and the fill tool and the pencil draw in the controller's colour. */
    predicate ToolValid()
      reads this, currentTool.Obj()
    {
      (currentTool.FillT? ==> !currentTool.fill.disposed && currentTool.fill.color == color) &&
      (currentTool.PencilT? ==> currentTool.pencil.HasBrush() && currentTool.pencil.brushColor == color) &&
      (currentTool.SelectionT? ==> !currentTool.selection.disposed)
    }

    /** PaintCore(compositor) with InitWin2D: a 400 by 400 canvas, black as the drawing colour
        and the pencil, with a 1 by 1 brush, as the tool. */
    constructor ()
      ensures Valid() && fresh(canvas) && fresh(canvas.buffers)
      ensures canvas.size == InitialSize && canvas.Past() == [Blank(InitialSize)] && canvas.Future() == []
      ensures color == Black && currentTool.PencilT? && fresh(currentTool.pencil)
      ensures currentTool.pencil.brushSize == PencilBrush && currentTool.pencil.brushColor == Black
      ensures currentTool.pencil.cachedBuffer == None && currentTool.pencil.log == []
    {
      canvas := new Canvas(InitialSize);
      color := Black;
      var pencil := new PencilTool(PencilBrush, Black);
      currentTool := PencilT(pencil);
    }

    /** SwitchTool: the current tool is disposed and the given one takes its place. */
    method SwitchTool(tool: Tool)
      modifies this, currentTool.Obj()
      ensures currentTool == tool && color == old(color)
      ensures old(currentTool).Disposed()
      ensures tool.Obj() != old(currentTool.Obj()) ==> unchanged(tool.Obj())
    {
      match currentTool {
        case FillT(f) => f.Dispose();
        case PencilT(p) => p.Dispose();
        case SelectionT(s) => s.Dispose();
      }
      currentTool := tool;
    }

    /** SwitchToFillTool: a new fill tool in the current colour. */
    method SwitchToFillTool()
      requires Valid()
      modifies this, currentTool.Obj()
      ensures Valid() && color == old(color) && old(currentTool).Disposed()
      ensures currentTool.FillT? && fresh(currentTool.fill)
      ensures unchanged(canvas) && unchanged(canvas.buffers)
    {
      var tool := new FillTool(color);
      SwitchTool(FillT(tool));
    }

    /** SwitchToPencilTool: a new pencil with a 1 by 1 brush in the current colour, with no
        stroke in progress. */
    method SwitchToPencilTool()
      requires Valid()
      modifies this, currentTool.Obj()
      ensures Valid() && color == old(color) && old(currentTool).Disposed()
      ensures currentTool.PencilT? && fresh(currentTool.pencil)
      ensures currentTool.pencil.brushSize == PencilBrush && currentTool.pencil.brushAllocations == 1
      ensures currentTool.pencil.previousPosition == None && currentTool.pencil.cachedBuffer == None
      ensures unchanged(canvas) && unchanged(canvas.buffers)
    {
      var tool := new PencilTool(PencilBrush, color);
      SwitchTool(PencilT(tool));
    }

    /** SwitchToSelectionTool: a new selection tool, with an empty selection at the origin. */
    method SwitchToSelectionTool()
      requires Valid()
      modifies this, currentTool.Obj()
      ensures Valid() && color == old(color) && old(currentTool).Disposed()
      ensures currentTool.SelectionT? && fresh(currentTool.selection)
      ensures currentTool.selection.offset == Vector2(0.0, 0.0) && currentTool.selection.size == Vector2(0.0, 0.0)
      ensures unchanged(canvas) && unchanged(canvas.buffers)
    {
      var tool := new SelectionTool();
      SwitchTool(SelectionT(tool));
    }

    /** SetColor: the colour is stored and handed on to the current tool, which keeps drawing in
        the controller's colour. */
    method SetColor(c: Color)
      requires Valid()
      modifies this, currentTool.Obj()
      ensures Valid() && color == c && currentTool == old(currentTool)
      ensures unchanged(canvas) && unchanged(canvas.buffers)
      ensures currentTool.PencilT? ==>
        var p := currentTool.pencil;
        p.brushSize == old(p.brushSize) && p.brushAllocations == old(p.brushAllocations) &&
        p.previousPosition == old(p.previousPosition) && p.cachedBuffer == old(p.cachedBuffer) && p.log == old(p.log)
      ensures currentTool.SelectionT? ==> unchanged(currentTool.Obj())
    {
      color := c;
      match currentTool
      case FillT(f) => f.SetColor(color);
      case PencilT(p) => p.SetColor(color);
      case SelectionT(s) => s.SetColor(color);
    }

    /** CanvasPointerPressed: handed to the current tool. The fill tool and the pencil each
        acquire one history slot and draw on it; the selection tool leaves the canvas alone. The
        fill tool samples the canvas at the pointer, so the pointer must be on the canvas. */
    method CanvasPointerPressed(e: PointerEvent)
      requires Valid()
      requires currentTool.FillT? ==> InCanvas(canvas.size, e.current.position)
      modifies canvas, canvas.buffers, currentTool.Obj()
      ensures Valid() && currentTool == old(currentTool) && color == old(color)
      ensures currentTool.SelectionT? ==> unchanged(canvas) && unchanged(canvas.buffers)
      ensures !currentTool.SelectionT? ==>
        canvas.Indices() == Acquire(old(canvas.Indices())) && canvas.size == old(canvas.size) &&
        canvas.Past() == Retained(old(canvas.Past())) + [canvas.CurrentBuffer()] && canvas.Future() == []
      ensures currentTool.FillT? ==>
        var before, seed := old(canvas.CurrentBuffer()), SeedOf(e.current.position);
        canvas.CurrentBuffer().size == before.size &&
        FloodFilled(before.pixels, canvas.CurrentBuffer().pixels, before.size.width, before.size.height,
                    ColorAt(before.pixels, before.size.width, before.size.height, seed), color, seed)
      ensures currentTool.PencilT? ==>
        var p, offset := currentTool.pencil, BrushOffset(currentTool.pencil.brushSize, e.current.position);
        canvas.CurrentBuffer() == old(canvas.CurrentBuffer()) &&
        p.cachedBuffer == Some(canvas.head) && p.previousPosition == Some(offset) &&
        p.log == old(p.log) + [DrawCommand(canvas.head, p.CurrentBrush(), Stamp(offset))] &&
        p.brushSize == old(p.brushSize) && p.brushAllocations == old(p.brushAllocations)
      ensures currentTool.SelectionT? ==>
        var s := currentTool.selection;
        s.offset == e.current.position && s.size == Vector2(DefaultSide, DefaultSide) &&
        s.attached == (old(s.attached) || e.senderIsElement)
    {
      match currentTool
      case FillT(f) => f.CanvasPointerPressed(canvas, e.current.position);
      case PencilT(p) => p.CanvasPointerPressed(canvas, e.current.position);
      case SelectionT(s) => s.CanvasPointerPressed(e.senderIsElement, e.current.position);
    }

    /** CanvasPointerMoved: handed to the current tool; no tool changes the canvas's history.
        The pencil dereferences its stroke target for samples in contact, so those need a
        press first. */
    method CanvasPointerMoved(e: PointerEvent)
      requires Valid()
      requires currentTool.PencilT? && currentTool.pencil.cachedBuffer.None? ==>
        (forall i :: 0 <= i < |e.intermediate| ==> !e.intermediate[i].inContact) && !e.current.inContact
      modifies currentTool.Obj()
      ensures Valid() && currentTool == old(currentTool) && color == old(color)
      ensures currentTool.FillT? ==> unchanged(currentTool.Obj())
      ensures currentTool.SelectionT? ==>
        currentTool.selection.offset == old(currentTool.selection.offset) &&
        currentTool.selection.size == (if e.current.inContact
          then DraggedSize(old(currentTool.selection.offset), e.current.position) else old(currentTool.selection.size))
      ensures currentTool.PencilT? ==>
        var p := currentTool.pencil;
        var offsets := Offsets(p.brushSize, Contacts(e.intermediate + [e.current]));
        p.log == old(p.log) +
          (if p.cachedBuffer.Some? then Trace(p.cachedBuffer.value, p.CurrentBrush(), old(p.previousPosition), offsets) else []) &&
        p.previousPosition == After(old(p.previousPosition), offsets) &&
        p.cachedBuffer == old(p.cachedBuffer) &&
        p.brushSize == old(p.brushSize) && p.brushAllocations == old(p.brushAllocations)
    {
      match currentTool
      case FillT(f) => f.CanvasPointerMoved();
      case PencilT(p) => p.CanvasPointerMoved(e.intermediate, e.current);
      case SelectionT(s) => s.CanvasPointerMoved(e.senderIsElement, e.current.position, e.current.inContact);
    }

    /** CanvasPointerExited: handed to the current tool; only the pencil reacts, by breaking its
        stroke. */
    method CanvasPointerExited(e: PointerEvent)
      requires Valid()
      modifies currentTool.Obj()
      ensures Valid() && currentTool == old(currentTool) && color == old(color)
      ensures currentTool.PencilT? ==>
        var p := currentTool.pencil;
        p.previousPosition == None && p.cachedBuffer == old(p.cachedBuffer) && p.log == old(p.log) &&
        p.brushSize == old(p.brushSize) && p.brushAllocations == old(p.brushAllocations)
      ensures !currentTool.PencilT? ==> unchanged(currentTool.Obj())
    {
      match currentTool
      case FillT(f) => f.CanvasPointerExited();
      case PencilT(p) => p.CanvasPointerExited();
      case SelectionT(s) => s.CanvasPointerExited();
    }

    /** CanvasPointerReleased: handed to the current tool; only the pencil reacts, by ending its
        stroke and forgetting its target. */
    method CanvasPointerReleased(e: PointerEvent)
      requires Valid()
      modifies currentTool.Obj()
      ensures Valid() && currentTool == old(currentTool) && color == old(color)
      ensures currentTool.PencilT? ==>
        var p := currentTool.pencil;
        p.previousPosition == None && p.cachedBuffer == None && p.log == old(p.log) &&
        p.brushSize == old(p.brushSize) && p.brushAllocations == old(p.brushAllocations)
      ensures !currentTool.PencilT? ==> unchanged(currentTool.Obj())
    {
      match currentTool
      case FillT(f) => f.CanvasPointerReleased();
      case PencilT(p) => p.CanvasPointerReleased();
      case SelectionT(s) => s.CanvasPointerReleased();
    }

    /** PasteAsync, once the bitmap is decoded: a bitmap that fits is drawn onto a newly acquired
        slot; a wider or taller one first grows the canvas to PasteSize (a resize, which takes a
        slot of its own), then a slot is acquired and the earlier content and the bitmap are
        drawn onto it. Either way the new current content is Pasted(earlier content, bitmap). */
    method Paste(bitmap: Buffer)
      requires Valid() && bitmap.Valid()
      modifies canvas, canvas.buffers
      ensures Valid() && currentTool == old(currentTool) && color == old(color)
      ensures canvas.size == PasteSize(old(canvas.size), bitmap.size)
      ensures canvas.CurrentBuffer() == Pasted(old(canvas.CurrentBuffer()), bitmap)
      ensures canvas.Future() == []
      ensures canvas.size == old(canvas.size) ==>
        canvas.Indices() == Acquire(old(canvas.Indices())) &&
        canvas.Past() == Retained(old(canvas.Past())) + [canvas.CurrentBuffer()]
      ensures canvas.size != old(canvas.size) ==>
        canvas.Indices() == Acquire(Acquire(old(canvas.Indices()))) &&
        canvas.Past() == Retained(Retained(old(canvas.Past())) + [Blank(canvas.size)]) + [canvas.CurrentBuffer()]
    {
      if bitmap.size.width > canvas.size.width || bitmap.size.height > canvas.size.height {
        PasteGrowing(canvas, bitmap);
      } else {
        PasteFitting(canvas, bitmap);
      }
    }

    /** CopytToStreamReference: with the selection tool current and a selection of non-negative
        size, the pixels under the selection, truncated to whole pixels; otherwise nothing (a
        negative selection makes the Rect constructor throw). The PNG encoding and the temporary
        file are not modelled. */
    method CopyToStreamReference() returns (r: Option<Buffer>)
      requires Valid()
      ensures r.Some? <==>
        (currentTool.SelectionT? && SelectionArea(currentTool.selection.offset, currentTool.selection.size).Some?)
      ensures r.Some? ==>
        var rect := PixelRect(SelectionArea(currentTool.selection.offset, currentTool.selection.size).value);
        r.value.Valid() && r.value.size == Size(rect.width, rect.height) &&
        forall x, y :: 0 <= x < rect.width && 0 <= y < rect.height ==>
          At(r.value, x, y) ==
            if 0 <= rect.x + x < canvas.size.width && 0 <= rect.y + y < canvas.size.height
            then At(canvas.CurrentBuffer(), rect.x + x, rect.y + y) else Transparent
    {
      if currentTool.SelectionT? {
        var area := currentTool.selection.GetSelectionRect();
        if area.None? {
          return None;
        }
        var copy := canvas.Copy(PixelRect(area.value));
        return Some(copy);
      }
      return None;
    }

    /** Resize: passed on to the canvas; a new size takes a history slot cleared to that size. */
    method Resize(newSize: Size)
      requires Valid()
      modifies canvas, canvas.buffers
      ensures Valid() && currentTool == old(currentTool) && color == old(color)
      ensures canvas.size == newSize
      ensures newSize != old(canvas.size) ==>
        canvas.CurrentBuffer() == Blank(newSize) && canvas.Indices() == Acquire(old(canvas.Indices())) &&
        canvas.Past() == Retained(old(canvas.Past())) + [Blank(newSize)] && canvas.Future() == [] &&
        canvas.sizeChanged == old(canvas.sizeChanged) + [newSize]
      ensures newSize == old(canvas.size) ==> unchanged(canvas) && unchanged(canvas.buffers)
    {
      var _ := canvas.Resize(newSize);
    }

    /** ClearCanvas: passed on to the canvas, which takes a history slot cleared to transparent. */
    method ClearCanvas()
      requires Valid()
      modifies canvas, canvas.buffers
      ensures Valid() && currentTool == old(currentTool) && color == old(color)
      ensures canvas.size == old(canvas.size) && canvas.CurrentBuffer() == Blank(canvas.size)
      ensures canvas.Indices() == Acquire(old(canvas.Indices()))
      ensures canvas.Past() == Retained(old(canvas.Past())) + [Blank(canvas.size)] && canvas.Future() == []
      ensures canvas.sizeChanged == old(canvas.sizeChanged)
    {
      canvas.ClearCanvas();
    }

    /** Undo: passed on to the canvas. */
    method Undo()
      requires Valid()
      modifies canvas
      ensures Valid() && currentTool == old(currentTool) && color == old(color)
      ensures canvas.Indices() == UndoRing.Undo(old(canvas.Indices()))
      ensures old(canvas.head == canvas.tail) ==> unchanged(canvas)
      ensures old(canvas.head != canvas.tail) ==>
        canvas.Past() == old(canvas.Past())[..|old(canvas.Past())| - 1] &&
        canvas.Future() == [old(canvas.CurrentBuffer())] + old(canvas.Future()) &&
        canvas.CurrentBuffer() == old(canvas.Past())[|old(canvas.Past())| - 2]
      ensures canvas.size == canvas.CurrentBuffer().size
      ensures canvas.sizeChanged == old(canvas.sizeChanged) + (if canvas.size != old(canvas.size) then [canvas.size] else [])
    {
      canvas.Undo();
    }

    /** Redo: passed on to the canvas. */
    method Redo()
      requires Valid()
      modifies canvas
      ensures Valid() && currentTool == old(currentTool) && color == old(color)
      ensures canvas.Indices() == UndoRing.Redo(old(canvas.Indices()))
      ensures old(canvas.numUndone) == 0 ==> unchanged(canvas)
      ensures old(canvas.numUndone) > 0 ==>
        canvas.Past() == old(canvas.Past()) + [old(canvas.Future())[0]] &&
        canvas.Future() == old(canvas.Future())[1..] &&
        canvas.CurrentBuffer() == old(canvas.Future())[0]
      ensures canvas.size == canvas.CurrentBuffer().size
      ensures canvas.sizeChanged == old(canvas.sizeChanged) + (if canvas.size != old(canvas.size) then [canvas.size] else [])
    {
      canvas.Redo();
    }
  }

  /** The commands of a press at `from` followed by one drag sample in contact at `to`, after
      the commands `earlier`: the trace of the two positions from no previous offset, which is
      a stamp at the first offset and a line from the second back to it. */
  lemma PressDragLog(earlier: seq<DrawCommand>, target: int, brush: Brush, size: Vector2, from: Vector2, to: Vector2)
    ensures var stamp := DrawCommand(target, brush, Stamp(BrushOffset(size, from)));
      var line := DrawCommand(target, brush, Line(BrushOffset(size, to), BrushOffset(size, from)));
      var rest := Trace(target, brush, Some(BrushOffset(size, from)), Offsets(size, Contacts([] + [PointerPoint(to, true)])));
      [stamp] + rest == Trace(target, brush, None, Offsets(size, [from, to])) &&
      earlier + [stamp] + rest == earlier + [stamp, line]
  {
    assert Contacts([] + [PointerPoint(to, true)]) == [to];
    StampThenTrace(target, brush, size, from, [to]);
    assert [from] + [to] == [from, to];
  }

  /** A pencil stroke driven through the controller: a press at `from` and a drag in contact to
      `to` log a stamp at the first brush offset and a line from it to the second, both on the
      slot the press acquired, which is the current one. */
  method PencilStroke(core: PaintCore, from: Vector2, to: Vector2)
    requires core.Valid() && core.currentTool.PencilT?
    modifies core.canvas, core.canvas.buffers, core.currentTool.Obj()
    ensures core.Valid() && core.currentTool == old(core.currentTool)
    ensures var p := core.currentTool.pencil;
      p.cachedBuffer == Some(core.canvas.head) &&
      p.log == old(p.log) +
        [DrawCommand(core.canvas.head, p.CurrentBrush(), Stamp(BrushOffset(p.brushSize, from))),
         DrawCommand(core.canvas.head, p.CurrentBrush(), Line(BrushOffset(p.brushSize, to), BrushOffset(p.brushSize, from)))]
  {
    var p := core.currentTool.pencil;
    ghost var log0 := p.log;
    core.CanvasPointerPressed(PointerEvent(true, PointerPoint(from, true), []));
    ghost var head, brush, size := core.canvas.head, p.CurrentBrush(), p.brushSize;
    ghost var stamp := DrawCommand(head, brush, Stamp(BrushOffset(size, from)));
    assert p.log == log0 + [stamp];
    core.CanvasPointerMoved(PointerEvent(true, PointerPoint(to, true), []));
    ghost var rest := Trace(head, brush, Some(BrushOffset(size, from)), Offsets(size, Contacts([] + [PointerPoint(to, true)])));
    assert p.log == log0 + [stamp] + rest;
    PressDragLog(log0, head, brush, size, from, to);
  }

  /** An acquisition keeps the state that was newest just before the new one. */
  lemma RetainedKeepsNewest<T>(past: seq<T>, b: T)
    requires |past| >= 1
    ensures var p := Retained(past) + [b]; |p| >= 2 && p[|p| - 2] == past[|past| - 1]
  {
  }

  /** Undo through the controller on a canvas with at least two kept states: the state kept
      before the newest one becomes current, and the newest one is the first that Redo brings
      back. */
  method UndoOnce(core: PaintCore)
    requires core.Valid() && |core.canvas.Past()| >= 2
    modifies core.canvas
    ensures core.Valid()
    ensures core.canvas.CurrentBuffer() == old(core.canvas.Past())[|old(core.canvas.Past())| - 2]
    ensures core.canvas.Future() == [old(core.canvas.CurrentBuffer())] + old(core.canvas.Future())
  {
    assert core.canvas.head != core.canvas.tail;
    core.Undo();
  }

  /** Paste followed by Undo: after a bitmap that fits, Undo gives back the content from before
      the paste; after one that grows the canvas, Undo shows the blank canvas of the new size,
      the state the resize kept. Either way the pasted content is the one Redo brings back. */
  method PasteThenUndo(core: PaintCore, bitmap: Buffer)
    requires core.Valid() && bitmap.Valid()
    modifies core.canvas, core.canvas.buffers
    ensures core.Valid()
    ensures bitmap.size.width > old(core.canvas.size.width) || bitmap.size.height > old(core.canvas.size.height) ==>
      core.canvas.CurrentBuffer() == Blank(PasteSize(old(core.canvas.size), bitmap.size))
    ensures bitmap.size.width <= old(core.canvas.size.width) && bitmap.size.height <= old(core.canvas.size.height) ==>
      core.canvas.CurrentBuffer() == old(core.canvas.CurrentBuffer())
    ensures core.canvas.Future() == [Pasted(old(core.canvas.CurrentBuffer()), bitmap)]
  {
    ghost var before, size0, past0 := core.canvas.CurrentBuffer(), core.canvas.size, core.canvas.Past();
    core.Paste(bitmap);
    ghost var pasted, past1, size1 := core.canvas.CurrentBuffer(), core.canvas.Past(), core.canvas.size;
    assert pasted == Pasted(before, bitmap) && size1 == PasteSize(size0, bitmap.size);
    ghost var kept := if size1 == size0 then past0 else Retained(past0) + [Blank(size1)];
    RetainedKeepsNewest(kept, pasted);
    assert past1 == Retained(kept) + [pasted];
    UndoOnce(core);
  }
}
