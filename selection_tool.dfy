/** The selection tool (src/Paint/Tools/SelectionTool.cs): a press anchors a rectangle at the
    pointer with a default size of 20 by 20, dragging sets its size to the pointer's distance
    from the anchor, and GetSelectionRect reports it. The composition visuals that show the
    rectangle on screen are reduced to their offset and size, and to whether the root visual has
    been attached to the element that raised the pointer events. */
module Selection {
  import opened Pixels

  /** A Windows.Foundation.Rect: position and extent in device-independent pixels. */
  datatype Area = Area(x: real, y: real, width: real, height: real)

  /** The rectangle a root visual of the given offset and size stands for. Building a Rect from
      a negative width or height throws, so a selection dragged up or to the left of its anchor
      has no rectangle. */
  function SelectionArea(offset: Vector2, size: Vector2): (r: Option<Area>)
    ensures r.Some? <==> 0.0 <= size.x && 0.0 <= size.y
    ensures r.Some? ==>
      r.value.x == offset.x && r.value.y == offset.y &&
      r.value.x + r.value.width == offset.x + size.x && r.value.y + r.value.height == offset.y + size.y
  {
    if size.x < 0.0 || size.y < 0.0 then None else Some(Area(offset.x, offset.y, size.x, size.y))
  }

  /** The size of the rectangle when a press anchored it at `offset` and the pointer has been
      dragged to `position`. */
  function DraggedSize(offset: Vector2, position: Vector2): (s: Vector2)
    ensures offset.x + s.x == position.x && offset.y + s.y == position.y
  {
    Vector2(position.x - offset.x, position.y - offset.y)
  }

  /** The side of the rectangle a press starts with. */
  const DefaultSide: real := 20.0

  class SelectionTool {
    /** `_rootVisual.Offset`, the anchor of the selection. */
    var offset: Vector2
    /** `_rootVisual.Size`, the extent of the selection from its anchor. */
    var size: Vector2
    /** The root visual has been inserted into the visual tree of an element. */
    var attached: bool
    var disposed: bool

    /** A new tool: its root visual sits at the origin with no size and no parent. */
    constructor ()
      ensures offset == Vector2(0.0, 0.0) && size == Vector2(0.0, 0.0)
      ensures !attached && !disposed
    {
      offset := Vector2(0.0, 0.0);
      size := Vector2(0.0, 0.0);
      attached := false;
      disposed := false;
    }

    /** EnsureParent: the root visual is attached to the first element that raises a pointer
        event, and stays there. */
    method EnsureParent(senderIsElement: bool)
      modifies this
      ensures attached == (old(attached) || senderIsElement)
      ensures offset == old(offset) && size == old(size) && disposed == old(disposed)
    {
      if senderIsElement && !attached {
        attached := true;
      }
    }

    /** CanvasPointerPressed: the selection is anchored at the pointer with side 20. */
    method CanvasPointerPressed(senderIsElement: bool, position: Vector2)
      modifies this
      ensures offset == position && size == Vector2(DefaultSide, DefaultSide)
      ensures attached == (old(attached) || senderIsElement) && disposed == old(disposed)
    {
      EnsureParent(senderIsElement);
      offset := position;
      size := Vector2(DefaultSide, DefaultSide);
    }

    /** CanvasPointerMoved: while the pointer is in contact the selection stretches from its
        anchor to the pointer; otherwise it stays as it is. The size is not normalised, so it
        is negative when the pointer is above or to the left of the anchor. */
    method CanvasPointerMoved(senderIsElement: bool, position: Vector2, inContact: bool)
      modifies this
      ensures offset == old(offset) && disposed == old(disposed)
      ensures size == if inContact then DraggedSize(old(offset), position) else old(size)
      ensures attached == (old(attached) || senderIsElement)
    {
      EnsureParent(senderIsElement);
      if inContact {
        var newSize := Vector2(position.x - offset.x, position.y - offset.y);
        size := newSize;
      }
    }

    /** CanvasPointerExited, CanvasPointerReleased, PaintCanvas and SetColor do nothing. */
    method CanvasPointerExited() { }
    method CanvasPointerReleased() { }
    method PaintCanvas() { }
    method SetColor(color: Color) { }

    /** Dispose: releases the visuals and the drawing surface. */
    method Dispose()
      modifies this
      ensures disposed && offset == old(offset) && size == old(size) && attached == old(attached)
    {
      disposed := true;
    }

    /** GetSelectionRect: the rectangle from the anchor with the current size, or nothing when
        the size is negative and the Rect constructor would throw. */
    method GetSelectionRect() returns (r: Option<Area>)
      ensures r == SelectionArea(offset, size)
      ensures r.Some? ==> r.value.x == offset.x && r.value.y == offset.y
      ensures r.None? <==> size.x < 0.0 || size.y < 0.0
    {
      if size.x < 0.0 || size.y < 0.0 {
        return None;
      }
      return Some(Area(offset.x, offset.y, size.x, size.y));
    }
  }

  /** A press followed by a drag to a point below and to the right of it selects exactly the
      rectangle between the two points; a drag above or to the left of it selects nothing. */
  method PressThenDrag(tool: SelectionTool, from: Vector2, to: Vector2) returns (r: Option<Area>)
    modifies tool
    ensures r.Some? <==> from.x <= to.x && from.y <= to.y
    ensures r.Some? ==>
      r.value.x == from.x && r.value.y == from.y &&
      r.value.x + r.value.width == to.x && r.value.y + r.value.height == to.y
  {
    tool.CanvasPointerPressed(true, from);
    tool.CanvasPointerMoved(true, to, true);
    r := tool.GetSelectionRect();
  }

  /** A press alone selects the 20 by 20 square below and to the right of the pointer. */
  method PressSelectsSquare(tool: SelectionTool, at: Vector2) returns (r: Option<Area>)
    modifies tool
    ensures r == Some(Area(at.x, at.y, DefaultSide, DefaultSide))
  {
    tool.CanvasPointerPressed(true, at);
    r := tool.GetSelectionRect();
  }
}
