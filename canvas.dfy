/** The canvas: MAX_UNDO buffers used as a ring of history states (src/Paint/Drawing/Canvas.cs).
    Every edit first acquires a fresh slot holding a copy of the current state, so that Undo
    and Redo only move the head. Locking, the presenter and device handles are not modelled;
    the SizeChanged event is recorded as the list of sizes it was raised with. */
module Drawing {
  import opened Pixels
  import opened UndoRing
  import opened History

  class Canvas {
    /** `_canvasBuffers`: one render target per history slot. */
    var buffers: array<Buffer>
    /** `_canvasBufferHead`: the slot of the current state. */
    var head: int
    /** `_canvasBufferTail`: the slot of the oldest state kept. */
    var tail: int
    /** `_numUndone`: how many undone states Redo can bring back. */
    var numUndone: int
    /** `_canvasSize`. */
    var size: Size
    /** The sizes the SizeChanged event was raised with, oldest first. */
    var sizeChanged: seq<Size>

    function Indices(): Indices
      reads this
    {
      UndoRing.Indices(head, tail, numUndone)
    }

    /** The ring invariant on the slots, which holds between any two statements. */
    ghost predicate Slots()
      reads this, buffers
    {
      buffers.Length == MaxUndo && UndoRing.Valid(Indices()) &&
      forall k :: 0 <= k < MaxUndo ==> buffers[k].Valid()
    }

    /** The object invariant: the ring invariant, and the canvas size is the current buffer's. */
    ghost predicate Valid()
      reads this, buffers
    {
      Slots() && buffers[head].size == size
    }

    /** The states kept, oldest first; the last one is the current state. */
    ghost function Past(): seq<Buffer>
      reads this, buffers
      requires Slots()
    {
      PastOf(buffers[..], Indices())
    }

    /** The undone states, the one Redo brings back first. */
    ghost function Future(): seq<Buffer>
      reads this, buffers
      requires Slots()
    {
      FutureOf(buffers[..], Indices())
    }

    /** GetCurrentBuffer: the buffer at the head, the newest state kept. */
    function CurrentBuffer(): (b: Buffer)
      reads this, buffers
      requires Slots()
      ensures b == Past()[|Past()| - 1] && b.Valid()
    {
      buffers[head]
    }

    /** Canvas(device, canvasSize): every slot gets a buffer of the canvas size. */
    constructor (canvasSize: Size)
      ensures Valid() && fresh(buffers)
      ensures size == canvasSize && sizeChanged == []
      ensures Indices() == Initial
      ensures Past() == [Blank(canvasSize)] && Future() == []
    {
      buffers := new Buffer[0];
      head, tail, numUndone := 0, 0, 0;
      size := canvasSize;
      sizeChanged := [];
      new;
      CreateBuffers();
    }

    /** CreateBuffers: MAX_UNDO fresh buffers of the canvas size, and all indices at slot 0. */
    method CreateBuffers()
      modifies this
      ensures fresh(buffers) && buffers.Length == MaxUndo
      ensures forall k :: 0 <= k < MaxUndo ==> buffers[k] == Blank(size)
      ensures Indices() == Initial
      ensures size == old(size) && sizeChanged == old(sizeChanged)
      ensures Valid()
    {
      buffers := new Buffer[MaxUndo];
      for i := 0 to buffers.Length
        invariant fresh(buffers) && buffers.Length == MaxUndo
        invariant size == old(size) && sizeChanged == old(sizeChanged)
        invariant forall k :: 0 <= k < i ==> buffers[k] == Blank(size)
      {
        buffers[i] := Blank(size);
      }
      head, tail, numUndone := 0, 0, 0;
    }

    /** GetCanvasBuffer: the copy-on-write acquisition of the next history slot. The head moves
        to the next slot (evicting the oldest state when the ring is full), nothing is left to
        redo, the slot is reallocated at the canvas size when its size differs from the current
        buffer's, and it is cleared and the current buffer drawn into it. Returns the slot,
        which stands for the render target the source returns. */
    method GetCanvasBuffer() returns (slot: int)
      requires Slots()
      modifies this`head, this`tail, this`numUndone, buffers
      ensures Slots() && slot == head
      ensures Indices() == Acquire(old(Indices()))
      ensures buffers[head] == DrawImage(
        Blank(if old(buffers[Next(head)].size == buffers[head].size) then old(buffers[head].size) else size),
        old(buffers[head]))
      ensures Past() == Retained(old(Past())) + [buffers[head]] && Future() == []
      ensures old(Valid()) ==> Valid() && buffers[head] == old(CurrentBuffer())
    {
      var oldHead := head;
      var newHead := (head + 1) % buffers.Length;
      var newTail := tail;

      if newHead == tail {
        newTail := (tail + 1) % buffers.Length;
      }

      numUndone := 0;

      var oldBuffer := buffers[oldHead];
      var newBuffer := buffers[newHead];

      if newBuffer.size != oldBuffer.size {
        // the slot's render target is replaced by a new one of the canvas size
        newBuffer := Blank(size);
      }

      // the slot is cleared and the current buffer drawn into it
      newBuffer := DrawImage(Blank(newBuffer.size), oldBuffer);
      assert newHead == Next(oldHead);
      buffers[newHead] := newBuffer;

      head := newHead;
      tail := newTail;

      AcquireHistory(old(buffers[..]), old(Indices()), newBuffer);
      assert buffers[..] == old(buffers[..])[newHead := newBuffer];
      if old(Valid()) {
        DrawOntoBlankCopies(oldBuffer);
      }
      slot := head;
    }

    /** Copy(rect): a detached bitmap of the rectangle's size holding the part of the current
        buffer under the rectangle, transparent where the rectangle leaves the canvas. */
    method Copy(rect: Rect) returns (copy: Buffer)
      requires Valid()
      ensures copy.Valid() && copy.size == Size(rect.width, rect.height)
      ensures forall x, y :: 0 <= x < rect.width && 0 <= y < rect.height ==>
        At(copy, x, y) ==
          if 0 <= rect.x + x < size.width && 0 <= rect.y + y < size.height
          then At(CurrentBuffer(), rect.x + x, rect.y + y) else Transparent
    {
      // a cleared target of the rectangle's size receives the part of the current buffer under it
      copy := CopyRegion(buffers[head], rect.x, rect.y, Size(rect.width, rect.height));
    }

    /** Copy(): a detached copy of the whole current buffer. */
    method CopyAll() returns (copy: Buffer)
      requires Valid()
      ensures copy == CurrentBuffer()
    {
      copy := Copy(Rect(0, 0, size.width, size.height));
      SamePixels(copy, CurrentBuffer());
    }

    /** Resize: with the current size, nothing happens and the result is false. Otherwise the
        size changes, a history slot is acquired and its buffer replaced by a fresh one of the
        new size, SizeChanged is raised, and the result is true. */
    method Resize(newSize: Size) returns (resized: bool)
      requires Valid()
      modifies this, buffers
      ensures Valid() && buffers == old(buffers)
      ensures resized == (newSize != old(size))
      ensures !resized ==> unchanged(this) && unchanged(buffers)
      ensures resized ==> CurrentBuffer() == Blank(newSize)
      ensures resized ==>
        size == newSize && Indices() == Acquire(old(Indices())) &&
        Past() == Retained(old(Past())) + [Blank(newSize)] && Future() == [] &&
        sizeChanged == old(sizeChanged) + [newSize]
    {
      if newSize != size {
        size := newSize;

        var canvasBuffer := GetCanvasBuffer();

        // the acquired render target is disposed and a fresh one of the new size takes the slot
        ghost var acquired := buffers[..];
        buffers[head] := Blank(size);
        ReplaceHeadHistory(acquired, Indices(), Blank(size));
        assert buffers[..] == acquired[head := Blank(size)];

        sizeChanged := sizeChanged + [newSize];
        return true;
      }

      return false;
    }

    /** ClearCanvas: acquires a history slot and clears it to transparent. */
    method ClearCanvas()
      requires Valid()
      modifies this, buffers
      ensures Valid() && buffers == old(buffers)
      ensures size == old(size) && sizeChanged == old(sizeChanged)
      ensures Indices() == Acquire(old(Indices()))
      ensures Past() == Retained(old(Past())) + [Blank(size)] && Future() == []
      ensures CurrentBuffer() == Blank(size)
    {
      var buffer := GetCanvasBuffer();
      // the acquired slot is cleared to transparent
      Draw(buffer, Blank(buffers[buffer].size));
    }

    /** A drawing session on the render target of a slot: its content becomes `content`, of the
        same size. The source's tools draw on the target GetCanvasBuffer returned; here they go
        through this method. */
    method Draw(slot: int, content: Buffer)
      requires Slots() && IsSlot(slot)
      requires content.Valid() && content.size == buffers[slot].size
      modifies buffers
      ensures Slots() && buffers[slot] == content
      ensures forall k :: 0 <= k < MaxUndo && k != slot ==> buffers[k] == old(buffers[k])
      ensures old(Valid()) ==> Valid()
      ensures slot == head ==> Past() == old(Past())[..|old(Past())| - 1] + [content] && Future() == old(Future())
    {
      ReplaceHeadHistory(buffers[..], Indices(), content);
      buffers[slot] := content;
    }

    /** Undo: nothing when the head is the oldest state kept. Otherwise the head steps back, one
        more state can be redone, and the canvas takes the new current buffer's size, raising
        SizeChanged when that size differs. */
    method Undo()
      requires Valid()
      modifies this
      ensures Valid() && buffers == old(buffers)
      ensures Indices() == UndoRing.Undo(old(Indices()))
      ensures old(head == tail) ==> unchanged(this)
      ensures old(head != tail) ==>
        Past() == old(Past())[..|old(Past())| - 1] &&
        Future() == [old(CurrentBuffer())] + old(Future())
      ensures sizeChanged == old(sizeChanged) + (if size != old(size) then [size] else [])
    {
      if head != tail {
        var oldHead := head;
        head := (head - 1 + buffers.Length) % buffers.Length;
        numUndone := numUndone + 1;

        var oldBuffer := buffers[oldHead];
        var newBuffer := buffers[head];

        if newBuffer.size != oldBuffer.size {
          size := newBuffer.size;
          sizeChanged := sizeChanged + [size];
        }

        UndoHistory(buffers[..], old(Indices()));
      }
    }

    /** Redo: nothing when no state is undone. Otherwise the head steps forward to the first
        undone state, one fewer can be redone, and the canvas takes that buffer's size, raising
        SizeChanged when it differs. */
    method Redo()
      requires Valid()
      modifies this
      ensures Valid() && buffers == old(buffers)
      ensures Indices() == UndoRing.Redo(old(Indices()))
      ensures old(numUndone) == 0 ==> unchanged(this)
      ensures old(numUndone) > 0 ==>
        Past() == old(Past()) + [old(Future())[0]] &&
        Future() == old(Future())[1..]
      ensures sizeChanged == old(sizeChanged) + (if size != old(size) then [size] else [])
    {
      if numUndone > 0 {
        var oldHead := head;
        head := (head + 1) % buffers.Length;
        numUndone := numUndone - 1;

        var oldBuffer := buffers[oldHead];
        var newBuffer := buffers[head];

        if newBuffer.size != oldBuffer.size {
          size := newBuffer.size;
          sizeChanged := sizeChanged + [size];
        }

        RedoHistory(buffers[..], old(Indices()));
      }
    }
  }

  /** An Undo that succeeds followed by a Redo brings back the same current buffer, pixel for
      pixel, and the same history. */
  method UndoThenRedoRestores(c: Canvas)
    requires c.Valid() && c.head != c.tail
    modifies c
    ensures c.Valid() && c.CurrentBuffer() == old(c.CurrentBuffer())
    ensures c.Indices() == old(c.Indices()) && c.size == old(c.size)
    ensures c.Past() == old(c.Past()) && c.Future() == old(c.Future())
  {
    c.Undo();
    c.Redo();
  }
}
