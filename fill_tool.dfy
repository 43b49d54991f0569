/** The fill tool (src/Paint/Tools/FillTool.cs): a press acquires a history slot and flood-fills
    the 4-connected region under the pointer with the tool's colour, using a queue-based
    scanline fill over the slot's pixel array. The pixel scale factor (DPI / 96) is taken as 1,
    and the lock around the fill is not modelled. */
module FillTools {
  import opened Pixels
  import opened Regions
  import opened UndoRing
  import opened History
  import opened Drawing

  /** The clip test of FloodPixel: Right and Bottom are inclusive. */
  predicate InClip(clip: Rect, x: int, y: int) {
    x >= clip.x && x <= clip.x + clip.width && y >= clip.y && y <= clip.y + clip.height
  }

  /** A pointer position on a canvas of the given size. */
  predicate InCanvas(s: Size, position: Vector2) {
    0.0 <= position.x < s.width as real && 0.0 <= position.y < s.height as real
  }

  /** The pixel FloodPixel starts from: both coordinates truncated. */
  function SeedOf(position: Vector2): Point {
    Point(Trunc(position.x), Trunc(position.y))
  }

  /** A position on the canvas has its seed pixel on the canvas. */
  lemma SeedInCanvas(s: Size, position: Vector2)
    requires InCanvas(s, position)
    ensures InGrid(s.width, s.height, SeedOf(position))
  {
  }

  /** The index FillCanvas reads the target colour from, as written: the position is folded into
      one number before it is truncated. */
  function SampledIndex(position: Vector2, width: nat): int {
    Trunc(position.x + position.y * width as real)
  }

  /** On a 4-pixel-wide canvas a press at (0, 1.5) seeds the fill at pixel (0, 1), index 4, but
      reads the target colour from index 6, pixel (2, 1). */
  lemma SampledIndexMissesSeed()
    ensures SeedOf(Vector2(0.0, 1.5)) == Point(0, 1)
    ensures Index(4, 0, 1) == 4 && SampledIndex(Vector2(0.0, 1.5), 4) == 6
  {
    assert Trunc(1.5) == 1;
    assert Trunc(6.0) == 6;
  }

  /** The two indices agree when the pointer's row coordinate is a whole number. */
  lemma SampledIndexOnWholeRows(position: Vector2, width: nat)
    requires 0.0 <= position.x && 0.0 <= position.y && position.y == Trunc(position.y) as real
    ensures SampledIndex(position, width) == Index(width, Trunc(position.x), Trunc(position.y))
  {
    var x, y := Trunc(position.x), Trunc(position.y);
    assert position.y * width as real == (y * width) as real;
    assert position.x + position.y * width as real == position.x + (y * width) as real;
  }

  /** The test FillCanvas guards the fill with, as written: one of the two coordinates within
      the rectangle, edges included. */
  predicate FillGuard(rect: Rect, position: Vector2) {
    (position.x >= rect.x as real && position.x <= (rect.x + rect.width) as real) ||
    (position.y >= rect.y as real && position.y <= (rect.y + rect.height) as real)
  }

  /** On a 4 by 4 canvas the guard lets a press at (1, 500) through, although the pixel under it
      does not exist and the index the target colour is read from lies past the pixel array. */
  lemma GuardAdmitsOffCanvas()
    ensures FillGuard(Rect(0, 0, 4, 4), Vector2(1.0, 500.0))
    ensures !InCanvas(Size(4, 4), Vector2(1.0, 500.0))
    ensures SampledIndex(Vector2(1.0, 500.0), 4) >= 4 * 4
  {
    assert Trunc(2001.0) == 2001;
  }

  /** A position on the canvas passes the guard, so with the position on the target the guarded
      branch is always the one taken. */
  lemma OnCanvasPassesGuard(s: Size, position: Vector2)
    requires InCanvas(s, position)
    ensures FillGuard(Rect(0, 0, s.width, s.height), position)
  {
  }

  class FillTool {
    /** `_color`: the fill colour. */
    var color: Color
    /** Dispose has released the device. */
    var disposed: bool

    constructor (color: Color)
      ensures this.color == color && !disposed
    {
      this.color := color;
      disposed := false;
    }

    /** SetColor: later fills use the new colour. */
    method SetColor(color: Color)
      modifies this
      ensures this.color == color && disposed == old(disposed)
    {
      this.color := color;
    }

    /** Dispose: drops the device. */
    method Dispose()
      modifies this
      ensures disposed && color == old(color)
    {
      disposed := true;
    }

    /** CanvasPointerExited, CanvasPointerMoved and CanvasPointerReleased do nothing. */
    method CanvasPointerExited() { }
    method CanvasPointerMoved() { }
    method CanvasPointerReleased() { }

    /** CanvasPointerPressed: acquires a new history slot and fills at the pointer position, so
        that the fill can be undone as one step. */
    method CanvasPointerPressed(canvas: Canvas, position: Vector2)
      requires canvas.Valid() && InCanvas(canvas.size, position)
      modifies canvas`head, canvas`tail, canvas`numUndone, canvas.buffers
      ensures canvas.Valid()
      ensures canvas.Indices() == Acquire(old(canvas.Indices()))
      ensures var before := old(canvas.CurrentBuffer());
        canvas.CurrentBuffer().size == before.size &&
        FloodFilled(before.pixels, canvas.CurrentBuffer().pixels, before.size.width, before.size.height,
                    ColorAt(before.pixels, before.size.width, before.size.height, SeedOf(position)), color, SeedOf(position))
      ensures canvas.Past() == Retained(old(canvas.Past())) + [canvas.CurrentBuffer()] && canvas.Future() == []
    {
      var slot := canvas.GetCanvasBuffer();
      ghost var acquired := canvas.buffers[..];
      ghost var past := canvas.Past();
      FillCanvas(canvas, slot, position);
      ReplaceHeadHistory(acquired, canvas.Indices(), canvas.buffers[slot]);
      assert canvas.buffers[..] == acquired[slot := canvas.buffers[slot]];
      assert past[..|past| - 1] == Retained(old(canvas.Past()));
    }

    /** PaintCanvas: fills the given render target at a position. */
    method PaintCanvas(canvas: Canvas, slot: int, position: Vector2)
      requires canvas.Slots() && IsSlot(slot) && InCanvas(canvas.buffers[slot].size, position)
      modifies canvas.buffers
      ensures canvas.Slots()
      ensures forall k :: 0 <= k < MaxUndo && k != slot ==> canvas.buffers[k] == old(canvas.buffers[k])
      ensures var before := old(canvas.buffers[slot]);
        canvas.buffers[slot].size == before.size &&
        FloodFilled(before.pixels, canvas.buffers[slot].pixels, before.size.width, before.size.height,
                    ColorAt(before.pixels, before.size.width, before.size.height, SeedOf(position)), color, SeedOf(position))
    {
      FillCanvas(canvas, slot, position);
    }

    /** FillCanvas: reads the render target's pixels, flood-fills the region of the pixel under
        the position with the tool's colour, and draws the result back over the whole target.
        The target colour is the colour of that pixel; when it already is the tool's colour
        nothing is drawn. The position must lie on the target: the test guarding the fill only
        asks for one of the two coordinates to be in range (GuardAdmitsOffCanvas). */
    method FillCanvas(canvas: Canvas, slot: int, position: Vector2)
      requires canvas.Slots() && IsSlot(slot) && InCanvas(canvas.buffers[slot].size, position)
      modifies canvas.buffers
      ensures canvas.Slots()
      ensures forall k :: 0 <= k < MaxUndo && k != slot ==> canvas.buffers[k] == old(canvas.buffers[k])
      ensures var before := old(canvas.buffers[slot]);
        canvas.buffers[slot].size == before.size &&
        FloodFilled(before.pixels, canvas.buffers[slot].pixels, before.size.width, before.size.height,
                    ColorAt(before.pixels, before.size.width, before.size.height, SeedOf(position)), color, SeedOf(position))
      ensures old(canvas.Valid()) ==> canvas.Valid()
    {
      var target := canvas.buffers[slot];
      var canvasSize := target.size;
      var width, height := canvasSize.width, canvasSize.height;
      var pixels := target.pixels;
      var colors := new Color[|pixels|](i requires 0 <= i < |pixels| => pixels[i]);
      assert colors[..] == pixels;
      var rect := Rect(0, 0, width, height);

      if FillGuard(rect, position) {
        var seed := SeedOf(position);
        IndexInRange(width, height, seed.x, seed.y);
        var targetColor := colors[Index(width, seed.x, seed.y)];

        if targetColor != color {
          FloodPixel(seed.x, seed.y, colors, targetColor, canvasSize, rect);
          var bitmap := Buffer(canvasSize, colors[..]);
          DrawCoveringReplaces(target, bitmap);
          canvas.Draw(slot, DrawImage(target, bitmap));
        } else {
          FillWithOwnColor(pixels, width, height, seed);
        }
      }
    }

    /** FloodPixel: the scanline fill of the region of (x, y) in `colors`, a row-major array of a
        canvas of the given size. Nothing happens when (x, y) is off the canvas, outside the
        clip rectangle, or not of the target colour; otherwise exactly the pixels 4-connected
        to (x, y) through the target colour take the tool's colour. The caller makes sure the
        target colour differs from the tool's colour: with equal colours the loop would queue
        the same pixels forever. */
    method FloodPixel(x: int, y: int, colors: array<Color>, targetColor: Color, canvasSize: Size, clipRect: Rect)
      requires colors.Length == canvasSize.width * canvasSize.height
      requires targetColor != color
      modifies colors
      ensures InGrid(canvasSize.width, canvasSize.height, Point(x, y)) && InClip(clipRect, x, y) ==>
        FloodFilled(old(colors[..]), colors[..], canvasSize.width, canvasSize.height, targetColor, color, Point(x, y))
      ensures !(InGrid(canvasSize.width, canvasSize.height, Point(x, y)) && InClip(clipRect, x, y)) ==>
        colors[..] == old(colors[..])
    {
      var width, height := canvasSize.width, canvasSize.height;
      if !(x >= 0 && x < width && y >= 0 && y < height) {
        return;
      }
      if !(x >= clipRect.x && x <= clipRect.x + clipRect.width && y >= clipRect.y && y <= clipRect.y + clipRect.height) {
        return;
      }

      IndexInRange(width, height, x, y);
      var index := x + y * width;
      ghost var seed := Point(x, y);
      ghost var orig := colors[..];

      if colors[index] != targetColor {
        EmptyRegion(orig, width, height, targetColor, color, seed);
        return;
      }

      StartFill(orig, width, height, targetColor, color, seed);
      var queue := [index];
      while |queue| > 0
        invariant Filling(colors[..], orig, queue, width, height, targetColor, color, seed)
        decreases CountOf(colors[..], targetColor), |queue|
      {
        ghost var queue0 := queue;
        var currentIndex := queue[0];
        queue := queue[1..];
        var currentX := currentIndex % width;
        var currentY := currentIndex / width;
        IndexEncode(width, height, currentIndex);

        var w, e := ScanRun(colors, currentX, currentY, targetColor, canvasSize);

        TakeRun(orig, colors[..], queue0, width, height, targetColor, color, seed, currentY, currentX, w, e);
        queue := PaintRun(colors, queue, currentY, w, e, targetColor, canvasSize, orig, seed);
      }
      FinishFill(orig, colors[..], width, height, targetColor, color, seed);
    }

    /** The scan of FloodPixel around pixel (x, y): w is the first column west of x, and e the
        first column from x eastwards, that is off the canvas or not of the target colour. */
    method ScanRun(colors: array<Color>, x: int, y: int, targetColor: Color, canvasSize: Size) returns (w: int, e: int)
      requires colors.Length == canvasSize.width * canvasSize.height
      requires InGrid(canvasSize.width, canvasSize.height, Point(x, y))
      ensures -1 <= w <= x <= e <= canvasSize.width
      ensures forall v :: w < v <= x ==> ColorAt(colors[..], canvasSize.width, canvasSize.height, Point(v, y)) == targetColor
      ensures forall v :: x <= v < e ==> ColorAt(colors[..], canvasSize.width, canvasSize.height, Point(v, y)) == targetColor
      ensures w == -1 || ColorAt(colors[..], canvasSize.width, canvasSize.height, Point(w, y)) != targetColor
      ensures e == canvasSize.width || ColorAt(colors[..], canvasSize.width, canvasSize.height, Point(e, y)) != targetColor
    {
      var width, height := canvasSize.width, canvasSize.height;
      RowInRange(width, height, y);
      w := x;
      while w >= 0 && colors[w + y * width] == targetColor
        invariant -1 <= w <= x
        invariant forall v :: w < v <= x ==> ColorAt(colors[..], width, height, Point(v, y)) == targetColor
      {
        ColorAtIndex(colors[..], width, height, w, y);
        w := w - 1;
      }
      if w >= 0 {
        ColorAtIndex(colors[..], width, height, w, y);
      }

      e := x;
      while e < width && colors[e + y * width] == targetColor
        invariant x <= e <= width
        invariant forall v :: x <= v < e ==> ColorAt(colors[..], width, height, Point(v, y)) == targetColor
      {
        ColorAtIndex(colors[..], width, height, e, y);
        e := e + 1;
      }
      if e < width {
        ColorAtIndex(colors[..], width, height, e, y);
      }
    }

    /** The run loop of FloodPixel: columns w + 1 to e - 1 of row y take the tool's colour, each
        queueing its target-coloured neighbours above and below. It keeps the fill invariant,
        with one target pixel fewer per painted pixel. */
    method PaintRun(colors: array<Color>, queue: seq<int>, y: int, w: int, e: int, targetColor: Color,
                    canvasSize: Size, ghost orig: seq<Color>, ghost seed: Point) returns (queue': seq<int>)
      requires colors.Length == canvasSize.width * canvasSize.height && color != targetColor
      requires Painting(colors[..], orig, queue, canvasSize.width, canvasSize.height, targetColor, color, seed, y, w, w + 1, e)
      modifies colors
      ensures Filling(colors[..], orig, queue', canvasSize.width, canvasSize.height, targetColor, color, seed)
      ensures if w + 1 < e then CountOf(colors[..], targetColor) < CountOf(old(colors[..]), targetColor)
              else colors[..] == old(colors[..]) && queue' == queue
    {
      var width, height := canvasSize.width, canvasSize.height;
      queue' := queue;
      var tempX := w + 1;
      while tempX < e
        invariant Painting(colors[..], orig, queue', width, height, targetColor, color, seed, y, w, tempX, e)
        invariant CountOf(colors[..], targetColor) == CountOf(old(colors[..]), targetColor) - (tempX - (w + 1))
        invariant tempX == w + 1 ==> colors[..] == old(colors[..]) && queue' == queue
      {
        PaintPixel(orig, colors[..], queue', width, height, targetColor, color, seed, y, w, tempX, e);
        queue' := PaintAndEnqueue(colors, queue', tempX, y, targetColor, canvasSize);
        tempX := tempX + 1;
      }
      EndRun(orig, colors[..], queue', width, height, targetColor, color, seed, y, w, tempX, e);
    }

    /** One step of FloodPixel's run loop: pixel (x, y) takes the tool's colour, and the pixels
        above and below it that still have the target colour join the queue, upper first. */
    method PaintAndEnqueue(colors: array<Color>, queue: seq<int>, x: int, y: int, targetColor: Color, canvasSize: Size)
      returns (queue': seq<int>)
      requires colors.Length == canvasSize.width * canvasSize.height
      requires InGrid(canvasSize.width, canvasSize.height, Point(x, y))
      modifies colors
      ensures colors[..] == Paint(old(colors[..]), canvasSize.width, canvasSize.height, Point(x, y), color)
      ensures queue' == queue + Enqueued(colors[..], canvasSize.width, canvasSize.height, targetColor, x, y)
    {
      var width, height := canvasSize.width, canvasSize.height;
      RowInRange(width, height, y);
      ghost var cur := colors[..];
      var tempIndex := x + y * width;
      colors[tempIndex] := color;
      assert colors[..] == Paint(cur, width, height, Point(x, y), color);

      ghost var painted := colors[..];
      NeighbourIndices(painted, width, height, targetColor, x, y);
      queue' := queue;
      if y - 1 >= 0 {
        var i := x + (y - 1) * width;
        if colors[i] == targetColor {
          queue' := queue' + [i];
        }
      }
      ghost var queueUp := queue';
      if y + 1 < height {
        var i := x + (y + 1) * width;
        if colors[i] == targetColor {
          queue' := queue' + [i];
        }
      }
      assert queueUp == queue + Above(painted, width, height, targetColor, x, y);
      assert queue' == queueUp + Below(painted, width, height, targetColor, x, y);
    }
  }
}
