/** What the pencil asks a drawing session to draw. Rasterisation is not modelled: a pencil
    stroke is recorded as the sequence of drawing commands issued on a render target, each a
    stamp of the brush image at an offset or a line drawn with the brush image between two
    offsets. */
module Strokes {
  import opened Pixels

  /** The pencil's brush: a render target of the brush size cleared to the drawing colour. */
  datatype Brush = Brush(size: Vector2, color: Color)

  /** `DrawImage(brush, at)` or `DrawLine(from, to, brush)`. */
  datatype Stroke = Stamp(at: Vector2) | Line(from: Vector2, to: Vector2)

  /** One drawing command: the history slot whose render target it draws on, the brush, and
      what is drawn. */
  datatype DrawCommand = DrawCommand(target: int, brush: Brush, stroke: Stroke)

  /** A pointer sample: its position and whether the pointer is in contact (a pressed mouse
      button, a pen or a finger touching). */
  datatype PointerPoint = PointerPoint(position: Vector2, inContact: bool)

  /** The positions of the samples in contact, in order. */
  function Contacts(points: seq<PointerPoint>): (r: seq<Vector2>)
    ensures |r| <= |points|
    ensures (forall i :: 0 <= i < |points| ==> !points[i].inContact) ==> r == []
    ensures (forall i :: 0 <= i < |points| ==> points[i].inContact) ==>
      |r| == |points| && forall i :: 0 <= i < |points| ==> r[i] == points[i].position
    decreases |points|
  {
    if |points| == 0 then []
    else
      var init := points[..|points| - 1];
      assert forall i :: 0 <= i < |init| ==> init[i] == points[i];
      var last := points[|points| - 1];
      Contacts(init) + (if last.inContact then [last.position] else [])
  }

  /** What PaintCanvas draws at `offset`: a line back to the previous offset when there is one,
      otherwise a stamp. */
  function Segment(target: int, brush: Brush, previous: Option<Vector2>, offset: Vector2): (d: DrawCommand)
    ensures d.target == target && d.brush == brush
    ensures previous.None? <==> d.stroke.Stamp?
    ensures d.stroke.Stamp? ==> d.stroke.at == offset
    ensures d.stroke.Line? ==> d.stroke.from == offset && Some(d.stroke.to) == previous
  {
    match previous
    case None => DrawCommand(target, brush, Stamp(offset))
    case Some(p) => DrawCommand(target, brush, Line(offset, p))
  }

  /** The previous offset after painting at each of `offsets` in turn. */
  function After(previous: Option<Vector2>, offsets: seq<Vector2>): Option<Vector2> {
    if |offsets| == 0 then previous else Some(offsets[|offsets| - 1])
  }

  /** Painting `a` and then `b` leaves the same previous offset as painting `a + b` in one go;
      painting nothing leaves it as it was. */
  lemma AfterConcat(previous: Option<Vector2>, a: seq<Vector2>, b: seq<Vector2>)
    ensures After(After(previous, a), b) == After(previous, a + b)
    ensures After(previous, []) == previous
  {
  }

  /** The commands issued by painting at each of `offsets` in turn, starting from `previous`. */
  function Trace(target: int, brush: Brush, previous: Option<Vector2>, offsets: seq<Vector2>): (r: seq<DrawCommand>)
    ensures |r| == |offsets|
    decreases |offsets|
  {
    if |offsets| == 0 then []
    else
      var init := offsets[..|offsets| - 1];
      Trace(target, brush, previous, init) + [Segment(target, brush, After(previous, init), offsets[|offsets| - 1])]
  }

  /** Painting one more offset adds one command at the end. */
  lemma TraceAppend(target: int, brush: Brush, previous: Option<Vector2>, offsets: seq<Vector2>, o: Vector2)
    ensures Trace(target, brush, previous, offsets + [o]) ==
      Trace(target, brush, previous, offsets) + [Segment(target, brush, After(previous, offsets), o)]
    ensures After(previous, offsets + [o]) == Some(o)
  {
    assert (offsets + [o])[..|offsets|] == offsets;
  }

  /** A trace is a connected polyline: every command after the first is a line from its offset
      back to the offset before it, and the first is a stamp when there was no previous offset
      or a line back to the previous offset when there was. */
  lemma {:induction false} TraceShape(target: int, brush: Brush, previous: Option<Vector2>, offsets: seq<Vector2>)
    ensures forall i :: 0 < i < |offsets| ==>
      Trace(target, brush, previous, offsets)[i] == DrawCommand(target, brush, Line(offsets[i], offsets[i - 1]))
    ensures |offsets| > 0 ==>
      Trace(target, brush, previous, offsets)[0] == Segment(target, brush, previous, offsets[0])
    decreases |offsets|
  {
    if |offsets| > 0 {
      var init := offsets[..|offsets| - 1];
      TraceShape(target, brush, previous, init);
      var t := Trace(target, brush, previous, offsets);
      assert t == Trace(target, brush, previous, init) +
        [Segment(target, brush, After(previous, init), offsets[|offsets| - 1])];
      forall i | 0 < i < |offsets|
        ensures t[i] == DrawCommand(target, brush, Line(offsets[i], offsets[i - 1]))
      {
        if i < |offsets| - 1 {
          assert init[i] == offsets[i] && init[i - 1] == offsets[i - 1];
        }
      }
    }
  }

  /** Samples, one more: the contacts gain that sample's position when it is in contact. */
  lemma ContactsAppend(points: seq<PointerPoint>, p: PointerPoint)
    ensures Contacts(points + [p]) == Contacts(points) + (if p.inContact then [p.position] else [])
  {
    assert (points + [p])[..|points|] == points;
  }
}
