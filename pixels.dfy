/** Colours, sizes and pixel buffers: the values that the canvas, its history slots and the
    tools pass around. A GPU render target is modelled by its size and its pixel content,
    stored row-major: pixel (x, y) of a buffer `width` pixels wide lives at index x + y * width,
    the layout that the fill tool's colour array uses. */
module Pixels {

  /** One 8-bit colour channel. */
  newtype Byte = x: int | 0 <= x < 256

  /** A Windows.UI.Color: alpha, red, green and blue, eight bits each. */
  datatype Color = Color(a: Byte, r: Byte, g: Byte, b: Byte)

  /** Colors.Transparent (#00FFFFFF), what a cleared drawing session leaves behind. */
  const Transparent: Color := Color(0, 255, 255, 255)

  /** Colors.Black (#FF000000), the controller's initial drawing colour. */
  const Black: Color := Color(255, 0, 0, 0)

  /** A pixel size; the source keeps it in a Vector2 of whole pixel counts. */
  datatype Size = Size(width: nat, height: nat)

  /** A Windows.Foundation.Rect in whole pixels; its constructor rejects a negative width or
      height, so a Rect value never has one. */
  datatype Rect = Rect(x: int, y: int, width: nat, height: nat)

  datatype Option<T> = None | Some(value: T)

  /** A pixel position: column x, row y. */
  datatype Point = Point(x: int, y: int)

  /** A System.Numerics.Vector2, such as a pointer position or a brush size. Its coordinates are
      single-precision floats in the source; here they are exact reals. */
  datatype Vector2 = Vector2(x: real, y: real)

  /** The C# conversion (int)r, which truncates toward zero. */
  function Trunc(r: real): (n: int)
    ensures 0.0 <= r ==> 0 <= n && n as real <= r < n as real + 1.0
    ensures r < 0.0 ==> n <= 0 && n as real - 1.0 < r <= n as real
  {
    if r >= 0.0 then r.Floor else -((-r).Floor)
  }

  /** Truncating a whole number gives it back. */
  lemma WholeTrunc(r: real)
    ensures r == r.Floor as real ==> Trunc(r) as real == r
  {
    if r < 0.0 && r == r.Floor as real {
      assert (-r).Floor == -(r.Floor);
    }
  }

  /** A render target or bitmap: its size and its pixels, row by row. */
  datatype Buffer = Buffer(size: Size, pixels: seq<Color>) {
    predicate Valid() {
      |pixels| == size.width * size.height
    }
  }

  /** Index of pixel (x, y) in a row-major array `width` pixels wide. */
  function Index(width: int, x: int, y: int): int {
    x + y * width
  }

  lemma MulMonotone(a: int, b: int, c: nat)
    requires a <= b
    ensures a * c <= b * c
  {
    assert (b - a) * c >= 0;
    assert b * c - a * c == (b - a) * c;
  }

  /** A pixel inside a width-by-height grid has an index inside the flat array. */
  lemma IndexInRange(width: nat, height: nat, x: int, y: int)
    requires 0 <= x < width && 0 <= y < height
    ensures 0 <= Index(width, x, y) < width * height
  {
    MulMonotone(0, y, width);
    MulMonotone(y, height - 1, width);
    assert (height - 1) * width == height * width - width;
  }

  /** An index built from (x, y) decodes back to (x, y) through % and /. */
  lemma IndexDecode(width: nat, x: int, y: int)
    requires 0 <= x < width && 0 <= y
    ensures Index(width, x, y) % width == x && Index(width, x, y) / width == y
  {
    var i := Index(width, x, y);
    var q, r := i / width, i % width;
    assert i == q * width + r;
    assert (q - y) * width == x - r;
    if q > y {
      MulMonotone(1, q - y, width);
      assert false;
    } else if q < y {
      MulMonotone(1, y - q, width);
      assert false;
    }
  }

  /** Row y of a width-by-height grid lies inside the flat array, and so do the rows next to it
      where they exist. */
  lemma RowInRange(width: nat, height: nat, y: int)
    requires 0 <= y < height
    ensures 0 <= y * width && y * width + width <= width * height
    ensures (y - 1) * width == y * width - width && (y + 1) * width == y * width + width
    ensures 0 < y ==> width <= y * width
    ensures y + 1 < height ==> y * width + 2 * width <= width * height
  {
    MulMonotone(0, y, width);
    MulMonotone(y, height - 1, width);
    assert (height - 1) * width == height * width - width;
    if 0 < y {
      MulMonotone(1, y, width);
    }
    if y + 1 < height {
      MulMonotone(y + 1, height - 1, width);
    }
  }

  /** Distinct pixels of a grid have distinct indices. */
  lemma IndexInjective(width: nat, x: int, y: int, x': int, y': int)
    requires 0 <= x < width && 0 <= y && 0 <= x' < width && 0 <= y'
    requires Index(width, x, y) == Index(width, x', y')
    ensures x == x' && y == y'
  {
    IndexDecode(width, x, y);
    IndexDecode(width, x', y');
  }

  /** Every index of a width-by-height array is the index of exactly the pixel it decodes to. */
  lemma IndexEncode(width: nat, height: nat, i: int)
    requires 0 <= i < width * height
    ensures width > 0
    ensures 0 <= i % width < width && 0 <= i / width < height
    ensures Index(width, i % width, i / width) == i
  {
    if width == 0 {
      assert false;
    }
    var q, r := i / width, i % width;
    assert i == q * width + r;
    if q >= height {
      MulMonotone(height, q, width);
      assert false;
    }
    MulMonotone(0, q, width);
  }

  /** The colour of pixel (x, y). */
  function At(b: Buffer, x: int, y: int): Color
    requires b.Valid() && 0 <= x < b.size.width && 0 <= y < b.size.height
  {
    IndexInRange(b.size.width, b.size.height, x, y);
    b.pixels[Index(b.size.width, x, y)]
  }

  /** Two buffers of the same size that agree on every pixel are the same buffer. */
  lemma {:induction false} SamePixels(p: Buffer, q: Buffer)
    requires p.Valid() && q.Valid() && p.size == q.size
    requires forall x, y :: 0 <= x < p.size.width && 0 <= y < p.size.height ==> At(p, x, y) == At(q, x, y)
    ensures p == q
  {
    forall i | 0 <= i < |p.pixels|
      ensures p.pixels[i] == q.pixels[i]
    {
      IndexEncode(p.size.width, p.size.height, i);
      assert At(p, i % p.size.width, i / p.size.width) == At(q, i % p.size.width, i / p.size.width);
    }
  }

  /** A buffer of the given size with every pixel set to one colour: a fresh render target
      after `Clear(color)`. */
  function Filled(s: Size, c: Color): (b: Buffer)
    ensures b.Valid() && b.size == s
    ensures forall x, y :: 0 <= x < s.width && 0 <= y < s.height ==> At(b, x, y) == c
  {
    var b := Buffer(s, seq(s.width * s.height, _ => c));
    forall x, y | 0 <= x < s.width && 0 <= y < s.height
      ensures At(b, x, y) == c
    {
      IndexInRange(s.width, s.height, x, y);
    }
    b
  }

  /** A cleared buffer: every pixel transparent. */
  function Blank(s: Size): (b: Buffer)
    ensures b.Valid() && b.size == s
    ensures forall x, y :: 0 <= x < s.width && 0 <= y < s.height ==> At(b, x, y) == Transparent
  {
    Filled(s, Transparent)
  }

  /** The pixel of `src` that `DrawImage(src)` puts at index i of `dst`, or dst's own pixel
      where src does not reach. */
  function DrawnPixel(dst: Buffer, src: Buffer, i: int): Color
    requires dst.Valid() && src.Valid() && 0 <= i < |dst.pixels|
  {
    IndexEncode(dst.size.width, dst.size.height, i);
    var x, y := i % dst.size.width, i / dst.size.width;
    if x < src.size.width && y < src.size.height then At(src, x, y) else dst.pixels[i]
  }

  /** A drawing session's `DrawImage(src)` at the origin: the pixels that src covers take src's
      colours, the others keep their own; the size of the target does not change. */
  function DrawImage(dst: Buffer, src: Buffer): (r: Buffer)
    requires dst.Valid() && src.Valid()
    ensures r.Valid() && r.size == dst.size
    ensures forall x, y :: 0 <= x < dst.size.width && 0 <= y < dst.size.height ==>
      At(r, x, y) == if x < src.size.width && y < src.size.height then At(src, x, y) else At(dst, x, y)
  {
    var r := Buffer(dst.size, seq(|dst.pixels|, i requires 0 <= i < |dst.pixels| => DrawnPixel(dst, src, i)));
    forall x, y | 0 <= x < dst.size.width && 0 <= y < dst.size.height
      ensures At(r, x, y) == if x < src.size.width && y < src.size.height then At(src, x, y) else At(dst, x, y)
    {
      IndexInRange(dst.size.width, dst.size.height, x, y);
      IndexDecode(dst.size.width, x, y);
    }
    r
  }

  /** Clearing a buffer of src's size and drawing src into it reproduces src exactly. */
  lemma DrawOntoBlankCopies(src: Buffer)
    requires src.Valid()
    ensures DrawImage(Blank(src.size), src) == src
  {
    SamePixels(DrawImage(Blank(src.size), src), src);
  }

  /** Drawing a bitmap that covers the whole target replaces the target's content. */
  lemma DrawCoveringReplaces(dst: Buffer, src: Buffer)
    requires dst.Valid() && src.Valid() && src.size == dst.size
    ensures DrawImage(dst, src) == src
  {
    SamePixels(DrawImage(dst, src), src);
  }

  /** The pixel that `DrawImage(src, 0, 0, rect)` puts at index i of a target of the rect's
      size: src's pixel at the same place relative to the rect's corner, or transparent
      outside src. */
  function RegionPixel(src: Buffer, left: int, top: int, s: Size, i: int): Color
    requires src.Valid() && 0 <= i < s.width * s.height
  {
    IndexEncode(s.width, s.height, i);
    var x, y := left + i % s.width, top + i / s.width;
    if 0 <= x < src.size.width && 0 <= y < src.size.height then At(src, x, y) else Transparent
  }

  /** The detached copy of the part of src inside the rectangle at (left, top) of size s. */
  function CopyRegion(src: Buffer, left: int, top: int, s: Size): (r: Buffer)
    requires src.Valid()
    ensures r.Valid() && r.size == s
    ensures forall x, y :: 0 <= x < s.width && 0 <= y < s.height ==>
      At(r, x, y) == if 0 <= left + x < src.size.width && 0 <= top + y < src.size.height
                     then At(src, left + x, top + y) else Transparent
  {
    var r := Buffer(s, seq(s.width * s.height, i requires 0 <= i < s.width * s.height => RegionPixel(src, left, top, s, i)));
    forall x, y | 0 <= x < s.width && 0 <= y < s.height
      ensures At(r, x, y) == if 0 <= left + x < src.size.width && 0 <= top + y < src.size.height
                             then At(src, left + x, top + y) else Transparent
    {
      IndexInRange(s.width, s.height, x, y);
      IndexDecode(s.width, x, y);
    }
    r
  }

  /** Copying the whole of a buffer gives the buffer back. */
  lemma CopyWholeIsIdentity(src: Buffer)
    requires src.Valid()
    ensures CopyRegion(src, 0, 0, src.size) == src
  {
    SamePixels(CopyRegion(src, 0, 0, src.size), src);
  }
}
