/** What a flood fill must do, stated independently of how it does it: the pixels reachable
    from the seed through 4-neighbours of the target colour (the seed's region) take the fill
    colour and nothing else changes. The colours live in a flat row-major array, as in the fill
    tool; the theory speaks of pixel positions and reads colours through ColorAt. The lemmas
    at the end are the steps of the proof that the scanline fill in FillTools meets this
    specification. */
module Regions {
  import opened Pixels

  /** p lies inside a width-by-height grid. */
  predicate InGrid(width: int, height: int, p: Point) {
    0 <= p.x < width && 0 <= p.y < height
  }

  /** p and q share an edge: same row and neighbouring columns, or same column and neighbouring
      rows. Pixels that touch only at a corner are not adjacent. */
  predicate Adjacent(p: Point, q: Point) {
    (p.y == q.y && (p.x == q.x + 1 || q.x == p.x + 1)) ||
    (p.x == q.x && (p.y == q.y + 1 || q.y == p.y + 1))
  }

  /** The colour of pixel p in the flat array c. */
  function ColorAt(c: seq<Color>, width: nat, height: nat, p: Point): Color
    requires |c| == width * height && InGrid(width, height, p)
  {
    IndexInRange(width, height, p.x, p.y);
    c[Index(width, p.x, p.y)]
  }

  /** The array after writing colour v at pixel p: that pixel alone changes colour. */
  function Paint(c: seq<Color>, width: nat, height: nat, p: Point, v: Color): (r: seq<Color>)
    requires |c| == width * height && InGrid(width, height, p)
    ensures |r| == |c|
    ensures forall q :: InGrid(width, height, q) ==>
      ColorAt(r, width, height, q) == if q == p then v else ColorAt(c, width, height, q)
  {
    IndexInRange(width, height, p.x, p.y);
    var r := c[Index(width, p.x, p.y) := v];
    forall q | InGrid(width, height, q) && q != p
      ensures ColorAt(r, width, height, q) == ColorAt(c, width, height, q)
    {
      IndexInRange(width, height, q.x, q.y);
      if Index(width, q.x, q.y) == Index(width, p.x, p.y) {
        IndexInjective(width, q.x, q.y, p.x, p.y);
      }
    }
    r
  }

  /** path is a walk through target-coloured pixels of c, each step to a neighbour. */
  ghost predicate IsPath(c: seq<Color>, width: nat, height: nat, target: Color, path: seq<Point>) {
    |c| == width * height && |path| > 0 &&
    (forall k :: 0 <= k < |path| ==>
      InGrid(width, height, path[k]) && ColorAt(c, width, height, path[k]) == target) &&
    (forall k :: 0 <= k < |path| - 1 ==> Adjacent(path[k], path[k + 1]))
  }

  /** p belongs to the seed's region: a walk of target-coloured neighbours leads from the seed
      to p. */
  ghost predicate InRegion(c: seq<Color>, width: nat, height: nat, target: Color, seed: Point, p: Point) {
    exists path :: IsPath(c, width, height, target, path) && path[0] == seed && path[|path| - 1] == p
  }

  /** The specification of a flood fill from `seed`: the seed's region takes the fill colour,
      every other pixel keeps its colour. */
  ghost predicate FloodFilled(before: seq<Color>, after: seq<Color>, width: nat, height: nat,
                              target: Color, fill: Color, seed: Point) {
    |before| == |after| == width * height &&
    forall p :: InGrid(width, height, p) ==>
      ColorAt(after, width, height, p) ==
        if InRegion(before, width, height, target, seed, p) then fill else ColorAt(before, width, height, p)
  }

  /** A target-coloured seed is in its own region. */
  lemma SeedInRegion(c: seq<Color>, width: nat, height: nat, target: Color, seed: Point)
    requires |c| == width * height && InGrid(width, height, seed)
    requires ColorAt(c, width, height, seed) == target
    ensures InRegion(c, width, height, target, seed, seed)
  {
    assert IsPath(c, width, height, target, [seed]);
  }

  /** Every pixel of a region has the target colour; in particular a seed of another colour has
      an empty region. */
  lemma RegionHasTarget(c: seq<Color>, width: nat, height: nat, target: Color, seed: Point, p: Point)
    requires InRegion(c, width, height, target, seed, p)
    ensures InGrid(width, height, seed) && ColorAt(c, width, height, seed) == target
    ensures InGrid(width, height, p) && ColorAt(c, width, height, p) == target
  {
    var path :| IsPath(c, width, height, target, path) && path[0] == seed && path[|path| - 1] == p;
    assert path[|path| - 1] == p;
  }

  /** A seed that does not have the target colour has an empty region, so a fill from it changes
      nothing. */
  lemma EmptyRegion(c: seq<Color>, width: nat, height: nat, target: Color, fill: Color, seed: Point)
    requires |c| == width * height && InGrid(width, height, seed)
    requires ColorAt(c, width, height, seed) != target
    ensures FloodFilled(c, c, width, height, target, fill, seed)
    ensures forall p :: !InRegion(c, width, height, target, seed, p)
  {
  }

  /** Filling with the colour the seed already has changes nothing. */
  lemma FillWithOwnColor(c: seq<Color>, width: nat, height: nat, seed: Point)
    requires |c| == width * height && InGrid(width, height, seed)
    ensures var target := ColorAt(c, width, height, seed);
      FloodFilled(c, c, width, height, target, target, seed)
  {
    var target := ColorAt(c, width, height, seed);
    forall p | InGrid(width, height, p) && InRegion(c, width, height, target, seed, p)
      ensures ColorAt(c, width, height, p) == target
    {
      RegionHasTarget(c, width, height, target, seed, p);
    }
  }

  /** A fill changes only pixels of the target colour, and each one it changes takes the fill
      colour. */
  lemma FillChangesOnlyTarget(before: seq<Color>, after: seq<Color>, width: nat, height: nat,
                              target: Color, fill: Color, seed: Point)
    requires FloodFilled(before, after, width, height, target, fill, seed)
    ensures forall p ::
      (InGrid(width, height, p) && ColorAt(after, width, height, p) != ColorAt(before, width, height, p)) ==>
        ColorAt(before, width, height, p) == target && ColorAt(after, width, height, p) == fill
  {
    forall p | InGrid(width, height, p) && ColorAt(after, width, height, p) != ColorAt(before, width, height, p)
      ensures ColorAt(before, width, height, p) == target && ColorAt(after, width, height, p) == fill
    {
      RegionHasTarget(before, width, height, target, seed, p);
    }
  }

  /** The result of a fill is determined by the canvas, the colours and the seed. */
  lemma FloodFilledUnique(before: seq<Color>, after: seq<Color>, after': seq<Color>, width: nat, height: nat,
                          target: Color, fill: Color, seed: Point)
    requires FloodFilled(before, after, width, height, target, fill, seed)
    requires FloodFilled(before, after', width, height, target, fill, seed)
    ensures after == after'
  {
    forall i | 0 <= i < |after|
      ensures after[i] == after'[i]
    {
      IndexEncode(width, height, i);
      var p := Point(i % width, i / width);
      assert ColorAt(after, width, height, p) == ColorAt(after', width, height, p);
    }
  }

  /** The region is closed under stepping to a target-coloured neighbour. */
  lemma ExtendRegion(c: seq<Color>, width: nat, height: nat, target: Color, seed: Point, p: Point, q: Point)
    requires InRegion(c, width, height, target, seed, p)
    requires Adjacent(p, q) && InGrid(width, height, q) && ColorAt(c, width, height, q) == target
    ensures InRegion(c, width, height, target, seed, q)
  {
    var path :| IsPath(c, width, height, target, path) && path[0] == seed && path[|path| - 1] == p;
    var path' := path + [q];
    assert IsPath(c, width, height, target, path');
    assert path'[0] == seed && path'[|path'| - 1] == q;
  }

  /** The second pixel of a walk neighbours the first and has the target colour. */
  lemma PathStart(c: seq<Color>, width: nat, height: nat, target: Color, path: seq<Point>)
    requires IsPath(c, width, height, target, path)
    ensures |path| > 1 ==>
      Adjacent(path[0], path[1]) && InGrid(width, height, path[1]) && ColorAt(c, width, height, path[1]) == target
  {
  }

  /** A pixel whose four neighbours all differ from the target colour is a region by itself:
      the fill changes exactly that one pixel. */
  lemma IsolatedSeed(c: seq<Color>, width: nat, height: nat, target: Color, seed: Point, p: Point)
    requires |c| == width * height
    requires forall q :: InGrid(width, height, q) && Adjacent(seed, q) ==> ColorAt(c, width, height, q) != target
    requires InRegion(c, width, height, target, seed, p)
    ensures p == seed
  {
    var path :| IsPath(c, width, height, target, path) && path[0] == seed && path[|path| - 1] == p;
    PathStart(c, width, height, target, path);
  }

  /** Two target pixels that touch only at a corner are in different regions: in the 2x2 grid
      [t, o, o, t] the fill from the top-left pixel does not reach the bottom-right one. */
  lemma DiagonalGapStopsFill(t: Color, o: Color)
    requires t != o
    ensures !InRegion([t, o, o, t], 2, 2, t, Point(0, 0), Point(1, 1))
  {
    var c := [t, o, o, t];
    forall q | InGrid(2, 2, q) && Adjacent(Point(0, 0), q)
      ensures ColorAt(c, 2, 2, q) != t
    {
      assert q == Point(1, 0) || q == Point(0, 1);
    }
    if InRegion(c, 2, 2, t, Point(0, 0), Point(1, 1)) {
      IsolatedSeed(c, 2, 2, t, Point(0, 0), Point(1, 1));
    }
  }

  /** Every pixel of a row segment of target colour is in the region as soon as one of them is. */
  lemma {:induction false} RunInRegion(c: seq<Color>, width: nat, height: nat, target: Color, seed: Point,
                                       y: int, cx: int, lo: int, hi: int, v: int)
    requires |c| == width * height && 0 <= y < height
    requires 0 <= lo <= cx < hi <= width && lo <= v < hi
    requires InRegion(c, width, height, target, seed, Point(cx, y))
    requires forall u :: lo <= u < hi ==> ColorAt(c, width, height, Point(u, y)) == target
    ensures InRegion(c, width, height, target, seed, Point(v, y))
    decreases if v < cx then cx - v else v - cx
  {
    if v > cx {
      RunInRegion(c, width, height, target, seed, y, cx, lo, hi, v - 1);
      ExtendRegion(c, width, height, target, seed, Point(v - 1, y), Point(v, y));
    } else if v < cx {
      RunInRegion(c, width, height, target, seed, y, cx, lo, hi, v + 1);
      ExtendRegion(c, width, height, target, seed, Point(v + 1, y), Point(v, y));
    }
  }

  /** The number of entries of colour c. */
  function CountOf(s: seq<Color>, c: Color): nat {
    if |s| == 0 then 0 else CountOf(s[..|s| - 1], c) + (if s[|s| - 1] == c then 1 else 0)
  }

  /** Repainting one entry of colour c in another colour leaves one fewer entry of colour c. */
  lemma {:induction false} CountUpdate(s: seq<Color>, i: int, v: Color, c: Color)
    requires 0 <= i < |s| && s[i] == c && v != c
    ensures CountOf(s[i := v], c) == CountOf(s, c) - 1
  {
    var n := |s| - 1;
    if i == n {
      assert s[i := v][..n] == s[..n];
    } else {
      assert s[i := v][..n] == s[..n][i := v];
      CountUpdate(s[..n], i, v, c);
    }
  }

  // ---- Invariants of the scanline fill ----

  /** Only pixels of the seed's region have changed, each of them to the fill colour. */
  ghost predicate OnlyRegionChanged(cur: seq<Color>, orig: seq<Color>, width: nat, height: nat,
                                    target: Color, fill: Color, seed: Point) {
    |cur| == |orig| == width * height &&
    forall p :: InGrid(width, height, p) ==>
      ColorAt(cur, width, height, p) == ColorAt(orig, width, height, p) ||
      (ColorAt(cur, width, height, p) == fill && InRegion(orig, width, height, target, seed, p))
  }

  /** Every queued index is that of a pixel of the seed's region. */
  ghost predicate QueueInRegion(queue: seq<int>, orig: seq<Color>, width: nat, height: nat,
                                target: Color, seed: Point) {
    forall p :: InGrid(width, height, p) && Index(width, p.x, p.y) in queue ==>
      InRegion(orig, width, height, target, seed, p)
  }

  /** The queue holding only the seed's index holds only a pixel of the region. */
  lemma SeedQueue(c: seq<Color>, width: nat, height: nat, target: Color, seed: Point)
    requires |c| == width * height && InGrid(width, height, seed)
    requires ColorAt(c, width, height, seed) == target
    ensures QueueInRegion([Index(width, seed.x, seed.y)], c, width, height, target, seed)
  {
    SeedInRegion(c, width, height, target, seed);
    forall p | InGrid(width, height, p) && Index(width, p.x, p.y) in [Index(width, seed.x, seed.y)]
      ensures p == seed
    {
      IndexInjective(width, p.x, p.y, seed.x, seed.y);
    }
  }

  /** Every target-coloured neighbour of a changed pixel is queued, or lies in the part [lo, hi)
      of row y still being painted. */
  ghost predicate Closed(cur: seq<Color>, orig: seq<Color>, width: nat, height: nat, target: Color,
                         queue: seq<int>, y: int, lo: int, hi: int) {
    |cur| == |orig| == width * height &&
    forall p, q ::
      (InGrid(width, height, p) && InGrid(width, height, q) && Adjacent(p, q) &&
       ColorAt(cur, width, height, p) != ColorAt(orig, width, height, p) &&
       ColorAt(cur, width, height, q) == target) ==>
        Index(width, q.x, q.y) in queue || (q.y == y && lo <= q.x < hi)
  }

  /** An empty part of a row holds nothing. */
  lemma ClosedEmptyRun(cur: seq<Color>, orig: seq<Color>, width: nat, height: nat, target: Color,
                       queue: seq<int>, y: int, lo: int, hi: int)
    requires hi <= lo && Closed(cur, orig, width, height, target, queue, y, lo, hi)
    ensures Closed(cur, orig, width, height, target, queue, 0, 0, 0)
  {
  }

  /** Taking the next index off the queue: the run [w + 1, e) around column cx of row y, found
      by scanning west and east, is in the region, and the neighbours that only the taken index
      covered are covered by the run. */
  lemma DequeueStep(orig: seq<Color>, cur: seq<Color>, queue: seq<int>, width: nat, height: nat,
                    target: Color, fill: Color, seed: Point, y: int, cx: int, w: int, e: int)
    requires |orig| == |cur| == width * height && InGrid(width, height, Point(cx, y))
    requires |queue| > 0 && queue[0] == Index(width, cx, y)
    requires -1 <= w <= cx <= e <= width
    requires forall v :: w < v < e ==> ColorAt(cur, width, height, Point(v, y)) == target
    requires ColorAt(cur, width, height, Point(cx, y)) == target ==> w < cx < e
    requires ColorAt(cur, width, height, Point(cx, y)) != target ==> w == cx == e
    requires target != fill && OnlyRegionChanged(cur, orig, width, height, target, fill, seed)
    requires QueueInRegion(queue, orig, width, height, target, seed)
    requires Closed(cur, orig, width, height, target, queue, 0, 0, 0)
    ensures QueueInRegion(queue[1..], orig, width, height, target, seed)
    ensures Closed(cur, orig, width, height, target, queue[1..], y, w + 1, e)
    ensures forall v :: w < v < e ==> InRegion(orig, width, height, target, seed, Point(v, y))
  {
    forall v | w < v < e
      ensures InRegion(orig, width, height, target, seed, Point(v, y))
    {
      forall u | w < u < e
        ensures ColorAt(orig, width, height, Point(u, y)) == target
      {
        assert ColorAt(cur, width, height, Point(u, y)) == target;
      }
      RunInRegion(orig, width, height, target, seed, y, cx, w + 1, e, v);
    }
    forall p, q | InGrid(width, height, p) && InGrid(width, height, q) && Adjacent(p, q) &&
      ColorAt(cur, width, height, p) != ColorAt(orig, width, height, p) &&
      ColorAt(cur, width, height, q) == target
      ensures Index(width, q.x, q.y) in queue[1..] || (q.y == y && w + 1 <= q.x < e)
    {
      var i := Index(width, q.x, q.y);
      assert i in queue;
      if i == queue[0] {
        IndexInjective(width, q.x, q.y, cx, y);
      } else {
        var k :| 0 <= k < |queue| && queue[k] == i;
        assert queue[1..][k - 1] == i;
      }
    }
  }

  /** The pixels the tool queues after painting pixel (x, y): its neighbours above and below,
      where they exist and have the target colour. */
  function Enqueued(c: seq<Color>, width: nat, height: nat, target: Color, x: int, y: int): seq<int>
    requires |c| == width * height && InGrid(width, height, Point(x, y))
  {
    Above(c, width, height, target, x, y) + Below(c, width, height, target, x, y)
  }

  /** The pixel above (x, y), when it exists and has the target colour. */
  function Above(c: seq<Color>, width: nat, height: nat, target: Color, x: int, y: int): seq<int>
    requires |c| == width * height && InGrid(width, height, Point(x, y))
  {
    if 0 < y && ColorAt(c, width, height, Point(x, y - 1)) == target then [Index(width, x, y - 1)] else []
  }

  /** The pixel below (x, y), when it exists and has the target colour. */
  function Below(c: seq<Color>, width: nat, height: nat, target: Color, x: int, y: int): seq<int>
    requires |c| == width * height && InGrid(width, height, Point(x, y))
  {
    if y + 1 < height && ColorAt(c, width, height, Point(x, y + 1)) == target then [Index(width, x, y + 1)] else []
  }

  /** ColorAt reads the flat array at the pixel's index. */
  lemma ColorAtIndex(c: seq<Color>, width: nat, height: nat, x: int, y: int)
    requires |c| == width * height && InGrid(width, height, Point(x, y))
    ensures 0 <= x + y * width < |c| && ColorAt(c, width, height, Point(x, y)) == c[x + y * width]
  {
    IndexInRange(width, height, x, y);
  }

  /** Above and Below read straight from the flat array: the row above starts width entries
      earlier, the row below width entries later. */
  lemma NeighbourIndices(c: seq<Color>, width: nat, height: nat, target: Color, x: int, y: int)
    requires |c| == width * height && InGrid(width, height, Point(x, y))
    ensures 0 < y ==>
      (0 <= x + (y - 1) * width < |c| &&
       Above(c, width, height, target, x, y) ==
         (if c[x + (y - 1) * width] == target then [x + (y - 1) * width] else []))
    ensures y + 1 < height ==>
      (0 <= x + (y + 1) * width < |c| &&
       Below(c, width, height, target, x, y) ==
         (if c[x + (y + 1) * width] == target then [x + (y + 1) * width] else []))
  {
    if 0 < y {
      IndexInRange(width, height, x, y - 1);
    }
    if y + 1 < height {
      IndexInRange(width, height, x, y + 1);
    }
  }

  /** The neighbours of the pixel (x, y) just painted: the left and right ones are painted,
      bounding or still pending; those above and below were queued if they had the target
      colour. */
  lemma PaintedNeighbours(cur': seq<Color>, queue': seq<int>, width: nat, height: nat,
                          target: Color, y: int, x: int, e: int, q: Point)
    requires |cur'| == width * height && 0 <= y < height && 0 <= x < e <= width
    requires 0 < x ==> ColorAt(cur', width, height, Point(x - 1, y)) != target
    requires e < width ==> ColorAt(cur', width, height, Point(e, y)) != target
    requires forall i :: i in Enqueued(cur', width, height, target, x, y) ==> i in queue'
    requires InGrid(width, height, q) && Adjacent(Point(x, y), q) && ColorAt(cur', width, height, q) == target
    ensures Index(width, q.x, q.y) in queue' || (q.y == y && x + 1 <= q.x < e)
  {
    if q.y == y - 1 {
      assert Index(width, q.x, q.y) in Enqueued(cur', width, height, target, x, y);
    } else if q.y == y + 1 {
      assert Index(width, q.x, q.y) in Enqueued(cur', width, height, target, x, y);
    }
  }

  /** Painting pixel x of the run on row y and queueing its target-coloured neighbours above and
      below keeps the invariants and leaves one fewer target pixel. */
  lemma PaintStep(orig: seq<Color>, cur: seq<Color>, queue: seq<int>, width: nat, height: nat,
                  target: Color, fill: Color, seed: Point, y: int, x: int, e: int)
    requires |orig| == |cur| == width * height && 0 <= y < height && 0 <= x < e <= width
    requires target != fill && ColorAt(cur, width, height, Point(x, y)) == target
    requires 0 < x ==> ColorAt(cur, width, height, Point(x - 1, y)) != target
    requires e < width ==> ColorAt(cur, width, height, Point(e, y)) != target
    requires InRegion(orig, width, height, target, seed, Point(x, y))
    requires OnlyRegionChanged(cur, orig, width, height, target, fill, seed)
    requires QueueInRegion(queue, orig, width, height, target, seed)
    requires Closed(cur, orig, width, height, target, queue, y, x, e)
    ensures var cur' := Paint(cur, width, height, Point(x, y), fill);
      var queue' := queue + Enqueued(cur', width, height, target, x, y);
      OnlyRegionChanged(cur', orig, width, height, target, fill, seed) &&
      QueueInRegion(queue', orig, width, height, target, seed) &&
      Closed(cur', orig, width, height, target, queue', y, x + 1, e) &&
      CountOf(cur', target) == CountOf(cur, target) - 1
  {
    IndexInRange(width, height, x, y);
    var p := Point(x, y);
    var cur' := Paint(cur, width, height, p, fill);
    var added := Enqueued(cur', width, height, target, x, y);
    var queue' := queue + added;
    CountUpdate(cur, Index(width, x, y), fill, target);
    forall q | InGrid(width, height, q) && Index(width, q.x, q.y) in queue'
      ensures InRegion(orig, width, height, target, seed, q)
    {
      if Index(width, q.x, q.y) !in queue {
        assert Index(width, q.x, q.y) in added;
        if 0 < y && Index(width, q.x, q.y) == Index(width, x, y - 1) {
          IndexInjective(width, q.x, q.y, x, y - 1);
        } else {
          IndexInjective(width, q.x, q.y, x, y + 1);
        }
        assert ColorAt(orig, width, height, q) == target;
        ExtendRegion(orig, width, height, target, seed, p, q);
      }
    }
    forall a, q | InGrid(width, height, a) && InGrid(width, height, q) && Adjacent(a, q) &&
      ColorAt(cur', width, height, a) != ColorAt(orig, width, height, a) &&
      ColorAt(cur', width, height, q) == target
      ensures Index(width, q.x, q.y) in queue' || (q.y == y && x + 1 <= q.x < e)
    {
      if a == p {
        PaintedNeighbours(cur', queue', width, height, target, y, x, e, q);
      }
    }
  }

  /** The invariant of the fill's queue loop: only region pixels have changed, every queued
      index is a region pixel inside the array, every target-coloured neighbour of a changed
      pixel is queued, and the seed has changed or is queued. */
  ghost predicate Filling(cur: seq<Color>, orig: seq<Color>, queue: seq<int>, width: nat, height: nat,
                          target: Color, fill: Color, seed: Point) {
    |cur| == |orig| == width * height && InGrid(width, height, seed) &&
    ColorAt(orig, width, height, seed) == target && target != fill &&
    OnlyRegionChanged(cur, orig, width, height, target, fill, seed) &&
    QueueInRegion(queue, orig, width, height, target, seed) &&
    Closed(cur, orig, width, height, target, queue, 0, 0, 0) &&
    (forall k :: 0 <= k < |queue| ==> 0 <= queue[k] < width * height) &&
    (ColorAt(cur, width, height, seed) != ColorAt(orig, width, height, seed) ||
     Index(width, seed.x, seed.y) in queue)
  }

  /** The invariant of the loop painting the run of columns (w, e) of row y, painted up to
      column x: the Filling invariant with the rest of the run counted as pending, the painted
      part holding the fill colour, the rest still the target colour, the run bounded by
      non-target pixels or the canvas edges, and the whole run inside the region. */
  ghost predicate Painting(cur: seq<Color>, orig: seq<Color>, queue: seq<int>, width: nat, height: nat,
                           target: Color, fill: Color, seed: Point, y: int, w: int, x: int, e: int) {
    |cur| == |orig| == width * height && InGrid(width, height, seed) &&
    ColorAt(orig, width, height, seed) == target && target != fill &&
    0 <= y < height && -1 <= w < width && w + 1 <= x && 0 <= e <= width && (x <= e || x == w + 1) &&
    OnlyRegionChanged(cur, orig, width, height, target, fill, seed) &&
    QueueInRegion(queue, orig, width, height, target, seed) &&
    Closed(cur, orig, width, height, target, queue, y, x, e) &&
    (forall k :: 0 <= k < |queue| ==> 0 <= queue[k] < width * height) &&
    (forall v :: x <= v < e ==> ColorAt(cur, width, height, Point(v, y)) == target) &&
    (forall v :: w < v < x && v < width ==> ColorAt(cur, width, height, Point(v, y)) == fill) &&
    (w == -1 || ColorAt(cur, width, height, Point(w, y)) != target) &&
    (e == width || ColorAt(cur, width, height, Point(e, y)) != target) &&
    (forall v :: w < v < e ==> InRegion(orig, width, height, target, seed, Point(v, y))) &&
    (ColorAt(cur, width, height, seed) != ColorAt(orig, width, height, seed) ||
     Index(width, seed.x, seed.y) in queue || (seed.y == y && x <= seed.x < e))
  }

  /** The queue loop starts with the seed alone in the queue. */
  lemma StartFill(c: seq<Color>, width: nat, height: nat, target: Color, fill: Color, seed: Point)
    requires |c| == width * height && InGrid(width, height, seed)
    requires ColorAt(c, width, height, seed) == target && target != fill
    ensures Filling(c, c, [Index(width, seed.x, seed.y)], width, height, target, fill, seed)
  {
    IndexInRange(width, height, seed.x, seed.y);
    SeedQueue(c, width, height, target, seed);
  }

  /** Taking index (cx, y) off the queue and scanning west to w and east to e starts the
      painting of the run (w, e). */
  lemma TakeRun(orig: seq<Color>, cur: seq<Color>, queue: seq<int>, width: nat, height: nat,
                target: Color, fill: Color, seed: Point, y: int, cx: int, w: int, e: int)
    requires Filling(cur, orig, queue, width, height, target, fill, seed)
    requires InGrid(width, height, Point(cx, y)) && |queue| > 0 && queue[0] == Index(width, cx, y)
    requires -1 <= w <= cx <= e <= width
    requires forall v :: w < v <= cx ==> ColorAt(cur, width, height, Point(v, y)) == target
    requires forall v :: cx <= v < e ==> ColorAt(cur, width, height, Point(v, y)) == target
    requires w == -1 || ColorAt(cur, width, height, Point(w, y)) != target
    requires e == width || ColorAt(cur, width, height, Point(e, y)) != target
    ensures Painting(cur, orig, queue[1..], width, height, target, fill, seed, y, w, w + 1, e)
  {
    var c := ColorAt(cur, width, height, Point(cx, y));
    assert c == target ==> w < cx < e;
    assert c != target ==> w == cx == e;
    DequeueStep(orig, cur, queue, width, height, target, fill, seed, y, cx, w, e);
    if Index(width, seed.x, seed.y) == queue[0] {
      IndexInjective(width, seed.x, seed.y, cx, y);
    } else if Index(width, seed.x, seed.y) in queue {
      var k :| 0 <= k < |queue| && queue[k] == Index(width, seed.x, seed.y);
      assert queue[1..][k - 1] == queue[k];
    }
  }

  /** Painting pixel x of a run leaves the rest of the run pending, extends the painted part by
      one pixel and keeps both ends of the run. */
  lemma PaintRunPixel(cur: seq<Color>, width: nat, height: nat, target: Color, fill: Color,
                      y: int, w: int, x: int, e: int)
    requires |cur| == width * height && 0 <= y < height && -1 <= w < x < e <= width && target != fill
    requires forall v :: x <= v < e ==> ColorAt(cur, width, height, Point(v, y)) == target
    requires forall v :: w < v < x && v < width ==> ColorAt(cur, width, height, Point(v, y)) == fill
    requires w == -1 || ColorAt(cur, width, height, Point(w, y)) != target
    requires e == width || ColorAt(cur, width, height, Point(e, y)) != target
    ensures var cur' := Paint(cur, width, height, Point(x, y), fill);
      (forall v :: x + 1 <= v < e ==> ColorAt(cur', width, height, Point(v, y)) == target) &&
      (forall v :: w < v < x + 1 && v < width ==> ColorAt(cur', width, height, Point(v, y)) == fill) &&
      (w == -1 || ColorAt(cur', width, height, Point(w, y)) != target) &&
      (e == width || ColorAt(cur', width, height, Point(e, y)) != target)
  {
  }

  /** Queueing the neighbours of a pixel keeps every queued index inside the array. */
  lemma EnqueuedInArray(queue: seq<int>, c: seq<Color>, width: nat, height: nat, target: Color, x: int, y: int)
    requires |c| == width * height && InGrid(width, height, Point(x, y))
    requires forall k :: 0 <= k < |queue| ==> 0 <= queue[k] < width * height
    ensures var queue' := queue + Enqueued(c, width, height, target, x, y);
      forall k :: 0 <= k < |queue'| ==> 0 <= queue'[k] < width * height
  {
    NeighbourIndices(c, width, height, target, x, y);
  }

  /** Painting pixel x of the run keeps the painting invariant one column further on, with the
      target-coloured pixels above and below queued and one target pixel fewer. */
  lemma PaintPixel(orig: seq<Color>, cur: seq<Color>, queue: seq<int>, width: nat, height: nat,
                   target: Color, fill: Color, seed: Point, y: int, w: int, x: int, e: int)
    requires Painting(cur, orig, queue, width, height, target, fill, seed, y, w, x, e) && x < e
    ensures var cur' := Paint(cur, width, height, Point(x, y), fill);
      Painting(cur', orig, queue + Enqueued(cur', width, height, target, x, y),
               width, height, target, fill, seed, y, w, x + 1, e) &&
      CountOf(cur', target) == CountOf(cur, target) - 1
  {
    var cur' := Paint(cur, width, height, Point(x, y), fill);
    var queue' := queue + Enqueued(cur', width, height, target, x, y);
    assert OnlyRegionChanged(cur', orig, width, height, target, fill, seed) &&
           QueueInRegion(queue', orig, width, height, target, seed) &&
           Closed(cur', orig, width, height, target, queue', y, x + 1, e) &&
           CountOf(cur', target) == CountOf(cur, target) - 1 by {
      assert 0 < x ==> ColorAt(cur, width, height, Point(x - 1, y)) != target;
      PaintStep(orig, cur, queue, width, height, target, fill, seed, y, x, e);
    }
    EnqueuedInArray(queue, cur', width, height, target, x, y);
    PaintRunPixel(cur, width, height, target, fill, y, w, x, e);
    assert ColorAt(cur', width, height, seed) != ColorAt(orig, width, height, seed) ||
           Index(width, seed.x, seed.y) in queue' || (seed.y == y && x + 1 <= seed.x < e) by {
      if Index(width, seed.x, seed.y) in queue {
        var k :| 0 <= k < |queue| && queue[k] == Index(width, seed.x, seed.y);
        assert queue'[k] == queue[k];
      }
    }
  }

  /** A fully painted run hands back to the queue loop. */
  lemma EndRun(orig: seq<Color>, cur: seq<Color>, queue: seq<int>, width: nat, height: nat,
               target: Color, fill: Color, seed: Point, y: int, w: int, x: int, e: int)
    requires Painting(cur, orig, queue, width, height, target, fill, seed, y, w, x, e) && e <= x
    ensures Filling(cur, orig, queue, width, height, target, fill, seed)
  {
    ClosedEmptyRun(cur, orig, width, height, target, queue, y, x, e);
  }

  /** Once no target-coloured neighbour of a changed pixel is left waiting, every walk from the
      changed seed through target pixels ends on a changed pixel. */
  lemma {:induction false} PathChanged(orig: seq<Color>, cur: seq<Color>, width: nat, height: nat,
                                       target: Color, fill: Color, seed: Point, path: seq<Point>)
    requires target != fill
    requires OnlyRegionChanged(cur, orig, width, height, target, fill, seed)
    requires Closed(cur, orig, width, height, target, [], 0, 0, 0)
    requires IsPath(orig, width, height, target, path) && path[0] == seed
    requires ColorAt(cur, width, height, seed) != ColorAt(orig, width, height, seed)
    ensures var p := path[|path| - 1]; ColorAt(cur, width, height, p) != ColorAt(orig, width, height, p)
    decreases |path|
  {
    if |path| > 1 {
      var prefix := path[..|path| - 1];
      assert IsPath(orig, width, height, target, prefix);
      PathChanged(orig, cur, width, height, target, fill, seed, prefix);
      assert Adjacent(path[|path| - 2], path[|path| - 1]);
    }
  }

  /** When the queue is empty and the seed has changed, the fill is exactly the seed's region. */
  lemma ClosedFillIsRegion(orig: seq<Color>, cur: seq<Color>, width: nat, height: nat,
                           target: Color, fill: Color, seed: Point)
    requires target != fill && |orig| == width * height && InGrid(width, height, seed)
    requires OnlyRegionChanged(cur, orig, width, height, target, fill, seed)
    requires Closed(cur, orig, width, height, target, [], 0, 0, 0)
    requires ColorAt(cur, width, height, seed) != ColorAt(orig, width, height, seed)
    ensures FloodFilled(orig, cur, width, height, target, fill, seed)
  {
    forall p | InGrid(width, height, p) && InRegion(orig, width, height, target, seed, p)
      ensures ColorAt(cur, width, height, p) == fill
    {
      var path :| IsPath(orig, width, height, target, path) && path[0] == seed && path[|path| - 1] == p;
      PathChanged(orig, cur, width, height, target, fill, seed, path);
    }
  }

  /** An empty queue ends the fill with exactly the seed's region painted. */
  lemma FinishFill(orig: seq<Color>, cur: seq<Color>, width: nat, height: nat,
                   target: Color, fill: Color, seed: Point)
    requires Filling(cur, orig, [], width, height, target, fill, seed)
    ensures FloodFilled(orig, cur, width, height, target, fill, seed)
  {
    ClosedFillIsRegion(orig, cur, width, height, target, fill, seed);
  }
}
