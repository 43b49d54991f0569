/** The index arithmetic of the canvas's undo history: MAX_UNDO buffer slots used as a ring,
    with a head (the current state), a tail (the oldest state kept) and a count of undone steps
    that Redo may replay. These functions are the specification that the fields of
    Drawing.Canvas follow, one function per operation. */
module UndoRing {

  /** MAX_UNDO, the number of buffer slots in the ring. */
  const MaxUndo: int := 5

  predicate IsSlot(i: int) {
    0 <= i < MaxUndo
  }

  /** How many forward steps lead from slot `from` to slot `to` around the ring. */
  function Steps(from: int, to: int): (d: int)
    requires IsSlot(from) && IsSlot(to)
    ensures 0 <= d < MaxUndo
    ensures d == 0 <==> from == to
  {
    (to - from + MaxUndo) % MaxUndo
  }

  /** The slot after i: `(i + 1) % _canvasBuffers.Length`. */
  function Next(i: int): (r: int)
    requires IsSlot(i)
    ensures IsSlot(r) && Steps(i, r) == 1
  {
    (i + 1) % MaxUndo
  }

  /** The slot before i: `(i - 1 + _canvasBuffers.Length) % _canvasBuffers.Length`. */
  function Prev(i: int): (r: int)
    requires IsSlot(i)
    ensures IsSlot(r) && Next(r) == i && r != i
  {
    (i - 1 + MaxUndo) % MaxUndo
  }

  /** `_canvasBufferHead`, `_canvasBufferTail` and `_numUndone`. */
  datatype Indices = Indices(head: int, tail: int, numUndone: int)

  /** How many Undo calls can still succeed: the states kept before the head. */
  function UndoDepth(s: Indices): (d: int)
    requires IsSlot(s.head) && IsSlot(s.tail)
    ensures 0 <= d < MaxUndo && (d == 0 <==> s.head == s.tail)
  {
    Steps(s.tail, s.head)
  }

  /** The ring invariant: both indices are slots, and the states before the head together with
      the undone states after it never take more than the slots other than the head's. */
  predicate Valid(s: Indices) {
    IsSlot(s.head) && IsSlot(s.tail) && 0 <= s.numUndone &&
    UndoDepth(s) + s.numUndone < MaxUndo
  }

  /** The initial indices set by CreateBuffers. */
  const Initial: Indices := Indices(0, 0, 0)

  /** What GetCanvasBuffer does to the indices: the head moves to the next slot, the tail moves
      on too when the ring was full (the oldest state is evicted), and nothing is left to redo. */
  function Acquire(s: Indices): (r: Indices)
    requires Valid(s)
    ensures Valid(r)
    ensures r.head == Next(s.head) && r.numUndone == 0
    ensures r.tail == (if UndoDepth(s) == MaxUndo - 1 then Next(s.tail) else s.tail)
    ensures UndoDepth(r) == (if UndoDepth(s) == MaxUndo - 1 then UndoDepth(s) else UndoDepth(s) + 1)
  {
    var newHead := Next(s.head);
    Indices(newHead, if newHead == s.tail then Next(s.tail) else s.tail, 0)
  }

  /** What Undo does to the indices: nothing when the head is the oldest state; otherwise the
      head steps back one slot and one more step can be redone. */
  function Undo(s: Indices): (r: Indices)
    requires Valid(s)
    ensures Valid(r)
    ensures s.head == s.tail ==> r == s
    ensures s.head != s.tail ==>
      r.tail == s.tail && Next(r.head) == s.head && r.numUndone == s.numUndone + 1 &&
      UndoDepth(r) == UndoDepth(s) - 1
  {
    if s.head != s.tail then Indices(Prev(s.head), s.tail, s.numUndone + 1) else s
  }

  /** What Redo does to the indices: nothing when no step is undone; otherwise the head steps
      forward one slot and one fewer step can be redone. */
  function Redo(s: Indices): (r: Indices)
    requires Valid(s)
    ensures Valid(r)
    ensures s.numUndone == 0 ==> r == s
    ensures s.numUndone > 0 ==>
      r.tail == s.tail && r.head == Next(s.head) && r.numUndone == s.numUndone - 1 &&
      UndoDepth(r) == UndoDepth(s) + 1
  {
    if s.numUndone > 0 then Indices(Next(s.head), s.tail, s.numUndone - 1) else s
  }

  /** A successful Undo followed by Redo restores the indices. */
  lemma UndoThenRedo(s: Indices)
    requires Valid(s) && s.head != s.tail
    ensures Redo(Undo(s)) == s
  {
  }

  /** A successful Redo followed by Undo restores the indices. */
  lemma RedoThenUndo(s: Indices)
    requires Valid(s) && s.numUndone > 0
    ensures Undo(Redo(s)) == s
  {
  }

  /** A fresh acquisition leaves nothing to redo, even if steps had been undone before it. */
  lemma RedoAfterAcquireIsNoOp(s: Indices)
    requires Valid(s)
    ensures Redo(Acquire(s)) == Acquire(s)
  {
  }

  /** n Undo calls in a row. */
  function UndoTimes(s: Indices, n: nat): (r: Indices)
    requires Valid(s)
    ensures Valid(r)
    decreases n
  {
    if n == 0 then s else UndoTimes(Undo(s), n - 1)
  }

  /** n GetCanvasBuffer calls in a row. */
  function AcquireTimes(s: Indices, n: nat): (r: Indices)
    requires Valid(s)
    ensures Valid(r)
    decreases n
  {
    if n == 0 then s else AcquireTimes(Acquire(s), n - 1)
  }

  /** n Undo calls succeed as long as there are states before the head: the depth shrinks by
      the number that succeed and the redo count grows by the same number. */
  lemma {:induction false} UndoTimesEffect(s: Indices, n: nat)
    requires Valid(s)
    ensures UndoDepth(UndoTimes(s, n)) == (if n < UndoDepth(s) then UndoDepth(s) - n else 0)
    ensures UndoTimes(s, n).numUndone == s.numUndone + (if n < UndoDepth(s) then n else UndoDepth(s))
    ensures UndoTimes(s, n).tail == s.tail
    decreases n
  {
    if n > 0 {
      UndoTimesEffect(Undo(s), n - 1);
    }
  }

  /** n acquisitions add n undoable states, up to the MaxUndo - 1 that fit beside the head. */
  lemma {:induction false} AcquireTimesEffect(s: Indices, n: nat)
    requires Valid(s)
    ensures UndoDepth(AcquireTimes(s, n)) ==
      (if UndoDepth(s) + n < MaxUndo - 1 then UndoDepth(s) + n else MaxUndo - 1)
    ensures n > 0 ==> AcquireTimes(s, n).numUndone == 0
    decreases n
  {
    if n > 0 {
      AcquireTimesEffect(Acquire(s), n - 1);
    }
  }

  /** From a state with no history, n edits followed by n undos return to the oldest state
      kept, where a further Undo changes nothing. */
  lemma EditsThenUndosReachOldest(s: Indices, n: nat)
    requires Valid(s) && s.head == s.tail
    ensures UndoTimes(AcquireTimes(s, n), n).head == UndoTimes(AcquireTimes(s, n), n).tail
    ensures Undo(UndoTimes(AcquireTimes(s, n), n)) == UndoTimes(AcquireTimes(s, n), n)
  {
    AcquireTimesEffect(s, n);
    UndoTimesEffect(AcquireTimes(s, n), n);
  }

  /** From any state at most MaxUndo - 1 Undo calls succeed. */
  lemma AtMostFourUndos(s: Indices)
    requires Valid(s)
    ensures UndoTimes(s, MaxUndo - 1).head == UndoTimes(s, MaxUndo - 1).tail
  {
    UndoTimesEffect(s, MaxUndo - 1);
  }
}

/** The history that the ring's slots hold, read through the indices: the states kept from the
    oldest (tail) to the current one (head), and the undone states that Redo can bring back. */
module History {
  import opened UndoRing

  /** The kept states, oldest first; the last one is the current state. */
  function PastOf<T>(slots: seq<T>, s: Indices): (p: seq<T>)
    requires |slots| == MaxUndo && Valid(s)
    ensures |p| == UndoDepth(s) + 1
    ensures p[0] == slots[s.tail] && p[|p| - 1] == slots[s.head]
  {
    seq(UndoDepth(s) + 1, k requires 0 <= k <= UndoDepth(s) => slots[(s.tail + k) % MaxUndo])
  }

  /** The undone states, the next one Redo brings back first. */
  function FutureOf<T>(slots: seq<T>, s: Indices): (f: seq<T>)
    requires |slots| == MaxUndo && Valid(s)
    ensures |f| == s.numUndone
  {
    seq(s.numUndone, k requires 0 <= k < s.numUndone => slots[(s.head + 1 + k) % MaxUndo])
  }

  /** The kept states once the oldest is evicted because every slot is in use. */
  function Retained<T>(past: seq<T>): (r: seq<T>)
    ensures |past| == MaxUndo ==> r == past[1..]
    ensures |past| != MaxUndo ==> r == past
  {
    if |past| == MaxUndo then past[1..] else past
  }

  /** Acquiring a slot and filling it with b appends b to the kept states (evicting the oldest
      when the ring is full) and forgets every undone state. */
  lemma AcquireHistory<T>(slots: seq<T>, s: Indices, b: T)
    requires |slots| == MaxUndo && Valid(s)
    ensures PastOf(slots[Next(s.head) := b], Acquire(s)) == Retained(PastOf(slots, s)) + [b]
    ensures FutureOf(slots[Next(s.head) := b], Acquire(s)) == []
  {
    var r := Acquire(s);
    var slots' := slots[Next(s.head) := b];
    var p, p' := PastOf(slots, s), PastOf(slots', r);
    var q := Retained(p) + [b];
    assert |p'| == |q|;
    forall k | 0 <= k < |p'|
      ensures p'[k] == q[k]
    {
      if k < |p'| - 1 {
        if UndoDepth(s) == MaxUndo - 1 {
          assert p'[k] == slots[(s.tail + k + 1) % MaxUndo];
        } else {
          assert p'[k] == slots[(s.tail + k) % MaxUndo];
        }
      }
    }
  }

  /** Replacing the content of the current slot replaces the last kept state only. */
  lemma ReplaceHeadHistory<T>(slots: seq<T>, s: Indices, b: T)
    requires |slots| == MaxUndo && Valid(s)
    ensures PastOf(slots[s.head := b], s) == PastOf(slots, s)[..UndoDepth(s)] + [b]
    ensures FutureOf(slots[s.head := b], s) == FutureOf(slots, s)
  {
    var p, p' := PastOf(slots, s), PastOf(slots[s.head := b], s);
    forall k | 0 <= k < UndoDepth(s)
      ensures p'[k] == p[k]
    {
      assert (s.tail + k) % MaxUndo != s.head;
    }
    assert p' == p[..UndoDepth(s)] + [b];
    var f, f' := FutureOf(slots, s), FutureOf(slots[s.head := b], s);
    forall k | 0 <= k < s.numUndone
      ensures f'[k] == f[k]
    {
      assert (s.head + 1 + k) % MaxUndo != s.head;
    }
  }

  /** A successful Undo moves the current state from the kept states to the front of the
      undone ones; the slots themselves are untouched. */
  lemma UndoHistory<T>(slots: seq<T>, s: Indices)
    requires |slots| == MaxUndo && Valid(s) && s.head != s.tail
    ensures PastOf(slots, Undo(s)) == PastOf(slots, s)[..UndoDepth(s)]
    ensures FutureOf(slots, Undo(s)) == [slots[s.head]] + FutureOf(slots, s)
  {
    var f, f' := FutureOf(slots, s), FutureOf(slots, Undo(s));
    assert |f'| == |[slots[s.head]] + f|;
    forall k | 0 <= k < |f'|
      ensures f'[k] == ([slots[s.head]] + f)[k]
    {
      if k > 0 {
        assert f'[k] == slots[(s.head + 1 + (k - 1)) % MaxUndo];
      }
    }
  }

  /** A successful Redo moves the first undone state back to the end of the kept states. */
  lemma RedoHistory<T>(slots: seq<T>, s: Indices)
    requires |slots| == MaxUndo && Valid(s) && s.numUndone > 0
    ensures PastOf(slots, Redo(s)) == PastOf(slots, s) + [FutureOf(slots, s)[0]]
    ensures FutureOf(slots, Redo(s)) == FutureOf(slots, s)[1..]
  {
    var p, p' := PastOf(slots, s), PastOf(slots, Redo(s));
    assert |p'| == |p + [FutureOf(slots, s)[0]]|;
    forall k | 0 <= k < |p'|
      ensures p'[k] == (p + [FutureOf(slots, s)[0]])[k]
    {
    }
  }
}
