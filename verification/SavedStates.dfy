/** The ring of saved frames that bounds how far back a session can roll
    (crates/fofoca-netplay/src/saved_states.rs). */
module SavedStatesRing {
  import opened Timeline
  import opened Options
  import opened Requests

  // Which frame cell `i` holds once frames 0..count have been saved in a ring of `capacity` cells,
  // `head` being written next; `NULL_FRAME` when it was never used.
  function FrameAt(count: nat, head: nat, capacity: nat, i: nat): Frame {
    var f := if i < head then count - head + i else count - head + i - capacity;
    if f < 0 then NULL_FRAME else f
  }

  // Where frame `g` is.
  function CellOf(count: nat, head: nat, capacity: nat, g: nat): int {
    if head >= count - g then head - (count - g) else head - (count - g) + capacity
  }

  // The ring holds the last `capacity` frames and nothing else, one cell each.
  lemma RingIsWindow(count: nat, head: nat, capacity: nat, i: nat, g: nat)
    requires head < capacity && i < capacity && (count < capacity ==> head == count)
    ensures FrameAt(count, head, capacity, i) == g <==>
              count - capacity <= g < count && i == CellOf(count, head, capacity, g)
  {
  }

  lemma NextSlot(slot: nat, size: nat)
    requires slot < size
    ensures (slot + 1) % size == if slot + 1 == size then 0 else slot + 1
  {
  }

  class SavedStates<S> {
    const cells: seq<StateCell<S>>
    var head: nat

    // Capacity is two larger than the prediction window, and no cell is listed twice.
    ghost predicate Valid()
      reads this
    {
      && head < |cells|
      && forall i, j :: 0 <= i < j < |cells| ==> cells[i] != cells[j]
    }

    // The cells carry the frames of a run that has saved 0..count.
    ghost predicate Holds(count: nat)
      reads this, cells
    {
      && head < |cells|
      && (count < |cells| ==> head == count)
      && forall i :: 0 <= i < |cells| ==> cells[i].inner.frame == FrameAt(count, head, |cells|, i)
    }

    // No two cells claim one frame.
    lemma OneCellPerFrame(count: nat, i: nat, j: nat)
      requires Holds(count) && i < |cells| && j < |cells| && cells[i].inner.frame == cells[j].inner.frame != NULL_FRAME
      ensures i == j
    {
      RingIsWindow(count, head, |cells|, i, cells[i].inner.frame);
      RingIsWindow(count, head, |cells|, j, cells[i].inner.frame);
    }

    constructor (maxPrediction: nat)
      ensures Valid() && |cells| == maxPrediction + 2 && Holds(0) && head == 0
      ensures fresh(cells)
      ensures forall c :: c in cells ==> c.inner == CellInner(NULL_FRAME, None, None)
    {
      var made: seq<StateCell<S>> := [];
      while |made| < maxPrediction + 2
        invariant |made| <= maxPrediction + 2
        invariant fresh(made)
        invariant forall i, j :: 0 <= i < j < |made| ==> made[i] != made[j]
        invariant forall c :: c in made ==> c.inner == CellInner(NULL_FRAME, None, None)
      {
        var cell := new StateCell<S>();
        made := made + [cell];
      }
      cells := made;
      head := 0;
    }

    // Search the cells for a frame.
    method ByFrame(frame: Frame) returns (found: Option<StateCell<S>>)
      requires Valid()
      ensures found.Some? ==> found.value in cells && found.value.inner.frame == frame && frame != NULL_FRAME
      ensures found.None? <==> frame == NULL_FRAME || forall c :: c in cells ==> c.inner.frame != frame
      ensures forall count: nat :: Holds(count) && 0 <= frame < count && count - |cells| <= frame ==>
                found == Some(cells[CellOf(count, head, |cells|, frame)])
      ensures forall count: nat :: Holds(count) && frame >= count ==> found == None
    {
      if frame == NULL_FRAME {
        return None;
      }
      for i := 0 to |cells|
        invariant forall j :: 0 <= j < i ==> cells[j].inner.frame != frame
      {
        if cells[i].inner.frame == frame {
          forall count: nat | Holds(count) && frame >= 0
            ensures frame < count && count - |cells| <= frame && i == CellOf(count, head, |cells|, frame)
          {
            RingIsWindow(count, head, |cells|, i, frame);
          }
          return Some(cells[i]);
        }
      }
      forall count: nat | Holds(count) && 0 <= frame < count && count - |cells| <= frame
        ensures false
      {
        RingIsWindow(count, head, |cells|, CellOf(count, head, |cells|, frame), frame);
      }
      return None;
    }

    // Where to write a frame: over itself if it is there already, else over the oldest cell.
    method Push(frame: nat, ghost count: nat) returns (cell: StateCell<S>)
      requires Valid() && Holds(count) && count - |cells| <= frame <= count
      modifies this`head
      ensures Valid()
      ensures frame < count ==> head == old(head) && cell == cells[CellOf(count, head, |cells|, frame)]
      ensures frame == count ==> cell == cells[old(head)] && head == if old(head) + 1 == |cells| then 0 else old(head) + 1
    {
      var existing := ByFrame(frame);
      if existing.Some? {
        return existing.value;
      }
      assert Holds(count) && frame == count;
      NextSlot(head, |cells|);
      cell := cells[head];
      head := (head + 1) % |cells|;
    }
  }
}
