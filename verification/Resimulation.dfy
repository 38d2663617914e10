/** The request lists a session hands to the game, and what fulfilling them leaves behind. */
module Resimulation {
  import opened Timeline
  import opened Options
  import opened Requests
  import opened SavedStatesRing

  // A player's input for frame `g`, as far as it is known.
  function KnownInput<I>(neutral: I, log: seq<I>, g: nat): (I, InputStatus) {
    (Known(neutral, log, g), if g < |log| then Confirmed else Predicted)
  }

  // Every player's.
  function KnownRow<I>(neutral: I, tracks: seq<Track<I>>, g: nat): seq<(I, InputStatus)> {
    seq(|tracks|, i requires 0 <= i < |tracks| => KnownInput(neutral, tracks[i].log, g))
  }

  // The input columns of the plain simulation of frames 0..n.
  function Plain<I>(neutral: I, tracks: seq<Track<I>>, n: nat): seq<seq<I>> {
    seq(|tracks|, i requires 0 <= i < |tracks| => KnownTo(neutral, tracks[i].log, n))
  }

  // A player's column has the real input wherever there is one, and from there on the last one repeated.
  lemma PlainIs<I>(neutral: I, tracks: seq<Track<I>>, n: nat, i: nat, g: nat)
    requires i < |tracks| && g < n
    ensures |Plain(neutral, tracks, n)| == |tracks| && |Plain(neutral, tracks, n)[i]| == n
    ensures g < |tracks[i].log| ==> Plain(neutral, tracks, n)[i][g] == tracks[i].log[g]
    ensures g >= |tracks[i].log| > 0 ==> Plain(neutral, tracks, n)[i][g] == tracks[i].log[|tracks[i].log| - 1]
    ensures tracks[i].log == [] ==> Plain(neutral, tracks, n)[i][g] == neutral
  {
  }

  // The state the plain simulation of frames 0..n ends in: every frame once, each player's real input
  // where it is known and that player's last real one where it is not.
  ghost function PlainState<S, I>(rules: Rules<S, I>, neutral: I, tracks: seq<Track<I>>, n: nat): S {
    Play(rules.step, rules.start, Plain(neutral, tracks, n), n)
  }

  function Served<I>(tracks: seq<Track<I>>): seq<seq<I>> {
    seq(|tracks|, i requires 0 <= i < |tracks| => tracks[i].served)
  }

  // Frames from..to over again: save each one, then advance past it.
  ghost function Replay<S, I>(neutral: I, tracks: seq<Track<I>>, cells: seq<StateCell<S>>, head: nat, count: nat,
                              from: nat, upto: nat): seq<Request<S, I>>
    requires upto <= count && count - |cells| <= from && head < |cells|
  {
    if from >= upto then []
    else
      Replay(neutral, tracks, cells, head, count, from, upto - 1)
      + [SaveState(cells[CellOf(count, head, |cells|, upto - 1)], upto - 1),
         AdvanceFrame(KnownRow(neutral, tracks, upto - 1))]
  }

  // The whole list of one advance: the replay of frames seek..count if there is something to undo,
  // then the new frame.
  ghost function Requested<S, I>(neutral: I, tracks: seq<Track<I>>, cells: seq<StateCell<S>>, head: nat, count: nat,
                                 seek: Frame): seq<Request<S, I>>
    requires seek == NULL_FRAME || (0 <= seek < count && count - |cells| <= seek)
    requires head < |cells|
  {
    Undo(neutral, tracks, cells, head, count, seek)
    + [SaveState(cells[head], count), AdvanceFrame(KnownRow(neutral, tracks, count))]
  }

  // What a cell holds once frame `g` of the given columns has been saved in it.
  ghost function Snapshot<S, I>(rules: Rules<S, I>, columns: seq<seq<I>>, g: nat): CellInner<S>
    requires forall i :: 0 <= i < |columns| ==> g <= |columns[i]|
  {
    var s := Play(rules.step, rules.start, columns, g);
    CellInner(g, Some(s), Some(rules.hash(s)))
  }

  // Cell `i` holds the snapshot of the frame its place in the ring says, or was never used.
  ghost predicate CellRight<S, I>(rules: Rules<S, I>, columns: seq<seq<I>>, count: nat, head: nat, capacity: nat,
                                  i: nat, inner: CellInner<S>)
    requires forall i :: 0 <= i < |columns| ==> count == |columns[i]|
    requires i < capacity && head < capacity
  {
    var f := FrameAt(count, head, capacity, i);
    if f == NULL_FRAME then inner.frame == NULL_FRAME
    else f < count && inner == Snapshot(rules, columns, f)
  }

  // The game and the ring of cells are where the columns, simulated up to frame `count`, put them.
  ghost predicate Mirrors<S, I>(rules: Rules<S, I>, columns: seq<seq<I>>, count: nat, cells: seq<StateCell<S>>,
                                head: nat, w: World<S>) {
    && head < |cells|
    && (count < |cells| ==> head == count)
    && (forall i, j :: 0 <= i < j < |cells| ==> cells[i] != cells[j])
    && (forall i :: 0 <= i < |columns| ==> count == |columns[i]|)
    && w.state == Play(rules.step, rules.start, columns, count)
    && w.store.Keys == (set c | c in cells)
    && forall i :: 0 <= i < |cells| ==> cells[i] in w.store && CellRight(rules, columns, count, head, |cells|, i, w.store[cells[i]])
  }

  lemma MirrorsShape<S, I>(rules: Rules<S, I>, columns: seq<seq<I>>, count: nat, cells: seq<StateCell<S>>, head: nat,
                           w: World<S>)
    requires Mirrors(rules, columns, count, cells, head, w)
    ensures head < |cells| && forall i :: 0 <= i < |columns| ==> count == |columns[i]|
  {
  }

  lemma KnownRowIsRow<I>(neutral: I, tracks: seq<Track<I>>, g: nat, n: nat)
    requires g < n
    ensures Inputs(KnownRow(neutral, tracks, g)) == Row(Plain(neutral, tracks, n), g)
  {
  }

  lemma PlainPrefix<S, I>(rules: Rules<S, I>, neutral: I, tracks: seq<Track<I>>, n: nat, m: nat, k: nat)
    requires k <= n && k <= m
    ensures Play(rules.step, rules.start, Plain(neutral, tracks, n), k)
         == Play(rules.step, rules.start, Plain(neutral, tracks, m), k)
  {
    forall i | 0 <= i < |tracks|
      ensures KnownTo(neutral, tracks[i].log, n)[..k] == KnownTo(neutral, tracks[i].log, m)[..k]
    {
    }
    PlayReads(rules.step, rules.start, Plain(neutral, tracks, n), Plain(neutral, tracks, m), k);
  }

  // One replayed frame.
  lemma ReplayStep<S, I>(rules: Rules<S, I>, neutral: I, tracks: seq<Track<I>>, cell: StateCell<S>, g: nat, n: nat,
                         w: World<S>)
    requires g < n
    requires w.state == Play(rules.step, rules.start, Plain(neutral, tracks, n), g)
    ensures var after := Perform(rules, Perform(rules, w, SaveState(cell, g)),
        AdvanceFrame(KnownRow(neutral, tracks, g)));
            && after.state == Play(rules.step, rules.start, Plain(neutral, tracks, n), g + 1)
            && after.store == w.store[cell := Snapshot(rules, Plain(neutral, tracks, n), g)]
  {
    KnownRowIsRow(neutral, tracks, g, n);
  }

  // The store once frames from..to have been saved over, each in the cell that already held it.
  ghost function SavedOver<S, I>(rules: Rules<S, I>, columns: seq<seq<I>>, cells: seq<StateCell<S>>, head: nat,
                                 count: nat,
                                 store: map<StateCell<S>, CellInner<S>>, from: nat, upto: nat): map<StateCell<S>,
                                 CellInner<S>>
    requires upto <= count && count - |cells| <= from && head < |cells|
    requires forall i :: 0 <= i < |columns| ==> upto <= |columns[i]|
  {
    if from >= upto then store
    else SavedOver(rules, columns, cells, head, count, store, from, upto - 1)
           [cells[CellOf(count, head, |cells|, upto - 1)] := Snapshot(rules, columns, upto - 1)]
  }

  // One more frame replayed.
  lemma ReplayOneMore<S, I>(rules: Rules<S, I>, neutral: I, tracks: seq<Track<I>>, cell: StateCell<S>, g: nat, n: nat,
                            w: World<S>, before: seq<Request<S, I>>, store: map<StateCell<S>, CellInner<S>>)
    requires g < n && PerformAll(rules, w, before) == World(Play(rules.step, rules.start, Plain(neutral, tracks, n), g), store)
    ensures PerformAll(rules, w, before + [SaveState(cell, g), AdvanceFrame(KnownRow(neutral, tracks, g))])
         == World(Play(rules.step, rules.start, Plain(neutral, tracks, n), g + 1),
                  store[cell := Snapshot(rules, Plain(neutral, tracks, n), g)])
  {
    var save, advance := SaveState(cell, g), AdvanceFrame(KnownRow(neutral, tracks, g));
    PerformOneMore(rules, w, before, save);
    PerformOneMore(rules, w, before + [save], advance);
    assert before + [save, advance] == before + [save] + [advance];
    ReplayStep(rules, neutral, tracks, cell, g, n, PerformAll(rules, w, before));
  }

  // Replaying frames from..to from the right state leaves the right state, and overwrites exactly
  // the cells of the frames it replays.
  lemma {:induction false} ReplayPlays<S, I>(rules: Rules<S, I>, neutral: I, tracks: seq<Track<I>>,
                                             cells: seq<StateCell<S>>,
                                             head: nat, count: nat, from: nat, upto: nat, w: World<S>)
    requires from <= upto <= count && count - |cells| <= from && head < |cells|
    requires w.state == Play(rules.step, rules.start, Plain(neutral, tracks, count), from)
    ensures PerformAll(rules, w, Replay(neutral, tracks, cells, head, count, from, upto))
         == World(Play(rules.step, rules.start, Plain(neutral, tracks, count), upto),
                  SavedOver(rules, Plain(neutral, tracks, count), cells, head, count, w.store, from, upto))
  {
    hide Perform, Play, KnownRow, KnownTo, Snapshot;
    if from < upto {
      ReplayPlays(rules, neutral, tracks, cells, head, count, from, upto - 1, w);
      hide PerformAll;
      ReplayOneMore(rules, neutral, tracks, cells[CellOf(count, head, |cells|, upto - 1)], upto - 1, count, w,
                    Replay(neutral, tracks, cells, head, count, from, upto - 1),
                    SavedOver(rules, Plain(neutral, tracks, count), cells, head, count, w.store, from, upto - 1));
    }
  }

  lemma {:induction false} SavedOverAt<S, I>(rules: Rules<S, I>, columns: seq<seq<I>>, cells: seq<StateCell<S>>,
                                             head: nat, count: nat,
                                             store: map<StateCell<S>, CellInner<S>>, from: nat, upto: nat, i: nat)
    requires upto <= count && count - |cells| <= from <= upto && head < |cells|
    requires forall i :: 0 <= i < |columns| ==> upto <= |columns[i]|
    requires forall i, j :: 0 <= i < j < |cells| ==> cells[i] != cells[j]
    requires count < |cells| ==> head == count
    requires i < |cells| && cells[i] in store && store.Keys == (set c | c in cells)
    ensures SavedOver(rules, columns, cells, head, count, store, from, upto).Keys == store.Keys
    ensures var f := FrameAt(count, head, |cells|, i);
            SavedOver(rules, columns, cells, head, count, store, from, upto)[cells[i]]
            == if from <= f < upto then Snapshot(rules, columns, f) else store[cells[i]]
    decreases upto
  {
    hide SavedOver, Snapshot, CellOf, FrameAt;
    if from < upto {
      SavedOverAt(rules, columns, cells, head, count, store, from, upto - 1, i);
      SavedOneMore(rules, columns, cells, head, count, store, from, upto);
      RingIsWindow(count, head, |cells|, i, upto - 1);
      var at := CellOf(count, head, |cells|, upto - 1);
      if i != at {
        assert cells[i] != cells[at];
      }
    } else {
      NoneSavedOver(rules, columns, cells, head, count, store, from);
    }
  }

  lemma NoneSavedOver<S, I>(rules: Rules<S, I>, columns: seq<seq<I>>, cells: seq<StateCell<S>>, head: nat, count: nat,
                            store: map<StateCell<S>, CellInner<S>>, from: nat)
    requires from <= count && count - |cells| <= from && head < |cells|
    requires forall i :: 0 <= i < |columns| ==> from <= |columns[i]|
    ensures SavedOver(rules, columns, cells, head, count, store, from, from) == store
  {
  }

  lemma SavedOneMore<S, I>(rules: Rules<S, I>, columns: seq<seq<I>>, cells: seq<StateCell<S>>, head: nat, count: nat,
                           store: map<StateCell<S>, CellInner<S>>, from: nat, upto: nat)
    requires from < upto <= count && count - |cells| <= from && head < |cells|
    requires forall i :: 0 <= i < |columns| ==> upto <= |columns[i]|
    ensures 0 <= CellOf(count, head, |cells|, upto - 1) < |cells|
    ensures SavedOver(rules, columns, cells, head, count, store, from, upto)
         == SavedOver(rules, columns, cells, head, count, store, from, upto - 1)
              [cells[CellOf(count, head, |cells|, upto - 1)] := Snapshot(rules, columns, upto - 1)]
  {
  }

  // Up to a frame before which nothing was wrong, the old columns and the known ones simulate alike.
  lemma SettledPlaysPlain<S, I>(rules: Rules<S, I>, neutral: I, before: seq<seq<I>>, tracks: seq<Track<I>>,
                                settled: nat, g: nat, n: nat)
    requires |before| == |tracks| && g <= settled <= n
    requires forall i :: 0 <= i < |tracks| ==> settled <= |before[i]| && before[i][..settled] == KnownTo(neutral, tracks[i].log, settled)
    ensures Play(rules.step, rules.start, before, g) == Play(rules.step, rules.start, Plain(neutral, tracks, n), g)
  {
    var columns := Plain(neutral, tracks, n);
    forall i | 0 <= i < |tracks| ensures before[i][..g] == columns[i][..g] {
      assert before[i][..g] == before[i][..settled][..g];
    }
    PlayReads(rules.step, rules.start, before, columns, g);
  }

  ghost function Undo<S, I>(neutral: I, tracks: seq<Track<I>>, cells: seq<StateCell<S>>, head: nat, count: nat,
                            seek: Frame): seq<Request<S, I>>
    requires seek == NULL_FRAME || (0 <= seek < count && count - |cells| <= seek)
    requires head < |cells|
  {
    if seek == NULL_FRAME then []
    else [LoadState(cells[CellOf(count, head, |cells|, seek)])]
         + Replay(neutral, tracks, cells, head, count, seek, count)
  }

  // Once the frames from `from` on have been saved over, a cell that was right under the old columns is
  // right under the new ones.
  lemma RedoneCell<S, I>(rules: Rules<S, I>, before: seq<seq<I>>, columns: seq<seq<I>>, cells: seq<StateCell<S>>,
                         head: nat, count: nat, store: map<StateCell<S>, CellInner<S>>, from: nat, i: nat)
    requires head < |cells| && (count < |cells| ==> head == count) && i < |cells|
    requires forall i, j :: 0 <= i < j < |cells| ==> cells[i] != cells[j]
    requires from <= count && count - |cells| <= from && cells[i] in store && store.Keys == (set c | c in cells)
    requires (forall k :: 0 <= k < |before| ==> |before[k]| == count) &&
        (forall k :: 0 <= k < |columns| ==> |columns[k]| == count)
    requires forall g: nat :: g <= from ==> Play(rules.step, rules.start, before, g) == Play(rules.step, rules.start, columns, g)
    requires CellRight(rules, before, count, head, |cells|, i, store[cells[i]])
    ensures var saved := SavedOver(rules, columns, cells, head, count, store, from, count);
            && saved.Keys == store.Keys
            && CellRight(rules, columns, count, head, |cells|, i, saved[cells[i]])
  {
    hide SavedOver, Play;
    SavedOverAt(rules, columns, cells, head, count, store, from, count, i);
  }

  lemma LoadPlays<S, I>(rules: Rules<S, I>, before: seq<seq<I>>, cells: seq<StateCell<S>>, head: nat, count: nat,
                        seek: nat, w: World<S>)
    requires Mirrors(rules, before, count, cells, head, w) && seek < count && count - |cells| <= seek
    ensures Perform(rules, w, LoadState(cells[CellOf(count, head, |cells|, seek)]))
         == World(Play(rules.step, rules.start, before, seek), w.store)
  {
    hide Play;
    var at := CellOf(count, head, |cells|, seek);
    RingIsWindow(count, head, |cells|, at, seek);
    assert CellRight(rules, before, count, head, |cells|, at, w.store[cells[at]]);
  }

  // The replay makes every cell right, and leaves the game where the known inputs put it.
  lemma RedonePlays<S, I>(rules: Rules<S, I>, before: seq<seq<I>>, columns: seq<seq<I>>, cells: seq<StateCell<S>>,
                          head: nat, count: nat, seek: nat, w: World<S>)
    requires Mirrors(rules, before, count, cells, head, w) && seek < count && count - |cells| <= seek
    requires forall k :: 0 <= k < |columns| ==> |columns[k]| == count
    requires forall g: nat :: g <= seek ==> Play(rules.step, rules.start, before, g) == Play(rules.step, rules.start, columns, g)
    ensures Mirrors(rules, columns, count, cells, head,
                    World(Play(rules.step, rules.start, columns, count),
                          SavedOver(rules, columns, cells, head, count, w.store, seek, count)))
  {
    hide SavedOver, CellRight, Play;
    var saved := SavedOver(rules, columns, cells, head, count, w.store, seek, count);
    forall i | 0 <= i < |cells|
      ensures cells[i] in saved && CellRight(rules, columns, count, head, |cells|, i, saved[cells[i]])
      ensures saved.Keys == w.store.Keys
    {
      assert CellRight(rules, before, count, head, |cells|, i, w.store[cells[i]]);
      RedoneCell(rules, before, columns, cells, head, count, w.store, seek, i);
    }
    assert cells[0] in saved;
  }

  // Undoing a misprediction: load the last right state and replay from it.
  lemma UndoPlays<S, I>(rules: Rules<S, I>, neutral: I, before: seq<seq<I>>, tracks: seq<Track<I>>,
                        cells: seq<StateCell<S>>,
                        head: nat, count: nat, seek: Frame, w: World<S>)
    requires Mirrors(rules, before, count, cells, head, w) && |before| == |tracks|
    requires seek == NULL_FRAME || (0 <= seek < count && count - |cells| <= seek)
    requires var settled := if seek == NULL_FRAME then count else seek;
             forall i :: 0 <= i < |tracks| ==> before[i][..settled] == KnownTo(neutral, tracks[i].log, settled)
    ensures Mirrors(rules, Plain(neutral, tracks, count), count, cells, head,
                    PerformAll(rules, w, Undo(neutral, tracks, cells, head, count, seek)))
  {
    hide Play, CellRight;
    var columns := Plain(neutral, tracks, count);
    if seek == NULL_FRAME {
      forall i | 0 <= i < |tracks| ensures before[i] == columns[i] {
        assert before[i] == before[i][..count];
      }
      assert before == columns;
      return;
    }
    forall g: nat | g <= seek
      ensures Play(rules.step, rules.start, before, g) == Play(rules.step, rules.start, columns, g)
    {
      SettledPlaysPlain(rules, neutral, before, tracks, seek, g, count);
    }
    hide Mirrors, SavedOver, Replay, Perform, KnownTo, Plain;
    LoadPlays(rules, before, cells, head, count, seek, w);
    var load, again := LoadState(cells[CellOf(count, head, |cells|, seek)]),
                       Replay(neutral, tracks, cells, head, count, seek, count);
    PerformFirst(rules, w, load, again);
    ReplayPlays(rules, neutral, tracks, cells, head, count, seek, count, Perform(rules, w, load));
    RedonePlays(rules, before, columns, cells, head, count, seek, w);
  }

  // Saving the newest frame in the next slot leaves the other cells right, and makes that one right.
  lemma StaysRight<S, I>(rules: Rules<S, I>, columns: seq<seq<I>>, longer: seq<seq<I>>, count: nat, head: nat,
                         capacity: nat, i: nat,
                         inner: CellInner<S>)
    requires head < capacity && i < capacity && (count < capacity ==> head == count)
    requires (forall k :: 0 <= k < |columns| ==> |columns[k]| == count) &&
        (forall k :: 0 <= k < |longer| ==> |longer[k]| == count + 1)
    requires forall g: nat :: g <= count ==> Play(rules.step, rules.start, columns, g) == Play(rules.step, rules.start, longer, g)
    requires CellRight(rules, columns, count, head, capacity, i, inner)
    ensures var next := if head + 1 == capacity then 0 else head + 1;
            CellRight(rules, longer, count + 1, next, capacity, i,
                if i == head then Snapshot(rules, longer, count) else inner)
  {
  }

  lemma NewFrameRight<S, I>(rules: Rules<S, I>, columns: seq<seq<I>>, longer: seq<seq<I>>, cells: seq<StateCell<S>>,
                            head: nat, count: nat, w: World<S>)
    requires Mirrors(rules, columns, count, cells, head, w)
    requires forall k :: 0 <= k < |longer| ==> |longer[k]| == count + 1
    requires forall g: nat :: g <= count ==> Play(rules.step, rules.start, columns, g) == Play(rules.step, rules.start, longer, g)
    ensures Mirrors(rules, longer, count + 1, cells, if head + 1 == |cells| then 0 else head + 1,
                    World(Play(rules.step, rules.start, longer, count + 1),
                          w.store[cells[head] := Snapshot(rules, longer, count)]))
  {
    hide Play, CellRight, Snapshot;
    var next := if head + 1 == |cells| then 0 else head + 1;
    var store := w.store[cells[head] := Snapshot(rules, longer, count)];
    forall i | 0 <= i < |cells|
      ensures cells[i] in store && CellRight(rules, longer, count + 1, next, |cells|, i, store[cells[i]])
    {
      assert CellRight(rules, columns, count, head, |cells|, i, w.store[cells[i]]);
      assert i != head ==> cells[i] != cells[head];
      StaysRight(rules, columns, longer, count, head, |cells|, i, w.store[cells[i]]);
    }
    assert cells[head] in w.store;
    assert store.Keys == w.store.Keys;
  }

  // The new frame: save the current state over the oldest cell, then advance.
  lemma NewFramePlays<S, I>(rules: Rules<S, I>, neutral: I, tracks: seq<Track<I>>, cells: seq<StateCell<S>>,
                            head: nat, count: nat, w: World<S>)
    requires Mirrors(rules, Plain(neutral, tracks, count), count, cells, head, w)
    ensures Mirrors(rules, Plain(neutral, tracks, count + 1), count + 1, cells,
                    if head + 1 == |cells| then 0 else head + 1,
                    Perform(rules, Perform(rules, w, SaveState(cells[head], count)),
                            AdvanceFrame(KnownRow(neutral, tracks, count))))
  {
    hide KnownRow, KnownTo, CellRight, Perform;
    var columns, longer := Plain(neutral, tracks, count), Plain(neutral, tracks, count + 1);
    forall g: nat | g <= count
      ensures Play(rules.step, rules.start, columns, g) == Play(rules.step, rules.start, longer, g)
    {
      PlainPrefix(rules, neutral, tracks, count, count + 1, g);
    }
    hide Play, Snapshot;
    ReplayStep(rules, neutral, tracks, cells[head], count, count + 1, w);
    NewFrameRight(rules, columns, longer, cells, head, count, w);
  }

  // Rolling back to a frame before which nothing was wrong, or not at all, and fulfilling the whole
  // list of requests leaves the game and every cell where the plain simulation puts them.
  lemma AdvancePlays<S, I>(rules: Rules<S, I>, neutral: I, before: seq<seq<I>>, tracks: seq<Track<I>>,
                           cells: seq<StateCell<S>>,
                           head: nat, count: nat, seek: Frame, w: World<S>)
    requires Mirrors(rules, before, count, cells, head, w) && |before| == |tracks|
    requires seek == NULL_FRAME || (0 <= seek < count && count - |cells| <= seek)
    requires var settled := if seek == NULL_FRAME then count else seek;
             forall i :: 0 <= i < |tracks| ==> before[i][..settled] == KnownTo(neutral, tracks[i].log, settled)
    ensures Mirrors(rules, Plain(neutral, tracks, count + 1), count + 1, cells,
                    if head + 1 == |cells| then 0 else head + 1,
                    PerformAll(rules, w, Requested(neutral, tracks, cells, head, count, seek)))
  {
    MirrorsShape(rules, before, count, cells, head, w);
    hide Mirrors, Undo, Perform, Play, Plain, KnownTo, KnownRow;
    UndoPlays(rules, neutral, before, tracks, cells, head, count, seek, w);
    var undo := Undo(neutral, tracks, cells, head, count, seek);
    NewFramePlays(rules, neutral, tracks, cells, head, count, PerformAll(rules, w, undo));
    var save, advance := SaveState(cells[head], count), AdvanceFrame(KnownRow(neutral, tracks, count));
    PerformOneMore(rules, w, undo, save);
    PerformOneMore(rules, w, undo + [save], advance);
    assert undo + [save, advance] == undo + [save] + [advance];
  }
}
