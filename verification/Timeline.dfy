/** What a rollback session is meant to compute, with no prediction bookkeeping in it.

    One player's side of a match is a `Track`: the real inputs filed so far, one per frame from
    frame 0, and the inputs the simulation was last given for frames 0, 1, 2, ... The rollback engine
    is correct when every track's served inputs are what the real inputs alone would dictate. */
module Timeline {
  type Frame = int

  // "No frame": an empty slot, a queue with nothing in it, the absence of a misprediction.
  const NULL_FRAME: Frame := -1

  datatype InputStatus = Confirmed | Predicted

  datatype Track<I> = Track(log: seq<I>, served: seq<I>)

  // The input of frame `g` as far as it is known: the real one, else the player's last real one,
  // else the default.
  function Known<I>(neutral: I, log: seq<I>, g: nat): I {
    if g < |log| then log[g] else if log == [] then neutral else log[|log| - 1]
  }

  function KnownTo<I>(neutral: I, log: seq<I>, n: nat): (r: seq<I>)
    ensures |r| == n
  {
    seq(n, g requires 0 <= g < n => Known(neutral, log, g))
  }

  // The least frame at or after `from` that is both real and simulated, and differs.
  function LeastMismatch<I(==)>(log: seq<I>, served: seq<I>, from: nat := 0): (r: Frame)
    ensures r == NULL_FRAME || (from <= r < |log| && r < |served| && log[r] != served[r])
    ensures forall g :: from <= g < |log| && g < |served| && (r == NULL_FRAME || g < r) ==> log[g] == served[g]
    decreases |log| - from
  {
    if from >= |log| || from >= |served| then NULL_FRAME
    else if log[from] != served[from] then from
    else LeastMismatch(log, served, from + 1)
  }

  // Every prediction that has not been contradicted still equals the last real input. This is what
  // a session may rely on between two frames; nothing is promised past a contradiction.
  ghost predicate Consistent<I>(neutral: I, t: Track<I>) {
    LeastMismatch(t.log, t.served) == NULL_FRAME ==> Settled(neutral, t)
  }

  // The simulation was given exactly what the known inputs dictate.
  ghost predicate Settled<I>(neutral: I, t: Track<I>) {
    t.served == KnownTo(neutral, t.log, |t.served|)
  }

  // `InputQueue::add_input`: an input made at `frame` is filed `delay` frames later, the gap being
  // bridged by repeating the last one; an input that would land in the past is dropped.
  function Filed<I>(neutral: I, log: seq<I>, frame: nat, delay: nat, input: I): seq<I> {
    if frame + delay < |log| then log else KnownTo(neutral, log, frame + delay) + [input]
  }

  // A run of inputs, each for its own frame, filed one after another with no delay.
  function FiledRun<I>(neutral: I, log: seq<I>, run: seq<(Frame, I)>): seq<I>
    requires forall i :: 0 <= i < |run| ==> 0 <= run[i].0
  {
    if run == [] then log
    else
      var n := |run| - 1;
      Filed(neutral, FiledRun(neutral, log, run[..n]), run[n].0, 0, run[n].1)
  }

  // Each input is for the frame after the previous one, the first for a frame past the log, and for
  // the very next one if there is a log already.
  predicate Contiguous<I>(logLength: nat, run: seq<(Frame, I)>) {
    && (forall i :: 0 <= i < |run| ==> run[i].0 == run[0].0 + i && logLength <= run[i].0)
    && (run != [] && logLength > 0 ==> run[0].0 == logLength)
  }

  // Filing a contiguous run appends it, after filling the frames below a first run that starts late.
  lemma {:induction false} FilingRunAppends<I>(neutral: I, log: seq<I>, run: seq<(Frame, I)>)
    requires Contiguous(|log|, run)
    ensures var filed := FiledRun(neutral, log, run);
            if run == [] then filed == log
            else
              && |filed| == run[|run| - 1].0 + 1
              && filed[..run[0].0] == KnownTo(neutral, log, run[0].0)
              && forall i :: 0 <= i < |run| ==> filed[run[i].0] == run[i].1
    decreases |run|
  {
    if run != [] {
      var n := |run| - 1;
      FilingRunAppends(neutral, log, run[..n]);
      var filed := FiledRun(neutral, log, run[..n]);
      if n > 0 {
        assert KnownTo(neutral, filed, run[n].0) == filed;
      }
    }
  }

  lemma MismatchIs<I>(log: seq<I>, served: seq<I>, r: Frame)
    requires r == NULL_FRAME || (0 <= r < |log| && r < |served| && log[r] != served[r])
    requires forall g :: 0 <= g < |log| && g < |served| && (r == NULL_FRAME || g < r) ==> log[g] == served[g]
    ensures LeastMismatch(log, served) == r
  {
  }

  lemma KnownToPrefix<I>(neutral: I, log: seq<I>, n: nat)
    ensures n <= |log| ==> KnownTo(neutral, log, n) == log[..n]
    ensures n >= |log| ==> KnownTo(neutral, log, n)[..|log|] == log
  {
  }

  // Repeating the last input once more extends what is known by one frame.
  lemma KnownToGrows<I>(neutral: I, log: seq<I>, n: nat)
    requires |log| <= n
    ensures KnownTo(neutral, log, n) + [Known(neutral, KnownTo(neutral, log, n), n)] == KnownTo(neutral, log, n + 1)
  {
  }

  // Filing one more real input leaves a mismatch in place, or finds the first one, or finds none
  // and keeps the track consistent.
  lemma FilingOne<I>(neutral: I, t: Track<I>, input: I)
    requires Consistent(neutral, t)
    ensures Consistent(neutral, Track(t.log + [input], t.served))
    ensures LeastMismatch(t.log + [input], t.served) ==
            if LeastMismatch(t.log, t.served) != NULL_FRAME then LeastMismatch(t.log, t.served)
            else if |t.log| < |t.served| && input != Known(neutral, t.log, |t.log|) then |t.log|
            else NULL_FRAME
  {
    var before := LeastMismatch(t.log, t.served);
    var log := t.log + [input];
    if before == NULL_FRAME {
      assert forall g :: 0 <= g < |t.served| ==> t.served[g] == Known(neutral, t.log, g);
      if |t.log| < |t.served| && input != Known(neutral, t.log, |t.log|) {
        MismatchIs(log, t.served, |t.log|);
      } else {
        MismatchIs(log, t.served, NULL_FRAME);
      }
    } else {
      MismatchIs(log, t.served, before);
    }
  }

  // Filing through the delay keeps a track consistent, and can only bring to light a mismatch at a
  // frame that was not real before.
  lemma {:induction false} FilingKeeps<I>(neutral: I, t: Track<I>, upto: nat)
    requires Consistent(neutral, t) && |t.log| <= upto
    ensures Consistent(neutral, Track(KnownTo(neutral, t.log, upto), t.served))
    ensures LeastMismatch(KnownTo(neutral, t.log, upto), t.served) == LeastMismatch(t.log, t.served)
    decreases upto - |t.log|
  {
  }

  // Cutting the simulation back to a frame at or before the first contradiction leaves a settled
  // track: everything before that frame was right.
  lemma RewindSettles<I>(neutral: I, t: Track<I>, frame: nat)
    requires Consistent(neutral, t) && frame <= |t.served|
    requires LeastMismatch(t.log, t.served) == NULL_FRAME || frame <= LeastMismatch(t.log, t.served)
    ensures Settled(neutral, Track(t.log, t.served[..frame]))
    ensures LeastMismatch(t.log, t.served[..frame]) == NULL_FRAME
  {
  }

  // Serving the next frame what is known about it keeps a settled track settled.
  lemma ServingSettles<I>(neutral: I, t: Track<I>)
    requires Settled(neutral, t)
    ensures Settled(neutral, Track(t.log, t.served + [Known(neutral, t.log, |t.served|)]))
    ensures LeastMismatch(t.log, t.served + [Known(neutral, t.log, |t.served|)]) == NULL_FRAME
  {
  }

  lemma SettledIsKnown<I>(neutral: I, t: Track<I>)
    requires Settled(neutral, t)
    ensures forall g :: 0 <= g < |t.served| ==> t.served[g] == Known(neutral, t.log, g)
  {
  }

  // ---- The plain simulation ----

  // Frame `g`'s inputs, in handle order.
  function Row<I>(columns: seq<seq<I>>, g: nat): seq<I>
    requires forall i :: 0 <= i < |columns| ==> g < |columns[i]|
  {
    seq(|columns|, i requires 0 <= i < |columns| => columns[i][g])
  }

  // The state after frames 0..n, simulated once, in order.
  ghost function Play<S, I>(step: (S, seq<I>) -> S, start: S, columns: seq<seq<I>>, n: nat): S
    requires forall i :: 0 <= i < |columns| ==> n <= |columns[i]|
  {
    if n == 0 then start else step(Play(step, start, columns, n - 1), Row(columns, n - 1))
  }

  // Only the first `n` frames of each column matter.
  lemma {:induction false} PlayReads<S, I>(step: (S, seq<I>) -> S, start: S, xs: seq<seq<I>>, ys: seq<seq<I>>, n: nat)
    requires |xs| == |ys|
    requires forall i :: 0 <= i < |xs| ==> n <= |xs[i]| && n <= |ys[i]| && xs[i][..n] == ys[i][..n]
    ensures Play(step, start, xs, n) == Play(step, start, ys, n)
  {
    if n > 0 {
      forall i | 0 <= i < |xs| ensures xs[i][..n - 1] == ys[i][..n - 1] && xs[i][n - 1] == ys[i][n - 1] {
        assert xs[i][..n][n - 1] == ys[i][..n][n - 1];
        assert xs[i][..n - 1] == xs[i][..n][..n - 1];
        assert ys[i][..n - 1] == ys[i][..n][..n - 1];
      }
      PlayReads(step, start, xs, ys, n - 1);
      assert Row(xs, n - 1) == Row(ys, n - 1);
    }
  }
}
