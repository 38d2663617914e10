/** One player's inputs, indexed by frame, with one prediction in flight
    (crates/fofoca-netplay/src/input_queue.rs). */
module InputQueues {
  import opened Timeline

  // Ring capacity, in frames.
  const QUEUE_LEN: nat := 128
  const I32_MAX: int := 0x7fff_ffff

  datatype Slot<I> = Slot(frame: Frame, input: I)

  // The frame delay as the queue applies it: one that does not fit a frame number counts as none.
  function EffectiveDelay(delay: nat): nat {
    if delay <= I32_MAX then delay else 0
  }

  // The next slot of the ring is none of those the newer inputs are in.
  lemma NextIndex(n: nat)
    ensures (n % QUEUE_LEN + 1) % QUEUE_LEN == (n + 1) % QUEUE_LEN
    ensures forall g: nat :: n - QUEUE_LEN < g < n ==> g % QUEUE_LEN != n % QUEUE_LEN
  {
  }

  lemma LastIndex(n: nat)
    ensures (n % QUEUE_LEN + QUEUE_LEN - 1) % QUEUE_LEN == (n + QUEUE_LEN - 1) % QUEUE_LEN
    ensures n > 0 ==> (n + QUEUE_LEN - 1) % QUEUE_LEN == (n - 1) % QUEUE_LEN
  {
  }

  class InputQueue<I(==)> {
    const neutral: I
    const inputs: array<Slot<I>>
    var head: nat
    var tail: nat
    var length: nat
    var firstFrame: bool
    var lastAddedFrame: Frame
    var lastUserAddedFrame: Frame
    var firstIncorrectFrame: Frame
    var lastRequestedFrame: Frame
    var frameDelay: nat
    var prediction: Slot<I>

    // Every real input filed so far, and every input handed to the simulation since frame 0.
    ghost var track: Track<I>

    ghost predicate RingValid()
      reads this, inputs
    {
      && inputs.Length == QUEUE_LEN
      && length == (if |track.log| < QUEUE_LEN then |track.log| else QUEUE_LEN)
      && head == |track.log| % QUEUE_LEN
      && tail == (if |track.log| < QUEUE_LEN then 0 else |track.log| % QUEUE_LEN)
      && firstFrame == (track.log == [])
      && (track.log == [] ==> inputs[QUEUE_LEN - 1].input == neutral)
      && forall g :: 0 <= g < |track.log| && |track.log| - QUEUE_LEN <= g ==>
           inputs[g % QUEUE_LEN] == Slot(g, track.log[g])
    }

    // The single prediction in flight stands for every frame simulated past the real inputs, and
    // its cursor is the frame the next real input will fill.
    ghost predicate PredictionValid()
      reads this
    {
      if prediction.frame == NULL_FRAME then
        firstIncorrectFrame == NULL_FRAME && (Watched() || lastRequestedFrame == NULL_FRAME)
      else
        && prediction.frame == |track.log|
        && lastRequestedFrame == |track.served| - 1
        && (forall g :: |track.log| <= g < |track.served| ==> track.served[g] == prediction.input)
        && (firstIncorrectFrame == NULL_FRAME ==>
              |track.log| < |track.served| && prediction.input == Known(neutral, track.log, |track.log|))
    }

    ghost predicate Valid()
      reads this, inputs
    {
      && RingValid()
      && lastAddedFrame == |track.log| - 1
      && firstIncorrectFrame == LeastMismatch(track.log, track.served)
      && Consistent(neutral, track)
      && PredictionValid()
    }

    // No simulated frame is waiting for its real input without a prediction to check it against.
    // False only between `ResetPrediction` and the request that follows it.
    ghost predicate Watched()
      reads this
    {
      prediction.frame != NULL_FRAME || |track.served| <= |track.log|
    }

    // This queue stands for `t`, delays inputs by `delay` and was last given the one of frame `given`.
    ghost predicate Is(neutral: I, t: Track<I>, delay: nat, given: Frame)
      reads this, inputs
    {
      Valid() && this.neutral == neutral && track == t && frameDelay == delay && lastUserAddedFrame == given
    }

    constructor (neutral: I)
      ensures Valid() && Watched() && fresh(inputs)
      ensures this.neutral == neutral && track == Track([], [])
      ensures frameDelay == 0 && lastUserAddedFrame == NULL_FRAME
    {
      this.neutral := neutral;
      inputs := new Slot<I>[QUEUE_LEN](_ => Slot(NULL_FRAME, neutral));
      head, tail, length, firstFrame := 0, 0, 0, true;
      lastAddedFrame, lastUserAddedFrame := NULL_FRAME, NULL_FRAME;
      firstIncorrectFrame, lastRequestedFrame := NULL_FRAME, NULL_FRAME;
      frameDelay := 0;
      prediction := Slot(NULL_FRAME, neutral);
      track := Track([], []);
    }

    method SetFrameDelay(delay: nat)
      requires Valid()
      modifies this`frameDelay
      ensures Valid() && frameDelay == delay
    {
      frameDelay := delay;
    }

    // The least simulated frame whose real input, now held, is not the one the simulation was given.
    method FirstIncorrectFrame() returns (r: Frame)
      requires Valid()
      ensures r != NULL_FRAME ==> 0 <= r < |track.log| && r < |track.served| && track.log[r] != track.served[r]
      ensures forall g :: 0 <= g < |track.log| && g < |track.served| && (r == NULL_FRAME || g < r) ==>
                track.log[g] == track.served[g]
    {
      r := firstIncorrectFrame;
    }

    // Abandon the prediction from `frame` on, ahead of a re-simulation from there.
    method ResetPrediction(frame: nat)
      requires Valid() && frame <= |track.served|
      requires firstIncorrectFrame == NULL_FRAME || frame <= firstIncorrectFrame
      modifies this`prediction, this`firstIncorrectFrame, this`lastRequestedFrame, this`track
      ensures Valid() && firstIncorrectFrame == NULL_FRAME
      ensures track == Track(old(track.log), old(track.served)[..frame])
      ensures track.served == KnownTo(neutral, track.log, frame)
    {
      RewindSettles(neutral, track, frame);
      prediction := prediction.(frame := NULL_FRAME);
      firstIncorrectFrame := NULL_FRAME;
      lastRequestedFrame := NULL_FRAME;
      track := Track(track.log, track.served[..frame]);
    }

    // The input for `frame`: the real one if held, else the player's last real one.
    //
    // `frame` may not have aged out of the ring.
    method Input(frame: nat) returns (input: I, status: InputStatus)
      requires Valid() && firstIncorrectFrame == NULL_FRAME
      requires frame == |track.served| && |track.log| <= frame + QUEUE_LEN
      modifies this`prediction, this`lastRequestedFrame, this`track
      ensures Valid() && Watched() && firstIncorrectFrame == NULL_FRAME
      ensures input == Known(neutral, track.log, frame)
      ensures frame < |track.log| ==> input == track.log[frame]
      ensures |track.log| <= frame ==> input == if track.log == [] then neutral else track.log[|track.log| - 1]
      ensures status == if frame < |track.log| then Confirmed else Predicted
      ensures track == Track(old(track.log), old(track.served) + [input])
    {
      hide LeastMismatch, Settled, KnownTo;
      ServingSettles(neutral, track);
      SettledIsKnown(neutral, track);
      lastRequestedFrame := frame;
      if prediction.frame == NULL_FRAME {
        var held, known := RealInput(frame);
        if held {
          track := Track(track.log, track.served + [known]);
          return known, Confirmed;
        }
        StartPredicting();
      }
      track := Track(track.log, track.served + [prediction.input]);
      return prediction.input, Predicted;
    }

    // Predict by repeating the last known input, from the frame the next real input will fill.
    method StartPredicting()
      requires RingValid() && lastAddedFrame == |track.log| - 1
      modifies this`prediction
      ensures prediction == Slot(|track.log|, Known(neutral, track.log, |track.log|))
    {
      var fillsAt := if lastAddedFrame == NULL_FRAME then 0 else lastAddedFrame + 1;
      var guess := neutral;
      if lastAddedFrame != NULL_FRAME {
        var last := PrevHead();
        guess := inputs[last].input;
      }
      prediction := Slot(fillsAt, guess);
    }

    // Look a frame's real input up in the ring.
    method RealInput(frame: nat) returns (held: bool, known: I)
      requires RingValid() && lastAddedFrame == |track.log| - 1
      ensures held <==> |track.log| - 128 <= frame < |track.log|
      ensures held ==> known == track.log[frame]
    {
      known := neutral;
      if length == 0 {
        return false, known;
      }
      var tailFrame := inputs[tail].frame;
      TailHolds();
      if frame < tailFrame || frame > lastAddedFrame {
        return false, known;
      }
      var offset := frame - tailFrame;
      if offset >= length {
        return false, known;
      }
      var slot := inputs[(tail + offset) % QUEUE_LEN];
      assert (tail + offset) % QUEUE_LEN == frame % QUEUE_LEN;
      assert slot.frame == frame;
      return true, slot.input;
    }

    lemma TailHolds()
      requires RingValid() && track.log != []
      ensures tail < QUEUE_LEN
      ensures inputs[tail].frame == (if |track.log| < QUEUE_LEN then 0 else |track.log| - QUEUE_LEN)
    {
      var g := if |track.log| < QUEUE_LEN then 0 else |track.log| - QUEUE_LEN;
      assert g % QUEUE_LEN == tail;
      assert inputs[g % QUEUE_LEN] == Slot(g, track.log[g]);
    }

    method PrevHead() returns (p: nat)
      requires RingValid()
      ensures p < QUEUE_LEN == inputs.Length && p == (|track.log| + QUEUE_LEN - 1) % QUEUE_LEN
      ensures inputs[p].input == Known(neutral, track.log, |track.log|)
      ensures track.log != [] ==> inputs[p].frame == |track.log| - 1
    {
      p := (head + QUEUE_LEN - 1) % QUEUE_LEN;
      LastIndex(|track.log|);
      if track.log != [] {
        var g := |track.log| - 1;
        assert inputs[g % QUEUE_LEN] == Slot(g, track.log[g]);
      }
    }

    // The input lands at frame `at`, after repeats of the last one or of the default, unless that frame is taken.
    ghost predicate IsFiledAt(before: seq<I>, after: seq<I>, at: nat, input: I, target: Frame) {
      if at < |before| then target == NULL_FRAME && after == before
      else
        && target == at && |after| == at + 1 && after[at] == input && before <= after
        && forall g :: |before| <= g < at ==> after[g] == if before == [] then neutral else before[|before| - 1]
    }

    // Record a real input made at `frame`. Returns the frame it was filed under, or `NULL_FRAME`.
    method AddInput(frame: nat, input: I) returns (target: Frame)
      requires Valid() && Watched()
      requires lastUserAddedFrame == NULL_FRAME || frame == lastUserAddedFrame + 1
      modifies this, inputs
      ensures Valid() && Watched()
      ensures lastUserAddedFrame == frame && frameDelay == old(frameDelay)
      ensures track == Track(Filed(neutral, old(track.log), frame, EffectiveDelay(frameDelay), input),
          old(track.served))
      ensures target == if frame + EffectiveDelay(frameDelay) < |old(track.log)| then NULL_FRAME
                        else frame + EffectiveDelay(frameDelay)
      ensures frameDelay <= 0x7fff_ffff ==> IsFiledAt(old(track.log), track.log, frame + frameDelay, input, target)
      ensures frameDelay > 0x7fff_ffff ==> IsFiledAt(old(track.log), track.log, frame, input, target)
    {
      hide IsFiledAt, EffectiveDelay, Consistent, LeastMismatch, Known, Filed, KnownTo;
      FilingLands(track.log, frame, input);
      lastUserAddedFrame := frame;
      target := AdvanceQueueHead(frame);
      if target == NULL_FRAME {
        return;
      }
      AddDelayedInput(target, input);
    }

    lemma FilingLands(log: seq<I>, frame: nat, input: I)
      ensures var d := frame + EffectiveDelay(frameDelay);
              var target := if d < |log| then NULL_FRAME else d;
              var after := Filed(neutral, log, frame, EffectiveDelay(frameDelay), input);
              && after == (if d < |log| then log else KnownTo(neutral, log, d) + [input])
              && (frameDelay <= 0x7fff_ffff ==> IsFiledAt(log, after, frame + frameDelay, input, target))
              && (frameDelay > 0x7fff_ffff ==> IsFiledAt(log, after, frame, input, target))
    {
    }

    // Apply the delay and fill any gap it opened.
    method AdvanceQueueHead(frame: nat) returns (delayed: Frame)
      requires Valid() && Watched()
      modifies this, inputs
      ensures Valid() && Watched()
      ensures lastUserAddedFrame == old(lastUserAddedFrame) && frameDelay == old(frameDelay)
      ensures var d := frame + EffectiveDelay(frameDelay);
              if d < |old(track.log)| then delayed == NULL_FRAME && track == old(track)
              else delayed == d && track == Track(KnownTo(neutral, old(track.log), d), old(track.served))
      ensures delayed == NULL_FRAME || delayed == if frameDelay <= 0x7fff_ffff then frame + frameDelay else frame
    {
      hide InputQueue.RingValid, InputQueue.PredictionValid, Consistent, LeastMismatch, Known;
      FirstFrameIsFirst();
      var expected := 0;
      if !firstFrame {
        var last := PrevHead();
        expected := inputs[last].frame + 1;
      }
      delayed := frame + EffectiveDelay(frameDelay);
      if expected > delayed {
        return NULL_FRAME;
      }
      KnownToPrefix(neutral, track.log, expected);
      while expected < delayed
        invariant Valid() && Watched() && expected <= delayed
        invariant |old(track.log)| <= expected == |track.log|
        invariant track == Track(KnownTo(neutral, old(track.log), expected), old(track.served))
        invariant lastUserAddedFrame == old(lastUserAddedFrame) && frameDelay == old(frameDelay)
      {
        var last := PrevHead();
        var filler := inputs[last].input;
        KnownToGrows(neutral, old(track.log), expected);
        AddDelayedInput(expected, filler);
        expected := expected + 1;
      }
    }

    lemma FirstFrameIsFirst()
      requires RingValid()
      ensures firstFrame == (track.log == [])
    {
    }

    // Append a slot, ageing out the oldest once the ring is full.
    method Push(slot: Slot<I>)
      requires RingValid() && slot.frame == |track.log|
      modifies inputs, this`head, this`tail, this`length, this`firstFrame, this`track
      ensures RingValid() && track == Track(old(track.log) + [slot.input], old(track.served))
    {
      NextIndex(|track.log|);
      inputs[head] := slot;
      head := (head + 1) % QUEUE_LEN;
      if length == QUEUE_LEN {
        tail := (tail + 1) % QUEUE_LEN;
      } else {
        length := length + 1;
      }
      firstFrame := false;
      track := Track(track.log + [slot.input], track.served);
    }

    // File a real input and check it against the prediction it settles.
    method AddDelayedInput(frame: Frame, input: I)
      requires Valid() && Watched() && frame == |track.log|
      modifies inputs, this`head, this`tail, this`length, this`firstFrame, this`lastAddedFrame,
               this`track, this`firstIncorrectFrame, this`prediction
      ensures Valid() && Watched()
      ensures track == Track(old(track.log) + [input], old(track.served))
    {
      FilingOne(neutral, track, input);
      Push(Slot(frame, input));
      lastAddedFrame := frame;
      if prediction.frame == NULL_FRAME {
        return;
      }
      assert frame == prediction.frame;
      if firstIncorrectFrame == NULL_FRAME && prediction.input != input {
        firstIncorrectFrame := frame;
      }
      if prediction.frame == lastRequestedFrame && firstIncorrectFrame == NULL_FRAME {
        prediction := prediction.(frame := NULL_FRAME);
      } else {
        prediction := prediction.(frame := prediction.frame + 1);
      }
    }
  }
}
