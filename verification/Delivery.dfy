/** One direction of one connection: what the sender still holds and what packets carry, against what
    the receiver has filed (crates/fofoca-netplay/src/protocol.rs). */
module Delivery {
  import opened Timeline
  import opened PeerProtocols

  // A player's own log in the making: nothing yet, or neutral inputs for the delayed frames and then
  // one input per frame.
  ghost predicate OwnLog<I>(neutral: I, own: seq<I>, delay: nat, made: nat) {
    if made == 0 then own == []
    else |own| == made + delay && own[..delay] == KnownTo(neutral, [], delay)
  }

  // The sender holds the end of its own log, from the first real input or from a frame up to which
  // everything has been received, and believes acked only what was received.
  ghost predicate Holding<I>(own: seq<I>, delay: nat, pending: seq<(Frame, I)>, lastAcked: Frame, received: nat) {
    && lastAcked < received
    && |pending| <= |own|
    && (own == [] || CanStart(|own| - |pending|, delay, received))
    && forall i :: 0 <= i < |pending| ==>
         pending[i] == (|own| - |pending| + i, own[|own| - |pending| + i])
  }

  // Where a packet may begin.
  predicate CanStart(startFrame: Frame, delay: nat, received: nat) {
    delay <= startFrame && (startFrame == delay || startFrame <= received)
  }

  // A packet carries a stretch of the sender's own log.
  ghost predicate Carries<I>(own: seq<I>, delay: nat, startFrame: Frame, inputs: seq<I>, received: nat) {
    && CanStart(startFrame, delay, received)
    && startFrame + |inputs| <= |own|
    && inputs == own[startFrame..startFrame + |inputs|]
  }

  // Making one more input extends the own log by it, after the neutral filling the first time, and
  // gives the sender one more thing to hold.
  lemma MakingOne<I>(neutral: I, own: seq<I>, delay: nat, made: nat, input: I)
    requires OwnLog(neutral, own, delay, made)
    ensures var longer := Filed(neutral, own, made, delay, input);
            && OwnLog(neutral, longer, delay, made + 1) && own <= longer
            && longer[|longer| - 1] == input
            && forall pending, lastAcked, received :: Holding(own, delay, pending, lastAcked, received) ==>
                 Holding(longer, delay, pending + [(made + delay, input)], lastAcked, received)
  {
  }

  // What is retired was received, and what is sent next carries all the rest.
  lemma RetiringKeeps<I>(own: seq<I>, delay: nat, pending: seq<(Frame, I)>, lastAcked: Frame, received: nat)
    requires Holding(own, delay, pending, lastAcked, received)
    requires received <= |own|
    ensures var kept := Unacked(pending, lastAcked);
            && Holding(own, delay, kept, lastAcked, received)
            && (kept != [] ==> Carries(own, delay, kept[0].0, PendingInputs(kept), received))
  {
    hide Unacked;
    var first := |own| - |pending|;
    UnackedIsTail(pending, first, lastAcked);
    var cut := Retired(|pending|, first, lastAcked);
    var kept := pending[cut..];
    assert |own| - |kept| == first + cut;
    forall i | 0 <= i < |kept| ensures kept[i] == (first + cut + i, own[first + cut + i]) {
      assert kept[i] == pending[cut + i];
    }
    if kept != [] {
      assert PendingInputs(kept) == own[first + cut..first + cut + |kept|];
    }
  }

  // Filing a packet leaves the receiver with a longer, gap-free prefix of the sender's own log, the
  // neutral filling included, or with what it had. A first packet that starts late hides no hole.
  lemma FilingPacketKeepsPrefix<I>(neutral: I, own: seq<I>, delay: nat, made: nat, log: seq<I>, startFrame: Frame,
                                   inputs: seq<I>)
    requires OwnLog(neutral, own, delay, made) && log <= own
    requires Carries(own, delay, startFrame, inputs, |log|)
    requires log == [] || startFrame <= |log|
    ensures var run := NewInputs(startFrame, inputs, |log| - 1);
            && Contiguous(|log|, run)
            && FiledRun(neutral, log, run) == own[..if |log| < startFrame + |inputs| &&
                inputs != [] then startFrame + |inputs| else |log|]
  {
    hide NewInputs, FiledRun;
    NewInputsAreTail(startFrame, inputs, |log| - 1);
    var run := NewInputs(startFrame, inputs, |log| - 1);
    FilingRunAppends(neutral, log, run);
    if run != [] {
      var first, end := Later(startFrame, |log|), startFrame + |inputs|;
      BelowIsOwn(neutral, own, delay, made, log, first);
      RunIsOwn(own, startFrame, inputs, run, first);
      FiledIsOwn(neutral, own, log, run, first, end);
    }
  }

  lemma RunIsOwn<I>(own: seq<I>, startFrame: nat, inputs: seq<I>, run: seq<(Frame, I)>, first: nat)
    requires startFrame <= first <= startFrame + |inputs| <= |own| && |run| == startFrame + |inputs| - first
    requires inputs == own[startFrame..startFrame + |inputs|]
    requires forall i :: 0 <= i < |run| ==> run[i] == (first + i, inputs[first + i - startFrame])
    ensures forall i :: 0 <= i < |run| ==> run[i] == (first + i, own[first + i])
  {
  }

  lemma FiledIsOwn<I>(neutral: I, own: seq<I>, log: seq<I>, run: seq<(Frame, I)>, first: nat, end: nat)
    requires Contiguous(|log|, run) && first < end <= |own| && |run| == end - first
    requires forall i :: 0 <= i < |run| ==> run[i] == (first + i, own[first + i])
    requires KnownTo(neutral, log, first) == own[..first]
    ensures FiledRun(neutral, log, run) == own[..end]
  {
    hide FiledRun, Contiguous, KnownTo;
    FilingRunAppends(neutral, log, run);
    var filed := FiledRun(neutral, log, run);
    assert run[0].0 == first && run[|run| - 1].0 == end - 1;
    forall g | 0 <= g < end ensures filed[g] == own[g] {
      if g < first {
        assert filed[..first][g] == own[..first][g];
      } else {
        assert run[g - first] == (g, own[g]);
        assert filed[run[g - first].0] == run[g - first].1;
      }
    }
  }

  // What is filled in below a packet is the log so far, or the neutral inputs the sender started with.
  lemma BelowIsOwn<I>(neutral: I, own: seq<I>, delay: nat, made: nat, log: seq<I>, first: nat)
    requires OwnLog(neutral, own, delay, made) && log <= own && first <= |own|
    requires if log == [] then first <= delay else first == |log|
    ensures KnownTo(neutral, log, first) == own[..first]
  {
  }
}
