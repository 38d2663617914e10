/** The rollback engine: predict, detect, roll back, re-simulate
    (crates/fofoca-netplay/src/sync.rs). */
module RollbackSync {
  import opened Timeline
  import opened Options
  import opened Requests
  import opened InputQueues
  import opened SavedStatesRing
  import opened Resimulation

  datatype SyncError = PredictionLimit | InvalidPlayer(player: nat)
  datatype SyncResult<+T> = Ok(value: T) | Err(error: SyncError)

  function Max(a: int, b: int): int { if a >= b then a else b }

  // The earlier of two frames, an absent one never being earlier.
  function Earlier(a: Frame, b: Frame): Frame {
    if a == NULL_FRAME then b else if b == NULL_FRAME || a <= b then a else b
  }

  // The earliest misprediction of any player.
  function Seek<I(==)>(tracks: seq<Track<I>>): (r: Frame)
    ensures r == NULL_FRAME <==> forall i :: 0 <= i < |tracks| ==> LeastMismatch(tracks[i].log, tracks[i].served) == NULL_FRAME
    ensures r != NULL_FRAME ==> exists i :: 0 <= i < |tracks| && LeastMismatch(tracks[i].log, tracks[i].served) == r
    ensures forall i :: 0 <= i < |tracks| ==>
              var m := LeastMismatch(tracks[i].log, tracks[i].served); m == NULL_FRAME || (0 <= r <= m)
  {
    if tracks == [] then NULL_FRAME
    else
      var last := tracks[|tracks| - 1];
      Earlier(Seek(tracks[..|tracks| - 1]), LeastMismatch(last.log, last.served))
  }

  lemma SeekOneMore<I>(tracks: seq<Track<I>>, n: nat)
    requires n < |tracks|
    ensures Seek(tracks[..n + 1]) == Earlier(Seek(tracks[..n]), LeastMismatch(tracks[n].log, tracks[n].served))
  {
    assert tracks[..n + 1][..n] == tracks[..n];
  }

  // What holds of one player's track between two frames, when `low` is the oldest frame the saved
  // ring still has to offer: a contradiction can be rolled back to, and the next input to arrive can
  // only contradict a frame that can be rolled back to.
  ghost predicate Reachable<I>(neutral: I, t: Track<I>, low: int) {
    && Consistent(neutral, t)
    && (LeastMismatch(t.log, t.served) == NULL_FRAME || low <= LeastMismatch(t.log, t.served))
    && (low <= |t.log| || |t.served| <= |t.log|)
  }

  // What holds of all tracks between two frames, `count` frames having been simulated and the inputs
  // of frame `confirmed` and before being real.
  ghost predicate Fits<I>(neutral: I, tracks: seq<Track<I>>, count: nat, confirmed: Frame, maxPrediction: nat) {
    && NULL_FRAME <= confirmed
    && count - maxPrediction <= Max(confirmed, 0)
    && forall i :: 0 <= i < |tracks| ==>
         && |tracks[i].served| == count
         && Reachable(neutral, tracks[i], count - maxPrediction)
         && (confirmed < |tracks[i].log| || count <= |tracks[i].log|)
  }

  lemma NothingFits<I>(neutral: I, players: nat, maxPrediction: nat)
    ensures Fits(neutral, seq(players, _ => Track([], [])), 0, NULL_FRAME, maxPrediction)
  {
  }

  // Give a player what is known of the next frame.
  function Serve<I>(neutral: I, t: Track<I>): Track<I> {
    Track(t.log, t.served + [Known(neutral, t.log, |t.served|)])
  }

  function ServeAll<I>(neutral: I, tracks: seq<Track<I>>): seq<Track<I>> {
    seq(|tracks|, i requires 0 <= i < |tracks| => Serve(neutral, tracks[i]))
  }

  // No misprediction is outstanding, and no player's next input has aged out of its ring.
  ghost predicate ReadyToServe<I>(tracks: seq<Track<I>>, count: nat) {
    forall i :: 0 <= i < |tracks| ==>
      && LeastMismatch(tracks[i].log, tracks[i].served) == NULL_FRAME
      && |tracks[i].served| == count && |tracks[i].log| <= count + QUEUE_LEN
  }

  function FiledIn<I>(neutral: I, tracks: seq<Track<I>>, player: nat, frame: nat, delay: nat,
                      input: I): (r: seq<Track<I>>)
    requires player < |tracks|
    ensures |r| == |tracks|
  {
    tracks[player := Track(Filed(neutral, tracks[player].log, frame, delay, input), tracks[player].served)]
  }

  lemma FilingFits<I>(neutral: I, tracks: seq<Track<I>>, count: nat, confirmed: Frame, maxPrediction: nat,
                      player: nat, frame: nat, delay: nat, input: I)
    requires Fits(neutral, tracks, count, confirmed, maxPrediction) && player < |tracks|
    ensures Fits(neutral, FiledIn(neutral, tracks, player, frame, delay, input), count, confirmed, maxPrediction)
  {
  }

  // `t` with its simulation cut to, or brought to, exactly what is known of frames 0..n.
  function SettledAt<I>(neutral: I, t: Track<I>, n: nat): Track<I> {
    Track(t.log, KnownTo(neutral, t.log, n))
  }

  function AllSettledAt<I>(neutral: I, tracks: seq<Track<I>>, n: nat): seq<Track<I>> {
    seq(|tracks|, i requires 0 <= i < |tracks| => SettledAt(neutral, tracks[i], n))
  }

  // Where the next frame has to be simulated from: the earliest misprediction, else where we are.
  function ResumeFrom<I(==)>(tracks: seq<Track<I>>, count: nat): nat {
    if Seek(tracks) == NULL_FRAME then count else Seek(tracks)
  }

  // No frame that has to be simulated again has aged out of any player's ring.
  ghost predicate InRing<I>(tracks: seq<Track<I>>, count: nat) {
    forall i :: 0 <= i < |tracks| ==> |tracks[i].log| <= ResumeFrom(tracks, count) + QUEUE_LEN
  }

  // The frame to go back to, if any, is still in a saved ring of this size.
  ghost predicate CanSeek<I>(tracks: seq<Track<I>>, count: nat, capacity: nat) {
    Seek(tracks) == NULL_FRAME || (Seek(tracks) < count && count - capacity <= Seek(tracks))
  }

  // Nothing before frame `at` was contradicted, and its inputs are still in the rings.
  ghost predicate CanResumeAt<I>(tracks: seq<Track<I>>, at: nat) {
    forall i :: 0 <= i < |tracks| ==>
      var m := LeastMismatch(tracks[i].log, tracks[i].served);
      (m == NULL_FRAME || at <= m) && |tracks[i].log| <= at + QUEUE_LEN
  }

  lemma CanRewind<I>(neutral: I, tracks: seq<Track<I>>, count: nat, confirmed: Frame, maxPrediction: nat, at: nat)
    requires Fits(neutral, tracks, count, confirmed, maxPrediction) && CanResumeAt(tracks, at) && at < count
    ensures forall i :: 0 <= i < |tracks| ==>
              var m := LeastMismatch(tracks[i].log, tracks[i].served);
              at <= |tracks[i].served| && (m == NULL_FRAME || at <= m)
    ensures forall i :: 0 <= i < |tracks| ==> |tracks[i].log| <= at + QUEUE_LEN
  {
  }

  lemma SeekCanResume<I>(tracks: seq<Track<I>>, count: nat)
    requires InRing(tracks, count) && Seek(tracks) != NULL_FRAME
    ensures CanResumeAt(tracks, Seek(tracks))
  {
  }

  lemma RollbackStaysInWindow<I>(neutral: I, tracks: seq<Track<I>>, count: nat, confirmed: Frame, maxPrediction: nat)
    requires Fits(neutral, tracks, count, confirmed, maxPrediction)
    ensures Seek(tracks) == NULL_FRAME || (Seek(tracks) < count && count - maxPrediction <= Seek(tracks))
  {
  }

  lemma NothingToUndo<I>(neutral: I, tracks: seq<Track<I>>, count: nat, confirmed: Frame, maxPrediction: nat)
    requires Fits(neutral, tracks, count, confirmed, maxPrediction) && Seek(tracks) == NULL_FRAME
    ensures tracks == AllSettledAt(neutral, tracks, count)
  {
  }

  lemma SettledHasNoMismatch<I>(neutral: I, log: seq<I>, n: nat)
    ensures LeastMismatch(log, KnownTo(neutral, log, n)) == NULL_FRAME
  {
  }

  // Simulating through the known inputs leaves no misprediction.
  lemma SettledSeeksNothing<I>(neutral: I, tracks: seq<Track<I>>, n: nat)
    ensures Seek(AllSettledAt(neutral, tracks, n)) == NULL_FRAME
  {
    forall i | 0 <= i < |tracks|
      ensures LeastMismatch(tracks[i].log, KnownTo(neutral, tracks[i].log, n)) == NULL_FRAME
    {
      SettledHasNoMismatch(neutral, tracks[i].log, n);
    }
  }

  lemma ServingSettled<I>(neutral: I, tracks: seq<Track<I>>, n: nat)
    requires forall i :: 0 <= i < |tracks| ==> |tracks[i].log| <= n + QUEUE_LEN
    ensures ReadyToServe(AllSettledAt(neutral, tracks, n), n)
    ensures ServeAll(neutral, AllSettledAt(neutral, tracks, n)) == AllSettledAt(neutral, tracks, n + 1)
    ensures KnownRow(neutral, AllSettledAt(neutral, tracks, n), n) == KnownRow(neutral, tracks, n)
  {
    forall i | 0 <= i < |tracks|
      ensures LeastMismatch(tracks[i].log, KnownTo(neutral, tracks[i].log, n)) == NULL_FRAME
    {
      SettledHasNoMismatch(neutral, tracks[i].log, n);
    }
    forall i | 0 <= i < |tracks|
      ensures KnownTo(neutral, tracks[i].log, n) + [Known(neutral, tracks[i].log, n)] ==
          KnownTo(neutral, tracks[i].log, n + 1)
    {
    }
  }

  lemma SettledFits<I>(neutral: I, tracks: seq<Track<I>>, count: nat, confirmed: Frame, maxPrediction: nat)
    requires Fits(neutral, tracks, count, confirmed, maxPrediction)
    ensures Fits(neutral, AllSettledAt(neutral, tracks, count), count, confirmed, maxPrediction)
  {
  }

  // Advancing inside the prediction window leaves every track fit for the next frame.
  lemma AdvancingFits<I>(neutral: I, tracks: seq<Track<I>>, count: nat, confirmed: Frame, maxPrediction: nat)
    requires Fits(neutral, tracks, count, confirmed, maxPrediction)
    requires if confirmed == NULL_FRAME then count < maxPrediction else count - confirmed < maxPrediction
    requires forall i :: 0 <= i < |tracks| ==> confirmed < |tracks[i].log| || count < |tracks[i].log|
    ensures Fits(neutral, AllSettledAt(neutral, tracks, count + 1), count + 1, confirmed, maxPrediction)
  {
  }

  class Sync<S, I(==)> {
    const neutral: I
    const queues: seq<InputQueue<I>>
    const saved: SavedStates<S>
    const maxPrediction: nat
    var currentFrame: nat
    var lastConfirmedFrame: Frame

    // Per player: the frame delay, the frame of the last input given, and the track.
    ghost const delays: seq<nat>
    ghost var given: seq<Frame>
    ghost var tracks: seq<Track<I>>

    ghost function Repr(): set<object> {
      {this, saved} + (set q | q in queues) + (set q | q in queues :: q.inputs)
    }

    ghost predicate QueuesValid()
      reads this, queues, set q | q in queues :: q.inputs
    {
      && |tracks| == |given| == |delays| == |queues|
      && (forall i, j :: 0 <= i < j < |queues| ==> queues[i] != queues[j] && queues[i].inputs != queues[j].inputs)
      && forall i :: 0 <= i < |queues| ==> queues[i].Is(neutral, tracks[i], delays[i], given[i])
    }

    ghost predicate Valid()
      reads this, saved, queues, set q | q in queues :: q.inputs
    {
      && QueuesValid()
      && (forall i :: 0 <= i < |queues| ==> queues[i].Watched())
      && saved.Valid() && |saved.cells| == maxPrediction + 2
      && Fits(neutral, tracks, currentFrame, lastConfirmedFrame, maxPrediction)
    }

    // How far ahead of the last fully confirmed frame the simulation is.
    function FramesAhead(): nat
      reads this
    {
      if lastConfirmedFrame == NULL_FRAME then currentFrame else Max(currentFrame - lastConfirmedFrame, 0)
    }

    constructor (neutral: I, numPlayers: nat, maxPrediction: nat, inputDelay: nat, localHandle: nat)
      ensures Valid() && saved.Holds(0) && fresh(Repr()) && fresh(saved.cells)
      ensures this.neutral == neutral && this.maxPrediction == maxPrediction && |queues| == numPlayers
      ensures currentFrame == 0 && lastConfirmedFrame == NULL_FRAME && saved.head == 0
      ensures tracks == seq(numPlayers, _ => Track([], [])) && given == seq(numPlayers, _ => NULL_FRAME)
      ensures delays == seq(numPlayers, i => if i == localHandle then inputDelay else 0)
      ensures forall c :: c in saved.cells ==> c.inner == CellInner(NULL_FRAME, None, None)
    {
      hide InputQueue.Valid, InputQueue.Watched, InputQueue.Is, SavedStates.Holds, Fits;
      NothingFits(neutral, numPlayers, maxPrediction);
      this.neutral := neutral;
      this.maxPrediction := maxPrediction;
      var made := Sync<S, I>.Open(neutral, numPlayers, inputDelay, localHandle);
      queues := made;
      saved := new SavedStates<S>(maxPrediction);
      currentFrame, lastConfirmedFrame := 0, NULL_FRAME;
      tracks := seq(numPlayers, _ => Track([], []));
      given := seq(numPlayers, _ => NULL_FRAME);
      delays := seq(numPlayers, i => if i == localHandle then inputDelay else 0);
    }

    // One empty queue per player, only the local one delayed.
    static method Open(neutral: I, numPlayers: nat, inputDelay: nat,
        localHandle: nat) returns (made: seq<InputQueue<I>>)
      ensures |made| == numPlayers && fresh(made) && forall q :: q in made ==> fresh(q.inputs)
      ensures forall i, j :: 0 <= i < j < |made| ==> made[i] != made[j] && made[i].inputs != made[j].inputs
      ensures forall i :: 0 <= i < |made| ==>
                && made[i].Watched()
                && made[i].Is(neutral, Track([], []), if i == localHandle then inputDelay else 0, NULL_FRAME)
    {
      hide InputQueue.Valid;
      made := [];
      while |made| < numPlayers
        invariant |made| <= numPlayers
        invariant fresh(made) && forall q :: q in made ==> fresh(q.inputs)
        invariant forall i, j :: 0 <= i < j < |made| ==> made[i] != made[j] && made[i].inputs != made[j].inputs
        invariant forall i :: 0 <= i < |made| ==>
                    && made[i].Watched()
                    && made[i].Is(neutral, Track([], []), if i == localHandle then inputDelay else 0, NULL_FRAME)
      {
        var queue := new InputQueue<I>(neutral);
        if |made| == localHandle {
          queue.SetFrameDelay(inputDelay);
        }
        made := made + [queue];
      }
    }

    // File an input in `player`'s queue.
    method File(player: nat, frame: nat, input: I) returns (target: Frame)
      requires Valid() && player < |queues|
      requires given[player] == NULL_FRAME || frame == given[player] + 1
      modifies queues[player], queues[player].inputs, this`tracks, this`given
      ensures Valid() && given == old(given)[player := frame]
      ensures var delay := EffectiveDelay(delays[player]);
              var log := old(tracks)[player].log;
              && tracks == FiledIn(neutral, old(tracks), player, frame, delay, input)
              && target == if frame + delay < |log| then NULL_FRAME else frame + delay
    {
      hide InputQueue.Valid, InputQueue.Watched, InputQueue.IsFiledAt, Fits, LeastMismatch, Filed, EffectiveDelay,
          SavedStates.Valid, Consistent;
      var queue := queues[player];
      FilingFits(neutral, tracks, currentFrame, lastConfirmedFrame, maxPrediction, player, frame,
                 EffectiveDelay(queue.frameDelay), input);
      target := queue.AddInput(frame, input);
      tracks := tracks[player := queue.track];
      given := given[player := frame];
    }

    // File the local player's input, if the prediction window is not full.
    method AddLocalInput(player: nat, input: I) returns (r: SyncResult<Frame>)
      requires Valid()
      requires player < |queues| ==> given[player] == NULL_FRAME || currentFrame == given[player] + 1
      modifies this`tracks, this`given
      modifies if player < |queues| then {queues[player]} else {}
      modifies if player < |queues| then {queues[player].inputs} else {}
      ensures Valid()
      ensures r == Err(PredictionLimit) <==> FramesAhead() >= maxPrediction
      ensures r == Err(PredictionLimit) <==>
                || maxPrediction == 0
                || currentFrame - (if lastConfirmedFrame == NULL_FRAME then 0 else lastConfirmedFrame) >= maxPrediction
      ensures r == Err(InvalidPlayer(player)) <==> FramesAhead() < maxPrediction && player >= |queues|
      ensures r.Err? <==> FramesAhead() >= maxPrediction || player >= |queues|
      ensures r.Err? ==> tracks == old(tracks) && given == old(given)
      ensures r.Ok? ==>
                var delay := EffectiveDelay(delays[player]);
                var log := old(tracks)[player].log;
                && tracks == FiledIn(neutral, old(tracks), player, currentFrame, delay, input)
                && given == old(given)[player := currentFrame]
                && r.value == (if currentFrame + delay < |log| then NULL_FRAME else currentFrame + delay)
    {
      if FramesAhead() >= maxPrediction {
        return Err(PredictionLimit);
      }
      if player >= |queues| {
        return Err(InvalidPlayer(player));
      }
      var target := File(player, currentFrame, input);
      return Ok(target);
    }

    // File what a remote player has sent for a frame.
    method AddRemoteInput(player: nat, frame: nat, input: I) returns (r: SyncResult<()>)
      requires Valid()
      requires player < |queues| ==> given[player] == NULL_FRAME || frame == given[player] + 1
      modifies this`tracks, this`given
      modifies if player < |queues| then {queues[player]} else {}
      modifies if player < |queues| then {queues[player].inputs} else {}
      ensures Valid()
      ensures r == if player < |queues| then Ok(()) else Err(InvalidPlayer(player))
      ensures player >= |queues| ==> tracks == old(tracks) && given == old(given)
      ensures player < |queues| ==>
                && tracks == FiledIn(neutral, old(tracks), player, frame, EffectiveDelay(delays[player]), input)
                && given == old(given)[player := frame]
    {
      if player >= |queues| {
        return Err(InvalidPlayer(player));
      }
      var _ := File(player, frame, input);
      return Ok(());
    }

    // The queue objects, as a frame.
    ghost function Queues(): set<InputQueue<I>> {
      set q | q in queues
    }

    ghost function Only(n: nat): set<InputQueue<I>>
      requires n < |queues|
    {
      {queues[n]}
    }

    lemma QueueOf(n: nat)
      requires QueuesValid() && n < |queues|
      ensures queues[n].Valid() && queues[n].track == tracks[n] && queues[n].neutral == neutral
      ensures queues[n].firstIncorrectFrame == LeastMismatch(tracks[n].log, tracks[n].served)
    {
    }

    // Player `n`'s input for the current frame.
    method ServeOne(n: nat) returns (input: I, status: InputStatus)
      requires QueuesValid() && n < |queues|
      requires LeastMismatch(tracks[n].log, tracks[n].served) == NULL_FRAME
      requires |tracks[n].served| == currentFrame && |tracks[n].log| <= currentFrame + QUEUE_LEN
      modifies this`tracks, Only(n)`prediction, Only(n)`lastRequestedFrame, Only(n)`track
      ensures QueuesValid() && queues[n].Watched()
      ensures (input, status) == KnownInput(neutral, tracks[n].log, currentFrame)
      ensures tracks == old(tracks)[n := Serve(neutral, old(tracks)[n])]
    {
      hide InputQueue.Valid, InputQueue.Watched, LeastMismatch, Known;
      QueueOf(n);
      input, status := queues[n].Input(currentFrame);
      tracks := tracks[n := queues[n].track];
    }

    // Gather the row of inputs of the frame about to be simulated.
    method SynchronizeInputs() returns (row: seq<(I, InputStatus)>)
      requires QueuesValid() && ReadyToServe(tracks, currentFrame)
      modifies this`tracks, Queues()`prediction, Queues()`lastRequestedFrame, Queues()`track
      ensures QueuesValid() && forall i :: 0 <= i < |queues| ==> queues[i].Watched()
      ensures row == KnownRow(neutral, old(tracks), currentFrame)
      ensures tracks == ServeAll(neutral, old(tracks))
    {
      hide InputQueue.Valid, InputQueue.Is, InputQueue.Watched, KnownInput, Known, LeastMismatch;
      row := [];
      ghost var was := tracks;
      for n := 0 to |queues|
        invariant QueuesValid() && forall i :: 0 <= i < n ==> queues[i].Watched()
        invariant forall i :: 0 <= i < n ==> tracks[i] == Serve(neutral, was[i])
        invariant forall i :: n <= i < |queues| ==> tracks[i] == was[i]
        invariant |row| == n && forall i :: 0 <= i < n ==> row[i] == KnownInput(neutral, was[i].log, currentFrame)
      {
        var input, status := ServeOne(n);
        row := row + [(input, status)];
      }
    }

    // A request to save the frame about to be advanced past, `count` frames having been saved.
    method SaveCurrentState(ghost count: nat) returns (request: Request<S, I>)
      requires saved.Valid() && saved.Holds(count) && count - |saved.cells| <= currentFrame <= count
      modifies saved`head
      ensures saved.Valid() && request.SaveState? && request.frame == currentFrame
      ensures currentFrame < count ==>
                && saved.head == old(saved.head)
                && request.cell == saved.cells[CellOf(count, saved.head, |saved.cells|, currentFrame)]
      ensures currentFrame == count ==>
                && request.cell == saved.cells[old(saved.head)]
                && saved.head == if old(saved.head) + 1 == |saved.cells| then 0 else old(saved.head) + 1
    {
      var cell := saved.Push(currentFrame, count);
      request := SaveState(cell, currentFrame);
    }

    method AdvanceFrame()
      modifies this`currentFrame
      ensures currentFrame == old(currentFrame) + 1
    {
      currentFrame := currentFrame + 1;
    }

    // Move the confirmed frame up; it never moves back.
    method ConfirmThrough(frame: Frame)
      requires Valid()
      requires forall i :: 0 <= i < |tracks| ==> frame < |tracks[i].log| || currentFrame <= |tracks[i].log|
      modifies this`lastConfirmedFrame
      ensures Valid() && lastConfirmedFrame == Max(old(lastConfirmedFrame), frame)
      ensures old(lastConfirmedFrame) <= lastConfirmedFrame && frame <= lastConfirmedFrame
      ensures lastConfirmedFrame == old(lastConfirmedFrame) || lastConfirmedFrame == frame
    {
      lastConfirmedFrame := Max(lastConfirmedFrame, frame);
    }

    method MismatchOf(n: nat) returns (r: Frame)
      requires QueuesValid() && n < |queues|
      ensures r == LeastMismatch(tracks[n].log, tracks[n].served)
    {
      r := queues[n].FirstIncorrectFrame();
      MismatchIs(tracks[n].log, tracks[n].served, r);
    }

    // The least of the queues' mispredictions.
    method FirstIncorrectFrame() returns (r: Frame)
      requires QueuesValid()
      ensures r == Seek(tracks)
    {
      hide InputQueue.Is, LeastMismatch, Seek;
      r := NULL_FRAME;
      for n := 0 to |queues|
        invariant r == Seek(tracks[..n])
      {
        var one := MismatchOf(n);
        SeekOneMore(tracks, n);
        r := Earlier(r, one);
      }
      assert tracks[..|queues|] == tracks;
    }

    method ResetOne(n: nat, frame: nat)
      requires QueuesValid() && n < |queues| && frame <= |tracks[n].served|
      requires LeastMismatch(tracks[n].log, tracks[n].served) == NULL_FRAME ||
          frame <= LeastMismatch(tracks[n].log, tracks[n].served)
      modifies this`tracks, Only(n)`prediction, Only(n)`lastRequestedFrame, Only(n)`firstIncorrectFrame, Only(n)`track
      ensures QueuesValid()
      ensures tracks == old(tracks)[n := SettledAt(neutral, old(tracks)[n], frame)]
    {
      hide InputQueue.Valid, LeastMismatch, KnownTo;
      QueueOf(n);
      queues[n].ResetPrediction(frame);
      tracks := tracks[n := queues[n].track];
    }

    // Undo the prediction of every player from `frame` on.
    method ResetAll(frame: nat)
      requires QueuesValid()
      requires forall i :: 0 <= i < |tracks| ==>
                 var m := LeastMismatch(tracks[i].log, tracks[i].served);
                 frame <= |tracks[i].served| && (m == NULL_FRAME || frame <= m)
      modifies this`tracks, Queues()`prediction, Queues()`lastRequestedFrame, Queues()`firstIncorrectFrame,
          Queues()`track
      ensures QueuesValid()
      ensures tracks == AllSettledAt(neutral, old(tracks), frame)
    {
      hide InputQueue.Valid;
      ghost var was := tracks;
      for n := 0 to |queues|
        invariant QueuesValid()
        invariant forall i :: 0 <= i < n ==> tracks[i] == SettledAt(neutral, was[i], frame)
        invariant forall i :: n <= i < |queues| ==> tracks[i] == was[i]
      {
        ResetOne(n, frame);
      }
    }

    // If a prediction turned out wrong, append the requests that undo and redo the affected frames.
    method CheckSimulation(before: seq<Request<S, I>>) returns (requests: seq<Request<S, I>>)
      requires Valid() && saved.Holds(currentFrame)
      requires InRing(tracks, currentFrame)
      modifies this`currentFrame, this`tracks, saved`head,
               Queues()`prediction, Queues()`lastRequestedFrame, Queues()`firstIncorrectFrame, Queues()`track
      ensures Valid() && currentFrame == old(currentFrame) && saved.head == old(saved.head)
      ensures tracks == AllSettledAt(neutral, old(tracks), currentFrame)
      ensures CanSeek(old(tracks), currentFrame, |saved.cells|)
      ensures requests == before + Undo(neutral, old(tracks), saved.cells, saved.head, currentFrame, Seek(old(tracks)))
    {
      hide InputQueue.Valid, InputQueue.Is, InputQueue.Watched, SavedStates.Holds, SavedStates.Valid, QueuesValid,
          Fits, InRing, CanResumeAt, Replay, KnownTo, AllSettledAt;
      RollbackStaysInWindow(neutral, tracks, currentFrame, lastConfirmedFrame, maxPrediction);
      var seekTo := FirstIncorrectFrame();
      if seekTo == NULL_FRAME {
        NothingToUndo(neutral, tracks, currentFrame, lastConfirmedFrame, maxPrediction);
        return before;
      }
      SeekCanResume(tracks, currentFrame);
      requests := AdjustSimulation(seekTo, before);
    }

    // Simulate the current frame, over again or for the first time: gather the inputs, save the
    // state and move on.
    method SimulateOne(ghost was: seq<Track<I>>, ghost count: nat) returns (requests: seq<Request<S, I>>)
      requires QueuesValid() && tracks == AllSettledAt(neutral, was, currentFrame)
      requires forall i :: 0 <= i < |was| ==> |was[i].log| <= currentFrame + QUEUE_LEN
      requires saved.Valid() && saved.Holds(count) && count - |saved.cells| <= currentFrame <= count
      modifies this`currentFrame, this`tracks, saved`head,
               Queues()`prediction, Queues()`lastRequestedFrame, Queues()`track
      ensures QueuesValid() && saved.Valid() && forall i :: 0 <= i < |queues| ==> queues[i].Watched()
      ensures currentFrame == old(currentFrame) + 1
      ensures saved.head == if old(currentFrame) < count then old(saved.head)
                            else if old(saved.head) + 1 == |saved.cells| then 0 else old(saved.head) + 1
      ensures tracks == AllSettledAt(neutral, was, currentFrame)
      ensures requests == [SaveState(if old(currentFrame) < count
          then saved.cells[CellOf(count, saved.head, |saved.cells|, old(currentFrame))]
                                     else saved.cells[old(saved.head)],
                                     old(currentFrame)),
                           Request.AdvanceFrame(KnownRow(neutral, was, old(currentFrame)))]
    {
      hide InputQueue.Valid;
      ServingSettled(neutral, was, currentFrame);
      var inputs := SynchronizeInputs();
      var save := SaveCurrentState(count);
      requests := [save, Request.AdvanceFrame(inputs)];
      AdvanceFrame();
    }

    // The whole of one advance once the local input is filed: undo what a late input invalidated,
    // then save, gather inputs and move on.
    method NextFrame() returns (requests: seq<Request<S, I>>)
      requires Valid() && saved.Holds(currentFrame) && InRing(tracks, currentFrame)
      requires FramesAhead() < maxPrediction
      requires forall i :: 0 <= i < |tracks| ==> lastConfirmedFrame < |tracks[i].log| || currentFrame < |tracks[i].log|
      modifies this`currentFrame, this`tracks, saved`head,
               Queues()`prediction, Queues()`lastRequestedFrame, Queues()`firstIncorrectFrame, Queues()`track
      ensures Valid() && currentFrame == old(currentFrame) + 1
      ensures saved.head == if old(saved.head) + 1 == |saved.cells| then 0 else old(saved.head) + 1
      ensures tracks == AllSettledAt(neutral, old(tracks), currentFrame)
      ensures CanSeek(old(tracks), old(currentFrame), |saved.cells|)
      ensures requests == Requested(neutral, old(tracks), saved.cells, old(saved.head), old(currentFrame),
          Seek(old(tracks)))
    {
      hide InputQueue.Valid, Fits, InputQueue.Is, InputQueue.Watched, Replay, Undo, Seek, LeastMismatch, KnownTo,
          SavedStates.Holds;
      ghost var was, count := tracks, currentFrame;
      AdvancingFits(neutral, was, count, lastConfirmedFrame, maxPrediction);
      requests := CheckSimulation([]);
      var frame := SimulateOne(was, count);
      requests := requests + frame;
    }

    // Load frame `seekTo`, which the saved ring is sure to hold still, and simulate on to the present.
    method AdjustSimulation(seekTo: nat, before: seq<Request<S, I>>) returns (requests: seq<Request<S, I>>)
      requires Valid() && saved.Holds(currentFrame)
      requires seekTo < currentFrame && currentFrame - |saved.cells| <= seekTo
      requires CanResumeAt(tracks, seekTo)
      modifies this`currentFrame, this`tracks, saved`head,
               Queues()`prediction, Queues()`lastRequestedFrame, Queues()`firstIncorrectFrame, Queues()`track
      ensures Valid() && currentFrame == old(currentFrame) && saved.head == old(saved.head)
      ensures tracks == AllSettledAt(neutral, old(tracks), currentFrame)
      ensures requests == before + Undo(neutral, old(tracks), saved.cells, saved.head, currentFrame, seekTo)
    {
      hide InputQueue.Valid, InputQueue.Is, InputQueue.Watched, LeastMismatch, Fits, CanResumeAt, Replay, KnownTo;
      ghost var was := tracks;
      var resumeAt := currentFrame;
      SettledFits(neutral, was, currentFrame, lastConfirmedFrame, maxPrediction);
      CanRewind(neutral, was, currentFrame, lastConfirmedFrame, maxPrediction, seekTo);
      var cell := saved.ByFrame(seekTo);
      assert saved.Holds(resumeAt) && cell.Some?;
      requests := before + [LoadState(cell.value)];
      currentFrame := seekTo;
      ResetAll(seekTo);
      var replay := Resimulate(resumeAt, was);
      requests := requests + replay;
    }

    // Simulate again from the current frame up to `resumeAt`, with the inputs that are now known.
    method Resimulate(resumeAt: nat, ghost was: seq<Track<I>>) returns (requests: seq<Request<S, I>>)
      requires QueuesValid() && tracks == AllSettledAt(neutral, was, currentFrame)
      requires forall i :: 0 <= i < |was| ==> |was[i].log| <= currentFrame + QUEUE_LEN
      requires saved.Valid() && saved.Holds(resumeAt) && resumeAt - |saved.cells| <= currentFrame < resumeAt
      modifies this`currentFrame, this`tracks, saved`head,
               Queues()`prediction, Queues()`lastRequestedFrame, Queues()`track
      ensures QueuesValid() && forall i :: 0 <= i < |queues| ==> queues[i].Watched()
      ensures currentFrame == resumeAt && saved.head == old(saved.head)
      ensures tracks == AllSettledAt(neutral, was, resumeAt)
      ensures requests == Replay(neutral, was, saved.cells, saved.head, resumeAt, old(currentFrame), resumeAt)
    {
      hide InputQueue.Valid;
      requests := [];
      while currentFrame < resumeAt
        invariant old(currentFrame) <= currentFrame <= resumeAt
        invariant saved.Valid() && saved.Holds(resumeAt) && saved.head == old(saved.head)
        invariant QueuesValid() && tracks == AllSettledAt(neutral, was, currentFrame)
        invariant old(currentFrame) < currentFrame ==> forall i :: 0 <= i < |queues| ==> queues[i].Watched()
        invariant requests == Replay(neutral, was, saved.cells, saved.head, resumeAt, old(currentFrame), currentFrame)
      {
        var again := SimulateOne(was, resumeAt);
        requests := requests + again;
      }
    }
  }
}
