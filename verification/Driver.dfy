/** A game driving its session: poll, advance, fulfil, publish (the frame loop of
    crates/fofoca-netplay/src/session.rs). */
module Drivers {
  import opened Timeline
  import opened Options
  import opened Requests
  import opened InputQueues
  import opened SavedStatesRing
  import opened Resimulation
  import opened RollbackSync
  import opened PeerProtocols
  import opened Sessions
  import Handshake

  // Whatever was simulated before the earliest misprediction is what the known inputs dictate.
  lemma SettledBelowSeek<I>(neutral: I, tracks: seq<Track<I>>, count: nat, confirmed: Frame, maxPrediction: nat)
    requires Fits(neutral, tracks, count, confirmed, maxPrediction)
    ensures ResumeFrom(tracks, count) <= count
    ensures forall i :: 0 <= i < |tracks| ==>
              tracks[i].served[..ResumeFrom(tracks, count)] ==
                  KnownTo(neutral, tracks[i].log, ResumeFrom(tracks, count))
  {
  }

  lemma {:induction false} ReplayStaysInRing<S, I>(neutral: I, tracks: seq<Track<I>>, cells: seq<StateCell<S>>,
                                                   head: nat,
                                                   count: nat, from: nat, upto: nat)
    requires upto <= count && count - |cells| <= from && head < |cells|
    ensures forall r :: r in Replay(neutral, tracks, cells, head, count, from, upto) ==>
              !r.LoadState? && (r.SaveState? ==> r.cell in cells)
    decreases upto
  {
    if from < upto {
      ReplayStaysInRing(neutral, tracks, cells, head, count, from, upto - 1);
    }
  }

  // The whole advance, seen from the tracks as they were before the local input was filed.
  lemma AdvanceRefines<S, I>(rules: Rules<S, I>, neutral: I, was: seq<Track<I>>, filed: seq<Track<I>>,
                             cells: seq<StateCell<S>>,
                             head: nat, count: nat, confirmed: Frame, maxPrediction: nat, w: World<S>)
    requires Fits(neutral, filed, count, confirmed, maxPrediction) && CanSeek(filed, count, |cells|)
    requires |was| == |filed| && forall i :: 0 <= i < |was| ==> was[i].served == filed[i].served
    requires head < |cells| && Mirrors(rules, Served(was), count, cells, head, w)
    ensures Mirrors(rules, Plain(neutral, filed, count + 1), count + 1, cells,
        if head + 1 == |cells| then 0 else head + 1,
                    PerformAll(rules, w, Requested(neutral, filed, cells, head, count, Seek(filed))))
    ensures forall r :: r in Requested(neutral, filed, cells, head, count, Seek(filed)) ==>
              (r.LoadState? ==> r.from in cells) && (r.SaveState? ==> r.cell in cells)
  {
    hide Fits, Seek, Mirrors, Replay, KnownTo;
    SettledBelowSeek(neutral, filed, count, confirmed, maxPrediction);
    MirrorsShape(rules, Served(was), count, cells, head, w);
    AdvancePlays(rules, neutral, Served(was), filed, cells, head, count, Seek(filed), w);
    if Seek(filed) != NULL_FRAME {
      ReplayStaysInRing(neutral, filed, cells, head, count, Seek(filed), count);
    }
  }

  lemma SettledServesPlain<I>(neutral: I, tracks: seq<Track<I>>, n: nat)
    ensures Served(AllSettledAt(neutral, tracks, n)) == Plain(neutral, tracks, n)
    ensures Plain(neutral, AllSettledAt(neutral, tracks, n), n) == Plain(neutral, tracks, n)
  {
  }

  // The game's world, as far as this session can touch it.
  ghost function WorldOf<S, I, A>(session: P2PSession<S, I, A>, game: Game<S, I>): World<S>
    reads game, session.sync.saved.cells
  {
    World(game.state, Contents(set c | c in session.sync.saved.cells))
  }

  // The game and its saved states are where the inputs simulated so far put them.
  ghost predicate InSync<S, I, A>(session: P2PSession<S, I, A>, game: Game<S, I>)
    reads game, session.sync, session.sync.saved, session.sync.saved.cells
  {
    Mirrors(game.rules, Served(session.sync.tracks), session.sync.currentFrame,
            session.sync.saved.cells, session.sync.saved.head, WorldOf(session, game))
  }

  lemma InSyncHolds<S, I, A>(session: P2PSession<S, I, A>, game: Game<S, I>)
    requires InSync(session, game)
    ensures session.sync.saved.Holds(session.sync.currentFrame)
  {
  }

  // Fulfilling the requests puts the game and its saved states where the inputs now simulated, those
  // known of each player, put them.
  ghost predicate Owed<S, I, A>(session: P2PSession<S, I, A>, game: Game<S, I>, requests: seq<Request<S, I>>,
                                known: seq<Track<I>>)
    reads game, session.sync, session.sync.saved, session.sync.saved.cells
  {
    var n, sync := session.sync.currentFrame, session.sync;
    && sync.tracks == AllSettledAt(sync.neutral, known, n)
    && Mirrors(game.rules, Plain(sync.neutral, known, n), n, sync.saved.cells, sync.saved.head,
               PerformAll(game.rules, WorldOf(session, game), requests))
    && forall r :: r in requests ==>
         (r.LoadState? ==> r.from in sync.saved.cells) && (r.SaveState? ==> r.cell in sync.saved.cells)
  }

  lemma InSyncAgain<S, I, A>(session: P2PSession<S, I, A>, game: Game<S, I>, known: seq<Track<I>>, w: World<S>)
    requires var n, sync := session.sync.currentFrame, session.sync;
             && sync.tracks == AllSettledAt(sync.neutral, known, n)
             && Mirrors(game.rules, Plain(sync.neutral, known, n), n, sync.saved.cells, sync.saved.head, w)
    requires WorldOf(session, game) == w
    ensures InSync(session, game)
    ensures game.state == PlainState(game.rules, session.sync.neutral, session.sync.tracks, session.sync.currentFrame)
  {
    SettledServesPlain(session.sync.neutral, known, session.sync.currentFrame);
  }

  lemma FiledFits<S, I, A>(session: P2PSession<S, I, A>, input: Option<I>)
    requires session.Valid()
    ensures var sync := session.sync;
            && Fits(sync.neutral, sync.tracks, sync.currentFrame, sync.lastConfirmedFrame, sync.maxPrediction)
            && session.localHandle < |sync.tracks|
            && (input.Some? ==>
                  var filed := FiledIn(sync.neutral, sync.tracks, session.localHandle, sync.currentFrame,
                                       EffectiveDelay(session.inputDelay), input.value);
                  && Fits(sync.neutral, filed, sync.currentFrame, sync.lastConfirmedFrame, sync.maxPrediction)
                  && |filed| == |sync.tracks|
                  && forall i :: 0 <= i < |filed| ==> sync.tracks[i].served == filed[i].served)
  {
  }

  // Ask for the next frame.
  method RequestFrame<S, I(==), A(==)>(session: P2PSession<S, I, A>, game: Game<S, I>)
    returns (r: SessionResult<seq<Request<S, I>>>, ghost known: seq<Track<I>>)
    requires session.Valid() && session.RingRoom() && InSync(session, game)
    modifies session`skipFrames, session`localInput, session.sync`currentFrame, session.sync`tracks,
        session.sync`given, session.sync.saved`head, session.sync.queues,
        set q | q in session.sync.queues :: q.inputs
    modifies session.Peers()`pending
    ensures session.Valid()
    ensures session.sync.lastConfirmedFrame == old(session.sync.lastConfirmedFrame)
    ensures session.skipFrames == if old(session.state) == Playing && old(session.skipFrames) > 0
                                  then old(session.skipFrames) - 1 else old(session.skipFrames)
    ensures r.Done? <==>
              && old(session.state) == Playing && old(session.skipFrames) == 0 && old(session.localInput).Some?
              && old(session.sync.FramesAhead()) < session.sync.maxPrediction
    ensures r.Refused? ==>
              && InSync(session, game) && session.sync.currentFrame == old(session.sync.currentFrame)
              && session.sync.tracks == old(session.sync.tracks) && session.localInput == old(session.localInput)
              && session.Links() == old(session.Links())
    ensures r.Done? ==>
              && var n := session.sync.currentFrame;
              var delay, input := EffectiveDelay(session.inputDelay), old(session.localInput).value;
              && n == old(session.sync.currentFrame) + 1 && Seek(session.sync.tracks) == NULL_FRAME
              && known == FiledIn(session.sync.neutral, old(session.sync.tracks), session.localHandle, n - 1, delay, input)
              && Owed(session, game, r.value, known)
              && session.Links() == AllQueued(old(session.Links()), n - 1 + delay, input)
  {
    hide P2PSession.Valid, P2PSession.RingRoom, SavedStates.Holds, Requested, Fits, Seek, Mirrors, FiledIn, Filed,
        EffectiveDelay, AllSettledAt, Plain, Served, PerformAll, CanSeek, P2PSession.Links, AllQueued,
        P2PSession.FiledLocally;
    InSyncHolds(session, game);
    ghost var was, count, head := session.sync.tracks, session.sync.currentFrame, session.sync.saved.head;
    ghost var input, confirmed := session.localInput, session.sync.lastConfirmedFrame;
    FiledFits(session, input);
    r := session.AdvanceFrame();
    known := was;
    if r.Done? {
      known := FiledIn(session.sync.neutral, was, session.localHandle, count, EffectiveDelay(session.inputDelay),
                       input.value);
      AdvanceRefines(game.rules, session.sync.neutral, was, known, session.sync.saved.cells, head, count, confirmed,
                     session.sync.maxPrediction, WorldOf(session, game));
    }
  }

  // One turn of the game loop. Whatever arrived, in whatever order, and however much of it had been
  // guessed wrong: after an advance the game is in the state that simulating every frame once, with
  // each player's real input where it is known and that player's last one where it is not, leads to.
  method RunFrame<S, I(==), A(==)>(session: P2PSession<S, I, A>, game: Game<S, I>) returns (r: SessionResult<()>)
    requires session.Valid() && session.RingRoom() && InSync(session, game)
    modifies session`skipFrames, session`localInput, session.sync`currentFrame, session.sync`tracks,
        session.sync`given, session.sync.saved`head, session.sync.queues,
        set q | q in session.sync.queues :: q.inputs
    modifies session.Peers()`pending, session.sync.saved.cells, game
    ensures session.Valid() && InSync(session, game)
    ensures session.sync.lastConfirmedFrame == old(session.sync.lastConfirmedFrame)
    ensures session.skipFrames == if old(session.state) == Playing && old(session.skipFrames) > 0
                                  then old(session.skipFrames) - 1 else old(session.skipFrames)
    ensures r.Done? <==>
              && old(session.state) == Playing && old(session.skipFrames) == 0 && old(session.localInput).Some?
              && old(session.sync.FramesAhead()) < session.sync.maxPrediction
    ensures r.Refused? ==>
              && session.sync.currentFrame == old(session.sync.currentFrame) && game.state == old(game.state)
              && session.sync.tracks == old(session.sync.tracks) && session.localInput == old(session.localInput)
              && session.Links() == old(session.Links())
    ensures r.Done? ==>
              && var n := session.sync.currentFrame;
              var delay, input := EffectiveDelay(session.inputDelay), old(session.localInput).value;
              && n == old(session.sync.currentFrame) + 1
              && game.state == PlainState(game.rules, session.sync.neutral, session.sync.tracks, n)
              && session.sync.tracks == AllSettledAt(session.sync.neutral,
                  FiledIn(session.sync.neutral, old(session.sync.tracks), session.localHandle, n - 1, delay, input), n)
              && Seek(session.sync.tracks) == NULL_FRAME
              && session.Links() == AllQueued(old(session.Links()), n - 1 + delay, input)
  {
    hide P2PSession.Valid, P2PSession.RingRoom, InSync, Mirrors, Seek, FiledIn, EffectiveDelay, AllSettledAt,
        PlainState, Plain, PerformAll, P2PSession.Links, AllQueued;
    ghost var known;
    var requests;
    requests, known := RequestFrame(session, game);
    if requests.Refused? {
      return Refused(requests.error);
    }
    ghost var after := PerformAll(game.rules, WorldOf(session, game), requests.value);
    game.Fulfil(requests.value, set c | c in session.sync.saved.cells);
    InSyncAgain(session, game, known, after);
    return Done(());
  }

  // ---- Publishing ----

  // The checksum of the simulation so far is that of the plain one.
  ghost predicate PublishesRight<S, I>(rules: Rules<S, I>, neutral: I, tracks: seq<Track<I>>, n: nat)
    requires forall i :: 0 <= i < |tracks| ==> n <= |tracks[i].served|
  {
    rules.hash(Play(rules.step, rules.start, Served(tracks), n)) == rules.hash(PlainState(rules, neutral, tracks, n))
  }

  // A game whose state is the inputs it was given, and whose hash tells one history from all others.
  ghost function Recording<I>(target: seq<seq<I>>): Rules<seq<seq<I>>, I> {
    Rules([], (s: seq<seq<I>>, row: seq<I>) => s + [row], (s: seq<seq<I>>) => if s == target then 1 else 0)
  }

  lemma {:induction false} RecordingPlays<I>(target: seq<seq<I>>, columns: seq<seq<I>>, n: nat)
    requires forall i :: 0 <= i < |columns| ==> n <= |columns[i]|
    ensures Play(Recording(target).step, [], columns, n) == seq(n, g requires 0 <= g < n => Row(columns, g))
  {
    if n > 0 {
      RecordingPlays(target, columns, n - 1);
    }
  }

  // What is simulated of the first `n` frames, all of them real by now, hashes right whatever the game
  // exactly when no misprediction below `n` is outstanding.
  lemma PublishedRightIff<I>(neutral: I, tracks: seq<Track<I>>, count: nat, confirmed: Frame, maxPrediction: nat,
                             n: nat)
    requires Fits(neutral, tracks, count, confirmed, maxPrediction) && n <= count
    requires forall i :: 0 <= i < |tracks| ==> n <= |tracks[i].log|
    ensures (forall rules: Rules<seq<seq<I>>, I> :: PublishesRight(rules, neutral, tracks, n))
            <==> (Seek(tracks) == NULL_FRAME || n <= Seek(tracks))
  {
    hide PublishesRight;
    if Seek(tracks) == NULL_FRAME || n <= Seek(tracks) {
      forall rules: Rules<seq<seq<I>>, I> ensures PublishesRight(rules, neutral, tracks, n) {
        SettledPublishesRight(rules, neutral, tracks, count, confirmed, maxPrediction, n);
      }
    } else {
      MispredictedPublishesWrong(neutral, tracks, count, n);
    }
  }

  lemma SettledPublishesRight<S, I>(rules: Rules<S, I>, neutral: I, tracks: seq<Track<I>>, count: nat,
                                    confirmed: Frame, maxPrediction: nat, n: nat)
    requires Fits(neutral, tracks, count, confirmed, maxPrediction) && n <= count
    requires Seek(tracks) == NULL_FRAME || n <= Seek(tracks)
    ensures (forall i :: 0 <= i < |tracks| ==> n <= |tracks[i].served|)
    ensures PublishesRight(rules, neutral, tracks, n)
  {
    SettledBelowSeek(neutral, tracks, count, confirmed, maxPrediction);
    hide Fits, Seek, KnownTo;
    var from := ResumeFrom(tracks, count);
    PlayPlain(rules, neutral, tracks, from, n);
  }

  lemma PlayPlain<S, I>(rules: Rules<S, I>, neutral: I, tracks: seq<Track<I>>, from: nat, n: nat)
    requires n <= from && forall i :: 0 <= i < |tracks| ==>
               from <= |tracks[i].served| && tracks[i].served[..from] == KnownTo(neutral, tracks[i].log, from)
    ensures PublishesRight(rules, neutral, tracks, n)
  {
    forall i | 0 <= i < |tracks| ensures tracks[i].served[..n] == KnownTo(neutral, tracks[i].log, n) {
      assert tracks[i].served[..n] == tracks[i].served[..from][..n];
      assert KnownTo(neutral, tracks[i].log, n) == KnownTo(neutral, tracks[i].log, from)[..n];
    }
    PlayReads(rules.step, rules.start, Served(tracks), Plain(neutral, tracks, n), n);
  }

  // The recording game tells apart any two histories that differ.
  lemma HistoriesDiffer<I>(xs: seq<seq<I>>, ys: seq<seq<I>>, n: nat, i: nat, g: nat)
    requires |xs| == |ys| && i < |xs| && g < n && forall k :: 0 <= k < |xs| ==> n <= |xs[k]| && n <= |ys[k]|
    requires xs[i][g] != ys[i][g]
    ensures var rules := Recording(seq(n, g requires 0 <= g < n => Row(xs, g)));
            rules.hash(Play(rules.step, rules.start, xs, n)) != rules.hash(Play(rules.step, rules.start, ys, n))
  {
    hide Play;
    var target := seq(n, g requires 0 <= g < n => Row(xs, g));
    RecordingPlays(target, xs, n);
    RecordingPlays(target, ys, n);
    assert Row(xs, g)[i] != Row(ys, g)[i];
    assert target[g] != Play(Recording(target).step, [], ys, n)[g];
  }

  lemma MispredictedPublishesWrong<I>(neutral: I, tracks: seq<Track<I>>, count: nat, n: nat)
    requires forall i :: 0 <= i < |tracks| ==> |tracks[i].served| == count && n <= |tracks[i].log|
    requires n <= count && Seek(tracks) != NULL_FRAME && Seek(tracks) < n
    ensures exists rules: Rules<seq<seq<I>>, I> :: !PublishesRight(rules, neutral, tracks, n)
  {
    var g := Seek(tracks);
    var i :| 0 <= i < |tracks| && LeastMismatch(tracks[i].log, tracks[i].served) == g;
    hide Play, Seek, LeastMismatch;
    var served, plain := Served(tracks), Plain(neutral, tracks, n);
    assert served[i][g] != plain[i][g];
    HistoriesDiffer(served, plain, n, i, g);
    assert !PublishesRight(Recording(seq(n, g requires 0 <= g < n => Row(served, g))), neutral, tracks, n);
  }

  lemma RingInSync<S, I, A>(session: P2PSession<S, I, A>, game: Game<S, I>)
    requires session.Valid() && InSync(session, game)
    ensures var sync := session.sync;
            && |sync.saved.cells| == sync.maxPrediction + 2 && sync.saved.head < |sync.saved.cells|
            && (sync.currentFrame < |sync.saved.cells| ==> sync.saved.head == sync.currentFrame)
            && (forall k :: 0 <= k < |sync.tracks| ==> |sync.tracks[k].served| == sync.currentFrame)
            && forall i :: 0 <= i < |sync.saved.cells| ==>
                 CellRight(game.rules, Served(sync.tracks), sync.currentFrame, sync.saved.head, |sync.saved.cells|, i,
                     sync.saved.cells[i].inner)
  {
    var cells := session.sync.saved.cells;
    assert forall i :: 0 <= i < |cells| ==> WorldOf(session, game).store[cells[i]] == cells[i].inner;
  }

  // `value` is the checksum of the simulation so far at `frame`.
  ghost predicate IsSimulated<S, I>(rules: Rules<S, I>, tracks: seq<Track<I>>, frame: Frame, value: nat) {
    && 0 <= frame && (forall i :: 0 <= i < |tracks| ==> frame <= |tracks[i].served|)
    && value == rules.hash(Play(rules.step, rules.start, Served(tracks), frame))
  }

  // A saved checksum is that of the simulation so far, and its frame is still in the window.
  lemma SavedChecksum<S, I, A>(session: P2PSession<S, I, A>, game: Game<S, I>, frame: Frame, checksum: nat)
    requires session.Valid() && InSync(session, game) && session.IsSaved(frame, checksum) && frame != NULL_FRAME
    ensures var sync := session.sync;
            && 0 <= frame < sync.currentFrame <= frame + sync.maxPrediction + 2
            && IsSimulated(game.rules, sync.tracks, frame, checksum)
  {
    hide P2PSession.Valid, InSync;
    var sync := session.sync;
    var cells := sync.saved.cells;
    var c :| c in cells && c.inner.frame == frame && c.inner.checksum == Some(checksum);
    var i :| 0 <= i < |cells| && cells[i] == c;
    RingInSync(session, game);
    RingIsWindow(sync.currentFrame, sync.saved.head, |cells|, i, frame);
  }

  // Every frame of the window is saved, with its checksum.
  lemma WindowIsSaved<S, I, A>(session: P2PSession<S, I, A>, game: Game<S, I>, frame: nat)
    requires session.Valid() && InSync(session, game)
    requires frame < session.sync.currentFrame <= frame + session.sync.maxPrediction + 2
    ensures exists checksum :: session.IsSaved(frame, checksum)
  {
    hide P2PSession.Valid, InSync;
    var sync := session.sync;
    var cells, count := sync.saved.cells, sync.currentFrame;
    RingInSync(session, game);
    var at := CellOf(count, sync.saved.head, |cells|, frame);
    RingIsWindow(count, sync.saved.head, |cells|, at, frame);
    assert session.IsSaved(frame, cells[at].inner.checksum.value);
  }

  // Every player's input is real through `frame`, and `value` is the checksum of simulating those.
  ghost predicate RightChecksum<S, I>(rules: Rules<S, I>, neutral: I, tracks: seq<Track<I>>, frame: Frame, value: nat) {
    && 0 <= frame && (forall i :: 0 <= i < |tracks| ==> frame <= |tracks[i].log|)
    && value == rules.hash(PlainState(rules, neutral, tracks, frame))
  }

  ghost predicate LogsGrow<I>(before: seq<Track<I>>, after: seq<Track<I>>) {
    |before| == |after| && forall i :: 0 <= i < |before| ==> before[i].log <= after[i].log
  }

  // More inputs coming in cannot make it wrong.
  lemma RightStaysRight<S, I>(rules: Rules<S, I>, neutral: I, before: seq<Track<I>>, after: seq<Track<I>>,
                              frame: Frame, value: nat)
    requires RightChecksum(rules, neutral, before, frame, value)
    requires LogsGrow(before, after)
    ensures RightChecksum(rules, neutral, after, frame, value)
  {
    forall i | 0 <= i < |before|
      ensures KnownTo(neutral, before[i].log, frame) == KnownTo(neutral, after[i].log, frame)
    {
    }
    PlayReads(rules.step, rules.start, Plain(neutral, before, frame), Plain(neutral, after, frame), frame);
  }

  // Everyone's input is real up to the confirmed frame, which is not included here.
  lemma ConfirmedIsReal<S, I, A>(session: P2PSession<S, I, A>)
    requires session.Valid() && session.sync.lastConfirmedFrame < session.sync.currentFrame
    ensures forall i :: 0 <= i < |session.sync.tracks| ==> session.sync.lastConfirmedFrame <= |session.sync.tracks[i].log|
    ensures var sync := session.sync;
            Fits(sync.neutral, sync.tracks, sync.currentFrame, sync.lastConfirmedFrame, sync.maxPrediction)
  {
  }

  lemma ConfirmedIsFrame<S, I, A>(session: P2PSession<S, I, A>)
    requires session.Valid()
    ensures session.sync.lastConfirmedFrame >= NULL_FRAME
  {
  }

  // A checksum is published exactly when the confirmed frame is new and still saved. What is
  // published while no misprediction below the confirmed frame is outstanding is right.
  method PublishChecksum<S, I(==), A(==)>(session: P2PSession<S, I, A>, game: Game<S, I>)
    returns (published: Option<(Frame, nat)>, outgoing: seq<(A, Message<I>)>)
    requires session.Valid() && InSync(session, game)
    modifies session`lastChecksumFrame, session.Peers()`localChecksums
    ensures session.Valid() && InSync(session, game)
    ensures published.Some? <==>
              && session.sync.lastConfirmedFrame != NULL_FRAME
              && session.sync.lastConfirmedFrame != old(session.lastChecksumFrame)
              && session.sync.lastConfirmedFrame < session.sync.currentFrame
                 <= session.sync.lastConfirmedFrame + session.sync.maxPrediction + 2
    ensures session.lastChecksumFrame == if published.Some? then published.value.0 else old(session.lastChecksumFrame)
    ensures session.Links() == if published.Some? then AllStamped(old(session.Links()), published.value.0, published.value.1)
                               else old(session.Links())
    ensures |session.Addresses()| == |old(session.Links())|
    ensures outgoing == if published.Some?
                        then Advert(session.Addresses(), old(session.Links()), published.value.0, published.value.1) else []
    ensures published.Some? ==>
              && published.value.0 == session.sync.lastConfirmedFrame
              && IsSimulated(game.rules, session.sync.tracks, published.value.0, published.value.1)
    ensures published.Some? && (Seek(session.sync.tracks) == NULL_FRAME || published.value.0 <= Seek(session.sync.tracks)) ==>
              RightChecksum(game.rules, session.sync.neutral, session.sync.tracks, published.value.0, published.value.1)
  {
    hide P2PSession.Valid, SavedStates.Holds, Mirrors, Fits, Seek, PublishesRight, PlainState, Plain, Play, Served,
        AllStamped, P2PSession.Links, P2PSession.Addresses, Advert;
    InSyncHolds(session, game);
    published, outgoing := session.PublishChecksum();
    ConfirmedIsFrame(session);
    ghost var confirmed := session.sync.lastConfirmedFrame;
    if confirmed != NULL_FRAME && confirmed < session.sync.currentFrame <= confirmed + session.sync.maxPrediction + 2 {
      WindowIsSaved(session, game, confirmed);
    }
    if published.Some? {
      ghost var sync, n := session.sync, published.value.0;
      SavedChecksum(session, game, n, published.value.1);
      ConfirmedIsReal(session);
      if Seek(sync.tracks) == NULL_FRAME || n <= Seek(sync.tracks) {
        SettledPublishesRight(game.rules, sync.neutral, sync.tracks, sync.currentFrame, sync.lastConfirmedFrame,
                              sync.maxPrediction, n);
        RightIs(game.rules, sync.neutral, sync.tracks, n, published.value.1);
      }
    }
  }

  lemma RightIs<S, I>(rules: Rules<S, I>, neutral: I, tracks: seq<Track<I>>, n: nat, value: nat)
    requires forall i :: 0 <= i < |tracks| ==> n <= |tracks[i].log|
    requires IsSimulated(rules, tracks, n, value) && PublishesRight(rules, neutral, tracks, n)
    ensures RightChecksum(rules, neutral, tracks, n, value)
  {
  }

  lemma AdvancingGrowsLogs<I>(neutral: I, tracks: seq<Track<I>>, player: nat, count: nat, delay: nat, input: I)
    requires player < |tracks|
    ensures LogsGrow(tracks, AllSettledAt(neutral, FiledIn(neutral, tracks, player, count, delay, input), count + 1))
  {
  }

  // What is published straight after a successful advance is right.
  method AdvanceAndPublish<S, I(==), A(==)>(session: P2PSession<S, I, A>, game: Game<S, I>)
    returns (r: SessionResult<()>, published: Option<(Frame, nat)>, outgoing: seq<(A, Message<I>)>)
    requires session.Valid() && session.RingRoom() && InSync(session, game)
    modifies session`skipFrames, session`localInput, session`lastChecksumFrame, session.sync`currentFrame,
        session.sync`tracks, session.sync`given, session.sync.saved`head, session.sync.queues,
        set q | q in session.sync.queues :: q.inputs
    modifies session.Peers()`pending, session.Peers()`localChecksums, session.sync.saved.cells, game
    ensures session.Valid() && InSync(session, game)
    ensures r.Refused? ==>
              published == None && game.state == old(game.state) &&
              session.sync.currentFrame == old(session.sync.currentFrame)
    ensures r.Done? ==>
              && session.sync.currentFrame == old(session.sync.currentFrame) + 1
              && game.state == PlainState(game.rules, session.sync.neutral, session.sync.tracks, session.sync.currentFrame)
    ensures published.Some? ==>
              RightChecksum(game.rules, session.sync.neutral, session.sync.tracks, published.value.0, published.value.1)
    ensures LogsGrow(old(session.sync.tracks), session.sync.tracks)
  {
    hide P2PSession.Valid, P2PSession.RingRoom, InSync, PlainState, Served, RightChecksum, EffectiveDelay, Seek,
        FiledIn, AllSettledAt, AllQueued, Fits, P2PSession.Links;
    published, outgoing := None, [];
    ghost var was, count, input := session.sync.tracks, session.sync.currentFrame, session.localInput;
    FiledFits(session, input);
    r := RunFrame(session, game);
    if r.Done? {
      AdvancingGrowsLogs(session.sync.neutral, was, session.localHandle, count, EffectiveDelay(session.inputDelay),
                         input.value);
      published, outgoing := PublishChecksum(session, game);
    }
  }

  // ---- The frame loop ----

  lemma NothingToMirror<S, I>(rules: Rules<S, I>, players: nat, cells: seq<StateCell<S>>, w: World<S>)
    requires 0 < |cells| && forall i, j :: 0 <= i < j < |cells| ==> cells[i] != cells[j]
    requires w.state == rules.start && w.store.Keys == (set c | c in cells)
    requires forall c :: c in w.store ==> w.store[c].frame == NULL_FRAME
    ensures Mirrors(rules, Served(seq(players, _ => Track([], []))), 0, cells, 0, w)
  {
  }

  lemma RingAtStart<S, I, A>(session: P2PSession<S, I, A>)
    requires session.Valid()
    ensures var cells := session.sync.saved.cells;
            0 < |cells| && forall i, j :: 0 <= i < j < |cells| ==> cells[i] != cells[j]
  {
  }

  // Nothing has happened yet.
  ghost predicate IsNew<S, I, A>(session: P2PSession<S, I, A>, players: seq<A>, magic: U32)
    reads session, session.sync, session.peers
  {
    && session.sync.currentFrame == 0 && session.sync.lastConfirmedFrame == session.lastChecksumFrame == NULL_FRAME
    && session.sync.tracks == seq(|players|, _ => Track([], []))
    && session.localHandle < |players| == |session.peers| + 1
    && forall k :: 0 <= k < |session.peers| ==>
         session.peers[k].addr == players[HandleOf(session.localHandle, k)] && session.peers[k].View() == NewPeer(magic)
  }

  // A new session and a new game, in sync.
  method OpenGame<S, I(==), A(==)>(rules: Rules<S, I>, neutral: I, players: seq<A>, localHandle: nat,
                                   maxPrediction: nat, inputDelay: nat, magic: U32)
    returns (session: P2PSession<S, I, A>, game: Game<S, I>)
    requires localHandle < |players|
    ensures fresh(session) && fresh(game) && fresh(session.peers) && fresh(session.sync) && fresh(session.sync.saved)
    ensures fresh(session.sync.saved.cells) && fresh(session.sync.queues)
    ensures fresh(set q | q in session.sync.queues :: q.inputs)
    ensures game.rules == rules && session.sync.neutral == neutral
    ensures session.Valid() && InSync(session, game) && session.AllAlive(0)
    ensures game.state == rules.start && session.localHandle == localHandle && IsNew(session, players, magic)
    ensures session.inputDelay == inputDelay && session.sync.maxPrediction == maxPrediction
  {
    hide P2PSession.Valid;
    session := new P2PSession<S, I, A>(neutral, players, localHandle, maxPrediction, inputDelay, magic);
    game := new Game<S, I>(rules);
    assert forall q :: q in session.sync.queues ==> q in session.sync.Repr() && q.inputs in session.sync.Repr();
    assert forall i :: 0 <= i < |session.sync.queues| ==> session.sync.queues[i] in session.sync.Repr();
    RingAtStart(session);
    NothingToMirror(rules, |players|, session.sync.saved.cells, WorldOf(session, game));
  }

  // Inputs coming in change nothing about what has been simulated.
  lemma ExtendedServesSame<I>(before: seq<Track<I>>, after: seq<Track<I>>)
    requires Extended(before, after)
    ensures Served(before) == Served(after)
  {
  }

  // Nobody runs so far ahead that an input still to be simulated again ages out of a ring.
  predicate WithinReach<S, I(==), A(==)>(session: P2PSession<S, I, A>)
    reads session.sync, session.peers
  {
    var window := session.sync.maxPrediction;
    && window + EffectiveDelay(session.inputDelay) < QUEUE_LEN
    && forall k :: 0 <= k < |session.peers| ==>
         session.peers[k].lastReceivedFrame + window < session.sync.currentFrame + QUEUE_LEN
  }

  lemma ReachLeavesRoom<S, I, A>(session: P2PSession<S, I, A>)
    requires session.Valid() && WithinReach(session)
    ensures session.RingRoom()
  {
    hide EffectiveDelay, Reachable;
    var sync := session.sync;
    RollbackStaysInWindow(sync.neutral, sync.tracks, sync.currentFrame, sync.lastConfirmedFrame, sync.maxPrediction);
    forall h | 0 <= h < |sync.tracks|
      ensures |sync.tracks[h].log| <= ResumeFrom(sync.tracks, sync.currentFrame) + QUEUE_LEN
    {
      if h != session.localHandle {
        assert session.peers[if h < session.localHandle then h else h - 1].handle == h;
      }
    }
  }

  // What one turn of the frame loop is given: the packets that have arrived, how many frames the
  // pacing asks to yield, and the local player's input.
  datatype Turn<A, I> = Turn(received: seq<(A, Message<I>)>, skip: nat, input: I)

  // Poll; once the match has started, supply the input, advance, and publish if that succeeded.
  method TakeTurn<S, I(==), A(==)>(session: P2PSession<S, I, A>, game: Game<S, I>, turn: Turn<A, I>)
    returns (advanced: bool, published: Option<(Frame, nat)>, outgoing: seq<(A, Message<I>)>)
    requires session.Valid() && InSync(session, game) && session.AllAlive(DISCONNECT_TIMEOUT_TICKS - 1)
    modifies session, session.sync, session.sync.saved`head, session.sync.queues,
        set q | q in session.sync.queues :: q.inputs
    modifies session.peers, session.sync.saved.cells, game
    ensures session.Valid() && InSync(session, game)
    ensures LogsGrow(old(session.sync.tracks), session.sync.tracks)
    ensures session.sync.currentFrame == old(session.sync.currentFrame) + if advanced then 1 else 0
    ensures advanced ==>
              game.state == PlainState(game.rules, session.sync.neutral, session.sync.tracks, session.sync.currentFrame)
    ensures !advanced ==> game.state == old(game.state) && published == None
    ensures published.Some? ==>
              RightChecksum(game.rules, session.sync.neutral, session.sync.tracks, published.value.0, published.value.1)
  {
    hide P2PSession.Valid, P2PSession.RingRoom, PlainState, Served, RightChecksum, Mirrors, Taken, TickedAll,
        P2PSession.Links, P2PSession.ConfirmedFrom;
    advanced, published := false, None;
    ghost var was := session.sync.tracks;
    outgoing := session.PollRemotePeers(turn.received, turn.skip);
    ExtendedServesSame(was, session.sync.tracks);
    if session.state != Playing || !WithinReach(session) {
      return;
    }
    ReachLeavesRoom(session);
    session.AddLocalInput(turn.input);
    var r, messages;
    r, published, messages := AdvanceAndPublish(session, game);
    advanced, outgoing := r.Done?, outgoing + messages;
  }

  // A moment between two turns: what is known and simulated, and of how many frames.
  datatype Moment<I> = Moment(tracks: seq<Track<I>>, frame: nat)

  // In a turn inputs come in, and one frame more is simulated or none.
  ghost predicate Follows<I>(before: Moment<I>, after: Moment<I>) {
    LogsGrow(before.tracks, after.tracks) && before.frame <= after.frame <= before.frame + 1
  }

  ghost predicate IsCourse<I>(moments: seq<Moment<I>>, start: Moment<I>, end: Moment<I>) {
    && moments != [] && moments[0] == start && moments[|moments| - 1] == end
    && forall t :: 0 <= t < |moments| - 1 ==> Follows(moments[t], moments[t + 1])
  }

  // The moment after the last turn that simulated a frame, or the first if none has.
  ghost predicate IsLastAdvance<I>(moments: seq<Moment<I>>, last: nat) {
    && last < |moments| && (last > 0 ==> moments[last].frame == moments[last - 1].frame + 1)
    && forall t :: last <= t < |moments| ==> moments[t].frame == moments[last].frame
  }

  lemma OneTurnMore<I>(moments: seq<Moment<I>>, start: Moment<I>, before: Moment<I>, after: Moment<I>, last: nat)
    requires IsCourse(moments, start, before) && IsLastAdvance(moments, last) && Follows(before, after)
    ensures IsCourse(moments + [after], start, after)
    ensures IsLastAdvance(moments + [after], if after.frame == before.frame then last else |moments|)
  {
  }

  // Any number of turns, whatever arrives in them, for as long as no connection is about to be given
  // up and nobody has run out of reach: at the end the game is in the state the plain simulation is in
  // under the inputs known right after it last advanced, and every checksum published on the way is right.
  method PlayOn<S, I(==), A(==)>(session: P2PSession<S, I, A>, game: Game<S, I>, turns: seq<Turn<A, I>>)
    returns (taken: nat, published: seq<(Frame, nat)>, ghost moments: seq<Moment<I>>, ghost last: nat)
    requires session.Valid() && InSync(session, game)
    requires game.state == PlainState(game.rules, session.sync.neutral, session.sync.tracks, session.sync.currentFrame)
    modifies session, session.sync, session.sync.saved`head, session.sync.queues,
        set q | q in session.sync.queues :: q.inputs
    modifies session.peers, session.sync.saved.cells, game
    ensures session.Valid() && InSync(session, game)
    ensures taken <= |turns|
    ensures taken == |turns| || !session.AllAlive(DISCONNECT_TIMEOUT_TICKS - 1) || !WithinReach(session)
    ensures |moments| == taken + 1 && IsLastAdvance(moments, last)
    ensures IsCourse(moments, Moment(old(session.sync.tracks), old(session.sync.currentFrame)),
                     Moment(session.sync.tracks, session.sync.currentFrame))
    ensures game.state == PlainState(game.rules, session.sync.neutral, moments[last].tracks, session.sync.currentFrame)
    ensures AllRight(game.rules, session.sync.neutral, session.sync.tracks, published)
  {
    hide P2PSession.Valid, InSync, PlainState, RightChecksum, LogsGrow, P2PSession.AllAlive, WithinReach, IsCourse,
        AllRight;
    taken, published := 0, [];
    ghost var start := Moment(session.sync.tracks, session.sync.currentFrame);
    moments, last := [start], 0;
    StartsHere(start);
    NothingPublished(game.rules, session.sync.neutral, session.sync.tracks);
    while taken < |turns| && session.AllAlive(DISCONNECT_TIMEOUT_TICKS - 1) && WithinReach(session)
      invariant session.Valid() && InSync(session, game) && taken <= |turns|
      invariant |moments| == taken + 1 && IsLastAdvance(moments, last)
      invariant IsCourse(moments, start, Moment(session.sync.tracks, session.sync.currentFrame))
      invariant game.state == PlainState(game.rules, session.sync.neutral, moments[last].tracks, session.sync.currentFrame)
      invariant AllRight(game.rules, session.sync.neutral, session.sync.tracks, published)
    {
      ghost var before := Moment(session.sync.tracks, session.sync.currentFrame);
      var advanced, one, _ := TakeTurn(session, game, turns[taken]);
      ghost var after := Moment(session.sync.tracks, session.sync.currentFrame);
      OneTurnMore(moments, start, before, after, last);
      AllStayRight(game.rules, session.sync.neutral, before.tracks, after.tracks, published, one);
      if one.Some? {
        published := published + [one.value];
      }
      moments, last := moments + [after], if advanced then |moments| else last;
      taken := taken + 1;
    }
  }

  // A whole match at one peer, from the beginning.
  method PlayMatch<S, I(==), A(==)>(rules: Rules<S, I>, neutral: I, players: seq<A>, localHandle: nat,
                                    maxPrediction: nat, inputDelay: nat, magic: U32, turns: seq<Turn<A, I>>)
    returns (session: P2PSession<S, I, A>, game: Game<S, I>, taken: nat, published: seq<(Frame, nat)>,
             ghost moments: seq<Moment<I>>, ghost last: nat)
    requires localHandle < |players|
    ensures session.Valid() && InSync(session, game) && game.rules == rules && taken <= |turns|
    ensures taken == |turns| || !session.AllAlive(DISCONNECT_TIMEOUT_TICKS - 1) || !WithinReach(session)
    ensures |moments| == taken + 1 && IsLastAdvance(moments, last)
    ensures IsCourse(moments, Moment(seq(|players|, _ => Track([], [])), 0),
                     Moment(session.sync.tracks, session.sync.currentFrame))
    ensures game.state == PlainState(rules, neutral, moments[last].tracks, session.sync.currentFrame)
    ensures AllRight(rules, neutral, session.sync.tracks, published)
  {
    hide P2PSession.Valid, InSync, P2PSession.AllAlive, IsCourse, IsLastAdvance, AllRight;
    session, game := OpenGame(rules, neutral, players, localHandle, maxPrediction, inputDelay, magic);
    taken, published, moments, last := PlayOn(session, game, turns);
  }

  lemma StartsHere<I>(start: Moment<I>)
    ensures IsCourse([start], start, start)
  {
  }

  lemma NothingPublished<S, I>(rules: Rules<S, I>, neutral: I, tracks: seq<Track<I>>)
    ensures AllRight(rules, neutral, tracks, [])
  {
  }

  ghost predicate AllRight<S, I>(rules: Rules<S, I>, neutral: I, tracks: seq<Track<I>>, published: seq<(Frame, nat)>) {
    forall i :: 0 <= i < |published| ==> RightChecksum(rules, neutral, tracks, published[i].0, published[i].1)
  }

  // What was published before stays right, and so does one more that is right now.
  lemma AllStayRight<S, I>(rules: Rules<S, I>, neutral: I, before: seq<Track<I>>, after: seq<Track<I>>,
                           published: seq<(Frame, nat)>, one: Option<(Frame, nat)>)
    requires AllRight(rules, neutral, before, published) && LogsGrow(before, after)
    requires one.Some? ==> RightChecksum(rules, neutral, after, one.value.0, one.value.1)
    ensures AllRight(rules, neutral, after, published + if one.Some? then [one.value] else [])
    ensures published + [] == published
  {
    forall i | 0 <= i < |published| ensures RightChecksum(rules, neutral, after, published[i].0, published[i].1) {
      RightStaysRight(rules, neutral, before, after, published[i].0, published[i].1);
    }
  }

  // ---- Publishing too early ----

  // A game that adds up the second player's inputs.
  function Adding(): Rules<int, int> {
    Rules(0, (s: int, row: seq<int>) => if |row| == 2 then s + row[1] else s, (s: int) => if s < 0 then -s else s)
  }

  // Replies from the other player to a new connection's first requests.
  function Replies<A>(addr: A, magic: U32, remote: U32, n: nat): (packets: seq<(A, Message<int>)>)
    ensures |packets| == n
  {
    if n == 0 then []
    else Replies(addr, magic, remote, n - 1) + [(addr, Message(remote, SyncReply(Handshake.TokenAt(InitialToken(magic), n - 1))))]
  }

  // A connection some of whose round trips are done.
  function Shaken(magic: U32, remote: U32, n: nat): Peer<int>
    requires n <= SYNC_ROUNDTRIPS
  {
    if n == 0 then NewPeer(magic)
    else NewPeer(magic).(remoteMagic := Some(remote), roundtripsLeft := SYNC_ROUNDTRIPS - n,
                         syncToken := Handshake.TokenAt(InitialToken(magic), n),
                         state := if n == SYNC_ROUNDTRIPS then Running else Syncing)
  }

  lemma ShakenOnce(magic: U32, remote: U32, n: nat)
    requires n < SYNC_ROUNDTRIPS
    ensures Received(Shaken(magic, remote, n), Message(remote, SyncReply(Handshake.TokenAt(InitialToken(magic), n))))
         == Outcome(Shaken(magic, remote, n + 1), [], [], if n + 1 == SYNC_ROUNDTRIPS then [Synchronized] else [])
  {
    hide Rotated, InitialToken;
  }

  // A packet without inputs files none.
  lemma NothingFiled<A>(addr: A, s: Poll<int, A>, message: Message<int>)
    requires |s.links| == 1 && |s.tracks| == 2 && Received(s.links[0], message).inputs == []
    ensures var t := TakenOne(0, [addr], 0, s, (addr, message));
            t.links == [Received(s.links[0], message).peer] && t.tracks == s.tracks
  {
    hide Received;
  }

  lemma {:induction false} RepliesTaken<A>(addr: A, magic: U32, remote: U32, n: nat, tracks: seq<Track<int>>,
                                           events: seq<Event<A>>)
    requires n <= SYNC_ROUNDTRIPS && |tracks| == 2
    ensures var t := Taken(0, [addr], 0, Poll([NewPeer(magic)], tracks, events, []), Replies(addr, magic, remote, n));
            t.links == [Shaken(magic, remote, n)] && t.tracks == tracks
    decreases n
  {
    hide Received, Rotated, InitialToken, TakenOne, Handshake.TokenAt;
    if n > 0 {
      RepliesTaken(addr, magic, remote, n - 1, tracks, events);
      ShakenOnce(magic, remote, n - 1);
      var packets, start := Replies(addr, magic, remote, n), Poll([NewPeer(magic)], tracks, events, []);
      assert packets[..n - 1] == Replies(addr, magic, remote, n - 1);
      NothingFiled(addr, Taken(0, [addr], 0, start, packets[..n - 1]), packets[n - 1].1);
    }
  }

  // The link after the handshake, ticked once.
  lemma ShakenIsRunning<A>(addr: A, magic: U32, remote: U32, tracks: seq<Track<int>>, events: seq<Event<A>>)
    requires |tracks| == 2
    ensures var t := Taken(0, [addr], 0, Poll([NewPeer(magic)], tracks, events, []),
                           Replies(addr, magic, remote, SYNC_ROUNDTRIPS));
            var links := TickedAll([addr], t.(outgoing := []), 0, 1).links;
            && t.tracks == tracks && |links| == 1 && links[0].state == Running && links[0].remoteMagic == Some(remote)
            && links[0].silentTicks == 1 && links[0].lastReceived == NULL_FRAME
  {
    hide Taken, Replies, InitialToken;
    RepliesTaken(addr, magic, remote, SYNC_ROUNDTRIPS, tracks, events);
  }

  function Zeros(n: nat): seq<int> {
    seq(n, _ => 0)
  }

  function Naught(n: nat): seq<Track<int>> {
    [Track(Zeros(n), Zeros(n)), Track([], Zeros(n))]
  }

  // So many frames in, all the local player's inputs naught, with nothing heard of the other player's.
  ghost predicate FramesIn<A>(session: P2PSession<int, int, A>, game: Game<int, int>, n: nat)
    reads session, session.sync, session.peers, game
  {
    && game.rules == Adding() && session.sync.neutral == 0 && session.localHandle == 0 && |session.peers| == 1
    && session.sync.tracks == Naught(n)
    && session.sync.currentFrame == n && session.sync.lastConfirmedFrame == session.lastChecksumFrame == NULL_FRAME
    && session.state == Playing && session.skipFrames == 0 && session.inputDelay == 0
    && session.peers[0].state == Running && session.peers[0].remoteMagic.Some?
    && session.peers[0].silentTicks == 1 && session.peers[0].lastReceivedFrame == NULL_FRAME
  }

  // Frame by frame.
  lemma NaughtFiled(n: nat)
    ensures AllSettledAt(0, FiledIn(0, Naught(n), 0, n, 0, 0), n + 1) == Naught(n + 1)
  {
    assert KnownTo(0, Zeros(n), n) + [0] == Zeros(n + 1);
    assert KnownTo(0, Zeros(n + 1), n + 1) == KnownTo(0, [], n + 1) == Zeros(n + 1);
  }

  // All five replies arrive at a session that has just been opened.
  method HearReplies<A(==)>(session: P2PSession<int, int, A>, game: Game<int, int>, players: seq<A>, magic: U32,
                            remote: U32)
    requires session.Valid() && InSync(session, game) && IsNew(session, players, magic) && |players| == 2
    requires game.rules == Adding() && session.sync.neutral == 0 && session.localHandle == session.inputDelay == 0
    modifies session`events, session`lasts, session`skipFrames, session`state, session.sync, session.sync.queues,
        set q | q in session.sync.queues :: q.inputs
    modifies session.peers
    ensures session.Valid() && InSync(session, game) && FramesIn(session, game, 0)
  {
    hide P2PSession.Valid, Mirrors, Taken, TickedAll, Adding, Replies, P2PSession.ConfirmedFrom, NewPeer, InitialToken,
        IsNew, Zeros, P2PSession.AllAlive;
    NewIsNaught(session, players, magic);
    ghost var was, addr := session.sync.tracks, session.peers[0].addr;
    ShakenIsRunning(addr, magic, remote, was, session.events);
    var _ := session.PollRemotePeers(Replies(session.peers[0].addr, magic, remote, SYNC_ROUNDTRIPS), 0);
    ConfirmedByOne(session, NULL_FRAME);
    assert session.Links()[0] == session.peers[0].View();
    ExtendedServesSame(was, session.sync.tracks);
  }

  lemma NewIsNaught<A>(session: P2PSession<int, int, A>, players: seq<A>, magic: U32)
    requires IsNew(session, players, magic) && |players| == 2
    ensures |session.peers| == 1 && session.Links() == [NewPeer(magic)] && session.Addresses() == [session.peers[0].addr]
    ensures session.AllAlive(DISCONNECT_TIMEOUT_TICKS - 1) && session.sync.tracks == Naught(0)
    ensures session.sync.currentFrame == 0 && session.sync.lastConfirmedFrame == session.lastChecksumFrame == NULL_FRAME
  {
    assert Zeros(0) == [];
    assert session.peers[0].View() == NewPeer(magic);
  }

  // The handshake.
  method ShakeHands<A(==)>(players: seq<A>, maxPrediction: nat, magic: U32, remote: U32)
    returns (session: P2PSession<int, int, A>, game: Game<int, int>)
    requires |players| == 2
    ensures fresh(session) && fresh(game) && fresh(session.peers) && fresh(session.sync) && fresh(session.sync.saved)
    ensures fresh(session.sync.saved.cells) && fresh(session.sync.queues)
    ensures fresh(set q | q in session.sync.queues :: q.inputs)
    ensures session.Valid() && InSync(session, game) && session.sync.maxPrediction == maxPrediction
    ensures FramesIn(session, game, 0)
  {
    hide P2PSession.Valid, InSync, Adding, FramesIn, IsNew;
    session, game := OpenGame(Adding(), 0, players, 0, maxPrediction, 0, magic);
    HearReplies(session, game, players, magic, remote);
  }

  // One frame more, with nothing heard.
  method OneNaughtMore<A(==)>(session: P2PSession<int, int, A>, game: Game<int, int>, n: nat)
    requires session.Valid() && InSync(session, game) && FramesIn(session, game, n)
    requires n < session.sync.maxPrediction < QUEUE_LEN
    modifies session`skipFrames, session`localInput, session.sync`currentFrame, session.sync`tracks,
        session.sync`given, session.sync.saved`head, session.sync.queues,
        set q | q in session.sync.queues :: q.inputs
    modifies session.peers, session.sync.saved.cells, game
    ensures session.Valid() && InSync(session, game) && FramesIn(session, game, n + 1)
  {
    hide P2PSession.Valid, InSync, PlainState, Seek, AllSettledAt, FiledIn, Adding;
    ReachLeavesRoom(session);
    NaughtFiled(n);
    session.AddLocalInput(0);
    var _ := RunFrame(session, game);
    assert session.Links()[0] == session.peers[0].View();
  }

  // The other player's inputs of both frames arrive, and are filed.
  lemma LateRun<A>(addr: A, link: Peer<int>, events: seq<Event<A>>)
    requires link.state == Running && link.remoteMagic.Some? && link.lastReceived == NULL_FRAME
    ensures var t := Taken(0, [addr], 0, Poll([link], [Track([0, 0], [0, 0]), Track([], [0, 0])], events, []),
                           [(addr, Message(link.remoteMagic.value, InputRun(0, NULL_FRAME, [1, 1])))]);
            && t.tracks == [Track([0, 0], [0, 0]), Track([1, 1], [0, 0])]
            && TickedAll([addr], t.(outgoing := []), 2, 1).links[0].lastReceived == 1
  {
    hide Received, Ticked, FiledRun;
    LateRunHeard(link);
    TickRemembers(Received(link, Message(link.remoteMagic.value, InputRun(0, NULL_FRAME, [1, 1]))).peer, 2);
  }

  lemma LateRunHeard(link: Peer<int>)
    requires link.state == Running && link.remoteMagic.Some? && link.lastReceived == NULL_FRAME
    ensures var o := Received(link, Message(link.remoteMagic.value, InputRun(0, NULL_FRAME, [1, 1])));
            && o.inputs == [(0, 1), (1, 1)] && o.peer.lastReceived == 1 && FiledRun(0, [], o.inputs) == [1, 1]
  {
    hide NewInputs, FiledRun;
    NewInputsAreTail(0, [1, 1], NULL_FRAME);
    FilingRunAppends(0, [], [(0, 1), (1, 1)]);
  }

  lemma SumsDiffer(tracks: seq<Track<int>>)
    requires tracks == [Track([0, 0], [0, 0]), Track([1, 1], [0, 0])]
    ensures IsSimulated(Adding(), tracks, 1, 0)
    ensures Adding().hash(PlainState(Adding(), 0, tracks, 1)) == 1
  {
    var served, plain := Served(tracks), Plain(0, tracks, 1);
    assert Play(Adding().step, 0, served, 0) == Play(Adding().step, 0, plain, 0) == 0;
    assert Row(served, 0)[1] == 0 && Row(plain, 0)[1] == 1;
  }

  lemma SimulatedIsOne<S, I>(rules: Rules<S, I>, tracks: seq<Track<I>>, frame: Frame, v: nat, w: nat)
    requires IsSimulated(rules, tracks, frame, v) && IsSimulated(rules, tracks, frame, w)
    ensures v == w
  {
  }

  lemma ConfirmedByOne<A>(session: P2PSession<int, int, A>, before: Frame)
    requires session.ConfirmedFrom(before) && |session.peers| == 1
    ensures session.sync.lastConfirmedFrame == Max(before, session.peers[0].lastReceivedFrame)
  {
  }

  // The other player's inputs of both frames arrive.
  method HearLate<A(==)>(session: P2PSession<int, int, A>, game: Game<int, int>)
    requires session.Valid() && InSync(session, game) && FramesIn(session, game, 2)
    modifies session`events, session`lasts, session`skipFrames, session`state, session.sync, session.sync.queues,
        set q | q in session.sync.queues :: q.inputs
    modifies session.peers
    ensures session.Valid() && InSync(session, game)
    ensures session.sync.tracks == [Track([0, 0], [0, 0]), Track([1, 1], [0, 0])]
    ensures session.sync.currentFrame == 2 && session.sync.lastConfirmedFrame == 1
    ensures game.rules == Adding() && session.sync.neutral == 0 && session.lastChecksumFrame == NULL_FRAME
  {
    hide P2PSession.Valid, Mirrors, Taken, TickedAll, Seek, Served, Adding, P2PSession.ConfirmedFrom;
    assert Zeros(2) == [0, 0];
    ghost var was, link := session.sync.tracks, session.peers[0].View();
    var addr := session.peers[0].addr;
    var message := Message(session.peers[0].remoteMagic.value, InputRun(0, NULL_FRAME, [1, 1]));
    LateRun(addr, link, session.events);
    assert session.Links() == [link] && session.Addresses() == [addr];
    var _ := session.PollRemotePeers([(addr, message)], 0);
    ConfirmedByOne(session, NULL_FRAME);
    assert session.Links()[0] == session.peers[0].View();
    ExtendedServesSame(was, session.sync.tracks);
  }

  // Between an input's arrival and the advance that makes good for it, the checksum published for a
  // confirmed frame can be that of a state that was guessed wrong.
  method PublishedTooEarly<A(==)>(players: seq<A>, maxPrediction: nat, magic: U32, remote: U32)
    returns (session: P2PSession<int, int, A>, game: Game<int, int>, published: Option<(Frame, nat)>)
    requires |players| == 2 && 2 <= maxPrediction < QUEUE_LEN
    ensures session.Valid() && InSync(session, game)
    ensures published == Some((1, 0))
    ensures session.sync.tracks == [Track([0, 0], [0, 0]), Track([1, 1], [0, 0])]
    ensures game.rules.hash(PlainState(game.rules, session.sync.neutral, session.sync.tracks, 1)) == 1
  {
    hide P2PSession.Valid, InSync, Seek, PlainState, IsSimulated, RightChecksum, Adding;
    session, game := ShakeHands(players, maxPrediction, magic, remote);
    OneNaughtMore(session, game, 0);
    OneNaughtMore(session, game, 1);
    HearLate(session, game);
    SumsDiffer(session.sync.tracks);
    var outgoing;
    published, outgoing := PublishChecksum(session, game);
    SimulatedIsOne(game.rules, session.sync.tracks, 1, 0, published.value.1);
  }
}
