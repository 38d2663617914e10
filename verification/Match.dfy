/** A whole match: any number of peers, each running its session, over a network that loses,
    duplicates and reorders packets at will.

    A side here is what `Sessions.P2PSession` keeps of a match: `Seats` proves that the class's own
    methods take these steps and no others. */
module Matches {
  import opened Timeline
  import opened Requests
  import opened InputQueues
  import opened Resimulation
  import opened RollbackSync
  import opened PeerProtocols
  import opened Delivery
  import opened Sessions

  // What the players agree on beforehand, and what each chose for itself.
  datatype Setup<!S, !I> = Setup(rules: Rules<S, I>, neutral: I, windows: seq<nat>, delays: seq<nat>, magics: seq<U32>)
  {
    predicate Valid() {
      |windows| == |delays| == |magics| && 2 <= |windows|
    }

    function Players(): nat { |windows| }
  }

  // One peer's session: a track and a connection per player (its own connection entry is unused), and
  // whether it has advanced with no packet arriving since.
  datatype Side<I> = Side(frame: nat, confirmed: Frame, tracks: seq<Track<I>>, links: seq<Peer<I>>, quiet: bool)

  datatype Packet<I> = Packet(from: nat, to: nat, message: Message<I>)

  // `net` holds every packet ever sent: a packet may arrive at any time after, any number of times,
  // or never.
  datatype Match<!I(==)> = Match(sides: seq<Side<I>>, net: iset<Packet<I>>)

  datatype Action<I> =
    | Deliver(packet: Packet<I>)
    | TickLink(at: nat, peer: nat)
    | ConfirmUpTo(at: nat, frame: Frame)
    | Advance(at: nat, input: I)
    | Publish(at: nat)

  ghost function Sent<I>(from: nat, to: nat, messages: seq<Message<I>>): iset<Packet<I>> {
    iset m | m in messages :: Packet(from, to, m)
  }

  ghost function Begin<S, I>(setup: Setup<S, I>): Match<I>
    requires setup.Valid()
  {
    var n := setup.Players();
    Match(seq(n, p requires 0 <= p < n =>
                Side(0, NULL_FRAME, seq(n, _ => Track([], [])), seq(n, _ => NewPeer(setup.magics[p])), false)), iset{})
  }

  ghost predicate Shaped<S, I>(setup: Setup<S, I>, s: Match<I>) {
    && setup.Valid() && |s.sides| == setup.Players()
    && forall p :: 0 <= p < |s.sides| ==>
         && |s.sides[p].tracks| == |s.sides[p].links| == setup.Players()
         && forall i :: 0 <= i < setup.Players() ==>
              |s.sides[p].tracks[i].served| == s.sides[p].frame && s.sides[p].links[i].lastReceived >= NULL_FRAME
  }

  // When the code takes a step. Confirmation counts every peer, none being disconnected; the
  // prediction window bounds advancing; a checksum goes out after a successful advance, before the next
  // poll, and only while its state is still saved.
  ghost predicate Enabled<S, I>(setup: Setup<S, I>, s: Match<I>, a: Action<I>)
    requires Shaped(setup, s)
  {
    var n := setup.Players();
    match a
    case Deliver(packet) => packet in s.net && packet.from < n && packet.to < n && packet.from != packet.to
    case TickLink(at, peer) => at < n && peer < n && at != peer
    case ConfirmUpTo(at, frame) =>
      at < n && forall q :: 0 <= q < n && q != at ==>
        s.sides[at].links[q].state != Disconnected && frame <= s.sides[at].links[q].lastReceived
    case Advance(at, input) =>
      at < n && (if s.sides[at].confirmed == NULL_FRAME then s.sides[at].frame
                 else Max(s.sides[at].frame - s.sides[at].confirmed, 0)) < setup.windows[at]
    case Publish(at) =>
      && at < n && s.sides[at].confirmed != NULL_FRAME
      && 0 <= s.sides[at].confirmed < s.sides[at].frame <= s.sides[at].confirmed + setup.windows[at] + 2
      && s.sides[at].quiet
  }

  ghost function After<S, I>(setup: Setup<S, I>, s: Match<I>, a: Action<I>): Match<I>
    requires Shaped(setup, s) && Enabled(setup, s, a)
  {
    match a
    case Deliver(packet) =>
      var p, q := packet.to, packet.from;
      var side := s.sides[p];
      var o := Received(side.links[q], packet.message);
      ReceivedContinues(side.links[q], packet.message);
      Match(s.sides[p := side.(links := side.links[q := o.peer],
                              tracks := FiledFor(setup.neutral, side.tracks, q, o.inputs),
                              quiet := false)],
            s.net + Sent(p, q, o.replies))
    case TickLink(p, q) =>
      var side := s.sides[p];
      var o := Ticked(side.links[q], side.frame);
      Match(s.sides[p := side.(links := side.links[q := o.peer])], s.net + Sent(p, q, o.replies))
    case ConfirmUpTo(p, frame) =>
      s.(sides := s.sides[p := s.sides[p].(confirmed := Max(s.sides[p].confirmed, frame))])
    case Advance(p, input) =>
      var side, delay := s.sides[p], EffectiveDelay(setup.delays[p]);
      var filed := FiledIn(setup.neutral, side.tracks, p, side.frame, delay, input);
      s.(sides := s.sides[p := side.(frame := side.frame + 1,
                                     tracks := AllSettledAt(setup.neutral, filed, side.frame + 1),
                                     links := Queued(side.links, p, side.frame + delay, input), quiet := true)])
    case Publish(p) =>
      var side := s.sides[p];
      var value := setup.rules.hash(Play(setup.rules.step, setup.rules.start, Served(side.tracks), side.confirmed));
      Match(s.sides[p := side.(links := Stamped(side.links, p, side.confirmed, value))],
            s.net + Announced(side.links, p, side.confirmed, value))
  }

  ghost function Queued<I>(links: seq<Peer<I>>, self: nat, frame: Frame, input: I): seq<Peer<I>> {
    seq(|links|, q requires 0 <= q < |links| =>
      if q == self then links[q] else links[q].(pending := links[q].pending + [(frame, input)]))
  }

  ghost function Stamped<I>(links: seq<Peer<I>>, self: nat, frame: Frame, value: nat): seq<Peer<I>> {
    seq(|links|, q requires 0 <= q < |links| => if q == self then links[q] else WithChecksum(links[q], frame, value))
  }

  ghost function Announced<I>(links: seq<Peer<I>>, self: nat, frame: Frame, value: nat): iset<Packet<I>> {
    iset q | 0 <= q < |links| && q != self :: Packet(self, q, Message(links[q].magic, Checksum(frame, value)))
  }

  // ---- What every run keeps ----

  ghost function Own<I>(s: Match<I>, p: nat): seq<I>
    requires p < |s.sides| && p < |s.sides[p].tracks|
  {
    s.sides[p].tracks[p].log
  }

  // What `q` has filed for player `p`.
  ghost function FiledAt<I>(s: Match<I>, q: nat, p: nat): seq<I>
    requires q < |s.sides| && p < |s.sides[q].tracks|
  {
    s.sides[q].tracks[p].log
  }

  // The checksum every side ought to publish for frame `f`: that of simulating the players' own inputs.
  ghost predicate IsTrue<S, I>(setup: Setup<S, I>, s: Match<I>, f: Frame, value: nat)
    requires Shaped(setup, s)
  {
    && 0 <= f && (forall r :: 0 <= r < setup.Players() ==> f <= |Own(s, r)|)
    && value == setup.rules.hash(Play(setup.rules.step, setup.rules.start, OwnLogs(setup, s), f))
  }

  ghost function OwnLogs<S, I>(setup: Setup<S, I>, s: Match<I>): seq<seq<I>>
    requires Shaped(setup, s)
  {
    seq(setup.Players(), r requires 0 <= r < setup.Players() => Own(s, r))
  }

  ghost predicate AllTrue<S, I>(setup: Setup<S, I>, s: Match<I>, checksums: seq<(Frame, nat)>)
    requires Shaped(setup, s)
  {
    forall e :: e in checksums ==> IsTrue(setup, s, e.0, e.1)
  }

  ghost predicate SideOk<S, I>(setup: Setup<S, I>, s: Match<I>, p: nat)
    requires Shaped(setup, s) && p < setup.Players()
  {
    && Fits(setup.neutral, s.sides[p].tracks, s.sides[p].frame, s.sides[p].confirmed, setup.windows[p])
    && OwnLog(setup.neutral, Own(s, p), EffectiveDelay(setup.delays[p]), s.sides[p].frame)
    && (s.sides[p].quiet ==> Seek(s.sides[p].tracks) == NULL_FRAME)
  }

  ghost predicate InStep<I>(own: seq<I>, delay: nat, pending: seq<(Frame, I)>, lastAcked: Frame,
                            there: seq<I>, received: Frame, confirmed: Frame) {
    && there <= own && received == |there| - 1 && confirmed < |there|
    && Holding(own, delay, pending, lastAcked, |there|)
  }

  // The connection from `p` to `q`: what `q` filed is a prefix of what `p` made, and `p` still holds
  // whatever `q` lacks.
  ghost predicate LinkOk<S, I>(setup: Setup<S, I>, s: Match<I>, p: nat, q: nat)
    requires Shaped(setup, s) && p < setup.Players() && q < setup.Players()
  {
    var link := s.sides[p].links[q];
    && InStep(Own(s, p), EffectiveDelay(setup.delays[p]), link.pending, link.lastAcked,
              FiledAt(s, q, p), s.sides[q].links[p].lastReceived, s.sides[q].confirmed)
    && AllTrue(setup, s, link.localChecksums)
  }

  ghost predicate PacketOk<S, I>(setup: Setup<S, I>, s: Match<I>, k: Packet<I>)
    requires Shaped(setup, s)
  {
    && k.from < setup.Players() && k.to < setup.Players()
    && match k.message.body
       case InputRun(startFrame, ackFrame, inputs) =>
         && Carries(Own(s, k.from), EffectiveDelay(setup.delays[k.from]), startFrame, inputs,
             |FiledAt(s, k.to, k.from)|)
         && ackFrame < |FiledAt(s, k.from, k.to)|
       case InputAck(ackFrame) => ackFrame < |FiledAt(s, k.from, k.to)|
       case Checksum(frame, value) => IsTrue(setup, s, frame, value)
       case _ => true
  }

  ghost predicate Invariant<S, I>(setup: Setup<S, I>, s: Match<I>) {
    && Shaped(setup, s)
    && (forall p :: 0 <= p < setup.Players() ==> SideOk(setup, s, p))
    && (forall p, q :: 0 <= p < setup.Players() && 0 <= q < setup.Players() && p != q ==> LinkOk(setup, s, p, q))
    && forall k :: k in s.net && k.from != k.to ==> PacketOk(setup, s, k)
  }

  // From `s` to `t` every log has only grown.
  ghost predicate Grown<S, I>(setup: Setup<S, I>, s: Match<I>, t: Match<I>) {
    && Shaped(setup, s) && Shaped(setup, t)
    && forall p, q :: 0 <= p < setup.Players() && 0 <= q < setup.Players() ==> FiledAt(s, q, p) <= FiledAt(t, q, p)
  }

  lemma TrueStays<S, I>(setup: Setup<S, I>, s: Match<I>, t: Match<I>, f: Frame, value: nat)
    requires Grown(setup, s, t) && IsTrue(setup, s, f, value)
    ensures IsTrue(setup, t, f, value)
  {
    forall r | 0 <= r < setup.Players()
      ensures f <= |Own(s, r)| && f <= |Own(t, r)| && Own(s, r)[..f] == Own(t, r)[..f]
    {
      assert FiledAt(s, r, r) <= FiledAt(t, r, r);
    }
    PlayReads(setup.rules.step, setup.rules.start, OwnLogs(setup, s), OwnLogs(setup, t), f);
  }

  lemma AllStayTrue<S, I>(setup: Setup<S, I>, s: Match<I>, t: Match<I>, checksums: seq<(Frame, nat)>)
    requires Grown(setup, s, t) && AllTrue(setup, s, checksums)
    ensures AllTrue(setup, t, checksums)
  {
    forall e | e in checksums ensures IsTrue(setup, t, e.0, e.1) {
      TrueStays(setup, s, t, e.0, e.1);
    }
  }

  lemma PacketStays<S, I>(setup: Setup<S, I>, s: Match<I>, t: Match<I>, k: Packet<I>)
    requires Grown(setup, s, t) && PacketOk(setup, s, k)
    ensures PacketOk(setup, t, k)
  {
    var p, q := k.from, k.to;
    assert FiledAt(s, p, p) <= FiledAt(t, p, p) && FiledAt(s, q, p) <= FiledAt(t, q, p) &&
        FiledAt(s, p, q) <= FiledAt(t, p, q);
    if k.message.body.Checksum? {
      TrueStays(setup, s, t, k.message.body.frame, k.message.body.checksum);
    }
  }

  lemma NetStays<S, I>(setup: Setup<S, I>, s: Match<I>, t: Match<I>, added: iset<Packet<I>>)
    requires Invariant(setup, s) && Grown(setup, s, t) && t.net == s.net + added
    requires forall k :: k in added && k.from != k.to ==> PacketOk(setup, t, k)
    ensures forall k :: k in t.net && k.from != k.to ==> PacketOk(setup, t, k)
  {
    forall k | k in t.net && k.from != k.to ensures PacketOk(setup, t, k) {
      if k in s.net {
        PacketStays(setup, s, t, k);
      }
    }
  }

  lemma BeginningFits<I>(neutral: I, players: nat, window: nat, delay: nat)
    ensures Fits(neutral, seq(players, _ => Track([], [])), 0, NULL_FRAME, window)
    ensures OwnLog(neutral, [], delay, 0) && Holding<I>([], delay, [], NULL_FRAME, 0)
  {
    NothingFits(neutral, players, window);
  }

  lemma BeginInvariant<S, I>(setup: Setup<S, I>)
    requires setup.Valid()
    ensures Invariant(setup, Begin(setup))
  {
    hide Fits, IsTrue, OwnLog;
    var s := Begin(setup);
    assert Shaped(setup, s);
    forall p | 0 <= p < setup.Players() ensures SideOk(setup, s, p) {
      BeginningFits(setup.neutral, setup.Players(), setup.windows[p], EffectiveDelay(setup.delays[p]));
      assert s.sides[p].tracks == seq(setup.Players(), _ => Track([], []));
    }
  }

  lemma LinkTicked<S, I>(setup: Setup<S, I>, s: Match<I>, t: Match<I>, p: nat, q: nat, a: nat, b: nat)
    requires Shaped(setup, s) && Enabled(setup, s, TickLink(p, q)) && t == After(setup, s, TickLink(p, q))
    requires Grown(setup, s, t) && a < setup.Players() && b < setup.Players() && a != b && LinkOk(setup, s, a, b)
    ensures LinkOk(setup, t, a, b)
  {
    hide Ticked, AllTrue, Holding, EffectiveDelay, Carries;
    AllStayTrue(setup, s, t, s.sides[a].links[b].localChecksums);
    if a == p && b == q {
      TickSends(s.sides[p].links[q], s.sides[p].frame, Own(s, p), EffectiveDelay(setup.delays[p]), |FiledAt(s, q, p)|);
    } else if a == q && b == p {
      TickRemembers(s.sides[p].links[q], s.sides[p].frame);
    }
  }

  lemma TickLinks<S, I>(setup: Setup<S, I>, s: Match<I>, t: Match<I>, p: nat, q: nat)
    requires Invariant(setup, s) && Enabled(setup, s, TickLink(p, q)) && t == After(setup, s, TickLink(p, q))
    ensures Grown(setup, s, t) && |FiledAt(s, q, p)| <= |Own(s, p)|
    ensures forall a, b :: 0 <= a < setup.Players() && 0 <= b < setup.Players() && a != b ==> LinkOk(setup, t, a, b)
  {
    hide SideOk, Ticked, AllTrue, Holding, EffectiveDelay, Carries, PacketOk;
    assert LinkOk(setup, s, p, q);
    TickRemembers(s.sides[p].links[q], s.sides[p].frame);
    assert Grown(setup, s, t);
    forall a, b | 0 <= a < setup.Players() && 0 <= b < setup.Players() && a != b ensures LinkOk(setup, t, a, b) {
      assert LinkOk(setup, s, a, b);
      LinkTicked(setup, s, t, p, q, a, b);
    }
  }

  lemma TickKeeps<S, I>(setup: Setup<S, I>, s: Match<I>, p: nat, q: nat)
    requires Invariant(setup, s) && Enabled(setup, s, TickLink(p, q))
    ensures Invariant(setup, After(setup, s, TickLink(p, q)))
  {
    hide Fits, OwnLog, Ticked, IsTrue, AllTrue, Seek, Holding, EffectiveDelay, Carries;
    var t := After(setup, s, TickLink(p, q));
    TickLinks(setup, s, t, p, q);
    var link, received := s.sides[p].links[q], |FiledAt(s, q, p)|;
    var o := Ticked(link, s.sides[p].frame);
    assert LinkOk(setup, s, p, q) && LinkOk(setup, s, q, p);
    TickSends(link, s.sides[p].frame, Own(s, p), EffectiveDelay(setup.delays[p]), received);
    forall a | 0 <= a < setup.Players() ensures SideOk(setup, t, a) {
      assert SideOk(setup, s, a);
    }
    NetStays(setup, s, t, Sent(p, q, o.replies));
  }

  // A tick changes nothing about a connection but what it still holds, and sends nothing but what it
  // holds, what it has received, and idle talk.
  lemma TickSends<I>(link: Peer<I>, frame: Frame, own: seq<I>, delay: nat, received: nat)
    requires Holding(own, delay, link.pending, link.lastAcked, received) && received <= |own|
    ensures var o := Ticked(link, frame);
            && o.peer.lastReceived == link.lastReceived && o.peer.lastAcked == link.lastAcked
            && o.peer.localChecksums == link.localChecksums
            && Holding(own, delay, o.peer.pending, link.lastAcked, received)
            && forall m :: m in o.replies ==>
                 !m.body.InputAck? && !m.body.Checksum? &&
                 (m.body.InputRun? ==> Carries(own, delay, m.body.startFrame, m.body.inputs, received)
                                       && m.body.ackFrame == link.lastReceived)
  {
    hide Holding, Carries, Unacked, PendingInputs, SaturatingInc, Clamp;
    RetiringKeeps(own, delay, link.pending, link.lastAcked, received);
  }

  // ---- A packet arrives ----

  // What a packet from `q` does at `p`: the filed inputs stay a prefix of `q`'s own, and `p` believes
  // acked, and acks, no more than what has arrived.
  lemma PacketArrives<I>(neutral: I, own: seq<I>, delay: nat, made: nat, log: seq<I>, link: Peer<I>, m: Message<I>,
                         returned: nat)
    requires OwnLog(neutral, own, delay, made) && log <= own && link.lastReceived == |log| - 1
    requires link.lastAcked < returned
    requires m.body.InputRun? ==> Carries(own, delay, m.body.startFrame, m.body.inputs, |log|) && m.body.ackFrame < returned
    requires m.body.InputAck? ==> m.body.ackFrame < returned
    ensures var o := Received(link, m);
            && Contiguous(|log|, o.inputs)
            && log <= FiledRun(neutral, log, o.inputs) <= own
            && o.peer.lastReceived == |FiledRun(neutral, log, o.inputs)| - 1
            && o.peer.lastAcked < returned
            && o.peer.pending == link.pending && o.peer.localChecksums == link.localChecksums
            && forall r :: r in o.replies ==>
                 !r.body.InputRun? && !r.body.Checksum? &&
                 (r.body.InputAck? ==> r.body.ackFrame == o.peer.lastReceived)
  {
    hide NewInputs, FiledRun, OwnLog;
    ReceivedContinues(link, m);
    var o := Received(link, m);
    RunExtends(neutral, log, o.inputs);
    FilingRunAppends(neutral, log, o.inputs);
    if m.body.InputRun? && (log == [] || m.body.startFrame <= |log|) {
      FilingPacketKeepsPrefix(neutral, own, delay, made, log, m.body.startFrame, m.body.inputs);
      assert o.inputs == [] || o.inputs == NewInputs(m.body.startFrame, m.body.inputs, |log| - 1);
    } else {
      assert o.inputs == [];
    }
  }

  lemma {:induction false} FilingRunFits<I>(neutral: I, tracks: seq<Track<I>>, count: nat, confirmed: Frame,
                                            maxPrediction: nat,
                                            player: nat, run: seq<(Frame, I)>)
    requires Fits(neutral, tracks, count, confirmed, maxPrediction) && player < |tracks|
    requires forall i :: 0 <= i < |run| ==> 0 <= run[i].0
    ensures Fits(neutral, FiledFor(neutral, tracks, player, run), count, confirmed, maxPrediction)
    decreases |run|
  {
    if run == [] {
      assert FiledFor(neutral, tracks, player, run) == tracks;
    } else {
      var n := |run| - 1;
      FilingRunFits(neutral, tracks, count, confirmed, maxPrediction, player, run[..n]);
      var before := FiledFor(neutral, tracks, player, run[..n]);
      FilingFits(neutral, before, count, confirmed, maxPrediction, player, run[n].0, 0, run[n].1);
      assert FiledFor(neutral, tracks, player, run) == FiledIn(neutral, before, player, run[n].0, 0, run[n].1);
    }
  }

  // Holding is about what has been received so far, and survives more arriving.
  lemma HoldingGrows<I>(own: seq<I>, delay: nat, pending: seq<(Frame, I)>, lastAcked: Frame, before: nat, after: nat)
    requires Holding(own, delay, pending, lastAcked, before) && before <= after
    ensures Holding(own, delay, pending, lastAcked, after)
  {
  }

  // All that the arrival of a packet does to the side it arrives at.
  lemma Delivered<S, I>(setup: Setup<S, I>, s: Match<I>, k: Packet<I>)
    requires Invariant(setup, s) && Enabled(setup, s, Deliver(k))
    ensures var p, q := k.to, k.from;
            var link, log, own := s.sides[p].links[q], FiledAt(s, p, q), Own(s, q);
            var o := Received(link, k.message);
            && Contiguous(|log|, o.inputs)
            && Fits(setup.neutral, FiledFor(setup.neutral, s.sides[p].tracks, q, o.inputs), s.sides[p].frame,
                   s.sides[p].confirmed, setup.windows[p])
            && log <= FiledRun(setup.neutral, log, o.inputs) <= own
            && o.peer.lastReceived == |FiledRun(setup.neutral, log, o.inputs)| - 1
            && o.peer.lastAcked < |FiledAt(s, q, p)|
            && o.peer.pending == link.pending && o.peer.localChecksums == link.localChecksums
            && forall r :: r in o.replies ==>
                 !r.body.InputRun? && !r.body.Checksum? &&
                 (r.body.InputAck? ==> r.body.ackFrame == o.peer.lastReceived)
  {
    hide Fits, OwnLog, Received, FiledRun, AllTrue, Holding, Carries, Seek, EffectiveDelay;
    var p, q := k.to, k.from;
    var link, log := s.sides[p].links[q], FiledAt(s, p, q);
    assert LinkOk(setup, s, p, q) && LinkOk(setup, s, q, p) && SideOk(setup, s, p) && SideOk(setup, s, q) &&
        PacketOk(setup, s, k);
    AckedBound(Own(s, p), EffectiveDelay(setup.delays[p]), link.pending, link.lastAcked, |FiledAt(s, q, p)|);
    PacketArrives(setup.neutral, Own(s, q), EffectiveDelay(setup.delays[q]), s.sides[q].frame, log, link, k.message,
        |FiledAt(s, q, p)|);
    FilingRunFits(setup.neutral, s.sides[p].tracks, s.sides[p].frame, s.sides[p].confirmed, setup.windows[p], q,
        Received(link, k.message).inputs);
  }

  lemma DeliverKeeps<S, I>(setup: Setup<S, I>, s: Match<I>, k: Packet<I>)
    requires Invariant(setup, s) && Enabled(setup, s, Deliver(k))
    ensures Invariant(setup, After(setup, s, Deliver(k)))
  {
    hide Fits, OwnLog, Received, FiledRun, LinkOk, Carries, Seek, EffectiveDelay;
    var t := After(setup, s, Deliver(k));
    var o := Received(s.sides[k.to].links[k.from], k.message);
    Delivered(setup, s, k);
    assert Grown(setup, s, t);
    DeliverLinks(setup, s, t, k, o);
    forall a | 0 <= a < setup.Players() ensures SideOk(setup, t, a) {
      assert SideOk(setup, s, a);
    }
    NetStays(setup, s, t, Sent(k.to, k.from, o.replies));
  }

  lemma AckedBound<I>(own: seq<I>, delay: nat, pending: seq<(Frame, I)>, lastAcked: Frame, received: nat)
    requires Holding(own, delay, pending, lastAcked, received)
    ensures lastAcked < received
    ensures forall acked: Frame :: acked < received ==> Holding(own, delay, pending, acked, received)
  {
  }

  lemma DeliverLinks<S, I>(setup: Setup<S, I>, s: Match<I>, t: Match<I>, k: Packet<I>, o: Outcome<I>)
    requires Invariant(setup, s) && Enabled(setup, s, Deliver(k)) && Grown(setup, s, t)
    requires t.sides == s.sides[k.to := t.sides[k.to]] && t.sides[k.to].confirmed == s.sides[k.to].confirmed
    requires t.sides[k.to].links == s.sides[k.to].links[k.from := o.peer]
    requires forall r :: 0 <= r < setup.Players() && r != k.from ==> FiledAt(t, k.to, r) == FiledAt(s, k.to, r)
    requires FiledAt(t, k.to, k.from) <= Own(s, k.from) && o.peer.lastReceived == |FiledAt(t, k.to, k.from)| - 1
    requires o.peer.lastAcked < |FiledAt(s, k.from, k.to)|
    requires o.peer.pending == s.sides[k.to].links[k.from].pending
    requires o.peer.localChecksums == s.sides[k.to].links[k.from].localChecksums
    ensures forall a, b :: 0 <= a < setup.Players() && 0 <= b < setup.Players() && a != b ==> LinkOk(setup, t, a, b)
  {
    hide Fits, OwnLog, IsTrue, AllTrue, Holding, Seek;
    var p, q := k.to, k.from;
    forall a, b | 0 <= a < setup.Players() && 0 <= b < setup.Players() && a != b ensures LinkOk(setup, t, a, b) {
      assert LinkOk(setup, s, a, b);
      var link, delay := s.sides[a].links[b], EffectiveDelay(setup.delays[a]);
      assert FiledAt(s, b, a) <= FiledAt(t, b, a);
      AckedBound(Own(s, a), delay, link.pending, link.lastAcked, |FiledAt(s, b, a)|);
      HoldingGrows(Own(s, a), delay, link.pending, link.lastAcked, |FiledAt(s, b, a)|, |FiledAt(t, b, a)|);
      AckedBound(Own(s, a), delay, link.pending, link.lastAcked, |FiledAt(t, b, a)|);
      AllStayTrue(setup, s, t, link.localChecksums);
      assert Own(t, a) == Own(s, a) by {
        assert a == p ==> FiledAt(t, p, p) == FiledAt(s, p, p);
      }
      assert Holding(Own(s, a), delay, link.pending, t.sides[a].links[b].lastAcked, |FiledAt(t, b, a)|);
    }
  }

  // ---- Confirming, advancing, publishing ----

  lemma ConfirmLinks<S, I>(setup: Setup<S, I>, s: Match<I>, t: Match<I>, p: nat, frame: Frame)
    requires Invariant(setup, s) && Enabled(setup, s, ConfirmUpTo(p, frame))
    requires t == After(setup, s, ConfirmUpTo(p, frame))
    ensures Grown(setup, s, t)
    ensures forall a, b :: 0 <= a < setup.Players() && 0 <= b < setup.Players() && a != b ==> LinkOk(setup, t, a, b)
  {
    hide IsTrue, AllTrue, Holding, SideOk, EffectiveDelay, PacketOk;
    assert Grown(setup, s, t);
    forall a, b | 0 <= a < setup.Players() && 0 <= b < setup.Players() && a != b ensures LinkOk(setup, t, a, b) {
      assert LinkOk(setup, s, a, b);
      AllStayTrue(setup, s, t, s.sides[a].links[b].localChecksums);
    }
  }

  lemma ConfirmKeeps<S, I>(setup: Setup<S, I>, s: Match<I>, p: nat, frame: Frame)
    requires Invariant(setup, s) && Enabled(setup, s, ConfirmUpTo(p, frame))
    ensures Invariant(setup, After(setup, s, ConfirmUpTo(p, frame)))
  {
    hide AllTrue, Holding, LeastMismatch, Reachable, Seek, EffectiveDelay, PacketOk;
    var t := After(setup, s, ConfirmUpTo(p, frame));
    ConfirmLinks(setup, s, t, p, frame);
    forall a | 0 <= a < setup.Players() ensures SideOk(setup, t, a) {
      assert SideOk(setup, s, a);
      forall i | 0 <= i < setup.Players()
        ensures t.sides[a].confirmed < |t.sides[a].tracks[i].log| || t.sides[a].frame <= |t.sides[a].tracks[i].log|
      {
        if i != a {
          assert LinkOk(setup, t, i, a);
        }
      }
    }
    NetStays(setup, s, t, iset{});
  }

  // One advance at `p`, the local input filed: fit for the next frame, everything else as it was.
  lemma AdvanceSide<S, I>(setup: Setup<S, I>, s: Match<I>, p: nat, input: I)
    requires Invariant(setup, s) && Enabled(setup, s, Advance(p, input))
    ensures var side, delay := s.sides[p], EffectiveDelay(setup.delays[p]);
            var filed := FiledIn(setup.neutral, side.tracks, p, side.frame, delay, input);
            && Fits(setup.neutral, AllSettledAt(setup.neutral, filed, side.frame + 1), side.frame + 1, side.confirmed,
                setup.windows[p])
            && OwnLog(setup.neutral, filed[p].log, delay, side.frame + 1) && Own(s, p) <= filed[p].log
            && Seek(AllSettledAt(setup.neutral, filed, side.frame + 1)) == NULL_FRAME
            && forall pending, lastAcked, received :: Holding(Own(s, p), delay, pending, lastAcked, received) ==>
                 Holding(filed[p].log, delay, pending + [(side.frame + delay, input)], lastAcked, received)
  {
    hide Fits, Holding, Filed, OwnLog, Seek, AllSettledAt, EffectiveDelay, AllTrue, IsTrue;
    var side, delay := s.sides[p], EffectiveDelay(setup.delays[p]);
    assert SideOk(setup, s, p);
    MakingOne(setup.neutral, Own(s, p), delay, side.frame, input);
    FilingFits(setup.neutral, side.tracks, side.frame, side.confirmed, setup.windows[p], p, side.frame, delay, input);
    var filed := FiledIn(setup.neutral, side.tracks, p, side.frame, delay, input);
    forall i | 0 <= i < |filed| ensures side.confirmed < |filed[i].log| || side.frame < |filed[i].log| {
      if i != p {
        assert LinkOk(setup, s, i, p);
      }
    }
    AdvancingFits(setup.neutral, filed, side.frame, side.confirmed, setup.windows[p]);
    SettledSeeksNothing(setup.neutral, filed, side.frame + 1);
  }

  // What an advance changes: one log and what that player's connections hold.
  lemma AdvanceMoves<S, I>(setup: Setup<S, I>, s: Match<I>, t: Match<I>, p: nat, input: I)
    requires Shaped(setup, s) && Enabled(setup, s, Advance(p, input)) && t == After(setup, s, Advance(p, input))
    ensures Shaped(setup, t)
    ensures var side, delay := s.sides[p], EffectiveDelay(setup.delays[p]);
            && Own(t, p) == Filed(setup.neutral, Own(s, p), side.frame, delay, input)
            && forall q :: 0 <= q < setup.Players() && q != p ==>
                 t.sides[p].links[q] ==
                     side.links[q].(pending := side.links[q].pending + [(side.frame + delay, input)])
    ensures forall a, b :: 0 <= a < setup.Players() && 0 <= b < setup.Players() && (a != p || b != p) ==>
              FiledAt(t, a, b) == FiledAt(s, a, b)
    ensures forall a, b :: 0 <= a < setup.Players() && 0 <= b < setup.Players() && a != p ==>
              t.sides[a].links[b] == s.sides[a].links[b]
    ensures forall a :: 0 <= a < setup.Players() ==> t.sides[a].confirmed == s.sides[a].confirmed
  {
    hide Filed, EffectiveDelay, KnownTo;
  }

  lemma AdvanceLink<S, I>(setup: Setup<S, I>, s: Match<I>, t: Match<I>, p: nat, input: I, a: nat, b: nat)
    requires Invariant(setup, s) && Enabled(setup, s, Advance(p, input)) && t == After(setup, s, Advance(p, input))
    requires a < setup.Players() && b < setup.Players() && a != b && Grown(setup, s, t)
    ensures LinkOk(setup, t, a, b)
  {
    assert LinkOk(setup, s, a, b);
    AdvanceMoves(setup, s, t, p, input);
    hide Invariant, Enabled, After, AllTrue, Holding, Filed, AllSettledAt, EffectiveDelay, Fits, OwnLog, Seek,
        InStep, Grown;
    AllStayTrue(setup, s, t, s.sides[a].links[b].localChecksums);
    if a == p {
      AdvanceSide(setup, s, p, input);
      var link := s.sides[p].links[b];
      MoreInStep(Own(s, p), Own(t, p), EffectiveDelay(setup.delays[p]), link.pending, t.sides[p].links[b].pending,
          link.lastAcked, FiledAt(s, b, p), s.sides[b].links[p].lastReceived, s.sides[b].confirmed);
    }
  }

  lemma MoreInStep<I>(own: seq<I>, longer: seq<I>, delay: nat, pending: seq<(Frame, I)>, more: seq<(Frame, I)>,
                      lastAcked: Frame, there: seq<I>, received: Frame, confirmed: Frame)
    requires InStep(own, delay, pending, lastAcked, there, received, confirmed) && own <= longer
    requires Holding(own, delay, pending, lastAcked, |there|) ==> Holding(longer, delay, more, lastAcked, |there|)
    ensures InStep(longer, delay, more, lastAcked, there, received, confirmed)
  {
  }

  lemma AdvanceLinks<S, I>(setup: Setup<S, I>, s: Match<I>, t: Match<I>, p: nat, input: I)
    requires Invariant(setup, s) && Enabled(setup, s, Advance(p, input)) && t == After(setup, s, Advance(p, input))
    ensures Grown(setup, s, t)
    ensures forall a, b :: 0 <= a < setup.Players() && 0 <= b < setup.Players() && a != b ==> LinkOk(setup, t, a, b)
  {
    AdvanceMoves(setup, s, t, p, input);
    AdvanceSide(setup, s, p, input);
    hide Enabled, After, SideOk, LinkOk, PacketOk, Filed, Holding, EffectiveDelay, Fits, OwnLog, Seek, AllSettledAt;
    assert Grown(setup, s, t);
    forall a, b | 0 <= a < setup.Players() && 0 <= b < setup.Players() && a != b ensures LinkOk(setup, t, a, b) {
      AdvanceLink(setup, s, t, p, input, a, b);
    }
  }

  lemma AdvanceKeeps<S, I>(setup: Setup<S, I>, s: Match<I>, p: nat, input: I)
    requires Invariant(setup, s) && Enabled(setup, s, Advance(p, input))
    ensures Invariant(setup, After(setup, s, Advance(p, input)))
  {
    hide Fits, OwnLog, IsTrue, LinkOk, Holding, Filed, Seek, EffectiveDelay, KnownTo, PacketOk;
    var t := After(setup, s, Advance(p, input));
    AdvanceSide(setup, s, p, input);
    AdvanceLinks(setup, s, t, p, input);
    forall a | 0 <= a < setup.Players() ensures SideOk(setup, t, a) {
      assert SideOk(setup, s, a);
    }
    NetStays(setup, s, t, iset{});
  }

  // The value of the checksum a side publishes in this state.
  ghost function PublishedValue<S, I>(setup: Setup<S, I>, s: Match<I>, p: nat): nat
    requires Shaped(setup, s) && Enabled(setup, s, Publish(p))
  {
    setup.rules.hash(Play(setup.rules.step, setup.rules.start, Served(s.sides[p].tracks), s.sides[p].confirmed))
  }

  // What a side has simulated up to its confirmed frame, with nothing outstanding, is everyone's own.
  lemma PublishedIsTrue<S, I>(setup: Setup<S, I>, s: Match<I>, p: nat)
    requires Invariant(setup, s) && Enabled(setup, s, Publish(p))
    ensures var side := s.sides[p];
            IsTrue(setup, s, side.confirmed,
                   setup.rules.hash(Play(setup.rules.step, setup.rules.start, Served(side.tracks), side.confirmed)))
  {
    hide LeastMismatch, Holding, Reachable;
    var side := s.sides[p];
    var f := side.confirmed;
    assert SideOk(setup, s, p);
    NothingToUndo(setup.neutral, side.tracks, side.frame, f, setup.windows[p]);
    forall r | 0 <= r < setup.Players()
      ensures f <= |Own(s, r)| && side.tracks[r].served[..f] == Own(s, r)[..f]
    {
      if r != p {
        assert LinkOk(setup, s, r, p);
      }
      assert side.tracks[r] == SettledAt(setup.neutral, side.tracks[r], side.frame);
      assert FiledAt(s, p, r)[..f] == Own(s, r)[..f];
    }
    PlayReads(setup.rules.step, setup.rules.start, Served(side.tracks), OwnLogs(setup, s), f);
  }

  lemma OneMoreTrue<S, I>(setup: Setup<S, I>, s: Match<I>, link: Peer<I>, frame: Frame, value: nat)
    requires Shaped(setup, s) && AllTrue(setup, s, link.localChecksums) && IsTrue(setup, s, frame, value)
    ensures AllTrue(setup, s, WithChecksum(link, frame, value).localChecksums)
  {
  }

  lemma PublishLinks<S, I>(setup: Setup<S, I>, s: Match<I>, t: Match<I>, p: nat)
    requires Invariant(setup, s) && Enabled(setup, s, Publish(p)) && t == After(setup, s, Publish(p))
    ensures Grown(setup, s, t)
    ensures IsTrue(setup, t, s.sides[p].confirmed, PublishedValue(setup, s, p))
    ensures forall a, b :: 0 <= a < setup.Players() && 0 <= b < setup.Players() && a != b ==> LinkOk(setup, t, a, b)
  {
    hide SideOk, IsTrue, AllTrue, Holding, EffectiveDelay, PacketOk;
    PublishedIsTrue(setup, s, p);
    var frame, value := s.sides[p].confirmed, PublishedValue(setup, s, p);
    assert Grown(setup, s, t);
    TrueStays(setup, s, t, frame, value);
    forall a, b | 0 <= a < setup.Players() && 0 <= b < setup.Players() && a != b ensures LinkOk(setup, t, a, b) {
      assert LinkOk(setup, s, a, b);
      AllStayTrue(setup, s, t, s.sides[a].links[b].localChecksums);
      OneMoreTrue(setup, t, s.sides[a].links[b], frame, value);
    }
  }

  lemma PublishKeeps<S, I>(setup: Setup<S, I>, s: Match<I>, p: nat)
    requires Invariant(setup, s) && Enabled(setup, s, Publish(p))
    ensures Invariant(setup, After(setup, s, Publish(p)))
  {
    hide Fits, OwnLog, IsTrue, LinkOk, Seek, EffectiveDelay;
    var t := After(setup, s, Publish(p));
    PublishLinks(setup, s, t, p);
    forall a | 0 <= a < setup.Players() ensures SideOk(setup, t, a) {
      assert SideOk(setup, s, a);
    }
    NetStays(setup, s, t, Announced(s.sides[p].links, p, s.sides[p].confirmed, PublishedValue(setup, s, p)));
  }

  lemma StepKeeps<S, I>(setup: Setup<S, I>, s: Match<I>, a: Action<I>)
    requires Invariant(setup, s) && Enabled(setup, s, a)
    ensures Invariant(setup, After(setup, s, a))
  {
    hide Invariant, Enabled, After;
    match a
    case Deliver(packet) => DeliverKeeps(setup, s, packet);
    case TickLink(p, q) => TickKeeps(setup, s, p, q);
    case ConfirmUpTo(p, frame) => ConfirmKeeps(setup, s, p, frame);
    case Advance(p, input) => AdvanceKeeps(setup, s, p, input);
    case Publish(p) => PublishKeeps(setup, s, p);
  }

  // ---- Runs ----

  // `run` lists the states of a match from its beginning, `actions` the steps between them.
  ghost predicate IsRun<S, I>(setup: Setup<S, I>, run: seq<Match<I>>, actions: seq<Action<I>>) {
    && setup.Valid() && |run| == |actions| + 1 && run[0] == Begin(setup)
    && forall i :: 0 <= i < |actions| ==>
         Shaped(setup, run[i]) && Enabled(setup, run[i], actions[i]) && run[i + 1] == After(setup, run[i], actions[i])
  }

  lemma {:induction false} RunsKeep<S, I>(setup: Setup<S, I>, run: seq<Match<I>>, actions: seq<Action<I>>, i: nat)
    requires IsRun(setup, run, actions) && i < |run|
    ensures Invariant(setup, run[i])
  {
    hide Invariant, Enabled, After, Begin;
    if i == 0 {
      BeginInvariant(setup);
    } else {
      RunsKeep(setup, run, actions, i - 1);
      StepKeeps(setup, run[i - 1], actions[i - 1]);
    }
  }

  // Whatever the network does, what a peer has filed for a player is at all times a gap-free prefix
  // of what that player made, and the player's own side still holds everything past it.
  lemma InputsArriveInOrder<S, I>(setup: Setup<S, I>, run: seq<Match<I>>, actions: seq<Action<I>>, i: nat, p: nat,
                                  q: nat)
    requires IsRun(setup, run, actions) && i < |run|
    requires p < setup.Players() && q < setup.Players() && p != q
    ensures Shaped(setup, run[i]) && FiledAt(run[i], q, p) <= Own(run[i], p)
    ensures var own, pending := Own(run[i], p), run[i].sides[p].links[q].pending;
            && run[i].sides[q].links[p].lastReceived == |FiledAt(run[i], q, p)| - 1
            && forall f :: |FiledAt(run[i], q, p)| <= f < |own| && EffectiveDelay(setup.delays[p]) <= f ==> (f, own[f]) in pending
  {
    RunsKeep(setup, run, actions, i);
    assert LinkOk(setup, run[i], p, q);
    var own, pending := Own(run[i], p), run[i].sides[p].links[q].pending;
    forall f | |FiledAt(run[i], q, p)| <= f < |own| &&
        EffectiveDelay(setup.delays[p]) <= f ensures (f, own[f]) in pending {
      assert pending[f - (|own| - |pending|)] == (f, own[f]);
    }
  }

  // Any two peers' windows and delays add up to no more than a ring holds.
  ghost predicate Roomy<S, I>(setup: Setup<S, I>)
    requires setup.Valid()
  {
    forall a, b :: 0 <= a < setup.Players() && 0 <= b < setup.Players() ==>
      setup.windows[a] + EffectiveDelay(setup.delays[a]) + setup.windows[b] + EffectiveDelay(setup.delays[b]) <= QUEUE_LEN
  }

  // Nobody is further ahead of `p` than both players' windows and delays.
  lemma NobodyIsFarAhead<S, I>(setup: Setup<S, I>, s: Match<I>, p: nat, q: nat)
    requires Invariant(setup, s) && p < setup.Players() && q < setup.Players()
    ensures |s.sides[p].tracks[q].log| <= s.sides[p].frame + EffectiveDelay(setup.delays[p])
                                          + if q == p then 0 else setup.windows[q] + EffectiveDelay(setup.delays[q])
  {
    hide EffectiveDelay, Holding, AllTrue, Reachable, Seek, PacketOk;
    assert SideOk(setup, s, p) && SideOk(setup, s, q);
    if q != p {
      assert LinkOk(setup, s, p, q) && LinkOk(setup, s, q, p);
    }
  }

  // No advance ever needs an input that has aged out of a 128-frame ring, as long as any two peers'
  // windows and delays add up to no more than that.
  lemma RingNeverOverruns<S, I>(setup: Setup<S, I>, run: seq<Match<I>>, actions: seq<Action<I>>, i: nat, p: nat)
    requires IsRun(setup, run, actions) && i < |run| && p < setup.Players() && Roomy(setup)
    ensures Shaped(setup, run[i])
    ensures var side := run[i].sides[p];
            && InRing(side.tracks, side.frame)
            && side.frame + EffectiveDelay(setup.delays[p]) < ResumeFrom(side.tracks, side.frame) + QUEUE_LEN
  {
    hide IsRun, EffectiveDelay, LinkOk, Reachable, PacketOk, Seek;
    RunsKeep(setup, run, actions, i);
    var s := run[i];
    var side := s.sides[p];
    assert SideOk(setup, s, p);
    RollbackStaysInWindow(setup.neutral, side.tracks, side.frame, side.confirmed, setup.windows[p]);
    forall q | 0 <= q < setup.Players()
      ensures |side.tracks[q].log| <= ResumeFrom(side.tracks, side.frame) + QUEUE_LEN
    {
      NobodyIsFarAhead(setup, s, p, q);
      assert setup.windows[p] + EffectiveDelay(setup.delays[p]) + setup.windows[q] +
          EffectiveDelay(setup.delays[q]) <= QUEUE_LEN;
    }
    assert setup.windows[p] + EffectiveDelay(setup.delays[p]) + setup.windows[p] +
        EffectiveDelay(setup.delays[p]) <= QUEUE_LEN;
  }

  // A peer whose prediction window is zero never advances: a zero window is not lockstep.
  lemma {:induction false} ZeroWindowNeverAdvances<S, I>(setup: Setup<S, I>, run: seq<Match<I>>,
                                                         actions: seq<Action<I>>, i: nat, p: nat)
    requires IsRun(setup, run, actions) && i < |run| && p < setup.Players() && setup.windows[p] == 0
    ensures |run[i].sides| == setup.Players() && run[i].sides[p].frame == 0
  {
    RunsKeep(setup, run, actions, i);
    if i > 0 {
      ZeroWindowNeverAdvances(setup, run, actions, i - 1, p);
    }
  }

  lemma {:induction false} GrowsAlongRun<S, I>(setup: Setup<S, I>, run: seq<Match<I>>, actions: seq<Action<I>>,
                                               i: nat, j: nat)
    requires IsRun(setup, run, actions) && i <= j < |run|
    ensures Grown(setup, run[i], run[j])
    decreases j - i
  {
    hide Enabled, Begin, IsTrue, SideOk, LinkOk, PacketOk;
    RunsKeep(setup, run, actions, i);
    if i < j {
      RunsKeep(setup, run, actions, i + 1);
      StepGrows(setup, run[i], actions[i]);
      GrowsAlongRun(setup, run, actions, i + 1, j);
      forall p, q | 0 <= p < setup.Players() && 0 <= q < setup.Players()
        ensures FiledAt(run[i], q, p) <= FiledAt(run[j], q, p)
      {
        assert FiledAt(run[i], q, p) <= FiledAt(run[i + 1], q, p) <= FiledAt(run[j], q, p);
      }
    }
  }

  lemma StepGrows<S, I>(setup: Setup<S, I>, s: Match<I>, a: Action<I>)
    requires Invariant(setup, s) && Enabled(setup, s, a)
    ensures Grown(setup, s, After(setup, s, a))
  {
    hide Shaped, SideOk, LinkOk, PacketOk, Enabled, After, Grown;
    match a
    case Deliver(packet) => DeliverGrows(setup, s, packet);
    case TickLink(p, q) => TickLinks(setup, s, After(setup, s, a), p, q);
    case ConfirmUpTo(p, frame) => ConfirmLinks(setup, s, After(setup, s, a), p, frame);
    case Advance(p, input) => AdvanceLinks(setup, s, After(setup, s, a), p, input);
    case Publish(p) => PublishLinks(setup, s, After(setup, s, a), p);
  }

  lemma DeliverGrows<S, I>(setup: Setup<S, I>, s: Match<I>, k: Packet<I>)
    requires Invariant(setup, s) && Enabled(setup, s, Deliver(k))
    ensures Grown(setup, s, After(setup, s, Deliver(k)))
  {
    hide Fits, Received, FiledRun, IsTrue, Filed, LinkOk, PacketOk, SideOk;
    DeliverKeeps(setup, s, k);
    var link, log := s.sides[k.to].links[k.from], FiledAt(s, k.to, k.from);
    LinkedLength(setup, s, k.from, k.to);
    ReceivedContinues(link, k.message);
    RunExtends(setup.neutral, log, Received(link, k.message).inputs);
  }

  lemma LinkedLength<S, I>(setup: Setup<S, I>, s: Match<I>, p: nat, q: nat)
    requires Invariant(setup, s) && p < setup.Players() && q < setup.Players() && p != q
    ensures s.sides[q].links[p].lastReceived == |FiledAt(s, q, p)| - 1
  {
    assert LinkOk(setup, s, p, q);
  }

  // Any two checksums published for the same frame, by whomever and whenever in a match, are equal.
  lemma PublishersAgree<S, I>(setup: Setup<S, I>, run: seq<Match<I>>, actions: seq<Action<I>>, i: nat, j: nat)
    requires IsRun(setup, run, actions) && i <= j < |actions| && actions[i].Publish? && actions[j].Publish?
    requires run[i].sides[actions[i].at].confirmed == run[j].sides[actions[j].at].confirmed
    ensures PublishedValue(setup, run[i], actions[i].at) == PublishedValue(setup, run[j], actions[j].at)
  {
    hide Begin, After, SideOk, LinkOk, PacketOk;
    RunsKeep(setup, run, actions, i);
    RunsKeep(setup, run, actions, j);
    PublishedIsTrue(setup, run[i], actions[i].at);
    PublishedIsTrue(setup, run[j], actions[j].at);
    GrowsAlongRun(setup, run, actions, i, j);
    TrueStays(setup, run[i], run[j], run[i].sides[actions[i].at].confirmed,
        PublishedValue(setup, run[i], actions[i].at));
  }

  lemma {:induction false} OnFileIsListed(checksums: seq<(Frame, nat)>, frame: Frame)
    ensures OwnChecksum(checksums, frame).Some? ==> (frame, OwnChecksum(checksums, frame).value) in checksums
  {
    if checksums != [] {
      OnFileIsListed(checksums[1..], frame);
    }
  }

  // No packet of the match, whenever it arrives and however often, makes anyone report a desync.
  lemma NobodyDesyncs<S, I>(setup: Setup<S, I>, run: seq<Match<I>>, actions: seq<Action<I>>, i: nat, k: Packet<I>)
    requires IsRun(setup, run, actions) && i < |run| && k in run[i].net && k.from != k.to
    ensures Shaped(setup, run[i]) && k.from < setup.Players() && k.to < setup.Players()
    ensures forall e :: e in Received(run[i].sides[k.to].links[k.from], k.message).events ==> !e.Desync?
  {
    hide Enabled, After, SideOk, IsTrue;
    RunsKeep(setup, run, actions, i);
    var s := run[i];
    assert PacketOk(setup, s, k) && LinkOk(setup, s, k.to, k.from);
    if k.message.body.Checksum? {
      var frame := k.message.body.frame;
      var own := s.sides[k.to].links[k.from].localChecksums;
      OnFileIsListed(own, frame);
      if OwnChecksum(own, frame).Some? {
        TruthIsOne(setup, s, frame, k.message.body.checksum, OwnChecksum(own, frame).value);
      }
    }
  }

  lemma TruthIsOne<S, I>(setup: Setup<S, I>, s: Match<I>, f: Frame, v: nat, w: nat)
    requires Shaped(setup, s) && IsTrue(setup, s, f, v) && IsTrue(setup, s, f, w)
    ensures v == w
  {
  }
}
