/** What the handshake guarantees over every run of one connection
    (crates/fofoca-netplay/src/protocol.rs). */
module Handshake {
  import opened Timeline
  import opened Options
  import opened PeerProtocols

  // Everything that can happen to a connection: a tick, a packet of any content, or the session
  // queueing an input or a checksum.
  datatype Stimulus<+I> =
    | Tick(currentFrame: Frame)
    | Packet(message: Message<I>)
    | Queue(frame: Frame, input: I)
    | Publish(frame: Frame, checksum: nat)

  function Step<I>(p: Peer<I>, s: Stimulus<I>): Peer<I> {
    match s
    case Tick(currentFrame) => Ticked(p, currentFrame).peer
    case Packet(message) => Received(p, message).peer
    case Queue(frame, input) => p.(pending := p.pending + [(frame, input)])
    case Publish(frame, checksum) => WithChecksum(p, frame, checksum)
  }

  function Run<I>(p: Peer<I>, run: seq<Stimulus<I>>): Peer<I> {
    if run == [] then p else Step(Run(p, run[..|run| - 1]), run[|run| - 1])
  }

  // The packet makes the handshake advance by one round trip.
  predicate Advances<I>(p: Peer<I>, s: Stimulus<I>) {
    s.Packet? && Received(p, s.message).peer.roundtripsLeft < p.roundtripsLeft
  }

  // The packets that advanced the handshake, in order.
  function Advancing<I>(p: Peer<I>, run: seq<Stimulus<I>>): seq<Stimulus<I>> {
    if run == [] then []
    else
      var before, last := run[..|run| - 1], run[|run| - 1];
      Advancing(p, before) + if Advances(Run(p, before), last) then [last] else []
  }

  function TokenAt(token: U32, n: nat): U32 {
    if n == 0 then token else Rotated(TokenAt(token, n - 1))
  }

  // Modulo eight the rotation runs through one cycle, 0 1 6 7 4 5 2 3; this is a residue's place in it.
  function Place(residue: nat): (r: nat)
    requires residue < 8
    ensures r < 8
  {
    [0, 1, 6, 7, 4, 5, 2, 3][residue]
  }

  function Phase(token: U32): (r: nat)
    ensures r < 8
  {
    Place(token % 8)
  }

  lemma PlaceTurns(residue: nat)
    requires residue < 8
    ensures Place((5 * residue + 1) % 8) == (Place(residue) + 1) % 8
  {
  }

  lemma SameResidue(y: int, k: int, rest: int)
    requires y == 8 * k + rest
    ensures y % 8 == rest % 8
  {
  }

  lemma RotationTurnsOnce(token: U32)
    ensures Phase(Rotated(token)) == (Phase(token) + 1) % 8
  {
    hide Place;
    var q, r := token / 8, token % 8;
    var x := token * 1_664_525 + 1;
    var k := q * 1_664_525 + r * 208_065 - 0x2000_0000 * (x / TWO_32);
    assert Rotated(token) == x - TWO_32 * (x / TWO_32);
    SameResidue(Rotated(token), k, 5 * r + 1);
    PlaceTurns(r);
  }

  lemma {:induction false} PhaseAt(token: U32, n: nat)
    ensures Phase(TokenAt(token, n)) == (Phase(token) + n) % 8
  {
    hide Rotated, Phase;
    if n > 0 {
      PhaseAt(token, n - 1);
      RotationTurnsOnce(TokenAt(token, n - 1));
      OneMoreTurn(Phase(token) + n - 1);
    }
  }

  lemma OneMoreTurn(turns: nat)
    ensures (turns % 8 + 1) % 8 == (turns + 1) % 8
  {
  }

  // The rotation has no cycle shorter than eight, whatever it starts from.
  lemma TokensDiffer(token: U32, i: nat, j: nat)
    requires i < j < i + 8
    ensures TokenAt(token, i) != TokenAt(token, j)
  {
    hide Rotated, TokenAt, Phase;
    PhaseAt(token, i);
    PhaseAt(token, j);
  }

  // The state of a connection some of whose round trips are done.
  ghost predicate Handshaken<I>(p: Peer<I>, magic: U32, advancing: seq<Stimulus<I>>) {
    && p.magic == magic
    && |advancing| <= SYNC_ROUNDTRIPS
    && p.roundtripsLeft == SYNC_ROUNDTRIPS - |advancing|
    && p.syncToken == TokenAt(InitialToken(magic), |advancing|)
    && (p.state == Syncing ==> |advancing| < SYNC_ROUNDTRIPS)
    && (p.state == Running ==> |advancing| == SYNC_ROUNDTRIPS)
    && (forall i :: 0 <= i < |advancing| ==>
          && advancing[i].Packet?
          && advancing[i].message.body == SyncReply(TokenAt(InitialToken(magic), i))
          && p.remoteMagic == Some(advancing[i].message.magic))
    && (advancing == [] ==> p.remoteMagic == None)
  }

  lemma StepKeeps<I>(p: Peer<I>, magic: U32, advancing: seq<Stimulus<I>>, s: Stimulus<I>)
    requires Handshaken(p, magic, advancing)
    ensures Handshaken(Step(p, s), magic, advancing + if Advances(p, s) then [s] else [])
  {
    hide Rotated, InitialToken, Received, Unacked, PendingInputs, Clamp;
    match s
    case Packet(message) => PacketKeeps(p, magic, advancing, message);
    case _ =>
  }

  lemma PacketKeeps<I>(p: Peer<I>, magic: U32, advancing: seq<Stimulus<I>>, message: Message<I>)
    requires Handshaken(p, magic, advancing)
    ensures var s := Packet(message);
            Handshaken(Received(p, message).peer, magic, advancing + if Advances(p, s) then [s] else [])
  {
    hide Rotated, InitialToken, NewInputs, OwnChecksum;
  }

  // In every run, the handshake advances only on replies to the connection's own requests: one for
  // each of the five tokens, in order, all from one session of the peer, whose nonce was latched by
  // the first of them and never changes. A connection is running only after all five.
  lemma {:induction false} HandshakeIsFiveReplies<I>(magic: U32, run: seq<Stimulus<I>>)
    ensures Handshaken(Run(NewPeer(magic), run), magic, Advancing(NewPeer(magic), run))
  {
    if run != [] {
      var before := run[..|run| - 1];
      HandshakeIsFiveReplies(magic, before);
      StepKeeps(Run(NewPeer(magic), before), magic, Advancing(NewPeer(magic), before), run[|run| - 1]);
    }
  }

  predicate IsReply<I>(s: Stimulus<I>, nonce: Option<U32>, token: U32) {
    s.Packet? && s.message.body == SyncReply(token) && nonce == Some(s.message.magic)
  }

  // Running means five replies, one to each of the first five tokens, in order, under one nonce.
  lemma RunningMeansFive<I>(magic: U32, run: seq<Stimulus<I>>, i: nat)
    requires Run(NewPeer(magic), run).state == Running
    ensures |Advancing(NewPeer(magic), run)| == 5
    ensures i < 5 ==>
              IsReply(Advancing(NewPeer(magic), run)[i], Run(NewPeer(magic), run).remoteMagic, TokenAt(InitialToken(magic), i))
  {
    hide Run, Advancing, InitialToken, TokenAt, NewPeer;
    HandshakeIsFiveReplies(magic, run);
  }

  // However often a packet is duplicated, it advances the handshake at most once.
  lemma NoReplyCountsTwice<I>(magic: U32, run: seq<Stimulus<I>>, i: nat, j: nat)
    requires i < j < |Advancing(NewPeer(magic), run)|
    ensures Advancing(NewPeer(magic), run)[i] != Advancing(NewPeer(magic), run)[j]
  {
    HandshakeIsFiveReplies(magic, run);
    TokensDiffer(InitialToken(magic), i, j);
  }

  // Once latched, the peer's nonce is fixed, and a packet carrying another one changes nothing.
  lemma ForeignPacketsChangeNothing<I>(p: Peer<I>, s: Stimulus<I>)
    requires p.remoteMagic.Some?
    ensures Step(p, s).remoteMagic == p.remoteMagic
    ensures s.Packet? && s.message.magic != p.remoteMagic.value ==>
              Received(p, s.message) == Outcome(p, [], [], [])
  {
  }
}
