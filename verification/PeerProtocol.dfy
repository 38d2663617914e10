/** One remote peer: handshake, input exchange, liveness
    (crates/fofoca-netplay/src/protocol.rs, crates/fofoca-netplay/src/transport.rs). */
module PeerProtocols {
  import opened Timeline
  import opened Options

  const TWO_32: int := 0x1_0000_0000
  type U32 = x: int | 0 <= x < TWO_32

  const SYNC_ROUNDTRIPS: nat := 5
  const SYNC_RESEND_EVERY_TICKS: nat := 8
  const DISCONNECT_TIMEOUT_TICKS: nat := 600
  const QUALITY_REPORT_INTERVAL: nat := 60
  const MAX_CHECKSUMS: nat := 64

  datatype Body<+I> =
    | SyncRequest(token: U32)
    | SyncReply(token: U32)
    | InputRun(startFrame: Frame, ackFrame: Frame, inputs: seq<I>)
    | InputAck(ackFrame: Frame)
    | QualityReport(frameAdvantage: int, ping: nat)
    | QualityReply(pong: nat)
    | Checksum(frame: Frame, checksum: nat)
    | KeepAlive

  // A packet, stamped with its sender's session nonce.
  datatype Message<+I> = Message(magic: U32, body: Body<I>)

  datatype PeerState = Syncing | Running | Disconnected

  datatype PeerEvent = Synchronized | Lost | Desync(frame: Frame, local: nat, remote: nat)

  function SaturatingInc(x: U32): U32 {
    if x + 1 < TWO_32 then x + 1 else x
  }

  // The token of the round trip after the one `token` opened.
  function Rotated(token: U32): U32 {
    (token * 1_664_525 + 1) % TWO_32
  }

  // The exclusive or of two numbers, bit by bit.
  function Xor(a: nat, b: nat): nat {
    if a == 0 && b == 0 then 0 else 2 * Xor(a / 2, b / 2) + (a + b) % 2
  }

  lemma {:induction false} XorUndoes(a: nat, b: nat)
    ensures Xor(Xor(a, b), b) == a
    decreases a, b
  {
    hide Xor;
    XorOnce(a, b);
    if a > 0 || b > 0 {
      XorUndoes(a / 2, b / 2);
      XorOnce(Xor(a, b), b);
    }
  }

  // Bit by bit, from the lowest.
  lemma XorOnce(a: nat, b: nat)
    ensures Xor(a, b) / 2 == Xor(a / 2, b / 2) && Xor(a, b) % 2 == (a + b) % 2
    ensures a == b == 0 ==> Xor(a, b) == 0
  {
    Halved(Xor(a / 2, b / 2), (a + b) % 2);
  }

  lemma Halved(y: nat, bit: nat)
    requires bit < 2
    ensures (2 * y + bit) / 2 == y && (2 * y + bit) % 2 == bit
  {
  }

  function TwoTo(n: nat): nat {
    if n == 0 then 1 else 2 * TwoTo(n - 1)
  }

  lemma {:induction false} XorFits(a: nat, b: nat, bits: nat)
    requires a < TwoTo(bits) && b < TwoTo(bits)
    ensures Xor(a, b) < TwoTo(bits)
    decreases bits
  {
    if bits > 0 {
      XorFits(a / 2, b / 2, bits - 1);
    }
  }

  // Sessions with different nonces start from different tokens.
  lemma InitialTokensDiffer(m: U32, n: U32)
    requires m != n
    ensures InitialToken(m) != InitialToken(n)
  {
    hide Xor, TwoTo;
    AllBits();
    XorFits(m, 0x5bf0_3635, 32);
    XorFits(n, 0x5bf0_3635, 32);
    XorUndoes(m, 0x5bf0_3635);
    XorUndoes(n, 0x5bf0_3635);
  }

  lemma AllBits()
    ensures TwoTo(32) == TWO_32
  {
    assert TwoTo(8) == 256 && TwoTo(16) == 65_536 && TwoTo(24) == 0x100_0000;
  }

  function InitialToken(magic: U32): U32 {
    Xor(magic, 0x5bf0_3635) % TWO_32
  }

  // ---- One connection's state, and what each message does to it ----

  datatype Peer<+I> = Peer(
    state: PeerState,
    magic: U32,
    remoteMagic: Option<U32>,
    roundtripsLeft: nat,
    syncToken: U32,
    sinceSyncRequest: nat,
    lastReceived: Frame,
    lastAcked: Frame,
    pending: seq<(Frame, I)>,
    silentTicks: U32,
    sinceQualityReport: U32,
    remoteAdvantage: int,
    localChecksums: seq<(Frame, nat)>)
  {
    function Wrap<J>(body: Body<J>): Message<J> {
      Message(magic, body)
    }
  }

  datatype Outcome<+I> = Outcome(peer: Peer<I>, replies: seq<Message<I>>, inputs: seq<(Frame, I)>,
      events: seq<PeerEvent>)

  function NewPeer<I>(magic: U32): Peer<I> {
    Peer(Syncing, magic, None, SYNC_ROUNDTRIPS, InitialToken(magic), 0, NULL_FRAME, NULL_FRAME, [], 0, 0, 0, [])
  }

  function Later(a: Frame, b: Frame): Frame { if a >= b then a else b }

  // What an input packet adds past frame `last`.
  function NewInputs<I>(startFrame: Frame, inputs: seq<I>, last: Frame): seq<(Frame, I)> {
    if inputs == [] then []
    else
      var n := |inputs| - 1;
      NewInputs(startFrame, inputs[..n], last)
      + if startFrame + n > last then [(startFrame + n, inputs[n])] else []
  }

  // What is still to be resent once everything up to `acked` has arrived.
  function Unacked<I>(pending: seq<(Frame, I)>, acked: Frame): seq<(Frame, I)> {
    if pending == [] then []
    else
      var n := |pending| - 1;
      Unacked(pending[..n], acked) + if pending[n].0 > acked then [pending[n]] else []
  }

  // The first checksum on file for `frame`.
  function OwnChecksum(checksums: seq<(Frame, nat)>, frame: Frame): Option<nat> {
    if checksums == [] then None
    else if checksums[0].0 == frame then Some(checksums[0].1)
    else OwnChecksum(checksums[1..], frame)
  }

  // What a packet leads to. Until the peer's nonce is latched, only a reply to the outstanding sync
  // request is admitted, and latches it; afterwards only packets carrying that nonce are.
  function Received<I>(p: Peer<I>, m: Message<I>): Outcome<I> {
    match p.remoteMagic
    case Some(known) =>
      if known == m.magic then Handled(p.(silentTicks := 0), m.body) else Outcome(p, [], [], [])
    case None =>
      match m.body
      case SyncReply(token) =>
        if p.state == Syncing && token == p.syncToken then
          Handled(p.(remoteMagic := Some(m.magic), silentTicks := 0), m.body)
        else
          Outcome(p, [], [], [])
      case SyncRequest(token) =>
        Outcome(p, if p.state == Syncing then [p.Wrap(SyncReply(token))] else [], [], [])
      case _ => Outcome(p, [], [], [])
  }

  function Handled<I>(p: Peer<I>, body: Body<I>): Outcome<I> {
    match body
    case SyncRequest(token) => Outcome(p, [p.Wrap(SyncReply(token))], [], [])
    case SyncReply(token) =>
      if p.state == Syncing && token == p.syncToken then
        var left := if p.roundtripsLeft == 0 then 0 else p.roundtripsLeft - 1;
        var rotated := p.(roundtripsLeft := left, syncToken := Rotated(token), sinceSyncRequest := 0);
        if left == 0 then Outcome(rotated.(state := Running), [], [], [Synchronized])
        else Outcome(rotated, [], [], [])
      else
        Outcome(p, [], [], [])
    case InputRun(startFrame, ackFrame, inputs) =>
      var acked := p.(lastAcked := Later(p.lastAcked, ackFrame));
      if p.lastReceived != NULL_FRAME && startFrame > p.lastReceived + 1 then Outcome(acked, [], [], [])
      else
        var added := NewInputs(startFrame, inputs, p.lastReceived);
        var last := if added == [] then p.lastReceived else added[|added| - 1].0;
        Outcome(acked.(lastReceived := last), [p.Wrap(InputAck(last))], added, [])
    case InputAck(ackFrame) => Outcome(p.(lastAcked := Later(p.lastAcked, ackFrame)), [], [], [])
    case QualityReport(frameAdvantage, ping) =>
      Outcome(p.(remoteAdvantage := frameAdvantage), [p.Wrap(QualityReply(ping))], [], [])
    case QualityReply(_) => Outcome(p, [], [], [])
    case KeepAlive => Outcome(p, [], [], [])
    case Checksum(frame, checksum) =>
      var ours := OwnChecksum(p.localChecksums, frame);
      Outcome(p, [], [], if ours.Some? && ours.value != checksum then [Desync(frame, ours.value, checksum)] else [])
  }

  // What a packet adds is its tail past `last`, frame by frame.
  lemma {:induction false} NewInputsAreTail<I>(startFrame: Frame, inputs: seq<I>, last: Frame)
    ensures var run := NewInputs(startFrame, inputs, last);
            var first := Later(startFrame, last + 1);
            && |run| == (if first < startFrame + |inputs| then startFrame + |inputs| - first else 0)
            && forall i :: 0 <= i < |run| ==> run[i] == (first + i, inputs[first + i - startFrame])
    decreases |inputs|
  {
    if inputs != [] {
      NewInputsAreTail(startFrame, inputs[..|inputs| - 1], last);
    }
  }

  // Whatever a packet adds continues what was received before, and the connection's own record of it
  // moves along. A packet never makes a live connection look dead.
  lemma ReceivedContinues<I>(p: Peer<I>, m: Message<I>)
    requires p.lastReceived >= NULL_FRAME
    ensures var o := Received(p, m);
            && Contiguous(p.lastReceived + 1, o.inputs)
            && o.peer.lastReceived == (if o.inputs == [] then p.lastReceived else o.inputs[|o.inputs| - 1].0)
            && o.peer.lastReceived >= p.lastReceived
            && (p.state != Disconnected ==> o.peer.state != Disconnected)
            && o.peer.silentTicks <= p.silentTicks
  {
    hide NewInputs, Rotated, OwnChecksum;
    if m.body.InputRun? {
      NewInputsAreTail(m.body.startFrame, m.body.inputs, p.lastReceived);
    }
  }

  // ---- What a connection does with each kind of packet, once its sender's nonce is known ----

  // Where the checksum of a frame is on file first.
  ghost predicate IsOwn<I>(p: Peer<I>, frame: Frame, k: int) {
    && 0 <= k < |p.localChecksums| && p.localChecksums[k].0 == frame
    && forall j :: 0 <= j < k ==> p.localChecksums[j].0 != frame
  }

  lemma {:induction false} OwnIsFirst(checksums: seq<(Frame, nat)>, frame: Frame, k: nat)
    requires k < |checksums| && checksums[k].0 == frame && forall j :: 0 <= j < k ==> checksums[j].0 != frame
    ensures OwnChecksum(checksums, frame) == Some(checksums[k].1)
    decreases k
  {
    if k > 0 {
      OwnIsFirst(checksums[1..], frame, k - 1);
    }
  }

  lemma {:induction false} NoneIsOwn(checksums: seq<(Frame, nat)>, frame: Frame)
    requires forall j :: 0 <= j < |checksums| ==> checksums[j].0 != frame
    ensures OwnChecksum(checksums, frame) == None
    decreases |checksums|
  {
    if checksums != [] {
      NoneIsOwn(checksums[1..], frame);
    }
  }

  // No packet touches the checksums on file, or the nonce once it is known.
  lemma ReceivingForgetsNothing<I>(p: Peer<I>, m: Message<I>)
    ensures var q := Received(p, m).peer;
            q.localChecksums == p.localChecksums && (p.remoteMagic.Some? ==> q.remoteMagic == p.remoteMagic)
  {
    hide NewInputs, OwnChecksum, Rotated;
  }

  // A checksum is compared with the first one on file for its frame: a desync is reported exactly if they
  // differ, and nothing else comes of the packet.
  lemma ChecksumIsCompared<I>(p: Peer<I>, m: Message<I>)
    requires p.remoteMagic == Some(m.magic) && m.body.Checksum?
    ensures var o, frame, theirs := Received(p, m), m.body.frame, m.body.checksum;
            && o.peer == p.(silentTicks := 0) && o.replies == [] && o.inputs == []
            && (forall k :: IsOwn(p, frame, k) ==>
                  o.events == if p.localChecksums[k].1 == theirs then [] else [Desync(frame, p.localChecksums[k].1, theirs)])
            && ((forall k :: 0 <= k < |p.localChecksums| ==> p.localChecksums[k].0 != frame) ==> o.events == [])
  {
    forall k | IsOwn(p, m.body.frame, k) ensures OwnChecksum(p.localChecksums, m.body.frame) == Some(p.localChecksums[k].1) {
      OwnIsFirst(p.localChecksums, m.body.frame, k);
    }
    if forall k :: 0 <= k < |p.localChecksums| ==> p.localChecksums[k].0 != m.body.frame {
      NoneIsOwn(p.localChecksums, m.body.frame);
    }
  }

  // A run of inputs: unless it leaves a gap after what has been received, exactly the frames past that are
  // taken from it, and what has been received is acked. Its own ack counts in any case.
  lemma InputRunIsTaken<I>(p: Peer<I>, m: Message<I>)
    requires p.remoteMagic == Some(m.magic) && m.body.InputRun? && p.lastReceived >= NULL_FRAME
    ensures var o, start, run := Received(p, m), m.body.startFrame, m.body.inputs;
            var first := if start > p.lastReceived then start else p.lastReceived + 1;
            && o.events == [] && o.peer.pending == p.pending && o.peer.state == p.state && o.peer.silentTicks == 0
            && o.peer.lastAcked >= p.lastAcked && o.peer.lastAcked >= m.body.ackFrame
            && (o.peer.lastAcked == p.lastAcked || o.peer.lastAcked == m.body.ackFrame)
            && if p.lastReceived >= 0 && start > p.lastReceived + 1 then
                 o.inputs == [] && o.replies == [] && o.peer.lastReceived == p.lastReceived
               else
                 && |o.inputs| == (if first < start + |run| then start + |run| - first else 0)
                 && (forall i :: 0 <= i < |o.inputs| ==> o.inputs[i] == (first + i, run[first + i - start]))
                 && o.peer.lastReceived == (if first < start + |run| then start + |run| - 1 else p.lastReceived)
                 && o.replies == [Message(p.magic, InputAck(o.peer.lastReceived))]
  {
    NewInputsAreTail(m.body.startFrame, m.body.inputs, p.lastReceived);
  }

  // An ack counts if it is the latest; a quality report is noted and echoed; a sync request is answered with
  // its own token, whatever state the handshake is in.
  lemma OtherPacketsAnswered<I>(p: Peer<I>, m: Message<I>)
    requires p.remoteMagic == Some(m.magic)
    ensures var o := Received(p, m);
            match m.body
            case InputAck(frame) =>
              && o == Outcome(p.(silentTicks := 0, lastAcked := o.peer.lastAcked), [], [], [])
              && o.peer.lastAcked == if frame > p.lastAcked then frame else p.lastAcked
            case QualityReport(advantage, ping) =>
              o == Outcome(p.(silentTicks := 0, remoteAdvantage := advantage), [Message(p.magic, QualityReply(ping))], [], [])
            case SyncRequest(token) => o == Outcome(p.(silentTicks := 0), [Message(p.magic, SyncReply(token))], [], [])
            case QualityReply(_) => o == Outcome(p.(silentTicks := 0), [], [], [])
            case KeepAlive => o == Outcome(p.(silentTicks := 0), [], [], [])
            case _ => true
  {
  }

  // Before the handshake has begun to succeed only sync requests are answered.
  lemma RequestAnsweredEarly<I>(p: Peer<I>, m: Message<I>)
    requires p.remoteMagic == None && p.state == Syncing && m.body.SyncRequest?
    ensures Received(p, m) == Outcome(p, [Message(p.magic, SyncReply(m.body.token))], [], [])
  {
  }

  function Clamp(x: int): int {
    if x < -128 then -128 else if x > 127 then 127 else x
  }

  function PendingInputs<I>(pending: seq<(Frame, I)>): seq<I> {
    seq(|pending|, i requires 0 <= i < |pending| => pending[i].1)
  }

  // Everything to send at one tick.
  function Ticked<I>(p: Peer<I>, currentFrame: Frame): Outcome<I> {
    var q := p.(silentTicks := SaturatingInc(p.silentTicks));
    if q.state != Disconnected && q.silentTicks > DISCONNECT_TIMEOUT_TICKS then
      Outcome(q.(state := Disconnected), [], [], [Lost])
    else match q.state
      case Syncing =>
        Outcome(q.(sinceSyncRequest := (q.sinceSyncRequest + 1) % SYNC_RESEND_EVERY_TICKS),
                if q.sinceSyncRequest == 0 then [q.Wrap(SyncRequest(q.syncToken))] else [], [], [])
      case Running =>
        var trimmed := q.(pending := Unacked(q.pending, q.lastAcked));
        var since := SaturatingInc(q.sinceQualityReport);
        var due := since >= QUALITY_REPORT_INTERVAL;
        Outcome(trimmed.(sinceQualityReport := if due then 0 else since),
                (if trimmed.pending == [] then []
                 else [q.Wrap(InputRun(trimmed.pending[0].0, q.lastReceived, PendingInputs(trimmed.pending)))])
                + (if due then [q.Wrap(QualityReport(Clamp(currentFrame - q.lastReceived), q.silentTicks))] else []),
                [], [])
      case Disconnected => Outcome(q, [], [], [])
  }

  // A tick changes nothing about what has been received.
  lemma TickRemembers<I>(link: Peer<I>, frame: Frame)
    ensures Ticked(link, frame).peer.lastReceived == link.lastReceived
  {
  }

  lemma TickingKeepsAlive<I>(p: Peer<I>, currentFrame: Frame)
    requires p.state != Disconnected && p.silentTicks < DISCONNECT_TIMEOUT_TICKS
    ensures var q := Ticked(p, currentFrame).peer;
            q.state == p.state && q.silentTicks == p.silentTicks + 1 && q.lastReceived == p.lastReceived
  {
  }

  // How many of `n` inputs, the first for frame `first`, an ack retires.
  function Retired(n: nat, first: Frame, acked: Frame): nat {
    if acked < first then 0 else if acked - first < n then acked - first + 1 else n
  }

  // Retiring what was acked: the sender keeps the end of what it held.
  lemma {:induction false} UnackedIsTail<I>(pending: seq<(Frame, I)>, first: Frame, acked: Frame)
    requires forall i :: 0 <= i < |pending| ==> pending[i].0 == first + i
    ensures Unacked(pending, acked) == pending[Retired(|pending|, first, acked)..]
    decreases |pending|
  {
    hide Unacked;
    if pending == [] {
      NothingUnacked<I>(acked);
    } else {
      var n := |pending| - 1;
      UnackedIsTail(pending[..n], first, acked);
      UnackedOneMore(pending, acked);
      var cut := Retired(n, first, acked);
      assert pending[n].0 == first + n;
      if first + n > acked {
        assert pending[..n][cut..] + [pending[n]] == pending[cut..];
      }
    }
  }

  lemma NothingUnacked<I>(acked: Frame)
    ensures Unacked<I>([], acked) == []
  {
  }

  lemma UnackedOneMore<I>(pending: seq<(Frame, I)>, acked: Frame)
    requires pending != []
    ensures var n := |pending| - 1;
            Unacked(pending, acked) == Unacked(pending[..n], acked) + if pending[n].0 > acked then [pending[n]] else []
  {
  }

  // A running connection resends, in one packet, every input made and not acked, oldest first, and says what
  // it has received; every sixtieth tick it reports the frame advantage, within eight bits, and its silence.
  lemma TickResends<I>(p: Peer<I>, currentFrame: Frame, first: Frame)
    requires p.state == Running && p.silentTicks < DISCONNECT_TIMEOUT_TICKS
    requires forall i :: 0 <= i < |p.pending| ==> p.pending[i].0 == first + i
    ensures var o := Ticked(p, currentFrame);
            var n := |o.peer.pending|;
            var report := if p.sinceQualityReport + 1 >= 60 then 1 else 0;
            && n <= |p.pending| && o.peer.pending == p.pending[|p.pending| - n..]
            && (forall i :: 0 <= i < |p.pending| ==> (i < |p.pending| - n <==> p.pending[i].0 <= p.lastAcked))
            && |o.replies| == (if n > 0 then 1 else 0) + report
            && (n > 0 ==>
                  && o.replies[0].magic == p.magic && o.replies[0].body.InputRun?
                  && o.replies[0].body.startFrame == first + |p.pending| - n && |o.replies[0].body.inputs| == n
                  && o.replies[0].body.ackFrame == p.lastReceived
                  && forall i :: 0 <= i < n ==> o.replies[0].body.inputs[i] == o.peer.pending[i].1)
            && (report == 1 ==>
                  && o.peer.sinceQualityReport == 0
                  && o.replies[|o.replies| - 1] ==
                       Message(p.magic, QualityReport(o.replies[|o.replies| - 1].body.frameAdvantage, p.silentTicks + 1))
                  && IsClamped(o.replies[|o.replies| - 1].body.frameAdvantage, currentFrame - p.lastReceived))
            && (report == 0 ==> o.peer.sinceQualityReport == p.sinceQualityReport + 1)
  {
    hide Unacked;
    UnackedIsTail(p.pending, first, p.lastAcked);
  }

  // The nearest number that fits eight bits.
  predicate IsClamped(r: int, x: int) {
    -128 <= r <= 127 && (r == x || (r == -128 && x < -128) || (r == 127 && x > 127))
  }

  // A syncing connection asks at its first tick and at every eighth from then on, with its current token.
  lemma TickAsks<I>(p: Peer<I>, currentFrame: Frame)
    requires p.state == Syncing && p.silentTicks < DISCONNECT_TIMEOUT_TICKS && p.sinceSyncRequest < 8
    ensures var o := Ticked(p, currentFrame);
            && o.replies == (if p.sinceSyncRequest == 0 then [Message(p.magic, SyncRequest(p.syncToken))] else [])
            && o.peer.sinceSyncRequest == if p.sinceSyncRequest == 7 then 0 else p.sinceSyncRequest + 1
  {
  }

  // Past six hundred silent ticks a connection is lost, and says so once.
  lemma TickGivesUp<I>(p: Peer<I>, currentFrame: Frame)
    requires p.state != Disconnected
    ensures var o := Ticked(p, currentFrame);
            && (o.peer.state == Disconnected <==> p.silentTicks >= 600)
            && o.events == (if p.silentTicks >= 600 then [Lost] else [])
            && Ticked(o.peer, currentFrame).events == if o.peer.state != Disconnected && p.silentTicks >= 599 then [Lost] else []
  {
  }

  function WithChecksum<I>(p: Peer<I>, frame: Frame, checksum: nat): Peer<I> {
    var all := p.localChecksums + [(frame, checksum)];
    p.(localChecksums := if |all| > MAX_CHECKSUMS then all[1..] else all)
  }

  // The newest sixty-four are kept.
  lemma ChecksumIsFiled<I>(p: Peer<I>, frame: Frame, checksum: nat)
    ensures var now := WithChecksum(p, frame, checksum).localChecksums;
            && now != [] && now[|now| - 1] == (frame, checksum)
            && WithChecksum(p, frame, checksum) == p.(localChecksums := now)
            && (|p.localChecksums| < 64 ==> now[..|now| - 1] == p.localChecksums)
            && (|p.localChecksums| >= 64 ==> now[..|now| - 1] == p.localChecksums[1..])
  {
  }

  class PeerProtocol<A(==), I> {
    const addr: A
    const handle: nat
    const magic: U32
    var state: PeerState
    var remoteMagic: Option<U32>
    var roundtripsLeft: nat
    var syncToken: U32
    var sinceSyncRequest: nat
    var lastReceivedFrame: Frame
    var lastAckedFrame: Frame
    var pending: seq<(Frame, I)>
    var silentTicks: U32
    var sinceQualityReport: U32
    var remoteAdvantage: int
    var localChecksums: seq<(Frame, nat)>

    function View(): Peer<I>
      reads this
    {
      Peer(state, magic, remoteMagic, roundtripsLeft, syncToken, sinceSyncRequest, lastReceivedFrame, lastAckedFrame,
           pending, silentTicks, sinceQualityReport, remoteAdvantage, localChecksums)
    }

    constructor (addr: A, handle: nat, magic: U32)
      ensures View() == NewPeer(magic) && this.addr == addr && this.handle == handle
    {
      this.addr, this.handle, this.magic := addr, handle, magic;
      state, remoteMagic := Syncing, None;
      roundtripsLeft, syncToken, sinceSyncRequest := SYNC_ROUNDTRIPS, InitialToken(magic), 0;
      lastReceivedFrame, lastAckedFrame, pending := NULL_FRAME, NULL_FRAME, [];
      silentTicks, sinceQualityReport, remoteAdvantage, localChecksums := 0, 0, 0, [];
    }

    // Hold an own input until the peer has acked it.
    method SendInput(frame: Frame, input: I)
      modifies this`pending
      ensures View() == old(View()).(pending := old(pending) + [(frame, input)])
    {
      pending := pending + [(frame, input)];
    }

    // Put a checksum on file and word its announcement.
    method ChecksumMessage(frame: Frame, checksum: nat) returns (message: Message<I>)
      modifies this`localChecksums
      ensures View() == WithChecksum(old(View()), frame, checksum)
      ensures message == Message(magic, Checksum(frame, checksum))
    {
      localChecksums := localChecksums + [(frame, checksum)];
      if |localChecksums| > MAX_CHECKSUMS {
        localChecksums := localChecksums[1..];
      }
      message := Wrap(Checksum(frame, checksum));
    }

    function Wrap(body: Body<I>): Message<I> {
      Message(magic, body)
    }

    method Tick(currentFrame: Frame) returns (out: seq<Message<I>>, events: seq<PeerEvent>)
      modifies this
      ensures Ticked(old(View()), currentFrame) == Outcome(View(), out, [], events)
    {
      out, events := [], [];
      silentTicks := SaturatingInc(silentTicks);
      if state != Disconnected && silentTicks > DISCONNECT_TIMEOUT_TICKS {
        state := Disconnected;
        events := [Lost];
        return;
      }
      match state
      case Syncing =>
        if sinceSyncRequest == 0 {
          out := [Wrap(SyncRequest(syncToken))];
        }
        sinceSyncRequest := (sinceSyncRequest + 1) % SYNC_RESEND_EVERY_TICKS;
      case Running =>
        out := InputMessage();
        sinceQualityReport := SaturatingInc(sinceQualityReport);
        if sinceQualityReport >= QUALITY_REPORT_INTERVAL {
          sinceQualityReport := 0;
          out := out + [Wrap(QualityReport(Clamp(currentFrame - lastReceivedFrame), silentTicks))];
        }
      case Disconnected =>
    }

    // Drop what was acked, and resend all the rest in one packet.
    method InputMessage() returns (out: seq<Message<I>>)
      modifies this`pending
      ensures pending == Unacked(old(pending), lastAckedFrame)
      ensures out == if pending == [] then []
                     else [Wrap(InputRun(pending[0].0, lastReceivedFrame, PendingInputs(pending)))]
    {
      var kept := [];
      for n := 0 to |pending|
        invariant kept == Unacked(pending[..n], lastAckedFrame)
      {
        assert pending[..n + 1][..n] == pending[..n];
        if pending[n].0 > lastAckedFrame {
          kept := kept + [pending[n]];
        }
      }
      assert pending[..|pending|] == pending;
      pending := kept;
      out := if pending == [] then [] else [Wrap(InputRun(pending[0].0, lastReceivedFrame, PendingInputs(pending)))];
    }

    // Let a packet in by its sender's nonce, latching the nonce of the first valid reply.
    method Admit(message: Message<I>) returns (admitted: bool, replies: seq<Message<I>>)
      modifies this`remoteMagic
      ensures admitted <==> (if old(remoteMagic).Some? then old(remoteMagic).value == message.magic
                             else message.body == SyncReply(syncToken) && state == Syncing)
      ensures remoteMagic == if admitted then Some(message.magic) else old(remoteMagic)
      ensures replies == if old(remoteMagic).None? && message.body.SyncRequest? && state == Syncing
                         then [Wrap(SyncReply(message.body.token))] else []
    {
      replies := [];
      match remoteMagic
      case Some(known) => admitted := known == message.magic;
      case None =>
        match message.body
        case SyncReply(token) =>
          admitted := state == Syncing && token == syncToken;
          if admitted {
            remoteMagic := Some(message.magic);
          }
        case SyncRequest(token) =>
          if state == Syncing {
            replies := [Wrap(SyncReply(token))];
          }
          admitted := false;
        case _ => admitted := false;
    }

    // Take in a packet: let it in or not, and act on it.
    method OnMessage(message: Message<I>)
      returns (inputs: seq<(Frame, I)>, events: seq<PeerEvent>, replies: seq<Message<I>>)
      modifies this
      ensures Received(old(View()), message) == Outcome(View(), replies, inputs, events)
    {
      hide Handled, SaturatingInc;
      inputs, events := [], [];
      var admitted;
      admitted, replies := Admit(message);
      if !admitted {
        return;
      }
      silentTicks := 0;
      inputs, events, replies := Handle(message.body);
    }

    // Handle an admitted packet.
    method Handle(body: Body<I>)
      returns (inputs: seq<(Frame, I)>, events: seq<PeerEvent>, replies: seq<Message<I>>)
      modifies this
      ensures Handled(old(View()), body) == Outcome(View(), replies, inputs, events)
    {
      hide NewInputs, Rotated, OwnChecksum;
      inputs, events, replies := [], [], [];
      match body
      case SyncRequest(token) =>
        replies := [Wrap(SyncReply(token))];
      case SyncReply(token) =>
        if state == Syncing && token == syncToken {
          roundtripsLeft := if roundtripsLeft == 0 then 0 else roundtripsLeft - 1;
          syncToken := Rotated(syncToken);
          sinceSyncRequest := 0;
          if roundtripsLeft == 0 {
            state := Running;
            events := [Synchronized];
          }
        }
      case InputRun(startFrame, ackFrame, run) =>
        inputs, replies := OnInputRun(startFrame, ackFrame, run);
      case InputAck(ackFrame) =>
        lastAckedFrame := Later(lastAckedFrame, ackFrame);
      case QualityReport(frameAdvantage, ping) =>
        remoteAdvantage := frameAdvantage;
        replies := [Wrap(QualityReply(ping))];
      case QualityReply(_) =>
      case KeepAlive =>
      case Checksum(frame, checksum) =>
        var ours := FindChecksum(frame);
        if ours.Some? && ours.value != checksum {
          events := [Desync(frame, ours.value, checksum)];
        }
    }

    // A run that starts past the next frame needed is dropped, except the first one.
    method OnInputRun(startFrame: Frame, ackFrame: Frame, run: seq<I>)
      returns (inputs: seq<(Frame, I)>, replies: seq<Message<I>>)
      modifies this`lastAckedFrame, this`lastReceivedFrame
      ensures Handled(old(View()), InputRun(startFrame, ackFrame, run)) == Outcome(View(), replies, inputs, [])
    {
      inputs, replies := [], [];
      lastAckedFrame := Later(lastAckedFrame, ackFrame);
      if lastReceivedFrame != NULL_FRAME && startFrame > lastReceivedFrame + 1 {
        return;
      }
      for offset := 0 to |run|
        invariant inputs == NewInputs(startFrame, run[..offset], lastReceivedFrame)
      {
        assert run[..offset + 1][..offset] == run[..offset];
        var frame := startFrame + offset;
        if frame > lastReceivedFrame {
          inputs := inputs + [(frame, run[offset])];
        }
      }
      assert run[..|run|] == run;
      if inputs != [] {
        lastReceivedFrame := inputs[|inputs| - 1].0;
      }
      replies := [Wrap(InputAck(lastReceivedFrame))];
    }

    method FindChecksum(frame: Frame) returns (ours: Option<nat>)
      ensures ours == OwnChecksum(localChecksums, frame)
    {
      for n := 0 to |localChecksums|
        invariant OwnChecksum(localChecksums, frame) == OwnChecksum(localChecksums[n..], frame)
      {
        if localChecksums[n].0 == frame {
          return Some(localChecksums[n].1);
        }
      }
      return None;
    }
  }
}
