/** The session a game drives (crates/fofoca-netplay/src/session.rs). */
module Sessions {
  import opened Timeline
  import opened Options
  import opened Requests
  import opened InputQueues
  import opened SavedStatesRing
  import opened Resimulation
  import opened RollbackSync
  import opened PeerProtocols

  datatype SessionState = Synchronizing | Playing

  datatype Event<+A> = News(addr: A, event: PeerEvent) | Started

  datatype SessionError = Limit | BadPlayer(player: nat) | MissingLocalInput
  datatype SessionResult<+T> = Done(value: T) | Refused(error: SessionError)

  // Filing the local player's input, which is never behind the simulation, brings no misprediction.
  lemma LocalFilingKeepsSeek<I>(neutral: I, tracks: seq<Track<I>>, count: nat, confirmed: Frame, maxPrediction: nat,
                                player: nat, delay: nat, input: I)
    requires Fits(neutral, tracks, count, confirmed, maxPrediction) && player < |tracks| &&
        count <= |tracks[player].log|
    ensures Seek(FiledIn(neutral, tracks, player, count, delay, input)) == Seek(tracks)
  {
    var t := tracks[player];
    if |t.log| <= count + delay {
      FilingKeeps(neutral, t, count + delay);
      FilingOne(neutral, Track(KnownTo(neutral, t.log, count + delay), t.served), input);
    }
    assert LeastMismatch(Filed(neutral, t.log, count, delay, input), t.served) == LeastMismatch(t.log, t.served);
    SeekReads(tracks, FiledIn(neutral, tracks, player, count, delay, input));
  }

  lemma {:induction false} SeekReads<I>(xs: seq<Track<I>>, ys: seq<Track<I>>)
    requires |xs| == |ys|
    requires forall i :: 0 <= i < |xs| ==> LeastMismatch(xs[i].log, xs[i].served) == LeastMismatch(ys[i].log, ys[i].served)
    ensures Seek(xs) == Seek(ys)
    decreases |xs|
  {
  }

  lemma DelayIs(delay: nat)
    ensures EffectiveDelay(delay) == if delay <= 0x7fff_ffff then delay else 0
  {
  }

  // Once the local input is filed, everything the next frame needs is in place.
  lemma LocalFilingFits<I>(neutral: I, tracks: seq<Track<I>>, count: nat, confirmed: Frame, maxPrediction: nat,
                           player: nat, delay: nat, input: I)
    requires Fits(neutral, tracks, count, confirmed, maxPrediction) && player < |tracks|
    requires |tracks[player].log| == if count == 0 then 0 else count + delay
    requires forall i :: 0 <= i < |tracks| && i != player ==> confirmed < |tracks[i].log|
    requires InRing(tracks, count) && count + delay < ResumeFrom(tracks, count) + QUEUE_LEN
    ensures var filed := FiledIn(neutral, tracks, player, count, delay, input);
            && Seek(filed) == Seek(tracks)
            && InRing(filed, count)
            && |filed[player].log| == count + delay + 1
            && forall i :: 0 <= i < |filed| ==> confirmed < |filed[i].log| || count < |filed[i].log|
  {
    hide Fits, Seek;
    LocalFilingKeepsSeek(neutral, tracks, count, confirmed, maxPrediction, player, delay, input);
  }

  // Which player the `k`-th remote peer is.
  function HandleOf(localHandle: nat, k: nat): nat {
    if k < localHandle then k else k + 1
  }

  function FiledFor<I>(neutral: I, tracks: seq<Track<I>>, player: nat, run: seq<(Frame, I)>): seq<Track<I>>
    requires player < |tracks| && forall i :: 0 <= i < |run| ==> 0 <= run[i].0
  {
    tracks[player := Track(FiledRun(neutral, tracks[player].log, run), tracks[player].served)]
  }

  // `after` is `before` with a run of inputs filed for one player.
  ghost predicate AreFiledFor<I>(neutral: I, before: seq<Track<I>>, player: nat, run: seq<(Frame, I)>,
                                 after: seq<Track<I>>) {
    && player < |before| && (forall i :: 0 <= i < |run| ==> 0 <= run[i].0)
    && after == FiledFor(neutral, before, player, run)
  }

  // Inputs have come in and nothing else has happened.
  ghost predicate Extended<I>(before: seq<Track<I>>, after: seq<Track<I>>) {
    |before| == |after| &&
    forall i :: 0 <= i < |before| ==> before[i].served == after[i].served && before[i].log <= after[i].log
  }

  lemma RunExtends<I>(neutral: I, log: seq<I>, run: seq<(Frame, I)>)
    requires Contiguous(|log|, run)
    ensures log <= FiledRun(neutral, log, run)
  {
  }

  // One more input held for every peer.
  ghost function AllQueued<I>(links: seq<Peer<I>>, frame: Frame, input: I): seq<Peer<I>> {
    seq(|links|, k requires 0 <= k < |links| => links[k].(pending := links[k].pending + [(frame, input)]))
  }

  // A checksum on file with every peer.
  ghost function AllStamped<I>(links: seq<Peer<I>>, frame: Frame, checksum: nat): seq<Peer<I>> {
    seq(|links|, k requires 0 <= k < |links| => WithChecksum(links[k], frame, checksum))
  }

  lemma FiledForExtends<I>(neutral: I, tracks: seq<Track<I>>, player: nat, run: seq<(Frame, I)>)
    requires player < |tracks| && Contiguous(|tracks[player].log|, run)
    ensures Extended(tracks, FiledFor(neutral, tracks, player, run))
  {
    RunExtends(neutral, tracks[player].log, run);
  }

  // On file with the first so many of them.
  ghost function StampedTo<I>(links: seq<Peer<I>>, n: nat, frame: Frame, checksum: nat): seq<Peer<I>> {
    seq(|links|, k requires 0 <= k < |links| => if k < n then WithChecksum(links[k], frame, checksum) else links[k])
  }

  // A checksum addressed to every peer.
  ghost function Advert<I, A>(addrs: seq<A>, links: seq<Peer<I>>, frame: Frame, checksum: nat): seq<(A, Message<I>)>
    requires |addrs| == |links|
  {
    seq(|addrs|, k requires 0 <= k < |addrs| => (addrs[k], Message(links[k].magic, Checksum(frame, checksum))))
  }

  lemma StampedNone<I, A>(addrs: seq<A>, links: seq<Peer<I>>, frame: Frame, checksum: nat)
    requires |addrs| == |links|
    ensures links == StampedTo(links, 0, frame, checksum) && |Advert(addrs, links, frame, checksum)| == |links|
    ensures StampedTo(links, |links|, frame, checksum) == AllStamped(links, frame, checksum)
  {
  }

  lemma StampedOneMore<I, A>(addrs: seq<A>, links: seq<Peer<I>>, n: nat, frame: Frame, checksum: nat)
    requires n < |links| == |addrs|
    ensures var so := StampedTo(links, n, frame, checksum);
            && |so| == |links| && so[n].magic == links[n].magic
            && so[n := WithChecksum(so[n], frame, checksum)] == StampedTo(links, n + 1, frame, checksum)
    ensures Advert(addrs, links, frame, checksum)[..n] + [(addrs[n], Message(links[n].magic, Checksum(frame, checksum)))]
         == Advert(addrs, links, frame, checksum)[..n + 1]
  {
  }

  function AddressedTo<A, I>(addr: A, messages: seq<Message<I>>): seq<(A, Message<I>)> {
    seq(|messages|, i requires 0 <= i < |messages| => (addr, messages[i]))
  }

  function NewsFrom<A>(addr: A, news: seq<PeerEvent>): seq<Event<A>> {
    seq(|news|, i requires 0 <= i < |news| => News(addr, news[i]))
  }

  // Where an address is first listed, or past the end.
  function FirstAt<A(==)>(addrs: seq<A>, addr: A): (k: nat)
    ensures k <= |addrs| && (k < |addrs| ==> addrs[k] == addr) && forall i :: 0 <= i < k ==> addrs[i] != addr
  {
    if addrs == [] || addrs[0] == addr then 0 else 1 + FirstAt(addrs[1..], addr)
  }

  // What a poll has come to so far: the connections, what is filed, the news, and what is to be sent.
  datatype Poll<I, +A> = Poll(links: seq<Peer<I>>, tracks: seq<Track<I>>, news: seq<Event<A>>,
                               outgoing: seq<(A, Message<I>)>)

  // One packet taken in: by the connection it is from, if there is one, its inputs filed for that player.
  ghost function TakenOne<I, A>(neutral: I, addrs: seq<A>, local: nat, s: Poll<I, A>, packet: (A, Message<I>))
    : (t: Poll<I, A>)
    requires |addrs| == |s.links| == |s.tracks| - 1
    ensures |t.links| == |s.links| && |t.tracks| == |s.tracks|
  {
    var k := FirstAt(addrs, packet.0);
    if k == |addrs| then s
    else
      var o := Received(s.links[k], packet.1);
      var filed := if forall i :: 0 <= i < |o.inputs| ==> 0 <= o.inputs[i].0
                   then FiledFor(neutral, s.tracks, HandleOf(local, k), o.inputs) else s.tracks;
      Poll(s.links[k := o.peer], filed, s.news + NewsFrom(addrs[k], o.events),
           s.outgoing + AddressedTo(packet.0, o.replies))
  }

  ghost function Taken<I, A>(neutral: I, addrs: seq<A>, local: nat, s: Poll<I, A>, packets: seq<(A, Message<I>)>)
    : (t: Poll<I, A>)
    requires |addrs| == |s.links| == |s.tracks| - 1
    ensures |t.links| == |s.links| && |t.tracks| == |s.tracks|
  {
    if packets == [] then s
    else TakenOne(neutral, addrs, local, Taken(neutral, addrs, local, s, packets[..|packets| - 1]), packets[|packets| - 1])
  }

  // The first `n` connections ticked, in order.
  ghost function TickedAll<I, A>(addrs: seq<A>, s: Poll<I, A>, frame: Frame, n: nat): (t: Poll<I, A>)
    requires |addrs| == |s.links| && n <= |addrs|
    ensures |t.links| == |s.links| && t.tracks == s.tracks
    ensures forall k :: n <= k < |t.links| ==> t.links[k] == s.links[k]
  {
    if n == 0 then s
    else
      var t := TickedAll(addrs, s, frame, n - 1);
      var o := Ticked(t.links[n - 1], frame);
      Poll(t.links[n - 1 := o.peer], t.tracks, t.news + NewsFrom(addrs[n - 1], o.events),
           t.outgoing + AddressedTo(addrs[n - 1], o.replies))
  }

  // ---- Desyncs reach the game ----

  // The packet is a known peer's checksum of a frame, and the first one on file for that frame is another.
  ghost predicate Contradicts<I, A>(addrs: seq<A>, links: seq<Peer<I>>, packet: (A, Message<I>), k: int, i: int) {
    && 0 <= k < |addrs| == |links| && k == FirstAt(addrs, packet.0)
    && links[k].remoteMagic == Some(packet.1.magic) && packet.1.body.Checksum?
    && IsOwn(links[k], packet.1.body.frame, i) && links[k].localChecksums[i].1 != packet.1.body.checksum
  }

  ghost function DesyncOf<I, A>(addrs: seq<A>, links: seq<Peer<I>>, packet: (A, Message<I>), k: int, i: int): Event<A>
    requires Contradicts(addrs, links, packet, k, i)
  {
    News(addrs[k], Desync(packet.1.body.frame, links[k].localChecksums[i].1, packet.1.body.checksum))
  }

  // The news so far, the nonces known and the checksums on file are all still there.
  ghost predicate Remembers<I, A>(s: Poll<I, A>, t: Poll<I, A>) {
    && s.news <= t.news && |s.links| == |t.links|
    && forall k :: 0 <= k < |s.links| ==>
         && t.links[k].localChecksums == s.links[k].localChecksums
         && (s.links[k].remoteMagic.Some? ==> t.links[k].remoteMagic == s.links[k].remoteMagic)
  }

  lemma TakingOneRemembers<I, A>(neutral: I, addrs: seq<A>, local: nat, s: Poll<I, A>, packet: (A, Message<I>))
    requires |addrs| == |s.links| == |s.tracks| - 1
    ensures Remembers(s, TakenOne(neutral, addrs, local, s, packet))
  {
    hide Received, FiledFor;
    var k := FirstAt(addrs, packet.0);
    if k < |addrs| {
      ReceivingForgetsNothing(s.links[k], packet.1);
    }
  }

  lemma {:induction false} TakingRemembers<I, A>(neutral: I, addrs: seq<A>, local: nat, s: Poll<I, A>,
                                                 packets: seq<(A, Message<I>)>)
    requires |addrs| == |s.links| == |s.tracks| - 1
    ensures Remembers(s, Taken(neutral, addrs, local, s, packets))
    decreases |packets|
  {
    hide TakenOne;
    if packets != [] {
      var last := |packets| - 1;
      TakingRemembers(neutral, addrs, local, s, packets[..last]);
      TakingOneRemembers(neutral, addrs, local, Taken(neutral, addrs, local, s, packets[..last]), packets[last]);
    }
  }

  lemma {:induction false} TickingForgetsNoNews<I, A>(addrs: seq<A>, s: Poll<I, A>, frame: Frame, n: nat)
    requires |addrs| == |s.links| && n <= |addrs|
    ensures s.news <= TickedAll(addrs, s, frame, n).news
    decreases n
  {
    if n > 0 {
      TickingForgetsNoNews(addrs, s, frame, n - 1);
    }
  }

  lemma DesyncIsNews<I, A>(neutral: I, addrs: seq<A>, local: nat, s: Poll<I, A>, packet: (A, Message<I>), k: int,
                           i: int)
    requires |addrs| == |s.links| == |s.tracks| - 1 && Contradicts(addrs, s.links, packet, k, i)
    ensures DesyncOf(addrs, s.links, packet, k, i) in TakenOne(neutral, addrs, local, s, packet).news
  {
    hide Received;
    ChecksumIsCompared(s.links[k], packet.1);
    var news := NewsFrom(addrs[k], Received(s.links[k], packet.1).events);
    assert news[0] == DesyncOf(addrs, s.links, packet, k, i);
  }

  lemma StillContradicts<I, A>(addrs: seq<A>, s: Poll<I, A>, t: Poll<I, A>, packet: (A, Message<I>), k: int, i: int)
    requires Remembers(s, t) && Contradicts(addrs, s.links, packet, k, i)
    ensures Contradicts(addrs, t.links, packet, k, i)
    ensures DesyncOf(addrs, t.links, packet, k, i) == DesyncOf(addrs, s.links, packet, k, i)
  {
  }

  // All that contradicts what was on file to begin with is in the news.
  ghost predicate AllHeard<I, A>(addrs: seq<A>, s: Poll<I, A>, t: Poll<I, A>, packets: seq<(A, Message<I>)>) {
    forall n, k, i :: 0 <= n < |packets| && Contradicts(addrs, s.links, packets[n], k, i) ==>
      DesyncOf(addrs, s.links, packets[n], k, i) in t.news
  }

  lemma OneMoreHeard<I, A>(neutral: I, addrs: seq<A>, local: nat, s: Poll<I, A>, before: Poll<I, A>,
                           packets: seq<(A, Message<I>)>, packet: (A, Message<I>))
    requires |addrs| == |before.links| == |before.tracks| - 1
    requires Remembers(s, before) && AllHeard(addrs, s, before, packets)
    ensures AllHeard(addrs, s, TakenOne(neutral, addrs, local, before, packet), packets + [packet])
  {
    hide TakenOne, Contradicts, DesyncOf;
    TakingOneRemembers(neutral, addrs, local, before, packet);
    var all := packets + [packet];
    forall n, k, i | 0 <= n < |all| && Contradicts(addrs, s.links, all[n], k, i)
      ensures DesyncOf(addrs, s.links, all[n], k, i) in TakenOne(neutral, addrs, local, before, packet).news
    {
      if n == |packets| {
        StillContradicts(addrs, s, before, packet, k, i);
        DesyncIsNews(neutral, addrs, local, before, packet, k, i);
      } else {
        assert all[n] == packets[n];
      }
    }
  }

  // Every checksum a poll hears that contradicts the one on file is among the news it brings.
  lemma {:induction false} DesyncsAreNews<I, A>(neutral: I, addrs: seq<A>, local: nat, s: Poll<I, A>,
                                                packets: seq<(A, Message<I>)>)
    requires |addrs| == |s.links| == |s.tracks| - 1
    ensures AllHeard(addrs, s, Taken(neutral, addrs, local, s, packets), packets)
    decreases |packets|
  {
    hide TakenOne, Contradicts, DesyncOf, Remembers;
    if packets != [] {
      var last := |packets| - 1;
      var before := Taken(neutral, addrs, local, s, packets[..last]);
      DesyncsAreNews(neutral, addrs, local, s, packets[..last]);
      TakingRemembers(neutral, addrs, local, s, packets[..last]);
      hide AllHeard;
      OneMoreHeard(neutral, addrs, local, s, before, packets[..last], packets[last]);
      assert packets[..last] + [packets[last]] == packets;
    }
  }

  class P2PSession<S, I(==), A(==)> {
    const sync: Sync<S, I>
    const peers: seq<PeerProtocol<A, I>>
    const localHandle: nat
    const inputDelay: nat
    var state: SessionState
    var events: seq<Event<A>>
    var skipFrames: nat
    var lastChecksumFrame: Frame
    var localInput: Option<I>

    // What each connection has received.
    ghost var lasts: seq<Frame>

    // What is filed for a remote player is what its connection has received, nothing is confirmed
    // that has not been, and the local player's inputs are filed for frames 0..made, delayed.
    ghost predicate Linked(made: nat)
      reads this`lasts, sync, peers
    {
      && |sync.queues| == |sync.tracks|
      && |lasts| == |peers| && (forall k :: 0 <= k < |peers| ==> peers[k].lastReceivedFrame == lasts[k])
      && LinkedWith(sync.tracks, sync.given, sync.lastConfirmedFrame, lasts, made)
    }

    ghost predicate LinkedWith(tracks: seq<Track<I>>, given: seq<Frame>, confirmed: Frame, lasts: seq<Frame>,
                               made: nat) {
      && localHandle < |tracks| == |given| == |sync.delays|
      && |lasts| == |peers| == |tracks| - 1
      && (forall k, m :: 0 <= k < m < |peers| ==> peers[k] != peers[m])
      && sync.delays[localHandle] == inputDelay
      && given[localHandle] == made - 1
      && |tracks[localHandle].log| == (if made == 0 then 0 else made + EffectiveDelay(inputDelay))
      && forall k :: 0 <= k < |peers| ==>
           && peers[k].handle == HandleOf(localHandle, k)
           && sync.delays[peers[k].handle] == 0
           && given[peers[k].handle] == lasts[k]
           && |tracks[peers[k].handle].log| == lasts[k] + 1
           && confirmed <= lasts[k]
    }

    // Filing the local player's next input leaves every other link as it was.
    lemma LocalLinkGrows(tracks: seq<Track<I>>, given: seq<Frame>, confirmed: Frame, made: nat, t: Track<I>)
      requires LinkedWith(tracks, given, confirmed, lasts, made)
      requires |t.log| == made + 1 + EffectiveDelay(inputDelay)
      ensures LinkedWith(tracks[localHandle := t], given[localHandle := made], confirmed, lasts, made + 1)
    {
    }

    lemma PeersDistinct(made: nat)
      requires LinkedWith(sync.tracks, sync.given, sync.lastConfirmedFrame, lasts, made)
      ensures forall k, m :: 0 <= k < m < |peers| ==> peers[k] != peers[m]
    {
    }

    // Simulating reads the logs and changes none of them.
    lemma SettlingKeepsLinks(made: nat, n: nat)
      requires LinkedWith(sync.tracks, sync.given, sync.lastConfirmedFrame, lasts, made)
      ensures LinkedWith(AllSettledAt(sync.neutral, sync.tracks, n), sync.given, sync.lastConfirmedFrame, lasts, made)
      ensures |AllSettledAt(sync.neutral, sync.tracks, n)| == |sync.tracks|
    {
    }

    // So does filing what one connection brought.
    lemma RemoteLinkGrows(tracks: seq<Track<I>>, given: seq<Frame>, confirmed: Frame, made: nat, k: nat, t: Track<I>,
                          last: Frame)
      requires LinkedWith(tracks, given, confirmed, lasts, made) && k < |peers|
      requires |t.log| == last + 1 && lasts[k] <= last
      ensures var h := peers[k].handle;
              && h < |tracks| && h != localHandle
              && LinkedWith(tracks[h := t], given[h := last], confirmed, lasts[k := last], made)
    {
    }

    ghost predicate Valid()
      reads this`lasts, sync, sync.saved, sync.queues, set q | q in sync.queues :: q.inputs
      reads peers
    {
      sync.Valid() && Linked(sync.currentFrame)
    }

    // Room in every ring for what the next advance simulates again.
    ghost predicate RingRoom()
      reads sync
    {
      && localHandle < |sync.tracks|
      && InRing(sync.tracks, sync.currentFrame)
      && sync.currentFrame + EffectiveDelay(inputDelay) < ResumeFrom(sync.tracks, sync.currentFrame) + QUEUE_LEN
    }

    ghost function Peers(): set<PeerProtocol<A, I>> {
      set p | p in peers
    }

    function Links(): seq<Peer<I>>
      reads peers
    {
      seq(|peers|, k requires 0 <= k < |peers| reads peers => peers[k].View())
    }

    function Addresses(): seq<A> {
      seq(|peers|, k requires 0 <= k < |peers| => peers[k].addr)
    }

    constructor (neutral: I, players: seq<A>, localHandle: nat, maxPrediction: nat, inputDelay: nat, magic: U32)
      requires localHandle < |players|
      ensures Valid() && fresh(sync) && fresh(sync.Repr()) && fresh(sync.saved.cells) && fresh(peers)
      ensures sync.saved.Holds(0) && sync.currentFrame == 0 && sync.saved.head == 0
      ensures this.localHandle == localHandle && this.inputDelay == inputDelay
      ensures sync.neutral == neutral && sync.maxPrediction == maxPrediction
      ensures sync.tracks == seq(|players|, _ => Track([], []))
      ensures sync.lastConfirmedFrame == NULL_FRAME && lastChecksumFrame == NULL_FRAME
      ensures forall c :: c in sync.saved.cells ==> c.inner == CellInner(NULL_FRAME, None, None)
      ensures |peers| == |players| - 1
      ensures forall k :: 0 <= k < |peers| ==>
                peers[k].addr == players[HandleOf(localHandle, k)] && peers[k].View() == NewPeer(magic)
      ensures state == Synchronizing && events == [] && localInput == None
    {
      hide InputQueue.Valid, Fits, SavedStates.Holds, InputQueue.Is, Sync.Valid, EffectiveDelay;
      this.localHandle, this.inputDelay := localHandle, inputDelay;
      state, events, skipFrames, lastChecksumFrame, localInput := Synchronizing, [], 0, NULL_FRAME, None;
      var made := P2PSession<S, I, A>.Connect(players, localHandle, magic);
      peers := made;
      sync := new Sync<S, I>(neutral, |players|, maxPrediction, inputDelay, localHandle);
      lasts := seq(|made|, _ => NULL_FRAME);
      new;
      assert forall k :: 0 <= k < |peers| ==> peers[k].View() == NewPeer(magic);
      StartsLinked();
      hide Linked;
    }

    lemma StartsLinked()
      requires var n := |sync.queues|;
               && localHandle < n == |peers| + 1 && sync.tracks == seq(n, _ => Track([], []))
               && sync.given == seq(n, _ => NULL_FRAME) && sync.lastConfirmedFrame == NULL_FRAME
               && sync.delays == seq(n, i => if i == localHandle then inputDelay else 0)
               && lasts == seq(n - 1, _ => NULL_FRAME)
      requires forall k, m :: 0 <= k < m < |peers| ==> peers[k] != peers[m]
      requires forall k :: 0 <= k < |peers| ==>
                 peers[k].lastReceivedFrame == NULL_FRAME && peers[k].handle == HandleOf(localHandle, k)
      ensures Linked(0)
    {
    }

    // One connection per remote player, in handle order.
    static method Connect(players: seq<A>, localHandle: nat, magic: U32) returns (made: seq<PeerProtocol<A, I>>)
      requires localHandle < |players|
      ensures fresh(made) && |made| == |players| - 1
      ensures forall k, m :: 0 <= k < m < |made| ==> made[k] != made[m]
      ensures forall k :: 0 <= k < |made| ==>
                && made[k].View() == NewPeer(magic)
                && made[k].handle == HandleOf(localHandle, k)
                && made[k].addr == players[HandleOf(localHandle, k)]
    {
      made := [];
      for handle := 0 to |players|
        invariant |made| == if handle <= localHandle then handle else handle - 1
        invariant fresh(made)
        invariant forall k, m :: 0 <= k < m < |made| ==> made[k] != made[m]
        invariant forall k :: 0 <= k < |made| ==>
                    && made[k].View() == NewPeer(magic)
                    && made[k].handle == HandleOf(localHandle, k)
                    && made[k].addr == players[HandleOf(localHandle, k)]
      {
        if handle != localHandle {
          var peer := new PeerProtocol<A, I>(players[handle], handle, magic);
          made := made + [peer];
        }
      }
    }

    // A session needs a local handle that names one of the players.
    static method Open(neutral: I, players: seq<A>, localHandle: nat, maxPrediction: nat, inputDelay: nat, magic: U32)
      returns (r: SessionResult<P2PSession<S, I, A>>)
      ensures r.Refused? <==> localHandle >= |players|
      ensures r.Refused? ==> r.error == BadPlayer(localHandle)
      ensures r.Done? ==> fresh(r.value) && r.value.Valid() && r.value.localHandle == localHandle
    {
      if localHandle >= |players| {
        return Refused(BadPlayer(localHandle));
      }
      var session := new P2PSession<S, I, A>(neutral, players, localHandle, maxPrediction, inputDelay, magic);
      return Done(session);
    }

    // Keep the input of the frame to come; a second call replaces the first.
    method AddLocalInput(input: I)
      modifies this`localInput
      ensures localInput == Some(input)
    {
      localInput := Some(input);
    }

    // The local input made at frame `count` has landed `inputDelay` frames later, after default inputs at the
    // start of a match. A delay that does not fit a frame number counts as none. No other log has changed.
    ghost predicate FiledLocally(before: seq<Track<I>>, after: seq<Track<I>>, count: nat, input: I) {
      var at := count + if inputDelay <= 0x7fff_ffff then inputDelay else 0;
      && localHandle < |before| == |after|
      && |after[localHandle].log| == at + 1 && after[localHandle].log[at] == input
      && before[localHandle].log <= after[localHandle].log
      && (count == 0 ==> forall g :: 0 <= g < at ==> after[localHandle].log[g] == sync.neutral)
      && forall i :: 0 <= i < |before| && i != localHandle ==> after[i].log == before[i].log
    }

    lemma FilingLocally(made: nat, input: I)
      requires Linked(made)
      ensures localHandle < |sync.tracks|
      ensures var filed := FiledIn(sync.neutral, sync.tracks, localHandle, made, EffectiveDelay(inputDelay), input);
              && FiledLocally(sync.tracks, filed, made, input)
              && forall n :: FiledLocally(sync.tracks, AllSettledAt(sync.neutral, filed, n), made, input)
    {
      LocalState(made);
    }

    // Produce the requests of the next frame, those of a rollback first, unless there is a reason to wait.
    method AdvanceFrame() returns (r: SessionResult<seq<Request<S, I>>>)
      requires Valid() && sync.saved.Holds(sync.currentFrame) && RingRoom()
      modifies this`skipFrames, this`localInput, sync`currentFrame, sync`tracks, sync`given, sync.saved`head,
          sync.queues, set q | q in sync.queues :: q.inputs
      modifies Peers()`pending
      ensures Valid() && sync.lastConfirmedFrame == old(sync.lastConfirmedFrame)
      ensures r.Done? ==> Seek(sync.tracks) == NULL_FRAME
      ensures r == Refused(MissingLocalInput) <==>
                old(state) == Playing && old(skipFrames) == 0 && old(localInput) == None
      ensures r == Refused(Limit) <==>
                old(state) != Playing || old(skipFrames) > 0
                || (old(localInput).Some? && old(sync.FramesAhead()) >= sync.maxPrediction)
      ensures r.Done? || r == Refused(MissingLocalInput) || r == Refused(Limit)
      ensures skipFrames == if old(state) == Playing && old(skipFrames) > 0 then old(skipFrames) - 1 else old(skipFrames)
      ensures r.Refused? ==>
                && sync.tracks == old(sync.tracks) && sync.currentFrame == old(sync.currentFrame)
                && sync.saved.head == old(sync.saved.head) && localInput == old(localInput) && Links() == old(Links())
      ensures r.Done? ==>
                && old(localInput).Some? && localInput == None
                && var count := old(sync.currentFrame);
                var filed := FiledIn(sync.neutral, old(sync.tracks), localHandle, count, EffectiveDelay(inputDelay),
                    old(localInput).value);
                && sync.currentFrame == count + 1
                && sync.tracks == AllSettledAt(sync.neutral, filed, count + 1)
                && sync.saved.head == (if old(sync.saved.head) + 1 == |sync.saved.cells| then 0
                    else old(sync.saved.head) + 1)
                && CanSeek(filed, count, |sync.saved.cells|)
                && r.value == Requested(sync.neutral, filed, sync.saved.cells, old(sync.saved.head), count, Seek(filed))
                && Links() == AllQueued(old(Links()), count + EffectiveDelay(inputDelay), old(localInput).value)
                && FiledLocally(old(sync.tracks), sync.tracks, count, old(localInput).value)
    {
      hide Valid, RingRoom, Requested, Seek, SavedStates.Holds, CanSeek, EffectiveDelay, AllSettledAt, AllQueued, Links,
          FiledLocally;
      if state != Playing {
        return Refused(Limit);
      }
      if skipFrames > 0 {
        skipFrames := skipFrames - 1;
        return Refused(Limit);
      }
      if localInput == None {
        return Refused(MissingLocalInput);
      }
      var input := localInput.value;
      r := FileAndSimulate(input);
      if r.Done? {
        localInput := None;
      }
    }

    // File the local input, tell the peers, and produce the requests of the next frame.
    method FileAndSimulate(input: I) returns (r: SessionResult<seq<Request<S, I>>>)
      requires Valid() && sync.saved.Holds(sync.currentFrame) && RingRoom()
      modifies sync`currentFrame, sync`tracks, sync`given, sync.saved`head, sync.queues,
          set q | q in sync.queues :: q.inputs
      modifies Peers()`pending
      ensures Valid() && sync.lastConfirmedFrame == old(sync.lastConfirmedFrame)
      ensures r.Done? ==> Seek(sync.tracks) == NULL_FRAME
      ensures r.Refused? <==> old(sync.FramesAhead()) >= sync.maxPrediction
      ensures r.Refused? ==>
                && r == Refused(Limit)
                && sync.tracks == old(sync.tracks) && sync.currentFrame == old(sync.currentFrame)
                && sync.saved.head == old(sync.saved.head) && Links() == old(Links())
      ensures r.Done? ==>
                && var count := old(sync.currentFrame);
                var filed := FiledIn(sync.neutral, old(sync.tracks), localHandle, count, EffectiveDelay(inputDelay),
                    input);
                && sync.currentFrame == count + 1
                && sync.tracks == AllSettledAt(sync.neutral, filed, count + 1)
                && sync.saved.head == (if old(sync.saved.head) + 1 == |sync.saved.cells| then 0
                    else old(sync.saved.head) + 1)
                && CanSeek(filed, count, |sync.saved.cells|)
                && r.value == Requested(sync.neutral, filed, sync.saved.cells, old(sync.saved.head), count, Seek(filed))
                && Links() == AllQueued(old(Links()), count + EffectiveDelay(inputDelay), input)
                && FiledLocally(old(sync.tracks), sync.tracks, count, input)
    {
      hide InRing, Requested, Seek, SavedStates.Holds, CanSeek, EffectiveDelay, Sync.Valid, Linked, FiledIn,
          AllSettledAt, AllQueued, Links, RingRoom, ResumeFrom, Sync.FramesAhead, FiledLocally;
      FilingLocally(sync.currentFrame, input);
      var filed := FileLocalInput(input);
      if filed.Refused? {
        return Refused(filed.error);
      }
      if filed.value != NULL_FRAME {
        SendToAll(filed.value, input, sync.currentFrame + 1);
      }
      ghost var filedTracks := sync.tracks;
      var requests := SimulateNext();
      SettledSeeksNothing(sync.neutral, filedTracks, sync.currentFrame);
      return Done(requests);
    }

    method SimulateNext() returns (requests: seq<Request<S, I>>)
      requires sync.Valid() && Linked(sync.currentFrame + 1)
      requires sync.saved.Holds(sync.currentFrame) && InRing(sync.tracks, sync.currentFrame)
      requires sync.FramesAhead() < sync.maxPrediction
      requires forall i :: 0 <= i < |sync.tracks| ==>
                 sync.lastConfirmedFrame < |sync.tracks[i].log| || sync.currentFrame < |sync.tracks[i].log|
      modifies sync`currentFrame, sync`tracks, sync.saved`head, sync.Queues()
      ensures sync.Valid() && Linked(sync.currentFrame) && sync.currentFrame == old(sync.currentFrame) + 1
      ensures sync.saved.head == if old(sync.saved.head) + 1 == |sync.saved.cells| then 0 else old(sync.saved.head) + 1
      ensures sync.tracks == AllSettledAt(sync.neutral, old(sync.tracks), sync.currentFrame)
      ensures CanSeek(old(sync.tracks), old(sync.currentFrame), |sync.saved.cells|)
      ensures requests == Requested(sync.neutral, old(sync.tracks), sync.saved.cells, old(sync.saved.head),
                                    old(sync.currentFrame), Seek(old(sync.tracks)))
    {
      hide Sync.Valid, Requested, Seek, SavedStates.Holds, CanSeek, EffectiveDelay, LinkedWith, InRing, AllSettledAt;
      SettlingKeepsLinks(sync.currentFrame + 1, sync.currentFrame + 1);
      requests := sync.NextFrame();
    }

    lemma LocalState(made: nat)
      requires Linked(made)
      ensures localHandle < |sync.tracks| == |sync.given| == |sync.delays| == |sync.queues|
      ensures sync.delays[localHandle] == inputDelay && sync.given[localHandle] == made - 1
      ensures |sync.tracks[localHandle].log| == if made == 0 then 0 else made + EffectiveDelay(inputDelay)
    {
    }

    // Whoever is not the local player has sent all confirmed inputs.
    lemma RemotesAreConfirmed(made: nat)
      requires Linked(made)
      ensures localHandle < |sync.tracks|
      ensures forall h :: 0 <= h < |sync.tracks| && h != localHandle ==> sync.lastConfirmedFrame < |sync.tracks[h].log|
    {
      forall h | 0 <= h < |sync.tracks| && h != localHandle ensures sync.lastConfirmedFrame < |sync.tracks[h].log| {
        assert peers[if h < localHandle then h else h - 1].handle == h;
      }
    }

    // All that filing the local input needs, and leads to.
    lemma ReadyToFile(input: I)
      requires Valid() && RingRoom()
      ensures localHandle < |sync.tracks| == |sync.given| == |sync.delays| == |sync.queues|
      ensures sync.delays[localHandle] == inputDelay && sync.given[localHandle] == sync.currentFrame - 1
      ensures |sync.tracks[localHandle].log| <= sync.currentFrame + EffectiveDelay(inputDelay)
      ensures var filed := FiledIn(sync.neutral, sync.tracks, localHandle, sync.currentFrame,
          EffectiveDelay(inputDelay), input);
              && InRing(filed, sync.currentFrame)
              && LinkedWith(filed, sync.given[localHandle := sync.currentFrame], sync.lastConfirmedFrame, lasts,
                  sync.currentFrame + 1)
              && forall i :: 0 <= i < |filed| ==> sync.lastConfirmedFrame < |filed[i].log| || sync.currentFrame < |filed[i].log|
    {
      hide Seek, EffectiveDelay, Filed, InRing, Fits, Sync.QueuesValid, SavedStates.Valid, LinkedWith;
      var count, delay := sync.currentFrame, EffectiveDelay(inputDelay);
      RemotesAreConfirmed(count);
      LocalState(count);
      LocalFilingFits(sync.neutral, sync.tracks, count, sync.lastConfirmedFrame, sync.maxPrediction, localHandle,
          delay, input);
      LocalLinkGrows(sync.tracks, sync.given, sync.lastConfirmedFrame, count,
                     FiledIn(sync.neutral, sync.tracks, localHandle, count, delay, input)[localHandle]);
    }

    // File the local input, if the prediction window allows.
    method FileLocalInput(input: I) returns (r: SessionResult<Frame>)
      requires Valid() && RingRoom()
      modifies sync`tracks, sync`given, sync.queues, set q | q in sync.queues :: q.inputs
      ensures sync.Valid()
      ensures r == if old(sync.FramesAhead()) >= sync.maxPrediction then Refused(Limit)
                   else Done(sync.currentFrame + EffectiveDelay(inputDelay))
      ensures r.Done? ==>
                && r.value == sync.currentFrame + (if inputDelay <= 0x7fff_ffff then inputDelay else 0)
                && FiledLocally(old(sync.tracks), sync.tracks, sync.currentFrame, input)
      ensures sync.FramesAhead() == old(sync.FramesAhead())
      ensures r.Refused? ==> Linked(sync.currentFrame) && sync.tracks == old(sync.tracks)
      ensures r.Done? ==>
                && Linked(sync.currentFrame + 1)
                && sync.tracks == FiledIn(sync.neutral, old(sync.tracks), localHandle, sync.currentFrame,
                                          EffectiveDelay(inputDelay), input)
                && InRing(sync.tracks, sync.currentFrame)
                && forall i :: 0 <= i < |sync.tracks| ==>
                     sync.lastConfirmedFrame < |sync.tracks[i].log| || sync.currentFrame < |sync.tracks[i].log|
    {
      hide EffectiveDelay, Filed, FiledIn, InRing, Sync.Valid, RingRoom, LinkedWith, FiledLocally;
      ReadyToFile(input);
      FilingLocally(sync.currentFrame, input);
      DelayIs(inputDelay);
      var added := sync.AddLocalInput(localHandle, input);
      if added.Err? {
        return Refused(Limit);
      }
      return Done(added.value);
    }

    // File a run of remote inputs, in order.
    method FileRun(player: nat, run: seq<(Frame, I)>)
      requires sync.Valid() && player < |sync.queues| && sync.delays[player] == 0
      requires sync.given[player] == |sync.tracks[player].log| - 1
      requires Contiguous(|sync.tracks[player].log|, run)
      modifies sync`tracks, sync`given, sync.queues, set q | q in sync.queues :: q.inputs
      ensures sync.Valid()
      ensures var log := old(sync.tracks)[player].log;
              && sync.tracks == old(sync.tracks)[player := Track(FiledRun(sync.neutral, log, run),
                  old(sync.tracks)[player].served)]
              && sync.given == old(sync.given)[player := if run == [] then old(sync.given)[player]
                  else run[|run| - 1].0]
      ensures sync.given[player] == |sync.tracks[player].log| - 1
    {
      hide Fits, Filed, LeastMismatch, Sync.QueuesValid;
      QueueCount();
      ghost var log, served := sync.tracks[player].log, sync.tracks[player].served;
      for n := 0 to |run|
        invariant sync.Valid() && player < |sync.tracks| == |sync.given| == |sync.queues|
        invariant sync.tracks == old(sync.tracks)[player := Track(FiledRun(sync.neutral, log, run[..n]), served)]
        invariant sync.given == old(sync.given)[player := if n == 0 then old(sync.given)[player] else run[n - 1].0]
        invariant sync.given[player] == |sync.tracks[player].log| - 1
      {
        FilingRunAppends(sync.neutral, log, run[..n + 1]);
        assert run[..n + 1][..n] == run[..n];
        var _ := sync.AddRemoteInput(player, run[n].0, run[n].1);
      }
      assert run[..|run|] == run;
    }

    lemma QueueCount()
      requires sync.Valid()
      ensures |sync.tracks| == |sync.given| == |sync.delays| == |sync.queues|
      ensures sync.lastConfirmedFrame >= NULL_FRAME
    {
    }

    // Hand one packet to its connection, and file the inputs it brought.
    method Receive(k: nat, message: Message<I>) returns (replies: seq<Message<I>>)
      requires Valid() && k < |peers|
      modifies this`events, this`lasts, peers[k], sync`tracks, sync`given, sync.queues,
          set q | q in sync.queues :: q.inputs
      ensures Valid()
      ensures var o := Received(old(peers[k].View()), message);
              && Links() == old(Links())[k := o.peer] && replies == o.replies
              && AreFiledFor(sync.neutral, old(sync.tracks), peers[k].handle, o.inputs, sync.tracks)
              && events == old(events) + NewsFrom(peers[k].addr, o.events)
      ensures Extended(old(sync.tracks), sync.tracks)
      ensures old(peers[k].state) != Disconnected ==> peers[k].state != Disconnected
      ensures peers[k].silentTicks <= old(peers[k].silentTicks)
    {
      hide Sync.Valid, Received, Filed, FiledRun, LinkedWith, NewsFrom, Links, Extended;
      ghost var was, made := peers[k].View(), sync.currentFrame;
      var h := peers[k].handle;
      LinkOf(k);
      ReceivedContinues(was, message);
      var inputs, news;
      inputs, news, replies := Hear(k, message);
      ghost var log := sync.tracks[h].log;
      FilingRunAppends(sync.neutral, log, inputs);
      RunExtends(sync.neutral, log, inputs);
      RemoteLinkGrows(sync.tracks, sync.given, sync.lastConfirmedFrame, made, k,
                      Track(FiledRun(sync.neutral, log, inputs), sync.tracks[h].served), peers[k].lastReceivedFrame);
      FileRun(h, inputs);
      FiledForExtends(sync.neutral, old(sync.tracks), h, inputs);
      lasts := lasts[k := peers[k].lastReceivedFrame];
      events := events + NewsFrom(peers[k].addr, news);
      StillLinked();
      hide Linked;
    }

    lemma StillLinked()
      requires |sync.queues| == |sync.tracks| && |lasts| == |peers|
      requires forall k :: 0 <= k < |peers| ==> peers[k].lastReceivedFrame == lasts[k]
      requires LinkedWith(sync.tracks, sync.given, sync.lastConfirmedFrame, lasts, sync.currentFrame)
      ensures Linked(sync.currentFrame)
    {
    }

    // What one connection makes of a packet.
    method Hear(k: nat, message: Message<I>)
      returns (inputs: seq<(Frame, I)>, news: seq<PeerEvent>, replies: seq<Message<I>>)
      requires k < |peers| && forall i :: 0 <= i < |peers| && i != k ==> peers[i] != peers[k]
      modifies peers[k]
      ensures var o := Received(old(peers[k].View()), message);
              && Outcome(peers[k].View(), replies, inputs, news) == o
              && Links() == old(Links())[k := o.peer]
    {
      hide Received;
      inputs, news, replies := peers[k].OnMessage(message);
    }

    lemma LinkOf(k: nat)
      requires Valid() && k < |peers|
      ensures peers[k].handle < |sync.queues| && sync.delays[peers[k].handle] == 0
      ensures sync.given[peers[k].handle] == peers[k].lastReceivedFrame == |sync.tracks[peers[k].handle].log| - 1
      ensures forall i :: 0 <= i < |peers| && i != k ==> peers[i] != peers[k]
    {
    }

    // No connection is lost, and none has been silent for more than `limit` ticks.
    predicate AllAlive(limit: nat)
      reads peers
    {
      forall k :: 0 <= k < |peers| ==> peers[k].state != Disconnected && peers[k].silentTicks <= limit
    }

    method FindPeer(addr: A) returns (k: nat)
      ensures k == FirstAt(Addresses(), addr)
    {
      k := 0;
      while k < |peers| && peers[k].addr != addr
        invariant k <= |peers|
        invariant forall i :: 0 <= i < k ==> peers[i].addr != addr
      {
        k := k + 1;
      }
      ghost var first := FirstAt(Addresses(), addr);
      assert first < |peers| ==> Addresses()[first] == peers[first].addr;
      assert k < |peers| ==> Addresses()[k] == peers[k].addr;
    }

    // Take in what has arrived, tick every connection, and confirm what all have sent. `skip` is how many
    // frames the pacing asks to yield; no connection may be about to time out.
    method PollRemotePeers(received: seq<(A, Message<I>)>, skip: nat) returns (outgoing: seq<(A, Message<I>)>)
      requires Valid() && AllAlive(DISCONNECT_TIMEOUT_TICKS - 1)
      modifies this`events, this`lasts, this`skipFrames, this`state, sync, sync.queues,
          set q | q in sync.queues :: q.inputs
      modifies peers
      ensures Valid() && AllAlive(DISCONNECT_TIMEOUT_TICKS) && skipFrames == skip
      ensures Extended(old(sync.tracks), sync.tracks) && sync.currentFrame == old(sync.currentFrame)
      ensures ConfirmedFrom(old(sync.lastConfirmedFrame))
      ensures state == Playing <==> old(state) == Playing || forall k :: 0 <= k < |peers| ==> peers[k].state == Running
      ensures |peers| == |old(sync.tracks)| - 1
      ensures var taken := Taken(sync.neutral, Addresses(), localHandle,
                                 Poll(old(Links()), old(sync.tracks), old(events), []), received);
              var due := TickedAll(Addresses(), taken.(outgoing := []), sync.currentFrame, |peers|);
              && Links() == due.links && sync.tracks == taken.tracks && outgoing == taken.outgoing + due.outgoing
              && events == due.news + if state != old(state) then [Started] else []
      ensures forall n, k, i :: 0 <= n < |received| && Contradicts(Addresses(), old(Links()), received[n], k, i) ==>
                DesyncOf(Addresses(), old(Links()), received[n], k, i) in events
    {
      hide Valid, AllAlive, ConfirmedFrom, Taken, TickedAll, Addresses, Links, Extended, Contradicts, DesyncOf;
      LinkCount();
      ghost var s := Poll(Links(), sync.tracks, events, []);
      DesyncsAreNews(sync.neutral, Addresses(), localHandle, s, received);
      TickingForgetsNoNews(Addresses(), Taken(sync.neutral, Addresses(), localHandle, s, received).(outgoing := []),
                           sync.currentFrame, |peers|);
      outgoing := TakeAll(received);
      var due := TickAll();
      outgoing := outgoing + due;
      skipFrames := skip;
      RefreshState();
      RefreshConfirmedFrame();
    }

    // Take in every packet that has arrived.
    method TakeAll(received: seq<(A, Message<I>)>) returns (outgoing: seq<(A, Message<I>)>)
      requires Valid() && AllAlive(DISCONNECT_TIMEOUT_TICKS - 1)
      modifies this`events, this`lasts, peers, sync`tracks, sync`given, sync.queues,
          set q | q in sync.queues :: q.inputs
      ensures Valid() && AllAlive(DISCONNECT_TIMEOUT_TICKS - 1) && Extended(old(sync.tracks), sync.tracks)
      ensures |Addresses()| == |old(Links())| == |old(sync.tracks)| - 1
      ensures Poll(Links(), sync.tracks, events, outgoing)
           == Taken(sync.neutral, Addresses(), localHandle, Poll(old(Links()), old(sync.tracks), old(events), []),
                    received)
    {
      hide Valid, AllAlive, Taken, TakenOne, Addresses, Links;
      outgoing := [];
      LinkCount();
      NothingTaken(Poll(Links(), sync.tracks, events, []));
      for n := 0 to |received|
        invariant Valid() && AllAlive(DISCONNECT_TIMEOUT_TICKS - 1)
        invariant Extended(old(sync.tracks), sync.tracks)
        invariant Poll(Links(), sync.tracks, events, outgoing)
               == Taken(sync.neutral, Addresses(), localHandle, Poll(old(Links()), old(sync.tracks), old(events), []),
                        received[..n])
      {
        OneMoreTaken(Poll(old(Links()), old(sync.tracks), old(events), []), received, n);
        outgoing := TakeIn(received[n], outgoing);
      }
      assert received[..|received|] == received;
    }

    lemma LinkCount()
      requires Valid()
      ensures |Links()| == |Addresses()| == |peers| == |sync.tracks| - 1 && localHandle < |sync.tracks|
    {
    }

    lemma NothingTaken(s: Poll<I, A>)
      requires |Addresses()| == |s.links| == |s.tracks| - 1
      ensures Taken(sync.neutral, Addresses(), localHandle, s, []) == s
    {
    }

    lemma OneMoreTaken(s: Poll<I, A>, received: seq<(A, Message<I>)>, n: nat)
      requires |Addresses()| == |s.links| == |s.tracks| - 1 && n < |received|
      ensures Taken(sync.neutral, Addresses(), localHandle, s, received[..n + 1])
           == TakenOne(sync.neutral, Addresses(), localHandle,
                       Taken(sync.neutral, Addresses(), localHandle, s, received[..n]), received[n])
    {
      assert received[..n + 1][..n] == received[..n];
    }

    // Take in one packet, if it is from a peer of this match.
    method TakeIn(packet: (A, Message<I>), outgoing: seq<(A, Message<I>)>) returns (more: seq<(A, Message<I>)>)
      requires Valid() && AllAlive(DISCONNECT_TIMEOUT_TICKS - 1)
      modifies this`events, this`lasts, peers, sync`tracks, sync`given, sync.queues,
          set q | q in sync.queues :: q.inputs
      ensures Valid() && AllAlive(DISCONNECT_TIMEOUT_TICKS - 1)
      ensures |peers| == |old(sync.tracks)| - 1 && Extended(old(sync.tracks), sync.tracks)
      ensures Poll(Links(), sync.tracks, events, more)
           == TakenOne(sync.neutral, Addresses(), localHandle,
                       Poll(old(Links()), old(sync.tracks), old(events), outgoing), packet)
    {
      hide Sync.Valid, Linked, Received, FiledRun;
      LinkCount();
      var k := FindPeer(packet.0);
      if k == |peers| {
        return outgoing;
      }
      NamedAt(k);
      var replies := Receive(k, packet.1);
      return outgoing + AddressedTo(packet.0, replies);
    }

    lemma NamedAt(k: nat)
      requires Valid() && k < |peers|
      ensures peers[k].handle == HandleOf(localHandle, k)
      ensures Addresses()[k] == peers[k].addr && Links()[k] == peers[k].View()
    {
    }

    // Everything the connections have to send this tick.
    method TickAll() returns (outgoing: seq<(A, Message<I>)>)
      requires Valid() && AllAlive(DISCONNECT_TIMEOUT_TICKS - 1)
      modifies this`events, peers
      ensures Valid() && AllAlive(DISCONNECT_TIMEOUT_TICKS)
      ensures Poll(Links(), sync.tracks, events, outgoing)
           == TickedAll(Addresses(), Poll(old(Links()), sync.tracks, old(events), []), sync.currentFrame, |peers|)
    {
      hide Valid, Ticked, TickedAll;
      outgoing := [];
      LinkCount();
      NothingTicked(Poll(Links(), sync.tracks, events, []));
      for n := 0 to |peers|
        invariant Valid()
        invariant forall k :: 0 <= k < |peers| ==>
                    && peers[k].state != Disconnected
                    && peers[k].silentTicks <= if k < n then DISCONNECT_TIMEOUT_TICKS else DISCONNECT_TIMEOUT_TICKS - 1
        invariant Poll(Links(), sync.tracks, events, outgoing)
               == TickedAll(Addresses(), Poll(old(Links()), sync.tracks, old(events), []), sync.currentFrame, n)
      {
        OneMoreTicked(Poll(old(Links()), sync.tracks, old(events), []), n);
        var messages := TickOne(n);
        outgoing := outgoing + messages;
      }
    }

    lemma NothingTicked(s: Poll<I, A>)
      requires |Addresses()| == |s.links|
      ensures TickedAll(Addresses(), s, sync.currentFrame, 0) == s
    {
    }

    lemma OneMoreTicked(s: Poll<I, A>, n: nat)
      requires |Addresses()| == |s.links| && n < |Addresses()|
      ensures var t := TickedAll(Addresses(), s, sync.currentFrame, n);
              var o := Ticked(t.links[n], sync.currentFrame);
              TickedAll(Addresses(), s, sync.currentFrame, n + 1)
                == Poll(t.links[n := o.peer], t.tracks, t.news + NewsFrom(Addresses()[n], o.events),
                        t.outgoing + AddressedTo(Addresses()[n], o.replies))
    {
    }

    // One connection's tick.
    method TickOne(n: nat) returns (messages: seq<(A, Message<I>)>)
      requires Valid() && n < |peers|
      requires peers[n].state != Disconnected && peers[n].silentTicks < DISCONNECT_TIMEOUT_TICKS
      modifies this`events, peers[n]
      ensures Valid() && forall k :: 0 <= k < |peers| && k != n ==> peers[k] != peers[n]
      ensures var o := Ticked(old(Links())[n], sync.currentFrame);
              && Links() == old(Links())[n := o.peer]
              && events == old(events) + NewsFrom(Addresses()[n], o.events)
              && messages == AddressedTo(Addresses()[n], o.replies)
      ensures peers[n].state != Disconnected && peers[n].silentTicks <= DISCONNECT_TIMEOUT_TICKS
    {
      hide Sync.Valid, Ticked, LinkedWith;
      ghost var made := sync.currentFrame;
      assert LinkedWith(sync.tracks, sync.given, sync.lastConfirmedFrame, lasts, made);
      PeersDistinct(made);
      TickingKeepsAlive(peers[n].View(), sync.currentFrame);
      var out, news := peers[n].Tick(sync.currentFrame);
      events := events + NewsFrom(peers[n].addr, news);
      return AddressedTo(peers[n].addr, out);
    }

    // The match starts once every peer has handshaken.
    method RefreshState()
      modifies this`state, this`events
      ensures state == Playing <==> old(state) == Playing || forall k :: 0 <= k < |peers| ==> peers[k].state == Running
      ensures events == old(events) + if state != old(state) then [Started] else []
    {
      if state == Playing {
        return;
      }
      if forall k :: 0 <= k < |peers| ==> peers[k].state == Running {
        state := Playing;
        events := events + [Started];
      }
    }

    ghost predicate IsLeast(k: nat)
      requires k < |peers|
      reads peers
    {
      forall j :: 0 <= j < |peers| ==> peers[k].lastReceivedFrame <= peers[j].lastReceivedFrame
    }

    // Confirmed is what every connection has received, or everything simulated if there is none.
    ghost predicate ConfirmedFrom(before: Frame)
      reads sync, peers
    {
      if peers == [] then sync.lastConfirmedFrame == Max(before, sync.currentFrame)
      else
        exists k :: 0 <= k < |peers| && IsLeast(k) && sync.lastConfirmedFrame == Max(before, peers[k].lastReceivedFrame)
    }

    // Confirm what every live connection has received.
    method RefreshConfirmedFrame()
      requires Valid() && AllAlive(DISCONNECT_TIMEOUT_TICKS)
      modifies sync`lastConfirmedFrame
      ensures Valid() && ConfirmedFrom(old(sync.lastConfirmedFrame))
    {
      hide Fits, Sync.QueuesValid;
      QueueCount();
      if peers == [] {
        sync.ConfirmThrough(sync.currentFrame);
        return;
      }
      var least := 0;
      for k := 1 to |peers|
        invariant least < |peers|
        invariant forall j :: 0 <= j < k ==> peers[least].lastReceivedFrame <= peers[j].lastReceivedFrame
      {
        if peers[k].state != Disconnected && peers[k].lastReceivedFrame < peers[least].lastReceivedFrame {
          least := k;
        }
      }
      assert IsLeast(least);
      var confirmed := peers[least].lastReceivedFrame;
      if confirmed != NULL_FRAME {
        AllHaveReceived(confirmed);
        sync.ConfirmThrough(confirmed);
      }
    }

    lemma AllHaveReceived(frame: Frame)
      requires Valid() && forall k :: 0 <= k < |peers| ==> frame <= peers[k].lastReceivedFrame
      ensures forall i :: 0 <= i < |sync.tracks| ==>
                frame < |sync.tracks[i].log| || sync.currentFrame <= |sync.tracks[i].log|
    {
      forall i | 0 <= i < |sync.tracks|
        ensures frame < |sync.tracks[i].log| || sync.currentFrame <= |sync.tracks[i].log|
      {
        if i != localHandle {
          var peer := peers[if i < localHandle then i else i - 1];
          assert peer.handle == i;
        }
      }
    }

    // Publish the checksum of the last confirmed frame, once, if its state is still saved: exactly then.
    method PublishChecksum() returns (published: Option<(Frame, nat)>, outgoing: seq<(A, Message<I>)>)
      requires Valid() && sync.saved.Holds(sync.currentFrame)
      modifies this`lastChecksumFrame, Peers()`localChecksums
      ensures Valid()
      ensures published.Some? ==>
                && published.value.0 == sync.lastConfirmedFrame && IsSaved(published.value.0, published.value.1)
                && lastChecksumFrame == published.value.0
      ensures published == None ==> lastChecksumFrame == old(lastChecksumFrame)
      ensures published == None <==>
                || sync.lastConfirmedFrame == NULL_FRAME || sync.lastConfirmedFrame == old(lastChecksumFrame)
                || forall checksum :: !IsSaved(sync.lastConfirmedFrame, checksum)
      ensures Links() == if published.Some? then AllStamped(old(Links()), published.value.0, published.value.1)
                         else old(Links())
      ensures |Addresses()| == |old(Links())|
      ensures outgoing == if published.Some? then Advert(Addresses(), old(Links()), published.value.0, published.value.1)
                          else []
      ensures published.Some? ==> Told(outgoing, published.value.0, published.value.1)
    {
      hide Valid, WithChecksum, FrameAt, CellOf, SavedStates.Holds, Advert, AllStamped, Links, Addresses, Told;
      LinkCount();
      var frame := sync.lastConfirmedFrame;
      if frame == NULL_FRAME || frame == lastChecksumFrame {
        return None, [];
      }
      SavedValid();
      var cell := sync.saved.ByFrame(frame);
      if cell.None? || cell.value.inner.checksum.None? {
        SavedNowhereElse(frame, cell);
        return None, [];
      }
      var checksum := cell.value.inner.checksum.value;
      lastChecksumFrame := frame;
      var messages := Advertise(frame, checksum);
      LinkCount();
      AdvertTells(old(Links()), frame, checksum);
      return Some((frame, checksum)), messages;
    }

    // Every peer is sent the checksum, and every connection has it on file, last of all.
    ghost predicate Told(outgoing: seq<(A, Message<I>)>, frame: Frame, checksum: nat)
      reads peers
    {
      && |outgoing| == |peers|
      && forall k :: 0 <= k < |peers| ==>
           && outgoing[k] == (peers[k].addr, Message(peers[k].magic, Checksum(frame, checksum)))
           && peers[k].localChecksums != []
           && peers[k].localChecksums[|peers[k].localChecksums| - 1] == (frame, checksum)
    }

    lemma AdvertTells(links: seq<Peer<I>>, frame: Frame, checksum: nat)
      requires |links| == |peers| == |Addresses()| && Links() == AllStamped(links, frame, checksum)
      ensures Told(Advert(Addresses(), links, frame, checksum), frame, checksum)
    {
      forall k | 0 <= k < |peers|
        ensures Links()[k] == peers[k].View() && Links()[k] == WithChecksum(links[k], frame, checksum)
      {
      }
      forall k | 0 <= k < |peers|
        ensures peers[k].localChecksums != []
        ensures peers[k].localChecksums[|peers[k].localChecksums| - 1] == (frame, checksum)
        ensures peers[k].magic == links[k].magic
      {
        ChecksumIsFiled(links[k], frame, checksum);
      }
    }

    // A cell holds this frame, with this checksum.
    ghost predicate IsSaved(frame: Frame, checksum: nat)
      reads sync, sync.saved, sync.saved.cells
    {
      exists c :: c in sync.saved.cells && c.inner.frame == frame && c.inner.checksum == Some(checksum)
    }

    // Put a checksum on file with every connection, and send it.
    method Advertise(frame: Frame, checksum: nat) returns (outgoing: seq<(A, Message<I>)>)
      requires Valid()
      modifies Peers()`localChecksums
      ensures Valid() && |Addresses()| == |old(Links())|
      ensures Links() == AllStamped(old(Links()), frame, checksum)
      ensures outgoing == Advert(Addresses(), old(Links()), frame, checksum)
    {
      LinkCount();
      hide Valid, WithChecksum, Links, Addresses, StampedTo, Advert, AllStamped;
      outgoing := [];
      StampedNone(Addresses(), Links(), frame, checksum);
      for n := 0 to |peers|
        invariant Valid() && Links() == StampedTo(old(Links()), n, frame, checksum)
        invariant outgoing == Advert(Addresses(), old(Links()), frame, checksum)[..n]
      {
        StampedOneMore(Addresses(), old(Links()), n, frame, checksum);
        var message := Stamp(n, frame, checksum);
        outgoing := outgoing + [message];
      }
    }

    // Put a checksum on file with one connection.
    method Stamp(n: nat, frame: Frame, checksum: nat) returns (packet: (A, Message<I>))
      requires Valid() && n < |peers|
      modifies Peers()`localChecksums
      ensures Valid() && n < |old(Links())| == |Addresses()|
      ensures Links() == old(Links())[n := WithChecksum(old(Links())[n], frame, checksum)]
      ensures packet == (Addresses()[n], Message(old(Links())[n].magic, Checksum(frame, checksum)))
    {
      hide Sync.Valid, WithChecksum, LinkedWith;
      assert LinkedWith(sync.tracks, sync.given, sync.lastConfirmedFrame, lasts, sync.currentFrame);
      PeersDistinct(sync.currentFrame);
      var message := peers[n].ChecksumMessage(frame, checksum);
      packet := (peers[n].addr, message);
    }

    lemma SavedNowhereElse(frame: Frame, cell: Option<StateCell<S>>)
      requires sync.saved.Holds(sync.currentFrame) && frame != NULL_FRAME
      requires cell.None? ==> forall c :: c in sync.saved.cells ==> c.inner.frame != frame
      requires cell.Some? ==> cell.value in sync.saved.cells && cell.value.inner.frame == frame
      requires cell.Some? ==> cell.value.inner.checksum == None
      ensures forall checksum :: !IsSaved(frame, checksum)
    {
      forall c | c in sync.saved.cells && c.inner.frame == frame ensures c.inner.checksum == None {
        var i :| 0 <= i < |sync.saved.cells| && sync.saved.cells[i] == c;
        var j :| 0 <= j < |sync.saved.cells| && sync.saved.cells[j] == cell.value;
        sync.saved.OneCellPerFrame(sync.currentFrame, i, j);
      }
    }

    lemma SavedValid()
      requires Valid()
      ensures sync.saved.Valid()
    {
    }

    // Queue an input for every remote peer.
    method SendToAll(frame: Frame, input: I, ghost made: nat)
      requires Linked(made)
      modifies Peers()`pending
      ensures Linked(made) && Links() == AllQueued(old(Links()), frame, input)
    {
      for k := 0 to |peers|
        invariant forall i :: 0 <= i < k ==> peers[i].pending == old(peers[i].pending) + [(frame, input)]
        invariant forall i :: k <= i < |peers| ==> peers[i].pending == old(peers[i].pending)
      {
        peers[k].SendInput(frame, input);
      }
    }
  }
}
