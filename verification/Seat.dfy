/** A session's seat in a match: what the methods of `P2PSession` do is a run of the steps of `Matches`,
    so what holds of every run of a match holds of every session in it. */
module Seats {
  import opened Timeline
  import opened Options
  import opened Requests
  import opened InputQueues
  import opened Resimulation
  import opened RollbackSync
  import opened PeerProtocols
  import opened Sessions
  import opened Drivers
  import opened Matches

  // ---- Going on with a run ----

  ghost function Now<I>(run: seq<Match<I>>): Match<I>
    requires run != []
  {
    run[|run| - 1]
  }

  // Whose step it is.
  function By<I>(a: Action<I>): nat {
    match a
    case Deliver(packet) => packet.to
    case TickLink(at, _) => at
    case ConfirmUpTo(at, _) => at
    case Advance(at, _) => at
    case Publish(at) => at
  }

  // A run that goes on from `run` with steps of player `p` only.
  ghost predicate Onward<S, I>(setup: Setup<S, I>, p: nat, run: seq<Match<I>>, actions: seq<Action<I>>,
                               longer: seq<Match<I>>, more: seq<Action<I>>) {
    && IsRun(setup, longer, more) && run <= longer && actions <= more
    && forall i :: |actions| <= i < |more| ==> By(more[i]) == p
  }

  lemma OnwardFrom<S, I>(setup: Setup<S, I>, p: nat, run: seq<Match<I>>, actions: seq<Action<I>>)
    requires IsRun(setup, run, actions)
    ensures Onward(setup, p, run, actions, run, actions)
  {
  }

  lemma OnwardOn<S, I>(setup: Setup<S, I>, p: nat, run: seq<Match<I>>, actions: seq<Action<I>>,
                       longer: seq<Match<I>>, more: seq<Action<I>>, longest: seq<Match<I>>, most: seq<Action<I>>)
    requires Onward(setup, p, run, actions, longer, more) && Onward(setup, p, longer, more, longest, most)
    ensures Onward(setup, p, run, actions, longest, most)
  {
    hide IsRun;
    forall i | |actions| <= i < |most| ensures By(most[i]) == p {
      if i < |more| {
        assert most[i] == more[i];
      }
    }
  }

  lemma NowShaped<S, I>(setup: Setup<S, I>, run: seq<Match<I>>, actions: seq<Action<I>>)
    requires IsRun(setup, run, actions)
    ensures run != [] && Shaped(setup, Now(run)) && |Now(run).sides| == setup.Players()
  {
    RunsKeep(setup, run, actions, |run| - 1);
  }

  lemma OneStep<S, I>(setup: Setup<S, I>, run: seq<Match<I>>, actions: seq<Action<I>>, a: Action<I>)
    returns (longer: seq<Match<I>>, more: seq<Action<I>>)
    requires IsRun(setup, run, actions) && Shaped(setup, Now(run)) && Enabled(setup, Now(run), a)
    ensures Onward(setup, By(a), run, actions, longer, more)
    ensures Now(longer) == After(setup, Now(run), a)
  {
    hide Enabled, After, Begin;
    longer, more := run + [After(setup, Now(run), a)], actions + [a];
  }

  // ---- A session's side of the match ----

  // Every player's connection: the local player's entry is unused.
  ghost function LinksOf<I>(self: nat, own: Peer<I>, links: seq<Peer<I>>): (r: seq<Peer<I>>)
    requires self <= |links|
    ensures |r| == |links| + 1 && r[self] == own
    ensures forall k :: 0 <= k < |links| ==> r[HandleOf(self, k)] == links[k]
  {
    links[..self] + [own] + links[self..]
  }

  lemma LinksOfUpdated<I>(self: nat, own: Peer<I>, links: seq<Peer<I>>, k: nat, link: Peer<I>)
    requires self <= |links| && k < |links|
    ensures LinksOf(self, own, links[k := link]) == LinksOf(self, own, links)[HandleOf(self, k) := link]
  {
  }

  // `s` has at `p` what a poll has come to so far.
  ghost predicate Sits<S, I, A>(setup: Setup<S, I>, s: Match<I>, p: nat, poll: Poll<I, A>) {
    && Shaped(setup, s) && p < setup.Players() && |poll.links| == setup.Players() - 1
    && s.sides[p].tracks == poll.tracks
    && s.sides[p].links == LinksOf(p, NewPeer(setup.magics[p]), poll.links)
  }

  // From `s` to `t` no other player's side has changed.
  ghost predicate SameElsewhere<I>(s: Match<I>, t: Match<I>, p: nat) {
    |s.sides| == |t.sides| && forall q :: 0 <= q < |s.sides| && q != p ==> t.sides[q] == s.sides[q]
  }

  // From `s` to `t` nothing but `p`'s connections and inputs has changed.
  ghost predicate OnlyHeard<I>(s: Match<I>, t: Match<I>, p: nat) {
    && SameElsewhere(s, t, p) && p < |s.sides|
    && t.sides[p].frame == s.sides[p].frame && t.sides[p].confirmed == s.sides[p].confirmed
  }

  // The packets that messages to these addresses are.
  ghost function Posted<I, A>(addrs: seq<A>, p: nat, outgoing: seq<(A, Message<I>)>): iset<Packet<I>> {
    iset x | x in outgoing && FirstAt(addrs, x.0) < |addrs| :: Packet(p, HandleOf(p, FirstAt(addrs, x.0)), x.1)
  }

  lemma PostedTogether<I, A>(addrs: seq<A>, p: nat, xs: seq<(A, Message<I>)>, ys: seq<(A, Message<I>)>)
    ensures Posted(addrs, p, xs + ys) == Posted(addrs, p, xs) + Posted(addrs, p, ys)
  {
  }

  lemma PostedToOne<I, A>(addrs: seq<A>, p: nat, k: nat, messages: seq<Message<I>>)
    requires k < |addrs| && FirstAt(addrs, addrs[k]) == k
    ensures Posted(addrs, p, AddressedTo(addrs[k], messages)) == Sent(p, HandleOf(p, k), messages)
  {
    forall m | m in messages ensures (addrs[k], m) in AddressedTo(addrs[k], messages) {
      var i :| 0 <= i < |messages| && messages[i] == m;
      assert AddressedTo(addrs[k], messages)[i] == (addrs[k], m);
    }
  }

  // Whatever has arrived from a peer of the match was sent by it.
  ghost predicate Arrived<I, A>(addrs: seq<A>, p: nat, net: iset<Packet<I>>, received: seq<(A, Message<I>)>) {
    forall i :: 0 <= i < |received| ==> HasCome(addrs, p, net, received[i])
  }

  ghost predicate HasCome<I, A>(addrs: seq<A>, p: nat, net: iset<Packet<I>>, packet: (A, Message<I>)) {
    var k := FirstAt(addrs, packet.0);
    k < |addrs| ==> Packet(HandleOf(p, k), p, packet.1) in net
  }

  // Taking in one packet is its delivery, or nothing if nobody in the match sent it.
  lemma TakenOneIsDelivery<S, I, A>(setup: Setup<S, I>, addrs: seq<A>, s: Match<I>, p: nat, poll: Poll<I, A>,
                                    packet: (A, Message<I>))
    requires Sits(setup, s, p, poll) && |addrs| == |poll.links| && HasCome(addrs, p, s.net, packet)
    ensures var k, done := FirstAt(addrs, packet.0), TakenOne(setup.neutral, addrs, p, poll, packet);
            if k == |addrs| then done == poll
            else
              var a := Deliver(Packet(HandleOf(p, k), p, packet.1));
              && Enabled(setup, s, a)
              && var t := After(setup, s, a);
              && t.sides == s.sides[p := t.sides[p]] && OnlyHeard(s, t, p)
              && t.sides[p].tracks == done.tracks
              && t.sides[p].links == LinksOf(p, NewPeer(setup.magics[p]), done.links)
              && exists replies :: done.outgoing == poll.outgoing + replies && t.net == s.net + Posted(addrs, p, replies)
  {
    hide Received, LinksOf, Posted;
    var k := FirstAt(addrs, packet.0);
    if k < |addrs| {
      var q := HandleOf(p, k);
      var link := s.sides[p].links[q];
      assert link == poll.links[k];
      ReceivedContinues(link, packet.1);
      var o := Received(link, packet.1);
      LinksOfUpdated(p, NewPeer(setup.magics[p]), poll.links, k, o.peer);
      PostedToOne(addrs, p, k, o.replies);
      assert packet.0 == addrs[k];
      var replies := AddressedTo(packet.0, o.replies);
      assert TakenOne(setup.neutral, addrs, p, poll, packet).outgoing == poll.outgoing + replies;
    }
  }

  // Every packet ever sent stays on the net.
  lemma StillCome<I, A>(addrs: seq<A>, p: nat, net: iset<Packet<I>>, more: iset<Packet<I>>, packet: (A, Message<I>))
    requires HasCome(addrs, p, net, packet) && net <= more
    ensures HasCome(addrs, p, more, packet)
  {
  }

  lemma {:induction false} TakenIsDeliveries<S, I, A>(setup: Setup<S, I>, addrs: seq<A>, p: nat, run: seq<Match<I>>,
                                                      actions: seq<Action<I>>, poll: Poll<I, A>,
                                                      packets: seq<(A, Message<I>)>)
    returns (longer: seq<Match<I>>, more: seq<Action<I>>)
    requires IsRun(setup, run, actions) && Sits(setup, Now(run), p, poll) && poll.outgoing == []
    requires |addrs| == |poll.links| && Arrived(addrs, p, Now(run).net, packets)
    ensures Onward(setup, p, run, actions, longer, more)
    ensures var done := Taken(setup.neutral, addrs, p, poll, packets);
            && Sits(setup, Now(longer), p, done) && OnlyHeard(Now(run), Now(longer), p)
            && Now(longer).net == Now(run).net + Posted(addrs, p, done.outgoing)
    decreases |packets|
  {
    hide IsRun, Enabled, After, Taken, TakenOne, Shaped;
    NowShaped(setup, run, actions);
    SitsShape(setup, Now(run), p, poll);
    if packets == [] {
      longer, more := run, actions;
      OnwardFrom(setup, p, run, actions);
      NothingYet(setup, addrs, p, poll);
    } else {
      var n := |packets| - 1;
      longer, more := TakenIsDeliveries(setup, addrs, p, run, actions, poll, packets[..n]);
      longer, more := OneDelivered(setup, addrs, p, run, actions, longer, more, poll, packets);
    }
  }

  lemma SitsShape<S, I, A>(setup: Setup<S, I>, s: Match<I>, p: nat, poll: Poll<I, A>)
    requires Sits(setup, s, p, poll)
    ensures |poll.tracks| == |poll.links| + 1 && p < |poll.tracks|
  {
  }

  lemma NothingYet<S, I, A>(setup: Setup<S, I>, addrs: seq<A>, p: nat, poll: Poll<I, A>)
    requires |addrs| == |poll.links| == |poll.tracks| - 1 && poll.outgoing == []
    ensures Taken(setup.neutral, addrs, p, poll, []) == poll
    ensures forall frame :: TickedAll(addrs, poll, frame, 0) == poll
    ensures Posted<I, A>(addrs, p, []) == iset{}
  {
  }

  lemma OneDelivered<S, I, A>(setup: Setup<S, I>, addrs: seq<A>, p: nat, run: seq<Match<I>>, actions: seq<Action<I>>,
                              far: seq<Match<I>>, taken: seq<Action<I>>, poll: Poll<I, A>,
                              packets: seq<(A, Message<I>)>)
    returns (longer: seq<Match<I>>, more: seq<Action<I>>)
    requires run != [] && packets != [] && Sits(setup, Now(run), p, poll) && |addrs| == |poll.links|
    requires Arrived(addrs, p, Now(run).net, packets)
    requires Onward(setup, p, run, actions, far, taken)
    requires var done := Taken(setup.neutral, addrs, p, poll, packets[..|packets| - 1]);
             && Sits(setup, Now(far), p, done) && OnlyHeard(Now(run), Now(far), p)
             && Now(far).net == Now(run).net + Posted(addrs, p, done.outgoing)
    ensures Onward(setup, p, run, actions, longer, more)
    ensures var done := Taken(setup.neutral, addrs, p, poll, packets);
            && Sits(setup, Now(longer), p, done) && OnlyHeard(Now(run), Now(longer), p)
            && Now(longer).net == Now(run).net + Posted(addrs, p, done.outgoing)
  {
    hide IsRun, Enabled, After, TakenOne, Posted, HasCome, LinksOf;
    var packet := packets[|packets| - 1];
    var done := Taken(setup.neutral, addrs, p, poll, packets[..|packets| - 1]);
    longer, more := far, taken;
    assert HasCome(addrs, p, Now(run).net, packet);
    StillCome(addrs, p, Now(run).net, Now(far).net, packet);
    TakenOneIsDelivery(setup, addrs, Now(far), p, done, packet);
    var k := FirstAt(addrs, packet.0);
    if k < |addrs| {
      var a := Deliver(Packet(HandleOf(p, k), p, packet.1));
      longer, more := OneStep(setup, far, taken, a);
      NowShaped(setup, longer, more);
      OnwardOn(setup, p, run, actions, far, taken, longer, more);
      var all := TakenOne(setup.neutral, addrs, p, done, packet);
      var replies :| all.outgoing == done.outgoing + replies && Now(longer).net == Now(far).net + Posted(addrs, p, replies);
      PostedTogether(addrs, p, done.outgoing, replies);
    }
  }

  // ---- Ticking ----

  ghost predicate Distinct<A>(addrs: seq<A>) {
    forall i, j :: 0 <= i < j < |addrs| ==> addrs[i] != addrs[j]
  }

  // One connection's tick.
  lemma TickedOneIsTick<S, I, A>(setup: Setup<S, I>, addrs: seq<A>, s: Match<I>, p: nat, poll: Poll<I, A>, k: nat)
    requires Sits(setup, s, p, poll) && |addrs| == |poll.links| && k < |addrs| && Distinct(addrs)
    ensures var o, a := Ticked(poll.links[k], s.sides[p].frame), TickLink(p, HandleOf(p, k));
            && Enabled(setup, s, a)
            && var t := After(setup, s, a);
            && t.sides == s.sides[p := t.sides[p]] && OnlyHeard(s, t, p)
            && t.sides[p].tracks == poll.tracks
            && t.sides[p].links == LinksOf(p, NewPeer(setup.magics[p]), poll.links[k := o.peer])
            && t.net == s.net + Posted(addrs, p, AddressedTo(addrs[k], o.replies))
  {
    hide Ticked;
    var o := Ticked(poll.links[k], s.sides[p].frame);
    LinksOfUpdated(p, NewPeer(setup.magics[p]), poll.links, k, o.peer);
    assert FirstAt(addrs, addrs[k]) == k;
    PostedToOne(addrs, p, k, o.replies);
  }

  lemma {:induction false} TickedIsTicks<S, I, A>(setup: Setup<S, I>, addrs: seq<A>, p: nat, run: seq<Match<I>>,
                                                  actions: seq<Action<I>>, poll: Poll<I, A>, frame: Frame, n: nat)
    returns (longer: seq<Match<I>>, more: seq<Action<I>>)
    requires IsRun(setup, run, actions) && Sits(setup, Now(run), p, poll) && poll.outgoing == []
    requires n <= |addrs| == |poll.links| && Distinct(addrs) && Now(run).sides[p].frame == frame
    ensures Onward(setup, p, run, actions, longer, more)
    ensures var done := TickedAll(addrs, poll, frame, n);
            && Sits(setup, Now(longer), p, done) && OnlyHeard(Now(run), Now(longer), p)
            && Now(longer).net == Now(run).net + Posted(addrs, p, done.outgoing)
  {
    hide IsRun, Enabled, After, Shaped, LinksOf, Posted, Distinct, TickedAll;
    NowShaped(setup, run, actions);
    SitsShape(setup, Now(run), p, poll);
    if n == 0 {
      longer, more := run, actions;
      OnwardFrom(setup, p, run, actions);
      NothingYet(setup, addrs, p, poll);
    } else {
      longer, more := TickedIsTicks(setup, addrs, p, run, actions, poll, frame, n - 1);
      longer, more := OneTicked(setup, addrs, p, run, actions, longer, more, poll, frame, n - 1);
    }
  }

  lemma OneTicked<S, I, A>(setup: Setup<S, I>, addrs: seq<A>, p: nat, run: seq<Match<I>>, actions: seq<Action<I>>,
                           far: seq<Match<I>>, taken: seq<Action<I>>, poll: Poll<I, A>, frame: Frame, n: nat)
    returns (longer: seq<Match<I>>, more: seq<Action<I>>)
    requires run != [] && n < |addrs| == |poll.links| && Distinct(addrs)
    requires p < |Now(run).sides| && Now(run).sides[p].frame == frame && Onward(setup, p, run, actions, far, taken)
    requires var so := TickedAll(addrs, poll, frame, n);
             && Sits(setup, Now(far), p, so) && OnlyHeard(Now(run), Now(far), p)
             && Now(far).net == Now(run).net + Posted(addrs, p, so.outgoing)
    ensures Onward(setup, p, run, actions, longer, more)
    ensures var done := TickedAll(addrs, poll, frame, n + 1);
            && Sits(setup, Now(longer), p, done) && OnlyHeard(Now(run), Now(longer), p)
            && Now(longer).net == Now(run).net + Posted(addrs, p, done.outgoing)
  {
    hide IsRun, Enabled, After, Ticked, LinksOf, Posted, Distinct;
    var so := TickedAll(addrs, poll, frame, n);
    TickedOneIsTick(setup, addrs, Now(far), p, so, n);
    longer, more := OneStep(setup, far, taken, TickLink(p, HandleOf(p, n)));
    OnwardOn(setup, p, run, actions, far, taken, longer, more);
    NowShaped(setup, longer, more);
    PostedTogether(addrs, p, so.outgoing, AddressedTo(addrs[n], Ticked(so.links[n], frame).replies));
  }

  // ---- Confirming ----

  lemma ConfirmedIsStep<S, I, A>(setup: Setup<S, I>, s: Match<I>, p: nat, poll: Poll<I, A>, least: Frame)
    requires Sits(setup, s, p, poll)
    requires forall k :: 0 <= k < |poll.links| ==>
               poll.links[k].state != Disconnected && least <= poll.links[k].lastReceived
    ensures Enabled(setup, s, ConfirmUpTo(p, least))
  {
    forall q | 0 <= q < setup.Players() && q != p
      ensures s.sides[p].links[q].state != Disconnected && least <= s.sides[p].links[q].lastReceived
    {
      var k := if q < p then q else q - 1;
      assert s.sides[p].links[HandleOf(p, k)] == poll.links[k];
    }
  }

  // A whole poll: everything that has arrived is delivered, every connection ticks, and what all have
  // sent is confirmed.
  lemma PollIsRun<S, I, A>(setup: Setup<S, I>, addrs: seq<A>, p: nat, run: seq<Match<I>>, actions: seq<Action<I>>,
                           start: Poll<I, A>, received: seq<(A, Message<I>)>, least: Frame)
    returns (longer: seq<Match<I>>, more: seq<Action<I>>)
    requires IsRun(setup, run, actions) && Sits(setup, Now(run), p, start) && start.outgoing == []
    requires |addrs| == |start.links| == |start.tracks| - 1 && Distinct(addrs)
    requires Arrived(addrs, p, Now(run).net, received)
    requires var taken := Taken(setup.neutral, addrs, p, start, received);
             var due := TickedAll(addrs, taken.(outgoing := []), Now(run).sides[p].frame, |addrs|);
             forall k :: 0 <= k < |due.links| ==> due.links[k].state != Disconnected && least <= due.links[k].lastReceived
    ensures Onward(setup, p, run, actions, longer, more)
    ensures var s, t := Now(run), Now(longer);
            var taken := Taken(setup.neutral, addrs, p, start, received);
            var due := TickedAll(addrs, taken.(outgoing := []), s.sides[p].frame, |addrs|);
            && Sits(setup, t, p, due) && t.sides[p].frame == s.sides[p].frame
            && t.sides[p].confirmed == Max(s.sides[p].confirmed, least)
            && SameElsewhere(s, t, p)
            && t.net == s.net + Posted(addrs, p, taken.outgoing + due.outgoing)
  {
    hide IsRun, Enabled, Taken, TickedAll, LinksOf, Posted, Distinct;
    NowShaped(setup, run, actions);
    var s := Now(run);
    var taken := Taken(setup.neutral, addrs, p, start, received);
    var due := TickedAll(addrs, taken.(outgoing := []), s.sides[p].frame, |addrs|);
    var run1, actions1 := TakenIsDeliveries(setup, addrs, p, run, actions, start, received);
    var run2, actions2 := TickedIsTicks(setup, addrs, p, run1, actions1, taken.(outgoing := []), s.sides[p].frame, |addrs|);
    OnwardOn(setup, p, run, actions, run1, actions1, run2, actions2);
    ConfirmedIsStep(setup, Now(run2), p, due, least);
    longer, more := OneStep(setup, run2, actions2, ConfirmUpTo(p, least));
    OnwardOn(setup, p, run, actions, run2, actions2, longer, more);
    NowShaped(setup, longer, more);
    PostedTogether(addrs, p, taken.outgoing, due.outgoing);
  }

  // ---- Sessions ----

  // What a session keeps of a match.
  ghost function SideOf<S, I, A>(session: P2PSession<S, I, A>, magic: U32, quiet: bool): Side<I>
    requires session.localHandle <= |session.peers|
    reads session.sync, session.peers
  {
    Side(session.sync.currentFrame, session.sync.lastConfirmedFrame, session.sync.tracks,
         LinksOf(session.localHandle, NewPeer(magic), session.Links()), quiet)
  }

  // The session is the one its player runs in the match that has come to `s`.
  ghost predicate Seated<S, I, A>(setup: Setup<S, I>, s: Match<I>, session: P2PSession<S, I, A>)
    reads session.sync, session.peers
  {
    var p := session.localHandle;
    && Shaped(setup, s) && p < setup.Players() && |session.peers| == setup.Players() - 1
    && session.sync.neutral == setup.neutral && session.sync.maxPrediction == setup.windows[p]
    && session.inputDelay == setup.delays[p] && Distinct(session.Addresses())
    && s.sides[p] == SideOf(session, setup.magics[p], s.sides[p].quiet)
  }

  // A session built from the setup takes its seat at the beginning.
  method TakeSeat<S, I(==), A(==)>(setup: Setup<S, I>, players: seq<A>, localHandle: nat)
    returns (session: P2PSession<S, I, A>, game: Game<S, I>)
    requires setup.Valid() && |players| == setup.Players() && Distinct(players) && localHandle < |players|
    ensures fresh(session) && fresh(game) && game.rules == setup.rules
    ensures session.Valid() && InSync(session, game) && session.AllAlive(0)
    ensures IsRun(setup, [Matches.Begin(setup)], []) && Seated(setup, Matches.Begin(setup), session)
  {
    hide P2PSession.Valid, InSync;
    session, game := OpenGame(setup.rules, setup.neutral, players, localHandle, setup.windows[localHandle],
                              setup.delays[localHandle], setup.magics[localHandle]);
    BeginInvariant(setup);
    AtTheBeginning(setup, players, session);
  }

  lemma AtTheBeginning<S, I, A>(setup: Setup<S, I>, players: seq<A>, session: P2PSession<S, I, A>)
    requires setup.Valid() && |players| == setup.Players() && Distinct(players)
    requires session.localHandle < |players| && IsNew(session, players, setup.magics[session.localHandle])
    requires session.sync.neutral == setup.neutral && session.sync.maxPrediction == setup.windows[session.localHandle]
    requires session.inputDelay == setup.delays[session.localHandle] && Shaped(setup, Matches.Begin(setup))
    ensures Seated(setup, Matches.Begin(setup), session)
  {
    var p, side := session.localHandle, Matches.Begin(setup).sides[session.localHandle];
    var own := NewPeer(setup.magics[p]);
    assert session.Links() == seq(|players| - 1, _ => own);
    assert LinksOf(p, own, session.Links()) == side.links;
  }

  // What a session's connections have received least of all.
  lemma LeastConfirmed<S, I, A>(session: P2PSession<S, I, A>, before: Frame) returns (least: Frame)
    requires session.ConfirmedFrom(before) && session.peers != [] && session.AllAlive(DISCONNECT_TIMEOUT_TICKS)
    ensures session.sync.lastConfirmedFrame == Max(before, least)
    ensures forall k :: 0 <= k < |session.Links()| ==>
              session.Links()[k].state != Disconnected && least <= session.Links()[k].lastReceived
  {
    var k :| 0 <= k < |session.peers| && session.IsLeast(k) &&
        session.sync.lastConfirmedFrame == Max(before, session.peers[k].lastReceivedFrame);
    least := session.peers[k].lastReceivedFrame;
  }

  lemma SeatedPlays<S, I, A>(setup: Setup<S, I>, s: Match<I>, session: P2PSession<S, I, A>)
    requires Seated(setup, s, session)
    ensures setup.Valid() && session.localHandle < setup.Players() && session.sync.neutral == setup.neutral
    ensures session.sync.maxPrediction == setup.windows[session.localHandle]
    ensures session.inputDelay == setup.delays[session.localHandle]
  {
  }

  lemma SeatedSits<S, I, A>(setup: Setup<S, I>, s: Match<I>, session: P2PSession<S, I, A>)
    requires Seated(setup, s, session)
    ensures |session.Addresses()| == |session.Links()| == setup.Players() - 1 > 0
    ensures Sits(setup, s, session.localHandle, Poll(session.Links(), session.sync.tracks, session.events, []))
    ensures |session.sync.tracks| == setup.Players() && Distinct(session.Addresses())
    ensures s.sides[session.localHandle].frame == session.sync.currentFrame
    ensures s.sides[session.localHandle].confirmed == session.sync.lastConfirmedFrame
  {
  }

  // A poll is a run of deliveries, ticks and a confirmation.
  method PollInMatch<S, I(==), A(==)>(session: P2PSession<S, I, A>, received: seq<(A, Message<I>)>, skip: nat,
                                      ghost setup: Setup<S, I>, ghost run: seq<Match<I>>, ghost actions: seq<Action<I>>)
    returns (outgoing: seq<(A, Message<I>)>, ghost longer: seq<Match<I>>, ghost more: seq<Action<I>>)
    requires session.Valid() && session.AllAlive(DISCONNECT_TIMEOUT_TICKS - 1)
    requires IsRun(setup, run, actions) && Seated(setup, Now(run), session)
    requires Arrived(session.Addresses(), session.localHandle, Now(run).net, received)
    modifies session`events, session`lasts, session`skipFrames, session`state, session.sync, session.sync.queues,
        set q | q in session.sync.queues :: q.inputs
    modifies session.peers
    ensures session.Valid() && session.AllAlive(DISCONNECT_TIMEOUT_TICKS) && session.skipFrames == skip
    ensures Extended(old(session.sync.tracks), session.sync.tracks)
    ensures session.sync.currentFrame == old(session.sync.currentFrame)
    ensures Onward(setup, session.localHandle, run, actions, longer, more) && Seated(setup, Now(longer), session)
    ensures Now(longer).net == Now(run).net + Posted(session.Addresses(), session.localHandle, outgoing)
    ensures SameElsewhere(Now(run), Now(longer), session.localHandle)
  {
    hide P2PSession.Valid, IsRun, P2PSession.ConfirmedFrom, P2PSession.AllAlive, Taken, TickedAll, P2PSession.Links,
        P2PSession.Addresses, Sits, Shaped, Extended;
    NowShaped(setup, run, actions);
    ghost var s, p, addrs := Now(run), session.localHandle, session.Addresses();
    SeatedSits(setup, s, session);
    ghost var start, before := Poll(session.Links(), session.sync.tracks, session.events, []), session.sync.lastConfirmedFrame;
    outgoing := session.PollRemotePeers(received, skip);
    ghost var least := LeastConfirmed(session, before);
    longer, more := PollIsRun(setup, addrs, p, run, actions, start, received, least);
    StaysSeated(setup, Now(longer), session, TickedAll(addrs,
        Taken(setup.neutral, addrs, p, start, received).(outgoing := []), session.sync.currentFrame, |addrs|));
  }

  lemma StaysSeated<S, I, A>(setup: Setup<S, I>, t: Match<I>, session: P2PSession<S, I, A>,
                             due: Poll<I, A>)
    requires Sits(setup, t, session.localHandle, due)
    requires session.Links() == due.links && session.sync.tracks == due.tracks
    requires t.sides[session.localHandle].frame == session.sync.currentFrame
    requires t.sides[session.localHandle].confirmed == session.sync.lastConfirmedFrame
    requires session.sync.neutral == setup.neutral && session.sync.maxPrediction == setup.windows[session.localHandle]
    requires session.inputDelay == setup.delays[session.localHandle] && Distinct(session.Addresses())
    ensures Seated(setup, t, session)
  {
  }

  // ---- Advancing and publishing ----

  lemma QueuedLinks<I>(self: nat, own: Peer<I>, links: seq<Peer<I>>, frame: Frame, input: I)
    requires self <= |links|
    ensures Queued(LinksOf(self, own, links), self, frame, input) == LinksOf(self, own, AllQueued(links, frame, input))
  {
  }

  lemma StampedLinks<I>(self: nat, own: Peer<I>, links: seq<Peer<I>>, frame: Frame, value: nat)
    requires self <= |links|
    ensures Stamped(LinksOf(self, own, links), self, frame, value) == LinksOf(self, own, AllStamped(links, frame, value))
  {
  }

  // No session of a match with room in its rings needs an input that has aged out.
  lemma SeatedHasRoom<S, I, A>(setup: Setup<S, I>, run: seq<Match<I>>, actions: seq<Action<I>>,
                               session: P2PSession<S, I, A>)
    requires IsRun(setup, run, actions) && Seated(setup, Now(run), session) && Roomy(setup)
    ensures session.RingRoom()
  {
    RingNeverOverruns(setup, run, actions, |run| - 1, session.localHandle);
  }

  lemma AdvancedSide<S, I>(setup: Setup<S, I>, s: Match<I>, p: nat, input: I)
    requires Shaped(setup, s) && Enabled(setup, s, Advance(p, input))
    ensures var t, side, delay := After(setup, s, Advance(p, input)), s.sides[p], EffectiveDelay(setup.delays[p]);
            && t.net == s.net && SameElsewhere(s, t, p)
            && t.sides[p] == Side(side.frame + 1, side.confirmed,
                   AllSettledAt(setup.neutral, FiledIn(setup.neutral, side.tracks, p, side.frame, delay, input), side.frame + 1),
                   Queued(side.links, p, side.frame + delay, input), true)
  {
  }

  // What an advance leaves at `p`.
  lemma AdvancedSits<S, I, A>(setup: Setup<S, I>, s: Match<I>, p: nat, poll: Poll<I, A>, input: I)
    requires Sits(setup, s, p, poll) && Enabled(setup, s, Advance(p, input))
    requires Shaped(setup, After(setup, s, Advance(p, input)))
    ensures var t, frame, delay := After(setup, s, Advance(p, input)), s.sides[p].frame, EffectiveDelay(setup.delays[p]);
            && Sits(setup, t, p, Poll(AllQueued(poll.links, frame + delay, input),
                   AllSettledAt(setup.neutral, FiledIn(setup.neutral, poll.tracks, p, frame, delay, input), frame + 1),
                   poll.news, []))
            && t.sides[p].frame == frame + 1 && t.sides[p].confirmed == s.sides[p].confirmed && t.sides[p].quiet
            && t.net == s.net && SameElsewhere(s, t, p)
  {
    hide Enabled, After, EffectiveDelay, AllSettledAt, FiledIn, LinksOf, AllQueued, Queued;
    AdvancedSide(setup, s, p, input);
    QueuedLinks(p, NewPeer(setup.magics[p]), poll.links, s.sides[p].frame + EffectiveDelay(setup.delays[p]), input);
  }

  // An advance is one step of the match, or none.
  method AdvanceInMatch<S, I(==), A(==)>(session: P2PSession<S, I, A>, game: Game<S, I>, ghost setup: Setup<S, I>,
                                         ghost run: seq<Match<I>>, ghost actions: seq<Action<I>>)
    returns (r: SessionResult<()>, ghost longer: seq<Match<I>>, ghost more: seq<Action<I>>)
    requires session.Valid() && InSync(session, game) && game.rules == setup.rules
    requires IsRun(setup, run, actions) && Seated(setup, Now(run), session) && Roomy(setup)
    modifies session`skipFrames, session`localInput, session.sync`currentFrame, session.sync`tracks,
        session.sync`given, session.sync.saved`head, session.sync.queues,
        set q | q in session.sync.queues :: q.inputs
    modifies session.Peers()`pending, session.sync.saved.cells, game
    ensures session.Valid() && InSync(session, game)
    ensures Onward(setup, session.localHandle, run, actions, longer, more) && Seated(setup, Now(longer), session)
    ensures Now(longer).net == Now(run).net && SameElsewhere(Now(run), Now(longer), session.localHandle)
    ensures r.Refused? ==> game.state == old(game.state) && longer == run
    ensures r.Done? ==>
              && session.sync.currentFrame == old(session.sync.currentFrame) + 1
              && game.state == PlainState(setup.rules, setup.neutral, session.sync.tracks, session.sync.currentFrame)
              && Now(longer).sides[session.localHandle].quiet
  {
    hide P2PSession.Valid, P2PSession.RingRoom, InSync, IsRun, Roomy, Seated, PlainState, Shaped, After, Enabled,
        AllQueued, Seek, P2PSession.Links, P2PSession.Addresses, Sits, LinksOf, EffectiveDelay, FiledIn,
        AllSettledAt;
    NowShaped(setup, run, actions);
    SeatedHasRoom(setup, run, actions, session);
    SeatedSits(setup, Now(run), session);
    ghost var s, p, input := Now(run), session.localHandle, session.localInput;
    ghost var here := Poll(session.Links(), session.sync.tracks, session.events, []);
    WindowAllows(setup, s, session);
    r := RunFrame(session, game);
    if r.Done? {
      longer, more := OneStep(setup, run, actions, Advance(p, input.value));
      NowShaped(setup, longer, more);
      AdvancedSits(setup, s, p, here, input.value);
      StaysSeated(setup, Now(longer), session, Poll(session.Links(), session.sync.tracks, here.news, []));
    } else {
      longer, more := run, actions;
      OnwardFrom(setup, p, run, actions);
      StaysSeated(setup, s, session, here);
    }
  }

  lemma WindowAllows<S, I, A>(setup: Setup<S, I>, s: Match<I>, session: P2PSession<S, I, A>)
    requires Seated(setup, s, session)
    ensures var p := session.localHandle;
            && p < |s.sides| == setup.Players() && s.sides[p].tracks == session.sync.tracks
            && session.sync.neutral == setup.neutral && session.sync.maxPrediction == setup.windows[p]
            && session.inputDelay == setup.delays[p]
    ensures session.sync.FramesAhead() < session.sync.maxPrediction ==>
              forall input :: Enabled(setup, s, Advance(session.localHandle, input))
  {
  }

  lemma AdvertAt<I, A>(addrs: seq<A>, p: nat, own: Peer<I>, links: seq<Peer<I>>, frame: Frame, checksum: nat, k: nat)
    requires p <= |links| == |addrs| && Distinct(addrs) && k < |addrs|
    ensures var x := Advert(addrs, links, frame, checksum)[k];
            && x in Advert(addrs, links, frame, checksum) && FirstAt(addrs, x.0) == k
            && Packet(p, HandleOf(p, k), x.1) in Posted(addrs, p, Advert(addrs, links, frame, checksum))
            && Packet(p, HandleOf(p, k), x.1) in Announced(LinksOf(p, own, links), p, frame, checksum)
            && x.1 == Message(LinksOf(p, own, links)[HandleOf(p, k)].magic, Checksum(frame, checksum))
  {
    var sent := Advert(addrs, links, frame, checksum);
    assert FirstAt(addrs, addrs[k]) == k;
    assert sent[k] in sent;
    assert LinksOf(p, own, links)[HandleOf(p, k)] == links[k];
  }

  lemma AdvertIsAnnounced<I, A>(addrs: seq<A>, p: nat, own: Peer<I>, links: seq<Peer<I>>, frame: Frame, checksum: nat,
                                x: Packet<I>)
    requires p <= |links| == |addrs| && Distinct(addrs) && x in Posted(addrs, p, Advert(addrs, links, frame, checksum))
    ensures x in Announced(LinksOf(p, own, links), p, frame, checksum)
  {
    hide Distinct, Announced, LinksOf, FirstAt;
    var sent := Advert(addrs, links, frame, checksum);
    var y :| y in sent && FirstAt(addrs, y.0) < |addrs| && x == Packet(p, HandleOf(p, FirstAt(addrs, y.0)), y.1);
    var k :| 0 <= k < |sent| && sent[k] == y;
    AdvertAt(addrs, p, own, links, frame, checksum, k);
  }

  lemma AnnouncedIsAdvert<I, A>(addrs: seq<A>, p: nat, own: Peer<I>, links: seq<Peer<I>>, frame: Frame, checksum: nat,
                                x: Packet<I>)
    requires p <= |links| == |addrs| && Distinct(addrs) && x in Announced(LinksOf(p, own, links), p, frame, checksum)
    ensures x in Posted(addrs, p, Advert(addrs, links, frame, checksum))
  {
    hide Distinct, Posted, Advert, FirstAt;
    var all := LinksOf(p, own, links);
    var q :| 0 <= q < |all| && q != p && x == Packet(p, q, Message(all[q].magic, Checksum(frame, checksum)));
    AdvertAt(addrs, p, own, links, frame, checksum, if q < p then q else q - 1);
  }

  // What an advertised checksum is on the net.
  lemma PostedToAll<I, A>(addrs: seq<A>, p: nat, own: Peer<I>, links: seq<Peer<I>>, frame: Frame, checksum: nat)
    requires p <= |links| == |addrs| && Distinct(addrs)
    ensures Posted(addrs, p, Advert(addrs, links, frame, checksum)) == Announced(LinksOf(p, own, links), p, frame, checksum)
  {
    hide Distinct, Posted, Announced, LinksOf, Advert;
    var posted, announced := Posted(addrs, p, Advert(addrs, links, frame, checksum)),
                             Announced(LinksOf(p, own, links), p, frame, checksum);
    forall x | x in posted ensures x in announced {
      AdvertIsAnnounced(addrs, p, own, links, frame, checksum, x);
    }
    forall x | x in announced ensures x in posted {
      AnnouncedIsAdvert(addrs, p, own, links, frame, checksum, x);
    }
  }

  lemma PublishedSide<S, I>(setup: Setup<S, I>, s: Match<I>, p: nat)
    requires Shaped(setup, s) && Enabled(setup, s, Publish(p))
    ensures var t, side, value := After(setup, s, Publish(p)), s.sides[p], PublishedValue(setup, s, p);
            && t.net == s.net + Announced(side.links, p, side.confirmed, value) && SameElsewhere(s, t, p)
            && t.sides[p] == side.(links := Stamped(side.links, p, side.confirmed, value))
  {
  }

  // What publishing leaves at `p`.
  lemma PublishedSits<S, I, A>(setup: Setup<S, I>, s: Match<I>, p: nat, poll: Poll<I, A>)
    requires Sits(setup, s, p, poll) && Enabled(setup, s, Publish(p)) && Shaped(setup, After(setup, s, Publish(p)))
    ensures var t, side, value := After(setup, s, Publish(p)), s.sides[p], PublishedValue(setup, s, p);
            && Sits(setup, t, p, poll.(links := AllStamped(poll.links, side.confirmed, value)))
            && t.sides[p].frame == side.frame && t.sides[p].confirmed == side.confirmed
            && t.net == s.net + Announced(LinksOf(p, NewPeer(setup.magics[p]), poll.links), p, side.confirmed, value)
            && SameElsewhere(s, t, p)
  {
    hide Enabled, After, LinksOf, AllStamped, Stamped, Announced, PublishedValue;
    PublishedSide(setup, s, p);
    StampedLinks(p, NewPeer(setup.magics[p]), poll.links, s.sides[p].confirmed, PublishedValue(setup, s, p));
  }

  lemma SavedMayBePublished<S, I>(setup: Setup<S, I>, s: Match<I>, p: nat, value: nat)
    requires Shaped(setup, s) && p < setup.Players()
    requires var side := s.sides[p];
             && side.quiet && side.confirmed != NULL_FRAME
             && side.confirmed < side.frame <= side.confirmed + setup.windows[p] + 2
             && IsSimulated(setup.rules, side.tracks, side.confirmed, value)
    ensures Enabled(setup, s, Matches.Publish(p)) && PublishedValue(setup, s, p) == value
  {
  }

  lemma PublishedTruth<S, I>(setup: Setup<S, I>, run: seq<Match<I>>, actions: seq<Action<I>>, longer: seq<Match<I>>,
                             p: nat)
    requires IsRun(setup, run, actions) && p < setup.Players() && Shaped(setup, Now(run))
    requires Enabled(setup, Now(run), Matches.Publish(p))
    requires longer != [] && Now(longer) == After(setup, Now(run), Matches.Publish(p))
    ensures Shaped(setup, Now(longer))
    ensures IsTrue(setup, Now(longer), Now(run).sides[p].confirmed, PublishedValue(setup, Now(run), p))
  {
    hide IsRun, Enabled, After, IsTrue, SideOk, LinkOk, PacketOk;
    NowShaped(setup, run, actions);
    RunsKeep(setup, run, actions, |run| - 1);
    PublishedIsTrue(setup, Now(run), p);
    StepGrows(setup, Now(run), Matches.Publish(p));
    TrueStays(setup, Now(run), Now(longer), Now(run).sides[p].confirmed, PublishedValue(setup, Now(run), p));
  }

  // Publishing, after an advance and before the next poll, is one step of the match, or none, and what
  // is published is the checksum of everyone's own inputs.
  method PublishInMatch<S, I(==), A(==)>(session: P2PSession<S, I, A>, game: Game<S, I>, ghost setup: Setup<S, I>,
                                         ghost run: seq<Match<I>>, ghost actions: seq<Action<I>>)
    returns (published: Option<(Frame, nat)>, outgoing: seq<(A, Message<I>)>,
             ghost longer: seq<Match<I>>, ghost more: seq<Action<I>>)
    requires session.Valid() && InSync(session, game) && game.rules == setup.rules
    requires IsRun(setup, run, actions) && Seated(setup, Now(run), session)
    requires Now(run).sides[session.localHandle].quiet
    modifies session`lastChecksumFrame, session.Peers()`localChecksums
    ensures session.Valid() && InSync(session, game)
    ensures Onward(setup, session.localHandle, run, actions, longer, more) && Seated(setup, Now(longer), session)
    ensures Now(longer).net == Now(run).net + Posted(session.Addresses(), session.localHandle, outgoing)
    ensures SameElsewhere(Now(run), Now(longer), session.localHandle)
    ensures published.Some? ==> IsTrue(setup, Now(longer), published.value.0, published.value.1)
  {
    hide P2PSession.Valid, InSync, IsRun, Seated, Shaped, After, Enabled, AllStamped, P2PSession.Links,
        P2PSession.Addresses, Advert, Sits, LinksOf, Posted, Announced, IsTrue, IsSimulated, RightChecksum, Seek,
        Invariant;
    NowShaped(setup, run, actions);
    SeatedSits(setup, Now(run), session);
    ghost var s, p := Now(run), session.localHandle;
    ghost var here := Poll(session.Links(), session.sync.tracks, session.events, []);
    SeatedPlays(setup, s, session);
    published, outgoing := PublishChecksum(session, game);
    if published.Some? {
      ghost var frame, value := published.value.0, published.value.1;
      SavedMayBePublished(setup, s, p, value);
      longer, more := OneStep(setup, run, actions, Matches.Publish(p));
      NowShaped(setup, longer, more);
      PublishedSits(setup, s, p, here);
      StaysSeated(setup, Now(longer), session, here.(links := session.Links()));
      PostedToAll(session.Addresses(), p, NewPeer(setup.magics[p]), here.links, frame, value);
      PublishedTruth(setup, run, actions, longer, p);
    } else {
      longer, more := run, actions;
      NothingYet(setup, session.Addresses(), p, here);
      OnwardFrom(setup, p, run, actions);
      StaysSeated(setup, s, session, here);
    }
  }

  // ---- Turns ----

  // Whatever the others do in between, a session keeps its seat.
  lemma {:induction false} OthersLeaveSeat<S, I, A>(setup: Setup<S, I>, run: seq<Match<I>>, actions: seq<Action<I>>,
                                                    n: nat, session: P2PSession<S, I, A>)
    requires IsRun(setup, run, actions) && n < |run| && Seated(setup, run[n], session)
    requires forall i :: n <= i < |actions| ==> By(actions[i]) != session.localHandle
    ensures Seated(setup, Now(run), session)
    decreases |run| - n
  {
    if n + 1 < |run| {
      StepElsewhere(setup, run[n], actions[n], session.localHandle);
      RunsKeep(setup, run, actions, n + 1);
      OthersLeaveSeat(setup, run, actions, n + 1, session);
    }
  }

  lemma StepElsewhere<S, I>(setup: Setup<S, I>, s: Match<I>, a: Action<I>, p: nat)
    requires Shaped(setup, s) && Enabled(setup, s, a) && By(a) != p && p < setup.Players()
    ensures var t := After(setup, s, a); |t.sides| == |s.sides| && t.sides[p] == s.sides[p]
  {
  }

  // One turn of the frame loop in a match: a run of the match by this player's steps, in which no
  // input that is needed has aged out of a ring. The game is where the plain simulation puts it, and
  // what is published is the checksum of everyone's own inputs.
  method TurnInMatch<S, I(==), A(==)>(session: P2PSession<S, I, A>, game: Game<S, I>, turn: Turn<A, I>,
                                      ghost setup: Setup<S, I>, ghost run: seq<Match<I>>, ghost actions: seq<Action<I>>)
    returns (advanced: bool, published: Option<(Frame, nat)>, outgoing: seq<(A, Message<I>)>,
             ghost longer: seq<Match<I>>, ghost more: seq<Action<I>>)
    requires session.Valid() && InSync(session, game) && game.rules == setup.rules
    requires session.AllAlive(DISCONNECT_TIMEOUT_TICKS - 1)
    requires IsRun(setup, run, actions) && Seated(setup, Now(run), session) && Roomy(setup)
    requires Arrived(session.Addresses(), session.localHandle, Now(run).net, turn.received)
    modifies session, session.sync, session.sync.saved`head, session.sync.queues,
        set q | q in session.sync.queues :: q.inputs
    modifies session.peers, session.sync.saved.cells, game
    ensures session.Valid() && InSync(session, game)
    ensures Onward(setup, session.localHandle, run, actions, longer, more) && Seated(setup, Now(longer), session)
    ensures Now(longer).net == Now(run).net + Posted(session.Addresses(), session.localHandle, outgoing)
    ensures SameElsewhere(Now(run), Now(longer), session.localHandle)
    ensures advanced ==>
              game.state == PlainState(setup.rules, setup.neutral, session.sync.tracks, session.sync.currentFrame)
    ensures !advanced ==> game.state == old(game.state) && published == None
    ensures published.Some? ==> IsTrue(setup, Now(longer), published.value.0, published.value.1)
  {
    hide P2PSession.Valid, IsRun, Roomy, Seated, PlainState, Shaped, Seek, P2PSession.Links, P2PSession.Addresses,
        LinksOf, Posted, IsTrue, Mirrors, Served, Arrived;
    advanced, published := false, None;
    ghost var was, p, addrs := session.sync.tracks, session.localHandle, session.Addresses();
    outgoing, longer, more := PollInMatch(session, turn.received, turn.skip, setup, run, actions);
    ExtendedServesSame(was, session.sync.tracks);
    if session.state != Playing {
      return;
    }
    session.AddLocalInput(turn.input);
    ghost var polled, polledBy := longer, more;
    var r;
    r, longer, more := AdvanceInMatch(session, game, setup, polled, polledBy);
    OnwardOn(setup, p, run, actions, polled, polledBy, longer, more);
    if r.Done? {
      ghost var far, farBy := longer, more;
      var messages;
      published, messages, longer, more := PublishInMatch(session, game, setup, far, farBy);
      OnwardOn(setup, p, run, actions, far, farBy, longer, more);
      PostedTogether(addrs, p, outgoing, messages);
      advanced, outgoing := true, outgoing + messages;
    }
  }
}
