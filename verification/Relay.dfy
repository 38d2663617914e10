/** Cells, the gates a relay puts them through, and the journey they make from node to node
    (crates/fofoca-iroh-multihop-transport/src/wire.rs, .../src/underlay.rs, .../src/transport.rs). */
module Relays {
  import opened Options
  import opened Routes

  type Byte = b: nat | b < 256

  // A packet, the whole route it travels, and which hop it is addressed to.
  datatype Cell<+I> = Cell(path: seq<RouteHop<I>>, pos: nat, source: RouteHop<I>, packet: seq<Byte>)

  function HopAt<I>(path: seq<RouteHop<I>>, pos: nat): Option<RouteHop<I>> {
    if pos < |path| then Some(path[pos]) else None
  }

  function CurrentHop<I>(cell: Cell<I>): Option<RouteHop<I>> {
    HopAt(cell.path, cell.pos)
  }

  function NextHop<I>(cell: Cell<I>): Option<RouteHop<I>> {
    HopAt(cell.path, cell.pos + 1)
  }

  function Advanced<I>(cell: Cell<I>): Cell<I> {
    cell.(pos := cell.pos + 1)
  }

  // Reading a cell off the wire settles its route and its position in it.
  predicate Readable<I(==)>(cell: Cell<I>) {
    Legal(cell.path) && cell.pos < |cell.path|
  }

  // The two identities a node has.
  datatype Node<+I> = Node(appId: I, underlayId: I)

  predicate IsSelf<I(==)>(me: Node<I>, hop: RouteHop<I>) {
    hop.underlay.id == me.underlayId && hop.appId == me.appId
  }

  // The hop a cell should have come from: the one before, or the sender.
  function ExpectedUpstream<I>(cell: Cell<I>): Option<RouteHop<I>> {
    if cell.pos == 0 then Some(cell.source) else HopAt(cell.path, cell.pos - 1)
  }

  datatype Verdict<+I> = Drop | Forward(next: RouteHop<I>, cell: Cell<I>) | Deliver(remote: seq<RouteHop<I>>,
      packet: seq<Byte>)

  // What a node does with a cell that arrived on a connection from `from`.
  function Handled<I(==)>(me: Node<I>, cell: Cell<I>, from: I): Verdict<I> {
    var here := CurrentHop(cell);
    if here == None || !IsSelf(me, here.value) then Drop
    else
      var upstream := ExpectedUpstream(cell);
      if upstream == None || upstream.value.underlay.id != from then Drop
      else
        match NextHop(cell)
        case Some(next) => Forward(next, Advanced(cell))
        case None =>
          match ReverseFrom(cell.path, cell.source)
          case Some(remote) => Deliver(remote, cell.packet)
          case None => Drop
  }

  // What a node puts on the wire when it sends along a route: nothing, if the route runs back through it.
  function Sent<I(==)>(self: RouteHop<I>, route: seq<RouteHop<I>>, packet: seq<Byte>): Option<Cell<I>> {
    if Revisits(route, self) then None else Some(Cell(route, 0, self, packet))
  }

  // A node refuses to send along a route that names it, under either identity.
  lemma SentWhen<I>(self: RouteHop<I>, route: seq<RouteHop<I>>, packet: seq<Byte>)
    ensures Sent(self, route, packet) == None <==>
              exists i :: 0 <= i < |route| && (route[i].underlay.id == self.underlay.id || route[i].appId == self.appId)
    ensures Sent(self, route, packet).Some? ==> Sent(self, route, packet).value == Cell(route, 0, self, packet)
  {
    if i :| 0 <= i < |route| && (route[i].underlay.id == self.underlay.id || route[i].appId == self.appId) {
      assert SameNode(route[i], self);
    }
  }

  // The gates, hop by hop: the cell must be at a hop that is this node under both identities, and must have
  // come from the hop before, or from the sender. Then it goes on to the next hop, or at the last hop is
  // delivered as it was sent, with the way back; with no way back it is dropped.
  lemma HandledWhen<I>(me: Node<I>, cell: Cell<I>, from: I)
    requires Readable(cell)
    ensures var here, n := cell.path[cell.pos], |cell.path|;
            var before := if cell.pos == 0 then cell.source else cell.path[cell.pos - 1];
            var passes := here.appId == me.appId && here.underlay.id == me.underlayId && before.underlay.id == from;
            var back := forall i :: 0 <= i < n - 1 ==>
                          cell.path[i].underlay.id != cell.source.underlay.id && cell.path[i].appId != cell.source.appId;
            && (Handled(me, cell, from).Forward? <==> passes && cell.pos + 1 < n)
            && (Handled(me, cell, from).Deliver? <==> passes && cell.pos + 1 == n && back)
            && (Handled(me, cell, from).Forward? ==>
                  Handled(me, cell, from) == Forward(cell.path[cell.pos + 1], cell.(pos := cell.pos + 1)))
            && (Handled(me, cell, from).Deliver? ==>
                  && Handled(me, cell, from).packet == cell.packet && |Handled(me, cell, from).remote| == n
                  && Handled(me, cell, from).remote[n - 1] == cell.source
                  && forall i :: 0 <= i < n - 1 ==> Handled(me, cell, from).remote[i] == cell.path[n - 2 - i])
  {
    hide ReverseFrom, Legal, Revisits;
    ReturnRoute(cell.path, cell.source);
  }

  // ---- A network of nodes ----

  datatype Place<+I> = OnWire(from: I, dest: I) | Arrived(at: I, remote: seq<RouteHop<I>>, packet: seq<Byte>) | Lost

  // One cell's life: as it was put on the wire and by whom, as it is now, where it is, and which nodes
  // have forwarded it so far.
  datatype Flight<+I> = Flight(injector: I, start: Cell<I>, cell: Cell<I>, place: Place<I>, relays: seq<I>)

  // `nodes` are those that follow the protocol, by underlay id; any other id may do as it likes.
  datatype Network<!I> = Network(nodes: map<I, I>, flights: seq<Flight<I>>)

  datatype Step<+I> =
    | Inject(injector: I, dest: I, cell: Cell<I>)  // anyone puts any readable cell on a connection of its own
    | Handle(k: nat)                         // the node a cell has reached handles it
    | Lose(k: nat)                           // a full queue, a failed dial, a node that does not play along

  function Moved<I(==)>(f: Flight<I>, me: Node<I>): Flight<I>
    requires f.place.OnWire?
  {
    match Handled(me, f.cell, f.place.from)
    case Drop => f.(place := Lost)
    case Forward(next, cell) =>
      f.(cell := cell, place := OnWire(me.underlayId, next.underlay.id), relays := f.relays + [me.underlayId])
    case Deliver(remote, packet) => f.(place := Arrived(me.underlayId, remote, packet))
  }

  predicate Enabled<I(==)>(net: Network<I>, step: Step<I>) {
    match step
    case Inject(injector, dest, cell) => Readable(cell)
    case Handle(k) => k < |net.flights| && net.flights[k].place.OnWire? && net.flights[k].place.dest in net.nodes
    case Lose(k) => k < |net.flights| && net.flights[k].place.OnWire?
  }

  function After<I(==)>(net: Network<I>, step: Step<I>): Network<I>
    requires Enabled(net, step)
  {
    match step
    case Inject(injector, dest, cell) => net.(flights := net.flights +
        [Flight(injector, cell, cell, OnWire(injector, dest), [])])
    case Handle(k) =>
      var f := net.flights[k];
      net.(flights := net.flights[k := Moved(f, Node(net.nodes[f.place.dest], f.place.dest))])
    case Lose(k) => net.(flights := net.flights[k := net.flights[k].(place := Lost)])
  }

  ghost predicate Run<I(!new)>(nets: seq<Network<I>>, steps: seq<Step<I>>) {
    && |nets| == |steps| + 1
    && nets[0].flights == []
    && forall i :: 0 <= i < |steps| ==> Enabled(nets[i], steps[i]) && nets[i + 1] == After(nets[i], steps[i])
  }

  // The node a route names at a position.
  predicate Names<I(==)>(nodes: map<I, I>, hop: RouteHop<I>, id: I) {
    hop.underlay.id == id && id in nodes && nodes[id] == hop.appId
  }

  // Where a cell can be: still where it was put, or carried from there along its route by the very nodes
  // the route names, one after another, having been put there by the node that comes before.
  ghost predicate OnItsRoute<I>(nodes: map<I, I>, f: Flight<I>) {
    var path, p, n := f.start.path, f.start.pos, |f.relays|;
    && Readable(f.start) && p + n < |path|
    && f.cell == f.start.(pos := p + n)
    && (forall i :: 0 <= i < n ==> Names(nodes, path[p + i], f.relays[i]))
    && (n > 0 || f.place.Arrived? ==> ExpectedUpstream(f.start).value.underlay.id == f.injector)
    && match f.place
       case OnWire(from, dest) =>
         if n == 0 then from == f.injector else from == f.relays[n - 1] && dest == path[p + n].underlay.id
       case Arrived(at, remote, packet) =>
         && p + n == |path| - 1 && Names(nodes, path[p + n], at) && ReverseFrom(path, f.start.source) == Some(remote)
         && packet == f.start.packet
       case Lost => true
  }

  ghost predicate AllOnRoute<I>(net: Network<I>) {
    forall k :: 0 <= k < |net.flights| ==> OnItsRoute(net.nodes, net.flights[k])
  }

  lemma MovingKeeps<I>(nodes: map<I, I>, f: Flight<I>)
    requires OnItsRoute(nodes, f) && f.place.OnWire? && f.place.dest in nodes
    ensures OnItsRoute(nodes, Moved(f, Node(nodes[f.place.dest], f.place.dest)))
  {
    hide Legal, ReverseFrom;
  }

  lemma StepKeeps<I>(net: Network<I>, step: Step<I>)
    requires AllOnRoute(net) && Enabled(net, step)
    ensures AllOnRoute(After(net, step))
  {
    hide OnItsRoute;
    match step
    case Inject(injector, dest, cell) =>
      InjectedIsOnRoute(net.nodes, injector, dest, cell);
    case Handle(k) =>
      MovingKeeps(net.nodes, net.flights[k]);
    case Lose(k) =>
      LosingKeeps(net.nodes, net.flights[k]);
  }

  lemma InjectedIsOnRoute<I>(nodes: map<I, I>, injector: I, dest: I, cell: Cell<I>)
    requires Readable(cell)
    ensures OnItsRoute(nodes, Flight(injector, cell, cell, OnWire(injector, dest), []))
  {
  }

  lemma LosingKeeps<I>(nodes: map<I, I>, f: Flight<I>)
    requires OnItsRoute(nodes, f)
    ensures OnItsRoute(nodes, f.(place := Lost))
  {
  }

  // In every run, whoever injects what, every cell keeps to its route.
  lemma {:induction false} CellsKeepToTheirRoute<I(!new)>(nets: seq<Network<I>>, steps: seq<Step<I>>, i: nat)
    requires Run(nets, steps) && i < |nets|
    ensures AllOnRoute(nets[i])
  {
    if i > 0 {
      CellsKeepToTheirRoute(nets, steps, i - 1);
      StepKeeps(nets[i - 1], steps[i - 1]);
    }
  }

  // So no node forwards a cell twice, none that forwarded it also receives it, and it is forwarded fewer
  // times than its route has hops.
  lemma ForwardedOncePerNode<I>(nodes: map<I, I>, f: Flight<I>)
    requires OnItsRoute(nodes, f)
    ensures |f.relays| <= |f.start.path| - 1 - f.start.pos < MAX_ROUTE_HOPS
    ensures forall i, j :: 0 <= i < j < |f.relays| ==> f.relays[i] != f.relays[j]
    ensures f.place.Arrived? ==> |f.relays| == |f.start.path| - 1 - f.start.pos && f.place.at !in f.relays
  {
  }

  // How often cells have been forwarded in all.
  function Traffic<I>(flights: seq<Flight<I>>): nat {
    if flights == [] then 0 else Traffic(flights[..|flights| - 1]) + |flights[|flights| - 1].relays|
  }

  // A network forwards less than a route's length per cell put into it.
  lemma {:induction false} TrafficIsBounded<I>(net: Network<I>)
    requires AllOnRoute(net)
    ensures Traffic(net.flights) <= (MAX_ROUTE_HOPS - 1) * |net.flights|
    decreases |net.flights|
  {
    if net.flights != [] {
      var n := |net.flights| - 1;
      TrafficIsBounded(net.(flights := net.flights[..n]));
      ForwardedOncePerNode(net.nodes, net.flights[n]);
    }
  }

  // ---- There and back ----

  // Every hop of a route is a node that follows the protocol, under both the identities given.
  ghost predicate Staffed<I>(nodes: map<I, I>, path: seq<RouteHop<I>>) {
    forall i :: 0 <= i < |path| ==> Names(nodes, path[i], path[i].underlay.id)
  }

  function Journey<I(==)>(nodes: map<I, I>, f: Flight<I>, hops: nat): Flight<I> {
    if hops == 0 then f
    else
      var g := Journey(nodes, f, hops - 1);
      if g.place.OnWire? && g.place.dest in nodes then Moved(g, Node(nodes[g.place.dest], g.place.dest)) else g
  }

  function Launched<I>(cell: Cell<I>): Flight<I>
    requires cell.path != []
  {
    Flight(cell.source.underlay.id, cell, cell, OnWire(cell.source.underlay.id, cell.path[0].underlay.id), [])
  }

  // A cell on its way: `hops` nodes in.
  lemma {:induction false} EnRoute<I>(nodes: map<I, I>, cell: Cell<I>, hops: nat)
    requires Readable(cell) && cell.pos == 0 && Staffed(nodes, cell.path) && hops < |cell.path|
    ensures var f := Journey(nodes, Launched(cell), hops);
            && f.cell == cell.(pos := hops) && |f.relays| == hops
            && f.place == OnWire(if hops == 0 then cell.source.underlay.id else cell.path[hops - 1].underlay.id,
                cell.path[hops].underlay.id)
  {
    hide Legal, Moved;
    if hops > 0 {
      EnRoute(nodes, cell, hops - 1);
      assert Names(nodes, cell.path[hops - 1], cell.path[hops - 1].underlay.id);
      OneHop(nodes, cell, Journey(nodes, Launched(cell), hops - 1), hops - 1);
    }
  }

  // The node at a position of the route passes the cell on to the next.
  lemma OneHop<I>(nodes: map<I, I>, cell: Cell<I>, f: Flight<I>, at: nat)
    requires Readable(cell) && cell.pos == 0 && at + 1 < |cell.path|
    requires Names(nodes, cell.path[at], cell.path[at].underlay.id) && f.cell == cell.(pos := at)
    requires f.place == OnWire(if at == 0 then cell.source.underlay.id else cell.path[at - 1].underlay.id,
                 cell.path[at].underlay.id)
    ensures var g := Moved(f, Node(nodes[cell.path[at].underlay.id], cell.path[at].underlay.id));
            && g.cell == cell.(pos := at + 1) && |g.relays| == |f.relays| + 1
            && g.place == OnWire(cell.path[at].underlay.id, cell.path[at + 1].underlay.id)
  {
    hide Legal, ReverseFrom;
  }

  // What a node sends along a route that is not lost arrives at the route's last hop, every other hop
  // having forwarded it, and comes with the route back to the sender.
  lemma SentCellsArrive<I>(nodes: map<I, I>, self: RouteHop<I>, route: seq<RouteHop<I>>, packet: seq<Byte>)
    requires Legal(route) && Staffed(nodes, route) && Sent(self, route, packet).Some?
    ensures ReverseFrom(route, self).Some?
    ensures var f := Journey(nodes, Launched(Sent(self, route, packet).value), |route|);
            && |f.relays| == |route| - 1
            && f.place == Arrived(route[|route| - 1].underlay.id, ReverseFrom(route, self).value, packet)
  {
    ReturnRoute(route, self);
    hide Legal, ReverseFrom, Moved;
    var cell := Sent(self, route, packet).value;
    EnRoute(nodes, cell, |route| - 1);
    assert Names(nodes, route[|route| - 1], route[|route| - 1].underlay.id);
    LastHop(nodes, cell, Journey(nodes, Launched(cell), |route| - 1));
  }

  // The last hop delivers.
  lemma LastHop<I>(nodes: map<I, I>, cell: Cell<I>, f: Flight<I>)
    requires Readable(cell) && cell.pos == 0 && ReverseFrom(cell.path, cell.source).Some?
    requires var last := |cell.path| - 1;
             && Names(nodes, cell.path[last], cell.path[last].underlay.id) && f.cell == cell.(pos := last)
             && f.place == OnWire(if last == 0 then cell.source.underlay.id else cell.path[last - 1].underlay.id,
                    cell.path[last].underlay.id)
    ensures var id := cell.path[|cell.path| - 1].underlay.id;
            && Moved(f, Node(nodes[id], id)).relays == f.relays
            && Moved(f, Node(nodes[id], id)).place == Arrived(id, ReverseFrom(cell.path, cell.source).value, cell.packet)
  {
    hide Legal, ReverseFrom;
  }

  // The answer: sent along the route a cell arrived with, it is not refused, gets back to the sender, and
  // arrives with the route the first cell went out on.
  lemma AnswersComeBack<I>(nodes: map<I, I>, self: RouteHop<I>, route: seq<RouteHop<I>>, packet: seq<Byte>,
                           answer: seq<Byte>)
    requires Legal(route) && Staffed(nodes, route) && Names(nodes, self, self.underlay.id)
    requires Sent(self, route, packet).Some?
    ensures ReverseFrom(route, self).Some?
    ensures var back, there := ReverseFrom(route, self).value, route[|route| - 1];
            && back != [] && Sent(there, back, answer).Some?
            && Journey(nodes, Launched(Sent(there, back, answer).value), |back|).place ==
                Arrived(self.underlay.id, route, answer)
  {
    ReturnRoute(route, self);
    var back, there := ReverseFrom(route, self).value, route[|route| - 1];
    assert Staffed(nodes, back) by {
      forall i | 0 <= i < |back| ensures Names(nodes, back[i], back[i].underlay.id) {
        assert i < |route| - 1 ==> back[i] == route[|route| - 2 - i];
      }
    }
    assert !Revisits(back, there) by {
      forall i | 0 <= i < |back| ensures !SameNode(back[i], there) {
        assert SameNode(self, there) == SameNode(there, self);
        assert i < |route| - 1 ==> !SameNode(route[|route| - 2 - i], there);
      }
    }
    ReturnRouteOfReturnRoute(route, self);
    hide Legal, ReverseFrom, Journey, Staffed;
    SentCellsArrive(nodes, there, back, answer);
  }
}
