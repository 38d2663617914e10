/** The route a cell carries, and the way back
    (crates/fofoca-iroh-multihop-transport/src/addr.rs). */
module Routes {
  import opened Options
  import opened Collections

  const MAX_ROUTE_HOPS: nat := 8

  // How to dial an endpoint: its identity, and the transports it can be reached on.
  datatype Address<+I> = Address(id: I, transports: seq<string>)

  // One hop: which node it is at the application layer, and how to dial its underlay endpoint.
  datatype RouteHop<+I> = RouteHop(appId: I, underlay: Address<I>)

  // Either identity of two hops in common makes them the same node.
  predicate SameNode<I(==)>(a: RouteHop<I>, b: RouteHop<I>) {
    a.underlay.id == b.underlay.id || a.appId == b.appId
  }

  // A route is not empty, not too long, and visits no node twice.
  predicate Legal<I(==)>(hops: seq<RouteHop<I>>) {
    && 1 <= |hops| <= MAX_ROUTE_HOPS
    && forall i, j :: 0 <= i < j < |hops| ==> !SameNode(hops[i], hops[j])
  }

  predicate RepeatsAHop<I(==)>(hops: seq<RouteHop<I>>) {
    exists i :: 0 <= i < |hops| && exists j :: 0 <= j < i && SameNode(hops[j], hops[i])
  }

  // The only way to make a route, whether out of a search or off the wire.
  function New<I(==)>(hops: seq<RouteHop<I>>): (r: Option<seq<RouteHop<I>>>)
    ensures r.Some? <==> Legal(hops)
    ensures r.Some? ==> r.value == hops
    ensures r.Some? <==>
              && 1 <= |hops| <= 8
              && forall i, j :: 0 <= i < j < |hops| ==> hops[i].underlay.id != hops[j].underlay.id && hops[i].appId != hops[j].appId
  {
    if hops == [] || |hops| > MAX_ROUTE_HOPS then None
    else if RepeatsAHop(hops) then None
    else Some(hops)
  }

  // The return route: the destination dropped, the rest turned round, the sender put last.
  function Turned<I>(forward: seq<RouteHop<I>>, source: RouteHop<I>): seq<RouteHop<I>> {
    var back := Reverse(forward);
    (if back == [] then [] else back[1..]) + [source]
  }

  function ReverseFrom<I(==)>(forward: seq<RouteHop<I>>, source: RouteHop<I>): Option<seq<RouteHop<I>>> {
    New(Turned(forward, source))
  }

  // Whether a route runs back through its own sender.
  predicate Revisits<I(==)>(route: seq<RouteHop<I>>, me: RouteHop<I>) {
    exists i :: 0 <= i < |route| && SameNode(route[i], me)
  }

  // The way back exists exactly when the sender is none of the hops between: as long as the way there,
  // through the same hops the other way round, ending at the sender.
  lemma ReturnRoute<I>(forward: seq<RouteHop<I>>, source: RouteHop<I>)
    requires Legal(forward)
    ensures ReverseFrom(forward, source).Some? <==> !Revisits(forward[..|forward| - 1], source)
    ensures ReverseFrom(forward, source).Some? <==>
              forall i :: 0 <= i < |forward| - 1 ==>
                forward[i].underlay.id != source.underlay.id && forward[i].appId != source.appId
    ensures ReverseFrom(forward, source).Some? ==>
              var back := ReverseFrom(forward, source).value;
              && Legal(back) && |back| == |forward| && back[|back| - 1] == source
              && forall i :: 0 <= i < |forward| - 1 ==> back[i] == forward[|forward| - 2 - i]
  {
    var n := |forward|;
    var hops := Reverse(forward)[1..] + [source];
    assert forall i :: 0 <= i < n - 1 ==> hops[i] == forward[n - 2 - i];
    if Revisits(forward[..n - 1], source) {
      var i :| 0 <= i < n - 1 && SameNode(forward[i], source);
      assert SameNode(hops[n - 2 - i], hops[n - 1]);
    } else {
      forall i, j | 0 <= i < j < |hops| ensures !SameNode(hops[i], hops[j]) {
        if j == n - 1 {
          assert forward[..n - 1][n - 2 - i] == forward[n - 2 - i];
        } else {
          assert !SameNode(forward[n - 2 - j], forward[n - 2 - i]);
        }
      }
    }
  }

  // Turning the way back round again, at the sender, gives the way there.
  lemma ReturnRouteOfReturnRoute<I>(forward: seq<RouteHop<I>>, source: RouteHop<I>)
    requires Legal(forward) && ReverseFrom(forward, source).Some?
    ensures ReverseFrom(ReverseFrom(forward, source).value, forward[|forward| - 1]) == Some(forward)
  {
    TurnedTwice(forward, source);
  }

  lemma TurnedTwice<I>(forward: seq<RouteHop<I>>, source: RouteHop<I>)
    requires forward != []
    ensures Turned(Turned(forward, source), forward[|forward| - 1]) == forward
  {
  }

  // A sender that is the destination slips through: the route comes back, and ends where it started.
  lemma DestinationAsSender<I>(forward: seq<RouteHop<I>>, source: RouteHop<I>)
    requires Legal(forward)
    requires source.appId == forward[|forward| - 1].appId && source.underlay.id == forward[|forward| - 1].underlay.id
    ensures Revisits(forward, source)
    ensures ReverseFrom(forward, source).Some? && Revisits(ReverseFrom(forward, source).value, forward[|forward| - 1])
  {
    ReturnRoute(forward, source);
    var back := ReverseFrom(forward, source);
    forall i | 0 <= i < |forward| - 1 ensures !SameNode(forward[i], source) {
      assert !SameNode(forward[i], forward[|forward| - 1]);
    }
    assert SameNode(forward[|forward| - 1], source);
    assert SameNode(back.value[|forward| - 1], forward[|forward| - 1]);
  }
}
