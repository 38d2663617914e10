/** The link-vectors heard from other nodes, and the routes they give
    (crates/fofoca-iroh-multihop-transport/src/topology.rs). */
module Topologies {
  import opened Options
  import opened Graphs
  import opened Routes

  // What a node advertises: its own links, and how to dial its underlay endpoint.
  datatype LinkVector<+I> = LinkVector(origin: I, serial: nat, underlay: Address<I>, links: seq<Link<I>>)

  type Table<!I> = map<I, LinkVector<I>>

  ghost predicate Keyed<I>(table: Table<I>) {
    forall o :: o in table ==> table[o].origin == o
  }

  predicate Newer<I(==)>(table: Table<I>, v: LinkVector<I>) {
    v.origin in table ==> table[v.origin].serial < v.serial
  }

  function Ingested<I>(table: Table<I>, v: LinkVector<I>): Table<I> {
    if Newer(table, v) then table[v.origin := v] else table
  }

  function IngestedAll<I>(heard: seq<LinkVector<I>>): Table<I> {
    if heard == [] then map[] else Ingested(IngestedAll(heard[..|heard| - 1]), heard[|heard| - 1])
  }

  ghost predicate HeardFrom<I(!new)>(heard: seq<LinkVector<I>>, o: I) {
    exists v :: v in heard && v.origin == o
  }

  lemma IngestedOneMore<I>(heard: seq<LinkVector<I>>)
    requires heard != []
    ensures IngestedAll(heard) == Ingested(IngestedAll(heard[..|heard| - 1]), heard[|heard| - 1])
  {
  }

  lemma HeardOneMore<I(!new)>(before: seq<LinkVector<I>>, v: LinkVector<I>)
    ensures forall o :: HeardFrom(before + [v], o) <==> HeardFrom(before, o) || v.origin == o
  {
    forall o ensures HeardFrom(before + [v], o) <==> HeardFrom(before, o) || v.origin == o {
      if HeardFrom(before, o) {
        var u :| u in before && u.origin == o;
        assert u in before + [v];
      }
      assert v in before + [v];
    }
  }

  // The table holds the freshest vector heard from each origin, and no other.
  lemma {:induction false} FreshestIsKept<I(!new)>(heard: seq<LinkVector<I>>)
    ensures Keyed(IngestedAll(heard))
    ensures forall o :: o in IngestedAll(heard) <==> HeardFrom(heard, o)
    ensures forall o :: o in IngestedAll(heard) ==> IngestedAll(heard)[o] in heard
    ensures forall v :: v in heard ==> v.origin in IngestedAll(heard) && v.serial <= IngestedAll(heard)[v.origin].serial
  {
    if heard != [] {
      var before, v := heard[..|heard| - 1], heard[|heard| - 1];
      FreshestIsKept(before);
      hide IngestedAll;
      assert heard == before + [v];
      HeardOneMore(before, v);
      assert IngestedAll(heard) == Ingested(IngestedAll(before), v) by {
        IngestedOneMore(heard);
      }
    }
  }

  lemma KeptAt<I(!new)>(heard: seq<LinkVector<I>>, v: LinkVector<I>)
    requires v in heard
    ensures v.origin in IngestedAll(heard) && v.serial <= IngestedAll(heard)[v.origin].serial
  {
    FreshestIsKept(heard);
  }

  lemma KeptWasHeard<I(!new)>(heard: seq<LinkVector<I>>, o: I)
    requires o in IngestedAll(heard)
    ensures IngestedAll(heard)[o] in heard && IngestedAll(heard)[o].origin == o
  {
    FreshestIsKept(heard);
  }

  // No origin gives two vectors one serial.
  ghost predicate OncePerSerial<I(!new)>(heard: seq<LinkVector<I>>) {
    forall v, u :: v in heard && u in heard && v.origin == u.origin && v.serial == u.serial ==> v == u
  }

  lemma SameAt<I(!new)>(one: seq<LinkVector<I>>, other: seq<LinkVector<I>>, o: I)
    requires (forall v :: v in one <==> v in other) && OncePerSerial(one) && o in IngestedAll(one)
    ensures o in IngestedAll(other) && IngestedAll(other)[o] == IngestedAll(one)[o]
  {
    hide IngestedAll;
    KeptWasHeard(one, o);
    KeptAt(other, IngestedAll(one)[o]);
    KeptWasHeard(other, o);
    KeptAt(one, IngestedAll(other)[o]);
  }

  // Whoever hears the same vectors, however often and in whatever order, holds the same table, as long
  // as no origin gives two vectors one serial.
  lemma HearingOrderDoesNotMatter<I(!new)>(one: seq<LinkVector<I>>, other: seq<LinkVector<I>>)
    requires (forall v :: v in one <==> v in other) && OncePerSerial(one)
    ensures IngestedAll(one) == IngestedAll(other)
  {
    hide IngestedAll;
    forall o | o in IngestedAll(one) ensures o in IngestedAll(other) && IngestedAll(other)[o] == IngestedAll(one)[o] {
      SameAt(one, other, o);
    }
    forall o | o in IngestedAll(other) ensures o in IngestedAll(one) {
      SameAt(other, one, o);
    }
  }

  // The links that are usable, in the order they are listed.
  function Usable<I>(links: seq<Link<I>>): seq<Link<I>> {
    if links == [] then []
    else Usable(links[..|links| - 1]) + if links[|links| - 1].cost == INFINITE then [] else [links[|links| - 1]]
  }

  lemma {:induction false} UsableAre<I>(links: seq<Link<I>>)
    ensures forall l :: l in Usable(links) <==> l in links && l.cost != 0xffff_ffff
    decreases |links|
  {
    if links != [] {
      var last := |links| - 1;
      UsableAre(links[..last]);
      assert links == links[..last] + [links[last]];
    }
  }

  function Hops<I(==)>(table: Table<I>, hops: seq<I>): seq<RouteHop<I>>
    requires forall i :: 0 <= i < |hops| ==> hops[i] in table
  {
    seq(|hops|, i requires 0 <= i < |hops| => RouteHop(hops[i], table[hops[i]].underlay))
  }

  // A path with every hop's underlay address looked up, if it makes a legal route.
  function Dialable<I(==)>(table: Table<I>, hops: seq<I>): Option<seq<RouteHop<I>>> {
    if exists i :: 0 <= i < |hops| && hops[i] !in table then None else New(Hops(table, hops))
  }

  function AllDialable<I(==)>(table: Table<I>, paths: seq<Path<I>>): seq<seq<RouteHop<I>>> {
    if paths == [] then []
    else
      var route := Dialable(table, paths[|paths| - 1].hops);
      AllDialable(table, paths[..|paths| - 1]) + if route.Some? then [route.value] else []
  }

  // A path becomes a route exactly when it is short enough, every hop has advertised an address, and no
  // two hops advertised the same endpoint. The route is legal, and visits the path's hops.
  lemma DialableWhen<I(!new)>(adj: Adjacency<I>, table: Table<I>, src: I, dst: I, blocked: set<I>, p: Path<I>)
    requires IsPath(adj, src, dst, blocked, p)
    ensures Dialable(table, p.hops).Some? <==>
            && |p.hops| <= MAX_ROUTE_HOPS && (forall i :: 0 <= i < |p.hops| ==> p.hops[i] in table)
            && forall i, j :: 0 <= i < j < |p.hops| ==> table[p.hops[i]].underlay.id != table[p.hops[j]].underlay.id
    ensures Dialable(table, p.hops).Some? ==>
              var route := Dialable(table, p.hops).value;
              && Legal(route) && |route| == |p.hops| && route[|route| - 1].appId == dst
              && forall i :: 0 <= i < |route| ==> route[i] == RouteHop(p.hops[i], table[p.hops[i]].underlay)
  {
    var walk: seq<Link<I>> :| Admissible(adj, src, dst, blocked, walk) && Nodes(walk) == p.hops &&
        WalkCost(walk) == p.cost;
    assert p.hops[|p.hops| - 1] == dst;
    if forall i :: 0 <= i < |p.hops| ==> p.hops[i] in table {
      var route := Hops(table, p.hops);
      if |p.hops| <= MAX_ROUTE_HOPS {
        if i, j :| 0 <= i < j < |p.hops| && table[p.hops[i]].underlay.id == table[p.hops[j]].underlay.id {
          assert SameNode(route[i], route[j]);
        } else {
          assert Legal(route);
        }
      }
    }
  }

  // Every route is one of the paths, and the paths keep their order.
  lemma {:induction false} RoutesAreThePaths<I(!new)>(table: Table<I>, paths: seq<Path<I>>, k: nat) returns (i: nat)
    requires k < |AllDialable(table, paths)|
    ensures i < |paths| && Dialable(table, paths[i].hops) == Some(AllDialable(table, paths)[k])
    ensures AllDialable(table, paths)[..k] == AllDialable(table, paths[..i])
    decreases |paths|
  {
    var before := paths[..|paths| - 1];
    if k < |AllDialable(table, before)| {
      i := RoutesAreThePaths(table, before, k);
      assert paths[..i] == before[..i];
      assert AllDialable(table, paths)[..k] == AllDialable(table, before)[..k];
    } else {
      i := |paths| - 1;
    }
  }

  // And every path that can be dialled is among them.
  lemma {:induction false} NoneLeftOut<I(!new)>(table: Table<I>, paths: seq<Path<I>>, i: nat) returns (k: nat)
    requires i < |paths| && Dialable(table, paths[i].hops).Some?
    ensures k < |AllDialable(table, paths)| && AllDialable(table, paths)[k] == Dialable(table, paths[i].hops).value
    decreases |paths|
  {
    var before := paths[..|paths| - 1];
    if i < |before| {
      k := NoneLeftOut(table, before, i);
    } else {
      k := |AllDialable(table, before)|;
    }
  }

  class Topology<I(==, !new)> {
    var vectors: Table<I>

    constructor ()
      ensures vectors == map[]
    {
      vectors := map[];
    }

    // Keep a vector if it is newer than what is held from its origin.
    method Ingest(v: LinkVector<I>) returns (changed: bool)
      modifies this
      ensures vectors == Ingested(old(vectors), v)
      ensures changed <==> Newer(old(vectors), v)
      ensures changed <==> v.origin !in old(vectors) || old(vectors)[v.origin].serial < v.serial
      ensures changed ==> v.origin in vectors && vectors[v.origin] == v
      ensures vectors - {v.origin} == old(vectors) - {v.origin} && (!changed ==> vectors == old(vectors))
      ensures Keyed(old(vectors)) ==> Keyed(vectors)
    {
      if v.origin in vectors && vectors[v.origin].serial >= v.serial {
        return false;
      }
      vectors := vectors[v.origin := v];
      return true;
    }

    method Remove(origin: I) returns (removed: bool)
      modifies this
      ensures vectors == old(vectors) - {origin} && (removed <==> origin in old(vectors))
    {
      removed := origin in vectors;
      vectors := vectors - {origin};
    }

    // Fold every vector into one graph. The order the table is walked in leaves no trace.
    method BuildGraph() returns (graph: Graph<I>)
      requires Keyed(vectors)
      ensures fresh(graph)
      ensures forall o :: LinksOf(graph.adj, o) == if o in vectors then Usable(vectors[o].links) else []
      ensures forall o, l :: l in LinksOf(graph.adj, o) <==>
                o in vectors && l in vectors[o].links && l.cost != 0xffff_ffff
    {
      hide Usable;
      graph := new Graph();
      var todo := vectors.Keys;
      while todo != {}
        invariant todo <= vectors.Keys
        invariant fresh(graph)
        invariant forall o :: LinksOf(graph.adj, o) == if o in vectors.Keys - todo then Usable(vectors[o].links) else []
        decreases |todo|
      {
        var o :| o in todo;
        AddLinks(graph, vectors[o]);
        todo := todo - {o};
      }
      forall o | o in vectors ensures forall l :: l in Usable(vectors[o].links) <==> l in vectors[o].links && l.cost != 0xffff_ffff {
        UsableAre(vectors[o].links);
      }
    }

    // Add one node's links to the graph, unusable ones aside.
    method AddLinks(graph: Graph<I>, v: LinkVector<I>)
      modifies graph
      ensures LinksOf(graph.adj, v.origin) == LinksOf(old(graph.adj), v.origin) + Usable(v.links)
      ensures forall n :: n != v.origin ==> LinksOf(graph.adj, n) == LinksOf(old(graph.adj), n)
    {
      for i := 0 to |v.links|
        invariant LinksOf(graph.adj, v.origin) == LinksOf(old(graph.adj), v.origin) + Usable(v.links[..i])
        invariant forall n :: n != v.origin ==> LinksOf(graph.adj, n) == LinksOf(old(graph.adj), n)
      {
        assert v.links[..i + 1][..i] == v.links[..i];
        graph.InsertLink(v.origin, v.links[i].node, v.links[i].cost);
      }
      assert v.links[..|v.links|] == v.links;
    }

    // Up to `maxPaths` routes sharing no interior hop, cheapest first: those of the disjoint paths that
    // can be dialled.
    method RouteTo(src: I, dst: I, maxPaths: nat)
      returns (routes: seq<seq<RouteHop<I>>>, ghost adj: Adjacency<I>, ghost paths: seq<Path<I>>)
      requires Keyed(vectors)
      ensures forall o :: LinksOf(adj, o) == if o in vectors then Usable(vectors[o].links) else []
      ensures |paths| <= maxPaths && (src != dst ==> Greedy(adj, src, dst, paths))
      ensures routes == AllDialable(vectors, paths)
      ensures src != dst ==> forall k :: 0 <= k < |routes| ==> Legal(routes[k]) && routes[k][|routes[k]| - 1].appId == dst
      ensures src != dst ==>
                forall k, l, a, b :: 0 <= k < l < |routes| && 0 <= a < |routes[k]| - 1 && 0 <= b < |routes[l]| - 1 ==>
                  routes[k][a].appId != routes[l][b].appId
    {
      hide Greedy, Dialable, AllDialable, Legal, Usable, LinksOf;
      var graph := BuildGraph();
      adj := graph.adj;
      var found := graph.DisjointPaths(src, dst, maxPaths);
      paths := found;
      routes := [];
      NoPaths();
      for i := 0 to |found|
        invariant routes == AllDialable(vectors, found[..i])
      {
        OneMorePath(found, i);
        var hops := Dialable(vectors, found[i].hops);
        if hops.Some? {
          routes := routes + [hops.value];
        }
      }
      assert found[..|found|] == found;
      if src != dst {
        RoutesAreLegal(adj, src, dst, paths);
        RoutesAreDisjoint(adj, src, dst, paths);
      }
    }

    lemma NoPaths()
      ensures AllDialable(vectors, []) == []
    {
    }

    lemma OneMorePath(paths: seq<Path<I>>, i: nat)
      requires i < |paths|
      ensures var route := Dialable(vectors, paths[i].hops);
              AllDialable(vectors, paths[..i + 1]) == AllDialable(vectors, paths[..i]) + if route.Some?
                  then [route.value] else []
    {
      assert paths[..i + 1][..i] == paths[..i];
    }

    // No two routes share a hop but the last.
    lemma RoutesAreDisjoint(adj: Adjacency<I>, src: I, dst: I, paths: seq<Path<I>>)
      requires Greedy(adj, src, dst, paths)
      ensures var routes := AllDialable(vectors, paths);
              forall k, l, a, b :: 0 <= k < l < |routes| && 0 <= a < |routes[k]| - 1 && 0 <= b < |routes[l]| - 1 ==>
                routes[k][a].appId != routes[l][b].appId
    {
      hide IsPath, IsCheapest, Dialable, AllDialable, Interiors;
      var routes: seq<seq<RouteHop<I>>> := AllDialable(vectors, paths);
      forall k, l, a, b | 0 <= k < l < |routes| && 0 <= a < |routes[k]| - 1 && 0 <= b < |routes[l]| - 1
        ensures routes[k][a].appId != routes[l][b].appId
      {
        var j := RoutesAreThePaths(vectors, paths, l);
        assert routes[..l][k] == routes[k];
        var i := RoutesAreThePaths(vectors, paths[..j], k);
        assert paths[..j][i] == paths[i];
        GreedyOverHops(adj, src, dst, paths);
        RouteHops(adj, src, dst, paths, i);
        RouteHops(adj, src, dst, paths, j);
      }
    }

    // A path's route visits its hops.
    lemma RouteHops(adj: Adjacency<I>, src: I, dst: I, paths: seq<Path<I>>, i: nat)
      requires Greedy(adj, src, dst, paths) && i < |paths| && Dialable(vectors, paths[i].hops).Some?
      ensures var route := Dialable(vectors, paths[i].hops).value;
              |route| == |paths[i].hops| && forall m :: 0 <= m < |route| ==> route[m].appId == paths[i].hops[m]
    {
      hide IsPath, Dialable;
      DialableWhen(adj, vectors, src, dst, Interiors(paths[..i]), paths[i]);
    }

    lemma RoutesAreLegal(adj: Adjacency<I>, src: I, dst: I, paths: seq<Path<I>>)
      requires Greedy(adj, src, dst, paths)
      ensures var routes := AllDialable(vectors, paths);
              forall k :: 0 <= k < |routes| ==> Legal(routes[k]) && routes[k][|routes[k]| - 1].appId == dst
    {
      hide Legal, IsPath, IsCheapest, Dialable, AllDialable, Interiors;
      forall k | 0 <= k < |AllDialable(vectors, paths)|
        ensures Legal(AllDialable(vectors, paths)[k])
        ensures var route := AllDialable(vectors, paths)[k]; route != [] && route[|route| - 1].appId == dst
      {
        var i := RoutesAreThePaths(vectors, paths, k);
        DialableWhen(adj, vectors, src, dst, Interiors(paths[..i]), paths[i]);
      }
    }
  }
}
