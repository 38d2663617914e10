/** The link-state graph and the source-route computation over it
    (crates/fofoca-iroh-multihop-transport/src/graph.rs, .../src/metric.rs). */
module Graphs {
  import opened Options
  import opened Collections

  // A link or path cost: an unsigned 32-bit number whose largest value marks an unusable link.
  const U32_MAX: nat := 0xffff_ffff
  const INFINITE: Cost := U32_MAX

  type Cost = c: nat | c <= U32_MAX

  // Costs add up without wrapping.
  function Add(a: Cost, b: Cost): Cost {
    if a + b <= U32_MAX then a + b else U32_MAX
  }

  // A link as one node lists it: the neighbour and the cost of getting there.
  datatype Link<+N> = Link(node: N, cost: Cost)

  type Adjacency<!N> = map<N, seq<Link<N>>>

  datatype Path<+N> = Path(hops: seq<N>, cost: Cost)

  // ---- Walks: what a path has to be, and cost ----

  function LinksOf<N>(adj: Adjacency<N>, n: N): seq<Link<N>> {
    if n in adj then adj[n] else []
  }

  // `walk` follows links of the graph from `src`; parallel links count as different steps.
  ghost predicate IsWalk<N>(adj: Adjacency<N>, src: N, walk: seq<Link<N>>) {
    walk == [] ||
    (walk[|walk| - 1] in LinksOf(adj, End(src, walk[..|walk| - 1])) && IsWalk(adj, src, walk[..|walk| - 1]))
  }

  function End<N>(src: N, walk: seq<Link<N>>): N {
    if walk == [] then src else walk[|walk| - 1].node
  }

  ghost function WalkCost<N>(walk: seq<Link<N>>): Cost {
    if walk == [] then 0 else Add(WalkCost(walk[..|walk| - 1]), walk[|walk| - 1].cost)
  }

  function Total<N>(walk: seq<Link<N>>): nat {
    if walk == [] then 0 else Total(walk[..|walk| - 1]) + walk[|walk| - 1].cost
  }

  // A walk costs the sum of its links, or the ceiling if that is more.
  lemma {:induction false} WalkCostSaturates<N>(walk: seq<Link<N>>)
    ensures WalkCost(walk) == if Total(walk) <= U32_MAX then Total(walk) else U32_MAX
  {
    if walk != [] {
      WalkCostSaturates(walk[..|walk| - 1]);
    }
  }

  // Everything a walk passes through is allowed: the destination always is.
  ghost predicate Avoids<N>(walk: seq<Link<N>>, dst: N, blocked: set<N>) {
    forall l :: l in walk ==> l.node == dst || l.node !in blocked
  }

  ghost predicate Admissible<N>(adj: Adjacency<N>, src: N, dst: N, blocked: set<N>, walk: seq<Link<N>>) {
    walk != [] && IsWalk(adj, src, walk) && End(src, walk) == dst && Avoids(walk, dst, blocked)
  }

  function Nodes<N>(walk: seq<Link<N>>): seq<N> {
    seq(|walk|, i requires 0 <= i < |walk| => walk[i].node)
  }

  // A simple path of real links, admissible, at the given cost.
  ghost predicate IsPath<N(!new)>(adj: Adjacency<N>, src: N, dst: N, blocked: set<N>, p: Path<N>) {
    && (exists walk :: Admissible(adj, src, dst, blocked, walk) && Nodes(walk) == p.hops && WalkCost(walk) == p.cost)
    && src !in p.hops
    && forall i, j :: 0 <= i < j < |p.hops| ==> p.hops[i] != p.hops[j]
  }

  // No admissible walk costs less.
  ghost predicate IsCheapest<N(!new)>(adj: Adjacency<N>, src: N, dst: N, blocked: set<N>, cost: Cost) {
    forall walk :: Admissible(adj, src, dst, blocked, walk) ==> cost <= WalkCost(walk)
  }

  ghost predicate Reachable<N(!new)>(adj: Adjacency<N>, src: N, dst: N, blocked: set<N>) {
    exists walk :: Admissible(adj, src, dst, blocked, walk)
  }

  // ---- What the search has found out so far ----

  datatype Entry<+N> = Entry(cost: Cost, node: N)

  // Position of a settled node, or the end.
  function Rank<N(==)>(settled: seq<N>, n: N): (r: nat)
    ensures r <= |settled|
    ensures r < |settled| <==> n in settled
    ensures r < |settled| ==> settled[r] == n
  {
    if settled == [] || settled[0] == n then 0 else 1 + Rank(settled[1..], n)
  }

  lemma {:induction false} RankOfAppended<N>(settled: seq<N>, x: N, n: N)
    requires x !in settled
    ensures Rank(settled + [x], n) == if n in settled then Rank(settled, n) else if n == x then |settled|
        else |settled| + 1
  {
    if settled != [] {
      assert (settled + [x])[1..] == settled[1..] + [x];
      RankOfAppended(settled[1..], x, n);
    }
  }

  // `prev` makes the known nodes a tree of real, admissible links rooted at `src`: every node hangs
  // off one settled before it, at exactly its known cost.
  ghost predicate Tree<N>(adj: Adjacency<N>, src: N, dst: N, blocked: set<N>, best: map<N, Cost>, prev: map<N, N>,
                          settled: seq<N>) {
    && src in best && best[src] == 0
    && prev.Keys == best.Keys - {src}
    && (forall n :: n in settled ==> n in best)
    && forall n :: n in prev ==> Hangs(adj, dst, blocked, best, prev, settled, n)
  }

  ghost predicate Hangs<N>(adj: Adjacency<N>, dst: N, blocked: set<N>, best: map<N, Cost>, prev: map<N, N>,
                           settled: seq<N>, n: N)
    requires n in prev
  {
    && n in best && prev[n] in best && prev[n] in settled
    && Rank(settled, prev[n]) < Rank(settled, n)
    && (n == dst || n !in blocked)
    && exists w: Cost :: Link(n, w) in LinksOf(adj, prev[n]) && best[n] == Add(best[prev[n]], w)
  }

  // The walk the tree gives for a known node.
  ghost function TreeWalk<N>(adj: Adjacency<N>, src: N, dst: N, blocked: set<N>, best: map<N, Cost>, prev: map<N, N>,
                             settled: seq<N>, n: N): seq<Link<N>>
    requires Tree(adj, src, dst, blocked, best, prev, settled) && n in best
    decreases Rank(settled, n)
  {
    if n == src then []
    else
      assert n in prev && Hangs(adj, dst, blocked, best, prev, settled, n);
      var w: Cost :| Link(n, w) in LinksOf(adj, prev[n]) && best[n] == Add(best[prev[n]], w);
      TreeWalk(adj, src, dst, blocked, best, prev, settled, prev[n]) + [Link(n, w)]
  }

  lemma WalkGrows<N>(adj: Adjacency<N>, src: N, walk: seq<Link<N>>, l: Link<N>)
    requires IsWalk(adj, src, walk) && l in LinksOf(adj, End(src, walk))
    ensures IsWalk(adj, src, walk + [l]) && End(src, walk + [l]) == l.node
    ensures WalkCost(walk + [l]) == Add(WalkCost(walk), l.cost)
  {
  }

  // It is a simple admissible path of real links, costs what is known, and visits nodes in the order
  // they were settled.
  lemma {:induction false} TreeWalkIsPath<N>(adj: Adjacency<N>, src: N, dst: N, blocked: set<N>, best: map<N, Cost>,
                                             prev: map<N, N>, settled: seq<N>, n: N)
    requires Tree(adj, src, dst, blocked, best, prev, settled) && n in best
    ensures var walk := TreeWalk(adj, src, dst, blocked, best, prev, settled, n);
            && IsWalk(adj, src, walk) && End(src, walk) == n && Avoids(walk, dst, blocked)
            && WalkCost(walk) == best[n]
    decreases Rank(settled, n)
  {
    hide IsWalk, WalkCost, Rank;
    if n != src {
      assert Hangs(adj, dst, blocked, best, prev, settled, n);
      TreeWalkIsPath(adj, src, dst, blocked, best, prev, settled, prev[n]);
      var walk := TreeWalk(adj, src, dst, blocked, best, prev, settled, n);
      var before := TreeWalk(adj, src, dst, blocked, best, prev, settled, prev[n]);
      assert walk == before + [walk[|before|]];
      WalkGrows(adj, src, before, walk[|before|]);
    } else {
      EmptyWalk(adj, src);
    }
  }

  lemma EmptyWalk<N>(adj: Adjacency<N>, src: N)
    ensures IsWalk(adj, src, []) && WalkCost<N>([]) == 0
  {
  }

  // The nodes of a walk come in the order they were settled, none later than `bound`.
  ghost predicate Ordered<N>(src: N, settled: seq<N>, walk: seq<Link<N>>, bound: nat) {
    && (forall i :: 0 <= i < |walk| ==> walk[i].node != src && Rank(settled, walk[i].node) <= bound)
    && forall i, j :: 0 <= i < j < |walk| ==> Rank(settled, walk[i].node) < Rank(settled, walk[j].node)
  }

  lemma {:induction false} TreeWalkIsOrdered<N>(adj: Adjacency<N>, src: N, dst: N, blocked: set<N>,
                                                best: map<N, Cost>, prev: map<N, N>, settled: seq<N>, n: N)
    requires Tree(adj, src, dst, blocked, best, prev, settled) && n in best
    ensures Ordered(src, settled, TreeWalk(adj, src, dst, blocked, best, prev, settled, n), Rank(settled, n))
    decreases Rank(settled, n)
  {
    if n != src {
      assert Hangs(adj, dst, blocked, best, prev, settled, n);
      TreeWalkIsOrdered(adj, src, dst, blocked, best, prev, settled, prev[n]);
      var walk := TreeWalk(adj, src, dst, blocked, best, prev, settled, n);
      var before := TreeWalk(adj, src, dst, blocked, best, prev, settled, prev[n]);
      assert walk == before + [walk[|before|]] && walk[|before|].node == n;
      OrderedGrows(src, settled, before, Rank(settled, prev[n]), walk[|before|]);
    }
  }

  lemma OrderedGrows<N>(src: N, settled: seq<N>, walk: seq<Link<N>>, bound: nat, l: Link<N>)
    requires Ordered(src, settled, walk, bound) && l.node != src && bound < Rank(settled, l.node)
    ensures Ordered(src, settled, walk + [l], Rank(settled, l.node))
  {
  }

  // The heap holds exactly one live entry for every known node still to be expanded, and nothing but
  // superseded entries besides; nothing in it is cheaper than what has been expanded.
  ghost predicate Frontier<N>(best: map<N, Cost>, heap: multiset<Entry<N>>, settled: seq<N>) {
    && (forall n :: n in best ==> heap[Entry(best[n], n)] == if n in settled then 0 else 1)
    && (forall e :: e in heap ==> e.node in best && best[e.node] <= e.cost)
    && forall n, e :: n in settled && e in heap ==> n in best && best[n] <= e.cost
  }

  // The first `count` links of `n` have been followed.
  ghost predicate Followed<N>(adj: Adjacency<N>, dst: N, blocked: set<N>, best: map<N, Cost>, n: N, count: nat)
    requires n in best
  {
    forall i :: 0 <= i < |LinksOf(adj, n)| && i < count ==>
      var l := LinksOf(adj, n)[i];
      l.node == dst || l.node !in blocked ==> l.node in best && best[l.node] <= Add(best[n], l.cost)
  }

  ghost predicate AllFollowed<N>(adj: Adjacency<N>, dst: N, blocked: set<N>, best: map<N, Cost>, settled: seq<N>) {
    forall n :: n in settled ==> n in best && Followed(adj, dst, blocked, best, n, |LinksOf(adj, n)|)
  }

  // A walk either stays among the expanded nodes, at no more than its cost, or has met a known node
  // still to be expanded, at no more than its cost.
  lemma {:induction false} WalkMeetsFrontier<N>(adj: Adjacency<N>, src: N, dst: N, blocked: set<N>,
                                                best: map<N, Cost>, prev: map<N, N>,
                                                settled: seq<N>, walk: seq<Link<N>>) returns (v: N)
    requires Tree(adj, src, dst, blocked, best, prev, settled) && AllFollowed(adj, dst, blocked, best, settled)
    requires IsWalk(adj, src, walk) && Avoids(walk, dst, blocked)
    ensures v in best && best[v] <= WalkCost(walk)
    ensures v !in settled || v == End(src, walk)
    decreases |walk|
  {
    if walk == [] {
      return src;
    }
    var before, l := walk[..|walk| - 1], walk[|walk| - 1];
    v := WalkMeetsFrontier(adj, src, dst, blocked, best, prev, settled, before);
    if v in settled {
      assert Followed(adj, dst, blocked, best, v, |LinksOf(adj, v)|);
      var i :| 0 <= i < |LinksOf(adj, v)| && LinksOf(adj, v)[i] == l;
      v := l.node;
    }
  }

  lemma {:induction false} LeastExists<N>(heap: multiset<Entry<N>>) returns (e: Entry<N>)
    requires heap != multiset{}
    ensures e in heap && forall f :: f in heap ==> e.cost <= f.cost
    decreases |heap|
  {
    e :| e in heap;
    var rest := heap - multiset{e};
    assert forall f :: f in heap ==> f == e || f in rest;
    if rest != multiset{} {
      var least := LeastExists(rest);
      if least.cost < e.cost {
        e := least;
      }
    }
  }

  // Every node the graph and the source can name.
  ghost function Universe<N>(adj: Adjacency<N>, src: N): set<N> {
    {src} + (set n, i | n in adj && 0 <= i < |adj[n]| :: adj[n][i].node)
  }

  // Everything the search relies on, the first `count` links of `node` having been followed.
  ghost predicate Expanding<N>(adj: Adjacency<N>, src: N, dst: N, blocked: set<N>, best: map<N, Cost>, prev: map<N, N>,
                               heap: multiset<Entry<N>>, settled: seq<N>, node: N, count: nat) {
    && Tree(adj, src, dst, blocked, best, prev, settled + [node])
    && Frontier(best, heap, settled + [node])
    && AllFollowed(adj, dst, blocked, best, settled)
    && node !in settled && node in best && Followed(adj, dst, blocked, best, node, count)
    && best.Keys <= Universe(adj, src)
    && (forall n :: n in settled ==> n in best && best[n] <= best[node])
  }

  // A node just popped, live and cheapest, may be expanded.
  lemma StartExpanding<N>(adj: Adjacency<N>, src: N, dst: N, blocked: set<N>, best: map<N, Cost>, prev: map<N, N>,
                          heap: multiset<Entry<N>>, settled: seq<N>, e: Entry<N>)
    requires Searching(adj, src, dst, blocked, best, prev, heap, settled)
    requires e in heap && (forall f :: f in heap ==> e.cost <= f.cost) && best[e.node] == e.cost
    ensures Expanding(adj, src, dst, blocked, best, prev, heap - multiset{e}, settled, e.node, 0)
  {
    forall n | n in prev ensures Hangs(adj, dst, blocked, best, prev, settled + [e.node], n) {
      assert Hangs(adj, dst, blocked, best, prev, settled, n);
      RankOfAppended(settled, e.node, n);
      RankOfAppended(settled, e.node, prev[n]);
    }
  }

  // Following a link that improves on what is known.
  lemma ImprovingKeeps<N>(adj: Adjacency<N>, src: N, dst: N, blocked: set<N>, best: map<N, Cost>, prev: map<N, N>,
                          heap: multiset<Entry<N>>, settled: seq<N>, node: N, count: nat)
    requires Expanding(adj, src, dst, blocked, best, prev, heap, settled, node, count)
    requires count < |LinksOf(adj, node)|
    requires var l := LinksOf(adj, node)[count];
             && (l.node == dst || l.node !in blocked)
             && (l.node in best ==> Add(best[node], l.cost) < best[l.node])
    ensures var l := LinksOf(adj, node)[count];
            var cost := Add(best[node], l.cost);
            Expanding(adj, src, dst, blocked, best[l.node := cost], prev[l.node := node],
                      heap + multiset{Entry(cost, l.node)}, settled, node, count + 1)
  {
    hide Rank, Hangs, Tree, Frontier, AllFollowed, Followed;
    var l := LinksOf(adj, node)[count];
    var v, cost, done := l.node, Add(best[node], l.cost), settled + [node];
    ImprovedIsNew(adj, src, dst, blocked, best, prev, heap, done, node, v, cost);
    TreeImproves(adj, src, dst, blocked, best, prev, done, node, l);
    FrontierImproves(best, heap, done, v, cost);
    FollowedImproves(adj, dst, blocked, best, settled, node, count);
    assert v in Universe(adj, src);
  }

  // A node whose known cost can still drop has not been expanded, nor is it the source.
  lemma ImprovedIsNew<N>(adj: Adjacency<N>, src: N, dst: N, blocked: set<N>, best: map<N, Cost>, prev: map<N, N>,
                         heap: multiset<Entry<N>>, done: seq<N>, node: N, v: N, cost: Cost)
    requires Tree(adj, src, dst, blocked, best, prev, done)
    requires node in best && best[node] <= cost && (v in best ==> cost < best[v])
    requires forall n :: n in done ==> n in best && best[n] <= best[node]
    ensures v !in done && v != src
  {
  }

  lemma TreeImproves<N>(adj: Adjacency<N>, src: N, dst: N, blocked: set<N>, best: map<N, Cost>, prev: map<N, N>,
                        done: seq<N>, node: N, l: Link<N>)
    requires Tree(adj, src, dst, blocked, best, prev, done) && node in done && l.node !in done && l.node != src
    requires l in LinksOf(adj, node) && (l.node == dst || l.node !in blocked)
    ensures node in best
    ensures Tree(adj, src, dst, blocked, best[l.node := Add(best[node], l.cost)], prev[l.node := node], done)
  {
  }

  lemma FrontierImproves<N>(best: map<N, Cost>, heap: multiset<Entry<N>>, done: seq<N>, v: N, cost: Cost)
    requires Frontier(best, heap, done) && v !in done && (v in best ==> cost < best[v])
    requires forall n :: n in done ==> n in best && best[n] <= cost
    ensures Frontier(best[v := cost], heap + multiset{Entry(cost, v)}, done)
  {
  }

  lemma FollowedImproves<N>(adj: Adjacency<N>, dst: N, blocked: set<N>, best: map<N, Cost>, settled: seq<N>, node: N,
                            count: nat)
    requires AllFollowed(adj, dst, blocked, best, settled) && node in best &&
        Followed(adj, dst, blocked, best, node, count)
    requires count < |LinksOf(adj, node)| && LinksOf(adj, node)[count].node !in settled + [node]
    requires var l := LinksOf(adj, node)[count]; l.node in best ==> Add(best[node], l.cost) < best[l.node]
    ensures var l := LinksOf(adj, node)[count];
            var best' := best[l.node := Add(best[node], l.cost)];
            AllFollowed(adj, dst, blocked, best', settled) && Followed(adj, dst, blocked, best', node, count + 1)
  {
  }

  // A node all of whose links have been followed is settled.
  lemma FinishExpanding<N>(adj: Adjacency<N>, src: N, dst: N, blocked: set<N>, best: map<N, Cost>, prev: map<N, N>,
                           heap: multiset<Entry<N>>, settled: seq<N>, node: N)
    requires Expanding(adj, src, dst, blocked, best, prev, heap, settled, node, |LinksOf(adj, node)|)
    ensures Searching(adj, src, dst, blocked, best, prev, heap, settled + [node])
    ensures Unsettled(adj, src, settled + [node]) < Unsettled(adj, src, settled)
  {
    assert node in Unsettled(adj, src, settled) && node !in Unsettled(adj, src, settled + [node]);
  }

  // A superseded entry can be thrown away.
  lemma DroppingStale<N>(adj: Adjacency<N>, src: N, dst: N, blocked: set<N>, best: map<N, Cost>, prev: map<N, N>,
                         heap: multiset<Entry<N>>, settled: seq<N>, e: Entry<N>)
    requires Searching(adj, src, dst, blocked, best, prev, heap, settled) && e in heap
    ensures e.node in best
    ensures best[e.node] < e.cost ==>
              Searching(adj, src, dst, blocked, best, prev, heap - multiset{e}, settled) &&
                  |heap - multiset{e}| < |heap|
    ensures best[e.node] >= e.cost ==> best[e.node] == e.cost
  {
  }

  // What holds between two pops.
  ghost predicate Searching<N>(adj: Adjacency<N>, src: N, dst: N, blocked: set<N>, best: map<N, Cost>, prev: map<N, N>,
                               heap: multiset<Entry<N>>, settled: seq<N>) {
    && Tree(adj, src, dst, blocked, best, prev, settled) && Frontier(best, heap, settled)
    && AllFollowed(adj, dst, blocked, best, settled)
    && best.Keys <= Universe(adj, src)
  }

  ghost function Unsettled<N>(adj: Adjacency<N>, src: N, settled: seq<N>): set<N> {
    Universe(adj, src) - (set n | n in settled)
  }

  lemma SearchBegins<N>(adj: Adjacency<N>, src: N, dst: N, blocked: set<N>)
    ensures Searching(adj, src, dst, blocked, map[src := 0], map[], multiset{Entry(0, src)}, [])
  {
  }

  // The destination, popped cheapest, is at its final cost, and no walk gets there for less.
  lemma PoppedIsCheapest<N(!new)>(adj: Adjacency<N>, src: N, dst: N, blocked: set<N>, best: map<N, Cost>,
                           prev: map<N, N>,
                                  heap: multiset<Entry<N>>, settled: seq<N>, e: Entry<N>)
    requires Searching(adj, src, dst, blocked, best, prev, heap, settled) && dst !in settled
    requires e in heap && e.node == dst && forall f :: f in heap ==> e.cost <= f.cost
    ensures Tree(adj, src, dst, blocked, best, prev, settled)
    ensures dst in best && e.cost == best[dst] && IsCheapest(adj, src, dst, blocked, e.cost)
  {
    assert Entry(best[dst], dst) in heap;
    forall walk | Admissible(adj, src, dst, blocked, walk) ensures e.cost <= WalkCost(walk) {
      var v := WalkMeetsFrontier(adj, src, dst, blocked, best, prev, settled, walk);
      assert Entry(best[v], v) in heap;
    }
  }

  // With nothing left to expand, no admissible walk to the destination exists.
  lemma ExhaustedIsUnreachable<N(!new)>(adj: Adjacency<N>, src: N, dst: N, blocked: set<N>, best: map<N, Cost>,
                                 prev: map<N, N>, settled: seq<N>)
    requires Searching(adj, src, dst, blocked, best, prev, multiset{}, settled) && dst !in settled
    ensures !Reachable(adj, src, dst, blocked)
  {
    forall walk | Admissible(adj, src, dst, blocked, walk) ensures false {
      var _ := WalkMeetsFrontier(adj, src, dst, blocked, best, prev, settled, walk);
    }
  }

  // The hops of the tree's walk, read back from `n`.
  lemma HopsOf<N>(adj: Adjacency<N>, src: N, dst: N, blocked: set<N>, best: map<N, Cost>, prev: map<N, N>,
                  settled: seq<N>, n: N)
    requires Tree(adj, src, dst, blocked, best, prev, settled) && n in best && n != src
    ensures n in prev && prev[n] in best && Rank(settled, prev[n]) < Rank(settled, n)
    ensures Nodes(TreeWalk(adj, src, dst, blocked, best, prev, settled, n))
         == Nodes(TreeWalk(adj, src, dst, blocked, best, prev, settled, prev[n])) + [n]
  {
  }

  // The hops a path shares with no other: all but the destination.
  function Interior<N>(p: Path<N>): set<N> {
    set i | 0 <= i < |p.hops| - 1 :: p.hops[i]
  }

  function Interiors<N>(paths: seq<Path<N>>): set<N> {
    if paths == [] then {} else Interiors(paths[..|paths| - 1]) + Interior(paths[|paths| - 1])
  }

  // Each path is the cheapest of those that avoid the interiors of all earlier ones.
  ghost predicate Greedy<N(!new)>(adj: Adjacency<N>, src: N, dst: N, paths: seq<Path<N>>) {
    forall i :: 0 <= i < |paths| ==>
      IsPath(adj, src, dst, Interiors(paths[..i]), paths[i]) &&
          IsCheapest(adj, src, dst, Interiors(paths[..i]), paths[i].cost)
  }

  lemma {:induction false} InteriorsGrow<N>(paths: seq<Path<N>>, i: nat)
    requires i <= |paths|
    ensures Interiors(paths[..i]) <= Interiors(paths)
    ensures i < |paths| ==> Interior(paths[i]) <= Interiors(paths)
    decreases |paths|
  {
    if i < |paths| {
      InteriorsGrow(paths[..|paths| - 1], i);
      assert paths[..|paths| - 1][..i] == paths[..i];
    } else {
      assert paths[..i] == paths;
    }
  }

  // A path's interior keeps clear of what it had to avoid.
  lemma InteriorAvoids<N(!new)>(adj: Adjacency<N>, src: N, dst: N, blocked: set<N>, p: Path<N>)
    requires IsPath(adj, src, dst, blocked, p)
    ensures Interior(p) !! blocked
  {
    var walk: seq<Link<N>> :| Admissible(adj, src, dst, blocked, walk) && Nodes(walk) == p.hops &&
        WalkCost(walk) == p.cost;
    hide IsWalk, WalkCost;
    var last := |p.hops| - 1;
    assert walk[last].node == p.hops[last] == dst;
    forall k | 0 <= k < last ensures p.hops[k] !in blocked {
      assert walk[k].node == p.hops[k] && walk[k] in walk && p.hops[k] != p.hops[last];
    }
  }

  // Having to avoid more makes no path cheaper.
  lemma AvoidingMoreCostsMore<N(!new)>(adj: Adjacency<N>, src: N, dst: N, fewer: set<N>, more: set<N>, cost: Cost,
                                p: Path<N>)
    requires fewer <= more && IsCheapest(adj, src, dst, fewer, cost) && IsPath(adj, src, dst, more, p)
    ensures cost <= p.cost
  {
  }

  // Paths chosen one after another like that share no interior hop and come cheapest first.
  lemma GreedyIsDisjoint<N(!new)>(adj: Adjacency<N>, src: N, dst: N, paths: seq<Path<N>>, i: nat, j: nat)
    requires Greedy(adj, src, dst, paths) && i < j < |paths|
    ensures Interior(paths[i]) !! Interior(paths[j])
    ensures paths[i].cost <= paths[j].cost
  {
    hide IsPath, IsCheapest, Interior;
    InteriorsGrow(paths[..j], i);
    assert paths[..j][..i] == paths[..i];
    InteriorAvoids(adj, src, dst, Interiors(paths[..j]), paths[j]);
    AvoidingMoreCostsMore(adj, src, dst, Interiors(paths[..i]), Interiors(paths[..j]), paths[i].cost, paths[j]);
  }

  // ---- The same, hop by hop ----

  ghost predicate LeadsTo<N>(adj: Adjacency<N>, src: N, dst: N, walk: seq<Link<N>>) {
    walk != [] && IsWalk(adj, src, walk) && walk[|walk| - 1].node == dst
  }

  // A walk that passes through no hop of the first `i` paths but their destination.
  ghost predicate IsClear<N>(paths: seq<Path<N>>, i: nat, dst: N, walk: seq<Link<N>>)
    requires i <= |paths|
  {
    forall l, k, m :: l in walk && l.node != dst && 0 <= k < i && 0 <= m < |paths[k].hops| - 1 ==>
      l.node != paths[k].hops[m]
  }

  // The hops to be avoided are those of the paths chosen, all but the last of each.
  lemma {:induction false} InteriorsAre<N>(paths: seq<Path<N>>, n: N)
    ensures n in Interiors(paths) <==> exists k, m :: 0 <= k < |paths| && 0 <= m < |paths[k].hops| - 1 && paths[k].hops[m] == n
    decreases |paths|
  {
    if paths != [] {
      var last := |paths| - 1;
      InteriorsAre(paths[..last], n);
      if n in Interior(paths[last]) {
        var m :| 0 <= m < |paths[last].hops| - 1 && paths[last].hops[m] == n;
      }
      if k, m :| 0 <= k < |paths| && 0 <= m < |paths[k].hops| - 1 && paths[k].hops[m] == n {
        assert k < last ==> paths[..last][k] == paths[k];
      }
    }
  }

  // A walk is admissible exactly if it is clear of the paths chosen.
  lemma ClearIsAdmissible<N>(adj: Adjacency<N>, src: N, dst: N, paths: seq<Path<N>>, i: nat, walk: seq<Link<N>>)
    requires i <= |paths|
    ensures Admissible(adj, src, dst, Interiors(paths[..i]), walk) <==>
              LeadsTo(adj, src, dst, walk) && IsClear(paths, i, dst, walk)
  {
    hide IsWalk, Interiors;
    forall l | l in walk
      ensures l.node !in Interiors(paths[..i]) <==>
                forall k, m :: 0 <= k < i && 0 <= m < |paths[k].hops| - 1 ==> l.node != paths[k].hops[m]
    {
      InteriorsAre(paths[..i], l.node);
      if k, m :| 0 <= k < i && 0 <= m < |paths[k].hops| - 1 && l.node == paths[k].hops[m] {
        assert paths[..i][k] == paths[k];
      }
    }
  }

  lemma GreedyOverHops<N(!new)>(adj: Adjacency<N>, src: N, dst: N, paths: seq<Path<N>>)
    requires Greedy(adj, src, dst, paths)
    ensures forall i, j, a, b :: 0 <= i < j < |paths| && 0 <= a < |paths[i].hops| - 1 && 0 <= b < |paths[j].hops| - 1 ==>
              paths[i].hops[a] != paths[j].hops[b]
    ensures forall i, walk :: 0 <= i < |paths| && LeadsTo(adj, src, dst, walk) && IsClear(paths, i, dst, walk) ==>
              paths[i].cost <= WalkCost(walk)
    ensures (paths != [] ==> paths[|paths| - 1].hops != [] && (Interior(paths[|paths| - 1]) == {} ==> |paths[|paths| - 1].hops| == 1))
    ensures !Reachable(adj, src, dst, Interiors(paths)) ==>
              forall walk :: LeadsTo(adj, src, dst, walk) ==> !IsClear(paths, |paths|, dst, walk)
  {
    forall i, j, a, b | 0 <= i < j < |paths| && 0 <= a < |paths[i].hops| - 1 && 0 <= b < |paths[j].hops| - 1
      ensures paths[i].hops[a] != paths[j].hops[b]
    {
      GreedyIsDisjoint(adj, src, dst, paths, i, j);
      assert paths[i].hops[a] in Interior(paths[i]) && paths[j].hops[b] in Interior(paths[j]);
    }
    forall i, walk | 0 <= i < |paths| && LeadsTo(adj, src, dst, walk) && IsClear(paths, i, dst, walk)
      ensures paths[i].cost <= WalkCost(walk)
    {
      ClearIsAdmissible(adj, src, dst, paths, i, walk);
    }
    if paths != [] {
      PathHasHops(adj, src, dst, Interiors(paths[..|paths| - 1]), paths[|paths| - 1]);
    }
    assert paths[..|paths|] == paths;
    forall walk | LeadsTo(adj, src, dst, walk) && IsClear(paths, |paths|, dst, walk)
      ensures Reachable(adj, src, dst, Interiors(paths))
    {
      ClearIsAdmissible(adj, src, dst, paths, |paths|, walk);
    }
  }

  lemma PathHasHops<N(!new)>(adj: Adjacency<N>, src: N, dst: N, blocked: set<N>, p: Path<N>)
    requires IsPath(adj, src, dst, blocked, p)
    ensures p.hops != [] && (Interior(p) == {} ==> |p.hops| == 1)
  {
    assert |p.hops| > 1 ==> p.hops[0] in Interior(p);
  }

  class Graph<N(==, !new)> {
    var adj: Adjacency<N>

    constructor ()
      ensures adj == map[]
    {
      adj := map[];
    }

    // Append a link, unless its cost says it cannot be used.
    method InsertLink(from: N, to: N, cost: Cost)
      modifies this
      ensures adj == if cost == INFINITE then old(adj) else old(adj)[from := LinksOf(old(adj), from) + [Link(to, cost)]]
    {
      if cost != INFINITE {
        adj := adj[from := LinksOf(adj, from) + [Link(to, cost)]];
      }
    }

    // The cheapest path that treats every node in `blocked` as absent, the destination excepted.
    method ShortestPathAvoiding(src: N, dst: N, blocked: set<N>) returns (r: Option<Path<N>>)
      ensures src == dst ==> r == Some(Path([dst], 0))
      ensures src != dst ==> (r.Some? <==> Reachable(adj, src, dst, blocked))
      ensures src != dst && r.Some? ==>
                IsPath(adj, src, dst, blocked, r.value) && IsCheapest(adj, src, dst, blocked, r.value.cost)
    {
      hide Searching, Expanding, Tree;
      var best: map<N, Cost>, prev: map<N, N>, heap := map[src := 0], map[], multiset{Entry(0, src)};
      ghost var settled: seq<N> := [];
      SearchBegins(adj, src, dst, blocked);
      while heap != multiset{}
        invariant Searching(adj, src, dst, blocked, best, prev, heap, settled) && dst !in settled
        invariant src == dst ==> heap == multiset{Entry(0, src)}
        decreases Unsettled(adj, src, settled), |heap|
      {
        ghost var least := LeastExists(heap);
        var e :| e in heap && forall f :: f in heap ==> e.cost <= f.cost;
        if e.node == dst {
          PoppedIsCheapest(adj, src, dst, blocked, best, prev, heap, settled, e);
          var hops := Reconstruct(src, dst, blocked, best, prev, settled);
          return Some(Path(hops, e.cost));
        }
        DroppingStale(adj, src, dst, blocked, best, prev, heap, settled, e);
        if best[e.node] < e.cost {
          heap := heap - multiset{e};
          continue;
        }
        StartExpanding(adj, src, dst, blocked, best, prev, heap, settled, e);
        best, prev, heap := Expand(src, dst, blocked, best, prev, heap - multiset{e}, settled, e);
        FinishExpanding(adj, src, dst, blocked, best, prev, heap, settled, e.node);
        settled := settled + [e.node];
      }
      if src != dst {
        ExhaustedIsUnreachable(adj, src, dst, blocked, best, prev, settled);
      }
      return None;
    }

    // Follow every link of the node just popped.
    method Expand(src: N, dst: N, blocked: set<N>, best0: map<N, Cost>, prev0: map<N, N>, heap0: multiset<Entry<N>>,
                  ghost settled: seq<N>, e: Entry<N>)
      returns (best: map<N, Cost>, prev: map<N, N>, heap: multiset<Entry<N>>)
      requires Expanding(adj, src, dst, blocked, best0, prev0, heap0, settled, e.node, 0) && best0[e.node] == e.cost
      ensures Expanding(adj, src, dst, blocked, best, prev, heap, settled, e.node, |LinksOf(adj, e.node)|)
    {
      hide Expanding;
      best, prev, heap := best0, prev0, heap0;
      CostStays(src, dst, blocked, best, prev, heap, settled, e, 0);
      var links := LinksOf(adj, e.node);
      for i := 0 to |links|
        invariant Expanding(adj, src, dst, blocked, best, prev, heap, settled, e.node, i)
        invariant e.node in best && best[e.node] == e.cost
      {
        best, prev, heap := Relax(src, dst, blocked, best, prev, heap, settled, e, i, links[i]);
      }
    }

    lemma CostStays(src: N, dst: N, blocked: set<N>, best: map<N, Cost>, prev: map<N, N>, heap: multiset<Entry<N>>,
                    settled: seq<N>, e: Entry<N>, count: nat)
      requires Expanding(adj, src, dst, blocked, best, prev, heap, settled, e.node, count)
      ensures e.node in best
    {
    }

    // Consider one link, and take it if it improves on any known cost of its end.
    method Relax(src: N, dst: N, blocked: set<N>, best0: map<N, Cost>, prev0: map<N, N>, heap0: multiset<Entry<N>>,
                 ghost settled: seq<N>, e: Entry<N>, ghost i: nat, link: Link<N>)
      returns (best: map<N, Cost>, prev: map<N, N>, heap: multiset<Entry<N>>)
      requires Expanding(adj, src, dst, blocked, best0, prev0, heap0, settled, e.node, i)
      requires i < |LinksOf(adj, e.node)| && LinksOf(adj, e.node)[i] == link
      requires e.node in best0 && best0[e.node] == e.cost
      ensures Expanding(adj, src, dst, blocked, best, prev, heap, settled, e.node, i + 1)
      ensures e.node in best && best[e.node] == e.cost
    {
      hide Tree, Frontier, AllFollowed, Universe;
      best, prev, heap := best0, prev0, heap0;
      if link.node != dst && link.node in blocked {
        return;
      }
      var cost := Add(e.cost, link.cost);
      if link.node in best && best[link.node] <= cost {
        return;
      }
      ImprovingKeeps(adj, src, dst, blocked, best, prev, heap, settled, e.node, i);
      best, prev, heap := best[link.node := cost], prev[link.node := e.node], heap + multiset{Entry(cost, link.node)};
    }

    // Walk `prev` back from the destination.
    method Reconstruct(src: N, dst: N, ghost blocked: set<N>, ghost best: map<N, Cost>, prev: map<N, N>,
                       ghost settled: seq<N>)
      returns (hops: seq<N>)
      requires Tree(adj, src, dst, blocked, best, prev, settled) && dst in best
      ensures src == dst ==> hops == [dst]
      ensures src != dst ==> IsPath(adj, src, dst, blocked, Path(hops, best[dst]))
    {
      hide Tree, Rank, TreeWalk, Nodes, IsPath;
      hops := [dst];
      if src == dst {
        RootHasNoParent(src, dst, blocked, best, prev, settled);
      } else {
        HopsOf(adj, src, dst, blocked, best, prev, settled, dst);
        TreePath(src, dst, blocked, best, prev, settled);
      }
      var cur := dst;
      while cur in prev && prev[cur] != src
        invariant cur in best && (src == dst ==> cur == dst && hops == [dst])
        invariant src != dst ==>
                    && cur != src && cur in prev && prev[cur] in best
                    && Nodes(TreeWalk(adj, src, dst, blocked, best, prev, settled, dst))
                       == Nodes(TreeWalk(adj, src, dst, blocked, best, prev, settled, prev[cur])) + Reverse(hops)
        decreases Rank(settled, cur)
      {
        var parent := prev[cur];
        HopsOf(adj, src, dst, blocked, best, prev, settled, cur);
        HopsOf(adj, src, dst, blocked, best, prev, settled, parent);
        ReverseGrows(hops, parent);
        hops := hops + [parent];
        cur := parent;
      }
      if src != dst {
        RootWalk(src, dst, blocked, best, prev, settled);
      }
      hops := Reverse(hops);
      assert src != dst ==> hops == Nodes(TreeWalk(adj, src, dst, blocked, best, prev, settled, dst));
    }

    lemma RootWalk(src: N, dst: N, blocked: set<N>, best: map<N, Cost>, prev: map<N, N>, settled: seq<N>)
      requires Tree(adj, src, dst, blocked, best, prev, settled)
      ensures src in best && Nodes(TreeWalk(adj, src, dst, blocked, best, prev, settled, src)) == []
    {
    }

    lemma RootHasNoParent(src: N, dst: N, blocked: set<N>, best: map<N, Cost>, prev: map<N, N>, settled: seq<N>)
      requires Tree(adj, src, dst, blocked, best, prev, settled)
      ensures src !in prev
    {
    }

    // The tree's walk to the destination is the path sought.
    lemma TreePath(src: N, dst: N, blocked: set<N>, best: map<N, Cost>, prev: map<N, N>, settled: seq<N>)
      requires Tree(adj, src, dst, blocked, best, prev, settled) && dst in best && src != dst
      ensures IsPath(adj, src, dst, blocked,
          Path(Nodes(TreeWalk(adj, src, dst, blocked, best, prev, settled, dst)), best[dst]))
    {
      TreeWalkIsPath(adj, src, dst, blocked, best, prev, settled, dst);
      TreeWalkIsOrdered(adj, src, dst, blocked, best, prev, settled, dst);
      var walk := TreeWalk(adj, src, dst, blocked, best, prev, settled, dst);
      assert Admissible(adj, src, dst, blocked, walk);
    }

    // Up to `maxPaths` paths, no two sharing an interior hop: take the cheapest, block its interior,
    // repeat. Stops early only at a direct link or when no admissible path is left.
    method DisjointPaths(src: N, dst: N, maxPaths: nat) returns (paths: seq<Path<N>>)
      ensures |paths| <= maxPaths
      ensures src == dst ==> paths == if maxPaths == 0 then [] else [Path([dst], 0)]
      ensures src != dst ==> Greedy(adj, src, dst, paths)
      ensures src != dst && |paths| < maxPaths ==>
                (paths != [] && Interior(paths[|paths| - 1]) == {}) || !Reachable(adj, src, dst, Interiors(paths))
      ensures forall i :: 0 <= i < |paths| - 1 ==> |paths[i].hops| > 1
      ensures src != dst ==>
                forall i, j, a, b :: 0 <= i < j < |paths| && 0 <= a < |paths[i].hops| - 1 && 0 <= b < |paths[j].hops| - 1 ==>
                  paths[i].hops[a] != paths[j].hops[b]
      ensures src != dst ==>
                forall i, walk :: 0 <= i < |paths| && LeadsTo(adj, src, dst, walk) && IsClear(paths, i, dst, walk) ==>
                  paths[i].cost <= WalkCost(walk)
      ensures src != dst && |paths| < maxPaths ==>
                || (paths != [] && |paths[|paths| - 1].hops| == 1)
                || forall walk :: LeadsTo(adj, src, dst, walk) ==> !IsClear(paths, |paths|, dst, walk)
    {
      hide Greedy, Interiors, IsPath, IsCheapest, Reachable, Interior, LeadsTo, IsClear;
      paths := [];
      var blocked: set<N> := {};
      NothingBlocked(src, dst);
      for n := 0 to maxPaths
        invariant |paths| == n && blocked == Interiors(paths)
        invariant src == dst ==> n == 0
        invariant src != dst ==> Greedy(adj, src, dst, paths)
        invariant forall i :: 0 <= i < |paths| ==> |paths[i].hops| > 1
      {
        var found := ShortestPathAvoiding(src, dst, blocked);
        if found == None {
          break;
        }
        var path := found.value;
        var interior := Interior(path);
        blocked := blocked + interior;
        GreedyGrows(src, dst, paths, path);
        paths := paths + [path];
        DirectHasNoInterior(path);
        if |path.hops| <= 1 {
          break;
        }
      }
      if src != dst {
        GreedyOverHops(adj, src, dst, paths);
      }
    }

    lemma DirectHasNoInterior(p: Path<N>)
      ensures |p.hops| <= 1 ==> Interior(p) == {}
    {
    }

    lemma NothingBlocked(src: N, dst: N)
      ensures Greedy(adj, src, dst, []) && Interiors<N>([]) == {}
    {
    }

    lemma GreedyGrows(src: N, dst: N, paths: seq<Path<N>>, p: Path<N>)
      requires src != dst ==>
                 && Greedy(adj, src, dst, paths)
                 && IsPath(adj, src, dst, Interiors(paths), p) && IsCheapest(adj, src, dst, Interiors(paths), p.cost)
      ensures src != dst ==> Greedy(adj, src, dst, paths + [p])
      ensures Interiors(paths + [p]) == Interiors(paths) + Interior(p)
    {
      var more := paths + [p];
      assert more[..|paths|] == paths;
      forall i | src != dst && 0 <= i < |more|
        ensures IsPath(adj, src, dst, Interiors(more[..i]), more[i]) &&
            IsCheapest(adj, src, dst, Interiors(more[..i]), more[i].cost)
      {
        assert more[..i] == paths[..i] || i == |paths|;
      }
    }
  }

  // ---- A direct link hides the relayed ones ----

  // A node with a direct link to another and one through a third.
  function Triangle(): Adjacency<nat> {
    map[0 := [Link(2, 1), Link(1, 1)], 1 := [Link(2, 1)]]
  }

  // Every link costs one.
  lemma TriangleCosts(walk: seq<Link<nat>>)
    requires IsWalk(Triangle(), 0, walk)
    ensures walk != [] ==> walk[0] in [Link(2, 1), Link(1, 1)] && WalkCost(walk) >= 1
    ensures |walk| > 1 ==> WalkCost(walk) >= 2
  {
    if walk != [] {
      TriangleCosts(walk[..|walk| - 1]);
    }
  }

  lemma TrianglePaths()
    ensures IsPath(Triangle(), 0, 2, {}, Path([2], 1)) && IsPath(Triangle(), 0, 2, {}, Path([1, 2], 2))
    ensures Reachable(Triangle(), 0, 2, {})
  {
    var direct, relayed: seq<Link<nat>> := [Link(2, 1)], [Link(1, 1), Link(2, 1)];
    assert direct[..0] == [] && relayed[..1] == [Link(1, 1)] && relayed[..1][..0] == [];
    assert Admissible(Triangle(), 0, 2, {}, direct) && Nodes(direct) == [2] && WalkCost(direct) == 1;
    assert Admissible(Triangle(), 0, 2, {}, relayed) && Nodes(relayed) == [1, 2] && WalkCost(relayed) == 2;
  }

  lemma CheapestIsDirect(p: Path<nat>)
    requires IsPath(Triangle(), 0, 2, {}, p) && IsCheapest(Triangle(), 0, 2, {}, p.cost)
    ensures p == Path([2], 1)
  {
    TrianglePaths();
    var walk: seq<Link<nat>> :|
      Admissible(Triangle(), 0, 2, {}, walk) && Nodes(walk) == p.hops && WalkCost(walk) == p.cost;
    AvoidingMoreCostsMore(Triangle(), 0, 2, {}, {}, p.cost, Path([2], 1));
    TriangleCosts(walk);
  }

  method BuildTriangle() returns (g: Graph<nat>)
    ensures fresh(g) && g.adj == Triangle()
  {
    g := new Graph<nat>();
    g.InsertLink(0, 2, 1);
    g.InsertLink(0, 1, 1);
    g.InsertLink(1, 2, 1);
    assert g.adj[0] == [Link(2, 1), Link(1, 1)] && g.adj[1] == [Link(2, 1)];
    assert g.adj == Triangle();
  }

  lemma FirstIsDirect(paths: seq<Path<nat>>)
    requires Greedy(Triangle(), 0, 2, paths)
    ensures Interiors<nat>([]) == {}
    ensures paths != [] ==> paths[0] == Path([2], 1)
    ensures |paths| == 1 ==> Interiors(paths) == {}
  {
    hide IsPath, IsCheapest, Triangle;
    if paths != [] {
      assert paths[..0] == [] && Interiors(paths[..0]) == {};
      CheapestIsDirect(paths[0]);
    }
  }

  // With a direct link the cheapest, the search for disjoint paths ends there, though a relayed path
  // that shares no interior hop with it is left.
  method DirectLinkHidesRelayed() returns (g: Graph<nat>, paths: seq<Path<nat>>)
    ensures g.adj == Triangle() && paths == [Path([2], 1)]
    ensures IsPath(g.adj, 0, 2, Interiors(paths), Path([1, 2], 2))
  {
    hide IsPath, IsCheapest, Greedy, Reachable, Interiors, Triangle;
    g := BuildTriangle();
    paths := g.DisjointPaths(0, 2, 2);
    TrianglePaths();
    FirstIsDirect(paths);
  }
}
