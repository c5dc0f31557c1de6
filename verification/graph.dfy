/** The read-only relationship graph rules query
    (internal/detect/context.go, graphView). */
module GraphViews {
  import opened Order
  import opened Identities

  datatype GraphView = GraphView(adj: map<Identity, seq<Relationship>>, nodes: set<Identity>) {
    /** Neighbors: the outgoing relationships in ID order. */
    function Neighbors(id: Identity): seq<Relationship> {
      if id in adj then adj[id] else []
    }
  }

  predicate ByID(a: Relationship, b: Relationship) {
    StringLess(a.ID(), b.ID())
  }

  ghost predicate Edge(g: GraphView, u: Identity, v: Identity) {
    exists r :: r in g.Neighbors(u) && r.to == v
  }

  /** Every edge stays inside the node set. */
  ghost predicate Closed(g: GraphView) {
    forall u, r :: r in g.Neighbors(u) ==> r.from == u && u in g.nodes && r.to in g.nodes
  }

  /** g indexes exactly the observed assets and relationships. */
  ghost predicate Indexes(g: GraphView, assets: seq<Identity>, rels: seq<Relationship>) {
    && (forall n :: n in g.nodes <==> n in assets || exists r :: r in rels && (r.from == n || r.to == n))
    && (forall u, r :: multiset(g.Neighbors(u))[r] == if r.from == u then multiset(rels)[r] else 0)
    && (forall u :: Sorted(ByID, g.Neighbors(u)))
  }

  // ----- construction

  /** newGraphView. */
  method NewGraphView(assets: seq<Identity>, rels: seq<Relationship>) returns (g: GraphView)
    ensures Indexes(g, assets, rels) && Closed(g)
  {
    var nodes: set<Identity> := {};
    for i := 0 to |assets|
      invariant forall n :: n in nodes <==> n in assets[..i]
    {
      assert assets[..i + 1] == assets[..i] + [assets[i]];
      nodes := nodes + {assets[i]};
    }
    assert assets[..|assets|] == assets;
    var adj: map<Identity, seq<Relationship>> := map[];
    for i := 0 to |rels|
      invariant NodesOf(nodes, assets, rels[..i])
      invariant Grouped(adj, rels[..i])
    {
      var rel := rels[i];
      GroupStep(adj, rels, i);
      nodes := nodes + {rel.from};
      nodes := nodes + {rel.to};
      adj := adj[rel.from := (if rel.from in adj then adj[rel.from] else []) + [rel]];
    }
    assert rels[..|rels|] == rels;
    var unsorted := adj;
    var rest := adj.Keys;
    while rest != {}
      invariant rest <= adj.Keys == unsorted.Keys
      invariant forall u :: u in adj ==> adj[u] == if u in rest then unsorted[u] else Sort(ByID, unsorted[u])
      decreases rest
    {
      var from :| from in rest;
      adj := adj[from := Sort(ByID, adj[from])];
      rest := rest - {from};
    }
    g := GraphView(adj, nodes);
    SortedGroups(unsorted, adj, rels);
    GroupsAreClosed(g, assets, rels);
  }

  ghost predicate NodesOf(nodes: set<Identity>, assets: seq<Identity>, rels: seq<Relationship>) {
    forall n :: n in nodes <==> n in assets || exists r :: r in rels && (r.from == n || r.to == n)
  }

  ghost predicate Grouped(adj: map<Identity, seq<Relationship>>, rels: seq<Relationship>) {
    forall u, r :: multiset(Lookup(adj, u))[r] == if r.from == u then multiset(rels)[r] else 0
  }

  function Lookup(adj: map<Identity, seq<Relationship>>, u: Identity): seq<Relationship> {
    if u in adj then adj[u] else []
  }

  lemma GroupStep(adj: map<Identity, seq<Relationship>>, rels: seq<Relationship>, i: nat)
    requires i < |rels| && Grouped(adj, rels[..i])
    ensures Grouped(adj[rels[i].from := Lookup(adj, rels[i].from) + [rels[i]]], rels[..i + 1])
    ensures forall r :: r in rels[..i + 1] <==> r in rels[..i] || r == rels[i]
  {
    assert rels[..i + 1] == rels[..i] + [rels[i]];
    var after := adj[rels[i].from := Lookup(adj, rels[i].from) + [rels[i]]];
    forall u, r ensures multiset(Lookup(after, u))[r] == if r.from == u then multiset(rels[..i + 1])[r] else 0 {
      if u == rels[i].from {
        assert Lookup(after, u) == Lookup(adj, u) + [rels[i]];
      } else {
        assert Lookup(after, u) == Lookup(adj, u);
      }
    }
  }

  lemma SortedGroups(unsorted: map<Identity, seq<Relationship>>, adj: map<Identity, seq<Relationship>>, rels: seq<Relationship>)
    requires Grouped(unsorted, rels) && adj.Keys == unsorted.Keys
    requires forall u :: u in adj ==> adj[u] == Sort(ByID, unsorted[u])
    ensures Grouped(adj, rels)
    ensures forall u :: Sorted(ByID, Lookup(adj, u))
  {
    forall u ensures SameGroup(unsorted, adj, u) {
      if u in adj {
        SortedGroup(unsorted[u]);
      }
    }
    SameGroups(unsorted, adj, rels);
  }

  ghost predicate SameGroup(unsorted: map<Identity, seq<Relationship>>, adj: map<Identity, seq<Relationship>>, u: Identity) {
    multiset(Lookup(adj, u)) == multiset(Lookup(unsorted, u)) && Sorted(ByID, Lookup(adj, u))
  }

  lemma SameGroups(unsorted: map<Identity, seq<Relationship>>, adj: map<Identity, seq<Relationship>>, rels: seq<Relationship>)
    requires Grouped(unsorted, rels)
    requires forall u :: SameGroup(unsorted, adj, u)
    ensures Grouped(adj, rels)
    ensures forall u :: Sorted(ByID, Lookup(adj, u))
  {
    GroupedAlike(unsorted, adj, rels);
    forall u ensures Sorted(ByID, Lookup(adj, u)) {
      assert SameGroup(unsorted, adj, u);
    }
  }

  lemma GroupedAlike(unsorted: map<Identity, seq<Relationship>>, adj: map<Identity, seq<Relationship>>, rels: seq<Relationship>)
    requires Grouped(unsorted, rels) && forall u :: SameGroup(unsorted, adj, u)
    ensures Grouped(adj, rels)
  {
    forall u, r ensures multiset(Lookup(adj, u))[r] == if r.from == u then multiset(rels)[r] else 0 {
      GroupCount(unsorted, adj, rels, u, r);
    }
  }

  lemma GroupCount(unsorted: map<Identity, seq<Relationship>>, adj: map<Identity, seq<Relationship>>, rels: seq<Relationship>,
                   u: Identity, r: Relationship)
    requires Grouped(unsorted, rels) && SameGroup(unsorted, adj, u)
    ensures multiset(Lookup(adj, u))[r] == if r.from == u then multiset(rels)[r] else 0
  {
    assert multiset(Lookup(unsorted, u))[r] == if r.from == u then multiset(rels)[r] else 0;
  }

  lemma SortedGroup(s: seq<Relationship>)
    ensures multiset(Sort(ByID, s)) == multiset(s) && Sorted(ByID, Sort(ByID, s))
  {
    StringOrder();
    TotalIsWeak(StringLess);
    assert StrictWeak(ByID);
    SortContents(ByID, s);
    SortSorted(ByID, s);
  }

  lemma GroupsAreClosed(g: GraphView, assets: seq<Identity>, rels: seq<Relationship>)
    requires NodesOf(g.nodes, assets, rels) && Grouped(g.adj, rels)
    ensures Closed(g)
    ensures forall u :: g.Neighbors(u) == Lookup(g.adj, u)
  {
    forall u, r | r in g.Neighbors(u) ensures r.from == u && u in g.nodes && r.to in g.nodes {
      assert multiset(Lookup(g.adj, u))[r] > 0;
      assert r in multiset(rels);
    }
  }

  /** The edges of the index are the observed relationships, nothing else. */
  lemma EdgesAreObserved(g: GraphView, assets: seq<Identity>, rels: seq<Relationship>, u: Identity, v: Identity)
    requires Indexes(g, assets, rels)
    ensures Edge(g, u, v) <==> exists r :: r in rels && r.from == u && r.to == v
  {
    if r :| r in g.Neighbors(u) && r.to == v {
      assert multiset(g.Neighbors(u))[r] > 0;
      assert r in multiset(rels);
    }
    if r :| r in rels && r.from == u && r.to == v {
      assert r in multiset(rels);
      assert r in multiset(g.Neighbors(u));
    }
  }

  // ----- walks

  ghost predicate Walk(g: GraphView, p: seq<Identity>, from: Identity, to: Identity) {
    && p != [] && p[0] == from && p[|p| - 1] == to
    && forall i :: 0 <= i < |p| - 1 ==> Edge(g, p[i], p[i + 1])
  }

  /** No walk to v has fewer than d edges. */
  ghost predicate AtLeast(g: GraphView, from: Identity, v: Identity, d: nat) {
    forall w :: Walk(g, w, from, v) ==> |w| - 1 >= d
  }

  lemma {:induction false} Crossing(g: GraphView, w: seq<Identity>, from: Identity, to: Identity, S: set<Identity>) returns (i: nat)
    requires Walk(g, w, from, to) && from in S && to !in S
    ensures i + 1 < |w| && w[i] in S && w[i + 1] !in S
    decreases |w|
  {
    if w[1] !in S {
      i := 0;
    } else {
      var rest := w[1..];
      forall k | 0 <= k < |rest| - 1 ensures Edge(g, rest[k], rest[k + 1]) {
        assert Edge(g, w[k + 1], w[k + 2]);
      }
      i := Crossing(g, rest, w[1], to, S);
      i := i + 1;
    }
  }

  lemma WalkPrefix(g: GraphView, w: seq<Identity>, from: Identity, to: Identity, i: nat)
    requires Walk(g, w, from, to) && i < |w|
    ensures Walk(g, w[..i + 1], from, w[i])
  {
  }

  // ----- breadth-first search

  /** What the search knows between two dequeues. dist is the number of edges
      to each visited node along parent. */
  ghost predicate Searched(g: GraphView, from: Identity, queue: seq<Identity>, visited: set<Identity>,
                           parent: map<Identity, Identity>, dist: map<Identity, nat>) {
    && from in visited && visited <= g.nodes
    && dist.Keys == visited && dist[from] == 0
    && parent.Keys == visited - {from}
    && (forall v :: v in parent ==> parent[v] in visited && Edge(g, parent[v], v) && dist[v] == dist[parent[v]] + 1)
    && (forall v :: v in visited ==> AtLeast(g, from, v, dist[v]))
    && (forall i :: 0 <= i < |queue| ==> queue[i] in visited)
    && (forall i, j :: 0 <= i < j < |queue| ==> dist[queue[i]] <= dist[queue[j]] <= dist[queue[i]] + 1)
  }

  /** Whatever still has an unvisited neighbour is queued. */
  ghost predicate Settled(g: GraphView, queue: seq<Identity>, visited: set<Identity>) {
    forall u, v :: u in visited && u !in queue && Edge(g, u, v) ==> v in visited
  }

  /** While cur's neighbours are read: cur's first n are visited, and nothing
      closer than cur has an unvisited neighbour. */
  ghost predicate Reading(g: GraphView, from: Identity, cur: Identity, n: nat, queue: seq<Identity>, visited: set<Identity>,
                          parent: map<Identity, Identity>, dist: map<Identity, nat>) {
    && Searched(g, from, queue, visited, parent, dist)
    && cur in visited && n <= |g.Neighbors(cur)|
    && (forall i :: 0 <= i < n ==> g.Neighbors(cur)[i].to in visited)
    && (forall i :: 0 <= i < |queue| ==> dist[cur] <= dist[queue[i]] <= dist[cur] + 1)
    && (forall u, v :: u in visited && u != cur && u !in queue && Edge(g, u, v) ==> v in visited)
  }

  /** A node first met from cur is one edge further than cur, and no walk is
      shorter. */
  lemma Discover(g: GraphView, from: Identity, cur: Identity, n: nat, queue: seq<Identity>, visited: set<Identity>,
                 parent: map<Identity, Identity>, dist: map<Identity, nat>, nxt: Identity)
    requires Reading(g, from, cur, n, queue, visited, parent, dist)
    requires n < |g.Neighbors(cur)| && nxt == g.Neighbors(cur)[n].to && nxt !in visited
    ensures AtLeast(g, from, nxt, dist[cur] + 1)
    ensures Edge(g, cur, nxt)
  {
    assert g.Neighbors(cur)[n] in g.Neighbors(cur);
    forall w | Walk(g, w, from, nxt) ensures |w| - 1 >= dist[cur] + 1 {
      var i := Crossing(g, w, from, nxt, visited);
      WalkPrefix(g, w, from, nxt, i);
      assert AtLeast(g, from, w[i], dist[w[i]]);
      assert Edge(g, w[i], w[i + 1]);
      assert w[i] == cur || w[i] in queue;
    }
  }

  lemma Enqueue(g: GraphView, from: Identity, cur: Identity, n: nat, queue: seq<Identity>, visited: set<Identity>,
                parent: map<Identity, Identity>, dist: map<Identity, nat>, nxt: Identity)
    requires Closed(g) && Reading(g, from, cur, n, queue, visited, parent, dist)
    requires n < |g.Neighbors(cur)| && nxt == g.Neighbors(cur)[n].to && nxt !in visited
    ensures Searched(g, from, queue, visited + {nxt}, parent[nxt := cur], dist[nxt := dist[cur] + 1])
    ensures Reading(g, from, cur, n + 1, queue + [nxt], visited + {nxt}, parent[nxt := cur], dist[nxt := dist[cur] + 1])
  {
    Visit(g, from, cur, n, queue, visited, parent, dist, nxt);
    QueueLast(g, from, cur, n, queue, visited, parent, dist, nxt);
  }

  lemma Visit(g: GraphView, from: Identity, cur: Identity, n: nat, queue: seq<Identity>, visited: set<Identity>,
              parent: map<Identity, Identity>, dist: map<Identity, nat>, nxt: Identity)
    requires Closed(g) && Reading(g, from, cur, n, queue, visited, parent, dist)
    requires n < |g.Neighbors(cur)| && nxt == g.Neighbors(cur)[n].to && nxt !in visited
    ensures Searched(g, from, queue, visited + {nxt}, parent[nxt := cur], dist[nxt := dist[cur] + 1])
  {
    Discover(g, from, cur, n, queue, visited, parent, dist, nxt);
    assert g.Neighbors(cur)[n] in g.Neighbors(cur);
  }

  lemma QueueLast(g: GraphView, from: Identity, cur: Identity, n: nat, queue: seq<Identity>, visited: set<Identity>,
                  parent: map<Identity, Identity>, dist: map<Identity, nat>, nxt: Identity)
    requires Reading(g, from, cur, n, queue, visited, parent, dist)
    requires n < |g.Neighbors(cur)| && nxt == g.Neighbors(cur)[n].to && nxt !in visited
    requires Searched(g, from, queue, visited + {nxt}, parent[nxt := cur], dist[nxt := dist[cur] + 1])
    ensures Reading(g, from, cur, n + 1, queue + [nxt], visited + {nxt}, parent[nxt := cur], dist[nxt := dist[cur] + 1])
  {
    var longer := queue + [nxt];
    assert forall x :: x in longer <==> x in queue || x == nxt;
  }

  lemma Finish(g: GraphView, from: Identity, cur: Identity, queue: seq<Identity>, visited: set<Identity>,
               parent: map<Identity, Identity>, dist: map<Identity, nat>)
    requires Reading(g, from, cur, |g.Neighbors(cur)|, queue, visited, parent, dist)
    ensures Settled(g, queue, visited)
  {
    forall u, v | u in visited && u !in queue && Edge(g, u, v) ensures v in visited {
      if u == cur {
        var r :| r in g.Neighbors(u) && r.to == v;
        var i :| 0 <= i < |g.Neighbors(u)| && g.Neighbors(u)[i] == r;
      }
    }
  }

  lemma WalkEscapes(g: GraphView, w: seq<Identity>, from: Identity, to: Identity, visited: set<Identity>)
    requires Walk(g, w, from, to) && from in visited && to !in visited
    ensures exists u, v :: u in visited && v !in visited && Edge(g, u, v)
  {
    var i := Crossing(g, w, from, to, visited);
    assert Edge(g, w[i], w[i + 1]);
  }

  lemma NoWalkLeaves(g: GraphView, from: Identity, to: Identity, visited: set<Identity>)
    requires Settled(g, [], visited) && from in visited && to !in visited
    ensures !exists w :: Walk(g, w, from, to)
  {
    forall w ensures !Walk(g, w, from, to) {
      if Walk(g, w, from, to) {
        WalkEscapes(g, w, from, to, visited);
      }
    }
  }

  // ----- the order of discovery

  /** The first position of a neighbour. */
  function FirstPos(edges: seq<Relationship>, v: Identity): (p: nat)
    ensures p <= |edges| && (p < |edges| ==> edges[p].to == v)
    ensures forall j :: 0 <= j < p ==> edges[j].to != v
  {
    if edges == [] || edges[0].to == v then 0 else 1 + FirstPos(edges[1..], v)
  }

  lemma FirstPosAt(edges: seq<Relationship>, v: Identity, n: nat)
    requires n < |edges| && edges[n].to == v && forall j :: 0 <= j < n ==> edges[j].to != v
    ensures FirstPos(edges, v) == n
  {
  }

  /** rank numbers the visited nodes as they were discovered: in the order of their
      parents and then of the parent's relationships; and a node's parent is the
      first visited node with an edge to it. */
  ghost predicate Ranked(g: GraphView, parent: map<Identity, Identity>, rank: map<Identity, nat>) {
    && (forall v :: RankedNode(parent, rank, v))
    && (forall v, w :: RankedPair(g, parent, rank, v, w))
    && (forall u, v :: FirstParent(g, parent, rank, u, v))
  }

  ghost predicate RankedNode(parent: map<Identity, Identity>, rank: map<Identity, nat>, v: Identity) {
    && (v in rank ==> rank[v] < |rank|)
    && (v in parent ==> v in rank && parent[v] in rank)
  }

  /** How two nodes were discovered, the one with the smaller number first. */
  ghost predicate RankedPair(g: GraphView, parent: map<Identity, Identity>, rank: map<Identity, nat>, v: Identity, w: Identity) {
    && (v in rank && w in rank && rank[v] == rank[w] ==> v == w)
    && (Both(parent, rank, v, w) && rank[v] < rank[w] ==>
          && rank[parent[v]] <= rank[parent[w]]
          && (parent[v] == parent[w] ==> FirstPos(g.Neighbors(parent[v]), v) < FirstPos(g.Neighbors(parent[v]), w)))
  }

  ghost predicate Both(parent: map<Identity, Identity>, rank: map<Identity, nat>, v: Identity, w: Identity) {
    v in parent && w in parent && v in rank && w in rank && parent[v] in rank && parent[w] in rank
  }

  ghost predicate FirstParent(g: GraphView, parent: map<Identity, Identity>, rank: map<Identity, nat>, u: Identity, v: Identity) {
    u in rank && v in parent && parent[v] in rank && Edge(g, u, v) ==> rank[parent[v]] <= rank[u]
  }

  ghost predicate QueueRanked(queue: seq<Identity>, rank: map<Identity, nat>) {
    && (forall i :: 0 <= i < |queue| ==> queue[i] in rank)
    && (forall i, j :: 0 <= i < j < |queue| ==> rank[queue[i]] < rank[queue[j]])
  }

  /** v's parent, if it has one, was dequeued before x. */
  ghost predicate ParentBefore(parent: map<Identity, Identity>, rank: map<Identity, nat>, v: Identity, x: Identity) {
    v in parent && parent[v] in rank && x in rank ==> rank[parent[v]] < rank[x]
  }

  /** v's parent, if it has one, is cur or was dequeued before it; and if it is cur,
      v is among cur's first n neighbours. */
  ghost predicate ParentUpTo(g: GraphView, cur: Identity, n: nat, parent: map<Identity, Identity>, rank: map<Identity, nat>, v: Identity) {
    v in parent && parent[v] in rank && cur in rank ==>
      rank[parent[v]] <= rank[cur] && (parent[v] == cur ==> FirstPos(g.Neighbors(cur), v) < n)
  }

  /** Between two dequeues. */
  ghost predicate RankedQueue(g: GraphView, queue: seq<Identity>, parent: map<Identity, Identity>, rank: map<Identity, nat>) {
    && Ranked(g, parent, rank) && QueueRanked(queue, rank)
    && (forall v, x :: x in queue ==> ParentBefore(parent, rank, v, x))
  }

  /** While cur's neighbours are read. */
  ghost predicate RankedReading(g: GraphView, cur: Identity, n: nat, queue: seq<Identity>, parent: map<Identity, Identity>,
                                rank: map<Identity, nat>) {
    && Ranked(g, parent, rank) && QueueRanked(queue, rank) && cur in rank
    && (forall i :: 0 <= i < |queue| ==> rank[cur] < rank[queue[i]])
    && (forall v :: ParentUpTo(g, cur, n, parent, rank, v))
  }

  lemma StartRanked(g: GraphView, queue: seq<Identity>, parent: map<Identity, Identity>, rank: map<Identity, nat>)
    requires RankedQueue(g, queue, parent, rank) && queue != []
    ensures RankedReading(g, queue[0], 0, queue[1..], parent, rank)
  {
    forall v ensures ParentUpTo(g, queue[0], 0, parent, rank, v) {
      assert queue[0] in queue;
      assert ParentBefore(parent, rank, v, queue[0]);
    }
  }

  lemma SkipRanked(g: GraphView, cur: Identity, n: nat, queue: seq<Identity>, parent: map<Identity, Identity>, rank: map<Identity, nat>)
    requires RankedReading(g, cur, n, queue, parent, rank)
    ensures RankedReading(g, cur, n + 1, queue, parent, rank)
  {
    var m := n + 1;
    forall v ensures ParentUpTo(g, cur, m, parent, rank, v) {
      assert ParentUpTo(g, cur, n, parent, rank, v);
    }
  }

  lemma FinishRanked(g: GraphView, cur: Identity, n: nat, queue: seq<Identity>, parent: map<Identity, Identity>, rank: map<Identity, nat>)
    requires RankedReading(g, cur, n, queue, parent, rank)
    ensures RankedQueue(g, queue, parent, rank)
  {
    forall v, x | x in queue ensures ParentBefore(parent, rank, v, x) {
      var i :| 0 <= i < |queue| && queue[i] == x;
      assert ParentUpTo(g, cur, n, parent, rank, v);
    }
  }

  /** The next discovery comes last. */
  lemma DiscoverRanked(g: GraphView, cur: Identity, n: nat, queue: seq<Identity>, parent: map<Identity, Identity>,
                       rank: map<Identity, nat>, nxt: Identity)
    requires RankedReading(g, cur, n, queue, parent, rank) && nxt !in rank && n < |g.Neighbors(cur)| && nxt == g.Neighbors(cur)[n].to
    requires forall i :: 0 <= i < n ==> g.Neighbors(cur)[i].to in rank
    requires forall u :: u in rank && Edge(g, u, nxt) ==> u == cur || u in queue
    ensures RankedReading(g, cur, n + 1, queue + [nxt], parent[nxt := cur], rank[nxt := |rank|])
  {
    var p, r, q, m := parent[nxt := cur], rank[nxt := |rank|], queue + [nxt], n + 1;
    FirstPosAt(g.Neighbors(cur), nxt, n);
    DiscoverNodes(parent, rank, cur, nxt);
    forall v, w ensures RankedPair(g, p, r, v, w) {
      DiscoverPair(g, cur, n, queue, parent, rank, nxt, v, w);
    }
    forall u, v ensures FirstParent(g, p, r, u, v) {
      DiscoverEdge(g, cur, n, queue, parent, rank, nxt, u, v);
    }
    forall v ensures ParentUpTo(g, cur, m, p, r, v) {
      assert RankedNode(parent, rank, v) && ParentUpTo(g, cur, n, parent, rank, v);
    }
    forall i | 0 <= i < |q| ensures q[i] in r && r[cur] < r[q[i]] {
      assert RankedNode(parent, rank, cur);
    }
    forall i, j | 0 <= i < j < |q| ensures r[q[i]] < r[q[j]] {
      assert RankedNode(parent, rank, q[i]);
    }
  }

  lemma DiscoverNodes(parent: map<Identity, Identity>, rank: map<Identity, nat>, cur: Identity, nxt: Identity)
    requires (forall v :: RankedNode(parent, rank, v)) && cur in rank && nxt !in rank
    ensures |rank[nxt := |rank|]| == |rank| + 1
    ensures var p, r := parent[nxt := cur], rank[nxt := |rank|]; forall v :: RankedNode(p, r, v)
  {
    var p, r := parent[nxt := cur], rank[nxt := |rank|];
    assert r.Keys == rank.Keys + {nxt} && |r| == |r.Keys| && |rank| == |rank.Keys|;
    forall v ensures RankedNode(p, r, v) {
      assert RankedNode(parent, rank, v);
    }
  }

  lemma DiscoverPair(g: GraphView, cur: Identity, n: nat, queue: seq<Identity>, parent: map<Identity, Identity>,
                     rank: map<Identity, nat>, nxt: Identity, v: Identity, w: Identity)
    requires RankedReading(g, cur, n, queue, parent, rank) && nxt !in rank && FirstPos(g.Neighbors(cur), nxt) == n
    ensures RankedPair(g, parent[nxt := cur], rank[nxt := |rank|], v, w)
  {
    assert RankedPair(g, parent, rank, v, w);
    assert RankedNode(parent, rank, v) && RankedNode(parent, rank, w);
    assert ParentUpTo(g, cur, n, parent, rank, v);
  }

  lemma DiscoverEdge(g: GraphView, cur: Identity, n: nat, queue: seq<Identity>, parent: map<Identity, Identity>,
                     rank: map<Identity, nat>, nxt: Identity, u: Identity, v: Identity)
    requires RankedReading(g, cur, n, queue, parent, rank) && nxt !in rank
    requires forall u :: u in rank && Edge(g, u, nxt) ==> u == cur || u in queue
    ensures FirstParent(g, parent[nxt := cur], rank[nxt := |rank|], u, v)
  {
    assert FirstParent(g, parent, rank, u, v);
    assert RankedNode(parent, rank, v) && RankedNode(parent, rank, cur);
    assert v in parent ==> RankedNode(parent, rank, parent[v]);
    if u in queue {
      var i :| 0 <= i < |queue| && queue[i] == u;
    }
  }

  // ----- the first of the shortest walks

  /** At the i-th node they part, and p goes on to the earlier neighbour. */
  ghost predicate EarlierAt(g: GraphView, p: seq<Identity>, w: seq<Identity>, i: nat) {
    && 0 < i < |p| && i < |w| && p[..i] == w[..i] && p[i] != w[i]
    && FirstPos(g.Neighbors(p[i - 1]), p[i]) < FirstPos(g.Neighbors(p[i - 1]), w[i])
  }

  /** At the first node where they part, p goes on to the earlier neighbour. */
  ghost predicate ComesFirst(g: GraphView, p: seq<Identity>, w: seq<Identity>) {
    exists i: nat :: EarlierAt(g, p, w, i)
  }

  /** p is the first of the shortest walks in the order of the relationship IDs. */
  ghost predicate FirstShortest(g: GraphView, p: seq<Identity>, from: Identity, to: Identity) {
    && Walk(g, p, from, to) && AtLeast(g, from, to, |p| - 1)
    && forall w :: Walk(g, w, from, to) && |w| == |p| && w != p ==> ComesFirst(g, p, w)
  }

  lemma PartOnce(g: GraphView, p: seq<Identity>, w: seq<Identity>)
    requires ComesFirst(g, p, w)
    ensures !ComesFirst(g, w, p)
  {
    var i: nat :| EarlierAt(g, p, w, i);
    if ComesFirst(g, w, p) {
      var j: nat :| EarlierAt(g, w, p, j);
      PartAt(p, w, i, j);
      OneIsEarlier(g, p, w, i);
    }
  }

  lemma OneIsEarlier(g: GraphView, p: seq<Identity>, w: seq<Identity>, i: nat)
    requires EarlierAt(g, p, w, i)
    ensures !EarlierAt(g, w, p, i)
  {
    assert p[i - 1] == p[..i][i - 1] == w[..i][i - 1] == w[i - 1];
  }

  lemma PartAt(p: seq<Identity>, w: seq<Identity>, i: nat, j: nat)
    requires i < |p| && i < |w| && p[..i] == w[..i] && p[i] != w[i]
    requires j < |p| && j < |w| && p[..j] == w[..j] && p[j] != w[j]
    ensures i == j
  {
    assert forall k :: 0 <= k < i ==> p[k] == p[..i][k] == w[..i][k] == w[k];
    assert forall k :: 0 <= k < j ==> p[k] == p[..j][k] == w[..j][k] == w[k];
  }

  /** So the view settles which walk that is. */
  lemma FirstShortestUnique(g: GraphView, p: seq<Identity>, q: seq<Identity>, from: Identity, to: Identity)
    requires FirstShortest(g, p, from, to) && FirstShortest(g, q, from, to)
    ensures p == q
  {
    assert |p| == |q|;
    if p != q {
      PartOnce(g, p, q);
    }
  }

  /** p follows the parents, forwards. */
  ghost predicate Follows(p: seq<Identity>, from: Identity, parent: map<Identity, Identity>) {
    && p != [] && p[0] == from
    && forall i :: 0 < i < |p| ==> p[i] in parent && parent[p[i]] == p[i - 1]
  }

  /** All that lies nearer than d - 1 has only visited neighbours. */
  ghost predicate VisitedUpTo(g: GraphView, dist: map<Identity, nat>, d: nat) {
    forall u, v :: u in dist && dist[u] + 1 < d && Edge(g, u, v) ==> v in dist
  }

  lemma {:induction false} WalkVisited(g: GraphView, from: Identity, to: Identity, w: seq<Identity>, dist: map<Identity, nat>, i: nat)
    requires Walk(g, w, from, to) && i < |w| - 1 && from in dist && VisitedUpTo(g, dist, |w| - 1)
    requires forall v :: v in dist ==> AtLeast(g, from, v, dist[v])
    ensures w[i] in dist
  {
    if i > 0 {
      WalkVisited(g, from, to, w, dist, i - 1);
      WalkPrefix(g, w, from, to, i - 1);
      assert AtLeast(g, from, w[i - 1], dist[w[i - 1]]);
      assert |w[..i]| - 1 >= dist[w[i - 1]];
      assert Edge(g, w[i - 1], w[i]);
    }
  }

  lemma LeavesOnce(g: GraphView, from: Identity, to: Identity, w: seq<Identity>, i: nat)
    requires Walk(g, w, from, to) && AtLeast(g, from, to, |w| - 1) && 0 < i < |w|
    ensures w[i] != from
  {
    if w[i] == from {
      var rest := w[i..];
      forall k | 0 <= k < |rest| - 1 ensures Edge(g, rest[k], rest[k + 1]) {
        assert Edge(g, w[i + k], w[i + k + 1]);
      }
      assert Walk(g, rest, from, to);
    }
  }

  /** Node by node, the followed path was discovered no later than any other
      shortest walk. */
  lemma {:induction false} DiscoveredFirst(g: GraphView, parent: map<Identity, Identity>, rank: map<Identity, nat>, from: Identity,
                                           p: seq<Identity>, w: seq<Identity>, i: nat)
    requires Ranked(g, parent, rank) && Follows(p, from, parent) && |p| == |w| && 0 < i < |p|
    requires p[|p| - 1] == w[|w| - 1] && (forall k :: 0 <= k < |w| - 1 ==> Edge(g, w[k], w[k + 1]))
    requires forall k :: 0 < k < |w| ==> w[k] in parent
    ensures p[i] in rank && w[i] in rank && rank[p[i]] <= rank[w[i]]
    decreases |p| - i
  {
    if i < |p| - 1 {
      DiscoveredFirst(g, parent, rank, from, p, w, i + 1);
      ParentsInOrder(g, parent, rank, p[i + 1], w[i + 1]);
      assert Edge(g, w[i], w[i + 1]);
      assert FirstParent(g, parent, rank, w[i], w[i + 1]) && RankedNode(parent, rank, w[i + 1]);
      assert RankedNode(parent, rank, w[i]);
    } else {
      assert RankedNode(parent, rank, p[i]);
    }
  }

  lemma ParentsInOrder(g: GraphView, parent: map<Identity, Identity>, rank: map<Identity, nat>, v: Identity, w: Identity)
    requires Ranked(g, parent, rank) && v in parent && w in parent && v in rank && w in rank && rank[v] <= rank[w]
    ensures parent[v] in rank && parent[w] in rank && rank[parent[v]] <= rank[parent[w]]
  {
    assert RankedNode(parent, rank, v) && RankedNode(parent, rank, w);
    assert RankedPair(g, parent, rank, v, w);
  }

  lemma {:induction false} FirstDifference(p: seq<Identity>, w: seq<Identity>) returns (i: nat)
    requires |p| == |w| && p != w
    ensures i < |p| && p[..i] == w[..i] && p[i] != w[i]
  {
    if p[0] != w[0] {
      i := 0;
    } else {
      var j := FirstDifference(p[1..], w[1..]);
      i := j + 1;
      assert p[..i] == [p[0]] + p[1..][..j] && w[..i] == [w[0]] + w[1..][..j];
    }
  }

  lemma FollowedComesFirst(g: GraphView, parent: map<Identity, Identity>, rank: map<Identity, nat>, from: Identity,
                           p: seq<Identity>, w: seq<Identity>)
    requires Ranked(g, parent, rank) && Follows(p, from, parent) && |p| == |w| && p != w && w[0] == from && from in rank
    requires p[|p| - 1] == w[|w| - 1] && (forall k :: 0 <= k < |w| - 1 ==> Edge(g, w[k], w[k + 1]))
    requires forall k :: 0 < k < |w| ==> w[k] in parent
    ensures ComesFirst(g, p, w)
  {
    var i := FirstDifference(p, w);
    assert i > 0 && p[i - 1] == p[..i][i - 1] == w[..i][i - 1] == w[i - 1];
    assert Edge(g, w[i - 1], w[i]);
    DiscoveredFirst(g, parent, rank, from, p, w, i);
    PartsAtParent(g, parent, rank, p[i - 1], p[i], w[i]);
    assert EarlierAt(g, p, w, i);
  }

  /** Two neighbours of x, the one with parent x discovered first. */
  lemma PartsAtParent(g: GraphView, parent: map<Identity, Identity>, rank: map<Identity, nat>, x: Identity, v: Identity, w: Identity)
    requires Ranked(g, parent, rank) && v in parent && parent[v] == x && w in parent && v != w && Edge(g, x, w)
    requires v in rank && w in rank && rank[v] <= rank[w]
    ensures FirstPos(g.Neighbors(x), v) < FirstPos(g.Neighbors(x), w)
  {
    assert RankedNode(parent, rank, v) && RankedNode(parent, rank, w);
    assert RankedPair(g, parent, rank, v, w);
    assert FirstParent(g, parent, rank, x, w);
    assert RankedPair(g, parent, rank, x, parent[w]);
  }

  /** The path along the parents is the first of the shortest walks. */
  lemma FollowedIsFirst(g: GraphView, from: Identity, to: Identity, p: seq<Identity>, parent: map<Identity, Identity>,
                        dist: map<Identity, nat>, rank: map<Identity, nat>)
    requires Ranked(g, parent, rank) && Follows(p, from, parent) && Walk(g, p, from, to) && AtLeast(g, from, to, |p| - 1)
    requires dist.Keys == rank.Keys == parent.Keys + {from} && VisitedUpTo(g, dist, |p| - 1) && to in dist
    requires forall v :: v in dist ==> AtLeast(g, from, v, dist[v])
    ensures FirstShortest(g, p, from, to)
  {
    forall w | Walk(g, w, from, to) && |w| == |p| && w != p ensures ComesFirst(g, p, w) {
      forall k | 0 < k < |w| ensures w[k] in parent {
        if k < |w| - 1 {
          WalkVisited(g, from, to, w, dist, k);
        }
        LeavesOnce(g, from, to, w, k);
        assert w[k] in dist;
      }
      FollowedComesFirst(g, parent, rank, from, p, w);
    }
  }

  // ----- Path

  /** Path: the first of the shortest directed walks of observed edges in the order
      of the relationship IDs, or nothing exactly when an endpoint is zero or
      unobserved or no walk exists. */
  method Path(g: GraphView, from: Identity, to: Identity) returns (path: seq<Identity>)
    requires Closed(g)
    ensures path != [] ==> FirstShortest(g, path, from, to)
    ensures path == [] <==>
      from.IsZero() || to.IsZero() || from !in g.nodes || to !in g.nodes || !exists w :: Walk(g, w, from, to)
  {
    if from.IsZero() || to.IsZero() {
      return [];
    }
    if from !in g.nodes {
      return [];
    }
    if to !in g.nodes {
      return [];
    }
    if from == to {
      OneNode(g, from);
      return [from];
    }
    var parent, found;
    ghost var dist, rank;
    parent, found, dist, rank := Search(g, from, to);
    if !found {
      return [];
    }
    path := Reconstruct(g, from, to, parent, dist);
    path := Reverse(path);
    assert Walk(g, path, from, to);
    FollowedIsFirst(g, from, to, path, parent, dist, rank);
  }

  lemma OneNode(g: GraphView, from: Identity)
    ensures FirstShortest(g, [from], from, from)
  {
    forall w | Walk(g, w, from, from) && |w| == 1 ensures w == [from] {
    }
  }

  /** The BFS loops. */
  method Search(g: GraphView, from: Identity, to: Identity)
      returns (parent: map<Identity, Identity>, found: bool, ghost dist: map<Identity, nat>, ghost rank: map<Identity, nat>)
    requires Closed(g) && from in g.nodes && from != to
    ensures found ==> Linked(g, from, parent, dist) && to in parent && VisitedUpTo(g, dist, dist[to])
    ensures found ==> forall v :: v in dist ==> AtLeast(g, from, v, dist[v])
    ensures Ranked(g, parent, rank) && rank.Keys == dist.Keys
    ensures !found ==> !exists w :: Walk(g, w, from, to)
  {
    var queue := [from];
    var visited := {from};
    parent := map[];
    found := false;
    dist, rank := map[from := 0], map[from := 0];
    while |queue| > 0 && !found
      invariant Searched(g, from, queue, visited, parent, dist)
      invariant rank.Keys == visited && Ranked(g, parent, rank)
      invariant !found ==> RankedQueue(g, queue, parent, rank)
      invariant found ==> to in dist && VisitedUpTo(g, dist, dist[to])
      invariant found <==> to in visited
      invariant !found ==> Settled(g, queue, visited)
      decreases g.nodes - visited, |queue|
    {
      StartReading(g, from, queue, visited, parent, dist);
      StartRanked(g, queue, parent, rank);
      queue, visited, parent, found, dist, rank :=
        ReadNeighbors(g, from, to, queue[0], queue[1..], visited, parent, dist, rank);
    }
    if !found {
      NoWalkLeaves(g, from, to, visited);
    }
  }

  lemma StartReading(g: GraphView, from: Identity, queue: seq<Identity>, visited: set<Identity>,
                     parent: map<Identity, Identity>, dist: map<Identity, nat>)
    requires Searched(g, from, queue, visited, parent, dist) && Settled(g, queue, visited) && queue != []
    ensures Reading(g, from, queue[0], 0, queue[1..], visited, parent, dist)
  {
    assert forall u :: u in queue <==> u == queue[0] || u in queue[1..];
  }

  /** The inner loop: read the neighbours of the dequeued node. */
  method ReadNeighbors(g: GraphView, from: Identity, to: Identity, cur: Identity, queue0: seq<Identity>, visited0: set<Identity>,
                       parent0: map<Identity, Identity>, ghost dist0: map<Identity, nat>, ghost rank0: map<Identity, nat>)
      returns (queue: seq<Identity>, visited: set<Identity>, parent: map<Identity, Identity>, found: bool,
               ghost dist: map<Identity, nat>, ghost rank: map<Identity, nat>)
    requires Closed(g) && Midway(g, from, cur, 0, queue0, visited0, parent0, dist0, rank0) && to !in visited0
    ensures rank.Keys == visited && Ranked(g, parent, rank) && (!found ==> RankedQueue(g, queue, parent, rank))
    ensures Searched(g, from, queue, visited, parent, dist)
    ensures found ==> to in dist && VisitedUpTo(g, dist, dist[to])
    ensures found <==> to in visited
    ensures !found ==> Settled(g, queue, visited)
    ensures Grown(visited0, queue0, visited, queue)
  {
    queue, visited, parent, found, dist, rank := ReadEach(g, from, to, cur, queue0, visited0, parent0, dist0, rank0);
    if found {
      FoundMeans(g, from, to, queue, visited, parent, dist, rank);
    } else {
      AllRead(g, from, cur, queue, visited, parent, dist, rank);
    }
  }

  /** More is visited, or no more is queued. */
  ghost predicate Grown(visited0: set<Identity>, queue0: seq<Identity>, visited: set<Identity>, queue: seq<Identity>) {
    visited0 <= visited && (visited == visited0 ==> |queue| <= |queue0|)
  }

  lemma GrownOn(v0: set<Identity>, q0: seq<Identity>, v: set<Identity>, q: seq<Identity>, w: set<Identity>, r: seq<Identity>)
    requires Grown(v0, q0, v, q) && Grown(v, q, w, r)
    ensures Grown(v0, q0, w, r)
  {
  }

  /** One neighbour after another, until the end of the path is found. */
  method ReadEach(g: GraphView, from: Identity, to: Identity, cur: Identity, queue0: seq<Identity>, visited0: set<Identity>,
                  parent0: map<Identity, Identity>, ghost dist0: map<Identity, nat>, ghost rank0: map<Identity, nat>)
      returns (queue: seq<Identity>, visited: set<Identity>, parent: map<Identity, Identity>, found: bool,
               ghost dist: map<Identity, nat>, ghost rank: map<Identity, nat>)
    requires Closed(g) && Midway(g, from, cur, 0, queue0, visited0, parent0, dist0, rank0) && to !in visited0
    ensures found ==> AtEnd(g, from, to, queue, visited, parent, dist, rank)
    ensures !found ==> Midway(g, from, cur, |g.Neighbors(cur)|, queue, visited, parent, dist, rank) && to !in visited
    ensures Grown(visited0, queue0, visited, queue)
  {
    queue, visited, parent, found, dist, rank := queue0, visited0, parent0, false, dist0, rank0;
    for j := 0 to |g.Neighbors(cur)|
      invariant Midway(g, from, cur, j, queue, visited, parent, dist, rank)
      invariant to !in visited && !found
      invariant Grown(visited0, queue0, visited, queue)
    {
      ghost var v, q := visited, queue;
      queue, visited, parent, found, dist, rank := ReadNeighbor(g, from, to, cur, j, queue, visited, parent, dist, rank);
      GrownOn(visited0, queue0, v, q, visited, queue);
      if found {
        return;
      }
    }
  }

  lemma FoundMeans(g: GraphView, from: Identity, to: Identity, queue: seq<Identity>, visited: set<Identity>,
                   parent: map<Identity, Identity>, dist: map<Identity, nat>, rank: map<Identity, nat>)
    requires AtEnd(g, from, to, queue, visited, parent, dist, rank)
    ensures rank.Keys == visited && Ranked(g, parent, rank) && Searched(g, from, queue, visited, parent, dist)
    ensures to in visited && to in dist && VisitedUpTo(g, dist, dist[to])
  {
  }

  /** The search once all of cur's neighbours are read. */
  lemma AllRead(g: GraphView, from: Identity, cur: Identity, queue: seq<Identity>, visited: set<Identity>,
                parent: map<Identity, Identity>, dist: map<Identity, nat>, rank: map<Identity, nat>)
    requires Midway(g, from, cur, |g.Neighbors(cur)|, queue, visited, parent, dist, rank)
    ensures rank.Keys == visited && Ranked(g, parent, rank) && RankedQueue(g, queue, parent, rank)
    ensures Searched(g, from, queue, visited, parent, dist) && Settled(g, queue, visited)
  {
    Finish(g, from, cur, queue, visited, parent, dist);
    FinishRanked(g, cur, |g.Neighbors(cur)|, queue, parent, rank);
  }

  /** The search in the middle of cur's neighbours. */
  ghost predicate Midway(g: GraphView, from: Identity, cur: Identity, n: nat, queue: seq<Identity>, visited: set<Identity>,
                         parent: map<Identity, Identity>, dist: map<Identity, nat>, rank: map<Identity, nat>) {
    && Reading(g, from, cur, n, queue, visited, parent, dist)
    && rank.Keys == visited && RankedReading(g, cur, n, queue, parent, rank)
  }

  /** The search at its end. */
  ghost predicate AtEnd(g: GraphView, from: Identity, to: Identity, queue: seq<Identity>, visited: set<Identity>,
                        parent: map<Identity, Identity>, dist: map<Identity, nat>, rank: map<Identity, nat>) {
    && Searched(g, from, queue, visited, parent, dist) && rank.Keys == visited && Ranked(g, parent, rank)
    && to in visited && VisitedUpTo(g, dist, dist[to])
  }

  /** One round of the inner loop. */
  method ReadNeighbor(g: GraphView, from: Identity, to: Identity, cur: Identity, j: nat, queue0: seq<Identity>, visited0: set<Identity>,
                      parent0: map<Identity, Identity>, ghost dist0: map<Identity, nat>, ghost rank0: map<Identity, nat>)
      returns (queue: seq<Identity>, visited: set<Identity>, parent: map<Identity, Identity>, found: bool,
               ghost dist: map<Identity, nat>, ghost rank: map<Identity, nat>)
    requires Closed(g) && Midway(g, from, cur, j, queue0, visited0, parent0, dist0, rank0) && to !in visited0
    requires j < |g.Neighbors(cur)|
    ensures found ==> AtEnd(g, from, to, queue, visited, parent, dist, rank)
    ensures !found ==> Midway(g, from, cur, j + 1, queue, visited, parent, dist, rank) && to !in visited
    ensures Grown(visited0, queue0, visited, queue)
  {
    queue, visited, parent, found, dist, rank := queue0, visited0, parent0, false, dist0, rank0;
    var nxt := g.Neighbors(cur)[j].to;
    if nxt in visited {
      SkipRanked(g, cur, j, queue, parent, rank);
      return;
    }
    TakeNext(g, from, cur, j, queue, visited, parent, dist, rank, nxt);
    visited := visited + {nxt};
    parent := parent[nxt := cur];
    dist, rank := dist[nxt := dist[cur] + 1], rank[nxt := |rank|];
    if nxt == to {
      found := true;
      return;
    }
    queue := queue + [nxt];
  }

  /** All that one discovery keeps. */
  lemma TakeNext(g: GraphView, from: Identity, cur: Identity, n: nat, queue: seq<Identity>, visited: set<Identity>,
                 parent: map<Identity, Identity>, dist: map<Identity, nat>, rank: map<Identity, nat>, nxt: Identity)
    requires Closed(g) && Midway(g, from, cur, n, queue, visited, parent, dist, rank)
    requires n < |g.Neighbors(cur)| && nxt == g.Neighbors(cur)[n].to && nxt !in visited
    ensures var v, p, d, r := visited + {nxt}, parent[nxt := cur], dist[nxt := dist[cur] + 1], rank[nxt := |rank|];
      AtEnd(g, from, nxt, queue, v, p, d, r) && Midway(g, from, cur, n + 1, queue + [nxt], v, p, d, r)
  {
    ReadSources(g, from, cur, n, queue, visited, parent, dist, nxt);
    DiscoverRanked(g, cur, n, queue, parent, rank, nxt);
    Enqueue(g, from, cur, n, queue, visited, parent, dist, nxt);
    FoundBelow(g, from, cur, n, queue, visited, parent, dist, nxt);
  }

  lemma ReadSources(g: GraphView, from: Identity, cur: Identity, n: nat, queue: seq<Identity>, visited: set<Identity>,
                    parent: map<Identity, Identity>, dist: map<Identity, nat>, nxt: Identity)
    requires Reading(g, from, cur, n, queue, visited, parent, dist) && nxt !in visited
    ensures forall u :: u in visited && Edge(g, u, nxt) ==> u == cur || u in queue
    ensures forall i :: 0 <= i < n ==> g.Neighbors(cur)[i].to in visited
  {
  }

  /** Everything nearer than cur has been read. */
  lemma FoundBelow(g: GraphView, from: Identity, cur: Identity, n: nat, queue: seq<Identity>, visited: set<Identity>,
                   parent: map<Identity, Identity>, dist: map<Identity, nat>, nxt: Identity)
    requires Reading(g, from, cur, n, queue, visited, parent, dist) && nxt !in visited
    ensures VisitedUpTo(g, dist[nxt := dist[cur] + 1], dist[cur] + 1)
  {
  }

  /** parent leads from every found node back to from, one edge per unit of
      distance. */
  ghost predicate Linked(g: GraphView, from: Identity, parent: map<Identity, Identity>, dist: map<Identity, nat>) {
    && dist.Keys == parent.Keys + {from} && dist[from] == 0 && from !in parent
    && forall v {:trigger LinkedAt(g, parent, dist, v)} :: v in parent ==> LinkedAt(g, parent, dist, v)
  }

  ghost predicate LinkedAt(g: GraphView, parent: map<Identity, Identity>, dist: map<Identity, nat>, v: Identity)
    requires v in parent && v in dist
  {
    parent[v] in dist && Edge(g, parent[v], v) && dist[v] == dist[parent[v]] + 1
  }

  ghost predicate BackWalk(g: GraphView, path: seq<Identity>) {
    forall i :: 0 <= i < |path| - 1 ==> Edge(g, path[i + 1], path[i])
  }

  ghost predicate Backwards(path: seq<Identity>, parent: map<Identity, Identity>) {
    forall i :: 0 <= i < |path| - 1 ==> path[i] in parent && parent[path[i]] == path[i + 1]
  }

  /** The walk from to back to from. */
  method Reconstruct(g: GraphView, from: Identity, to: Identity, parent: map<Identity, Identity>, ghost dist: map<Identity, nat>)
      returns (path: seq<Identity>)
    requires Linked(g, from, parent, dist) && to in parent
    ensures |path| == dist[to] + 1 && path[0] == to && path[|path| - 1] == from
    ensures BackWalk(g, path) && Backwards(path, parent)
  {
    path := [to];
    var cur := to;
    while cur != from
      invariant cur in dist && path != [] && path[0] == to && path[|path| - 1] == cur
      invariant |path| - 1 + dist[cur] == dist[to]
      invariant BackWalk(g, path) && Backwards(path, parent)
      decreases dist[cur]
    {
      var p := parent[cur];
      LinkedStep(g, from, parent, dist, cur);
      ExtendBack(g, path, p);
      path := path + [p];
      cur := p;
    }
  }

  lemma ExtendBack(g: GraphView, path: seq<Identity>, p: Identity)
    requires path != [] && Edge(g, p, path[|path| - 1]) && BackWalk(g, path)
    ensures BackWalk(g, path + [p])
  {
  }

  lemma LinkedStep(g: GraphView, from: Identity, parent: map<Identity, Identity>, dist: map<Identity, nat>, v: Identity)
    requires Linked(g, from, parent, dist) && v in dist && v != from
    ensures v in parent && parent[v] in dist && Edge(g, parent[v], v) && dist[v] == dist[parent[v]] + 1
  {
    assert LinkedAt(g, parent, dist, v);
  }

  /** The in-place swap loop. */
  method Reverse(s: seq<Identity>) returns (path: seq<Identity>)
    ensures |path| == |s| && forall k :: 0 <= k < |s| ==> path[k] == s[|s| - 1 - k]
  {
    path := s;
    var i, j := 0, |path| - 1;
    while i < j
      invariant 0 <= i <= j + 1 <= |s| && j == |s| - 1 - i && |path| == |s|
      invariant forall k :: 0 <= k < i || j < k < |s| ==> path[k] == s[|s| - 1 - k]
      invariant forall k :: i <= k <= j ==> path[k] == s[k]
    {
      path := path[i := path[j]][j := path[i]];
      i, j := i + 1, j - 1;
    }
  }
}
