/** The hypergraph memory: nodes and hyperedges, with an adjacency structure and an index per
    memory type that every operation keeps in agreement with them. */
module HypergraphMemory {
  import Arith
  import opened Basics
  import opened Sorting
  import opened Activation
  import opened Spreading
  import opened Outcomes

  datatype MemoryType = Declarative | Procedural | Episodic | Intentional

  const ALL_TYPES: set<MemoryType> := {Declarative, Procedural, Episodic, Intentional}

  lemma TypeIsListed(t: MemoryType)
    ensures t in ALL_TYPES
  {
    match t
    case Declarative =>
    case Procedural =>
    case Episodic =>
    case Intentional =>
  }

  class MemoryNode {
    const id: NodeId
    const content: string
    const memoryType: MemoryType
    const importance: real
    const timestamp: real
    var activation: real
    var accessCount: nat
    var lastAccessed: Option<real>

    constructor (id: NodeId, content: string, memoryType: MemoryType, importance: real, timestamp: real)
      ensures this.id == id && this.content == content && this.memoryType == memoryType
      ensures this.importance == importance && this.timestamp == timestamp
      ensures activation == 1.0 && accessCount == 0 && lastAccessed == None
    {
      this.id, this.content, this.memoryType := id, content, memoryType;
      this.importance, this.timestamp := importance, timestamp;
      activation, accessCount, lastAccessed := 1.0, 0, None;
    }
  }

  class HyperEdge {
    const id: EdgeId
    const nodes: seq<NodeId>
    const relationType: string
    const timestamp: real
    var strength: real

    constructor (id: EdgeId, nodes: seq<NodeId>, relationType: string, strength: real, timestamp: real)
      ensures this.id == id && this.nodes == nodes && this.relationType == relationType
      ensures this.strength == strength && this.timestamp == timestamp
    {
      this.id, this.nodes, this.relationType := id, nodes, relationType;
      this.strength, this.timestamp := strength, timestamp;
    }
  }

  // ---------------------------------------------------------------- consolidation and pruning, on values

  /** Levels of the listed nodes that are stored, added up. */
  function PresentSum(levels: Levels, ns: seq<NodeId>): real {
    if ns == [] then 0.0 else
      var n := ns[|ns| - 1];
      PresentSum(levels, ns[..|ns| - 1]) + (if n in levels then levels[n] else 0.0)
  }

  /** Every level lowered by the rate, but not below 0, except the ones in `rest`. */
  function DecayedBut(levels: Levels, rest: set<NodeId>, rate: real): Levels {
    map i | i in levels :: if i in rest then levels[i] else Max0(levels[i] - rate)
  }

  lemma DecayStep(levels: Levels, rest: set<NodeId>, rate: real, i: NodeId)
    requires i in rest && i in levels
    ensures var mid := DecayedBut(levels, rest, rate);
      mid[i := Max0(mid[i] - rate)] == DecayedBut(levels, rest - {i}, rate)
  {
  }

  /** Levels of two lists add up, a stored node adds its level and any other nothing. */
  lemma {:induction false} PresentSumLaw(levels: Levels, ns: seq<NodeId>, ms: seq<NodeId>, n: NodeId)
    ensures PresentSum(levels, ns + ms) == PresentSum(levels, ns) + PresentSum(levels, ms)
    ensures PresentSum(levels, []) == 0.0 && PresentSum(levels, [n]) == if n in levels then levels[n] else 0.0
    decreases |ms|
  {
    assert [n][..0] == [];
    if ms == [] {
      assert ns + ms == ns;
    } else {
      assert (ns + ms)[..|ns + ms| - 1] == ns + ms[..|ms| - 1];
      PresentSumLaw(levels, ns, ms[..|ms| - 1], n);
    }
  }

  /** An edge gains a tenth, up to 1, exactly if its stored nodes are active by more than a half
      for each node it lists. */
  lemma ConsolidationLaw(levels: Levels, edge: Edge)
    requires edge.nodes != []
    ensures if PresentSum(levels, edge.nodes) > 0.5 * |edge.nodes| as real
            then Consolidated(levels, edge) == (if edge.strength + 0.1 < 1.0 then edge.strength + 0.1 else 1.0)
            else Consolidated(levels, edge) == edge.strength
  {
    var p, q := PresentSum(levels, edge.nodes), |edge.nodes| as real;
    var r := p / q;
    assert r * q == p && 0.0 < q;
    Arith.SignOfProduct(0.5 - r, q);
  }

  predicate CoActive(levels: Levels, edge: Edge) {
    edge.nodes != [] && PresentSum(levels, edge.nodes) / |edge.nodes| as real > 0.5
  }

  ghost function CoActiveEdges(levels: Levels, edges: map<EdgeId, Edge>, es: set<EdgeId>): set<EdgeId> {
    set e | e in es && e in edges && CoActive(levels, edges[e])
  }

  lemma NoneCoActive(levels: Levels, edges: map<EdgeId, Edge>)
    ensures CoActiveEdges(levels, edges, {}) == {}
  {
  }

  lemma CoActiveStep(levels: Levels, edges: map<EdgeId, Edge>, es: set<EdgeId>, e: EdgeId)
    requires e in edges && e in es
    ensures |CoActiveEdges(levels, edges, es)| ==
            |CoActiveEdges(levels, edges, es - {e})| + (if CoActive(levels, edges[e]) then 1 else 0)
  {
    hide CoActive;
    var all, others := CoActiveEdges(levels, edges, es), CoActiveEdges(levels, edges, es - {e});
    assert all == if CoActive(levels, edges[e]) then others + {e} else others;
  }

  function Consolidated(levels: Levels, edge: Edge): real {
    if CoActive(levels, edge) then Min1(edge.strength + 0.1) else edge.strength
  }

  /** Importance times activation times recency, in days. */
  function ValueOf(importance: real, activation: real, timestamp: real, now: real): real
    requires timestamp <= now
  {
    importance * activation * (1.0 / (1.0 + (now - timestamp) / 86400.0))
  }

  /** Value times one plus the age in days is importance times activation, so of two nodes the
      one is worth no more exactly if that holds crosswise. */
  lemma ValueLaw(i: real, a: real, t: real, j: real, b: real, u: real, now: real)
    requires t <= now && u <= now
    ensures var x, y := 1.0 + (now - t) / 86400.0, 1.0 + (now - u) / 86400.0;
      && ValueOf(i, a, t, now) * x == i * a
      && (ValueOf(i, a, t, now) <= ValueOf(j, b, u, now) <==> i * a * y <= j * b * x)
  {
    var x, y := 1.0 + (now - t) / 86400.0, 1.0 + (now - u) / 86400.0;
    Crosswise(i * a, ValueOf(i, a, t, now), x, j * b, ValueOf(j, b, u, now), y);
  }

  lemma Crosswise(p: real, v: real, x: real, q: real, w: real, y: real)
    requires 0.0 < x && 0.0 < y && v == p * (1.0 / x) && w == q * (1.0 / y)
    ensures v * x == p && (v <= w <==> p * y <= q * x)
  {
    var f, h := 1.0 / x, 1.0 / y;
    assert f * x == 1.0 && h * y == 1.0;
    Arith.Regrouped(p, f, x);
    Arith.Regrouped(q, h, y);
    assert v * x == p && w * y == q;
    assert q * x - p * y == (w - v) * (x * y) by {
      assert (w - v) * (x * y) == w * (x * y) - v * (x * y);
      assert w * (x * y) == (w * y) * x && v * (x * y) == (v * x) * y;
    }
    assert 0.0 < x * y;
    Arith.SignOfProduct(w - v, x * y);
  }

  /** The tenth of the nodes with the lowest values. */
  ghost predicate Lowest(values: map<NodeId, real>, victims: set<NodeId>) {
    && victims <= values.Keys && |victims| == |values.Keys| / 10
    && forall v, s :: v in victims && s in values && s !in victims ==> values[v] <= values[s]
  }

  predicate LowerFirst(x: (NodeId, real), y: (NodeId, real)) { x.1 <= y.1 }

  /** Node count after one `add_node`. */
  function SizeAfterAdd(n: nat, maxNodes: int): nat {
    if n + 1 > maxNodes then n + 1 - (n + 1) / 10 else n + 1
  }

  function SizeAfterAdds(k: nat, maxNodes: int): nat {
    if k == 0 then 0 else SizeAfterAdd(SizeAfterAdds(k - 1, maxNodes), maxNodes)
  }

  /** No sequence of additions ever leaves more than max(maxNodes, 9) nodes ... */
  lemma {:induction false} SizeIsBounded(k: nat, maxNodes: int)
    ensures SizeAfterAdds(k, maxNodes) <= if maxNodes > 9 then maxNodes else 9
  {
    if k > 0 { SizeIsBounded(k - 1, maxNodes); }
  }

  lemma {:induction false} FirstNine(k: nat, maxNodes: int)
    requires k <= 9
    ensures SizeAfterAdds(k, maxNodes) == k
  {
    if k > 0 { FirstNine(k - 1, maxNodes); }
  }

  /** ... and `maxNodes` itself bounds the memory exactly when it is at least 9: a tenth of
      fewer than ten nodes is none. */
  lemma BoundHoldsFromNine(maxNodes: int)
    ensures (forall k :: SizeAfterAdds(k, maxNodes) <= maxNodes) <==> maxNodes >= 9
  {
    forall k ensures maxNodes >= 9 ==> SizeAfterAdds(k, maxNodes) <= maxNodes { SizeIsBounded(k, maxNodes); }
    FirstNine(9, maxNodes);
  }

  class HypergraphMemory {
    var nodes: map<NodeId, MemoryNode>
    var edges: map<EdgeId, HyperEdge>
    var nodeEdges: map<NodeId, set<EdgeId>>
    var memoryIndices: map<MemoryType, set<NodeId>>
    var consolidationCount: nat
    const maxNodes: int

    // -------------------------------------------------------------- invariants

    /** Nodes and edges are stored under their own ids. */
    ghost predicate IdsAgree()
      reads this`nodes, this`edges
    {
      && (forall i :: i in nodes ==> nodes[i].id == i)
      && (forall e :: e in edges ==> edges[e].id == e)
    }

    /** A node is in the index of a type exactly if it is stored with that type. */
    ghost predicate IndexAgrees()
      reads this`nodes, this`memoryIndices
    {
      && memoryIndices.Keys == ALL_TYPES
      && forall t, i :: t in ALL_TYPES ==> (i in memoryIndices[t] <==> i in nodes && nodes[i].memoryType == t)
    }

    /** An edge is listed for a node exactly if it is stored and names the node. */
    ghost predicate AdjacencyAgrees()
      reads this`edges, this`nodeEdges
    {
      forall n, e :: e in Listed(nodeEdges, n) <==> e in edges && n in edges[e].nodes
    }

    ghost predicate Valid()
      reads this`nodes, this`edges, this`nodeEdges, this`memoryIndices
    {
      IdsAgree() && IndexAgrees() && AdjacencyAgrees()
    }

    /** No activation is above 1; only decay at a negative rate can change that. */
    ghost predicate Capped()
      reads this`nodes, nodes.Values`activation
    {
      forall i :: i in nodes ==> nodes[i].activation <= 1.0
    }

    /** No stored edge names a missing node. */
    ghost predicate NoDangling()
      reads this`nodes, this`edges
    {
      forall e, k :: e in edges && 0 <= k < |edges[e].nodes| ==> edges[e].nodes[k] in nodes
    }

    /** The hypergraph that activation spreads over. */
    ghost function View(): Graph
      reads this`nodes, this`edges, this`nodeEdges, edges.Values`strength
    {
      Graph(nodes.Keys, map e | e in edges :: Edge(edges[e].nodes, edges[e].strength), nodeEdges)
    }

    lemma ViewIsClosed()
      requires AdjacencyAgrees()
      ensures Closed(View())
    {
      forall n, e | e in Listed(View().adjacency, n) ensures e in View().edges {
        assert e in Listed(nodeEdges, n);
      }
    }

    constructor (maxNodes: int)
      ensures Valid() && Capped() && NoDangling()
      ensures nodes == map[] && edges == map[] && nodeEdges == map[] && consolidationCount == 0
      ensures this.maxNodes == maxNodes
    {
      nodes, edges, nodeEdges := map[], map[], map[];
      memoryIndices := map t | t in ALL_TYPES :: {};
      consolidationCount := 0;
      this.maxNodes := maxNodes;
    }

    // -------------------------------------------------------------- activation

    ghost function Levels(): map<NodeId, real>
      reads this`nodes, nodes.Values`activation
    {
      map i | i in nodes :: nodes[i].activation
    }

    lemma CappedMeans()
      ensures Levels().Keys == nodes.Keys && (Capped() <==> AtMostOne(Levels()))
    {
      assert forall i :: i in nodes ==> Levels()[i] == nodes[i].activation;
    }

    /** Activates a node and spreads half of the amount, in some order.  From levels of at most
        1, every level ends between the bounds set by what it gains and loses along walks of
        at most two hops; if no walk takes anything from it, as with nonnegative strengths, it
        ends at all that it had and received. */
    method ActivateNode(nodeId: NodeId, activation: real, now: real)
      requires Valid()
      modifies nodes.Values
      ensures Valid() && View() == old(View()) && Closed(View())
      ensures old(Capped()) ==> Capped()
      ensures nodeId !in nodes ==> Levels() == old(Levels())
      ensures nodeId in nodes ==>
                Spreads(View(), Boosted(old(Levels()), nodeId, activation), Levels(), nodeId, activation * 0.5, 2)
      ensures nodeId in nodes && old(Capped()) ==> forall i :: i in old(Levels()) ==>
                var x := old(Levels())[i] + (if i == nodeId then activation else 0.0);
                && i in Levels() && Settles(View(), Min1(x), nodeId, activation * 0.5, 2, i, Levels()[i])
                && (NonNegative(View()) || NothingTaken(View(), nodeId, activation * 0.5, 2, i) ==>
                      Levels()[i] == Min1(x + Received(View(), nodeId, activation * 0.5, 2, i)))
      ensures nodeId in nodes && old(Capped()) ==> forall i, ws ::
                i in old(Levels()) && AreCarriers(View(), nodeId, activation * 0.5, 2, i, ws)
                && (NonNegative(View()) || NothingTaken(View(), nodeId, activation * 0.5, 2, i)) ==>
                  var x := old(Levels())[i] + (if i == nodeId then activation else 0.0);
                  && i in Levels() && AllStored(View(), ws)
                  && Levels()[i] == Min1(x + Total(View(), activation * 0.5, ws))
      ensures nodeId in nodes ==> nodes[nodeId].accessCount == old(nodes[nodeId].accessCount) + 1
                                  && nodes[nodeId].lastAccessed == Some(now)
    {
      hide Received, AreCarriers, AllStored, Total, NothingTaken, NonNegative, Settles, Closed, RaisedFrom, Spreads;
      hide IdsAgree, IndexAgrees, AdjacencyAgrees;
      ViewIsClosed();
      CappedMeans();
      if nodeId !in nodes { return; }
      ghost var g, before := View(), Levels();
      Boost(nodeId, activation, now);
      SpreadActivation(nodeId, activation * 0.5, 2, g);
      if old(Capped()) {
        Activated(g, before, Levels(), nodeId, activation, activation * 0.5, 2);
        ActivatedPlainly(g, before, Levels(), nodeId, activation, activation * 0.5, 2);
        CappedMeans();
      }
    }

    method Boost(nodeId: NodeId, activation: real, now: real)
      requires Valid() && nodeId in nodes
      modifies nodes.Values
      ensures Levels() == Boosted(old(Levels()), nodeId, activation)
      ensures nodes[nodeId].accessCount == old(nodes[nodeId].accessCount) + 1
      ensures nodes[nodeId].lastAccessed == Some(now)
    {
      RaiseNode(nodeId, activation);
      var node := nodes[nodeId];
      node.accessCount := node.accessCount + 1;
      node.lastAccessed := Some(now);
    }

    /** The recursion, its edges taken in any order, ends in an outcome for that order. */
    method SpreadActivation(source: NodeId, activation: real, depth: int, ghost g: Graph)
      requires Valid() && g == View() && Closed(g)
      modifies nodes.Values`activation
      ensures View() == g
      ensures Spreads(g, old(Levels()), Levels(), source, activation, if depth < 0 then 0 else depth)
      decreases depth, 2
    {
      hide ThroughNodes, ThroughNode, Closed;
      ghost var before := Levels();
      if depth <= 0 || activation < CUTOFF { return; }
      var rest := Listed(nodeEdges, source);
      ghost var done: set<EdgeId> := {};
      while rest != {}
        invariant View() == g
        invariant done + rest == Listed(g.adjacency, source) && done !! rest
        invariant forall e :: e in Listed(g.adjacency, source) ==> e in g.edges
        invariant ThroughEdges(g, before, Levels(), done, source, activation, depth)
      {
        var e :| e in rest;
        ghost var mid := Levels();
        SpreadThroughEdge(source, activation, depth, e, g);
        EdgeLast(g, before, mid, Levels(), done, e, source, activation, depth);
        rest := rest - {e};
        done := done + {e};
      }
      assert done == Listed(g.adjacency, source);
    }

    method SpreadThroughEdge(source: NodeId, activation: real, depth: int, e: EdgeId, ghost g: Graph)
      requires Valid() && g == View() && Closed(g) && depth > 0 && activation >= CUTOFF && e in g.edges
      modifies nodes.Values`activation
      ensures View() == g
      ensures ThroughNodes(g, old(Levels()), Levels(), g.edges[e].nodes, source, Share(g, activation, e), depth)
      decreases depth, 1
    {
      hide ThroughNode, Closed;
      ghost var before := Levels();
      var edge := edges[e];
      var share := activation * edge.strength;
      assert share == Share(g, activation, e) && edge.nodes == g.edges[e].nodes;
      for k := 0 to |edge.nodes|
        invariant View() == g
        invariant ThroughNodes(g, before, Levels(), edge.nodes[..k], source, share, depth)
      {
        var n := edge.nodes[k];
        assert edge.nodes[..k + 1] == edge.nodes[..k] + [n];
        ghost var mid := Levels();
        SpreadToNode(source, share, depth, n, g);
        NodeLast(g, before, mid, Levels(), edge.nodes[..k], n, source, share, depth);
      }
      assert edge.nodes[..|edge.nodes|] == edge.nodes;
    }

    /** A node other than the source, if it is stored, is raised and spreads on. */
    method SpreadToNode(source: NodeId, share: real, depth: int, n: NodeId, ghost g: Graph)
      requires Valid() && g == View() && Closed(g) && depth > 0
      modifies nodes.Values`activation
      ensures View() == g
      ensures ThroughNode(g, old(Levels()), Levels(), n, source, share, depth)
      decreases depth, 0
    {
      hide Spreads, Closed;
      if n != source && n in nodes {
        RaiseNode(n, share);
        SpreadActivation(n, share, depth - 1, g);
      }
    }

    method RaiseNode(n: NodeId, amount: real)
      requires Valid() && n in nodes
      modifies nodes.Values`activation
      ensures Levels() == old(Levels())[n := Min1(old(Levels())[n] + amount)]
    {
      var node := nodes[n];
      assert forall i :: i in nodes && i != n ==> nodes[i] != node;
      node.activation := Min1(node.activation + amount);
    }

    /** A rate that is not negative keeps every level at most 1. */
    method DecayActivation(rate: real)
      requires Valid()
      modifies nodes.Values`activation
      ensures Valid() && (0.0 <= rate && old(Capped()) ==> Capped())
      ensures Levels().Keys == old(Levels()).Keys
      ensures forall i :: i in old(Levels()) ==> Levels()[i] == Max0(old(Levels())[i] - rate)
    {
      hide IndexAgrees, AdjacencyAgrees, Capped;
      CappedMeans();
      ghost var before := Levels();
      var rest := nodes.Keys;
      assert DecayedBut(before, rest, rate) == before;
      while rest != {}
        invariant rest <= nodes.Keys && Levels() == DecayedBut(before, rest, rate)
      {
        var i :| i in rest;
        DecayNode(i, rate);
        DecayStep(before, rest, rate, i);
        rest := rest - {i};
      }
      CappedMeans();
    }

    method DecayNode(n: NodeId, rate: real)
      requires IdsAgree() && n in nodes
      modifies nodes.Values`activation
      ensures Levels() == old(Levels())[n := Max0(old(Levels())[n] - rate)]
    {
      var node := nodes[n];
      assert forall i :: i in nodes && i != n ==> nodes[i] != node;
      node.activation := Max0(node.activation - rate);
    }

    // -------------------------------------------------------------- edges

    /** `edgeId` is fresh.  Dangling edges come only from naming a missing node. */
    method AddEdge(edgeId: EdgeId, nodeIds: seq<NodeId>, relationType: string, strength: real, now: real)
      requires Valid() && edgeId !in edges
      modifies this
      ensures Valid()
      ensures nodes == old(nodes) && memoryIndices == old(memoryIndices)
      ensures consolidationCount == old(consolidationCount)
      ensures edges.Keys == old(edges).Keys + {edgeId} && fresh(edges[edgeId])
      ensures forall e :: e in old(edges) ==> edges[e] == old(edges)[e]
      ensures edges[edgeId].nodes == nodeIds && edges[edgeId].strength == strength
              && edges[edgeId].relationType == relationType && edges[edgeId].timestamp == now
      ensures forall n :: Listed(nodeEdges, n) == Listed(old(nodeEdges), n) + (if n in nodeIds then {edgeId} else {})
      ensures NoDangling() <==> old(NoDangling()) && forall n :: n in nodeIds ==> n in nodes
    {
      var edge := new HyperEdge(edgeId, nodeIds, relationType, strength, now);
      edges := edges[edgeId := edge];
      ghost var before := nodeEdges;
      for k := 0 to |nodeIds|
        invariant edges == old(edges)[edgeId := edge] && nodes == old(nodes) && memoryIndices == old(memoryIndices)
        invariant consolidationCount == old(consolidationCount) && edge.strength == strength
        invariant forall n :: Listed(nodeEdges, n) == Listed(before, n) + (if n in nodeIds[..k] then {edgeId} else {})
      {
        var n := nodeIds[k];
        assert nodeIds[..k + 1] == nodeIds[..k] + [n];
        nodeEdges := nodeEdges[n := Listed(nodeEdges, n) + {edgeId}];
      }
      assert nodeIds[..|nodeIds|] == nodeIds;
    }

    /** Unknown edges are left alone; a known one leaves the store and every adjacency set. */
    method RemoveEdge(edgeId: EdgeId)
      requires AdjacencyAgrees() && IdsAgree()
      modifies this`edges, this`nodeEdges
      ensures AdjacencyAgrees() && IdsAgree()
      ensures edges == old(edges) - {edgeId}
      ensures nodeEdges.Keys == old(nodeEdges).Keys
      ensures forall n :: Listed(nodeEdges, n) == Listed(old(nodeEdges), n) - {edgeId}
    {
      if edgeId !in edges {
        assert forall n :: edgeId !in Listed(nodeEdges, n);
        return;
      }
      var edge := edges[edgeId];
      ghost var before := nodeEdges;
      for k := 0 to |edge.nodes|
        invariant edges == old(edges) && nodeEdges.Keys == before.Keys
        invariant forall n ::
          Listed(nodeEdges, n) == Listed(before, n) - (if n in edge.nodes[..k] then {edgeId} else {})
      {
        var n := edge.nodes[k];
        assert edge.nodes[..k + 1] == edge.nodes[..k] + [n];
        if n in nodeEdges {
          nodeEdges := nodeEdges[n := nodeEdges[n] - {edgeId}];
        }
      }
      assert edge.nodes[..|edge.nodes|] == edge.nodes;
      edges := edges - {edgeId};
      assert forall n :: n !in edge.nodes ==> edgeId !in Listed(before, n);
    }

    // -------------------------------------------------------------- removing nodes

    /** What removing nodes leaves of the edges: those that name none of them. */
    ghost predicate EdgesWithout(before: map<EdgeId, HyperEdge>, removed: set<NodeId>)
      reads this`edges
    {
      && (forall e :: e in edges <==> e in before && forall n :: n in before[e].nodes ==> n !in removed)
      && (forall e :: e in edges ==> edges[e] == before[e])
    }

    lemma OnlyOldEdges(before: map<EdgeId, HyperEdge>, removed: set<NodeId>)
      requires EdgesWithout(before, removed)
      ensures edges.Keys <= before.Keys && edges.Values <= before.Values
    {
    }

    /** A stored node leaves the store, its index and, with its edges, the adjacency. */
    method RemoveNode(nodeId: NodeId)
      requires Valid()
      modifies this
      ensures Valid() && consolidationCount == old(consolidationCount)
      ensures nodes == old(nodes) - {nodeId}
      ensures nodeId in old(nodes) ==> EdgesWithout(old(edges), {nodeId})
      ensures nodeId !in old(nodes) ==> edges == old(edges) && nodeEdges == old(nodeEdges)
    {
      hide AdjacencyAgrees, EdgesWithout;
      if nodeId !in nodes {
        assert nodes == nodes - {nodeId};
        return;
      }
      var node := nodes[nodeId];
      memoryIndices := memoryIndices[node.memoryType := memoryIndices[node.memoryType] - {nodeId}];
      RemoveEdgesOf(nodeId);
      DropNode(nodeId);
    }

    /** The node itself, once its index and its edges are gone. */
    method DropNode(nodeId: NodeId)
      requires IdsAgree() && AdjacencyAgrees() && Listed(nodeEdges, nodeId) == {}
      modifies this`nodes, this`nodeEdges
      ensures IdsAgree() && AdjacencyAgrees() && nodes == old(nodes) - {nodeId}
    {
      nodes := nodes - {nodeId};
      ghost var adjacency := nodeEdges;
      if nodeId in nodeEdges {
        nodeEdges := nodeEdges - {nodeId};
      }
      assert forall n :: Listed(nodeEdges, n) == Listed(adjacency, n);
    }

    /** Each edge listed for the node, in any order. */
    method RemoveEdgesOf(nodeId: NodeId)
      requires AdjacencyAgrees() && IdsAgree()
      modifies this`edges, this`nodeEdges
      ensures AdjacencyAgrees() && IdsAgree()
      ensures EdgesWithout(old(edges), {nodeId}) && Listed(nodeEdges, nodeId) == {}
    {
      var rest := Listed(nodeEdges, nodeId);
      while rest != {}
        invariant AdjacencyAgrees() && IdsAgree()
        invariant Listed(nodeEdges, nodeId) == rest
        invariant forall e :: e in edges <==> e in old(edges) && (nodeId in old(edges)[e].nodes ==> e in rest)
        invariant forall e :: e in edges ==> edges[e] == old(edges)[e]
      {
        var e :| e in rest;
        RemoveEdge(e);
        rest := rest - {e};
      }
    }

    /** No node was made after the given time. */
    ghost predicate Past(now: real)
      reads this`nodes
    {
      forall i :: i in nodes ==> nodes[i].timestamp <= now
    }

    ghost function Values(now: real): map<NodeId, real>
      requires Past(now)
      reads this`nodes, nodes.Values`activation
    {
      map i | i in nodes :: ValueOf(nodes[i].importance, nodes[i].activation, nodes[i].timestamp, now)
    }

    /** No victim has more importance times activation for its age than any other node. */
    ghost predicate WorthLess(all: map<NodeId, MemoryNode>, victims: set<NodeId>, now: real)
      reads all.Values`activation
    {
      && victims <= all.Keys
      && forall v, s :: v in victims && s in all && s !in victims ==>
           all[v].importance * all[v].activation * (1.0 + (now - all[s].timestamp) / 86400.0)
           <= all[s].importance * all[s].activation * (1.0 + (now - all[v].timestamp) / 86400.0)
    }

    lemma LowestIsWorthLess(all: map<NodeId, MemoryNode>, values: map<NodeId, real>, victims: set<NodeId>, now: real)
      requires all.Keys == values.Keys && Lowest(values, victims)
      requires forall i :: i in all ==>
                 all[i].timestamp <= now
                 && values[i] == ValueOf(all[i].importance, all[i].activation, all[i].timestamp, now)
      ensures WorthLess(all, victims, now)
    {
      hide ValueOf;
      forall v, s | v in victims && s in all && s !in victims
        ensures all[v].importance * all[v].activation * (1.0 + (now - all[s].timestamp) / 86400.0)
                <= all[s].importance * all[s].activation * (1.0 + (now - all[v].timestamp) / 86400.0)
      {
        ValueLaw(all[v].importance, all[v].activation, all[v].timestamp,
                 all[s].importance, all[s].activation, all[s].timestamp, now);
      }
    }

    /** Removes exactly the tenth of the nodes with the lowest values, and exactly the edges
        that touch one of them. */
    method PruneMemories(now: real) returns (ghost victims: set<NodeId>)
      requires Valid() && Past(now)
      modifies this
      ensures Valid() && Past(now) && consolidationCount == old(consolidationCount)
      ensures Lowest(old(Values(now)), victims)
      ensures nodes == old(nodes) - victims && EdgesWithout(old(edges), victims)
      ensures old(NoDangling()) ==> NoDangling()
      ensures WorthLess(old(nodes), victims, now)
    {
      hide WorthLess, Lowest, ValueOf, IdsAgree, IndexAgrees, AdjacencyAgrees, LowerFirst;
      var nodeValues := ListValues(now);
      ghost var values := Values(now);
      var sorted := Sort(nodeValues, LowerFirst);
      SortedValues(values, nodeValues, sorted);
      var toRemove := |sorted| / 10;
      victims := Firsts(sorted, toRemove);
      LowestFirsts(values, sorted, toRemove);
      LowestIsWorthLess(nodes, values, victims, now);
      assert forall k :: 0 <= k < |sorted| ==> sorted[k] in sorted && sorted[k].0 in values;
      RemoveFirsts(sorted, toRemove);
    }

    method RemoveFirsts(sorted: seq<(NodeId, real)>, toRemove: nat)
      requires Valid() && toRemove <= |sorted|
      requires forall k :: 0 <= k < |sorted| ==> sorted[k].0 in nodes
      requires forall i, j :: 0 <= i < j < |sorted| ==> sorted[i].0 != sorted[j].0
      modifies this
      ensures Valid() && consolidationCount == old(consolidationCount)
      ensures nodes == old(nodes) - Firsts(sorted, toRemove) && EdgesWithout(old(edges), Firsts(sorted, toRemove))
    {
      for k := 0 to toRemove
        invariant Valid() && consolidationCount == old(consolidationCount)
        invariant nodes == old(nodes) - Firsts(sorted, k)
        invariant EdgesWithout(old(edges), Firsts(sorted, k))
      {
        FirstsStep(sorted, k);
        assert sorted[k].0 in nodes;
        RemoveNode(sorted[k].0);
      }
    }

    /** The ids with their values, in whatever order they are walked. */
    method ListValues(now: real) returns (nodeValues: seq<(NodeId, real)>)
      requires Past(now)
      ensures ListsValues(Values(now), nodeValues)
    {
      hide ValueOf, ListsBut;
      ghost var values := Values(now);
      nodeValues := [];
      var rest := nodes.Keys;
      assert values.Keys == rest;
      NothingListed(values);
      while rest != {}
        invariant rest <= nodes.Keys && ListsBut(values, rest, nodeValues)
      {
        var i :| i in rest;
        var value := NodeValue(nodes[i], now);
        assert value == values[i];
        ListStep(values, rest, nodeValues, i);
        nodeValues := nodeValues + [(i, value)];
        rest := rest - {i};
      }
      AllListed(values, nodeValues);
    }

    static method NodeValue(node: MemoryNode, now: real) returns (value: real)
      requires node.timestamp <= now
      ensures value == ValueOf(node.importance, node.activation, node.timestamp, now)
    {
      var recency := 1.0 / (1.0 + (now - node.timestamp) / 86400.0);
      value := node.importance * node.activation * recency;
    }

    /** `nodeId` is fresh.  Above the bound the lowest tenth goes, which may include the node
        just added. */
    method AddNode(nodeId: NodeId, content: string, memoryType: MemoryType, importance: real, now: real)
        returns (ghost victims: set<NodeId>)
      requires Valid() && Past(now) && nodeId !in nodes
      modifies this
      ensures Valid() && Past(now) && consolidationCount == old(consolidationCount) && (old(Capped()) ==> Capped())
      ensures if |old(nodes).Keys| + 1 > maxNodes
              then Lowest(old(Values(now))[nodeId := ValueOf(importance, 1.0, now, now)], victims)
              else victims == {}
      ensures nodes.Keys == old(nodes).Keys + {nodeId} - victims
      ensures forall i :: i in nodes && i != nodeId ==> nodes[i] == old(nodes)[i]
      ensures nodeId in nodes ==> nodes[nodeId].memoryType == memoryType && nodes[nodeId].importance == importance
                                  && nodes[nodeId].activation == 1.0 && nodes[nodeId].timestamp == now
      ensures |nodes.Keys| == SizeAfterAdd(|old(nodes).Keys|, maxNodes)
      ensures nodeId in nodes ==> fresh(nodes[nodeId])
      ensures EdgesWithout(old(edges), victims)
      ensures old(NoDangling()) ==> NoDangling()
    {
      hide *;
      ghost var before := nodes;
      var node := new MemoryNode(nodeId, content, memoryType, importance, now);
      victims := StoreAndPrune(node, now);
      StoredWithout(before, node, victims, nodes);
    }

    method StoreAndPrune(node: MemoryNode, now: real) returns (ghost victims: set<NodeId>)
      requires Valid() && Past(now) && node.id !in nodes && node.timestamp <= now
      modifies this
      ensures Valid() && Past(now) && consolidationCount == old(consolidationCount)
      ensures nodes == old(nodes)[node.id := node] - victims
      ensures if |old(nodes).Keys| + 1 > maxNodes
              then var value := ValueOf(node.importance, old(node.activation), node.timestamp, now);
                   Lowest(old(Values(now))[node.id := value], victims)
              else victims == {}
      ensures |nodes.Keys| == SizeAfterAdd(|old(nodes).Keys|, maxNodes)
      ensures EdgesWithout(old(edges), victims)
      ensures old(Capped()) && old(node.activation) <= 1.0 ==> Capped()
      ensures old(NoDangling()) ==> NoDangling()
    {
      hide Lowest, EdgesWithout, ValueOf, Valid, NoDangling, Capped;
      InsertValued(node, now);
      victims := PruneIfNecessary(now);
    }

    method PruneIfNecessary(now: real) returns (ghost victims: set<NodeId>)
      requires Valid() && Past(now)
      modifies this
      ensures Valid() && Past(now) && consolidationCount == old(consolidationCount)
      ensures if |old(nodes).Keys| > maxNodes
              then Lowest(old(Values(now)), victims) && |nodes.Keys| == |old(nodes).Keys| - |old(nodes).Keys| / 10
              else victims == {} && |nodes.Keys| == |old(nodes).Keys|
      ensures nodes == old(nodes) - victims && EdgesWithout(old(edges), victims)
      ensures old(NoDangling()) ==> NoDangling()
      ensures old(Capped()) ==> Capped()
    {
      victims := {};
      ghost var values := Values(now);
      assert values.Keys == nodes.Keys;
      if |nodes.Keys| > maxNodes {
        victims := PruneMemories(now);
        CountWithout(old(nodes).Keys, victims);
      } else {
        assert nodes == nodes - {};
      }
    }

    /** Storing a node, with what it does to values, count and dangling edges. */
    method InsertValued(node: MemoryNode, now: real)
      requires Valid() && Past(now) && node.id !in nodes && node.timestamp <= now
      modifies this`nodes, this`memoryIndices
      ensures Valid() && Past(now) && nodes == old(nodes)[node.id := node] && |nodes.Keys| == |old(nodes).Keys| + 1
      ensures Values(now) == old(Values(now))[node.id := ValueOf(node.importance, node.activation, node.timestamp, now)]
      ensures old(NoDangling()) ==> NoDangling()
      ensures old(Capped()) && node.activation <= 1.0 ==> Capped()
    {
      hide IdsAgree, IndexAgrees, AdjacencyAgrees, ValueOf;
      InsertNode(node);
      assert nodes.Keys == old(nodes).Keys + {node.id};
    }

    method InsertNode(node: MemoryNode)
      requires Valid() && node.id !in nodes
      modifies this`nodes, this`memoryIndices
      ensures Valid() && nodes == old(nodes)[node.id := node]
    {
      TypeIsListed(node.memoryType);
      nodes := nodes[node.id := node];
      memoryIndices := memoryIndices[node.memoryType := memoryIndices[node.memoryType] + {node.id}];
    }

    // -------------------------------------------------------------- consolidation

    /** Strengthens edges between co-active nodes and drops the weak ones.  An edge without
        nodes is divided by zero; nothing is dropped then, and each edge is strengthened as
        it should be or not at all. */
    method ConsolidateMemories() returns (strengthened: Option<nat>)
      requires Valid()
      modifies this, edges.Values`strength
      ensures Valid() && (old(Capped()) ==> Capped())
      ensures nodes == old(nodes) && memoryIndices == old(memoryIndices)
      ensures consolidationCount == old(consolidationCount) + 1 && Levels() == old(Levels())
      ensures strengthened.None? <==> exists e :: e in old(edges) && old(edges)[e].nodes == []
      ensures strengthened.None? ==>
                && edges == old(edges)
                && forall e :: e in edges ==>
                     var was := old(View()).edges[e];
                     edges[e].strength == was.strength || edges[e].strength == Consolidated(Levels(), was)
      ensures strengthened.Some? ==>
                && (forall e :: e in edges <==> e in old(edges) && Consolidated(Levels(), old(View()).edges[e]) >= 0.2)
                && (forall e :: e in edges ==> edges[e] == old(edges)[e]
                                               && edges[e].strength == Consolidated(Levels(), old(View()).edges[e]))
                && strengthened.value == |CoActiveEdges(Levels(), old(View()).edges, old(edges).Keys)|
      ensures old(NoDangling()) ==> NoDangling()
    {
      hide CoActiveEdges, CoActive, Consolidated, IndexAgrees, AdjacencyAgrees, IdsAgree, Capped, Levels, View;
      consolidationCount := consolidationCount + 1;
      strengthened := StrengthenEdges();
      if strengthened.None? { return; }
      DropWeakEdges();
    }

    method StrengthenEdges() returns (strengthened: Option<nat>)
      requires IdsAgree()
      modifies edges.Values`strength
      ensures strengthened.None? <==> exists e :: e in edges && edges[e].nodes == []
      ensures strengthened.None? ==> forall e :: e in edges ==>
                var was := old(View()).edges[e];
                edges[e].strength == was.strength || edges[e].strength == Consolidated(Levels(), was)
      ensures strengthened.Some? ==>
                && (forall e :: e in edges ==> edges[e].strength == Consolidated(Levels(), old(View()).edges[e]))
                && strengthened.value == |CoActiveEdges(Levels(), old(View()).edges, edges.Keys)|
    {
      hide CoActive, Consolidated, CoActiveEdges, IdsAgree;
      ghost var before, levels := View().edges, Levels();
      var count, rest := 0, edges.Keys;
      assert before.Keys == edges.Keys;
      NoneCoActive(levels, before);
      while rest != {}
        invariant rest <= edges.Keys && Levels() == levels
        invariant forall e :: e in edges && e !in rest ==> edges[e].nodes != []
        invariant forall e :: e in edges ==>
          edges[e].strength == if e in rest then before[e].strength else Consolidated(levels, before[e])
        invariant count + |CoActiveEdges(levels, before, rest)| == |CoActiveEdges(levels, before, before.Keys)|
      {
        var e :| e in rest;
        if |edges[e].nodes| == 0 { return None; }
        var stronger := StrengthenEdge(e, before[e], levels);
        CoActiveStep(levels, before, rest, e);
        if stronger { count := count + 1; }
        rest := rest - {e};
      }
      return Some(count);
    }

    method StrengthenEdge(e: EdgeId, ghost was: Edge, ghost levels: Levels) returns (stronger: bool)
      requires IdsAgree() && e in edges && edges[e].nodes != [] && was == Edge(edges[e].nodes, edges[e].strength)
      requires levels == Levels()
      modifies edges.Values`strength
      ensures edges[e].strength == Consolidated(levels, was) && Levels() == levels
      ensures forall d :: d in edges && d != e ==> edges[d].strength == old(edges[d].strength)
      ensures stronger == CoActive(levels, was)
    {
      var edge := edges[e];
      assert forall d :: d in edges && d != e ==> edges[d] != edge;
      var total := SumPresent(edge.nodes);
      stronger := total / |edge.nodes| as real > 0.5;
      if stronger {
        edge.strength := Min1(edge.strength + 0.1);
      }
    }

    method SumPresent(ns: seq<NodeId>) returns (total: real)
      ensures total == PresentSum(Levels(), ns)
    {
      total := 0.0;
      for k := 0 to |ns|
        invariant total == PresentSum(Levels(), ns[..k])
      {
        assert ns[..k + 1][..k] == ns[..k];
        if ns[k] in nodes { total := total + nodes[ns[k]].activation; }
      }
      assert ns[..|ns|] == ns;
    }

    /** Every edge weaker than 0.2, in any order. */
    method DropWeakEdges()
      requires AdjacencyAgrees() && IdsAgree()
      modifies this`edges, this`nodeEdges
      ensures AdjacencyAgrees() && IdsAgree()
      ensures forall e :: e in edges <==> e in old(edges) && old(edges)[e].strength >= 0.2
      ensures forall e :: e in edges ==> edges[e] == old(edges)[e]
    {
      var weak := set e | e in edges && edges[e].strength < 0.2;
      while weak != {}
        invariant AdjacencyAgrees() && IdsAgree()
        invariant forall e :: e in weak ==> e in old(edges) && old(edges)[e].strength < 0.2
        invariant forall e :: e in edges <==> e in old(edges) && (old(edges)[e].strength < 0.2 ==> e in weak)
        invariant forall e :: e in edges ==> edges[e] == old(edges)[e]
      {
        var e :| e in weak;
        RemoveEdge(e);
        weak := weak - {e};
      }
    }
  }

  /** With ten to nineteen nodes one goes; if the node just stored is worth less than every
      other, it is that one.  Its id was handed out all the same. */
  lemma NewNodeIsPruned(others: map<NodeId, real>, id: NodeId, importance: real, now: real)
    requires id !in others && 9 <= |others.Keys| < 19
    requires forall v :: v in others ==> ValueOf(importance, 1.0, now, now) < others[v]
    ensures var values := others[id := ValueOf(importance, 1.0, now, now)];
      forall victims :: Lowest(values, victims) <==> victims == {id}
  {
    hide ValueOf;
    var values := others[id := ValueOf(importance, 1.0, now, now)];
    assert values.Keys == others.Keys + {id};
    assert |{id}| == 1;
    forall victims | Lowest(values, victims) ensures victims == {id} {
      var v :| v in victims;
      assert |victims - {v}| == 0;
      assert victims == {v};
      assert v == id || values[v] <= values[id];
    }
  }

  lemma StoredWithout(before: map<NodeId, MemoryNode>, node: MemoryNode, victims: set<NodeId>,
                      after: map<NodeId, MemoryNode>)
    requires after == before[node.id := node] - victims
    ensures after.Keys == before.Keys + {node.id} - victims
    ensures forall i :: i in after && i != node.id ==> i in before && after[i] == before[i]
    ensures node.id in after ==> after[node.id] == node
  {
  }

  lemma CountWithout(all: set<NodeId>, victims: set<NodeId>)
    requires victims <= all
    ensures |all - victims| == |all| - |victims|
  {
  }

  /** Every entry of the map once. */
  ghost predicate ListsValues(values: map<NodeId, real>, list: seq<(NodeId, real)>) {
    && |list| == |values.Keys|
    && (forall i, j :: 0 <= i < j < |list| ==> list[i].0 != list[j].0)
    && (forall v :: v in list <==> v.0 in values && v.1 == values[v.0])
  }

  /** Every entry but those of the ids in `rest`. */
  ghost predicate ListsBut(values: map<NodeId, real>, rest: set<NodeId>, list: seq<(NodeId, real)>) {
    && |list| == |values.Keys - rest|
    && (forall i, j :: 0 <= i < j < |list| ==> list[i].0 != list[j].0)
    && (forall v :: v in list <==> v.0 in values && v.0 !in rest && v.1 == values[v.0])
  }

  lemma NothingListed(values: map<NodeId, real>)
    ensures ListsBut(values, values.Keys, [])
  {
    assert values.Keys - values.Keys == {};
  }

  lemma ListStep(values: map<NodeId, real>, rest: set<NodeId>, list: seq<(NodeId, real)>, i: NodeId)
    requires ListsBut(values, rest, list) && i in rest && rest <= values.Keys
    ensures ListsBut(values, rest - {i}, list + [(i, values[i])])
  {
    assert values.Keys - (rest - {i}) == (values.Keys - rest) + {i};
    assert forall j :: 0 <= j < |list| ==> list[j] in list;
  }

  lemma AllListed(values: map<NodeId, real>, list: seq<(NodeId, real)>)
    requires ListsBut(values, {}, list)
    ensures ListsValues(values, list)
  {
    assert values.Keys - {} == values.Keys;
  }

  ghost function Firsts(list: seq<(NodeId, real)>, k: nat): set<NodeId>
    requires k <= |list|
  {
    set i | 0 <= i < k :: list[i].0
  }

  lemma FirstsStep(list: seq<(NodeId, real)>, k: nat)
    requires k < |list|
    ensures Firsts(list, k + 1) == Firsts(list, k) + {list[k].0}
  {
  }

  lemma {:induction false} FirstsCount(list: seq<(NodeId, real)>, k: nat)
    requires k <= |list| && forall i, j :: 0 <= i < j < |list| ==> list[i].0 != list[j].0
    ensures |Firsts(list, k)| == k
  {
    if k > 0 {
      FirstsCount(list, k - 1);
      FirstsStep(list, k - 1);
    }
  }

  lemma SortedValues(values: map<NodeId, real>, list: seq<(NodeId, real)>, sorted: seq<(NodeId, real)>)
    requires ListsValues(values, list) && sorted == Sort(list, LowerFirst)
    ensures ListsValues(values, sorted) && Sorted(sorted, LowerFirst)
  {
    SortSorts(list, LowerFirst);
    SortKeeps(list, LowerFirst);
    forall v ensures v in sorted <==> v in list {
      assert v in sorted <==> v in multiset(sorted);
      assert v in list <==> v in multiset(list);
    }
    RearrangedNoDuplicates(list, sorted);
    forall i, j | 0 <= i < j < |sorted| ensures sorted[i].0 != sorted[j].0 {
      assert sorted[i] in list && sorted[j] in list && sorted[i] != sorted[j];
    }
  }

  /** The first tenth of the sorted list is the lowest tenth. */
  lemma LowestFirsts(values: map<NodeId, real>, sorted: seq<(NodeId, real)>, k: nat)
    requires ListsValues(values, sorted) && Sorted(sorted, LowerFirst) && k == |sorted| / 10
    ensures Lowest(values, Firsts(sorted, k))
  {
    FirstsCount(sorted, k);
    var victims := Firsts(sorted, k);
    forall v | v in victims ensures v in values {
      var i :| 0 <= i < k && sorted[i].0 == v;
      assert sorted[i] in sorted;
    }
    forall v, s | v in victims && s in values && s !in victims ensures values[v] <= values[s] {
      var i :| 0 <= i < k && sorted[i].0 == v;
      assert sorted[i] in sorted && (s, values[s]) in sorted;
      var j :| 0 <= j < |sorted| && sorted[j] == (s, values[s]);
      assert LowerFirst(sorted[i], sorted[j]);
    }
  }

  // ---------------------------------------------------------------- whole runs

  datatype Operation =
    | InsertNode(node: NodeId, content: string, memoryType: MemoryType, importance: real, at: real)
    | InsertEdge(edge: EdgeId, ends: seq<NodeId>, relationType: string, strength: real, when: real)
    | Activate(id: NodeId, amount: real, now: real)
    | Decay(rate: real)
    | Consolidate

  /** Ids are new when they are handed out, and clock readings do not run backwards. */
  ghost predicate Orderly(ops: seq<Operation>, nodes: set<NodeId>, edges: set<EdgeId>, start: real) {
    && (forall k :: 0 <= k < |ops| && ops[k].InsertNode? ==> ops[k].node !in nodes && start <= ops[k].at)
    && (forall j, k :: 0 <= j < k < |ops| && ops[j].InsertNode? && ops[k].InsertNode? ==>
          ops[j].node != ops[k].node && ops[j].at <= ops[k].at)
    && (forall k :: 0 <= k < |ops| && ops[k].InsertEdge? ==> ops[k].edge !in edges)
    && (forall j, k :: 0 <= j < k < |ops| && ops[j].InsertEdge? && ops[k].InsertEdge? ==> ops[j].edge != ops[k].edge)
  }

  function Bound(n: nat, maxNodes: int): int {
    var floor := if maxNodes > 9 then maxNodes else 9;
    if n > floor then n else floor
  }

  /** Time after an operation. */
  function Later(op: Operation, now: real): real { if op.InsertNode? then op.at else now }

  function NewNodes(op: Operation): set<NodeId> { if op.InsertNode? then {op.node} else {} }

  function NewEdges(op: Operation): set<EdgeId> { if op.InsertEdge? then {op.edge} else {} }

  /** The operations from the k-th on are orderly. */
  ghost predicate OrderlyFrom(ops: seq<Operation>, k: nat, nodes: set<NodeId>, edges: set<EdgeId>, now: real) {
    k <= |ops| && Orderly(ops[k..], nodes, edges, now)
  }

  lemma OrderlyAll(ops: seq<Operation>, nodes: set<NodeId>, edges: set<EdgeId>, now: real)
    requires Orderly(ops, nodes, edges, now)
    ensures OrderlyFrom(ops, 0, nodes, edges, now)
  {
    assert ops[0..] == ops;
  }

  lemma OrderlyFirst(ops: seq<Operation>, k: nat, nodes: set<NodeId>, edges: set<EdgeId>, now: real)
    requires OrderlyFrom(ops, k, nodes, edges, now) && k < |ops|
    ensures Orderly([ops[k]], nodes, edges, now)
  {
    assert ops[k..][0] == ops[k];
  }

  lemma OrderlyRest(ops: seq<Operation>, k: nat, nodes: set<NodeId>, edges: set<EdgeId>, now: real,
                    nodes': set<NodeId>, edges': set<EdgeId>)
    requires OrderlyFrom(ops, k, nodes, edges, now) && k < |ops|
    requires nodes' <= nodes + NewNodes(ops[k]) && edges' <= edges + NewEdges(ops[k])
    ensures OrderlyFrom(ops, k + 1, nodes', edges', Later(ops[k], now))
  {
    var all, rest := ops[k..], ops[k + 1..];
    assert all[0] == ops[k] && forall j :: 0 <= j < |rest| ==> rest[j] == all[j + 1];
  }

  /** The nodes an operation names in a new edge; a dangling edge names one not stored. */
  predicate Anchored(op: Operation, stored: set<NodeId>) {
    op.InsertEdge? ==> forall n :: n in op.ends ==> n in stored
  }

  /** What an operation makes of the stored ids: only an insertion above the bound drops any. */
  ghost predicate NodesStep(op: Operation, before: set<NodeId>, after: set<NodeId>, maxNodes: int) {
    if op.InsertNode? && |before| + 1 > maxNodes
    then after <= before + NewNodes(op) && |after| == SizeAfterAdd(|before|, maxNodes)
    else after == before + NewNodes(op)
  }

  /** The stored ids before each of the first k operations and after the last of them. */
  ghost predicate IsTrace(ops: seq<Operation>, k: nat, maxNodes: int, stored: seq<set<NodeId>>,
                          first: set<NodeId>, last: set<NodeId>)
  {
    && k <= |ops| && |stored| == k + 1 && stored[0] == first && stored[k] == last
    && forall j :: 0 <= j < k ==> NodesStep(ops[j], stored[j], stored[j + 1], maxNodes)
  }

  /** Each of the first k operations names in a new edge only nodes stored at its moment. */
  ghost predicate AllAnchored(ops: seq<Operation>, k: nat, stored: seq<set<NodeId>>) {
    forall j :: 0 <= j < k && j < |ops| && j < |stored| ==> Anchored(ops[j], stored[j])
  }

  lemma EmptyTrace(ops: seq<Operation>, maxNodes: int, nodes: set<NodeId>)
    ensures IsTrace(ops, 0, maxNodes, [nodes], nodes, nodes)
  {
  }

  lemma TraceStep(ops: seq<Operation>, k: nat, maxNodes: int, stored: seq<set<NodeId>>, first: set<NodeId>,
                  before: set<NodeId>, after: set<NodeId>)
    requires k < |ops| && IsTrace(ops, k, maxNodes, stored, first, before)
    requires NodesStep(ops[k], before, after, maxNodes)
    ensures IsTrace(ops, k + 1, maxNodes, stored + [after], first, after)
    ensures AllAnchored(ops, k + 1, stored + [after]) ==> AllAnchored(ops, k, stored) && Anchored(ops[k], before)
  {
    hide NodesStep, Anchored;
    var longer := stored + [after];
    assert forall j :: 0 <= j <= k ==> longer[j] == stored[j];
  }

  /** Every trace stays within the bound. */
  lemma {:induction false} TraceIsBounded(ops: seq<Operation>, k: nat, maxNodes: int, stored: seq<set<NodeId>>,
                                          first: set<NodeId>, last: set<NodeId>)
    requires IsTrace(ops, k, maxNodes, stored, first, last)
    ensures |last| <= Bound(|first|, maxNodes)
  {
    if k > 0 {
      assert stored[..k][k - 1] == stored[k - 1];
      TraceIsBounded(ops, k - 1, maxNodes, stored[..k], first, stored[k - 1]);
      StepIsBounded(ops[k - 1], stored[k - 1], last, |first|, maxNodes);
    }
  }

  lemma StepIsBounded(op: Operation, before: set<NodeId>, after: set<NodeId>, first: nat, maxNodes: int)
    requires NodesStep(op, before, after, maxNodes) && |before| <= Bound(first, maxNodes)
    ensures |after| <= Bound(first, maxNodes)
  {
    if op.InsertNode? && op.node in before { assert before + {op.node} == before; }
    if !op.InsertNode? { assert before + {} == before; }
  }

  lemma StepAdds(op: Operation, before: set<NodeId>, after: set<NodeId>, maxNodes: int)
    requires NodesStep(op, before, after, maxNodes)
    ensures after <= before + NewNodes(op)
  {
  }

  /** Decay takes away and does not add. */
  predicate Fading(op: Operation) { op.Decay? ==> 0.0 <= op.rate }

  ghost predicate AllFading(ops: seq<Operation>, k: nat) {
    forall j :: 0 <= j < k && j < |ops| ==> Fading(ops[j])
  }

  method RunOperation(m: HypergraphMemory, op: Operation, ghost now: real)
    requires m.Valid() && m.Past(now) && Orderly([op], m.nodes.Keys, m.edges.Keys, now)
    modifies m, m.nodes.Values, m.edges.Values
    ensures m.Valid() && m.Past(Later(op, now))
    ensures old(m.Capped()) && Fading(op) ==> m.Capped()
    ensures old(m.NoDangling()) && Anchored(op, old(m.nodes).Keys) ==> m.NoDangling()
    ensures NodesStep(op, old(m.nodes).Keys, m.nodes.Keys, m.maxNodes)
    ensures m.edges.Keys <= old(m.edges).Keys + NewEdges(op)
    ensures fresh(m.nodes.Values - old(m.nodes.Values)) && fresh(m.edges.Values - old(m.edges.Values))
  {
    hide *;
    OrderlyOne(op, m.nodes.Keys, m.edges.Keys, now);
    StillPast(m, now, op);
    NothingStored(op, m.nodes.Keys, m.maxNodes);
    match op {
      case InsertNode(id, content, memoryType, importance, at) =>
        ghost var before := m.nodes.Keys;
        RunInsertNode(m, id, content, memoryType, importance, at);
        NodeStored(op, before, m.nodes.Keys, m.maxNodes);
      case InsertEdge(id, ends, relationType, strength, at) =>
        RunInsertEdge(m, id, ends, relationType, strength, at);
      case Activate(id, amount, at) => RunActivate(m, id, amount, at);
      case Decay(rate) => RunDecay(m, rate);
      case Consolidate => RunConsolidate(m);
    }
  }

  method RunInsertNode(m: HypergraphMemory, id: NodeId, content: string, memoryType: MemoryType, importance: real,
                       at: real)
    requires m.Valid() && m.Past(at) && id !in m.nodes
    modifies m
    ensures m.Valid() && m.Past(at) && (old(m.Capped()) ==> m.Capped()) && (old(m.NoDangling()) ==> m.NoDangling())
    ensures |old(m.nodes).Keys| + 1 <= m.maxNodes ==> m.nodes.Keys == old(m.nodes).Keys + {id}
    ensures |m.nodes.Keys| == SizeAfterAdd(|old(m.nodes).Keys|, m.maxNodes) && m.nodes.Keys <= old(m.nodes).Keys + {id}
    ensures m.edges.Keys <= old(m.edges).Keys && m.edges.Values <= old(m.edges.Values)
    ensures fresh(m.nodes.Values - old(m.nodes.Values))
  {
    hide *;
    ghost var before := m.edges;
    ghost var victims := m.AddNode(id, content, memoryType, importance, at);
    m.OnlyOldEdges(before, victims);
  }

  method RunInsertEdge(m: HypergraphMemory, id: EdgeId, ends: seq<NodeId>, relationType: string, strength: real,
                       at: real)
    requires m.Valid() && id !in m.edges
    modifies m
    ensures m.Valid() && (old(m.Capped()) ==> m.Capped())
    ensures m.nodes == old(m.nodes) && m.edges.Keys <= old(m.edges).Keys + {id}
    ensures m.NoDangling() <==> old(m.NoDangling()) && forall n :: n in ends ==> n in m.nodes
    ensures forall e :: e in m.edges ==> m.edges[e] in old(m.edges.Values) || fresh(m.edges[e])
  {
    m.AddEdge(id, ends, relationType, strength, at);
  }

  method RunActivate(m: HypergraphMemory, id: NodeId, amount: real, at: real)
    requires m.Valid()
    modifies m.nodes.Values
    ensures m.Valid() && (old(m.Capped()) ==> m.Capped()) && (old(m.NoDangling()) ==> m.NoDangling())
  {
    m.ActivateNode(id, amount, at);
  }

  method RunDecay(m: HypergraphMemory, rate: real)
    requires m.Valid()
    modifies m.nodes.Values
    ensures m.Valid() && (0.0 <= rate && old(m.Capped()) ==> m.Capped()) && (old(m.NoDangling()) ==> m.NoDangling())
  {
    m.DecayActivation(rate);
  }

  lemma OrderlyOne(op: Operation, nodes: set<NodeId>, edges: set<EdgeId>, now: real)
    requires Orderly([op], nodes, edges, now)
    ensures op.InsertNode? ==> op.node !in nodes && now <= op.at
    ensures op.InsertNode? ==> Later(op, now) == op.at
    ensures op.InsertEdge? ==> op.edge !in edges && NewEdges(op) == {op.edge}
  {
    assert [op][0] == op;
  }

  lemma NothingStored(op: Operation, nodes: set<NodeId>, maxNodes: int)
    ensures !op.InsertNode? ==> NodesStep(op, nodes, nodes, maxNodes)
    ensures !op.InsertEdge? ==> NewEdges(op) == {} && Anchored(op, nodes)
    ensures op.Decay? && Fading(op) ==> 0.0 <= op.rate
    ensures op.InsertEdge? && Anchored(op, nodes) ==> forall n :: n in op.ends ==> n in nodes
  {
  }

  lemma NodeStored(op: Operation, before: set<NodeId>, after: set<NodeId>, maxNodes: int)
    requires op.InsertNode? && |after| == SizeAfterAdd(|before|, maxNodes) && after <= before + {op.node}
    requires |before| + 1 <= maxNodes ==> after == before + {op.node}
    ensures NodesStep(op, before, after, maxNodes)
  {
  }

  lemma StillPast(m: HypergraphMemory, now: real, op: Operation)
    requires m.Past(now) && (op.InsertNode? ==> now <= op.at)
    ensures m.Past(Later(op, now))
  {
  }

  method RunConsolidate(m: HypergraphMemory)
    requires m.Valid()
    modifies m, m.edges.Values
    ensures m.Valid() && (old(m.Capped()) ==> m.Capped()) && (old(m.NoDangling()) ==> m.NoDangling())
    ensures m.nodes == old(m.nodes) && m.edges.Keys <= old(m.edges).Keys
    ensures forall e :: e in m.edges ==> m.edges[e] in old(m.edges.Values)
  {
    var strengthened := m.ConsolidateMemories();
  }

  lemma FadingStep(ops: seq<Operation>, k: nat)
    requires k < |ops|
    ensures AllFading(ops, k + 1) ==> AllFading(ops, k) && Fading(ops[k])
  {
  }

  /** Any run of operations keeps both indexes in agreement with the graph and stays within the
      bound, dangling edges or not.  `stored` are the ids of the nodes before each operation
      and at the end: if every new edge names only nodes stored at its moment, no edge of the
      memory names a missing node at the end. */
  method RunOperations(m: HypergraphMemory, ops: seq<Operation>, start: real) returns (ghost stored: seq<set<NodeId>>)
    requires m.Valid() && m.Past(start) && Orderly(ops, m.nodes.Keys, m.edges.Keys, start)
    modifies m, m.nodes.Values, m.edges.Values
    ensures m.Valid() && |m.nodes.Keys| <= Bound(|old(m.nodes).Keys|, m.maxNodes)
    ensures IsTrace(ops, |ops|, m.maxNodes, stored, old(m.nodes).Keys, m.nodes.Keys)
    ensures old(m.NoDangling()) && AllAnchored(ops, |ops|, stored) ==> m.NoDangling()
    ensures old(m.Capped()) && AllFading(ops, |ops|) ==> m.Capped()
  {
    hide *;
    ghost var now, first := start, m.nodes.Keys;
    stored := [first];
    OrderlyAll(ops, first, m.edges.Keys, start);
    EmptyTrace(ops, m.maxNodes, first);
    for k := 0 to |ops|
      invariant m.Valid() && m.Past(now) && OrderlyFrom(ops, k, m.nodes.Keys, m.edges.Keys, now)
      invariant IsTrace(ops, k, m.maxNodes, stored, first, m.nodes.Keys)
      invariant old(m.NoDangling()) && AllAnchored(ops, k, stored) ==> m.NoDangling()
      invariant old(m.Capped()) && AllFading(ops, k) ==> m.Capped()
      invariant fresh(m.nodes.Values - old(m.nodes.Values)) && fresh(m.edges.Values - old(m.edges.Values))
    {
      ghost var nodes, edges := m.nodes.Keys, m.edges.Keys;
      OrderlyFirst(ops, k, nodes, edges, now);
      RunOperation(m, ops[k], now);
      StepAdds(ops[k], nodes, m.nodes.Keys, m.maxNodes);
      FadingStep(ops, k);
      TraceStep(ops, k, m.maxNodes, stored, first, nodes, m.nodes.Keys);
      OrderlyRest(ops, k, nodes, edges, now, m.nodes.Keys, m.edges.Keys);
      now := Later(ops[k], now);
      stored := stored + [m.nodes.Keys];
    }
    TraceIsBounded(ops, |ops|, m.maxNodes, stored, first, m.nodes.Keys);
  }
}
