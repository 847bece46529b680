/** Activation spreading over a hypergraph: how much a target receives when a source spreads,
    as the recursion adds it up and as one sum over walks. */
module Activation {
  import Arith

  type NodeId = string
  type EdgeId = string

  datatype Edge = Edge(nodes: seq<NodeId>, strength: real)

  datatype Graph = Graph(nodes: set<NodeId>, edges: map<EdgeId, Edge>, adjacency: map<NodeId, set<EdgeId>>)

  const CUTOFF := 0.1

  /** The edges an adjacency structure lists for a node. */
  function Listed(adjacency: map<NodeId, set<EdgeId>>, n: NodeId): set<EdgeId> {
    if n in adjacency then adjacency[n] else {}
  }

  /** The adjacency structure names stored edges only. */
  ghost predicate Closed(g: Graph) {
    forall n, e :: e in Listed(g.adjacency, n) ==> e in g.edges
  }

  ghost predicate NonNegative(g: Graph) {
    forall e :: e in g.edges ==> 0.0 <= g.edges[e].strength
  }

  /** What an edge passes on to each of its nodes. */
  function Share(g: Graph, amount: real, e: EdgeId): real
    requires e in g.edges
  {
    amount * g.edges[e].strength
  }

  // ---------------------------------------------------------------- as the recursion adds it up

  /** What `target` receives in all when `source` spreads `amount` for `depth` more hops. */
  ghost function Received(g: Graph, source: NodeId, amount: real, depth: nat, target: NodeId): real
    requires Closed(g)
    decreases depth, 3, 0
  {
    if depth == 0 || amount < CUTOFF then 0.0
    else FromEdges(g, Listed(g.adjacency, source), source, amount, depth, target)
  }

  ghost function FromEdges(g: Graph, es: set<EdgeId>, source: NodeId, amount: real, depth: nat, target: NodeId): real
    requires Closed(g) && depth > 0 && forall e :: e in es ==> e in g.edges
    decreases depth, 2, |es|
  {
    if es == {} then 0.0 else
      var e :| e in es;
      FromNodes(g, g.edges[e].nodes, source, Share(g, amount, e), depth, target)
      + FromEdges(g, es - {e}, source, amount, depth, target)
  }

  /** Through the listed nodes of one edge; `share` is what each of them is given. */
  ghost function FromNodes(g: Graph, ns: seq<NodeId>, source: NodeId, share: real, depth: nat, target: NodeId): real
    requires Closed(g) && depth > 0
    decreases depth, 1, |ns|
  {
    if ns == [] then 0.0 else
      FromNodes(g, ns[..|ns| - 1], source, share, depth, target)
      + FromNode(g, ns[|ns| - 1], source, share, depth, target)
  }

  ghost function FromNode(g: Graph, n: NodeId, source: NodeId, share: real, depth: nat, target: NodeId): real
    requires Closed(g) && depth > 0
    decreases depth, 0, 0
  {
    if n == source || n !in g.nodes then 0.0
    else (if n == target then share else 0.0) + Received(g, n, share, depth - 1, target)
  }

  /** Edges may be visited in any order. */
  lemma {:induction false} AnyEdgeFirst(g: Graph, es: set<EdgeId>, e: EdgeId, source: NodeId, amount: real, depth: nat,
                                        target: NodeId)
    requires Closed(g) && depth > 0 && e in es && forall e :: e in es ==> e in g.edges
    ensures FromEdges(g, es, source, amount, depth, target) ==
            FromNodes(g, g.edges[e].nodes, source, Share(g, amount, e), depth, target)
            + FromEdges(g, es - {e}, source, amount, depth, target)
    decreases |es|
  {
    hide FromNodes;
    var d :| d in es && FromEdges(g, es, source, amount, depth, target) ==
                        FromNodes(g, g.edges[d].nodes, source, Share(g, amount, d), depth, target)
                        + FromEdges(g, es - {d}, source, amount, depth, target);
    if d != e {
      AnyEdgeFirst(g, es - {d}, e, source, amount, depth, target);
      AnyEdgeFirst(g, es - {e}, d, source, amount, depth, target);
      assert es - {d} - {e} == es - {e} - {d};
    }
  }

  lemma ShareNonnegative(g: Graph, amount: real, e: EdgeId)
    requires NonNegative(g) && e in g.edges && 0.0 <= amount
    ensures 0.0 <= Share(g, amount, e)
  {
    var s := g.edges[e].strength;
    assert 0.0 <= s;
    assert 0.0 <= amount * s;
  }

  lemma {:induction false} ReceivedNonnegative(g: Graph, source: NodeId, amount: real, depth: nat, target: NodeId)
    requires Closed(g) && NonNegative(g)
    ensures 0.0 <= Received(g, source, amount, depth, target)
    decreases depth, 3, 0
  {
    if depth > 0 && amount >= CUTOFF {
      FromEdgesNonnegative(g, Listed(g.adjacency, source), source, amount, depth, target);
    }
  }

  lemma {:induction false} FromEdgesNonnegative(g: Graph, es: set<EdgeId>, source: NodeId, amount: real, depth: nat,
                                                target: NodeId)
    requires Closed(g) && NonNegative(g) && depth > 0 && 0.0 <= amount && forall e :: e in es ==> e in g.edges
    ensures 0.0 <= FromEdges(g, es, source, amount, depth, target)
    decreases depth, 2, |es|
  {
    if es != {} {
      var e :| e in es;
      AnyEdgeFirst(g, es, e, source, amount, depth, target);
      ShareNonnegative(g, amount, e);
      FromNodesNonnegative(g, g.edges[e].nodes, source, Share(g, amount, e), depth, target);
      FromEdgesNonnegative(g, es - {e}, source, amount, depth, target);
    }
  }

  lemma {:induction false} FromNodesNonnegative(g: Graph, ns: seq<NodeId>, source: NodeId, share: real, depth: nat,
                                                target: NodeId)
    requires Closed(g) && NonNegative(g) && depth > 0 && 0.0 <= share
    ensures 0.0 <= FromNodes(g, ns, source, share, depth, target)
    decreases depth, 1, |ns|
  {
    if ns != [] {
      FromNodesNonnegative(g, ns[..|ns| - 1], source, share, depth, target);
      FromNodeNonnegative(g, ns[|ns| - 1], source, share, depth, target);
    }
  }

  lemma {:induction false} FromNodeNonnegative(g: Graph, n: NodeId, source: NodeId, share: real, depth: nat,
                                               target: NodeId)
    requires Closed(g) && NonNegative(g) && depth > 0 && 0.0 <= share
    ensures 0.0 <= FromNode(g, n, source, share, depth, target)
    decreases depth, 0, 0
  {
    ReceivedNonnegative(g, n, share, depth - 1, target);
  }

  // ---------------------------------------------------------------- as a sum over walks

  /** One hop: through an edge to the node at a position of its list. */
  datatype Hop = Hop(edge: EdgeId, position: nat)

  type Walk = seq<Hop>

  predicate IsHop(g: Graph, source: NodeId, h: Hop) {
    && h.edge in Listed(g.adjacency, source) && h.edge in g.edges
    && h.position < |g.edges[h.edge].nodes|
    && Landing(g, h) != source && Landing(g, h) in g.nodes
  }

  function Landing(g: Graph, h: Hop): NodeId
    requires h.edge in g.edges && h.position < |g.edges[h.edge].nodes|
  {
    g.edges[h.edge].nodes[h.position]
  }

  /** A walk from `source` whose amount is above the cutoff before each of its hops. */
  predicate IsWalk(g: Graph, source: NodeId, amount: real, w: Walk)
    decreases |w|
  {
    && w != [] && amount >= CUTOFF && IsHop(g, source, w[0])
    && (|w| > 1 ==> IsWalk(g, Landing(g, w[0]), Share(g, amount, w[0].edge), w[1..]))
  }

  /** Where a walk ends and what it brings there. */
  function End(g: Graph, source: NodeId, amount: real, w: Walk): NodeId
    requires IsWalk(g, source, amount, w)
    decreases |w|
  {
    if |w| == 1 then Landing(g, w[0])
    else End(g, Landing(g, w[0]), Share(g, amount, w[0].edge), w[1..])
  }

  function Brings(g: Graph, source: NodeId, amount: real, w: Walk): real
    requires IsWalk(g, source, amount, w)
    decreases |w|
  {
    var share := Share(g, amount, w[0].edge);
    if |w| == 1 then share else Brings(g, Landing(g, w[0]), share, w[1..])
  }

  ghost predicate Reaches(g: Graph, source: NodeId, amount: real, depth: nat, target: NodeId, w: Walk) {
    w != [] && |w| <= depth && IsWalk(g, source, amount, w) && End(g, source, amount, w) == target
  }

  ghost predicate AllWalks(g: Graph, source: NodeId, amount: real, ws: set<Walk>) {
    forall w :: w in ws ==> IsWalk(g, source, amount, w)
  }

  ghost function WalkSum(g: Graph, source: NodeId, amount: real, ws: set<Walk>): real
    requires AllWalks(g, source, amount, ws)
    decreases |ws|
  {
    if ws == {} then 0.0 else
      var w :| w in ws;
      Brings(g, source, amount, w) + WalkSum(g, source, amount, ws - {w})
  }

  lemma {:induction false} AnyWalkFirst(g: Graph, source: NodeId, amount: real, ws: set<Walk>, w: Walk)
    requires AllWalks(g, source, amount, ws) && w in ws
    ensures WalkSum(g, source, amount, ws) == Brings(g, source, amount, w) + WalkSum(g, source, amount, ws - {w})
    decreases |ws|
  {
    hide Brings, IsWalk;
    var v :| v in ws && WalkSum(g, source, amount, ws) ==
                        Brings(g, source, amount, v) + WalkSum(g, source, amount, ws - {v});
    if v != w {
      AnyWalkFirst(g, source, amount, ws - {v}, w);
      AnyWalkFirst(g, source, amount, ws - {w}, v);
      assert ws - {v} - {w} == ws - {w} - {v};
    }
  }

  lemma {:induction false} WalkSumUnion(g: Graph, source: NodeId, amount: real, xs: set<Walk>, ys: set<Walk>)
    requires AllWalks(g, source, amount, xs) && AllWalks(g, source, amount, ys) && xs !! ys
    ensures AllWalks(g, source, amount, xs + ys)
    ensures WalkSum(g, source, amount, xs + ys) == WalkSum(g, source, amount, xs) + WalkSum(g, source, amount, ys)
    decreases |xs|
  {
    hide Brings, IsWalk;
    if xs == {} {
      assert xs + ys == ys;
    } else {
      var w :| w in xs;
      WalkSumUnion(g, source, amount, xs - {w}, ys);
      AnyWalkFirst(g, source, amount, xs, w);
      AnyWalkFirst(g, source, amount, xs + ys, w);
      assert xs + ys - {w} == (xs - {w}) + ys;
    }
  }

  ghost function Prefixed(h: Hop, ws: set<Walk>): set<Walk> { set w | w in ws :: [h] + w }

  /** Putting one hop in front of every walk brings what the walks bring from its landing. */
  lemma {:induction false} WalkSumPrefixed(g: Graph, source: NodeId, amount: real, h: Hop, ws: set<Walk>)
    requires amount >= CUTOFF && IsHop(g, source, h)
    requires AllWalks(g, Landing(g, h), Share(g, amount, h.edge), ws)
    ensures AllWalks(g, source, amount, Prefixed(h, ws))
    ensures WalkSum(g, source, amount, Prefixed(h, ws)) ==
            WalkSum(g, Landing(g, h), Share(g, amount, h.edge), ws)
    decreases |ws|
  {
    var next, share := Landing(g, h), Share(g, amount, h.edge);
    forall w | w in ws ensures IsWalk(g, source, amount, [h] + w) { PrefixedWalk(g, source, amount, h, w); }
    if ws == {} {
      assert Prefixed(h, ws) == {};
    } else {
      var w :| w in ws;
      WalkSumPrefixed(g, source, amount, h, ws - {w});
      PrefixedWalk(g, source, amount, h, w);
      AnyWalkFirst(g, next, share, ws, w);
      PrefixedWithout(h, ws, w);
      AnyWalkFirst(g, source, amount, Prefixed(h, ws), [h] + w);
    }
  }

  lemma PrefixedWithout(h: Hop, ws: set<Walk>, w: Walk)
    requires w in ws
    ensures [h] + w in Prefixed(h, ws)
    ensures Prefixed(h, ws) - {[h] + w} == Prefixed(h, ws - {w})
  {
    forall v | v in ws && [h] + v == [h] + w ensures v == w { assert v == ([h] + v)[1..] == ([h] + w)[1..]; }
  }

  lemma PrefixedWalk(g: Graph, source: NodeId, amount: real, h: Hop, w: Walk)
    requires amount >= CUTOFF && IsHop(g, source, h)
    requires IsWalk(g, Landing(g, h), Share(g, amount, h.edge), w)
    ensures IsWalk(g, source, amount, [h] + w)
    ensures End(g, source, amount, [h] + w) == End(g, Landing(g, h), Share(g, amount, h.edge), w)
    ensures Brings(g, source, amount, [h] + w) == Brings(g, Landing(g, h), Share(g, amount, h.edge), w)
  {
    assert ([h] + w)[1..] == w;
  }

  /** Walks to the target whose first hop is `h`. */
  ghost predicate ReachesBy(g: Graph, source: NodeId, amount: real, depth: nat, target: NodeId, h: Hop, w: Walk) {
    Reaches(g, source, amount, depth, target, w) && w[0] == h
  }

  lemma ReachesByTail(g: Graph, source: NodeId, amount: real, depth: nat, target: NodeId, h: Hop, w: Walk)
    requires depth > 0 && amount >= CUTOFF && IsHop(g, source, h)
    ensures ReachesBy(g, source, amount, depth, target, h, w) <==>
            (w == [h] && Landing(g, h) == target)
            || (w != [] && w[0] == h && Reaches(g, Landing(g, h), Share(g, amount, h.edge), depth - 1, target, w[1..]))
  {
    if w != [] && w[0] == h { assert w == [h] + w[1..]; }
  }

  lemma SingleHop(g: Graph, source: NodeId, amount: real, h: Hop)
    requires amount >= CUTOFF && IsHop(g, source, h)
    ensures AllWalks(g, source, amount, {[h]})
    ensures WalkSum(g, source, amount, {[h]}) == Share(g, amount, h.edge)
  {
    AnyWalkFirst(g, source, amount, {[h]}, [h]);
    assert {[h]} - {[h]} == {};
  }

  /** The walks to the target, with what they bring: the closed form of the recursion. */
  lemma {:induction false} WalksFrom(g: Graph, source: NodeId, amount: real, depth: nat, target: NodeId)
      returns (ws: set<Walk>)
    requires Closed(g)
    ensures forall w: Walk :: w in ws <==> Reaches(g, source, amount, depth, target, w)
    ensures AllWalks(g, source, amount, ws)
    ensures Received(g, source, amount, depth, target) == WalkSum(g, source, amount, ws)
    decreases depth, 3, 0
  {
    if depth == 0 || amount < CUTOFF {
      ws := {};
    } else {
      ws := WalksThroughEdges(g, Listed(g.adjacency, source), source, amount, depth, target);
    }
  }

  lemma {:induction false} WalksThroughEdges(g: Graph, es: set<EdgeId>, source: NodeId, amount: real, depth: nat,
                                             target: NodeId)
      returns (ws: set<Walk>)
    requires Closed(g) && depth > 0 && amount >= CUTOFF && es <= Listed(g.adjacency, source)
    ensures forall w: Walk :: w in ws <==> Reaches(g, source, amount, depth, target, w) && w[0].edge in es
    ensures AllWalks(g, source, amount, ws)
    ensures FromEdges(g, es, source, amount, depth, target) == WalkSum(g, source, amount, ws)
    decreases depth, 2, |es|
  {
    hide IsWalk, FromNodes, End;
    if es == {} {
      ws := {};
    } else {
      var e :| e in es;
      var n := |g.edges[e].nodes|;
      var some := WalksThroughNodes(g, e, n, source, amount, depth, target);
      var others := WalksThroughEdges(g, es - {e}, source, amount, depth, target);
      ws := some + others;
      AnyEdgeFirst(g, es, e, source, amount, depth, target);
      assert g.edges[e].nodes[..n] == g.edges[e].nodes;
      WalkSumUnion(g, source, amount, some, others);
      forall w: Walk ensures w in ws <==> Reaches(g, source, amount, depth, target, w) && w[0].edge in es {
        if Reaches(g, source, amount, depth, target, w) { FirstHop(g, source, amount, w); }
      }
    }
  }

  lemma FirstHop(g: Graph, source: NodeId, amount: real, w: Walk)
    requires IsWalk(g, source, amount, w)
    ensures w != [] && IsHop(g, source, w[0])
  {
  }

  /** Through the first k nodes of one edge. */
  lemma {:induction false} WalksThroughNodes(g: Graph, e: EdgeId, k: nat, source: NodeId, amount: real, depth: nat,
                                             target: NodeId)
      returns (ws: set<Walk>)
    requires Closed(g) && depth > 0 && amount >= CUTOFF && e in Listed(g.adjacency, source) && k <= |g.edges[e].nodes|
    ensures forall w: Walk :: w in ws <==>
              Reaches(g, source, amount, depth, target, w) && w[0].edge == e && w[0].position < k
    ensures AllWalks(g, source, amount, ws)
    ensures FromNodes(g, g.edges[e].nodes[..k], source, Share(g, amount, e), depth, target) ==
            WalkSum(g, source, amount, ws)
    decreases depth, 1, k
  {
    hide IsWalk, FromNode, End;
    if k == 0 {
      ws := {};
    } else {
      var h := Hop(e, k - 1);
      var front := WalksThroughNodes(g, e, k - 1, source, amount, depth, target);
      var last := WalksThroughHop(g, h, source, amount, depth, target);
      ws := front + last;
      WalkSumUnion(g, source, amount, front, last);
      assert g.edges[e].nodes[..k][..k - 1] == g.edges[e].nodes[..k - 1];
      forall w: Walk ensures w in ws <==>
        Reaches(g, source, amount, depth, target, w) && w[0].edge == e && w[0].position < k
      {
        assert w in last <==> ReachesBy(g, source, amount, depth, target, h, w);
        if w != [] { assert w[0] == h <==> w[0].edge == e && w[0].position == k - 1; }
      }
    }
  }

  lemma {:induction false} WalksThroughHop(g: Graph, h: Hop, source: NodeId, amount: real, depth: nat, target: NodeId)
      returns (ws: set<Walk>)
    requires Closed(g) && depth > 0 && amount >= CUTOFF && h.edge in Listed(g.adjacency, source)
    requires h.position < |g.edges[h.edge].nodes|
    ensures forall w: Walk :: w in ws <==> ReachesBy(g, source, amount, depth, target, h, w)
    ensures AllWalks(g, source, amount, ws)
    ensures FromNode(g, Landing(g, h), source, Share(g, amount, h.edge), depth, target) ==
            WalkSum(g, source, amount, ws)
    decreases depth, 0, 0
  {
    if !IsHop(g, source, h) {
      ws := {};
    } else {
      var next, share := Landing(g, h), Share(g, amount, h.edge);
      var tails := WalksFrom(g, next, share, depth - 1, target);
      var direct: set<Walk> := if next == target then {[h]} else {};
      ws := Prefixed(h, tails) + direct;
      SumThroughHop(g, h, source, amount, tails, direct);
      forall w: Walk ensures w in ws <==> ReachesBy(g, source, amount, depth, target, h, w) {
        ReachesByTail(g, source, amount, depth, target, h, w);
        InPrefixed(h, tails, w);
      }
    }
  }

  lemma InPrefixed(h: Hop, ws: set<Walk>, w: Walk)
    ensures w in Prefixed(h, ws) <==> w != [] && w[0] == h && w[1..] in ws
  {
    if w != [] && w[0] == h { assert w == [h] + w[1..]; }
  }

  lemma SumThroughHop(g: Graph, h: Hop, source: NodeId, amount: real, tails: set<Walk>, direct: set<Walk>)
    requires amount >= CUTOFF && IsHop(g, source, h) && direct <= {[h]}
    requires AllWalks(g, Landing(g, h), Share(g, amount, h.edge), tails)
    ensures AllWalks(g, source, amount, Prefixed(h, tails) + direct)
    ensures WalkSum(g, source, amount, Prefixed(h, tails) + direct) ==
            WalkSum(g, Landing(g, h), Share(g, amount, h.edge), tails)
            + (if direct == {} then 0.0 else Share(g, amount, h.edge))
  {
    WalkSumPrefixed(g, source, amount, h, tails);
    SingleHop(g, source, amount, h);
    InPrefixed(h, tails, [h]);
    if direct == {} {
      assert Prefixed(h, tails) + direct == Prefixed(h, tails);
    } else {
      assert direct == {[h]};
      assert !IsWalk(g, Landing(g, h), Share(g, amount, h.edge), []);
      WalkSumUnion(g, source, amount, Prefixed(h, tails), direct);
    }
  }

  /** What a target receives is the sum of what all walks to it bring, whichever set holds
      exactly these walks. */
  lemma ReceivedIsWalkSum(g: Graph, source: NodeId, amount: real, depth: nat, target: NodeId, ws: set<Walk>)
    requires Closed(g) && forall w: Walk :: w in ws <==> Reaches(g, source, amount, depth, target, w)
    ensures AllWalks(g, source, amount, ws)
    ensures Received(g, source, amount, depth, target) == WalkSum(g, source, amount, ws)
  {
    var vs := WalksFrom(g, source, amount, depth, target);
    assert vs == ws;
  }

  /** A node that no walk of at most `depth` hops reaches receives nothing. */
  lemma OutOfReach(g: Graph, source: NodeId, amount: real, depth: nat, target: NodeId)
    requires Closed(g) && forall w :: !Reaches(g, source, amount, depth, target, w)
    ensures Received(g, source, amount, depth, target) == 0.0
  {
    ReceivedIsWalkSum(g, source, amount, depth, target, {});
  }

  // ---------------------------------------------------------------- in terms of edges and strengths alone

  predicate Stored(g: Graph, w: Walk) { forall h :: h in w ==> h.edge in g.edges }

  /** The strengths of the edges of a walk multiplied together. */
  function Product(g: Graph, w: Walk): real
    requires Stored(g, w)
    decreases |w|
  {
    if w == [] then 1.0 else Product(g, w[..|w| - 1]) * g.edges[w[|w| - 1].edge].strength
  }

  /** Each hop leads through an edge listed where it starts, to a stored node elsewhere. */
  predicate Chain(g: Graph, from: NodeId, w: Walk)
    decreases |w|
  {
    w != [] ==>
      && from in g.adjacency && w[0].edge in g.adjacency[from]
      && w[0].edge in g.edges && w[0].position < |g.edges[w[0].edge].nodes|
      && var to := g.edges[w[0].edge].nodes[w[0].position];
         to != from && to in g.nodes && Chain(g, to, w[1..])
  }

  lemma {:induction false} ChainIsStored(g: Graph, from: NodeId, w: Walk)
    requires Chain(g, from, w)
    ensures Stored(g, w) && forall h :: h in w ==> h.position < |g.edges[h.edge].nodes|
    decreases |w|
  {
    if w != [] {
      ChainIsStored(g, g.edges[w[0].edge].nodes[w[0].position], w[1..]);
      assert forall h :: h in w ==> h == w[0] || h in w[1..];
    }
  }

  /** Before each hop the amount times the strengths so far is at least 0.1. */
  predicate Lasts(g: Graph, amount: real, w: Walk)
    requires Stored(g, w)
  {
    forall k :: 0 <= k < |w| ==> amount * Product(g, w[..k]) >= 0.1
  }

  /** A chain of at most `depth` hops that lasts and whose last hop lands on the target. */
  ghost predicate Carries(g: Graph, source: NodeId, amount: real, depth: nat, target: NodeId, w: Walk) {
    && 1 <= |w| <= depth && Chain(g, source, w) && Stored(g, w) && Lasts(g, amount, w)
    && w[|w| - 1].position < |g.edges[w[|w| - 1].edge].nodes|
    && g.edges[w[|w| - 1].edge].nodes[w[|w| - 1].position] == target
  }

  lemma {:induction false} ProductFirst(g: Graph, h: Hop, w: Walk)
    requires h.edge in g.edges && Stored(g, w)
    ensures Stored(g, [h] + w) && Product(g, [h] + w) == g.edges[h.edge].strength * Product(g, w)
    decreases |w|
  {
    var all := [h] + w;
    if w == [] {
      assert all[..0] == [] && all == [h];
      assert Product(g, all[..0]) == 1.0;
    } else {
      assert all[..|all| - 1] == [h] + w[..|w| - 1];
      ProductFirst(g, h, w[..|w| - 1]);
      Arith.Regrouped(g.edges[h.edge].strength, Product(g, w[..|w| - 1]), g.edges[w[|w| - 1].edge].strength);
    }
  }

  /** The amount times the strengths is the share of the first edge times the others. */
  lemma ShareFirst(g: Graph, amount: real, h: Hop, w: Walk)
    requires h.edge in g.edges && Stored(g, w)
    ensures Stored(g, [h] + w) && amount * Product(g, [h] + w) == Share(g, amount, h.edge) * Product(g, w)
  {
    ProductFirst(g, h, w);
    Arith.Regrouped(amount, g.edges[h.edge].strength, Product(g, w));
  }

  /** A walk brings the amount times the strengths along it. */
  lemma {:induction false} BringsProduct(g: Graph, source: NodeId, amount: real, w: Walk)
    requires IsWalk(g, source, amount, w)
    ensures Stored(g, w) && Brings(g, source, amount, w) == amount * Product(g, w)
    decreases |w|
  {
    hide Share, Product, Stored;
    var h, rest := w[0], w[1..];
    assert w == [h] + rest;
    if |w| > 1 {
      BringsProduct(g, Landing(g, h), Share(g, amount, h.edge), rest);
    } else {
      EmptyProduct(g);
      assert rest == [];
    }
    ShareFirst(g, amount, h, rest);
  }

  lemma EmptyProduct(g: Graph)
    ensures Stored(g, []) && Product(g, []) == 1.0
  {
  }

  /** A walk of the recursion is a chain that lasts, and ends where its last hop lands. */
  lemma {:induction false} WalkIsChain(g: Graph, source: NodeId, amount: real, w: Walk)
    requires w != []
    ensures IsWalk(g, source, amount, w) <==> Chain(g, source, w) && Stored(g, w) && Lasts(g, amount, w)
    ensures IsWalk(g, source, amount, w) ==>
              w[|w| - 1].edge in g.edges && w[|w| - 1].position < |g.edges[w[|w| - 1].edge].nodes|
              && End(g, source, amount, w) == g.edges[w[|w| - 1].edge].nodes[w[|w| - 1].position]
    decreases |w|
  {
    hide Share, Product, Stored, Lasts;
    var h, rest := w[0], w[1..];
    assert w == [h] + rest;
    if Chain(g, source, w) { ChainIsStored(g, source, w); }
    if IsHop(g, source, h) {
      EmptyProduct(g);
      if |w| > 1 {
        WalkIsChain(g, Landing(g, h), Share(g, amount, h.edge), rest);
        assert w[|w| - 1] == rest[|rest| - 1];
      } else {
        assert rest == [];
        LastsNothing(g, Share(g, amount, h.edge));
      }
      if Chain(g, Landing(g, h), rest) {
        ChainIsStored(g, Landing(g, h), rest);
        LastsFirst(g, amount, h, rest);
      }
    }
  }

  lemma LastsNothing(g: Graph, amount: real)
    ensures Stored(g, []) && Lasts(g, amount, [])
  {
  }

  lemma LastsFirst(g: Graph, amount: real, h: Hop, w: Walk)
    requires h.edge in g.edges && Stored(g, w)
    ensures Stored(g, [h] + w)
    ensures Lasts(g, amount, [h] + w) <==> amount >= CUTOFF && Lasts(g, Share(g, amount, h.edge), w)
  {
    hide Share, Product;
    var all := [h] + w;
    EmptyProduct(g);
    assert all[..0] == [];
    forall k | 0 <= k < |w|
      ensures Stored(g, w[..k]) && amount * Product(g, all[..k + 1]) == Share(g, amount, h.edge) * Product(g, w[..k])
    {
      assert all[..k + 1] == [h] + w[..k];
      ShareFirst(g, amount, h, w[..k]);
    }
    if amount >= CUTOFF && Lasts(g, Share(g, amount, h.edge), w) {
      forall k | 0 <= k < |all| ensures amount * Product(g, all[..k]) >= 0.1 {
        if k > 0 {
          assert Share(g, amount, h.edge) * Product(g, w[..k - 1]) >= 0.1;
          assert all[..k] == all[..(k - 1) + 1];
        }
      }
    }
  }

  /** The set of all of them. */
  ghost predicate AreCarriers(g: Graph, source: NodeId, amount: real, depth: nat, target: NodeId, ws: set<Walk>) {
    forall w: Walk :: w in ws <==> Carries(g, source, amount, depth, target, w)
  }

  lemma CarriesIsReaches(g: Graph, source: NodeId, amount: real, depth: nat, target: NodeId, w: Walk)
    ensures Carries(g, source, amount, depth, target, w) <==> Reaches(g, source, amount, depth, target, w)
  {
    if w != [] { WalkIsChain(g, source, amount, w); }
  }

  predicate AllStored(g: Graph, ws: set<Walk>) { forall w :: w in ws ==> Stored(g, w) }

  function Term(g: Graph, amount: real, w: Walk): real
    requires Stored(g, w)
  {
    amount * Product(g, w)
  }

  /** What the walks of a set bring: for each the amount times its strengths. */
  ghost function Total(g: Graph, amount: real, ws: set<Walk>): real
    requires AllStored(g, ws)
    decreases |ws|
  {
    if ws == {} then 0.0 else
      var w :| w in ws;
      Term(g, amount, w) + Total(g, amount, ws - {w})
  }

  lemma {:induction false} AnyTermFirst(g: Graph, amount: real, ws: set<Walk>, w: Walk)
    requires w in ws && AllStored(g, ws)
    ensures Total(g, amount, ws) == Term(g, amount, w) + Total(g, amount, ws - {w})
    decreases |ws|
  {
    hide Term, Stored;
    var v :| v in ws && Total(g, amount, ws) == Term(g, amount, v) + Total(g, amount, ws - {v});
    if v != w {
      AnyTermFirst(g, amount, ws - {v}, w);
      AnyTermFirst(g, amount, ws - {w}, v);
      assert ws - {v} - {w} == ws - {w} - {v};
    }
  }

  lemma {:induction false} TotalIsWalkSum(g: Graph, source: NodeId, amount: real, ws: set<Walk>)
    requires AllWalks(g, source, amount, ws)
    ensures AllStored(g, ws)
    ensures Total(g, amount, ws) == WalkSum(g, source, amount, ws)
    decreases |ws|
  {
    hide Product, IsWalk, Brings;
    forall w | w in ws ensures Stored(g, w) { BringsProduct(g, source, amount, w); }
    if ws != {} {
      var w :| w in ws;
      AnyTermFirst(g, amount, ws, w);
      AnyWalkFirst(g, source, amount, ws, w);
      BringsProduct(g, source, amount, w);
      TotalIsWalkSum(g, source, amount, ws - {w});
    }
  }

  /** What a target receives is the amount times the strengths, added up over exactly the
      chains to it that keep the amount at 0.1 or more before each hop. */
  lemma ReceivedIsTotal(g: Graph, source: NodeId, amount: real, depth: nat, target: NodeId, ws: set<Walk>)
    requires Closed(g) && AreCarriers(g, source, amount, depth, target, ws)
    ensures AllStored(g, ws)
    ensures Received(g, source, amount, depth, target) == Total(g, amount, ws)
  {
    hide IsWalk, Received, Carries, Reaches;
    forall w: Walk ensures w in ws <==> Reaches(g, source, amount, depth, target, w) {
      CarriesIsReaches(g, source, amount, depth, target, w);
    }
    ReceivedIsWalkSum(g, source, amount, depth, target, ws);
    TotalIsWalkSum(g, source, amount, ws);
  }

  /** There is such a set. */
  lemma CarriersExist(g: Graph, source: NodeId, amount: real, depth: nat, target: NodeId) returns (ws: set<Walk>)
    requires Closed(g)
    ensures AreCarriers(g, source, amount, depth, target, ws)
  {
    hide IsWalk, Received, Carries, Reaches;
    ws := WalksFrom(g, source, amount, depth, target);
    forall w: Walk ensures w in ws <==> Carries(g, source, amount, depth, target, w) {
      CarriesIsReaches(g, source, amount, depth, target, w);
    }
  }
}
