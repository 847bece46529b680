/** Bounds on the levels after activation spreads.  Every addition is clamped at 1 as it is
    made, so with negative strengths the order of the visits can make a difference; whatever
    the order, a level ends between two bounds. */
module Spreading {
  import opened Basics
  import opened Activation

  type Levels = map<NodeId, real>

  ghost predicate AtMostOne(levels: Levels) { forall i :: i in levels ==> levels[i] <= 1.0 }

  // ---------------------------------------------------------------- gains alone

  /** The graph with every negative strength replaced by 0. */
  function Clipped(g: Graph): (c: Graph)
    ensures c.nodes == g.nodes && c.adjacency == g.adjacency && c.edges.Keys == g.edges.Keys
    ensures NonNegative(c) && (Closed(g) ==> Closed(c))
  {
    Graph(g.nodes, map e | e in g.edges :: Edge(g.edges[e].nodes, Max0(g.edges[e].strength)), g.adjacency)
  }

  /** What `target` receives if nothing negative is counted. */
  ghost function Gain(g: Graph, source: NodeId, amount: real, depth: nat, target: NodeId): real
    requires Closed(g)
  {
    Received(Clipped(g), source, amount, depth, target)
  }

  lemma ClippedIfNonNegative(g: Graph)
    requires NonNegative(g)
    ensures Clipped(g) == g
  {
    assert Clipped(g).edges == g.edges;
  }

  lemma ShareClipped(g: Graph, amount: real, e: EdgeId)
    requires e in g.edges && amount >= CUTOFF
    ensures Share(Clipped(g), amount, e) == Max0(Share(g, amount, e))
  {
    var s := g.edges[e].strength;
    if s > 0.0 { assert amount * s > 0.0; } else { assert amount * s <= 0.0; }
  }

  /** A share that is not positive stops at the node it reaches. */
  lemma ClippedShare(g: Graph, n: NodeId, share: real, depth: nat, i: NodeId)
    requires Closed(g)
    ensures Gain(g, n, share, depth, i) == Gain(g, n, Max0(share), depth, i)
  {
  }

  lemma {:induction false} GainIsMore(g: Graph, source: NodeId, amount: real, depth: nat, target: NodeId)
    requires Closed(g)
    ensures Received(g, source, amount, depth, target) <= Gain(g, source, amount, depth, target)
    ensures 0.0 <= Gain(g, source, amount, depth, target)
    decreases depth, 3, 0
  {
    ReceivedNonnegative(Clipped(g), source, amount, depth, target);
    if depth > 0 && amount >= CUTOFF {
      GainFromEdges(g, Listed(g.adjacency, source), source, amount, depth, target);
    }
  }

  lemma {:induction false} GainFromEdges(g: Graph, es: set<EdgeId>, source: NodeId, amount: real, depth: nat,
                                         target: NodeId)
    requires Closed(g) && depth > 0 && amount >= CUTOFF && forall e :: e in es ==> e in g.edges
    ensures FromEdges(g, es, source, amount, depth, target) <= FromEdges(Clipped(g), es, source, amount, depth, target)
    decreases depth, 2, |es|
  {
    hide FromNodes, Share;
    if es != {} {
      var e :| e in es;
      AnyEdgeFirst(g, es, e, source, amount, depth, target);
      AnyEdgeFirst(Clipped(g), es, e, source, amount, depth, target);
      ShareClipped(g, amount, e);
      GainFromNodes(g, g.edges[e].nodes, source, Share(g, amount, e), depth, target);
      GainFromEdges(g, es - {e}, source, amount, depth, target);
    }
  }

  lemma {:induction false} GainFromNodes(g: Graph, ns: seq<NodeId>, source: NodeId, share: real, depth: nat,
                                         target: NodeId)
    requires Closed(g) && depth > 0
    ensures FromNodes(g, ns, source, share, depth, target) <=
            FromNodes(Clipped(g), ns, source, Max0(share), depth, target)
    ensures 0.0 <= FromNodes(Clipped(g), ns, source, Max0(share), depth, target)
    decreases depth, 1, |ns|
  {
    FromNodesNonnegative(Clipped(g), ns, source, Max0(share), depth, target);
    if ns != [] {
      GainFromNodes(g, ns[..|ns| - 1], source, share, depth, target);
      var n := ns[|ns| - 1];
      if n != source && n in g.nodes {
        GainIsMore(g, n, share, depth - 1, target);
        ClippedShare(g, n, share, depth - 1, target);
      }
    }
  }

  // ---------------------------------------------------------------- walks that bring less than nothing

  /** Walks are the same in the clipped graph, and bring the same unless it is negative. */
  lemma {:induction false} ClippedWalk(g: Graph, source: NodeId, amount: real, w: Walk)
    ensures IsWalk(g, source, amount, w) <==> IsWalk(Clipped(g), source, amount, w)
    ensures IsWalk(g, source, amount, w) ==>
              && End(Clipped(g), source, amount, w) == End(g, source, amount, w)
              && Brings(Clipped(g), source, amount, w) == Max0(Brings(g, source, amount, w))
    decreases |w|
  {
    if w != [] && amount >= CUTOFF && w[0].edge in g.edges {
      ShareClipped(g, amount, w[0].edge);
      if |w| > 1 && IsHop(g, source, w[0]) {
        ClippedWalk(g, Landing(g, w[0]), Share(g, amount, w[0].edge), w[1..]);
      }
    }
  }

  lemma {:induction false} SumsCompare(g: Graph, source: NodeId, amount: real, ws: set<Walk>)
    requires AllWalks(g, source, amount, ws)
    ensures AllWalks(Clipped(g), source, amount, ws)
    ensures WalkSum(g, source, amount, ws) <= WalkSum(Clipped(g), source, amount, ws)
    ensures WalkSum(g, source, amount, ws) == WalkSum(Clipped(g), source, amount, ws) <==>
            forall w :: w in ws ==> 0.0 <= Brings(g, source, amount, w)
    decreases |ws|
  {
    hide Brings, IsWalk, End, Clipped;
    forall w | w in ws ensures IsWalk(Clipped(g), source, amount, w) { ClippedWalk(g, source, amount, w); }
    if ws != {} {
      var w :| w in ws;
      ClippedWalk(g, source, amount, w);
      AnyWalkFirst(g, source, amount, ws, w);
      AnyWalkFirst(Clipped(g), source, amount, ws, w);
      SumsCompare(g, source, amount, ws - {w});
    }
  }

  /** No walk of at most `depth` hops brings a negative amount to the target. */
  ghost predicate NothingTaken(g: Graph, source: NodeId, amount: real, depth: nat, target: NodeId) {
    forall w :: Reaches(g, source, amount, depth, target, w) ==> 0.0 <= Brings(g, source, amount, w)
  }

  /** Only walks to the target count: it receives its whole gain exactly if none of them
      takes anything away. */
  lemma GainIsReceived(g: Graph, source: NodeId, amount: real, depth: nat, target: NodeId)
    requires Closed(g)
    ensures Received(g, source, amount, depth, target) == Gain(g, source, amount, depth, target) <==>
            NothingTaken(g, source, amount, depth, target)
  {
    hide Received, IsWalk, Brings, End, Clipped;
    var ws := WalksFrom(g, source, amount, depth, target);
    forall w: Walk ensures w in ws <==> Reaches(Clipped(g), source, amount, depth, target, w) {
      ClippedWalk(g, source, amount, w);
    }
    ReceivedIsWalkSum(Clipped(g), source, amount, depth, target, ws);
    SumsCompare(g, source, amount, ws);
  }

  // ---------------------------------------------------------------- the two bounds

  /** Where a level that starts at x can end: gains first and losses last give the lower
      bound, losses first and gains last the upper one. */
  predicate Between(x: real, gain: real, total: real, y: real) {
    Min1(x + gain) - (gain - total) <= y <= Min1(x + total)
  }

  /** Additions one after another stay between the bounds of their sums. */
  lemma BetweenSteps(x: real, gain: real, total: real, y: real, gain': real, total': real, z: real)
    requires 0.0 <= gain' && total <= gain && total' <= gain'
    requires Between(x, gain, total, y) && Between(y, gain', total', z)
    ensures Between(x, gain + gain', total + total', z)
  {
  }

  /** The bounds meet exactly if nothing is lost or the gains do not reach 1. */
  lemma BoundsMeet(x: real, gain: real, total: real)
    requires x <= 1.0 && 0.0 <= gain && total <= gain
    ensures (forall y :: Between(x, gain, total, y) ==> y == Min1(x + total)) <==> gain == total || x + gain <= 1.0
  {
    assert Between(x, gain, total, Min1(x + gain) - (gain - total));
  }

  /** Every level ends between its bounds. */
  ghost predicate RaisedFrom(g: Graph, before: Levels, after: Levels, source: NodeId, amount: real, depth: nat)
    requires Closed(g)
  {
    && after.Keys == before.Keys
    && forall i :: i in before ==>
         Between(before[i], Gain(g, source, amount, depth, i), Received(g, source, amount, depth, i), after[i])
  }

  ghost predicate RaisedByEdges(g: Graph, before: Levels, after: Levels, es: set<EdgeId>, source: NodeId,
                                amount: real, depth: nat)
    requires Closed(g) && depth > 0 && forall e :: e in es ==> e in g.edges
  {
    && after.Keys == before.Keys
    && forall i :: i in before ==>
         Between(before[i], FromEdges(Clipped(g), es, source, amount, depth, i),
                 FromEdges(g, es, source, amount, depth, i), after[i])
  }

  ghost predicate RaisedByNodes(g: Graph, before: Levels, after: Levels, ns: seq<NodeId>, source: NodeId,
                                share: real, depth: nat)
    requires Closed(g) && depth > 0
  {
    && after.Keys == before.Keys
    && forall i :: i in before ==>
         Between(before[i], FromNodes(Clipped(g), ns, source, Max0(share), depth, i),
                 FromNodes(g, ns, source, share, depth, i), after[i])
  }

  lemma NothingRaised(g: Graph, levels: Levels, source: NodeId, amount: real, depth: nat)
    requires Closed(g) && AtMostOne(levels)
    ensures depth == 0 || amount < CUTOFF ==> RaisedFrom(g, levels, levels, source, amount, depth)
    ensures depth > 0 ==> RaisedByEdges(g, levels, levels, {}, source, amount, depth)
    ensures depth > 0 ==> RaisedByNodes(g, levels, levels, [], source, amount, depth)
  {
  }

  lemma AllEdgesRaised(g: Graph, before: Levels, after: Levels, source: NodeId, amount: real, depth: nat)
    requires Closed(g) && depth > 0 && amount >= CUTOFF
    requires RaisedByEdges(g, before, after, Listed(g.adjacency, source), source, amount, depth)
    ensures RaisedFrom(g, before, after, source, amount, depth)
  {
  }

  /** One more edge. */
  lemma EdgeRaised(g: Graph, before: Levels, mid: Levels, after: Levels, es: set<EdgeId>, e: EdgeId,
                   source: NodeId, amount: real, depth: nat)
    requires Closed(g) && depth > 0 && amount >= CUTOFF
    requires e in g.edges && e !in es && forall d :: d in es ==> d in g.edges
    requires RaisedByEdges(g, before, mid, es, source, amount, depth)
    requires RaisedByNodes(g, mid, after, g.edges[e].nodes, source, Share(g, amount, e), depth)
    ensures RaisedByEdges(g, before, after, es + {e}, source, amount, depth)
  {
    hide FromEdges, FromNodes, Share, Between;
    var c, ns, share := Clipped(g), g.edges[e].nodes, Share(g, amount, e);
    assert es + {e} - {e} == es;
    ShareClipped(g, amount, e);
    forall i | i in before
      ensures Between(before[i], FromEdges(c, es + {e}, source, amount, depth, i),
                      FromEdges(g, es + {e}, source, amount, depth, i), after[i])
    {
      AnyEdgeFirst(g, es + {e}, e, source, amount, depth, i);
      AnyEdgeFirst(c, es + {e}, e, source, amount, depth, i);
      GainFromEdges(g, es, source, amount, depth, i);
      GainFromNodes(g, ns, source, share, depth, i);
      BetweenSteps(before[i], FromEdges(c, es, source, amount, depth, i), FromEdges(g, es, source, amount, depth, i),
                   mid[i], FromNodes(c, ns, source, Max0(share), depth, i), FromNodes(g, ns, source, share, depth, i),
                   after[i]);
    }
  }

  /** What visiting one node of an edge does. */
  ghost predicate Visited(g: Graph, mid: Levels, after: Levels, n: NodeId, source: NodeId, share: real, depth: nat)
    requires Closed(g) && depth > 0
  {
    if n == source || n !in g.nodes || n !in mid then after == mid
    else RaisedFrom(g, mid[n := Min1(mid[n] + share)], after, n, share, depth - 1)
  }

  /** One more node of an edge: a node other than the source, if it is stored, is raised by
      the share and spreads it on. */
  lemma NodeVisited(g: Graph, before: Levels, mid: Levels, after: Levels, ns: seq<NodeId>, n: NodeId,
                    source: NodeId, share: real, depth: nat)
    requires Closed(g) && depth > 0 && before.Keys == g.nodes && AtMostOne(mid)
    requires RaisedByNodes(g, before, mid, ns, source, share, depth) && Visited(g, mid, after, n, source, share, depth)
    ensures RaisedByNodes(g, before, after, ns + [n], source, share, depth)
  {
    hide FromNodes, Received, Between;
    var c := Clipped(g);
    forall i | i in before
      ensures Between(before[i], FromNodes(c, ns + [n], source, Max0(share), depth, i),
                      FromNodes(g, ns + [n], source, share, depth, i), after[i])
    {
      OneMoreNode(g, ns, n, source, share, depth, i);
      OneMoreNode(c, ns, n, source, Max0(share), depth, i);
      if n != source && n in g.nodes {
        NodeSteps(g, mid, after, n, share, depth - 1, i);
        var gain := (if n == i then Max0(share) else 0.0) + Gain(g, n, Max0(share), depth - 1, i);
        var total := (if n == i then share else 0.0) + Received(g, n, share, depth - 1, i);
        GainFromNodes(g, ns, source, share, depth, i);
        BetweenSteps(before[i], FromNodes(c, ns, source, Max0(share), depth, i),
                     FromNodes(g, ns, source, share, depth, i), mid[i], gain, total, after[i]);
      }
    }
  }

  lemma NodeSteps(g: Graph, mid: Levels, after: Levels, n: NodeId, share: real, depth: nat, i: NodeId)
    requires Closed(g) && n in mid && i in mid && AtMostOne(mid)
    requires RaisedFrom(g, mid[n := Min1(mid[n] + share)], after, n, share, depth)
    ensures var gain := (if n == i then Max0(share) else 0.0) + Gain(g, n, Max0(share), depth, i);
            var total := (if n == i then share else 0.0) + Received(g, n, share, depth, i);
      0.0 <= gain && total <= gain && Between(mid[i], gain, total, after[i])
  {
    hide Received, Gain;
    ClippedShare(g, n, share, depth, i);
    GainIsMore(g, n, share, depth, i);
    var gain, total := Gain(g, n, share, depth, i), Received(g, n, share, depth, i);
    if n == i {
      BetweenSteps(mid[i], Max0(share), share, Min1(mid[i] + share), gain, total, after[i]);
    }
  }

  lemma OneMoreNode(g: Graph, ns: seq<NodeId>, n: NodeId, source: NodeId, share: real, depth: nat, i: NodeId)
    requires Closed(g) && depth > 0
    ensures FromNodes(g, ns + [n], source, share, depth, i) ==
            FromNodes(g, ns, source, share, depth, i)
            + (if n == source || n !in g.nodes then 0.0
               else (if n == i then share else 0.0) + Received(g, n, share, depth - 1, i))
  {
    assert (ns + [n])[..|ns|] == ns;
  }

  // ---------------------------------------------------------------- what it means for a level

  /** Where a level that starts at x can end when `source` spreads. */
  ghost predicate Settles(g: Graph, x: real, source: NodeId, amount: real, depth: nat, i: NodeId, y: real)
    requires Closed(g)
  {
    Between(x, Gain(g, source, amount, depth, i), Received(g, source, amount, depth, i), y)
  }

  /** A boost of the source before spreading adds to what is received, if nothing is taken. */
  lemma BoostedAndRaised(g: Graph, before: Levels, after: Levels, source: NodeId, boost: real, amount: real, depth: nat,
                         i: NodeId)
    requires Closed(g) && source in before && i in before && AtMostOne(before)
    requires RaisedFrom(g, before[source := Min1(before[source] + boost)], after, source, amount, depth)
    ensures var x := before[i] + (if i == source then boost else 0.0);
      && i in after && Settles(g, Min1(x), source, amount, depth, i, after[i])
      && (NothingTaken(g, source, amount, depth, i) ==>
            after[i] == Min1(x + Received(g, source, amount, depth, i)))
  {
    hide Received, Gain, NothingTaken;
    GainIsMore(g, source, amount, depth, i);
    GainIsReceived(g, source, amount, depth, i);
  }

  /** The bounds of a level are one value exactly if no walk takes anything from it or its
      gains do not reach 1; the value is 1 or all that it had and received. */
  lemma BoundsAgree(g: Graph, x: real, source: NodeId, amount: real, depth: nat, i: NodeId)
    requires Closed(g) && x <= 1.0
    ensures (forall y :: Settles(g, x, source, amount, depth, i, y) ==>
               y == Min1(x + Received(g, source, amount, depth, i)))
            <==> NothingTaken(g, source, amount, depth, i) || x + Gain(g, source, amount, depth, i) <= 1.0
  {
    hide Received, Gain, NothingTaken;
    GainIsMore(g, source, amount, depth, i);
    GainIsReceived(g, source, amount, depth, i);
    var gain, total := Gain(g, source, amount, depth, i), Received(g, source, amount, depth, i);
    BoundsMeet(x, gain, total);
    forall y ensures Settles(g, x, source, amount, depth, i, y) == Between(x, gain, total, y) {}
  }

  lemma NonNegativeTakesNothing(g: Graph, source: NodeId, amount: real, depth: nat, i: NodeId)
    requires Closed(g) && NonNegative(g)
    ensures NothingTaken(g, source, amount, depth, i)
  {
    ClippedIfNonNegative(g);
    GainIsReceived(g, source, amount, depth, i);
  }

  /** Spreading changes no level out of its reach. */
  lemma FarLevelsUnchanged(g: Graph, before: Levels, after: Levels, source: NodeId, amount: real, depth: nat, i: NodeId)
    requires Closed(g) && AtMostOne(before) && i in before && RaisedFrom(g, before, after, source, amount, depth)
    requires forall w :: !Reaches(g, source, amount, depth, i, w)
    ensures after[i] == before[i]
  {
    OutOfReach(g, source, amount, depth, i);
    GainIsReceived(g, source, amount, depth, i);
  }

  /** A level that no walk takes from is not lowered, and none ends above 1. */
  lemma SpreadingOnlyRaises(g: Graph, before: Levels, after: Levels, source: NodeId, amount: real, depth: nat,
                            i: NodeId)
    requires Closed(g) && AtMostOne(before) && i in before && RaisedFrom(g, before, after, source, amount, depth)
    ensures after[i] <= 1.0
    ensures NothingTaken(g, source, amount, depth, i) ==> before[i] <= after[i]
  {
    GainIsMore(g, source, amount, depth, i);
    GainIsReceived(g, source, amount, depth, i);
  }
}
