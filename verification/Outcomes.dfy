/** What activation can come to.  The recursion walks sets, so it has an outcome for every
    order in which these can be walked.  `Spreads` relates the levels before and after for
    some order; the lemmas say when all orders agree on a level. */
module Outcomes {
  import opened Basics
  import opened Activation
  import opened Spreading

  // ---------------------------------------------------------------- the recursion, in some order

  ghost predicate Spreads(g: Graph, before: Levels, after: Levels, source: NodeId, amount: real, depth: nat)
    requires Closed(g)
    decreases depth, 3, 0
  {
    if depth == 0 || amount < CUTOFF then after == before
    else ThroughEdges(g, before, after, Listed(g.adjacency, source), source, amount, depth)
  }

  /** Some edge is the last to be walked. */
  ghost predicate ThroughEdges(g: Graph, before: Levels, after: Levels, es: set<EdgeId>, source: NodeId,
                               amount: real, depth: nat)
    requires Closed(g) && depth > 0 && forall e :: e in es ==> e in g.edges
    decreases depth, 2, |es|
  {
    if es == {} then after == before
    else exists e, mid ::
      && e in es && ThroughEdges(g, before, mid, es - {e}, source, amount, depth)
      && ThroughNodes(g, mid, after, g.edges[e].nodes, source, Share(g, amount, e), depth)
  }

  /** The nodes of one edge, in the order of its list. */
  ghost predicate ThroughNodes(g: Graph, before: Levels, after: Levels, ns: seq<NodeId>, source: NodeId,
                               share: real, depth: nat)
    requires Closed(g) && depth > 0
    decreases depth, 1, |ns|
  {
    if ns == [] then after == before
    else
      var front, n := ns[..|ns| - 1], ns[|ns| - 1];
      exists mid ::
        ThroughNodes(g, before, mid, front, source, share, depth) && ThroughNode(g, mid, after, n, source, share, depth)
  }

  ghost predicate ThroughNode(g: Graph, before: Levels, after: Levels, n: NodeId, source: NodeId, share: real,
                              depth: nat)
    requires Closed(g) && depth > 0
    decreases depth, 0, 0
  {
    if n == source || n !in g.nodes || n !in before then after == before
    else Spreads(g, before[n := Min1(before[n] + share)], after, n, share, depth - 1)
  }

  lemma EdgeLast(g: Graph, before: Levels, mid: Levels, after: Levels, es: set<EdgeId>, e: EdgeId, source: NodeId,
                 amount: real, depth: nat)
    requires Closed(g) && depth > 0 && e in g.edges && e !in es && forall d :: d in es ==> d in g.edges
    requires ThroughEdges(g, before, mid, es, source, amount, depth)
    requires ThroughNodes(g, mid, after, g.edges[e].nodes, source, Share(g, amount, e), depth)
    ensures ThroughEdges(g, before, after, es + {e}, source, amount, depth)
  {
    assert es + {e} - {e} == es;
  }

  lemma NodeLast(g: Graph, before: Levels, mid: Levels, after: Levels, ns: seq<NodeId>, n: NodeId, source: NodeId,
                 share: real, depth: nat)
    requires Closed(g) && depth > 0
    requires ThroughNodes(g, before, mid, ns, source, share, depth)
    requires ThroughNode(g, mid, after, n, source, share, depth)
    ensures ThroughNodes(g, before, after, ns + [n], source, share, depth)
  {
    assert (ns + [n])[..|ns|] == ns;
  }

  /** Walking some edges and then others is walking all of them. */
  lemma {:induction false} EdgesThenEdges(g: Graph, before: Levels, mid: Levels, after: Levels, xs: set<EdgeId>,
                                          ys: set<EdgeId>, source: NodeId, amount: real, depth: nat)
    requires Closed(g) && depth > 0 && xs !! ys && (forall e :: e in xs + ys ==> e in g.edges)
    requires ThroughEdges(g, before, mid, xs, source, amount, depth)
    requires ThroughEdges(g, mid, after, ys, source, amount, depth)
    ensures ThroughEdges(g, before, after, xs + ys, source, amount, depth)
    decreases |ys|
  {
    hide ThroughNodes, ThroughEdges, Share;
    if ys == {} {
      NoEdges(g, mid, after, source, amount, depth);
      assert xs + ys == xs;
    } else {
      var e, last := LastEdge(g, mid, after, ys, source, amount, depth);
      EdgesThenEdges(g, before, mid, last, xs, ys - {e}, source, amount, depth);
      EdgeLast(g, before, last, after, xs + (ys - {e}), e, source, amount, depth);
      assert xs + (ys - {e}) + {e} == xs + ys;
    }
  }

  lemma NoEdges(g: Graph, before: Levels, after: Levels, source: NodeId, amount: real, depth: nat)
    requires Closed(g) && depth > 0
    ensures ThroughEdges(g, before, after, {}, source, amount, depth) <==> after == before
  {
  }

  lemma LastEdge(g: Graph, before: Levels, after: Levels, es: set<EdgeId>, source: NodeId, amount: real, depth: nat)
      returns (e: EdgeId, mid: Levels)
    requires Closed(g) && depth > 0 && es != {} && forall e :: e in es ==> e in g.edges
    requires ThroughEdges(g, before, after, es, source, amount, depth)
    ensures e in es && ThroughEdges(g, before, mid, es - {e}, source, amount, depth)
    ensures ThroughNodes(g, mid, after, g.edges[e].nodes, source, Share(g, amount, e), depth)
  {
    hide ThroughNodes, Share;
    e, mid :| e in es && ThroughEdges(g, before, mid, es - {e}, source, amount, depth)
              && ThroughNodes(g, mid, after, g.edges[e].nodes, source, Share(g, amount, e), depth);
  }

  // -- there always is an outcome

  lemma {:induction false} SomeOutcome(g: Graph, before: Levels, source: NodeId, amount: real, depth: nat)
      returns (after: Levels)
    requires Closed(g)
    ensures Spreads(g, before, after, source, amount, depth)
    decreases depth, 3, 0
  {
    if depth == 0 || amount < CUTOFF {
      after := before;
    } else {
      after := SomeWay(g, before, Listed(g.adjacency, source), source, amount, depth);
    }
  }

  lemma {:induction false} SomeWay(g: Graph, before: Levels, es: set<EdgeId>, source: NodeId, amount: real, depth: nat)
      returns (after: Levels)
    requires Closed(g) && depth > 0 && forall e :: e in es ==> e in g.edges
    ensures ThroughEdges(g, before, after, es, source, amount, depth)
    decreases depth, 2, |es|
  {
    if es == {} {
      after := before;
    } else {
      var e :| e in es;
      var mid := SomeWay(g, before, es - {e}, source, amount, depth);
      after := SomePassage(g, mid, g.edges[e].nodes, source, Share(g, amount, e), depth);
    }
  }

  lemma {:induction false} SomePassage(g: Graph, before: Levels, ns: seq<NodeId>, source: NodeId, share: real,
                                       depth: nat) returns (after: Levels)
    requires Closed(g) && depth > 0
    ensures ThroughNodes(g, before, after, ns, source, share, depth)
    decreases depth, 1, |ns|
  {
    if ns == [] {
      after := before;
    } else {
      var n := ns[|ns| - 1];
      var mid := SomePassage(g, before, ns[..|ns| - 1], source, share, depth);
      if n == source || n !in g.nodes || n !in mid {
        after := mid;
      } else {
        after := SomeOutcome(g, mid[n := Min1(mid[n] + share)], n, share, depth - 1);
      }
    }
  }

  // -- every outcome is between the bounds

  predicate Sound(g: Graph, levels: Levels) {
    levels.Keys == g.nodes && forall i :: i in levels ==> levels[i] <= 1.0
  }

  /** Whatever the order, every level ends between its bounds. */
  lemma {:induction false} SpreadsRaises(g: Graph, before: Levels, after: Levels, source: NodeId, amount: real,
                                         depth: nat)
    requires Closed(g) && Sound(g, before) && Spreads(g, before, after, source, amount, depth)
    ensures RaisedFrom(g, before, after, source, amount, depth) && Sound(g, after)
    decreases depth, 3, 0
  {
    hide Received, FromEdges, Gain, Between;
    NothingRaised(g, before, source, amount, depth);
    if depth > 0 && amount >= CUTOFF {
      EdgesRaise(g, before, after, Listed(g.adjacency, source), source, amount, depth);
      AllEdgesRaised(g, before, after, source, amount, depth);
    }
  }

  lemma {:induction false} EdgesRaise(g: Graph, before: Levels, after: Levels, es: set<EdgeId>, source: NodeId,
                                      amount: real, depth: nat)
    requires Closed(g) && depth > 0 && amount >= CUTOFF && (forall e :: e in es ==> e in g.edges)
    requires Sound(g, before) && ThroughEdges(g, before, after, es, source, amount, depth)
    ensures RaisedByEdges(g, before, after, es, source, amount, depth) && Sound(g, after)
    decreases depth, 2, |es|
  {
    hide RaisedByEdges, RaisedByNodes, ThroughNodes, ThroughEdges, Share;
    NoEdges(g, before, after, source, amount, depth);
    if es == {} {
      NothingRaised(g, before, source, amount, depth);
    } else {
      var e, mid := LastEdge(g, before, after, es, source, amount, depth);
      EdgesRaise(g, before, mid, es - {e}, source, amount, depth);
      NodesRaise(g, mid, after, g.edges[e].nodes, source, Share(g, amount, e), depth);
      EdgeRaised(g, before, mid, after, es - {e}, e, source, amount, depth);
      assert es - {e} + {e} == es;
    }
  }

  lemma {:induction false} NodesRaise(g: Graph, before: Levels, after: Levels, ns: seq<NodeId>, source: NodeId,
                                      share: real, depth: nat)
    requires Closed(g) && depth > 0 && Sound(g, before)
    requires ThroughNodes(g, before, after, ns, source, share, depth)
    ensures RaisedByNodes(g, before, after, ns, source, share, depth) && Sound(g, after)
    decreases depth, 1, |ns|
  {
    hide RaisedByNodes, RaisedFrom;
    if ns == [] {
      NothingRaised(g, before, source, share, depth);
    } else {
      var front, n := ns[..|ns| - 1], ns[|ns| - 1];
      var mid :| ThroughNodes(g, before, mid, front, source, share, depth)
                 && ThroughNode(g, mid, after, n, source, share, depth);
      NodesRaise(g, before, mid, front, source, share, depth);
      if n != source && n in g.nodes {
        SpreadsRaises(g, mid[n := Min1(mid[n] + share)], after, n, share, depth - 1);
      }
      NodeVisited(g, before, mid, after, front, n, source, share, depth);
      assert front + [n] == ns;
    }
  }

  // -- activating a node

  function Boosted(levels: Levels, source: NodeId, boost: real): Levels
    requires source in levels
  {
    levels[source := Min1(levels[source] + boost)]
  }

  /** A clamped boost of the source and then spreading, in some order. */
  lemma Activated(g: Graph, before: Levels, after: Levels, source: NodeId, boost: real, amount: real, depth: nat)
    requires Closed(g) && Sound(g, before) && source in before
    requires Spreads(g, Boosted(before, source, boost), after, source, amount, depth)
    ensures Sound(g, after)
    ensures forall i :: i in before ==>
              var x := before[i] + (if i == source then boost else 0.0);
              && i in after && Settles(g, Min1(x), source, amount, depth, i, after[i])
              && (NonNegative(g) || NothingTaken(g, source, amount, depth, i) ==>
                    after[i] == Min1(x + Received(g, source, amount, depth, i)))
  {
    hide Received, NothingTaken, NonNegative, Spreads;
    SpreadsRaises(g, Boosted(before, source, boost), after, source, amount, depth);
    forall i | i in before
      ensures var x := before[i] + (if i == source then boost else 0.0);
        && i in after && Settles(g, Min1(x), source, amount, depth, i, after[i])
        && (NonNegative(g) || NothingTaken(g, source, amount, depth, i) ==>
              after[i] == Min1(x + Received(g, source, amount, depth, i)))
    {
      BoostedAndRaised(g, before, after, source, boost, amount, depth, i);
      if NonNegative(g) { NonNegativeTakesNothing(g, source, amount, depth, i); }
    }
  }

  /** The same in terms of edges and strengths alone, where nothing is taken. */
  lemma ActivatedPlainly(g: Graph, before: Levels, after: Levels, source: NodeId, boost: real, amount: real, depth: nat)
    requires Closed(g) && Sound(g, before) && source in before
    requires Spreads(g, Boosted(before, source, boost), after, source, amount, depth)
    ensures forall i, ws :: i in before && AreCarriers(g, source, amount, depth, i, ws)
                            && (NonNegative(g) || NothingTaken(g, source, amount, depth, i)) ==>
              var x := before[i] + (if i == source then boost else 0.0);
              i in after && AllStored(g, ws) && after[i] == Min1(x + Total(g, amount, ws))
  {
    hide Received, NothingTaken, NonNegative, Spreads, AreCarriers, Settles;
    Activated(g, before, after, source, boost, amount, depth);
    forall i, ws | i in before && AreCarriers(g, source, amount, depth, i, ws)
                   && (NonNegative(g) || NothingTaken(g, source, amount, depth, i))
      ensures var x := before[i] + (if i == source then boost else 0.0);
        i in after && AllStored(g, ws) && after[i] == Min1(x + Total(g, amount, ws))
    {
      ReceivedIsTotal(g, source, amount, depth, i, ws);
    }
  }

  // ---------------------------------------------------------------- when all orders agree

  /** All orders end a level at the same value. */
  ghost predicate OrderFree(g: Graph, before: Levels, source: NodeId, amount: real, depth: nat, i: NodeId)
    requires Closed(g)
  {
    forall a, b :: Spreads(g, before, a, source, amount, depth) && Spreads(g, before, b, source, amount, depth) ==>
      i in a && i in b && a[i] == b[i]
  }

  /** No walk takes anything from the level, or its gains do not reach 1. */
  ghost predicate Unclamped(g: Graph, before: Levels, source: NodeId, amount: real, depth: nat, i: NodeId)
    requires Closed(g) && i in before
  {
    NothingTaken(g, source, amount, depth, i) || before[i] + Gain(g, source, amount, depth, i) <= 1.0
  }

  /** The order cannot matter to a level whose bounds agree, and then it ends there. */
  lemma UnclampedIsOrderFree(g: Graph, before: Levels, source: NodeId, amount: real, depth: nat, i: NodeId)
    requires Closed(g) && Sound(g, before) && i in before && Unclamped(g, before, source, amount, depth, i)
    ensures OrderFree(g, before, source, amount, depth, i)
    ensures forall a :: Spreads(g, before, a, source, amount, depth) ==>
              i in a && a[i] == Min1(before[i] + Received(g, source, amount, depth, i))
  {
    hide Received, Gain, NothingTaken, Spreads;
    BoundsAgree(g, before[i], source, amount, depth, i);
    forall a | Spreads(g, before, a, source, amount, depth)
      ensures i in a && a[i] == Min1(before[i] + Received(g, source, amount, depth, i))
    {
      SpreadsRaises(g, before, a, source, amount, depth);
      assert Settles(g, before[i], source, amount, depth, i, a[i]);
    }
  }

  // -- edges that only give to a level, or only take from it

  ghost predicate Gives(g: Graph, source: NodeId, amount: real, depth: nat, i: NodeId, e: EdgeId)
    requires Closed(g) && depth > 0 && e in g.edges
  {
    var ns, share := g.edges[e].nodes, Share(g, amount, e);
    FromNodes(g, ns, source, share, depth, i) == FromNodes(Clipped(g), ns, source, Max0(share), depth, i)
  }

  ghost predicate Takes(g: Graph, source: NodeId, amount: real, depth: nat, i: NodeId, e: EdgeId)
    requires Closed(g) && depth > 0 && e in g.edges
  {
    FromNodes(Clipped(g), g.edges[e].nodes, source, Max0(Share(g, amount, e)), depth, i) == 0.0
  }

  /** No edge of the source both gives to the level and takes from it. */
  ghost predicate OneSigned(g: Graph, source: NodeId, amount: real, depth: nat, i: NodeId)
    requires Closed(g) && depth > 0
  {
    forall e :: e in Listed(g.adjacency, source) ==>
      Gives(g, source, amount, depth, i, e) || Takes(g, source, amount, depth, i, e)
  }

  lemma {:induction false} GiversGive(g: Graph, es: set<EdgeId>, source: NodeId, amount: real, depth: nat, i: NodeId)
    requires Closed(g) && depth > 0 && amount >= CUTOFF
    requires forall e :: e in es ==> e in g.edges && Gives(g, source, amount, depth, i, e)
    ensures FromEdges(g, es, source, amount, depth, i) == FromEdges(Clipped(g), es, source, amount, depth, i)
    decreases |es|
  {
    hide FromNodes, Share;
    if es != {} {
      var e :| e in es;
      AnyEdgeFirst(g, es, e, source, amount, depth, i);
      AnyEdgeFirst(Clipped(g), es, e, source, amount, depth, i);
      ShareClipped(g, amount, e);
      GiversGive(g, es - {e}, source, amount, depth, i);
    }
  }

  lemma {:induction false} TakersTake(g: Graph, es: set<EdgeId>, source: NodeId, amount: real, depth: nat, i: NodeId)
    requires Closed(g) && depth > 0 && amount >= CUTOFF
    requires forall e :: e in es ==> e in g.edges && Takes(g, source, amount, depth, i, e)
    ensures FromEdges(Clipped(g), es, source, amount, depth, i) == 0.0
    decreases |es|
  {
    hide FromNodes, Share;
    if es != {} {
      var e :| e in es;
      AnyEdgeFirst(Clipped(g), es, e, source, amount, depth, i);
      ShareClipped(g, amount, e);
      TakersTake(g, es - {e}, source, amount, depth, i);
    }
  }

  lemma {:induction false} FromEdgesUnion(g: Graph, xs: set<EdgeId>, ys: set<EdgeId>, source: NodeId, amount: real,
                                          depth: nat, i: NodeId)
    requires Closed(g) && depth > 0 && xs !! ys && forall e :: e in xs + ys ==> e in g.edges
    ensures FromEdges(g, xs + ys, source, amount, depth, i) ==
            FromEdges(g, xs, source, amount, depth, i) + FromEdges(g, ys, source, amount, depth, i)
    decreases |xs|
  {
    hide FromNodes, Share;
    if xs == {} {
      assert xs + ys == ys;
    } else {
      var e :| e in xs;
      AnyEdgeFirst(g, xs, e, source, amount, depth, i);
      AnyEdgeFirst(g, xs + ys, e, source, amount, depth, i);
      FromEdgesUnion(g, xs - {e}, ys, source, amount, depth, i);
      assert xs + ys - {e} == (xs - {e}) + ys;
    }
  }

  /** Givers first and takers last, and the other way round: both bounds are attained. */
  lemma BothBounds(g: Graph, before: Levels, source: NodeId, amount: real, depth: nat, i: NodeId)
      returns (low: Levels, high: Levels)
    requires Closed(g) && Sound(g, before) && i in before && depth > 0 && amount >= CUTOFF
    requires OneSigned(g, source, amount, depth, i)
    ensures Spreads(g, before, low, source, amount, depth) && Spreads(g, before, high, source, amount, depth)
    ensures var gain, total := Gain(g, source, amount, depth, i), Received(g, source, amount, depth, i);
      && i in low && low[i] == Min1(before[i] + gain) - (gain - total)
      && i in high && high[i] == Min1(before[i] + total)
  {
    hide FromNodes, FromEdges, ThroughEdges, Takes, Gives;
    var all := Listed(g.adjacency, source);
    var givers := set e | e in all && Gives(g, source, amount, depth, i, e);
    var takers := all - givers;
    assert givers + takers == all == takers + givers;
    FromEdgesUnion(g, givers, takers, source, amount, depth, i);
    FromEdgesUnion(Clipped(g), givers, takers, source, amount, depth, i);
    GiversGive(g, givers, source, amount, depth, i);
    TakersTake(g, takers, source, amount, depth, i);
    low := GiversThenTakers(g, before, givers, takers, source, amount, depth, i);
    high := TakersThenGivers(g, before, givers, takers, source, amount, depth, i);
  }

  lemma GiversThenTakers(g: Graph, before: Levels, givers: set<EdgeId>, takers: set<EdgeId>, source: NodeId,
                         amount: real, depth: nat, i: NodeId) returns (after: Levels)
    requires Closed(g) && Sound(g, before) && i in before && depth > 0 && amount >= CUTOFF
    requires givers !! takers && forall e :: e in givers + takers ==> e in g.edges
    requires FromEdges(g, givers, source, amount, depth, i) == FromEdges(Clipped(g), givers, source, amount, depth, i)
    requires FromEdges(Clipped(g), takers, source, amount, depth, i) == 0.0
    ensures ThroughEdges(g, before, after, givers + takers, source, amount, depth) && i in after
    ensures after[i] == Min1(before[i] + FromEdges(g, givers, source, amount, depth, i))
                        + FromEdges(g, takers, source, amount, depth, i)
  {
    hide FromEdges, ThroughEdges;
    var mid := SomeWay(g, before, givers, source, amount, depth);
    EdgesRaise(g, before, mid, givers, source, amount, depth);
    after := SomeWay(g, mid, takers, source, amount, depth);
    EdgesRaise(g, mid, after, takers, source, amount, depth);
    GainFromEdges(g, takers, source, amount, depth, i);
    EdgesThenEdges(g, before, mid, after, givers, takers, source, amount, depth);
  }

  lemma TakersThenGivers(g: Graph, before: Levels, givers: set<EdgeId>, takers: set<EdgeId>, source: NodeId,
                         amount: real, depth: nat, i: NodeId) returns (after: Levels)
    requires Closed(g) && Sound(g, before) && i in before && depth > 0 && amount >= CUTOFF
    requires givers !! takers && forall e :: e in givers + takers ==> e in g.edges
    requires FromEdges(g, givers, source, amount, depth, i) == FromEdges(Clipped(g), givers, source, amount, depth, i)
    requires FromEdges(Clipped(g), takers, source, amount, depth, i) == 0.0
    ensures ThroughEdges(g, before, after, takers + givers, source, amount, depth) && i in after
    ensures after[i] == Min1(before[i] + FromEdges(g, takers, source, amount, depth, i)
                             + FromEdges(g, givers, source, amount, depth, i))
  {
    hide FromEdges, ThroughEdges;
    var mid := SomeWay(g, before, takers, source, amount, depth);
    EdgesRaise(g, before, mid, takers, source, amount, depth);
    after := SomeWay(g, mid, givers, source, amount, depth);
    EdgesRaise(g, mid, after, givers, source, amount, depth);
    GainFromEdges(g, takers, source, amount, depth, i);
    EdgesThenEdges(g, before, mid, after, takers, givers, source, amount, depth);
  }

  /** If no edge of the source both gives to a level and takes from it, all orders agree on it
      exactly if nothing is taken from it or its gains do not reach 1. */
  lemma OneSignedExact(g: Graph, before: Levels, source: NodeId, amount: real, depth: nat, i: NodeId)
    requires Closed(g) && Sound(g, before) && i in before && depth > 0 && OneSigned(g, source, amount, depth, i)
    ensures OrderFree(g, before, source, amount, depth, i) <==> Unclamped(g, before, source, amount, depth, i)
  {
    hide OneSigned, Spreads, NothingTaken, Between;
    if Unclamped(g, before, source, amount, depth, i) {
      UnclampedIsOrderFree(g, before, source, amount, depth, i);
    } else {
      GainIsReceived(g, source, amount, depth, i);
      GainIsMore(g, source, amount, depth, i);
      assert amount >= CUTOFF;
      var low, high := BothBounds(g, before, source, amount, depth, i);
      assert low[i] != high[i];
    }
  }

  /** One hop from the target every edge is one-signed, so there the condition is exact for
      every graph. */
  lemma LastHopExact(g: Graph, before: Levels, source: NodeId, amount: real, i: NodeId)
    requires Closed(g) && Sound(g, before) && i in before
    ensures OrderFree(g, before, source, amount, 1, i) <==> Unclamped(g, before, source, amount, 1, i)
  {
    forall e | e in Listed(g.adjacency, source)
      ensures Gives(g, source, amount, 1, i, e) || Takes(g, source, amount, 1, i, e)
    {
      OneShare(g, g.edges[e].nodes, source, Share(g, amount, e), i);
    }
    OneSignedExact(g, before, source, amount, 1, i);
  }

  lemma {:induction false} OneShare(g: Graph, ns: seq<NodeId>, source: NodeId, share: real, i: NodeId)
    requires Closed(g)
    ensures 0.0 <= share ==>
              FromNodes(g, ns, source, share, 1, i) == FromNodes(Clipped(g), ns, source, Max0(share), 1, i)
    ensures share <= 0.0 ==> FromNodes(Clipped(g), ns, source, Max0(share), 1, i) == 0.0
    decreases |ns|
  {
    if ns != [] { OneShare(g, ns[..|ns| - 1], source, share, i); }
  }

  // ---------------------------------------------------------------- two examples

  /** One hop never comes back to where it started. */
  lemma NothingToSelf(g: Graph, n: NodeId, amount: real)
    requires Closed(g)
    ensures Received(g, n, amount, 1, n) == 0.0
  {
    forall w: Walk ensures !Reaches(g, n, amount, 1, n, w) {}
    OutOfReach(g, n, amount, 1, n);
  }

  /** Two edges from s to i, of strengths p and q. */
  function TwoEdges(p: real, q: real): (g: Graph)
    ensures Closed(g)
  {
    Graph({"s", "i"}, map["e" := Edge(["s", "i"], p), "f" := Edge(["s", "i"], q)],
          map["s" := {"e", "f"}, "i" := {"e", "f"}])
  }

  lemma PairReceives(g: Graph, share: real)
    requires Closed(g) && g.nodes == {"s", "i"}
    ensures FromNodes(g, ["s", "i"], "s", share, 2, "i") == share
  {
    NothingToSelf(g, "i", share);
    assert ["s", "i"][..1] == ["s"] && ["s"][..0] == [];
    assert FromNodes(g, [], "s", share, 2, "i") == 0.0;
    assert FromNodes(g, ["s"], "s", share, 2, "i") == 0.0;
  }

  lemma TwoEdgesReceive(p: real, q: real)
    ensures Received(TwoEdges(p, q), "s", 1.0, 2, "i") == p + q
  {
    var g := TwoEdges(p, q);
    PairReceives(g, p);
    PairReceives(g, q);
    AnyEdgeFirst(g, {"e", "f"}, "e", "s", 1.0, 2, "i");
    assert {"e", "f"} - {"e"} == {"f"} && {"f"} - {"f"} == {};
    AnyEdgeFirst(g, {"f"}, "f", "s", 1.0, 2, "i");
  }

  /** A gain p and a loss q end at different levels in the two orders exactly if the gain
      reaches 1: from level 1 a gain and a loss of a half end at a half or at 1. */
  lemma OrderMatters(before: Levels, p: real, q: real) returns (low: Levels, high: Levels)
    requires Sound(TwoEdges(p, q), before) && 0.0 <= p && q < 0.0
    ensures var g, x := TwoEdges(p, q), before["i"];
      && Spreads(g, before, low, "s", 1.0, 2) && Spreads(g, before, high, "s", 1.0, 2)
      && "i" in low && low["i"] == Min1(x + p) + q && "i" in high && high["i"] == Min1(x + p + q)
      && (OrderFree(g, before, "s", 1.0, 2, "i") <==> x + p <= 1.0)
  {
    hide Spreads, NothingTaken, Received, FromEdges, FromNodes, Sound;
    var g := TwoEdges(p, q);
    assert Sound(g, before);
    PairReceives(g, p);
    PairReceives(g, q);
    PairReceives(Clipped(g), p);
    PairReceives(Clipped(g), 0.0);
    assert Clipped(g) == TwoEdges(p, 0.0);
    TwoEdgesReceive(p, q);
    TwoEdgesReceive(p, 0.0);
    SoundHasI(g, before);
    assert OneSigned(g, "s", 1.0, 2, "i");
    low, high := BothBounds(g, before, "s", 1.0, 2, "i");
    OneSignedExact(g, before, "s", 1.0, 2, "i");
    GainIsReceived(g, "s", 1.0, 2, "i");
  }

  lemma SoundHasI(g: Graph, before: Levels)
    requires Sound(g, before) && "i" in g.nodes
    ensures "i" in before && before["i"] <= 1.0
  {
  }

  /** One edge from s to a and then b; a gives q to i and b gives r. */
  function MixedEdge(q: real, r: real): (g: Graph)
    ensures Closed(g)
  {
    Graph({"s", "a", "b", "i"},
          map["e" := Edge(["s", "a", "b"], 1.0), "f" := Edge(["a", "i"], q), "h" := Edge(["b", "i"], r)],
          map["s" := {"e"}, "a" := {"e", "f"}, "b" := {"e", "h"}, "i" := {"f", "h"}])
  }

  lemma TripleGivesNothing(g: Graph, n: NodeId, share: real)
    requires Closed(g) && n != "i"
    ensures FromNodes(g, ["s", "a", "b"], n, share, 1, "i") == 0.0
  {
    assert ["s", "a", "b"][..2] == ["s", "a"] && ["s", "a"][..1] == ["s"] && ["s"][..0] == [];
    assert FromNodes(g, ["s"], n, share, 1, "i") == 0.0;
    assert FromNodes(g, ["s", "a"], n, share, 1, "i") == 0.0;
  }

  lemma PairGivesShare(g: Graph, n: NodeId, share: real)
    requires Closed(g) && n != "i" && "i" in g.nodes
    ensures FromNodes(g, [n, "i"], n, share, 1, "i") == share
  {
    assert [n, "i"][..1] == [n] && [n][..0] == [];
    assert FromNodes(g, [n], n, share, 1, "i") == 0.0;
  }

  lemma MixedReceives(q: real, r: real)
    ensures Received(MixedEdge(q, r), "a", 1.0, 1, "i") == q && Received(MixedEdge(q, r), "b", 1.0, 1, "i") == r
  {
    var g := MixedEdge(q, r);
    TripleGivesNothing(g, "a", 1.0);
    TripleGivesNothing(g, "b", 1.0);
    PairGivesShare(g, "a", q);
    PairGivesShare(g, "b", r);
    AnyEdgeFirst(g, {"e", "f"}, "e", "a", 1.0, 1, "i");
    assert {"e", "f"} - {"e"} == {"f"} && {"f"} - {"f"} == {};
    AnyEdgeFirst(g, {"f"}, "f", "a", 1.0, 1, "i");
    AnyEdgeFirst(g, {"e", "h"}, "e", "b", 1.0, 1, "i");
    assert {"e", "h"} - {"e"} == {"h"} && {"h"} - {"h"} == {};
    AnyEdgeFirst(g, {"h"}, "h", "b", 1.0, 1, "i");
  }

  lemma MixedReceivesInAll(q: real, r: real)
    ensures Received(MixedEdge(q, r), "s", 1.0, 2, "i") == q + r
  {
    hide Received;
    var g := MixedEdge(q, r);
    MixedReceives(q, r);
    assert ["s", "a", "b"][..2] == ["s", "a"] && ["s", "a"][..1] == ["s"] && ["s"][..0] == [];
    assert FromNodes(g, ["s"], "s", 1.0, 2, "i") == 0.0;
    assert FromNodes(g, ["s", "a"], "s", 1.0, 2, "i") == q;
    OneEdgeReceives(g, "e", "s", "i");
  }

  lemma OneEdgeReceives(g: Graph, e: EdgeId, source: NodeId, i: NodeId)
    requires Closed(g) && Listed(g.adjacency, source) == {e} && g.edges[e].strength == 1.0
    ensures Received(g, source, 1.0, 2, i) == FromNodes(g, g.edges[e].nodes, source, 1.0, 2, i)
  {
    AnyEdgeFirst(g, {e}, e, source, 1.0, 2, i);
    assert {e} - {e} == {};
  }

  /** The edge gives to i before it takes from it in every order: the level always ends at the
      lower bound, although its gain may well reach 1.  So without edges of one sign the
      condition is sufficient only. */
  lemma MixedEdgeIsOrderFree(before: Levels, q: real, r: real)
    requires Sound(MixedEdge(q, r), before) && 0.0 <= q && r < 0.0
    ensures var g, x := MixedEdge(q, r), before["i"];
      && OrderFree(g, before, "s", 1.0, 2, "i")
      && (Unclamped(g, before, "s", 1.0, 2, "i") <==> x + q <= 1.0)
      && forall after :: Spreads(g, before, after, "s", 1.0, 2) ==> "i" in after && after["i"] == Min1(x + q) + r
  {
    hide Spreads, NothingTaken, Received;
    var g := MixedEdge(q, r);
    forall after | Spreads(g, before, after, "s", 1.0, 2)
      ensures "i" in after && after["i"] == Min1(before["i"] + q) + r
    {
      MixedOutcome(before, after, q, r);
    }
    assert Clipped(g) == MixedEdge(q, 0.0);
    MixedReceivesInAll(q, r);
    MixedReceivesInAll(q, 0.0);
    GainIsReceived(g, "s", 1.0, 2, "i");
  }

  lemma MixedOutcome(before: Levels, after: Levels, q: real, r: real)
    requires Sound(MixedEdge(q, r), before) && 0.0 <= q && r < 0.0
    requires Spreads(MixedEdge(q, r), before, after, "s", 1.0, 2)
    ensures "i" in after && after["i"] == Min1(before["i"] + q) + r
  {
    hide Received, Gain, Sound, Spreads, ThroughNodes, ThroughNode, MixedEdge;
    var g := MixedEdge(q, r);
    MixedFacts(q, r);
    SoundHasI(g, before);
    OneEdgeSpreads(g, before, after, "e", "s");
    var mid := TwoVisits(g, before, after);
    MixedReceives(q, r);
    MixedReceives(q, 0.0);
    OneVisit(g, before, mid, "a", q, q);
    OneVisit(g, mid, after, "b", 0.0, r);
    SoundHasI(g, after);
  }

  lemma MixedFacts(q: real, r: real)
    requires 0.0 <= q && r < 0.0
    ensures var g := MixedEdge(q, r);
      && g.nodes == {"s", "a", "b", "i"} && Listed(g.adjacency, "s") == {"e"}
      && g.edges.Keys == {"e", "f", "h"} && g.edges["e"] == Edge(["s", "a", "b"], 1.0)
      && forall n :: Gain(g, n, 1.0, 1, "i") == Received(MixedEdge(q, 0.0), n, 1.0, 1, "i")
  {
    hide Received;
    assert Clipped(MixedEdge(q, r)) == MixedEdge(q, 0.0);
  }

  lemma OneEdgeSpreads(g: Graph, before: Levels, after: Levels, e: EdgeId, source: NodeId)
    requires Closed(g) && Listed(g.adjacency, source) == {e} && e in g.edges && g.edges[e].strength == 1.0
    requires Spreads(g, before, after, source, 1.0, 2)
    ensures ThroughNodes(g, before, after, g.edges[e].nodes, source, 1.0, 2)
  {
    hide ThroughNodes;
    assert {e} - {e} == {};
  }

  lemma TwoVisits(g: Graph, before: Levels, after: Levels) returns (mid: Levels)
    requires Closed(g) && ThroughNodes(g, before, after, ["s", "a", "b"], "s", 1.0, 2)
    ensures ThroughNode(g, before, mid, "a", "s", 1.0, 2) && ThroughNode(g, mid, after, "b", "s", 1.0, 2)
  {
    hide Spreads;
    assert ["s", "a", "b"][..2] == ["s", "a"] && ["s", "a"][..1] == ["s"] && ["s"][..0] == [];
    mid :| ThroughNodes(g, before, mid, ["s", "a"], "s", 1.0, 2) && ThroughNode(g, mid, after, "b", "s", 1.0, 2);
    var first :| ThroughNodes(g, before, first, ["s"], "s", 1.0, 2) && ThroughNode(g, first, mid, "a", "s", 1.0, 2);
    assert first == before;
  }

  /** A visit from s that gives to i or takes from it. */
  lemma OneVisit(g: Graph, before: Levels, after: Levels, n: NodeId, gain: real, total: real)
    requires Closed(g) && Sound(g, before) && n in g.nodes && n !in {"s", "i"} && "i" in g.nodes
    requires ThroughNode(g, before, after, n, "s", 1.0, 2)
    requires Gain(g, n, 1.0, 1, "i") == gain && Received(g, n, 1.0, 1, "i") == total
    requires gain == total || gain == 0.0
    ensures Sound(g, after) && after["i"] == Min1(before["i"] + total)
  {
    hide NothingTaken, Received, Gain, Spreads;
    var raised := before[n := Min1(before[n] + 1.0)];
    GainIsReceived(g, n, 1.0, 1, "i");
    SpreadsRaises(g, raised, after, n, 1.0, 1);
    UnclampedIsOrderFree(g, raised, n, 1.0, 1, "i");
  }
}
