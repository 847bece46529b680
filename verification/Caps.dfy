/** When the order of the visits matters to a level.  What an outcome does to a level x is to
    add what is received and keep the sum at or below a cap, for clamping at 1 costs the level
    whatever is taken from it afterwards.  The order chooses the cap. */
module Caps {
  import opened Basics
  import opened Activation
  import opened Spreading
  import opened Outcomes

  function AtMost(x: real, cap: real): real { if x < cap then x else cap }

  /** The greater or the lesser of two numbers. */
  function Better(x: real, y: real, high: bool): real { if high == (x > y) then x else y }

  // ---------------------------------------------------------------- the highest and the lowest cap

  /** The highest or the lowest cap that spreading from the source can leave the level of i. */
  ghost function Cap(g: Graph, source: NodeId, amount: real, depth: nat, i: NodeId, high: bool): real
    requires Closed(g)
    decreases depth, 3, 0, 0
  {
    if depth == 0 || amount < CUTOFF then 1.0
    else CapEdges(g, Listed(g.adjacency, source), source, amount, depth, i, high)
  }

  ghost function CapEdges(g: Graph, es: set<EdgeId>, source: NodeId, amount: real, depth: nat, i: NodeId,
                          high: bool): real
    requires Closed(g) && depth > 0 && forall e :: e in es ==> e in g.edges
    decreases depth, 2, |es|, |es| + 1
  {
    if es == {} then 1.0 else CapAmong(g, es, es, source, amount, depth, i, high)
  }

  /** The best cap if one of some edges is walked last: what it adds lifts or lowers the cap of
      the others, and it has a cap of its own. */
  ghost function CapAmong(g: Graph, es: set<EdgeId>, lasts: set<EdgeId>, source: NodeId, amount: real, depth: nat,
                          i: NodeId, high: bool): real
    requires Closed(g) && depth > 0 && lasts != {} && lasts <= es && forall e :: e in es ==> e in g.edges
    decreases depth, 2, |es|, |lasts|
  {
    var e :| e in lasts;
    var cap := AtMost(CapEdges(g, es - {e}, source, amount, depth, i, high)
                      + FromNodes(g, g.edges[e].nodes, source, Share(g, amount, e), depth, i),
                      CapNodes(g, g.edges[e].nodes, source, Share(g, amount, e), depth, i, high));
    if lasts == {e} then cap else Better(cap, CapAmong(g, es, lasts - {e}, source, amount, depth, i, high), high)
  }

  ghost function CapNodes(g: Graph, ns: seq<NodeId>, source: NodeId, share: real, depth: nat, i: NodeId,
                          high: bool): real
    requires Closed(g) && depth > 0
    decreases depth, 1, |ns|, 0
  {
    if ns == [] then 1.0 else
      var front, n := ns[..|ns| - 1], ns[|ns| - 1];
      AtMost(CapNodes(g, front, source, share, depth, i, high) + FromNode(g, n, source, share, depth, i),
             CapNode(g, n, source, share, depth, i, high))
  }

  ghost function CapNode(g: Graph, n: NodeId, source: NodeId, share: real, depth: nat, i: NodeId, high: bool): real
    requires Closed(g) && depth > 0
    decreases depth, 0, 0, 0
  {
    if n == source || n !in g.nodes then 1.0 else
      var cap := Cap(g, n, share, depth - 1, i, high);
      if n == i then AtMost(1.0 + Received(g, n, share, depth - 1, i), cap) else cap
  }

  /** The cap if e is walked last. */
  ghost function CapLast(g: Graph, es: set<EdgeId>, e: EdgeId, source: NodeId, amount: real, depth: nat, i: NodeId,
                         high: bool): real
    requires Closed(g) && depth > 0 && e in es && forall e :: e in es ==> e in g.edges
  {
    AtMost(CapEdges(g, es - {e}, source, amount, depth, i, high)
           + FromNodes(g, g.edges[e].nodes, source, Share(g, amount, e), depth, i),
           CapNodes(g, g.edges[e].nodes, source, Share(g, amount, e), depth, i, high))
  }

  lemma AmongStep(g: Graph, es: set<EdgeId>, lasts: set<EdgeId>, source: NodeId, amount: real, depth: nat, i: NodeId,
                  high: bool) returns (e: EdgeId)
    requires Closed(g) && depth > 0 && lasts != {} && lasts <= es && forall e :: e in es ==> e in g.edges
    ensures e in lasts && (lasts == {e} || lasts - {e} != {})
    ensures lasts == {e} ==>
              CapAmong(g, es, lasts, source, amount, depth, i, high) ==
              CapLast(g, es, e, source, amount, depth, i, high)
    ensures lasts - {e} != {} ==>
              CapAmong(g, es, lasts, source, amount, depth, i, high) ==
              Better(CapLast(g, es, e, source, amount, depth, i, high),
                     CapAmong(g, es, lasts - {e}, source, amount, depth, i, high), high)
  {
    hide CapNodes, CapEdges, FromNodes, Share;
    e :| e in lasts && (lasts == {e} || lasts - {e} != {}) &&
         CapAmong(g, es, lasts, source, amount, depth, i, high) ==
         if lasts == {e} then CapLast(g, es, e, source, amount, depth, i, high)
         else Better(CapLast(g, es, e, source, amount, depth, i, high),
                     CapAmong(g, es, lasts - {e}, source, amount, depth, i, high), high);
  }

  lemma {:induction false} NoBetterAmong(g: Graph, es: set<EdgeId>, lasts: set<EdgeId>, d: EdgeId, source: NodeId,
                                         amount: real, depth: nat, i: NodeId, high: bool)
    requires Closed(g) && depth > 0 && d in lasts && lasts <= es && forall e :: e in es ==> e in g.edges
    ensures var cap, last := CapAmong(g, es, lasts, source, amount, depth, i, high),
                             CapLast(g, es, d, source, amount, depth, i, high);
      if high then last <= cap else cap <= last
    decreases |lasts|
  {
    hide CapNodes, CapEdges, CapAmong, CapLast;
    var e := AmongStep(g, es, lasts, source, amount, depth, i, high);
    if d == e {
      assert lasts == {e} || lasts - {e} != {};
    } else {
      NoBetterAmong(g, es, lasts - {e}, d, source, amount, depth, i, high);
    }
  }

  lemma {:induction false} BestAmong(g: Graph, es: set<EdgeId>, lasts: set<EdgeId>, source: NodeId, amount: real,
                                     depth: nat, i: NodeId, high: bool) returns (d: EdgeId)
    requires Closed(g) && depth > 0 && lasts != {} && lasts <= es && forall e :: e in es ==> e in g.edges
    ensures d in lasts
    ensures CapAmong(g, es, lasts, source, amount, depth, i, high) == CapLast(g, es, d, source, amount, depth, i, high)
    decreases |lasts|
  {
    hide CapNodes, CapEdges, CapAmong, CapLast;
    var e := AmongStep(g, es, lasts, source, amount, depth, i, high);
    d := e;
    if lasts != {e} {
      assert lasts - {e} != {};
      var other := BestAmong(g, es, lasts - {e}, source, amount, depth, i, high);
      if CapAmong(g, es, lasts, source, amount, depth, i, high) != CapLast(g, es, e, source, amount, depth, i, high) {
        d := other;
      }
    }
  }

  lemma NoBetterLast(g: Graph, es: set<EdgeId>, e: EdgeId, source: NodeId, amount: real, depth: nat, i: NodeId,
                     high: bool)
    requires Closed(g) && depth > 0 && e in es && forall e :: e in es ==> e in g.edges
    ensures var cap, last := CapEdges(g, es, source, amount, depth, i, high),
                             CapLast(g, es, e, source, amount, depth, i, high);
      if high then last <= cap else cap <= last
  {
    hide CapLast, CapAmong;
    NoBetterAmong(g, es, es, e, source, amount, depth, i, high);
  }

  lemma BestLast(g: Graph, es: set<EdgeId>, source: NodeId, amount: real, depth: nat, i: NodeId, high: bool)
      returns (e: EdgeId)
    requires Closed(g) && depth > 0 && es != {} && forall e :: e in es ==> e in g.edges
    ensures e in es
    ensures CapEdges(g, es, source, amount, depth, i, high) == CapLast(g, es, e, source, amount, depth, i, high)
  {
    hide CapLast, CapAmong;
    e := BestAmong(g, es, es, source, amount, depth, i, high);
  }

  // ---------------------------------------------------------------- every outcome is between the caps

  /** A level that gets t in all ends between the capped sums. */
  predicate Kept(x: real, low: real, high: real, t: real, y: real) {
    AtMost(x + t, low) <= y <= AtMost(x + t, high)
  }

  lemma KeptSteps(x: real, low: real, high: real, t: real, y: real, low': real, high': real, t': real, z: real)
    requires Kept(x, low, high, t, y) && Kept(y, low', high', t', z)
    ensures Kept(x, AtMost(low + t', low'), AtMost(high + t', high'), t + t', z)
  {
  }

  lemma {:induction false} SpreadsKeep(g: Graph, before: Levels, after: Levels, source: NodeId, amount: real,
                                       depth: nat, i: NodeId)
    requires Closed(g) && Sound(g, before) && i in before && Spreads(g, before, after, source, amount, depth)
    ensures Sound(g, after) && i in after
    ensures Kept(before[i], Cap(g, source, amount, depth, i, false), Cap(g, source, amount, depth, i, true),
                 Received(g, source, amount, depth, i), after[i])
    decreases depth, 3, 0
  {
    hide CapEdges, FromEdges, ThroughEdges;
    if depth > 0 && amount >= CUTOFF {
      EdgesKeep(g, before, after, Listed(g.adjacency, source), source, amount, depth, i);
    }
  }

  lemma {:induction false} EdgesKeep(g: Graph, before: Levels, after: Levels, es: set<EdgeId>, source: NodeId,
                                     amount: real, depth: nat, i: NodeId)
    requires Closed(g) && depth > 0 && (forall e :: e in es ==> e in g.edges)
    requires Sound(g, before) && i in before && ThroughEdges(g, before, after, es, source, amount, depth)
    ensures Sound(g, after) && i in after
    ensures Kept(before[i], CapEdges(g, es, source, amount, depth, i, false),
                 CapEdges(g, es, source, amount, depth, i, true), FromEdges(g, es, source, amount, depth, i), after[i])
    decreases depth, 2, |es|
  {
    hide CapNodes, FromNodes, ThroughNodes, ThroughEdges, Share;
    NoEdges(g, before, after, source, amount, depth);
    if es != {} {
      hide CapEdges, FromEdges;
      var e, mid := LastEdge(g, before, after, es, source, amount, depth);
      EdgesKeep(g, before, mid, es - {e}, source, amount, depth, i);
      NodesKeep(g, mid, after, g.edges[e].nodes, source, Share(g, amount, e), depth, i);
      AnyEdgeFirst(g, es, e, source, amount, depth, i);
      NoBetterLast(g, es, e, source, amount, depth, i, false);
      NoBetterLast(g, es, e, source, amount, depth, i, true);
    }
  }

  lemma {:induction false} NodesKeep(g: Graph, before: Levels, after: Levels, ns: seq<NodeId>, source: NodeId,
                                     share: real, depth: nat, i: NodeId)
    requires Closed(g) && depth > 0 && Sound(g, before) && i in before
    requires ThroughNodes(g, before, after, ns, source, share, depth)
    ensures Sound(g, after) && i in after
    ensures Kept(before[i], CapNodes(g, ns, source, share, depth, i, false),
                 CapNodes(g, ns, source, share, depth, i, true), FromNodes(g, ns, source, share, depth, i), after[i])
    decreases depth, 1, |ns|
  {
    hide CapNode, FromNode, ThroughNode;
    if ns != [] {
      var front, n := ns[..|ns| - 1], ns[|ns| - 1];
      var mid :| ThroughNodes(g, before, mid, front, source, share, depth)
                 && ThroughNode(g, mid, after, n, source, share, depth);
      NodesKeep(g, before, mid, front, source, share, depth, i);
      NodeKeeps(g, mid, after, n, source, share, depth, i);
    }
  }

  lemma {:induction false} NodeKeeps(g: Graph, before: Levels, after: Levels, n: NodeId, source: NodeId, share: real,
                                     depth: nat, i: NodeId)
    requires Closed(g) && depth > 0 && Sound(g, before) && i in before
    requires ThroughNode(g, before, after, n, source, share, depth)
    ensures Sound(g, after) && i in after
    ensures Kept(before[i], CapNode(g, n, source, share, depth, i, false), CapNode(g, n, source, share, depth, i, true),
                 FromNode(g, n, source, share, depth, i), after[i])
    decreases depth, 0, 0
  {
    hide Cap, Received;
    if n != source && n in g.nodes {
      SpreadsKeep(g, before[n := Min1(before[n] + share)], after, n, share, depth - 1, i);
    }
  }

  // ---------------------------------------------------------------- both caps are reached

  lemma {:induction false} SpreadTo(g: Graph, before: Levels, source: NodeId, amount: real, depth: nat, i: NodeId,
                                    high: bool) returns (after: Levels)
    requires Closed(g) && Sound(g, before) && i in before
    ensures Spreads(g, before, after, source, amount, depth) && Sound(g, after) && i in after
    ensures after[i] == AtMost(before[i] + Received(g, source, amount, depth, i),
                               Cap(g, source, amount, depth, i, high))
    decreases depth, 3, 0
  {
    hide CapEdges, FromEdges, ThroughEdges;
    if depth > 0 && amount >= CUTOFF {
      after := EdgesTo(g, before, Listed(g.adjacency, source), source, amount, depth, i, high);
    } else {
      after := before;
    }
  }

  lemma {:induction false} EdgesTo(g: Graph, before: Levels, es: set<EdgeId>, source: NodeId, amount: real, depth: nat,
                                   i: NodeId, high: bool) returns (after: Levels)
    requires Closed(g) && depth > 0 && (forall e :: e in es ==> e in g.edges) && Sound(g, before) && i in before
    ensures ThroughEdges(g, before, after, es, source, amount, depth) && Sound(g, after) && i in after
    ensures after[i] == AtMost(before[i] + FromEdges(g, es, source, amount, depth, i),
                               CapEdges(g, es, source, amount, depth, i, high))
    decreases depth, 2, |es|
  {
    hide CapNodes, FromNodes, ThroughNodes, ThroughEdges, Share;
    if es == {} {
      after := before;
      NoEdges(g, before, after, source, amount, depth);
    } else {
      hide CapEdges, FromEdges;
      var e := BestLast(g, es, source, amount, depth, i, high);
      var mid := EdgesTo(g, before, es - {e}, source, amount, depth, i, high);
      after := NodesTo(g, mid, g.edges[e].nodes, source, Share(g, amount, e), depth, i, high);
      AnyEdgeFirst(g, es, e, source, amount, depth, i);
      EdgeLast(g, before, mid, after, es - {e}, e, source, amount, depth);
      assert es - {e} + {e} == es;
    }
  }

  lemma {:induction false} NodesTo(g: Graph, before: Levels, ns: seq<NodeId>, source: NodeId, share: real, depth: nat,
                                   i: NodeId, high: bool) returns (after: Levels)
    requires Closed(g) && depth > 0 && Sound(g, before) && i in before
    ensures ThroughNodes(g, before, after, ns, source, share, depth) && Sound(g, after) && i in after
    ensures after[i] == AtMost(before[i] + FromNodes(g, ns, source, share, depth, i),
                               CapNodes(g, ns, source, share, depth, i, high))
    decreases depth, 1, |ns|
  {
    hide CapNode, FromNode, ThroughNode;
    if ns == [] {
      after := before;
    } else {
      var front, n := ns[..|ns| - 1], ns[|ns| - 1];
      var mid := NodesTo(g, before, front, source, share, depth, i, high);
      after := NodeTo(g, mid, n, source, share, depth, i, high);
    }
  }

  lemma {:induction false} NodeTo(g: Graph, before: Levels, n: NodeId, source: NodeId, share: real, depth: nat,
                                  i: NodeId, high: bool) returns (after: Levels)
    requires Closed(g) && depth > 0 && Sound(g, before) && i in before
    ensures ThroughNode(g, before, after, n, source, share, depth) && Sound(g, after) && i in after
    ensures after[i] == AtMost(before[i] + FromNode(g, n, source, share, depth, i),
                               CapNode(g, n, source, share, depth, i, high))
    decreases depth, 0, 0
  {
    hide Cap, Received, Spreads;
    if n != source && n in g.nodes {
      after := SpreadTo(g, before[n := Min1(before[n] + share)], n, share, depth - 1, i, high);
    } else {
      after := before;
    }
  }

  // ---------------------------------------------------------------- the exact condition

  lemma {:induction false} CapsInOrder(g: Graph, source: NodeId, amount: real, depth: nat, i: NodeId)
    requires Closed(g)
    ensures Cap(g, source, amount, depth, i, false) <= Cap(g, source, amount, depth, i, true) <= 1.0
    decreases depth, 3, 0
  {
    hide CapEdges;
    if depth > 0 && amount >= CUTOFF {
      EdgeCapsInOrder(g, Listed(g.adjacency, source), source, amount, depth, i);
    }
  }

  lemma {:induction false} EdgeCapsInOrder(g: Graph, es: set<EdgeId>, source: NodeId, amount: real, depth: nat,
                                           i: NodeId)
    requires Closed(g) && depth > 0 && forall e :: e in es ==> e in g.edges
    ensures CapEdges(g, es, source, amount, depth, i, false) <= CapEdges(g, es, source, amount, depth, i, true) <= 1.0
    decreases depth, 2, |es|
  {
    hide CapNodes, FromNodes, Share;
    if es != {} {
      hide CapEdges;
      var e := BestLast(g, es, source, amount, depth, i, true);
      NoBetterLast(g, es, e, source, amount, depth, i, false);
      EdgeCapsInOrder(g, es - {e}, source, amount, depth, i);
      NodeCapsInOrder(g, g.edges[e].nodes, source, Share(g, amount, e), depth, i);
    }
  }

  lemma {:induction false} NodeCapsInOrder(g: Graph, ns: seq<NodeId>, source: NodeId, share: real, depth: nat,
                                           i: NodeId)
    requires Closed(g) && depth > 0
    ensures CapNodes(g, ns, source, share, depth, i, false) <= CapNodes(g, ns, source, share, depth, i, true) <= 1.0
    decreases depth, 1, |ns|
  {
    hide Cap, Received;
    if ns != [] {
      NodeCapsInOrder(g, ns[..|ns| - 1], source, share, depth, i);
      var n := ns[|ns| - 1];
      if n != source && n in g.nodes { CapsInOrder(g, n, share, depth - 1, i); }
    }
  }

  /** All orders agree on a level exactly if no order lowers its cap or what it had and
      received does not reach the lowest cap: for every graph, all strengths and any depth. */
  lemma OrderFreeExact(g: Graph, before: Levels, source: NodeId, amount: real, depth: nat, i: NodeId)
    requires Closed(g) && Sound(g, before) && i in before
    ensures var low, high := Cap(g, source, amount, depth, i, false), Cap(g, source, amount, depth, i, true);
      && low <= high <= 1.0
      && (OrderFree(g, before, source, amount, depth, i) <==>
            low == high || before[i] + Received(g, source, amount, depth, i) <= low)
  {
    hide Spreads, Received, Cap;
    var a := SpreadTo(g, before, source, amount, depth, i, false);
    var b := SpreadTo(g, before, source, amount, depth, i, true);
    CapsInOrder(g, source, amount, depth, i);
    forall after | Spreads(g, before, after, source, amount, depth)
      ensures i in after && a[i] <= after[i] <= b[i]
    {
      SpreadsKeep(g, before, after, source, amount, depth, i);
    }
  }
}
