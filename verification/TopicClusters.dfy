/** Clusters of related topics: relations arrive one at a time, and each creates a cluster,
    extends one or merges two.  New clusters are named by the current number of clusters. */
module TopicClusters {
  import opened Basics

  type Topic = string

  type Clusters = map<nat, set<Topic>>

  type Relation = (Topic, Topic)

  // ---------------------------------------------------------------- one relation, on values

  ghost predicate Clustered(c: Clusters, t: Topic) { exists id :: id in c && t in c[id] }

  ghost function ClusterOf(c: Clusters, t: Topic): (id: Option<nat>)
    ensures id.Some? <==> Clustered(c, t)
    ensures id.Some? ==> id.value in c && t in c[id.value]
  {
    if Clustered(c, t) then var id :| id in c && t in c[id]; Some(id) else None
  }

  ghost function Related(c: Clusters, a: Topic, b: Topic): Clusters {
    match (ClusterOf(c, a), ClusterOf(c, b))
    case (None, None) => c[|c| := {a, b}]
    case (Some(i), None) => c[i := c[i] + {b}]
    case (None, Some(j)) => c[j := c[j] + {a}]
    case (Some(i), Some(j)) => if i != j then c[i := c[i] + c[j]] - {j} else c
  }

  ghost predicate Disjoint(c: Clusters) {
    forall i, j, t :: i in c && j in c && t in c[i] && t in c[j] ==> i == j
  }

  ghost predicate NonEmpty(c: Clusters) { forall id :: id in c ==> c[id] != {} }

  ghost predicate Together(c: Clusters, a: Topic, b: Topic) { exists id :: id in c && a in c[id] && b in c[id] }

  // ---------------------------------------------------------------- connectivity

  predicate Linked(r: seq<Relation>, u: Topic, v: Topic) { (u, v) in r || (v, u) in r }

  predicate IsPath(r: seq<Relation>, p: seq<Topic>) {
    p != [] && forall k :: 0 <= k < |p| - 1 ==> Linked(r, p[k], p[k + 1])
  }

  ghost predicate Connected(r: seq<Relation>, a: Topic, b: Topic) {
    exists p :: IsPath(r, p) && p[0] == a && p[|p| - 1] == b
  }

  predicate Mentioned(r: seq<Relation>, t: Topic) { exists e :: e in r && (e.0 == t || e.1 == t) }

  lemma ConnectedSelf(r: seq<Relation>, a: Topic)
    ensures Connected(r, a, a)
  {
    assert IsPath(r, [a]);
  }

  lemma ConnectedLink(r: seq<Relation>, a: Topic, b: Topic)
    requires Linked(r, a, b)
    ensures Connected(r, a, b)
  {
    assert IsPath(r, [a, b]);
  }

  lemma ConnectedThrough(r: seq<Relation>, a: Topic, b: Topic, c: Topic)
    requires Connected(r, a, b) && Connected(r, b, c)
    ensures Connected(r, a, c)
  {
    var p :| IsPath(r, p) && p[0] == a && p[|p| - 1] == b;
    var q :| IsPath(r, q) && q[0] == b && q[|q| - 1] == c;
    assert IsPath(r, p + q[1..]);
  }

  lemma ConnectedBack(r: seq<Relation>, a: Topic, b: Topic)
    requires Connected(r, a, b)
    ensures Connected(r, b, a)
  {
    var p :| IsPath(r, p) && p[0] == a && p[|p| - 1] == b;
    var q := seq(|p|, k requires 0 <= k < |p| => p[|p| - 1 - k]);
    forall k | 0 <= k < |q| - 1 ensures Linked(r, q[k], q[k + 1]) {
      assert Linked(r, p[|p| - 2 - k], p[|p| - 1 - k]);
    }
    assert IsPath(r, q);
  }

  lemma ConnectedStill(r: seq<Relation>, e: Relation, a: Topic, b: Topic)
    requires Connected(r, a, b)
    ensures Connected(r + [e], a, b)
  {
    var p :| IsPath(r, p) && p[0] == a && p[|p| - 1] == b;
    assert IsPath(r + [e], p);
  }

  // ---------------------------------------------------------------- what every step keeps

  /** Topics that share a cluster are connected, and only related topics are clustered. */
  ghost predicate Sound(c: Clusters, r: seq<Relation>) {
    && (forall a, b :: Together(c, a, b) ==> Connected(r, a, b))
    && (forall t :: Clustered(c, t) ==> Mentioned(r, t))
  }

  /** Related topics share a cluster. */
  ghost predicate Complete(c: Clusters, r: seq<Relation>) {
    forall e :: e in r ==> Together(c, e.0, e.1)
  }

  lemma StepKeepsDisjoint(c: Clusters, a: Topic, b: Topic)
    requires Disjoint(c) && NonEmpty(c)
    ensures Disjoint(Related(c, a, b)) && NonEmpty(Related(c, a, b))
  {
    var i, j := ClusterOf(c, a), ClusterOf(c, b);
    if i.None? && j.None? {
      forall k | k in c ensures a !in c[k] && b !in c[k] { assert !Clustered(c, a) && !Clustered(c, b); }
    } else if i.Some? && j.None? {
      forall k | k in c ensures b !in c[k] { assert !Clustered(c, b); }
    } else if i.None? && j.Some? {
      forall k | k in c ensures a !in c[k] { assert !Clustered(c, a); }
    }
  }

  lemma StepKeepsSound(c: Clusters, r: seq<Relation>, a: Topic, b: Topic)
    requires Sound(c, r)
    ensures Sound(Related(c, a, b), r + [(a, b)])
  {
    hide Connected, Mentioned;
    var c', r' := Related(c, a, b), r + [(a, b)];
    forall x, y | Together(c', x, y) ensures Connected(r', x, y) {
      var id :| id in c' && x in c'[id] && y in c'[id];
      StepJoins(c, r, a, b, x);
      StepJoins(c, r, a, b, y);
      if Together(c, x, y) {
        ConnectedStill(r, (a, b), x, y);
      } else {
        SplitByStep(c, a, b, id, x, y);
        ConnectedBack(r', a, y);
        ConnectedBack(r', a, x);
        ConnectedThrough(r', x, a, y);
      }
    }
    forall t | Clustered(c', t) ensures Mentioned(r', t) {
      MentionedStep(c, r, a, b, t);
    }
  }

  lemma MentionedStep(c: Clusters, r: seq<Relation>, a: Topic, b: Topic, t: Topic)
    requires Sound(c, r) && Clustered(Related(c, a, b), t)
    ensures Mentioned(r + [(a, b)], t)
  {
    hide Connected;
    var r' := r + [(a, b)];
    assert (a, b) in r';
    var id :| id in Related(c, a, b) && t in Related(c, a, b)[id];
    if Clustered(c, t) {
      var e :| e in r && (e.0 == t || e.1 == t);
      assert e in r';
    }
  }

  /** The step makes a, b and everything clustered with either of them connected. */
  lemma StepJoins(c: Clusters, r: seq<Relation>, a: Topic, b: Topic, x: Topic)
    requires Sound(c, r)
    ensures x == a || x == b || Together(c, a, x) || Together(c, b, x) ==> Connected(r + [(a, b)], a, x)
  {
    hide Connected, Mentioned;
    var r' := r + [(a, b)];
    assert (a, b) in r';
    ConnectedSelf(r', a);
    ConnectedLink(r', a, b);
    if Together(c, a, x) { ConnectedStill(r, (a, b), a, x); }
    if Together(c, b, x) {
      ConnectedStill(r, (a, b), b, x);
      ConnectedThrough(r', a, b, x);
    }
  }

  /** Two topics that only now share a cluster both came from the topics the step joined. */
  lemma SplitByStep(c: Clusters, a: Topic, b: Topic, id: nat, x: Topic, y: Topic)
    requires id in Related(c, a, b) && x in Related(c, a, b)[id] && y in Related(c, a, b)[id]
    requires !Together(c, x, y)
    ensures x == a || x == b || Together(c, a, x) || Together(c, b, x)
    ensures y == a || y == b || Together(c, a, y) || Together(c, b, y)
  {
  }

  // ---------------------------------------------------------------- when the clusters are the components

  /** The clusters are exactly the connected components of the related topics. */
  ghost predicate Components(c: Clusters, r: seq<Relation>) {
    && Disjoint(c) && NonEmpty(c)
    && (forall t :: Clustered(c, t) <==> Mentioned(r, t))
    && (forall a, b :: Mentioned(r, a) && Mentioned(r, b) ==> (Together(c, a, b) <==> Connected(r, a, b)))
  }

  lemma TogetherThrough(c: Clusters, x: Topic, y: Topic, z: Topic)
    requires Disjoint(c) && Together(c, x, y) && Together(c, y, z)
    ensures Together(c, x, z)
  {
    var i :| i in c && x in c[i] && y in c[i];
    var j :| j in c && y in c[j] && z in c[j];
  }

  lemma {:induction false} PathStaysTogether(c: Clusters, r: seq<Relation>, p: seq<Topic>)
    requires Disjoint(c) && Complete(c, r) && IsPath(r, p) && Clustered(c, p[0])
    ensures Together(c, p[0], p[|p| - 1])
  {
    if |p| == 1 {
      var id :| id in c && p[0] in c[id];
      assert Together(c, p[0], p[0]);
    } else {
      var front := p[..|p| - 1];
      forall k | 0 <= k < |front| - 1 ensures Linked(r, front[k], front[k + 1]) {
        assert Linked(r, p[k], p[k + 1]);
      }
      assert IsPath(r, front);
      PathStaysTogether(c, r, front);
      var u, v := p[|p| - 2], p[|p| - 1];
      assert Linked(r, u, v);
      assert Together(c, u, v) by {
        if (u, v) in r { assert Together(c, u, v); } else { assert Together(c, v, u); }
      }
      TogetherThrough(c, p[0], u, v);
    }
  }

  lemma SoundAndComplete(c: Clusters, r: seq<Relation>)
    requires Disjoint(c) && NonEmpty(c) && Sound(c, r)
    ensures Complete(c, r) <==> Components(c, r)
  {
    if Complete(c, r) {
      forall t | Mentioned(r, t) ensures Clustered(c, t) {
        var e :| e in r && (e.0 == t || e.1 == t);
        assert Together(c, e.0, e.1);
      }
      forall a, b | Mentioned(r, a) && Connected(r, a, b) ensures Together(c, a, b) {
        var p :| IsPath(r, p) && p[0] == a && p[|p| - 1] == b;
        PathStaysTogether(c, r, p);
      }
    }
    if Components(c, r) {
      forall e | e in r ensures Together(c, e.0, e.1) {
        assert Mentioned(r, e.0) && Mentioned(r, e.1);
        assert Linked(r, e.0, e.1);
        ConnectedLink(r, e.0, e.1);
      }
    }
  }

  /** The new cluster's name is taken, so creating it drops an old cluster. */
  ghost predicate Overwrites(c: Clusters, a: Topic, b: Topic) {
    !Clustered(c, a) && !Clustered(c, b) && |c| in c
  }

  lemma StepKeepsComplete(c: Clusters, r: seq<Relation>, a: Topic, b: Topic)
    requires Disjoint(c) && Complete(c, r) && !Overwrites(c, a, b)
    ensures Complete(Related(c, a, b), r + [(a, b)])
  {
    var c' := Related(c, a, b);
    forall e | e in r + [(a, b)] ensures Together(c', e.0, e.1) {
      if e in r {
        StillTogether(c, a, b, e.0, e.1);
      } else {
        NowTogether(c, a, b);
      }
    }
  }

  lemma NowTogether(c: Clusters, a: Topic, b: Topic)
    ensures Together(Related(c, a, b), a, b)
  {
    var c', i, j := Related(c, a, b), ClusterOf(c, a), ClusterOf(c, b);
    var id := if i.Some? then i.value else if j.Some? then j.value else |c|;
    assert id in c' && a in c'[id] && b in c'[id];
  }

  lemma StillTogether(c: Clusters, a: Topic, b: Topic, x: Topic, y: Topic)
    requires Together(c, x, y) && !Overwrites(c, a, b)
    ensures Together(Related(c, a, b), x, y)
  {
    var c', i, j := Related(c, a, b), ClusterOf(c, a), ClusterOf(c, b);
    var id :| id in c && x in c[id] && y in c[id];
    var id' := if i.Some? && j.Some? && id == j.value then i.value else id;
    assert id' in c' && x in c'[id'] && y in c'[id'];
  }

  lemma OverwriteLoses(c: Clusters, r: seq<Relation>, a: Topic, b: Topic)
    requires Disjoint(c) && NonEmpty(c) && Sound(c, r) && Overwrites(c, a, b)
    ensures !Components(Related(c, a, b), r + [(a, b)])
  {
    var t :| t in c[|c|];
    assert Clustered(c, t);
    assert Mentioned(r + [(a, b)], t) by {
      var e :| e in r && (e.0 == t || e.1 == t);
      assert e in r + [(a, b)];
    }
    assert a !in c[|c|] && b !in c[|c|];
    assert !Clustered(Related(c, a, b), t);
  }

  /** From clusters that are the components, one more relation keeps them so exactly unless
      it creates a cluster under a name in use. */
  lemma StepExact(c: Clusters, r: seq<Relation>, a: Topic, b: Topic)
    requires Components(c, r)
    ensures Components(Related(c, a, b), r + [(a, b)]) <==> !Overwrites(c, a, b)
  {
    ComponentsAreSound(c, r);
    SoundAndComplete(c, r);
    StepKeepsDisjoint(c, a, b);
    StepKeepsSound(c, r, a, b);
    SoundAndComplete(Related(c, a, b), r + [(a, b)]);
    if Overwrites(c, a, b) { OverwriteLoses(c, r, a, b); } else { StepKeepsComplete(c, r, a, b); }
  }

  lemma ComponentsAreSound(c: Clusters, r: seq<Relation>)
    requires Components(c, r)
    ensures Sound(c, r)
  {
    forall a, b | Together(c, a, b) ensures Connected(r, a, b) {
      assert Clustered(c, a) && Clustered(c, b);
    }
  }

  // ---------------------------------------------------------------- whole runs

  /** The clusters after all the relations, from none. */
  ghost function ClustersOf(r: seq<Relation>): Clusters {
    if r == [] then map[] else
      var e := r[|r| - 1];
      Related(ClustersOf(r[..|r| - 1]), e.0, e.1)
  }

  /** In every run the clusters stay disjoint and only join connected topics. */
  lemma {:induction false} RunIsSound(r: seq<Relation>)
    ensures Disjoint(ClustersOf(r)) && NonEmpty(ClustersOf(r)) && Sound(ClustersOf(r), r)
  {
    if r != [] {
      var front, e := r[..|r| - 1], r[|r| - 1];
      RunIsSound(front);
      StepKeepsDisjoint(ClustersOf(front), e.0, e.1);
      StepKeepsSound(ClustersOf(front), front, e.0, e.1);
      assert r == front + [(e.0, e.1)];
    }
  }

  /** No relation of the run creates a cluster under a name in use. */
  ghost predicate NeverOverwrites(r: seq<Relation>) {
    r != [] ==>
      NeverOverwrites(r[..|r| - 1]) && !Overwrites(ClustersOf(r[..|r| - 1]), r[|r| - 1].0, r[|r| - 1].1)
  }

  /** The clusters are the components after every relation of a run exactly if none of them
      creates a cluster under a name in use. */
  lemma {:induction false} RunIsExact(r: seq<Relation>)
    ensures (forall k :: 0 <= k <= |r| ==> Components(ClustersOf(r[..k]), r[..k])) <==> NeverOverwrites(r)
    ensures NeverOverwrites(r) ==> Components(ClustersOf(r), r)
  {
    assert r[..|r|] == r;
    if r == [] {
      assert !exists t :: Clustered(map[], t);
    } else {
      var front, e := r[..|r| - 1], r[|r| - 1];
      RunIsExact(front);
      assert r == front + [(e.0, e.1)];
      assert forall k :: 0 <= k <= |front| ==> r[..k] == front[..k];
      if Components(ClustersOf(front), front) { StepExact(ClustersOf(front), front, e.0, e.1); }
    }
  }

  ghost predicate Merges(c: Clusters, a: Topic, b: Topic) {
    ClusterOf(c, a).Some? && ClusterOf(c, b).Some? && ClusterOf(c, a) != ClusterOf(c, b)
  }

  ghost predicate NeverMerges(r: seq<Relation>) {
    r != [] ==>
      NeverMerges(r[..|r| - 1]) && !Merges(ClustersOf(r[..|r| - 1]), r[|r| - 1].0, r[|r| - 1].1)
  }

  /** Until the first merge the names are 0, 1, 2, ... without a gap, so none is reused. */
  lemma {:induction false} UntilTheFirstMerge(r: seq<Relation>)
    requires NeverMerges(r)
    ensures NeverOverwrites(r)
    ensures forall id: nat :: id in ClustersOf(r) <==> id < |ClustersOf(r)|
  {
    if r != [] {
      var front, e := r[..|r| - 1], r[|r| - 1];
      UntilTheFirstMerge(front);
      var c, c' := ClustersOf(front), ClustersOf(r);
      if !Clustered(c, e.0) && !Clustered(c, e.1) {
        assert |c| !in c && c'.Keys == c.Keys + {|c|};
      } else {
        assert c'.Keys == c.Keys;
      }
      assert |c'| == |c'.Keys| && |c| == |c.Keys|;
    }
  }

  lemma NewCluster(r: seq<Relation>, c: Clusters, a: Topic, b: Topic)
    requires ClustersOf(r) == c && !Clustered(c, a) && !Clustered(c, b)
    ensures ClustersOf(r + [(a, b)]) == c[|c| := {a, b}]
  {
    assert (r + [(a, b)])[..|r|] == r;
  }

  lemma MergedClusters(r: seq<Relation>, c: Clusters, a: Topic, b: Topic, i: nat, j: nat)
    requires ClustersOf(r) == c && Disjoint(c) && i in c && j in c && i != j && a in c[i] && b in c[j]
    ensures ClustersOf(r + [(a, b)]) == c[i := c[i] + c[j]] - {j}
  {
    assert (r + [(a, b)])[..|r|] == r;
    assert Clustered(c, a) && Clustered(c, b);
    var i', j' := ClusterOf(c, a).value, ClusterOf(c, b).value;
  }

  /** After a merge a name can be reused, and for any eight distinct topics this run loses
      the cluster of e and f. */
  lemma ReusedNameLosesCluster(a: Topic, b: Topic, c: Topic, d: Topic, e: Topic, f: Topic, g: Topic, h: Topic)
    requires g !in {a, b, c, d, e, f} && h !in {a, b, c, d, e, f}
    requires c !in {a, b} && d !in {a, b} && e !in {a, b, c, d} && f !in {a, b, c, d}
    ensures !NeverOverwrites([(a, b), (c, d), (e, f), (a, c), (g, h)])
    ensures !Components(ClustersOf([(a, b), (c, d), (e, f), (a, c), (g, h)]), [(a, b), (c, d), (e, f), (a, c), (g, h)])
  {
    hide Related, ClusterOf, ClustersOf, Components;
    var c4 := FourRelations(a, b, c, d, e, f);
    var r4 := [(a, b), (c, d), (e, f), (a, c)];
    var r := r4 + [(g, h)];
    assert r == [(a, b), (c, d), (e, f), (a, c), (g, h)];
    RunIsSound(r4);
    assert |c4| == 2 && Overwrites(c4, g, h);
    OverwriteLoses(c4, r4, g, h);
    LastStep(r4, g, h);
  }

  lemma LastStep(r: seq<Relation>, a: Topic, b: Topic)
    ensures ClustersOf(r + [(a, b)]) == Related(ClustersOf(r), a, b)
    ensures Overwrites(ClustersOf(r), a, b) ==> !NeverOverwrites(r + [(a, b)])
  {
    assert (r + [(a, b)])[..|r|] == r;
  }

  lemma TwoRelations(a: Topic, b: Topic, c: Topic, d: Topic)
    requires c !in {a, b} && d !in {a, b}
    ensures ClustersOf([(a, b), (c, d)]) == map[0 := {a, b}, 1 := {c, d}]
  {
    hide Related, ClusterOf, ClustersOf;
    NoClusters();
    NewCluster([], map[], a, b);
    assert [] + [(a, b)] == [(a, b)];
    var c1: Clusters := map[0 := {a, b}];
    NewCluster([(a, b)], c1, c, d);
    assert [(a, b)] + [(c, d)] == [(a, b), (c, d)];
  }

  lemma ThreeRelations(a: Topic, b: Topic, c: Topic, d: Topic, e: Topic, f: Topic)
    requires c !in {a, b} && d !in {a, b} && e !in {a, b, c, d} && f !in {a, b, c, d}
    ensures ClustersOf([(a, b), (c, d), (e, f)]) == map[0 := {a, b}, 1 := {c, d}, 2 := {e, f}]
  {
    hide Related, ClusterOf, ClustersOf;
    TwoRelations(a, b, c, d);
    var c2: Clusters := map[0 := {a, b}, 1 := {c, d}];
    assert |c2| == 2;
    NewCluster([(a, b), (c, d)], c2, e, f);
    assert [(a, b), (c, d)] + [(e, f)] == [(a, b), (c, d), (e, f)];
  }

  lemma FourRelations(a: Topic, b: Topic, c: Topic, d: Topic, e: Topic, f: Topic) returns (c4: Clusters)
    requires c !in {a, b} && d !in {a, b} && e !in {a, b, c, d} && f !in {a, b, c, d}
    ensures c4 == map[0 := {a, b, c, d}, 2 := {e, f}]
    ensures ClustersOf([(a, b), (c, d), (e, f), (a, c)]) == c4
  {
    hide Related, ClusterOf, ClustersOf;
    ThreeRelations(a, b, c, d, e, f);
    RunIsSound([(a, b), (c, d), (e, f)]);
    var c3: Clusters := map[0 := {a, b}, 1 := {c, d}, 2 := {e, f}];
    c4 := map[0 := {a, b, c, d}, 2 := {e, f}];
    MergedClusters([(a, b), (c, d), (e, f)], c3, a, c, 0, 1);
    assert [(a, b), (c, d), (e, f)] + [(a, c)] == [(a, b), (c, d), (e, f), (a, c)];
    var merged := c3[0 := c3[0] + c3[1]] - {1};
    assert c3[0] + c3[1] == {a, b, c, d};
    assert merged.Keys == {0, 2} == c4.Keys;
    assert merged[0] == c4[0] && merged[2] == c4[2];
  }

  lemma NoClusters()
    ensures ClustersOf([]) == map[]
  {
  }
}
