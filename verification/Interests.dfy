/** Interest tracking: engagements, a salience map, clusters of related topics and the list of
    active interests that is derived from the salience map. */
module Interests {
  import Arith
  import opened Basics
  import opened Sorting
  import opened TopicClusters

  datatype Facts = Facts(topic: Topic, firstEncounter: real, lastEncounter: real, encounterCount: nat,
                         totalDuration: real, emotionalValence: real, curiosityLevel: real,
                         learningProgress: real, satisfaction: real)

  datatype Engagement = Engagement(facts: Facts, related: set<Topic>)

  datatype Goal = Goal(id: string, topic: Topic, created: real, priority: real, curiosityDriver: real,
                       utilityDriver: real, progress: real, targetDepth: real, completed: bool)

  /** A dictionary that remembers the order its keys came in. */
  type Salience = seq<(Topic, real)>

  datatype State = State(engagements: map<Topic, Engagement>, goals: seq<Goal>, salience: Salience,
                         clusters: Clusters, active: seq<Topic>)

  // ---------------------------------------------------------------- the derived list

  ghost predicate DistinctKeys(s: Salience) {
    forall i, j :: 0 <= i < j < |s| ==> s[i].0 != s[j].0
  }

  predicate MoreSalient(x: (Topic, real), y: (Topic, real)) { x.1 >= y.1 }

  function Put(s: Salience, t: Topic, x: real): Salience {
    if s == [] then [(t, x)]
    else if s[0].0 == t then [(t, x)] + s[1..]
    else [s[0]] + Put(s[1..], t, x)
  }

  /** Topics of the entries above the bar, in order. */
  function Above(s: Salience): seq<Topic> {
    if s == [] then [] else
      var front, e := Above(s[..|s| - 1]), s[|s| - 1];
      if e.1 > 0.3 then front + [e.0] else front
  }

  function Five(s: Salience): Salience { if |s| <= 5 then s else s[..5] }

  /** The active interests that a salience map implies. */
  function TopFive(s: Salience): seq<Topic> { Above(Five(Sort(s, MoreSalient))) }

  lemma MoreSalientPreorder()
    ensures TotalPreorder(MoreSalient)
  {
  }

  lemma {:induction false} PutKeepsDistinct(s: Salience, t: Topic, x: real)
    requires DistinctKeys(s)
    ensures DistinctKeys(Put(s, t, x))
    ensures forall e :: e in Put(s, t, x) <==> e == (t, x) || (e in s && e.0 != t)
  {
    if s != [] {
      assert forall e :: e in s <==> e == s[0] || e in s[1..];
      assert forall e :: e in s[1..] ==> e.0 != s[0].0;
      PutKeepsDistinct(s[1..], t, x);
      var rest := Put(s[1..], t, x);
      if s[0].0 == t {
        assert forall e :: e in [(t, x)] + s[1..] <==> e == (t, x) || e in s[1..];
      } else {
        forall j | 0 <= j < |rest| ensures rest[j].0 != s[0].0 { assert rest[j] in rest; }
      }
    }
  }

  /** A new topic comes last ... */
  lemma {:induction false} PutNew(s: Salience, t: Topic, x: real)
    requires forall k :: 0 <= k < |s| ==> s[k].0 != t
    ensures Put(s, t, x) == s + [(t, x)]
  {
    if s != [] { PutNew(s[1..], t, x); }
  }

  /** ... and a known one stays where it is. */
  lemma {:induction false} PutKnown(s: Salience, t: Topic, x: real, k: nat)
    requires k < |s| && s[k].0 == t && forall j :: 0 <= j < k ==> s[j].0 != t
    ensures Put(s, t, x) == s[k := (t, x)]
  {
    if k > 0 {
      PutKnown(s[1..], t, x, k - 1);
      assert [s[0]] + s[1..][k - 1 := (t, x)] == s[k := (t, x)];
    }
  }

  /** In a sorted map the entries above the bar come first. */
  lemma {:induction false} AbovePrefix(s: Salience)
    requires Sorted(s, MoreSalient)
    ensures |Above(s)| <= |s|
    ensures forall i :: 0 <= i < |Above(s)| ==> Above(s)[i] == s[i].0 && s[i].1 > 0.3
    ensures forall i :: |Above(s)| <= i < |s| ==> s[i].1 <= 0.3
  {
    if s != [] {
      var front, e := s[..|s| - 1], s[|s| - 1];
      AbovePrefix(front);
      assert forall i :: 0 <= i < |front| ==> MoreSalient(front[i], e);
      if e.1 > 0.3 { assert |Above(front)| == |front|; }
    }
  }

  /** The salience a map gives a topic. */
  ghost predicate Rates(s: Salience, t: Topic, x: real) { (t, x) in s }

  /** Active interests are at most five distinct topics above the bar, most salient first,
      and a topic above the bar is left out only for five at least as salient. */
  lemma TopFiveIsTop(s: Salience)
    requires DistinctKeys(s)
    ensures var top := TopFive(s);
      && |top| <= 5 && NoDuplicates(top)
      && (forall t :: t in top ==> exists x :: Rates(s, t, x) && x > 0.3)
      && (forall i, j, x, y :: 0 <= i < j < |top| && Rates(s, top[i], x) && Rates(s, top[j], y) ==> x >= y)
      && (forall t, x :: Rates(s, t, x) && x > 0.3 && t !in top ==>
            |top| == 5 && forall u, y :: u in top && Rates(s, u, y) ==> y >= x)
  {
    var sorted := Sort(s, MoreSalient);
    SortedFacts(s);
    var five, top := Five(sorted), TopFive(s);
    AbovePrefix(five);
    forall i, x | 0 <= i < |top| && Rates(s, top[i], x) ensures x == sorted[i].1 {
      OneRating(s, sorted[i], (top[i], x));
    }
    forall t | t in top ensures exists x :: Rates(s, t, x) && x > 0.3 {
      var i :| 0 <= i < |top| && top[i] == t;
      assert five[i] in sorted && Rates(s, t, five[i].1);
    }
    forall t, x | Rates(s, t, x) && x > 0.3 && t !in top
      ensures |top| == 5 && forall u, y :: u in top && Rates(s, u, y) ==> y >= x
    {
      assert (t, x) in sorted;
      var k :| 0 <= k < |sorted| && sorted[k] == (t, x);
      LeftOut(sorted, five, top, k);
      forall u, y | u in top && Rates(s, u, y) ensures y >= x {
        var i :| 0 <= i < |top| && top[i] == u;
        assert MoreSalient(sorted[i], sorted[k]);
      }
    }
  }

  lemma SortedFacts(s: Salience)
    requires DistinctKeys(s)
    ensures var sorted := Sort(s, MoreSalient);
      && Sorted(sorted, MoreSalient) && |sorted| == |s|
      && (forall e :: e in sorted <==> e in s)
      && DistinctKeys(sorted)
  {
    var sorted := Sort(s, MoreSalient);
    MoreSalientPreorder();
    SortSorts(s, MoreSalient);
    SortKeeps(s, MoreSalient);
    SameMultiset(sorted, s);
    forall e ensures e in sorted <==> e in s {
      assert e in sorted <==> e in multiset(sorted);
      assert e in s <==> e in multiset(s);
    }
    RearrangedNoDuplicates(s, sorted);
    forall i, j | 0 <= i < j < |sorted| ensures sorted[i].0 != sorted[j].0 {
      assert sorted[i] in s && sorted[j] in s && sorted[i] != sorted[j];
      if sorted[i].0 == sorted[j].0 { OneRating(s, sorted[i], sorted[j]); }
    }
  }

  lemma OneRating(s: Salience, d: (Topic, real), e: (Topic, real))
    requires DistinctKeys(s) && d in s && e in s && d.0 == e.0
    ensures d == e
  {
    var i :| 0 <= i < |s| && s[i] == d;
    var j :| 0 <= j < |s| && s[j] == e;
  }

  lemma {:induction false} AboveHolds(s: Salience, k: nat)
    requires k < |s| && s[k].1 > 0.3
    ensures s[k].0 in Above(s)
  {
    if k < |s| - 1 { AboveHolds(s[..|s| - 1], k); }
  }

  lemma LeftOut(sorted: Salience, five: Salience, top: seq<Topic>, k: nat)
    requires Sorted(sorted, MoreSalient) && five == Five(sorted) && top == Above(five) && k < |sorted|
    requires sorted[k].1 > 0.3 && sorted[k].0 !in top
    ensures |top| == 5 <= k
  {
    AbovePrefix(five);
    if k < |five| {
      AboveHolds(five, k);
    } else {
      assert forall i :: 0 <= i < |five| ==> MoreSalient(sorted[i], sorted[k]);
    }
  }

  // ---------------------------------------------------------------- saving and loading

  datatype SavedEngagement = SavedEngagement(facts: Facts, related: seq<Topic>)

  /** The saved record: sets become lists, and the active interests are not saved. */
  datatype Saved = Saved(engagements: map<Topic, SavedEngagement>, goals: seq<Goal>, salience: Salience,
                         clusters: map<nat, seq<Topic>>)

  function AsSet(s: seq<Topic>): set<Topic> { set t | t in s }

  ghost predicate Records(d: Saved, s: State) {
    && d.engagements.Keys == s.engagements.Keys
    && (forall t :: t in s.engagements ==>
          && d.engagements[t].facts == s.engagements[t].facts
          && AsSet(d.engagements[t].related) == s.engagements[t].related)
    && d.goals == s.goals && d.salience == s.salience
    && d.clusters.Keys == s.clusters.Keys
    && (forall id :: id in s.clusters ==> AsSet(d.clusters[id]) == s.clusters[id])
  }

  function Loaded(d: Saved): State {
    State(map t | t in d.engagements :: Engagement(d.engagements[t].facts, AsSet(d.engagements[t].related)),
          d.goals, d.salience,
          map id | id in d.clusters :: AsSet(d.clusters[id]),
          TopFive(d.salience))
  }

  /** Loading what was saved restores everything, the unsaved active interests included,
      exactly when these were current. */
  lemma SaveLoadRoundTrip(d: Saved, s: State)
    requires Records(d, s)
    ensures Loaded(d) == s <==> s.active == TopFive(s.salience)
  {
    assert Loaded(d).engagements == s.engagements;
    assert Loaded(d).clusters == s.clusters;
  }

  // ---------------------------------------------------------------- engagement arithmetic

  function FirstEncounter(topic: Topic, duration: real, valence: real, learned: bool, satisfaction: real,
                          now: real): Engagement {
    Engagement(Facts(topic, now, now, 1, duration, valence, 0.7, if learned then 0.1 else 0.0, satisfaction), {})
  }

  function NextEncounter(e: Engagement, duration: real, valence: real, learned: bool, satisfaction: real,
                         now: real): Engagement {
    var f := e.facts;
    var change := (satisfaction - 0.5) * 0.1 + (if learned then 0.1 else -0.05);
    e.(facts := Facts(f.topic, f.firstEncounter, now, f.encounterCount + 1, f.totalDuration + duration,
                      0.7 * f.emotionalValence + 0.3 * valence, Max0(Min1(f.curiosityLevel + change)),
                      if learned then Min1(f.learningProgress + 0.1) else f.learningProgress,
                      0.7 * f.satisfaction + 0.3 * satisfaction))
  }

  function DaysSince(e: Engagement, now: real): real { (now - e.facts.lastEncounter) / 86400.0 }

  /** Curiosity some days after the last encounter; `factor` stands for 0.95 to their power. */
  function Faded(e: Engagement, now: real, factor: real): Engagement {
    e.(facts := e.facts.(curiosityLevel := Min1(e.facts.curiosityLevel * factor + 0.1 * DaysSince(e, now))))
  }

  function FadedBy(e: Engagement, now: real, decay: real -> real): Engagement {
    Faded(e, now, decay(DaysSince(e, now)))
  }

  /** What an encounter records: the first one as given, with curiosity at 0.7; a later one
      takes valence and satisfaction three tenths of the way to the new ones, learning a tenth
      up if something was learned, and curiosity a tenth up for it or half of that down, by a
      tenth of how far satisfaction is from one half, within [0, 1]. */
  lemma EncounterLaw(topic: Topic, e: Engagement, duration: real, valence: real, learned: bool, satisfaction: real,
                     now: real)
    ensures var f := FirstEncounter(topic, duration, valence, learned, satisfaction, now).facts;
      && f.topic == topic && f.firstEncounter == now && f.lastEncounter == now && f.encounterCount == 1
      && f.totalDuration == duration && f.emotionalValence == valence && f.satisfaction == satisfaction
      && 10.0 * f.curiosityLevel == 7.0 && 10.0 * f.learningProgress == (if learned then 1.0 else 0.0)
      && FirstEncounter(topic, duration, valence, learned, satisfaction, now).related == {}
    ensures var before, n := e.facts, NextEncounter(e, duration, valence, learned, satisfaction, now);
            var f := n.facts;
            var c := before.curiosityLevel + (satisfaction - 0.5) / 10.0 + (if learned then 0.1 else -0.05);
            var l := before.learningProgress + 0.1;
      && f.topic == before.topic && f.firstEncounter == before.firstEncounter && f.lastEncounter == now
      && f.encounterCount == before.encounterCount + 1 && f.totalDuration - before.totalDuration == duration
      && n.related == e.related
      && 10.0 * (f.emotionalValence - before.emotionalValence) == 3.0 * (valence - before.emotionalValence)
      && 10.0 * (f.satisfaction - before.satisfaction) == 3.0 * (satisfaction - before.satisfaction)
      && f.curiosityLevel == (if c <= 0.0 then 0.0 else if c >= 1.0 then 1.0 else c)
      && f.learningProgress == (if !learned then before.learningProgress else if l >= 1.0 then 1.0 else l)
  {
  }

  /** A goal takes the progress, at most 1, and is completed if that reaches its depth or if it
      already was. */
  lemma GoalLaw(g: Goal, progress: real)
    ensures var h, p := Advanced(g, progress), if progress < 1.0 then progress else 1.0;
      && h == g.(progress := p, completed := h.completed)
      && (h.completed <==> g.completed || p >= g.targetDepth)
  {
  }

  /** Learning raises the progress of the one topic, if it is engaged, by a tenth up to 1. */
  lemma LearnedLaw(engagements: map<Topic, Engagement>, topic: Topic)
    ensures var after := LearnedAbout(engagements, topic);
      && after.Keys == engagements.Keys
      && forall t :: t in engagements ==>
           var l := engagements[t].facts.learningProgress + 0.1;
           && (t != topic ==> after[t] == engagements[t])
           && (t == topic ==> after[t] == engagements[t].(facts := engagements[t].facts.(
                 learningProgress := if l < 1.0 then l else 1.0)))
  {
  }

  /** Where the bounded parts of an engagement belong. */
  predicate InRange(e: Engagement) {
    var f := e.facts;
    -1.0 <= f.emotionalValence <= 1.0 && 0.0 <= f.curiosityLevel <= 1.0
    && 0.0 <= f.learningProgress <= 1.0 && 0.0 <= f.satisfaction <= 1.0
  }

  lemma EncounterKeepsRange(e: Engagement, duration: real, valence: real, learned: bool, satisfaction: real, now: real)
    requires -1.0 <= valence <= 1.0 && 0.0 <= satisfaction <= 1.0
    ensures InRange(FirstEncounter(e.facts.topic, duration, valence, learned, satisfaction, now))
    ensures InRange(e) ==> InRange(NextEncounter(e, duration, valence, learned, satisfaction, now))
  {
  }

  /** Fading touches curiosity only and keeps it in [0, 1].  It falls exactly while the recovery
      of a tenth a day is less than what the factor takes, and is full after ten days. */
  lemma FadingLaw(e: Engagement, now: real, factor: real)
    requires InRange(e) && 0.0 <= factor <= 1.0 && e.facts.lastEncounter <= now
    ensures var c, d := e.facts.curiosityLevel, Faded(e, now, factor).facts.curiosityLevel;
      && InRange(Faded(e, now, factor))
      && Faded(e, now, factor) == e.(facts := e.facts.(curiosityLevel := d))
      && (var kept := factor * c + (now - e.facts.lastEncounter) / 864000.0; d == if kept < 1.0 then kept else 1.0)
      && (d < c <==> 0.1 * DaysSince(e, now) < (1.0 - factor) * c)
      && (DaysSince(e, now) >= 10.0 ==> d == 1.0)
  {
    var c := e.facts.curiosityLevel;
    Arith.ProductNonnegative(c, factor);
    Arith.ProductNonnegative(1.0 - factor, c);
    assert (1.0 - factor) * c == c - c * factor;
  }

  function Abs(x: real): real { if x < 0.0 then -x else x }

  /** The salience of an engagement; `recency` stands for e to the power of minus the days
      since its last encounter. */
  function SalienceOf(e: Engagement, recency: real): real {
    var f := e.facts;
    recency * 0.3 + Min1(f.encounterCount as real / 10.0) * 0.2 + ((f.emotionalValence + 1.0) / 2.0) * 0.2
    + f.curiosityLevel * 0.2 + (1.0 - Abs(f.learningProgress - 0.5) * 2.0) * 0.1
  }

  /** Salience weighs recency with three tenths, frequency, feeling and curiosity with two tenths
      each, and nearness of learning to one half with one tenth. */
  lemma SalienceLaw(e: Engagement, recency: real)
    ensures var f := e.facts;
            var frequency := if f.encounterCount < 10 then f.encounterCount as real / 10.0 else 1.0;
            var off := if f.learningProgress >= 0.5 then f.learningProgress - 0.5 else 0.5 - f.learningProgress;
      10.0 * SalienceOf(e, recency) ==
        3.0 * recency + 2.0 * frequency + (f.emotionalValence + 1.0) + 2.0 * f.curiosityLevel + (1.0 - 2.0 * off)
  {
  }

  /** Salience stays in [0, 1], and every ingredient but learning only adds to it: progress
      counts most at one half and is worth nothing at either end. */
  lemma SalienceInRange(e: Engagement, recency: real)
    requires InRange(e) && 0.0 <= recency <= 1.0
    ensures 0.0 <= SalienceOf(e, recency) <= 1.0
    ensures forall x :: recency <= x ==> SalienceOf(e, recency) <= SalienceOf(e, x)
    ensures forall p :: SalienceOf(e.(facts := e.facts.(learningProgress := p)), recency)
                        <= SalienceOf(e.(facts := e.facts.(learningProgress := 0.5)), recency)
  {
  }

  // ---------------------------------------------------------------- the tracker

  class EchoInterest {
    var topicEngagements: map<Topic, Engagement>
    var explorationGoals: seq<Goal>
    var salienceMap: Salience
    var topicClusters: Clusters
    var activeInterests: seq<Topic>

    function Now(): State
      reads this
    {
      State(topicEngagements, explorationGoals, salienceMap, topicClusters, activeInterests)
    }

    /** The active list is current, and the dictionaries are in order. */
    ghost predicate Valid()
      reads this
    {
      && activeInterests == TopFive(salienceMap)
      && DistinctKeys(salienceMap)
      && Disjoint(topicClusters) && NonEmpty(topicClusters)
    }

    constructor ()
      ensures Valid() && Now() == State(map[], [], [], map[], [])
    {
      topicEngagements, explorationGoals, salienceMap := map[], [], [];
      topicClusters, activeInterests := map[], [];
    }

    /** `recency` is the factor of the topic as the salience is computed after the encounter. */
    method RecordTopicEncounter(topic: Topic, duration: real, valence: real, learned: bool, satisfaction: real,
                                now: real, recency: real)
      requires Valid()
      modifies this
      ensures Valid()
      ensures topicEngagements == old(topicEngagements)[topic :=
                if topic in old(topicEngagements)
                then NextEncounter(old(topicEngagements)[topic], duration, valence, learned, satisfaction, now)
                else FirstEncounter(topic, duration, valence, learned, satisfaction, now)]
      ensures salienceMap == Put(old(salienceMap), topic, SalienceOf(topicEngagements[topic], recency))
      ensures explorationGoals == old(explorationGoals) && topicClusters == old(topicClusters)
    {
      hide TopFive, Put, SalienceOf;
      if topic !in topicEngagements {
        var f := Facts(topic, now, now, 1, duration, valence, 0.7, 0.0, satisfaction);
        if learned { f := f.(learningProgress := 0.1); }
        topicEngagements := topicEngagements[topic := Engagement(f, {})];
      } else {
        var f := topicEngagements[topic].facts;
        f := f.(lastEncounter := now, encounterCount := f.encounterCount + 1);
        f := f.(totalDuration := f.totalDuration + duration);
        f := f.(emotionalValence := 0.7 * f.emotionalValence + 0.3 * valence);
        if learned { f := f.(learningProgress := Min1(f.learningProgress + 0.1)); }
        f := f.(satisfaction := 0.7 * f.satisfaction + 0.3 * satisfaction);
        var change := (satisfaction - 0.5) * 0.1 + (if learned then 0.1 else -0.05);
        var curiosity := Min1(f.curiosityLevel + change);
        f := f.(curiosityLevel := Max0(curiosity));
        topicEngagements := topicEngagements[topic := topicEngagements[topic].(facts := f)];
      }
      UpdateSalience(topic, recency);
      UpdateActiveInterests();
    }

    method UpdateSalience(topic: Topic, recency: real)
      requires DistinctKeys(salienceMap)
      modifies this`salienceMap
      ensures DistinctKeys(salienceMap)
      ensures salienceMap == if topic in topicEngagements
                             then Put(old(salienceMap), topic, SalienceOf(topicEngagements[topic], recency))
                             else old(salienceMap)
    {
      if topic !in topicEngagements { return; }
      var f := topicEngagements[topic].facts;
      var frequency := Min1(f.encounterCount as real / 10.0);
      var emotionalFactor := (f.emotionalValence + 1.0) / 2.0;
      var learningPotential := 1.0 - Abs(f.learningProgress - 0.5) * 2.0;
      var salience := recency * 0.3 + frequency * 0.2 + emotionalFactor * 0.2 + f.curiosityLevel * 0.2
                      + learningPotential * 0.1;
      PutKeepsDistinct(salienceMap, topic, salience);
      salienceMap := Put(salienceMap, topic, salience);
    }

    method UpdateActiveInterests()
      modifies this`activeInterests
      ensures activeInterests == TopFive(salienceMap)
    {
      var sorted := Sort(salienceMap, MoreSalient);
      var five := if |sorted| <= 5 then sorted else sorted[..5];
      activeInterests := [];
      for i := 0 to |five|
        invariant activeInterests == Above(five[..i])
      {
        assert five[..i + 1][..i] == five[..i];
        if five[i].1 > 0.3 { activeInterests := activeInterests + [five[i].0]; }
      }
      assert five[..|five|] == five;
    }

    method AddTopicRelation(topic1: Topic, topic2: Topic)
      requires Valid()
      modifies this
      ensures Valid()
      ensures topicClusters == Related(old(topicClusters), topic1, topic2)
      ensures topicEngagements.Keys == old(topicEngagements).Keys
      ensures forall t :: t in topicEngagements ==>
                topicEngagements[t].facts == old(topicEngagements)[t].facts
                && topicEngagements[t].related == old(topicEngagements)[t].related
                   + (if t == topic1 then {topic2} else {}) + (if t == topic2 then {topic1} else {})
      ensures salienceMap == old(salienceMap) && explorationGoals == old(explorationGoals)
    {
      hide TopFive, Related;
      LinkEngagements(topic1, topic2);
      StepKeepsDisjoint(topicClusters, topic1, topic2);
      UpdateClusters(topic1, topic2);
    }

    method LinkEngagements(topic1: Topic, topic2: Topic)
      modifies this`topicEngagements
      ensures topicEngagements.Keys == old(topicEngagements).Keys
      ensures forall t :: t in topicEngagements ==>
                topicEngagements[t].facts == old(topicEngagements)[t].facts
                && topicEngagements[t].related == old(topicEngagements)[t].related
                   + (if t == topic1 then {topic2} else {}) + (if t == topic2 then {topic1} else {})
    {
      if topic1 in topicEngagements {
        var e := topicEngagements[topic1];
        topicEngagements := topicEngagements[topic1 := e.(related := e.related + {topic2})];
      }
      if topic2 in topicEngagements {
        var e := topicEngagements[topic2];
        topicEngagements := topicEngagements[topic2 := e.(related := e.related + {topic1})];
      }
    }

    method UpdateClusters(topic1: Topic, topic2: Topic)
      requires Disjoint(topicClusters)
      modifies this`topicClusters
      ensures topicClusters == Related(old(topicClusters), topic1, topic2)
    {
      var cluster1, cluster2 := FindClusters(topic1, topic2);
      if cluster1.None? && cluster2.None? {
        topicClusters := topicClusters[|topicClusters| := {topic1, topic2}];
      } else if cluster1.Some? && cluster2.None? {
        topicClusters := topicClusters[cluster1.value := topicClusters[cluster1.value] + {topic2}];
      } else if cluster1.None? && cluster2.Some? {
        topicClusters := topicClusters[cluster2.value := topicClusters[cluster2.value] + {topic1}];
      } else if cluster1 != cluster2 {
        topicClusters := topicClusters[cluster1.value := topicClusters[cluster1.value] + topicClusters[cluster2.value]];
        topicClusters := topicClusters - {cluster2.value};
      }
    }

    /** The search over all clusters: the last one seen that contains a topic is kept. */
    method FindClusters(topic1: Topic, topic2: Topic) returns (cluster1: Option<nat>, cluster2: Option<nat>)
      requires Disjoint(topicClusters)
      ensures cluster1 == ClusterOf(topicClusters, topic1) && cluster2 == ClusterOf(topicClusters, topic2)
    {
      cluster1, cluster2 := None, None;
      var rest := topicClusters.Keys;
      while rest != {}
        invariant rest <= topicClusters.Keys
        invariant cluster1.Some? ==> cluster1.value in topicClusters && topic1 in topicClusters[cluster1.value]
        invariant cluster2.Some? ==> cluster2.value in topicClusters && topic2 in topicClusters[cluster2.value]
        invariant cluster1.None? ==> forall id :: id in topicClusters && id !in rest ==> topic1 !in topicClusters[id]
        invariant cluster2.None? ==> forall id :: id in topicClusters && id !in rest ==> topic2 !in topicClusters[id]
      {
        var id :| id in rest;
        if topic1 in topicClusters[id] { cluster1 := Some(id); }
        if topic2 in topicClusters[id] { cluster2 := Some(id); }
        rest := rest - {id};
      }
    }

    /** `recency` gives the factor of each topic as the loop reaches it. */
    method DecayInterests(now: real, decay: real -> real, recency: Topic -> real)
      requires Valid()
      modifies this
      ensures Valid()
      ensures topicEngagements == map t | t in old(topicEngagements) :: FadedBy(old(topicEngagements)[t], now, decay)
      ensures forall e :: e in salienceMap <==>
                if e.0 in topicEngagements then e.1 == SalienceOf(topicEngagements[e.0], recency(e.0))
                else e in old(salienceMap)
      ensures explorationGoals == old(explorationGoals) && topicClusters == old(topicClusters)
    {
      hide TopFive, Put, Faded, DaysSince, Disjoint, NonEmpty, SalienceOf;
      var rest := topicEngagements.Keys;
      ghost var before := topicEngagements;
      while rest != {}
        invariant rest <= topicEngagements.Keys == before.Keys
        invariant forall t :: t in before ==>
          topicEngagements[t] == if t in rest then before[t] else FadedBy(before[t], now, decay)
        invariant DistinctKeys(salienceMap)
        invariant forall e :: e in salienceMap <==>
          if e.0 in before && e.0 !in rest then e.1 == SalienceOf(topicEngagements[e.0], recency(e.0))
          else e in old(salienceMap)
        invariant explorationGoals == old(explorationGoals) && topicClusters == old(topicClusters)
      {
        var t :| t in rest;
        FadeEngagement(t, now, decay(DaysSince(topicEngagements[t], now)));
        PutKeepsDistinct(salienceMap, t, SalienceOf(topicEngagements[t], recency(t)));
        UpdateSalience(t, recency(t));
        rest := rest - {t};
      }
      UpdateActiveInterests();
    }

    method FadeEngagement(t: Topic, now: real, factor: real)
      requires t in topicEngagements
      modifies this`topicEngagements
      ensures topicEngagements == old(topicEngagements)[t := Faded(old(topicEngagements)[t], now, factor)]
    {
      var e := topicEngagements[t];
      var timeSinceLast := now - e.facts.lastEncounter;
      var daysSince := timeSinceLast / 86400.0;
      var curiosity := e.facts.curiosityLevel * factor;
      curiosity := Min1(curiosity + 0.1 * daysSince);
      assert daysSince == DaysSince(e, now);
      assert curiosity == Faded(e, now, factor).facts.curiosityLevel;
      assert e.(facts := e.facts.(curiosityLevel := curiosity)) == Faded(e, now, factor);
      topicEngagements := topicEngagements[t := e.(facts := e.facts.(curiosityLevel := curiosity))];
    }

    /** The first goal with the id is advanced; saliences are left as they are. */
    method UpdateGoalProgress(goalId: string, progress: real, learned: bool)
      requires Valid()
      modifies this
      ensures Valid()
      ensures salienceMap == old(salienceMap) && topicClusters == old(topicClusters)
      ensures var k, goals := GoalIndex(old(explorationGoals), goalId), old(explorationGoals);
        && explorationGoals == (if k < |goals| then goals[k := Advanced(goals[k], progress)] else goals)
        && topicEngagements == (if k < |goals| && learned then LearnedAbout(old(topicEngagements), goals[k].topic)
                                else old(topicEngagements))
    {
      hide TopFive;
      for i := 0 to |explorationGoals|
        invariant explorationGoals == old(explorationGoals) && topicEngagements == old(topicEngagements)
        invariant salienceMap == old(salienceMap) && topicClusters == old(topicClusters) && Valid()
        invariant forall j :: 0 <= j < i ==> explorationGoals[j].id != goalId
      {
        var goal := explorationGoals[i];
        if goal.id == goalId {
          assert GoalIndex(old(explorationGoals), goalId) == i;
          goal := goal.(progress := Min1(progress));
          if goal.progress >= goal.targetDepth { goal := goal.(completed := true); }
          explorationGoals := explorationGoals[i := goal];
          if learned && goal.topic in topicEngagements {
            var e := topicEngagements[goal.topic];
            var f := e.facts.(learningProgress := Min1(e.facts.learningProgress + 0.1));
            topicEngagements := topicEngagements[goal.topic := e.(facts := f)];
          }
          return;
        }
      }
      assert GoalIndex(explorationGoals, goalId) == |explorationGoals|;
    }

    method Save() returns (d: Saved)
      ensures Records(d, Now())
    {
      var engagements: map<Topic, SavedEngagement> := map[];
      var rest := topicEngagements.Keys;
      while rest != {}
        invariant rest <= topicEngagements.Keys && engagements.Keys == topicEngagements.Keys - rest
        invariant forall t :: t in engagements ==>
          engagements[t].facts == topicEngagements[t].facts
          && AsSet(engagements[t].related) == topicEngagements[t].related
      {
        var t :| t in rest;
        var related := ListOf(topicEngagements[t].related);
        engagements := engagements[t := SavedEngagement(topicEngagements[t].facts, related)];
        rest := rest - {t};
      }
      var clusters: map<nat, seq<Topic>> := map[];
      var ids := topicClusters.Keys;
      while ids != {}
        invariant ids <= topicClusters.Keys && clusters.Keys == topicClusters.Keys - ids
        invariant forall id :: id in clusters ==> AsSet(clusters[id]) == topicClusters[id]
      {
        var id :| id in ids;
        var members := ListOf(topicClusters[id]);
        clusters := clusters[id := members];
        ids := ids - {id};
      }
      d := Saved(engagements, explorationGoals, salienceMap, clusters);
    }

    /** A fresh tracker from a saved record; only the active interests are worked out anew. */
    constructor Load(d: Saved)
      ensures Now() == Loaded(d)
      ensures Valid() <==> DistinctKeys(d.salience) && Disjoint(Loaded(d).clusters) && NonEmpty(Loaded(d).clusters)
    {
      topicEngagements := map t | t in d.engagements ::
        Engagement(d.engagements[t].facts, AsSet(d.engagements[t].related));
      explorationGoals, salienceMap := d.goals, d.salience;
      topicClusters := map id | id in d.clusters :: AsSet(d.clusters[id]);
      activeInterests := [];
      new;
      UpdateActiveInterests();
    }
  }

  /** Saving a tracker and loading the record gives a tracker in the same state, active
      interests included. */
  method Reloaded(tracker: EchoInterest) returns (copy: EchoInterest)
    requires tracker.Valid()
    ensures fresh(copy) && copy.Valid() && copy.Now() == tracker.Now()
  {
    var d := tracker.Save();
    SaveLoadRoundTrip(d, tracker.Now());
    copy := new EchoInterest.Load(d);
  }

  /** Position of the first goal with an id; the number of goals if there is none. */
  function GoalIndex(goals: seq<Goal>, id: string): (k: nat)
    ensures k <= |goals| && (k < |goals| ==> goals[k].id == id)
    ensures forall j :: 0 <= j < k ==> goals[j].id != id
  {
    if goals == [] then 0 else if goals[0].id == id then 0 else 1 + GoalIndex(goals[1..], id)
  }

  function LearnedAbout(engagements: map<Topic, Engagement>, topic: Topic): map<Topic, Engagement> {
    if topic !in engagements then engagements else
      var f := engagements[topic].facts;
      engagements[topic := engagements[topic].(facts := f.(learningProgress := Min1(f.learningProgress + 0.1)))]
  }

  function Advanced(g: Goal, progress: real): Goal {
    var h := g.(progress := Min1(progress));
    if h.progress >= h.targetDepth then h.(completed := true) else h
  }

  /** The elements of a set, in whatever order it is walked. */
  method ListOf(s: set<Topic>) returns (l: seq<Topic>)
    ensures AsSet(l) == s && |l| == |s|
  {
    l := [];
    var rest := s;
    while rest != {}
      invariant rest <= s && AsSet(l) == s - rest && |l| + |rest| == |s|
    {
      var t :| t in rest;
      assert AsSet(l + [t]) == AsSet(l) + {t};
      l := l + [t];
      rest := rest - {t};
    }
  }
}
