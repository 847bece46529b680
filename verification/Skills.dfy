/** Skill practice: proficiency rises with diminishing returns, prerequisites gate practice,
    and a greedy scheduler always practises the weakest skill that is ready. */
module Skills {
  import opened Basics
  import opened Sorting
  import opened Sums
  import Arith

  // ---------------------------------------------------------------- the registry, on values

  datatype Registry = Registry(level: map<string, real>, prerequisites: map<string, seq<string>>) {
    predicate Wf() { level.Keys == prerequisites.Keys }
  }

  const IMPROVEMENT := 0.02
  const MAX_PROFICIENCY := 0.9

  predicate Met(r: Registry, p: string) { p in r.level && r.level[p] >= 0.5 }

  /** Every prerequisite is registered and at least half mastered. */
  predicate Ready(r: Registry, id: string)
    requires r.Wf() && id in r.level
  {
    forall k :: 0 <= k < |r.prerequisites[id]| ==> Met(r, r.prerequisites[id][k])
  }

  predicate Practicable(r: Registry, id: string, low: real, high: real)
    requires r.Wf()
  {
    id in r.level && low <= r.level[id] <= high && Ready(r, id)
  }

  predicate Offered(r: Registry, id: string)
    requires r.Wf()
  {
    Practicable(r, id, 0.0, MAX_PROFICIENCY)
  }

  function Improved(level: real, improvement: real): real {
    var raised := level + improvement * (1.0 - level);
    if raised < 1.0 then raised else 1.0
  }

  function Practised(r: Registry, id: string, improvement: real): Registry
    requires id in r.level
  {
    r.(level := r.level[id := Improved(r.level[id], improvement)])
  }

  /** What the scheduler may practise: an offered skill none offered is weaker than. */
  ghost predicate Chosen(r: Registry, id: string)
    requires r.Wf()
  {
    Offered(r, id) && forall j :: Offered(r, j) ==> r.level[id] <= r.level[j]
  }

  ghost predicate Quiescent(r: Registry)
    requires r.Wf()
  {
    forall id :: !Offered(r, id)
  }

  // ---------------------------------------------------------------- runs of the scheduler

  ghost predicate IsRun(r: Registry, ids: seq<string>)
    requires r.Wf()
    decreases |ids|
  {
    ids != [] ==> Chosen(r, ids[0]) && IsRun(Practised(r, ids[0], IMPROVEMENT), ids[1..])
  }

  function After(r: Registry, ids: seq<string>): (end: Registry)
    requires r.Wf() && forall id :: id in ids ==> id in r.level
    ensures end.Wf() && end.prerequisites == r.prerequisites
    decreases |ids|
  {
    if ids == [] then r else
      assert forall id :: id in ids[1..] ==> id in ids;
      After(Practised(r, ids[0], IMPROVEMENT), ids[1..])
  }

  /** Practices that one skill can still take: each is worth at least 0.002. */
  function Left(level: real): nat {
    if 0.0 <= level <= 0.9 then ((0.9 - level) / 0.002).Floor + 1 else 0
  }

  function LeftMap(r: Registry): map<string, nat> { map id | id in r.level :: Left(r.level[id]) }

  ghost function Work(r: Registry): nat { SumOf(LeftMap(r)) }

  /** A practised skill at or below 0.9 gains at least 0.002, stays below 1 and uses up one
      of the practices it had left. */
  lemma PracticeGains(level: real)
    requires 0.0 <= level <= 0.9
    ensures level + 0.002 <= Improved(level, IMPROVEMENT) < 1.0
    ensures Left(Improved(level, IMPROVEMENT)) < Left(level) <= 451
  {
    var up := Improved(level, IMPROVEMENT);
    assert up == level + 0.02 * (1.0 - level);
    if up <= 0.9 {
      assert (0.9 - up) / 0.002 <= (0.9 - level) / 0.002 - 1.0;
    }
  }

  lemma PracticeUsesWork(r: Registry, id: string)
    requires r.Wf() && Offered(r, id)
    ensures Work(Practised(r, id, IMPROVEMENT)) < Work(r)
  {
    PracticeGains(r.level[id]);
    var r' := Practised(r, id, IMPROVEMENT);
    assert LeftMap(r') == LeftMap(r)[id := Left(r'.level[id])];
    SumChange(LeftMap(r), id, Left(r'.level[id]));
  }

  lemma WorkIsBounded(r: Registry)
    ensures Work(r) <= |r.level| * 451
  {
    forall id | id in LeftMap(r) ensures LeftMap(r)[id] <= 451 {
      if 0.0 <= r.level[id] <= 0.9 { PracticeGains(r.level[id]); }
    }
    SumAtMost(LeftMap(r), 451);
    assert Arith.Times(|LeftMap(r)|, 451) == |LeftMap(r)| * 451;
    assert LeftMap(r).Keys == r.level.Keys;
    assert |LeftMap(r)| == |LeftMap(r).Keys| && |r.level| == |r.level.Keys|;
  }

  function Power(x: real, k: nat): real { if k == 0 then 1.0 else x * Power(x, k - 1) }

  /** Practice is of diminishing returns: each time a fiftieth of what is missing to 1 is gained,
      so k practices of a skill leave 0.98 to the power of k of it. */
  lemma {:induction false} GapShrinks(r: Registry, ids: seq<string>, id: string)
    requires r.Wf() && (forall j :: j in ids ==> j in r.level) && id in r.level && r.level[id] <= 1.0
    ensures id in After(r, ids).level
    ensures 1.0 - After(r, ids).level[id] == Power(0.98, multiset(ids)[id]) * (1.0 - r.level[id])
    decreases |ids|
  {
    hide Improved, Power;
    NoPower();
    if ids != [] {
      var first, rest := ids[0], ids[1..];
      CountFirst(ids, id);
      assert forall j :: j in rest ==> j in ids;
      GapStep(r.level[id], IMPROVEMENT);
      GapShrinks(Practised(r, first, IMPROVEMENT), rest, id);
      PowerStep(multiset(rest)[id], 1.0 - r.level[id]);
    }
  }

  lemma NoPower()
    ensures Power(0.98, 0) == 1.0
  {
  }

  lemma PowerStep(k: nat, gap: real)
    ensures Power(0.98, k) * (0.98 * gap) == Power(0.98, k + 1) * gap
  {
    Arith.Regrouped(Power(0.98, k), 0.98, gap);
  }

  lemma CountFirst(ids: seq<string>, id: string)
    requires ids != []
    ensures multiset(ids)[id] == multiset(ids[1..])[id] + (if ids[0] == id then 1 else 0)
  {
    assert ids == [ids[0]] + ids[1..];
  }

  lemma GapStep(level: real, improvement: real)
    requires level <= 1.0 && improvement <= 1.0
    ensures 1.0 - Improved(level, improvement) == (1.0 - improvement) * (1.0 - level)
  {
    var gap := 1.0 - level;
    Arith.ProductNonnegative(1.0 - improvement, gap);
    assert (1.0 - improvement) * gap == gap - improvement * gap;
  }

  ghost predicate Within(r: Registry) { forall id :: id in r.level ==> 0.0 <= r.level[id] < 1.0 }

  /** Every run is short, only raises levels, and keeps them in [0, 1). */
  lemma {:induction false} RunsAreBounded(r: Registry, ids: seq<string>)
    requires r.Wf() && IsRun(r, ids)
    ensures forall id :: id in ids ==> id in r.level
    ensures |ids| + Work(After(r, ids)) <= Work(r) <= |r.level| * 451
    ensures forall id :: id in r.level ==> id in After(r, ids).level && r.level[id] <= After(r, ids).level[id]
    ensures Within(r) ==> Within(After(r, ids))
    decreases |ids|
  {
    WorkIsBounded(r);
    if ids != [] {
      var r' := Practised(r, ids[0], IMPROVEMENT);
      PracticeGains(r.level[ids[0]]);
      PracticeUsesWork(r, ids[0]);
      RunsAreBounded(r', ids[1..]);
      assert forall id :: id in ids <==> id == ids[0] || id in ids[1..];
      assert r'.level.Keys == r.level.Keys;
    }
  }

  // ---------------------------------------------------------------- what quiescence means

  ghost predicate Mastered(r: Registry) { forall id :: id in r.level ==> r.level[id] > 0.9 }

  /** The k-th prerequisite is unregistered, or in s and not half mastered. */
  predicate Waits(r: Registry, s: set<string>, id: string, k: nat)
    requires r.Wf() && id in r.level
  {
    k < |r.prerequisites[id]| &&
    var p := r.prerequisites[id][k];
    p !in r.level || (p in s && r.level[p] < 0.5)
  }

  /** Unmastered skills that are each below zero, where they are never offered, or wait for
      one of themselves or for a skill that does not exist. */
  ghost predicate Blocked(r: Registry, s: set<string>)
    requires r.Wf()
  {
    forall id :: id in s ==>
      id in r.level && r.level[id] <= 0.9 && (r.level[id] < 0.0 || exists k: nat :: Waits(r, s, id, k))
  }

  ghost predicate Unblocked(r: Registry)
    requires r.Wf()
  {
    forall s :: Blocked(r, s) ==> s == {}
  }

  ghost function Unmastered(r: Registry): set<string> { set id | id in r.level && r.level[id] <= 0.9 }

  lemma NotOffered(r: Registry, s: set<string>, id: string)
    requires r.Wf() && Blocked(r, s) && id in s
    ensures !Offered(r, id)
  {
    if 0.0 <= r.level[id] {
      var k: nat :| Waits(r, s, id, k);
      assert !Met(r, r.prerequisites[id][k]);
    }
  }

  /** No run ever practises a blocked skill. */
  lemma {:induction false} BlockedIsForever(r: Registry, ids: seq<string>, s: set<string>)
    requires r.Wf() && IsRun(r, ids) && Blocked(r, s)
    ensures forall id :: id in ids ==> id !in s && id in r.level
    ensures Blocked(After(r, ids), s)
    decreases |ids|
  {
    RunsAreBounded(r, ids);
    if ids != [] {
      var first := ids[0];
      if first in s { NotOffered(r, s, first); }
      var r' := Practised(r, first, IMPROVEMENT);
      forall id | id in s && 0.0 <= r.level[id] ensures exists k: nat :: Waits(r', s, id, k) {
        var k: nat :| Waits(r, s, id, k);
        assert Waits(r', s, id, k);
      }
      BlockedIsForever(r', ids[1..], s);
      assert forall id :: id in ids <==> id == first || id in ids[1..];
    }
  }

  /** When nothing is offered, the unmastered skills block one another. */
  lemma QuiescentBlocks(r: Registry)
    requires r.Wf() && Quiescent(r)
    ensures Blocked(r, Unmastered(r))
  {
    var s := Unmastered(r);
    forall id | id in s && 0.0 <= r.level[id] ensures exists k: nat :: Waits(r, s, id, k) {
      assert !Offered(r, id);
      var k :| 0 <= k < |r.prerequisites[id]| && !Met(r, r.prerequisites[id][k]);
      assert Waits(r, s, id, k);
    }
  }

  /** Nothing is left to practise and nothing is blocked exactly when all is mastered. */
  lemma QuiescenceFinishesTheJob(r: Registry)
    requires r.Wf()
    ensures Mastered(r) <==> Quiescent(r) && Unblocked(r)
  {
    if Quiescent(r) && Unblocked(r) {
      QuiescentBlocks(r);
      forall id | id in r.level ensures r.level[id] > 0.9 { assert id !in Unmastered(r); }
    }
    if Mastered(r) {
      forall s | Blocked(r, s) ensures s == {} {
        assert forall id :: id !in s;
      }
    }
  }

  /** A finished run masters every skill exactly when no skill is blocked at its start, and
      from levels in [0, 1) every level then stays below 1. */
  lemma FinishedRunMasters(r: Registry, ids: seq<string>)
    requires r.Wf() && IsRun(r, ids)
    ensures forall id :: id in ids ==> id in r.level
    ensures Quiescent(After(r, ids)) ==> (Mastered(After(r, ids)) <==> Unblocked(r))
    ensures Within(r) ==> Within(After(r, ids))
  {
    RunsAreBounded(r, ids);
    var end := After(r, ids);
    AfterKeepsKeys(r, ids);
    if Quiescent(end) {
      QuiescenceFinishesTheJob(end);
      forall s | Blocked(r, s) ensures Blocked(end, s) { BlockedIsForever(r, ids, s); }
      QuiescentBlocks(end);
      if Unblocked(r) { BlockedBefore(r, ids, Unmastered(end)); }
      assert Unblocked(r) ==> Unmastered(end) == {};
      assert forall id :: id in end.level && end.level[id] <= 0.9 ==> id in Unmastered(end);
    }
  }

  /** What is blocked after a run was blocked before it. */
  lemma BlockedBefore(r: Registry, ids: seq<string>, s: set<string>)
    requires r.Wf() && IsRun(r, ids) && (forall id :: id in ids ==> id in r.level) && Blocked(After(r, ids), s)
    ensures Blocked(r, s)
  {
    RunsAreBounded(r, ids);
    AfterKeepsKeys(r, ids);
    var end := After(r, ids);
    forall id | id in s && 0.0 <= r.level[id] ensures exists k: nat :: Waits(r, s, id, k) {
      var k: nat :| Waits(end, s, id, k);
      assert Waits(r, s, id, k);
    }
  }

  lemma {:induction false} AfterKeepsKeys(r: Registry, ids: seq<string>)
    requires r.Wf() && forall id :: id in ids ==> id in r.level
    ensures After(r, ids).level.Keys == r.level.Keys
    decreases |ids|
  {
    if ids != [] {
      assert forall id :: id in ids[1..] ==> id in ids;
      AfterKeepsKeys(Practised(r, ids[0], IMPROVEMENT), ids[1..]);
    }
  }

  /** One skill at 0.7 that needs a missing one is blocked, so it is never practised. */
  lemma MissingPrerequisiteBlocks(id: string, missing: string)
    requires id != missing
    ensures var r := Registry(map[id := 0.7], map[id := [missing]]);
      Blocked(r, {id}) && !Unblocked(r) && Quiescent(r) && !Mastered(r)
  {
    var r := Registry(map[id := 0.7], map[id := [missing]]);
    assert Waits(r, {id}, id, 0);
    assert id in {id};
    assert Blocked(r, {id});
    NotOffered(r, {id}, id);
    assert r.level[id] <= 0.9;
  }

  // -- when prerequisites are registered and acyclic

  ghost predicate Registered(r: Registry)
    requires r.Wf()
  {
    forall id, k :: id in r.level && 0 <= k < |r.prerequisites[id]| ==> r.prerequisites[id][k] in r.level
  }

  /** Every prerequisite ranks below the skill that needs it. */
  ghost predicate Ranks(r: Registry, rank: map<string, nat>)
    requires r.Wf()
  {
    && rank.Keys == r.level.Keys
    && forall id, k :: id in r.level && 0 <= k < |r.prerequisites[id]| && r.prerequisites[id][k] in r.level ==>
         rank[r.prerequisites[id][k]] < rank[id]
  }

  ghost predicate Acyclic(r: Registry)
    requires r.Wf()
  {
    exists rank :: Ranks(r, rank)
  }

  lemma {:induction false} NotBlockedByRank(r: Registry, rank: map<string, nat>, s: set<string>, id: string)
    requires r.Wf() && Registered(r) && Ranks(r, rank) && Blocked(r, s)
    requires (forall j :: j in r.level ==> 0.0 <= r.level[j]) && id in r.level
    ensures id !in s
    decreases rank[id]
  {
    if id in s {
      var k: nat :| Waits(r, s, id, k);
      var p := r.prerequisites[id][k];
      assert p in r.level;
      NotBlockedByRank(r, rank, s, p);
    }
  }

  /** Registered and acyclic prerequisites block nothing, so then every finished run masters
      every skill; the converse fails, since a prerequisite at 0.5 holds nothing up. */
  lemma AcyclicIsUnblocked(r: Registry)
    requires r.Wf() && Registered(r) && Acyclic(r) && forall id :: id in r.level ==> 0.0 <= r.level[id]
    ensures Unblocked(r)
  {
    var rank :| Ranks(r, rank);
    forall s | Blocked(r, s) ensures s == {} {
      forall id | id in r.level ensures id !in s { NotBlockedByRank(r, rank, s, id); }
      assert forall id :: id !in s;
    }
  }

  // ---------------------------------------------------------------- the registry and its scheduler

  class Skill {
    const id: string
    const category: string
    const prerequisites: seq<string>
    var proficiency: real
    var practiceCount: nat
    var lastPracticed: Option<real>

    constructor (id: string, category: string, proficiency: real, prerequisites: seq<string>)
      ensures this.id == id && this.category == category && this.proficiency == proficiency
      ensures this.prerequisites == prerequisites && practiceCount == 0 && lastPracticed == None
    {
      this.id, this.category, this.proficiency, this.prerequisites := id, category, proficiency, prerequisites;
      practiceCount, lastPracticed := 0, None;
    }
  }

  const CATEGORIES: set<string> := {"cognitive", "social", "technical", "creative", "meta"}

  class SkillRegistry {
    var skills: map<string, Skill>
    var skillCategories: map<string, seq<string>>

    ghost predicate Valid()
      reads this
    {
      forall id :: id in skills ==> skills[id].id == id
    }

    function View(): (r: Registry)
      reads this, skills.Values
      ensures r.Wf()
    {
      Registry(map id | id in skills :: skills[id].proficiency, map id | id in skills :: skills[id].prerequisites)
    }

    constructor ()
      ensures Valid() && skills == map[]
      ensures skillCategories.Keys == CATEGORIES && forall c :: c in CATEGORIES ==> skillCategories[c] == []
    {
      skills, skillCategories := map[], map c | c in CATEGORIES :: [];
    }

    /** A skill under a known id replaces the one there, and is listed again under its
        category; a skill of an unknown category is listed nowhere. */
    method AddSkill(skill: Skill)
      requires Valid()
      modifies this
      ensures Valid() && skills == old(skills)[skill.id := skill]
      ensures skillCategories.Keys == old(skillCategories).Keys
      ensures forall c :: c in skillCategories ==>
                skillCategories[c] == old(skillCategories)[c] + (if c == skill.category then [skill.id] else [])
    {
      skills := skills[skill.id := skill];
      if skill.category in skillCategories {
        skillCategories := skillCategories[skill.category := skillCategories[skill.category] + [skill.id]];
      }
    }

    /** Refuses unknown skills and skills that are not ready; otherwise raises one level. */
    method PracticeSkill(skillId: string, improvement: real, now: real) returns (success: bool)
      requires Valid()
      modifies skills.Values
      ensures Valid() && skills == old(skills)
      ensures success <==> skillId in skills && Ready(old(View()), skillId)
      ensures success <==> skillId in skills && forall k :: 0 <= k < |skills[skillId].prerequisites| ==>
                var p := skills[skillId].prerequisites[k];
                p in skills && old(skills[p].proficiency) >= 0.5
      ensures success && improvement <= 1.0 && old(skills[skillId].proficiency) <= 1.0 ==>
                1.0 - skills[skillId].proficiency == (1.0 - improvement) * (1.0 - old(skills[skillId].proficiency))
      ensures forall id :: id in skills && (id != skillId || !success) ==>
                skills[id].proficiency == old(skills[id].proficiency)
      ensures View() == if success then Practised(old(View()), skillId, improvement) else old(View())
      ensures forall id :: id in skills ==>
                var practised := success && id == skillId;
                && skills[id].practiceCount == old(skills[id].practiceCount) + (if practised then 1 else 0)
                && skills[id].lastPracticed == if practised then Some(now) else old(skills[id].lastPracticed)
    {
      if skillId !in skills { return false; }
      var skill := skills[skillId];
      for k := 0 to |skill.prerequisites|
        invariant forall j :: 0 <= j < k ==> Met(View(), skill.prerequisites[j])
      {
        var prereqId := skill.prerequisites[k];
        if prereqId !in skills || skills[prereqId].proficiency < 0.5 {
          assert !Met(View(), View().prerequisites[skillId][k]);
          return false;
        }
      }
      var current := skill.proficiency;
      if improvement <= 1.0 && current <= 1.0 { GapStep(current, improvement); }
      var maxImprovement := improvement * (1.0 - current);
      skill.proficiency := if current + maxImprovement < 1.0 then current + maxImprovement else 1.0;
      skill.practiceCount := skill.practiceCount + 1;
      skill.lastPracticed := Some(now);
      assert forall id :: id in skills && id != skillId ==> skills[id] != skill;
      assert forall id :: id in skills ==>
        skills[id].proficiency ==
        if id == skillId then Improved(current, improvement) else old(skills[id].proficiency);
      assert View().level == Practised(old(View()), skillId, improvement).level;
      return true;
    }

    /** The ids and levels of the skills to practise, in whatever order they are walked. */
    method GetPracticableSkills(low: real, high: real) returns (practicable: seq<(string, real)>)
      ensures forall e :: e in practicable <==> Practicable(View(), e.0, low, high) && e.1 == View().level[e.0]
      ensures forall e :: e in practicable <==>
                && e.0 in skills && e.1 == skills[e.0].proficiency && low <= e.1 <= high
                && forall k :: 0 <= k < |skills[e.0].prerequisites| ==>
                     var p := skills[e.0].prerequisites[k];
                     p in skills && skills[p].proficiency >= 0.5
    {
      practicable := [];
      var rest := skills.Keys;
      while rest != {}
        invariant rest <= skills.Keys
        invariant forall e :: e in practicable <==>
          e.0 !in rest && Practicable(View(), e.0, low, high) && e.1 == View().level[e.0]
      {
        var id :| id in rest;
        var skill := skills[id];
        if low <= skill.proficiency <= high {
          var met := PrerequisitesMet(id);
          if met { practicable := practicable + [(id, skill.proficiency)]; }
        }
        rest := rest - {id};
      }
    }

    method PrerequisitesMet(id: string) returns (met: bool)
      requires id in skills
      ensures met == Ready(View(), id)
      ensures met <==> forall k :: 0 <= k < |skills[id].prerequisites| ==>
                var p := skills[id].prerequisites[k];
                p in skills && skills[p].proficiency >= 0.5
    {
      var prerequisites := skills[id].prerequisites;
      for k := 0 to |prerequisites|
        invariant forall j :: 0 <= j < k ==> Met(View(), prerequisites[j])
      {
        if prerequisites[k] !in skills || skills[prerequisites[k]].proficiency < 0.5 {
          assert !Met(View(), View().prerequisites[id][k]);
          return false;
        }
      }
      return true;
    }
  }

  predicate WeakerFirst(x: (string, real), y: (string, real)) { x.1 <= y.1 }

  class SkillPracticeScheduler {
    const registry: SkillRegistry

    constructor (registry: SkillRegistry)
      ensures this.registry == registry
    {
      this.registry := registry;
    }

    /** Practises one of the weakest offered skills; it is never refused. */
    method SchedulePractice(now: real) returns (practised: Option<string>)
      requires registry.Valid()
      modifies registry.skills.Values
      ensures registry.Valid() && registry.skills == old(registry.skills)
      ensures practised.None? <==> Quiescent(old(registry.View()))
      ensures practised.None? ==> registry.View() == old(registry.View())
      ensures practised.Some? ==> Chosen(old(registry.View()), practised.value)
                                  && registry.View() == Practised(old(registry.View()), practised.value, IMPROVEMENT)
      ensures practised.Some? ==>
                var id := practised.value;
                && id in registry.skills && 0.0 <= old(registry.skills[id].proficiency) <= 0.9
                && 1.0 - registry.skills[id].proficiency == 0.98 * (1.0 - old(registry.skills[id].proficiency))
                && forall j :: Offered(old(registry.View()), j) ==>
                     j in registry.skills
                     && old(registry.skills[id].proficiency) <= old(registry.skills[j].proficiency)
    {
      var skills := registry.GetPracticableSkills(0.0, MAX_PROFICIENCY);
      if skills == [] {
        ghost var r := registry.View();
        forall id | id in r.level ensures !Offered(r, id) { assert (id, r.level[id]) !in skills; }
        return None;
      }
      var id := Weakest(registry.View(), skills);
      var success := registry.PracticeSkill(id, IMPROVEMENT, now);
      assert success;
      return Some(id);
    }

    /** The head of the list once it is sorted by level. */
    static method Weakest(ghost r: Registry, skills: seq<(string, real)>) returns (id: string)
      requires r.Wf() && skills != []
      requires forall e :: e in skills <==> Offered(r, e.0) && e.1 == r.level[e.0]
      ensures Chosen(r, id)
    {
      var sorted := Sort(skills, WeakerFirst);
      SortSorts(skills, WeakerFirst);
      SortKeeps(skills, WeakerFirst);
      assert sorted[0] in skills;
      id := sorted[0].0;
      forall j | Offered(r, j) ensures r.level[id] <= r.level[j] {
        assert (j, r.level[j]) in sorted;
        var k :| 0 <= k < |sorted| && sorted[k] == (j, r.level[j]);
        assert WeakerFirst(sorted[0], sorted[k]);
      }
    }

    /** The practice loop, until a round finds nothing to practise; `clock(n)` is the time of
        round n.  It masters every skill exactly when none is blocked at the start. */
    method PracticeLoop(clock: nat -> real) returns (practices: nat)
      requires registry.Valid()
      modifies registry.skills.Values
      ensures registry.Valid() && registry.skills == old(registry.skills)
      ensures practices <= 451 * |registry.skills.Keys|
      ensures Quiescent(registry.View()) && (Mastered(registry.View()) <==> Unblocked(old(registry.View())))
      ensures old(Within(registry.View())) ==> Within(registry.View())
    {
      hide Practised, After, IsRun, Work, Within, Chosen, Quiescent, Mastered, Unblocked;
      ghost var start := registry.View();
      ghost var ids := [];
      EmptyRun(start);
      practices := 0;
      while true
        invariant registry.Valid() && registry.skills == old(registry.skills)
        invariant practices == |ids| && Reached(start, ids, registry.View())
        decreases Work(registry.View())
      {
        ghost var r := registry.View();
        var practised := SchedulePractice(clock(practices));
        if practised.None? { break; }
        ExtendRun(start, ids, practised.value);
        ChosenUsesWork(r, practised.value);
        ids := ids + [practised.value];
        practices := practices + 1;
      }
      FinishedLoop(start, ids, registry.View());
      assert start.level.Keys == registry.skills.Keys;
    }
  }

  ghost predicate Reached(start: Registry, ids: seq<string>, now: Registry)
    requires start.Wf()
  {
    IsRun(start, ids) && (forall id :: id in ids ==> id in start.level) && now == After(start, ids)
  }

  lemma EmptyRun(r: Registry)
    requires r.Wf()
    ensures Reached(r, [], r)
  {
  }

  lemma ChosenUsesWork(r: Registry, id: string)
    requires r.Wf() && Chosen(r, id)
    ensures id in r.level && Work(Practised(r, id, IMPROVEMENT)) < Work(r)
  {
    PracticeUsesWork(r, id);
  }

  lemma FinishedLoop(start: Registry, ids: seq<string>, end: Registry)
    requires start.Wf() && Reached(start, ids, end) && Quiescent(end)
    ensures |ids| <= 451 * |start.level.Keys|
    ensures end.Wf() && (Mastered(end) <==> Unblocked(start)) && (Within(start) ==> Within(end))
  {
    RunsAreBounded(start, ids);
    FinishedRunMasters(start, ids);
    assert |start.level| == |start.level.Keys|;
  }

  lemma {:induction false} ExtendRun(r: Registry, ids: seq<string>, id: string)
    requires r.Wf() && IsRun(r, ids) && (forall j :: j in ids ==> j in r.level)
    requires Chosen(After(r, ids), id)
    ensures IsRun(r, ids + [id]) && (forall j :: j in ids + [id] ==> j in r.level)
    ensures After(r, ids + [id]) == Practised(After(r, ids), id, IMPROVEMENT)
    decreases |ids|
  {
    AfterKeepsKeys(r, ids);
    var longer := ids + [id];
    if ids == [] {
      assert longer == [id] && longer[1..] == [];
    } else {
      assert forall j :: j in ids[1..] ==> j in ids;
      ExtendRun(Practised(r, ids[0], IMPROVEMENT), ids[1..], id);
      assert longer[1..] == ids[1..] + [id] && longer[0] == ids[0];
    }
  }
}
