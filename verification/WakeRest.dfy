/** The autonomous wake/rest controller: a five-state machine over fatigue and
    consolidation pressure.  `Moment` is a snapshot of the controller's fields, `Step`
    one call of `update` on it; the class below does the same in place. */
module WakeRest {
  import Arith
  import opened Basics

  datatype ConsciousnessState = Awake | Drowsy | Resting | DeepRest | Waking

  const FATIGUE_ACCUMULATION_RATE := 0.01
  const FATIGUE_RECOVERY_RATE := 0.05
  const CONSOLIDATION_THRESHOLD := 0.7
  const DROWSY_THRESHOLD := 0.6
  const REST_THRESHOLD := 0.75
  const WAKE_THRESHOLD := 0.2
  const HISTORY := 20

  datatype Moment = Moment(
    state: ConsciousnessState,
    entered: real,
    fatigue: real,
    pressure: real,
    activityDuration: real,
    restDuration: real,
    totalCycles: nat,
    optimalActivity: real,
    optimalRest: real,
    quality: seq<real>,
    coherence: seq<real>)

  /** The arguments of one `update`, with the clock readings it makes in order: in the
      helper for the current state, in the transition check, and on entering a state. */
  datatype Tick = Tick(
    quality: real,
    coherence: real,
    newMemories: int,
    consolidated: bool,
    updateTime: real,
    checkTime: real,
    enterTime: real)

  function Sum(xs: seq<real>): real {
    if xs == [] then 0.0 else Sum(xs[..|xs| - 1]) + xs[|xs| - 1]
  }

  function KeepRecent(xs: seq<real>): seq<real> {
    if |xs| > HISTORY then xs[|xs| - HISTORY..] else xs
  }

  function Average(xs: seq<real>): real {
    Sum(xs) / (if |xs| > 1 then |xs| as real else 1.0)
  }

  // ---------------------------------------------------------------- one update, on values

  function Tracked(c: Moment, quality: real, coherence: real): Moment {
    c.(quality := KeepRecent(c.quality + [quality]), coherence := KeepRecent(c.coherence + [coherence]))
  }

  function Active(c: Moment, quality: real, coherence: real, newMemories: int, now: real): Moment {
    var minutes := (now - c.entered) / 60.0;
    var fatigue := c.fatigue + FATIGUE_ACCUMULATION_RATE * minutes
                   + (1.0 - quality) * 0.005 * minutes + (1.0 - coherence) * 0.005 * minutes;
    c.(fatigue := Min1(fatigue),
       pressure := Min1(c.pressure + newMemories as real * 0.01),
       activityDuration := now - c.entered)
  }

  function Rested(c: Moment, consolidated: bool, now: real): Moment {
    var minutes := (now - c.entered) / 60.0;
    c.(fatigue := Max0(c.fatigue - FATIGUE_RECOVERY_RATE * minutes),
       pressure := if consolidated then c.pressure * 0.5 else c.pressure,
       restDuration := now - c.entered)
  }

  function NextState(c: Moment, now: real): ConsciousnessState {
    var timeInState := now - c.entered;
    match c.state
    case Awake =>
      if c.fatigue >= DROWSY_THRESHOLD || c.pressure >= CONSOLIDATION_THRESHOLD then Drowsy else Awake
    case Drowsy =>
      if c.fatigue >= REST_THRESHOLD || c.pressure >= CONSOLIDATION_THRESHOLD then Resting
      else if c.fatigue < DROWSY_THRESHOLD * 0.8 then Awake
      else Drowsy
    case Resting =>
      if timeInState > 120.0 then DeepRest
      else if c.fatigue < WAKE_THRESHOLD && c.pressure < 0.3 then Waking
      else Resting
    case DeepRest =>
      if c.fatigue < WAKE_THRESHOLD && c.pressure < 0.2 then Waking
      else if timeInState > c.optimalRest && c.fatigue < 0.3 then Waking
      else DeepRest
    case Waking =>
      if timeInState > 10.0 then Awake else Waking
  }

  function Learned(c: Moment): Moment {
    if Average(c.quality) > 0.7 then
      c.(optimalActivity := 0.9 * c.optimalActivity + 0.1 * c.activityDuration,
         optimalRest := 0.9 * c.optimalRest + 0.1 * c.restDuration)
    else
      c.(optimalActivity := c.optimalActivity * 0.95, optimalRest := c.optimalRest * 1.05)
  }

  function Entered(c: Moment, state: ConsciousnessState, now: real): Moment {
    var there := c.(state := state, entered := now);
    if state == Waking then Learned(there.(totalCycles := c.totalCycles + 1)) else there
  }

  /** The fields as they stand when `update` checks for a transition. */
  function Metabolised(c: Moment, tick: Tick): Moment {
    var seen := Tracked(c, tick.quality, tick.coherence);
    match c.state
    case Awake => Active(seen, tick.quality, tick.coherence, tick.newMemories, tick.updateTime)
    case Drowsy => Active(seen, tick.quality, tick.coherence, tick.newMemories, tick.updateTime)
    case Resting => Rested(seen, tick.consolidated, tick.updateTime)
    case DeepRest => Rested(seen, tick.consolidated, tick.updateTime)
    case Waking => seen
  }

  function Step(c: Moment, tick: Tick): Moment {
    var m := Metabolised(c, tick);
    var next := NextState(m, tick.checkTime);
    if next != m.state then Entered(m, next, tick.enterTime) else m
  }

  function ForcedRest(c: Moment, now: real): Moment { Entered(c, Resting, now) }

  function ForcedWake(c: Moment, now: real): Moment {
    Entered(c, Awake, now).(fatigue := 0.0, pressure := 0.0)
  }

  function Start(now: real): Moment {
    Moment(Awake, now, 0.0, 0.0, 0.0, 0.0, 0, 3600.0, 600.0, [], [])
  }

  // ---------------------------------------------------------------- safety

  predicate InRange(tick: Tick) {
    && 0.0 <= tick.quality <= 1.0
    && 0.0 <= tick.coherence <= 1.0
    && 0 <= tick.newMemories
    && tick.updateTime <= tick.checkTime <= tick.enterTime
  }

  /** What every reachable snapshot satisfies, `now` being the latest clock reading. */
  predicate Safe(c: Moment, now: real) {
    && 0.0 <= c.fatigue <= 1.0
    && 0.0 <= c.pressure <= 1.0
    && c.entered <= now
    && (c.state == Drowsy ==> c.fatigue >= DROWSY_THRESHOLD || c.pressure >= CONSOLIDATION_THRESHOLD)
    && (c.state == Waking ==> c.fatigue < 0.3)
    && 0.0 < c.optimalRest
    && 0.0 <= c.optimalActivity
    && 0.0 <= c.activityDuration
    && 0.0 <= c.restDuration
    && |c.quality| <= HISTORY
    && |c.coherence| <= HISTORY
  }

  /** Being awake tires by at least the plain rate times the time in state. */
  lemma ActiveTires(c: Moment, quality: real, coherence: real, newMemories: nat, now: real)
    requires 0.0 <= quality <= 1.0 && 0.0 <= coherence <= 1.0
    requires 0.0 <= c.fatigue <= 1.0 && 0.0 <= c.pressure <= 1.0 && c.entered <= now
    ensures var m := Active(c, quality, coherence, newMemories, now);
      && Min1(c.fatigue + (now - c.entered) / 6000.0) <= m.fatigue <= 1.0
      && c.fatigue <= m.fatigue && c.pressure <= m.pressure <= 1.0
  {
    var minutes := (now - c.entered) / 60.0;
    Arith.ProductNonnegative((1.0 - quality) * 0.005, minutes);
    Arith.ProductNonnegative((1.0 - coherence) * 0.005, minutes);
    var more := (1.0 - quality) * 0.005 * minutes + (1.0 - coherence) * 0.005 * minutes;
    var m := Active(c, quality, coherence, newMemories, now);
    assert 0.0 <= newMemories as real;
    assert 0.0 <= more;
    assert m.fatigue == Min1(c.fatigue + FATIGUE_ACCUMULATION_RATE * minutes + more);
  }

  /** What the helper for the current state does to fatigue and pressure. */
  lemma MetabolisedMoves(c: Moment, now: real, tick: Tick)
    requires Safe(c, now) && InRange(tick) && now <= tick.updateTime
    ensures var m := Metabolised(c, tick);
      && m.state == c.state && m.entered == c.entered && m.totalCycles == c.totalCycles
      && m.optimalRest == c.optimalRest && m.optimalActivity == c.optimalActivity
      && 0.0 <= m.fatigue <= 1.0 && 0.0 <= m.pressure <= 1.0
      && 0.0 <= m.activityDuration && 0.0 <= m.restDuration
      && |m.quality| <= HISTORY && |m.coherence| <= HISTORY
    ensures var m, t := Metabolised(c, tick), tick.updateTime - c.entered;
      match c.state
      case Awake => m.fatigue >= Min1(c.fatigue + t / 6000.0) && m.pressure >= c.pressure
      case Drowsy => m.fatigue >= Min1(c.fatigue + t / 6000.0) && m.pressure >= c.pressure
      case Resting => m.fatigue == Max0(c.fatigue - t / 1200.0) && m.pressure <= c.pressure
      case DeepRest => m.fatigue == Max0(c.fatigue - t / 1200.0) && m.pressure <= c.pressure
      case Waking => m.fatigue == c.fatigue && m.pressure == c.pressure
  {
    var seen := Tracked(c, tick.quality, tick.coherence);
    ActiveTires(seen, tick.quality, tick.coherence, tick.newMemories, tick.updateTime);
  }

  lemma StepKeepsSafe(c: Moment, now: real, tick: Tick)
    requires Safe(c, now) && InRange(tick) && now <= tick.updateTime
    ensures Safe(Step(c, tick), tick.enterTime)
  {
    MetabolisedMoves(c, now, tick);
  }

  /** The edges `update` can take.  Drowsy to Awake is not one of them: that branch of the
      transition check is dead for every reachable snapshot and in-range input. */
  lemma StepEdges(c: Moment, now: real, tick: Tick)
    requires Safe(c, now) && InRange(tick) && now <= tick.updateTime
    ensures var d := Step(c, tick);
      && (d.state != c.state ==>
            (c.state, d.state) in {(Awake, Drowsy), (Drowsy, Resting), (Resting, DeepRest),
                                   (Resting, Waking), (DeepRest, Waking), (Waking, Awake)})
      && d.totalCycles == c.totalCycles + (if c.state != Waking && d.state == Waking then 1 else 0)
      && (d.state != Waking || c.state == Waking ==>
            d.optimalRest == c.optimalRest && d.optimalActivity == c.optimalActivity)
  {
    MetabolisedMoves(c, now, tick);
  }

  /** When an update must change the state, and when it must not: fatigue and pressure stand
      as they did at the check, t is the time in state then. */
  lemma StepTransitions(c: Moment, tick: Tick)
    ensures var d, t := Step(c, tick), tick.checkTime - c.entered;
      && (c.state == Awake ==>
            if d.fatigue >= 0.6 || d.pressure >= 0.7 then d.state == Drowsy else d.state == Awake)
      && (c.state == Drowsy ==>
            if d.fatigue >= 0.75 || d.pressure >= 0.7 then d.state == Resting
            else d.state == if d.fatigue < 0.48 then Awake else Drowsy)
      && (c.state == Resting ==>
            if t > 120.0 then d.state == DeepRest
            else d.state == if d.fatigue < 0.2 && d.pressure < 0.3 then Waking else Resting)
      && (c.state == DeepRest ==>
            if (d.fatigue < 0.2 && d.pressure < 0.2) || (d.fatigue < 0.3 && t > c.optimalRest)
            then d.state == Waking else d.state == DeepRest)
      && (c.state == Waking ==> d.state == if t > 10.0 then Awake else Waking)
      && d.entered == (if d.state != c.state then tick.enterTime else c.entered)
  {
  }

  /** What an update makes of fatigue, pressure and durations, exactly: with m minutes in state,
      a hundredth a minute and half of that for each lack of quality and coherence, a hundredth
      for each new memory; a twentieth a minute back at rest, and pressure halved by a
      consolidation. */
  lemma StepMetabolism(c: Moment, tick: Tick)
    ensures var d, m := Step(c, tick), (tick.updateTime - c.entered) / 60.0;
      && d.quality == KeepRecent(c.quality + [tick.quality])
      && d.coherence == KeepRecent(c.coherence + [tick.coherence])
      && (c.state in {Awake, Drowsy} ==>
            var fatigue := c.fatigue + m * (0.01 + 0.005 * (1.0 - tick.quality) + 0.005 * (1.0 - tick.coherence));
            var pressure := c.pressure + tick.newMemories as real / 100.0;
            && d.fatigue == (if fatigue < 1.0 then fatigue else 1.0)
            && d.pressure == (if pressure < 1.0 then pressure else 1.0)
            && d.activityDuration == 60.0 * m && d.restDuration == c.restDuration)
      && (c.state in {Resting, DeepRest} ==>
            var fatigue := c.fatigue - m / 20.0;
            && d.fatigue == (if fatigue > 0.0 then fatigue else 0.0)
            && d.pressure == (if tick.consolidated then c.pressure / 2.0 else c.pressure)
            && d.restDuration == 60.0 * m && d.activityDuration == c.activityDuration)
      && (c.state == Waking ==>
            && d.fatigue == c.fatigue && d.pressure == c.pressure
            && d.activityDuration == c.activityDuration && d.restDuration == c.restDuration)
  {
    var m := (tick.updateTime - c.entered) / 60.0;
    var x, y := 1.0 - tick.quality, 1.0 - tick.coherence;
    Factored(m, x, y);
  }

  lemma Factored(m: real, x: real, y: real)
    ensures m * (0.01 + 0.005 * x + 0.005 * y) == FATIGUE_ACCUMULATION_RATE * m + x * 0.005 * m + y * 0.005 * m
  {
  }

  /** A history keeps the last twenty values, the newest last. */
  lemma HistoryKeepsTwenty(xs: seq<real>, x: real)
    ensures var kept := KeepRecent(xs + [x]);
      && |kept| == (if |xs| < 20 then |xs| + 1 else 20) && kept[|kept| - 1] == x
      && forall k :: 0 <= k < |kept| - 1 ==> kept[k] == xs[|xs| - (|kept| - 1) + k]
  {
  }

  /** The average is the total over the number; nothing averages to 0. */
  lemma AverageLaw(xs: seq<real>, x: real)
    ensures Average(xs + [x]) * (|xs| + 1) as real == Average(xs) * |xs| as real + x && Average([]) == 0.0
  {
    assert (xs + [x])[..|xs|] == xs;
    assert |xs| >= 1 ==> Average(xs) * |xs| as real == Sum(xs);
  }

  /** Learning after good quality takes each duration a tenth of the way to the observed one, so
      it never leaves an interval that holds both; after poor quality activity shrinks and rest
      grows by a twentieth.  Nothing else is touched. */
  lemma LearningApproaches(c: Moment, lo: real, hi: real)
    requires 0.0 <= c.optimalActivity && 0.0 < c.optimalRest
    ensures var d := Learned(c);
      && d == c.(optimalActivity := d.optimalActivity, optimalRest := d.optimalRest)
      && (Average(c.quality) > 0.7 ==>
            && c.activityDuration - d.optimalActivity == 0.9 * (c.activityDuration - c.optimalActivity)
            && c.restDuration - d.optimalRest == 0.9 * (c.restDuration - c.optimalRest)
            && (lo <= c.optimalActivity <= hi && lo <= c.activityDuration <= hi ==> lo <= d.optimalActivity <= hi)
            && (lo <= c.optimalRest <= hi && lo <= c.restDuration <= hi ==> lo <= d.optimalRest <= hi))
      && (Average(c.quality) <= 0.7 ==>
            && c.optimalActivity - d.optimalActivity == c.optimalActivity / 20.0
            && d.optimalRest - c.optimalRest == c.optimalRest / 20.0
            && 0.0 <= d.optimalActivity <= c.optimalActivity && c.optimalRest < d.optimalRest)
  {
  }

  /** The dead branch comes alive only when a caller reports a negative number of memories;
      then it does, for a rested mind that was drowsy from pressure alone. */
  lemma DrowsyToAwakeTakesForgetting(c: Moment, now: real, tick: Tick)
    requires Safe(c, now) && InRange(tick.(newMemories := 0)) && now <= tick.updateTime
    requires c.state == Drowsy
    ensures Step(c, tick).state == Awake ==> tick.newMemories < 0
    ensures tick.newMemories <= -100 && c.fatigue == 0.0 && tick.updateTime == c.entered ==>
              Step(c, tick).state == Awake
  {
    if 0 <= tick.newMemories { StepEdges(c, now, tick); }
  }

  // ---------------------------------------------------------------- whole runs

  datatype Event = Update(tick: Tick) | ForceRest(at: real) | ForceWake(at: real)

  function Apply(c: Moment, e: Event): Moment {
    match e
    case Update(tick) => Step(c, tick)
    case ForceRest(at) => ForcedRest(c, at)
    case ForceWake(at) => ForcedWake(c, at)
  }

  function Run(c: Moment, events: seq<Event>): Moment
    decreases |events|
  {
    if events == [] then c else Run(Apply(c, events[0]), events[1..])
  }

  function LastReading(e: Event): real {
    match e
    case Update(tick) => tick.enterTime
    case ForceRest(at) => at
    case ForceWake(at) => at
  }

  /** In-range arguments and a clock that never runs backwards. */
  predicate WellTimed(now: real, events: seq<Event>)
    decreases |events|
  {
    events != [] ==>
    && (match events[0]
        case Update(tick) => InRange(tick) && now <= tick.updateTime
        case ForceRest(at) => now <= at
        case ForceWake(at) => now <= at)
    && WellTimed(LastReading(events[0]), events[1..])
  }

  function EndOf(now: real, events: seq<Event>): real
    decreases |events|
  {
    if events == [] then now else EndOf(LastReading(events[0]), events[1..])
  }

  predicate Asleep(c: Moment) { c.state in {Resting, DeepRest} }

  /** How often a run enters a state satisfying `into` from one that does not. */
  function Entries(c: Moment, events: seq<Event>, into: ConsciousnessState): nat
    decreases |events|
  {
    if events == [] then 0 else
      var d := Apply(c, events[0]);
      (if c.state != into && d.state == into then 1 else 0) + Entries(d, events[1..], into)
  }

  function SleepEntries(c: Moment, events: seq<Event>): nat
    decreases |events|
  {
    if events == [] then 0 else
      var d := Apply(c, events[0]);
      (if !Asleep(c) && Asleep(d) then 1 else 0) + SleepEntries(d, events[1..])
  }

  function Unit(b: bool): nat { if b then 1 else 0 }

  /** How often a run leaves sleep by an event that is forced, or by one that is not. */
  function SleepEndings(c: Moment, events: seq<Event>, forced: bool): nat
    decreases |events|
  {
    if events == [] then 0 else
      var d := Apply(c, events[0]);
      (if Asleep(c) && !Asleep(d) && forced == !events[0].Update? then 1 else 0)
      + SleepEndings(d, events[1..], forced)
  }

  /** Whole-run safety: the invariant, `total_cycles` counts entries to Waking, every sleep
      that ends without being forced ends in one Waking and every Waking ends a sleep, and
      sleeps begun equal sleeps ended plus the one still going on. */
  lemma {:induction false} RunIsSafe(c: Moment, now: real, events: seq<Event>)
    requires Safe(c, now) && WellTimed(now, events)
    ensures Safe(Run(c, events), EndOf(now, events))
    ensures Run(c, events).totalCycles == c.totalCycles + Entries(c, events, Waking)
    ensures SleepEndings(c, events, false) == Entries(c, events, Waking)
    ensures SleepEntries(c, events) + Unit(Asleep(c)) ==
            SleepEndings(c, events, false) + SleepEndings(c, events, true) + Unit(Asleep(Run(c, events)))
    decreases |events|
  {
    if events == [] {
    } else {
      var e := events[0];
      var d := Apply(c, e);
      if e.Update? {
        StepKeepsSafe(c, now, e.tick);
        StepEdges(c, now, e.tick);
      }
      RunIsSafe(d, LastReading(e), events[1..]);
    }
  }

  // ---------------------------------------------------------------- progress

  /** Steps of size one until x is negative. */
  function Hops(x: real): nat { if x < 0.0 then 0 else x.Floor + 1 }

  lemma QuotientOrder(x: real, y: real, d: real)
    requires 0.0 < d && x <= y
    ensures x / d <= y / d
    ensures x < 0.0 <==> x / d < 0.0
  {
    var p, q := x / d, y / d;
    assert p * d == x && q * d == y;
    Arith.SignOfProduct(q - p, d);
    Arith.SignOfProduct(p, d);
  }

  /** Losing at least `d` loses at least one hop, as long as there is one to lose. */
  lemma HopsDrop(x: real, y: real, d: real)
    requires 0.0 < d && y <= x - d
    ensures Hops(y / d) <= Hops(x / d)
    ensures 0.0 <= x ==> Hops(y / d) < Hops(x / d)
  {
    QuotientOrder(x, x, d);
    var p, q := x / d, y / d;
    assert p * d == x && q * d == y;
    assert (p - 1.0 - q) * d == x - d - y;
    Arith.SignOfProduct(p - 1.0 - q, d);
    assert 0.0 <= q ==> q.Floor <= (p - 1.0).Floor == p.Floor - 1;
  }

  lemma HopsMonotone(x: real, y: real, d: real)
    requires 0.0 < d && y <= x
    ensures Hops(y / d) <= Hops(x / d)
  {
    QuotientOrder(y, x, d);
  }

  // Updates, at least `gap` seconds apart, that each state can still last; a state entered
  // later is charged in full.

  function DeepRestBound(fatigue: real, left: real, gap: real): nat
    requires gap > 0.0
  {
    Hops(left / gap) + Hops((fatigue - 0.3) / (gap / 1200.0))
  }

  function RestBound(left: real, optimalRest: real, gap: real): nat
    requires gap > 0.0
  {
    Hops(left / gap) + 1 + DeepRestBound(1.0, optimalRest, gap)
  }

  function DrowsyBound(fatigue: real, optimalRest: real, gap: real): nat
    requires gap > 0.0
  {
    Hops((REST_THRESHOLD - fatigue) / (gap / 6000.0)) + 1 + RestBound(120.0, optimalRest, gap)
  }

  function AwakeBound(fatigue: real, optimalRest: real, gap: real): nat
    requires gap > 0.0
  {
    Hops((DROWSY_THRESHOLD - fatigue) / (gap / 6000.0)) + 1 + DrowsyBound(0.0, optimalRest, gap)
  }

  /** An upper bound on the updates, `gap` or more apart, until the next cycle is counted. */
  function Bound(c: Moment, now: real, gap: real): nat
    requires gap > 0.0
  {
    var timeInState := now - c.entered;
    match c.state
    case DeepRest => 1 + DeepRestBound(c.fatigue, c.optimalRest - timeInState, gap)
    case Resting => 1 + RestBound(120.0 - timeInState, c.optimalRest, gap)
    case Drowsy => 1 + DrowsyBound(c.fatigue, c.optimalRest, gap)
    case Awake => 1 + AwakeBound(c.fatigue, c.optimalRest, gap)
    case Waking => 1 + Hops((10.0 - timeInState) / gap) + 1 + AwakeBound(0.0, c.optimalRest, gap)
  }

  ghost predicate Progress(c: Moment, now: real, tick: Tick, gap: real)
    requires gap > 0.0
  {
    || Step(c, tick).totalCycles > c.totalCycles
    || Bound(Step(c, tick), tick.enterTime, gap) < Bound(c, now, gap)
  }

  predicate Ready(c: Moment, now: real, tick: Tick, gap: real) {
    gap > 0.0 && Safe(c, now) && InRange(tick) && now + gap <= tick.updateTime
  }

  lemma AwakeProgresses(c: Moment, now: real, tick: Tick, gap: real)
    requires Ready(c, now, tick, gap) && c.state == Awake
    ensures Progress(c, now, tick, gap)
  {
    MetabolisedMoves(c, now, tick);
    var m, d := Metabolised(c, tick), Step(c, tick);
    if d.state == Awake {
      HopsDrop(DROWSY_THRESHOLD - c.fatigue, DROWSY_THRESHOLD - m.fatigue, gap / 6000.0);
    } else {
      HopsMonotone(REST_THRESHOLD - 0.0, REST_THRESHOLD - m.fatigue, gap / 6000.0);
    }
  }

  lemma DrowsyProgresses(c: Moment, now: real, tick: Tick, gap: real)
    requires Ready(c, now, tick, gap) && c.state == Drowsy
    ensures Progress(c, now, tick, gap)
  {
    MetabolisedMoves(c, now, tick);
    var m, d := Metabolised(c, tick), Step(c, tick);
    if d.state == Drowsy {
      HopsDrop(REST_THRESHOLD - c.fatigue, REST_THRESHOLD - m.fatigue, gap / 6000.0);
    } else {
      assert d.state == Resting && d.entered == tick.enterTime;
    }
  }

  lemma RestingProgresses(c: Moment, now: real, tick: Tick, gap: real)
    requires Ready(c, now, tick, gap) && c.state == Resting
    ensures Progress(c, now, tick, gap)
  {
    MetabolisedMoves(c, now, tick);
    var m, d := Metabolised(c, tick), Step(c, tick);
    if d.state == Resting {
      HopsDrop(120.0 - (now - c.entered), 120.0 - (tick.checkTime - c.entered), gap);
      HopsMonotone(120.0 - (tick.checkTime - c.entered), 120.0 - (tick.enterTime - c.entered), gap);
    } else {
      HopsMonotone(1.0 - 0.3, m.fatigue - 0.3, gap / 1200.0);
    }
  }

  lemma DeepRestProgresses(c: Moment, now: real, tick: Tick, gap: real)
    requires Ready(c, now, tick, gap) && c.state == DeepRest
    ensures Progress(c, now, tick, gap)
  {
    MetabolisedMoves(c, now, tick);
    var m, d := Metabolised(c, tick), Step(c, tick);
    if d.state == DeepRest {
      var before, after := c.optimalRest - (now - c.entered), c.optimalRest - (tick.enterTime - c.entered);
      HopsDrop(before, after, gap);
      if c.fatigue - 0.3 >= 0.0 && m.fatigue > 0.0 {
        HopsDrop(c.fatigue - 0.3, m.fatigue - 0.3, gap / 1200.0);
      } else {
        HopsMonotone(c.fatigue - 0.3, m.fatigue - 0.3, gap / 1200.0);
      }
    }
  }

  lemma WakingProgresses(c: Moment, now: real, tick: Tick, gap: real)
    requires Ready(c, now, tick, gap) && c.state == Waking
    ensures Progress(c, now, tick, gap)
  {
    MetabolisedMoves(c, now, tick);
    var d := Step(c, tick);
    if d.state == Waking {
      HopsDrop(10.0 - (now - c.entered), 10.0 - (tick.checkTime - c.entered), gap);
      HopsMonotone(10.0 - (tick.checkTime - c.entered), 10.0 - (tick.enterTime - c.entered), gap);
    } else {
      HopsMonotone(DROWSY_THRESHOLD - 0.0, DROWSY_THRESHOLD - c.fatigue, gap / 6000.0);
    }
  }

  /** One update either counts a cycle or strictly lowers the bound, consolidation or not. */
  lemma StepProgresses(c: Moment, now: real, tick: Tick, gap: real)
    requires Ready(c, now, tick, gap)
    ensures Progress(c, now, tick, gap)
  {
    match c.state
    case Awake => AwakeProgresses(c, now, tick, gap);
    case Drowsy => DrowsyProgresses(c, now, tick, gap);
    case Resting => RestingProgresses(c, now, tick, gap);
    case DeepRest => DeepRestProgresses(c, now, tick, gap);
    case Waking => WakingProgresses(c, now, tick, gap);
  }

  /** Updates `gap` or more apart, starting at least `gap` after `now`. */
  predicate Spaced(now: real, ticks: seq<Tick>, gap: real)
    decreases |ticks|
  {
    ticks != [] ==>
    && InRange(ticks[0])
    && now + gap <= ticks[0].updateTime
    && Spaced(ticks[0].enterTime, ticks[1..], gap)
  }

  function Updates(c: Moment, ticks: seq<Tick>): Moment
    decreases |ticks|
  {
    if ticks == [] then c else Updates(Step(c, ticks[0]), ticks[1..])
  }

  /** The cycle never gets stuck: from every safe snapshot, as many spaced updates as the
      bound says complete at least one more cycle. */
  lemma {:induction false} NeverStuck(c: Moment, now: real, ticks: seq<Tick>, gap: real)
    requires gap > 0.0
    requires Safe(c, now) && Spaced(now, ticks, gap)
    ensures Updates(c, ticks).totalCycles >= c.totalCycles
    ensures |ticks| >= Bound(c, now, gap) ==> Updates(c, ticks).totalCycles > c.totalCycles
    decreases |ticks|
  {
    if ticks == [] {
    } else {
      StepKeepsSafe(c, now, ticks[0]);
      StepEdges(c, now, ticks[0]);
      StepProgresses(c, now, ticks[0], gap);
      NeverStuck(Step(c, ticks[0]), ticks[0].enterTime, ticks[1..], gap);
    }
  }

  // ---------------------------------------------------------------- the controller

  class AutonomousWakeRestController {
    var state: ConsciousnessState
    var stateEnteredTime: real
    var cognitiveFatigue: real
    var consolidationPressure: real
    var activityDuration: real
    var restDuration: real
    var totalCycles: nat
    var optimalActivityDuration: real
    var optimalRestDuration: real
    var recentProcessingQuality: seq<real>
    var recentCoherenceLevels: seq<real>

    function Now(): Moment
      reads this
    {
      Moment(state, stateEnteredTime, cognitiveFatigue, consolidationPressure, activityDuration, restDuration,
             totalCycles, optimalActivityDuration, optimalRestDuration, recentProcessingQuality, recentCoherenceLevels)
    }

    constructor (now: real)
      ensures Now() == Start(now)
      ensures state == Awake && stateEnteredTime == now && cognitiveFatigue == 0.0 && consolidationPressure == 0.0
      ensures activityDuration == 0.0 && restDuration == 0.0 && totalCycles == 0
      ensures optimalActivityDuration == 3600.0 && optimalRestDuration == 600.0
      ensures Safe(Now(), now)
    {
      state, stateEnteredTime := Awake, now;
      cognitiveFatigue, consolidationPressure := 0.0, 0.0;
      activityDuration, restDuration, totalCycles := 0.0, 0.0, 0;
      optimalActivityDuration, optimalRestDuration := 3600.0, 600.0;
      recentProcessingQuality, recentCoherenceLevels := [], [];
    }

    method Update(tick: Tick) returns (s: ConsciousnessState)
      modifies this
      ensures Now() == Step(old(Now()), tick) && s == state
      ensures var t := tick.checkTime - old(stateEnteredTime);
        && (old(state) == Awake ==>
              if cognitiveFatigue >= 0.6 || consolidationPressure >= 0.7 then state == Drowsy else state == Awake)
        && (old(state) == Drowsy ==>
              if cognitiveFatigue >= 0.75 || consolidationPressure >= 0.7 then state == Resting
              else state == if cognitiveFatigue < 0.48 then Awake else Drowsy)
        && (old(state) == Resting ==>
              if t > 120.0 then state == DeepRest
              else state == if cognitiveFatigue < 0.2 && consolidationPressure < 0.3 then Waking else Resting)
        && (old(state) == DeepRest ==>
              if (cognitiveFatigue < 0.2 && consolidationPressure < 0.2)
                 || (cognitiveFatigue < 0.3 && t > old(optimalRestDuration))
              then state == Waking else state == DeepRest)
        && (old(state) == Waking ==> state == if t > 10.0 then Awake else Waking)
    {
      StepTransitions(Now(), tick);
      hide Metabolised, NextState, Entered;
      TrackAndMetabolise(tick);
      var next := CheckStateTransitions(tick.checkTime);
      if next != state {
        TransitionToState(next, tick.enterTime);
      }
      return state;
    }

    /** The part of an update before the transition check. */
    method TrackAndMetabolise(tick: Tick)
      modifies this
      ensures Now() == Metabolised(old(Now()), tick)
    {
      recentProcessingQuality := recentProcessingQuality + [tick.quality];
      recentCoherenceLevels := recentCoherenceLevels + [tick.coherence];
      if |recentProcessingQuality| > HISTORY {
        recentProcessingQuality := recentProcessingQuality[|recentProcessingQuality| - HISTORY..];
      }
      if |recentCoherenceLevels| > HISTORY {
        recentCoherenceLevels := recentCoherenceLevels[|recentCoherenceLevels| - HISTORY..];
      }
      assert Now() == Tracked(old(Now()), tick.quality, tick.coherence);
      if state == Awake || state == Drowsy {
        UpdateAwakeState(tick.quality, tick.coherence, tick.newMemories, tick.updateTime);
      } else if state == Resting || state == DeepRest {
        UpdateRestingState(tick.consolidated, tick.updateTime);
      }
    }

    method UpdateAwakeState(quality: real, coherence: real, newMemories: int, now: real)
      modifies this
      ensures Now() == Active(old(Now()), quality, coherence, newMemories, now)
    {
      ghost var c := Now();
      var minutesActive := (now - stateEnteredTime) / 60.0;
      cognitiveFatigue := cognitiveFatigue + FATIGUE_ACCUMULATION_RATE * minutesActive;
      var qualityFactor := 1.0 - quality;
      cognitiveFatigue := cognitiveFatigue + qualityFactor * 0.005 * minutesActive;
      var coherenceFactor := 1.0 - coherence;
      cognitiveFatigue := cognitiveFatigue + coherenceFactor * 0.005 * minutesActive;
      assert cognitiveFatigue == c.fatigue + FATIGUE_ACCUMULATION_RATE * minutesActive
                                 + (1.0 - quality) * 0.005 * minutesActive + (1.0 - coherence) * 0.005 * minutesActive;
      cognitiveFatigue := Min1(cognitiveFatigue);
      consolidationPressure := consolidationPressure + newMemories as real * 0.01;
      consolidationPressure := Min1(consolidationPressure);
      activityDuration := now - stateEnteredTime;
      assert cognitiveFatigue == Active(c, quality, coherence, newMemories, now).fatigue;
    }

    method UpdateRestingState(consolidationOccurred: bool, now: real)
      modifies this
      ensures Now() == Rested(old(Now()), consolidationOccurred, now)
    {
      var minutesResting := (now - stateEnteredTime) / 60.0;
      cognitiveFatigue := cognitiveFatigue - FATIGUE_RECOVERY_RATE * minutesResting;
      cognitiveFatigue := Max0(cognitiveFatigue);
      if consolidationOccurred {
        consolidationPressure := consolidationPressure * 0.5;
      }
      restDuration := now - stateEnteredTime;
    }

    method CheckStateTransitions(now: real) returns (next: ConsciousnessState)
      ensures next == NextState(Now(), now)
    {
      var timeInState := now - stateEnteredTime;
      if state == Awake {
        if cognitiveFatigue >= DROWSY_THRESHOLD { return Drowsy; }
        if consolidationPressure >= CONSOLIDATION_THRESHOLD { return Drowsy; }
      } else if state == Drowsy {
        if cognitiveFatigue >= REST_THRESHOLD { return Resting; }
        if consolidationPressure >= CONSOLIDATION_THRESHOLD { return Resting; }
        if cognitiveFatigue < DROWSY_THRESHOLD * 0.8 { return Awake; }
      } else if state == Resting {
        if timeInState > 120.0 { return DeepRest; }
        if cognitiveFatigue < WAKE_THRESHOLD && consolidationPressure < 0.3 { return Waking; }
      } else if state == DeepRest {
        if cognitiveFatigue < WAKE_THRESHOLD && consolidationPressure < 0.2 { return Waking; }
        if timeInState > optimalRestDuration && cognitiveFatigue < 0.3 { return Waking; }
      } else if state == Waking {
        if timeInState > 10.0 { return Awake; }
      }
      return state;
    }

    method TransitionToState(next: ConsciousnessState, now: real)
      modifies this
      ensures Now() == Entered(old(Now()), next, now)
      ensures state == next && stateEnteredTime == now
      ensures totalCycles == old(totalCycles) + (if next == Waking then 1 else 0)
      ensures cognitiveFatigue == old(cognitiveFatigue) && consolidationPressure == old(consolidationPressure)
      ensures next != Waking ==> optimalRestDuration == old(optimalRestDuration)
                                 && optimalActivityDuration == old(optimalActivityDuration)
    {
      state := next;
      stateEnteredTime := now;
      if next == Waking {
        totalCycles := totalCycles + 1;
        UpdateOptimalDurations();
      }
    }

    method UpdateOptimalDurations()
      modifies this
      ensures Now() == Learned(old(Now()))
    {
      var avgQuality := Average(recentProcessingQuality);
      if avgQuality > 0.7 {
        optimalActivityDuration := (1.0 - 0.1) * optimalActivityDuration + 0.1 * activityDuration;
        optimalRestDuration := (1.0 - 0.1) * optimalRestDuration + 0.1 * restDuration;
      } else {
        optimalActivityDuration := optimalActivityDuration * 0.95;
        optimalRestDuration := optimalRestDuration * 1.05;
      }
    }

    method ForceRest(now: real)
      modifies this
      ensures Now() == ForcedRest(old(Now()), now)
      ensures Now() == old(Now()).(state := Resting, entered := now)
    {
      TransitionToState(Resting, now);
    }

    method ForceWake(now: real)
      modifies this
      ensures Now() == ForcedWake(old(Now()), now)
      ensures Now() == old(Now()).(state := Awake, entered := now, fatigue := 0.0, pressure := 0.0)
    {
      TransitionToState(Awake, now);
      cognitiveFatigue := 0.0;
      consolidationPressure := 0.0;
    }
  }
}
