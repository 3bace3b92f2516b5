/** Scorer weights and the weekly metacognition cycle that tunes them. Weights
    are integers in units of 1/10000: adjustments are whole hundredths, targets
    are rounded to four decimals and clamping moves by 0.05, so exact arithmetic
    never leaves this grid. */
module WeightTuning {
  import opened Wrappers

  datatype Weights = Weights(urgency: int, impact: int, feasibility: int, novelty: int, alignment: int)

  const DEFAULTS := Weights(2500, 3000, 2000, 1000, 1500)
  const ONE := 10000
  const MAX_DELTA := 500
  /** 0.0091, below which no reachable weight falls. */
  const FLOOR := 91

  function Sum(w: Weights): int {
    w.urgency + w.impact + w.feasibility + w.novelty + w.alignment
  }

  predicate Validates(w: Weights) {
    -10 < Sum(w) - ONE < 10
  }

  function ClampOne(current: int, target: int): int {
    if target - current > MAX_DELTA then current + MAX_DELTA
    else if target - current < -MAX_DELTA then current - MAX_DELTA
    else target
  }

  function Clamp(w: Weights, target: Weights): Weights {
    Weights(ClampOne(w.urgency, target.urgency), ClampOne(w.impact, target.impact),
            ClampOne(w.feasibility, target.feasibility), ClampOne(w.novelty, target.novelty),
            ClampOne(w.alignment, target.alignment))
  }

  /** What a cycle has measured. */
  datatype Stats = Stats(completionRate: real, valueAccuracy: real, deferred: nat)

  predicate Inaccurate(s: Stats) { s.valueAccuracy < 0.7 }
  predicate Deferring(s: Stats) { s.deferred > 3 }
  predicate TooEasy(s: Stats) { s.completionRate > 0.9 }
  predicate TooHard(s: Stats) { s.completionRate < 0.3 }

  function Shifted(w: Weights, urgency: int, impact: int, feasibility: int, novelty: int): Weights {
    Weights(w.urgency + urgency, w.impact + impact, w.feasibility + feasibility, w.novelty + novelty, w.alignment)
  }

  function Adjusted(w: Weights, s: Stats): Weights {
    var w1 := if Inaccurate(s) then Shifted(w, 100, -300, 200, 0) else w;
    var w2 := if Deferring(s) then Shifted(w1, 0, -200, 300, -100) else w1;
    var w3 := if TooEasy(s) then Shifted(w2, -200, 200, -200, 200) else w2;
    if TooHard(s) then Shifted(w3, 0, -300, 300, 0) else w3
  }

  function AtLeast(x: int, low: int): int {
    if x < low then low else x
  }

  function Floored(w: Weights): Weights {
    Weights(AtLeast(w.urgency, 100), AtLeast(w.impact, 100), AtLeast(w.feasibility, 100),
            AtLeast(w.novelty, 100), AtLeast(w.alignment, 100))
  }

  /** round(x / sum * 10000), halves up, for positive x and sum. */
  function Share(x: int, sum: int): int
    requires sum > 0
  {
    (2 * ONE * x + sum) / (2 * sum)
  }

  function Normalized(w: Weights): Weights
    requires Sum(w) > 0
  {
    var sum := Sum(w);
    Weights(Share(w.urgency, sum), Share(w.impact, sum), Share(w.feasibility, sum),
            Share(w.novelty, sum), Share(w.alignment, sum))
  }

  function Target(w: Weights, s: Stats): Weights {
    Normalized(Floored(Adjusted(w, s)))
  }

  function Next(w: Weights, s: Stats): Weights {
    var clamped := Clamp(w, Target(w, s));
    if Validates(clamped) then clamped else w
  }

  /** The weights after a run of cycles from the defaults. */
  function After(cycles: seq<Stats>): Weights {
    if cycles == [] then DEFAULTS
    else Next(After(cycles[..|cycles| - 1]), cycles[|cycles| - 1])
  }

  // ----- the imperative form -----

  method ApplyRules(current: Weights, s: Stats) returns (w: Weights)
    ensures w == Adjusted(current, s)
  {
    w := current;
    if s.valueAccuracy < 0.7 {
      w := w.(impact := w.impact - 300);
      w := w.(feasibility := w.feasibility + 200);
      w := w.(urgency := w.urgency + 100);
    }
    if s.deferred > 3 {
      w := w.(feasibility := w.feasibility + 300);
      w := w.(impact := w.impact - 200);
      w := w.(novelty := w.novelty - 100);
    }
    if s.completionRate > 0.9 {
      w := w.(impact := w.impact + 200);
      w := w.(novelty := w.novelty + 200);
      w := w.(feasibility := w.feasibility - 200);
      w := w.(urgency := w.urgency - 200);
    }
    if s.completionRate < 0.3 {
      w := w.(feasibility := w.feasibility + 300);
      w := w.(impact := w.impact - 300);
    }
  }

  method RaiseToMinimum(current: Weights) returns (w: Weights)
    ensures w == Floored(current)
  {
    w := current;
    if w.urgency < 100 { w := w.(urgency := 100); }
    if w.impact < 100 { w := w.(impact := 100); }
    if w.feasibility < 100 { w := w.(feasibility := 100); }
    if w.novelty < 100 { w := w.(novelty := 100); }
    if w.alignment < 100 { w := w.(alignment := 100); }
  }

  method AdjustWeights(current: Weights, s: Stats) returns (w: Weights)
    ensures w == Target(current, s)
  {
    w := ApplyRules(current, s);
    w := RaiseToMinimum(w);
    var sum := w.urgency + w.impact + w.feasibility + w.novelty + w.alignment;
    if sum > 0 {
      w := Weights(Share(w.urgency, sum), Share(w.impact, sum), Share(w.feasibility, sum),
                   Share(w.novelty, sum), Share(w.alignment, sum));
    }
  }

  /** Adjust, clamp, validate; an invalid candidate keeps the old weights. */
  method NextWeights(oldWeights: Weights, s: Stats) returns (clamped: Weights)
    ensures clamped == Next(oldWeights, s)
  {
    var target := AdjustWeights(oldWeights, s);
    clamped := Clamp(oldWeights, target);
    if !Validates(clamped) {
      clamped := oldWeights;
    }
  }

  /** A completed goal as the cycle reads it. */
  datatype Outcome = Outcome(expectedValue: real, actualValue: Option<real>)

  predicate Rated(g: Outcome) {
    g.actualValue.Some? && g.expectedValue > 0.0
  }

  function RatedCount(goals: seq<Outcome>): nat {
    if goals == [] then 0 else RatedCount(goals[..|goals| - 1]) + if Rated(goals[|goals| - 1]) then 1 else 0
  }

  function AccuracySum(goals: seq<Outcome>): real {
    if goals == [] then 0.0
    else
      var g := goals[|goals| - 1];
      AccuracySum(goals[..|goals| - 1]) + if Rated(g) then g.actualValue.value / g.expectedValue else 0.0
  }

  /** The statistics of a cycle: the mean accuracy of rated goals, 1 when there
      are none, and completion rate 0 when nothing ended. */
  function Measure(completed: seq<Outcome>, abandoned: nat, deferred: nat): Stats {
    Stats(
      if |completed| + abandoned > 0 then |completed| as real / (|completed| + abandoned) as real else 0.0,
      if RatedCount(completed) > 0 then AccuracySum(completed) / RatedCount(completed) as real else 1.0,
      deferred)
  }

  lemma {:induction false} RatedAddUp(a: seq<Outcome>, b: seq<Outcome>)
    ensures RatedCount(a + b) == RatedCount(a) + RatedCount(b)
    ensures AccuracySum(a + b) == AccuracySum(a) + AccuracySum(b)
  {
    if b == [] {
      assert a + b == a;
    } else {
      assert (a + b)[..|a + b| - 1] == a + b[..|b| - 1];
      RatedAddUp(a, b[..|b| - 1]);
    }
  }

  lemma {:induction false} RatedIndices(goals: seq<Outcome>)
    ensures RatedCount(goals) == |set k: nat | k < |goals| && goals[k].actualValue.Some? && goals[k].expectedValue > 0.0|
  {
    var now := set k: nat | k < |goals| && goals[k].actualValue.Some? && goals[k].expectedValue > 0.0;
    if goals != [] {
      var n := |goals| - 1;
      RatedIndices(goals[..n]);
      var before := set k: nat | k < n && goals[..n][k].actualValue.Some? && goals[..n][k].expectedValue > 0.0;
      assert now == before + if Rated(goals[n]) then {n} else {};
    }
  }

  /** n terms, each in [low, high], can add up to the sum. */
  predicate SumWithin(n: nat, sum: real, low: real, high: real) {
    n as real * low <= sum <= n as real * high
  }

  lemma SumGrows(n: nat, sum: real, x: real, low: real, high: real)
    requires SumWithin(n, sum, low, high) && low <= x <= high
    ensures SumWithin(n + 1, sum + x, low, high)
  {
    assert (n + 1) as real == n as real + 1.0;
  }

  /** The ratios of value got to value expected, wherever there are both. */
  predicate RatiosWithin(goals: seq<Outcome>, low: real, high: real) {
    forall k :: 0 <= k < |goals| && goals[k].actualValue.Some? && goals[k].expectedValue > 0.0 ==>
      low <= goals[k].actualValue.value / goals[k].expectedValue <= high
  }

  lemma {:induction false} AccuracySumWithin(goals: seq<Outcome>, low: real, high: real)
    requires RatiosWithin(goals, low, high)
    ensures SumWithin(RatedCount(goals), AccuracySum(goals), low, high)
  {
    if goals != [] {
      var n := |goals| - 1;
      var g := goals[n];
      AccuracySumWithin(goals[..n], low, high);
      if Rated(g) { SumGrows(RatedCount(goals[..n]), AccuracySum(goals[..n]), g.actualValue.value / g.expectedValue, low, high); }
    }
  }

  lemma MeanBetween(sum: real, n: nat, low: real, high: real)
    requires n > 0 && SumWithin(n, sum, low, high)
    ensures low <= sum / n as real <= high
  {
    var mean := sum / n as real;
    assert mean * n as real == sum;
    if mean < low { Fewer(n as real, mean, low); }
    if high < mean { Fewer(n as real, high, mean); }
  }

  lemma Fewer(n: real, x: real, y: real)
    requires n > 0.0 && x < y
    ensures n * x < n * y
  {}

  lemma RateTimes(part: nat, total: nat)
    requires total > 0
    ensures part as real / total as real * total as real == part as real
  {}

  /** What is measured: the completed share of all ended goals, and a mean that
      lies between the smallest and the largest ratio of value got to value
      expected among the goals with both. */
  lemma MeasureMeans(completed: seq<Outcome>, abandoned: nat, deferred: nat, low: real, high: real)
    requires RatiosWithin(completed, low, high)
    ensures var m := Measure(completed, abandoned, deferred);
      && m.deferred == deferred
      && m.completionRate * (|completed| + abandoned) as real == |completed| as real
      && (|completed| + abandoned == 0 ==> m.completionRate == 0.0)
      && (if exists k :: 0 <= k < |completed| && completed[k].actualValue.Some? && completed[k].expectedValue > 0.0
          then low <= m.valueAccuracy <= high else m.valueAccuracy == 1.0)
  {
    if |completed| + abandoned > 0 { RateTimes(|completed|, |completed| + abandoned); }
    AnyRated(completed);
    AccuracySumWithin(completed, low, high);
    if RatedCount(completed) > 0 { MeanBetween(AccuracySum(completed), RatedCount(completed), low, high); }
  }

  lemma AnyRated(goals: seq<Outcome>)
    ensures RatedCount(goals) > 0 <==>
      exists k :: 0 <= k < |goals| && goals[k].actualValue.Some? && goals[k].expectedValue > 0.0
  {
    RatedIndices(goals);
    var rated := set k: nat | k < |goals| && goals[k].actualValue.Some? && goals[k].expectedValue > 0.0;
    if k: nat :| k < |goals| && goals[k].actualValue.Some? && goals[k].expectedValue > 0.0 {
      assert k in rated;
    } else {
      assert rated == {};
    }
  }

  /** The accumulating loop over the completed goals. */
  method MeasureGoals(completed: seq<Outcome>, abandoned: nat, deferred: nat) returns (stats: Stats)
    ensures stats == Measure(completed, abandoned, deferred)
  {
    var total := |completed| + abandoned;
    var completionRate := 0.0;
    if total > 0 {
      completionRate := |completed| as real / total as real;
    }
    var totalAccuracy, accuracyCount := 0.0, 0;
    for i := 0 to |completed|
      invariant totalAccuracy == AccuracySum(completed[..i]) && accuracyCount == RatedCount(completed[..i])
    {
      var g := completed[i];
      assert completed[..i + 1][..i] == completed[..i];
      if g.actualValue.Some? && g.expectedValue > 0.0 {
        totalAccuracy := totalAccuracy + g.actualValue.value / g.expectedValue;
        accuracyCount := accuracyCount + 1;
      }
    }
    assert completed[..|completed|] == completed;
    var avgAccuracy := 1.0;
    if accuracyCount > 0 {
      avgAccuracy := totalAccuracy / accuracyCount as real;
    }
    stats := Stats(completionRate, avgAccuracy, deferred);
  }

  function Difference(w: Weights, before: Weights): Weights {
    Weights(w.urgency - before.urgency, w.impact - before.impact, w.feasibility - before.feasibility,
            w.novelty - before.novelty, w.alignment - before.alignment)
  }

  datatype Report = Report(stats: Stats, oldWeights: Weights, newWeights: Weights, delta: Weights, improvementGoal: bool)

  lemma AfterSnoc(cycles: seq<Stats>, s: Stats)
    ensures After(cycles + [s]) == Next(After(cycles), s)
  {
    assert (cycles + [s])[..|cycles|] == cycles;
  }

  class PriorityScorer {
    var weights: Weights
    ghost var cycles: seq<Stats>

    /** The weights are what the recorded cycles make of the defaults. */
    ghost predicate Valid()
      reads this
    {
      weights == After(cycles)
    }

    constructor ()
      ensures Valid() && cycles == [] && weights == DEFAULTS
    {
      weights, cycles := DEFAULTS, [];
    }

    /** One metacognition cycle. */
    method Run(completed: seq<Outcome>, abandoned: nat, deferred: nat) returns (report: Report)
      requires Valid()
      modifies this
      ensures Valid() && cycles == old(cycles) + [report.stats]
      ensures report.stats == Measure(completed, abandoned, deferred)
      ensures report.oldWeights == old(weights) && report.newWeights == weights
      ensures report.delta.urgency == weights.urgency - old(weights.urgency)
           && report.delta.impact == weights.impact - old(weights.impact)
           && report.delta.feasibility == weights.feasibility - old(weights.feasibility)
           && report.delta.novelty == weights.novelty - old(weights.novelty)
           && report.delta.alignment == weights.alignment - old(weights.alignment)
      ensures report.improvementGoal <==>
        (report.stats.completionRate < 0.4 || report.stats.valueAccuracy < 0.6) && |completed| + abandoned > 5
    {
      var stats := MeasureGoals(completed, abandoned, deferred);
      var oldWeights := weights;
      var clamped := NextWeights(oldWeights, stats);
      AfterSnoc(cycles, stats);
      weights, cycles := clamped, cycles + [stats];
      report := Report(stats, oldWeights, clamped, Difference(clamped, oldWeights),
        (stats.completionRate < 0.4 || stats.valueAccuracy < 0.6) && |completed| + abandoned > 5);
    }
  }

  // ----- in which direction a cycle tunes -----

  /** The weights a cycle moves, and by how much, for weights adding up to 1 and a
      cycle that leaves every adjusted weight at 0.01 or more. Inaccurate (a),
      deferring (d), too easy (e) and too hard (h) are the four conditions. */
  lemma CycleMoves(w: Weights, s: Stats, a: bool, d: bool, e: bool, h: bool)
    requires w.urgency + w.impact + w.feasibility + w.novelty + w.alignment == 10000
    requires a == (s.valueAccuracy < 0.7) && d == (s.deferred > 3)
    requires e == (s.completionRate > 0.9) && h == (s.completionRate < 0.3)
    requires w.urgency + (if a then 100 else 0) - (if e then 200 else 0) >= 100
    requires w.impact - (if a then 300 else 0) - (if d then 200 else 0) + (if e then 200 else 0) - (if h then 300 else 0) >= 100
    requires w.feasibility + (if a then 200 else 0) + (if d then 300 else 0) - (if e then 200 else 0) + (if h then 300 else 0) >= 100
    requires w.novelty - (if d then 100 else 0) + (if e then 200 else 0) >= 100 && w.alignment >= 100
    ensures var (u, i, f, n) :=
      if e then
        if a && d then (-100, -300, 300, 100)
        else if a then (-100, -100, 0, 200)
        else if d then (-200, 0, 100, 100)
        else (-200, 200, -200, 200)
      else if h then
        if a && d then (100, -500, 500, -100)
        else if a || d then (0, 0, 0, 0)
        else (0, -300, 300, 0)
      else
        if a && d then (100, -500, 500, -100)
        else if a then (100, -300, 200, 0)
        else if d then (0, -200, 300, -100)
        else (0, 0, 0, 0);
      Next(w, s) == Weights(w.urgency + u, w.impact + i, w.feasibility + f, w.novelty + n, w.alignment)
  {
    UnflooredTarget(w, s);
  }

  /** Flooring or not: the weight proposed is the share, to the nearest unit, that
      the shifted weight, raised to 0.01 if it is less, has of all five. */
  lemma TargetMeans(w: Weights, s: Stats, u: int, i: int, f: int, n: int)
    requires u == w.urgency + (if s.valueAccuracy < 0.7 then 100 else 0) - (if s.completionRate > 0.9 then 200 else 0)
    requires i == w.impact - (if s.valueAccuracy < 0.7 then 300 else 0) - (if s.deferred > 3 then 200 else 0)
                  + (if s.completionRate > 0.9 then 200 else if s.completionRate < 0.3 then -300 else 0)
    requires f == w.feasibility + (if s.valueAccuracy < 0.7 then 200 else 0) + (if s.deferred > 3 then 300 else 0)
                  - (if s.completionRate > 0.9 then 200 else if s.completionRate < 0.3 then -300 else 0)
    requires n == w.novelty - (if s.deferred > 3 then 100 else 0) + (if s.completionRate > 0.9 then 200 else 0)
    ensures var t := Target(w, s);
      var fu, fi, ff, fn, fa := if u < 100 then 100 else u, if i < 100 then 100 else i, if f < 100 then 100 else f,
                                if n < 100 then 100 else n, if w.alignment < 100 then 100 else w.alignment;
      var sum := fu + fi + ff + fn + fa;
      && Nearest(t.urgency, fu, sum) && Nearest(t.impact, fi, sum) && Nearest(t.feasibility, ff, sum)
      && Nearest(t.novelty, fn, sum) && Nearest(t.alignment, fa, sum)
  {
    assert Adjusted(w, s) == Weights(u, i, f, n, w.alignment);
    NormalizedNearest(Floored(Weights(u, i, f, n, w.alignment)));
  }

  lemma NormalizedNearest(w: Weights)
    requires Sum(w) > 0
    ensures var t, sum := Normalized(w), Sum(w);
      && Nearest(t.urgency, w.urgency, sum) && Nearest(t.impact, w.impact, sum)
      && Nearest(t.feasibility, w.feasibility, sum) && Nearest(t.novelty, w.novelty, sum)
      && Nearest(t.alignment, w.alignment, sum)
  {
    ShareNearest(w.urgency, Sum(w));
    ShareNearest(w.impact, Sum(w));
    ShareNearest(w.feasibility, Sum(w));
    ShareNearest(w.novelty, Sum(w));
    ShareNearest(w.alignment, Sum(w));
  }

  /** r is x / sum in units of 1/10000, to the nearest unit. */
  predicate Nearest(r: int, x: int, sum: int) {
    -sum <= 2 * (10000 * x - r * sum) <= sum
  }

  lemma ShareNearest(x: int, sum: int)
    requires sum > 0
    ensures Nearest(Share(x, sum), x, sum)
  {
    ShareBounds(x, sum);
    assert 2 * sum * Share(x, sum) == 2 * (Share(x, sum) * sum);
  }

  /** Cycles in which goals are only too easy shift the defaults steadily to impact
      and novelty, until the tenth would take feasibility below 0.01. */
  lemma {:induction false} EasyCyclesShift(cycles: seq<Stats>)
    requires |cycles| <= 9
    requires forall k :: 0 <= k < |cycles| ==>
      cycles[k].completionRate > 0.9 && cycles[k].valueAccuracy >= 0.7 && cycles[k].deferred <= 3
    ensures var n := |cycles|;
      After(cycles) == Weights(2500 - 200 * n, 3000 + 200 * n, 2000 - 200 * n, 1000 + 200 * n, 1500)
  {
    if cycles != [] {
      EasyCyclesShift(cycles[..|cycles| - 1]);
      CycleMoves(After(cycles[..|cycles| - 1]), cycles[|cycles| - 1], false, false, true, false);
    }
  }

  // ----- what every run keeps -----

  lemma ShareBounds(x: int, sum: int)
    requires sum > 0
    ensures 2 * sum * Share(x, sum) <= 2 * ONE * x + sum < 2 * sum * Share(x, sum) + 2 * sum
  {}

  lemma TimesMonotone(a: int, b: int, m: int)
    requires a <= b && m >= 0
    ensures a * m <= b * m
  {}

  lemma ShareAtLeast(x: int, sum: int, low: int)
    requires sum > 0 && 2 * sum * low <= 2 * ONE * x + sum
    ensures low <= Share(x, sum)
  {
    ShareBounds(x, sum);
    if Share(x, sum) < low { TimesMonotone(Share(x, sum) + 1, low, 2 * sum); }
  }

  lemma FiveProducts(m: int, a: int, b: int, c: int, d: int, e: int)
    ensures m * a + m * b + m * c + m * d + m * e == m * (a + b + c + d + e)
  {}

  lemma QuotientNear(m: int, r: int, low: int, high: int)
    requires m > 0 && m * low < m * r < m * high
    ensures low < r < high
  {
    if r <= low { TimesMonotone(r, low, m); }
    if high <= r { TimesMonotone(high, r, m); }
  }

  /** Normalising and rounding alone is off by at most two units, whatever the
      weights were: only clamping can make a candidate fail validation. */
  lemma NormalizedValidates(w: Weights)
    requires Sum(w) > 0
    ensures ONE - 2 <= Sum(Normalized(w)) <= ONE + 2
  {
    var sum, n := Sum(w), Normalized(w);
    ShareBounds(w.urgency, sum);
    ShareBounds(w.impact, sum);
    ShareBounds(w.feasibility, sum);
    ShareBounds(w.novelty, sum);
    ShareBounds(w.alignment, sum);
    FiveProducts(2 * sum, n.urgency, n.impact, n.feasibility, n.novelty, n.alignment);
    QuotientNear(2 * sum, Sum(n), ONE - 3, ONE + 3);
  }

  lemma TargetValidates(w: Weights, s: Stats)
    ensures ONE - 2 <= Sum(Target(w, s)) <= ONE + 2 && Validates(Target(w, s))
  {
    NormalizedValidates(Floored(Adjusted(w, s)));
  }

  /** Without clamping the cycle adopts the target, so keeping the old weights
      means that some weight was to move by more than 0.05. */
  lemma OnlyClampingKeepsOldWeights(w: Weights, s: Stats)
    requires !Validates(Clamp(w, Target(w, s)))
    ensures !Moved(w, Target(w, s), MAX_DELTA)
  {
    TargetValidates(w, s);
  }

  predicate AllAtLeast(w: Weights, low: int) {
    w.urgency >= low && w.impact >= low && w.feasibility >= low && w.novelty >= low && w.alignment >= low
  }

  /** No weight differs by more than `step`. */
  predicate Moved(w: Weights, next: Weights, step: int) {
    && -step <= next.urgency - w.urgency <= step && -step <= next.impact - w.impact <= step
    && -step <= next.feasibility - w.feasibility <= step && -step <= next.novelty - w.novelty <= step
    && -step <= next.alignment - w.alignment <= step
  }

  /** Raising the small weights to 0.01 cannot push the sum past 1.1049. */
  lemma FlooredBounds(w: Weights, s: Stats)
    requires Validates(w) && AllAtLeast(w, FLOOR)
    ensures var f := Floored(Adjusted(w, s)); AllAtLeast(f, 100) && Sum(f) <= 11049
  {}

  lemma ShareAboveFloor(x: int, sum: int)
    requires x >= 100 && 0 < sum <= 11049
    ensures Share(x, sum) >= FLOOR
  {
    ShareAtLeast(x, sum, FLOOR);
  }

  lemma NormalizedAboveFloor(f: Weights)
    requires AllAtLeast(f, 100) && Sum(f) <= 11049
    ensures AllAtLeast(Normalized(f), FLOOR)
  {
    var sum := Sum(f);
    ShareAboveFloor(f.urgency, sum);
    ShareAboveFloor(f.impact, sum);
    ShareAboveFloor(f.feasibility, sum);
    ShareAboveFloor(f.novelty, sum);
    ShareAboveFloor(f.alignment, sum);
  }

  lemma TargetAboveFloor(w: Weights, s: Stats)
    requires Validates(w) && AllAtLeast(w, FLOOR)
    ensures AllAtLeast(Target(w, s), FLOOR)
  {
    FlooredBounds(w, s);
    NormalizedAboveFloor(Floored(Adjusted(w, s)));
  }

  lemma ClampKeepsFloor(w: Weights, target: Weights)
    requires AllAtLeast(w, FLOOR) && AllAtLeast(target, FLOOR)
    ensures AllAtLeast(Clamp(w, target), FLOOR) && Moved(w, Clamp(w, target), MAX_DELTA)
  {}

  lemma CycleKeepsBounds(w: Weights, s: Stats)
    requires Validates(w) && AllAtLeast(w, FLOOR)
    ensures Validates(Next(w, s)) && AllAtLeast(Next(w, s), FLOOR) && Moved(w, Next(w, s), MAX_DELTA)
  {
    TargetAboveFloor(w, s);
    ClampKeepsFloor(w, Target(w, s));
  }

  /** Over all runs of cycles from the defaults: the sum stays within 0.001 of 1,
      every weight stays above the floor, and no cycle moves a weight by more
      than 0.05. */
  lemma {:induction false} EveryRunKeepsBounds(cycles: seq<Stats>)
    ensures var w := After(cycles);
      && 9990 < w.urgency + w.impact + w.feasibility + w.novelty + w.alignment < 10010
      && w.urgency >= 91 && w.impact >= 91 && w.feasibility >= 91 && w.novelty >= 91 && w.alignment >= 91
    ensures cycles != [] ==> Moved(After(cycles[..|cycles| - 1]), After(cycles), 500)
  {
    if cycles != [] {
      EveryRunKeepsBounds(cycles[..|cycles| - 1]);
      CycleKeepsBounds(After(cycles[..|cycles| - 1]), cycles[|cycles| - 1]);
    }
  }

  lemma NormalizedKeepsExactSums(w: Weights)
    requires Sum(w) == ONE
    ensures Normalized(w) == w
  {}

  /** No adjusted weight needs raising to 0.01. */
  predicate NoFlooring(w: Weights, s: Stats) {
    Floored(Adjusted(w, s)) == Adjusted(w, s)
  }

  lemma UnflooredTarget(w: Weights, s: Stats)
    requires Sum(w) == ONE && NoFlooring(w, s)
    ensures Target(w, s) == Adjusted(w, s)
  {
    NormalizedKeepsExactSums(Adjusted(w, s));
  }

  /** When the loop stalls, for a cycle that floors nothing: exactly when no
      condition fires, or when the completion rate is too low together with one,
      but not both, of low accuracy and many deferred goals. */
  lemma StallsExactly(w: Weights, s: Stats)
    requires Sum(w) == ONE && NoFlooring(w, s)
    ensures Next(w, s) == w <==>
      || (!Inaccurate(s) && !Deferring(s) && !TooEasy(s) && !TooHard(s))
      || (TooHard(s) && (Inaccurate(s) != Deferring(s)))
  {
    UnflooredTarget(w, s);
  }

  /** Until the first cycle that floors a weight, sums stay exact, so StallsExactly
      speaks of every cycle up to then. */
  lemma {:induction false} SumsStayExact(cycles: seq<Stats>)
    requires forall k :: 0 <= k < |cycles| ==> NoFlooring(After(cycles[..k]), cycles[k])
    ensures Sum(After(cycles)) == ONE
  {
    if cycles != [] {
      var n := |cycles| - 1;
      forall k | 0 <= k < n ensures NoFlooring(After(cycles[..n][..k]), cycles[..n][k]) {
        assert cycles[..n][..k] == cycles[..k] && NoFlooring(After(cycles[..k]), cycles[k]);
      }
      SumsStayExact(cycles[..n]);
      ExactSumKept(After(cycles[..n]), cycles[n]);
    }
  }

  lemma ExactSumKept(w: Weights, s: Stats)
    requires Sum(w) == ONE && NoFlooring(w, s)
    ensures Sum(Next(w, s)) == ONE
  {
    UnflooredTarget(w, s);
  }

  /** What clamping takes off the target, added up. */
  function CutOff(w: Weights, target: Weights): int {
    Sum(target) - Sum(Clamp(w, target))
  }

  /** For any weights, flooring or not: the cycle stalls exactly when the target is
      where the weights are, or clamping throws the sum off by 0.001 or more. */
  lemma StallsByClamping(w: Weights, s: Stats)
    ensures Next(w, s) == w <==>
      || Target(w, s) == w
      || !(Sum(Target(w, s)) - ONE - 10 < CutOff(w, Target(w, s)) < Sum(Target(w, s)) - ONE + 10)
  {
    ClampFixed(w, Target(w, s));
  }

  lemma ClampFixed(w: Weights, target: Weights)
    ensures Clamp(w, target) == w <==> target == w
  {}

  /** Flooring can end a stall: with impact down at 0.06 poor results no longer cut
      it by more than 0.05, and the weights move. */
  lemma FlooringEndsStall(s: Stats)
    requires Inaccurate(s) && TooHard(s) && !Deferring(s)
    ensures Next(Weights(3000, 1600, 2400, 1500, 1500), s) == Weights(3000, 1600, 2400, 1500, 1500)
    ensures Next(Weights(3000, 600, 3400, 1500, 1500), s) == Weights(3069, 100, 3861, 1485, 1485)
  {
    StallsExactly(Weights(3000, 1600, 2400, 1500, 1500), s);
    var w := Weights(3000, 600, 3400, 1500, 1500);
    assert Floored(Adjusted(w, s)) == Weights(3100, 100, 3900, 1500, 1500);
    assert Share(3100, 10100) == 3069 && Share(100, 10100) == 99;
    assert Share(3900, 10100) == 3861 && Share(1500, 10100) == 1485;
    assert Target(w, s) == Weights(3069, 99, 3861, 1485, 1485);
  }

  /** Hence poor results in both respects, the worst the loop can see short of
      deferred goals, never change the default weights however often they repeat. */
  lemma {:induction false} PoorResultsNeverTune(cycles: seq<Stats>)
    requires forall k :: 0 <= k < |cycles| ==>
      Inaccurate(cycles[k]) && TooHard(cycles[k]) && !Deferring(cycles[k])
    ensures After(cycles) == DEFAULTS
  {
    if cycles != [] {
      PoorResultsNeverTune(cycles[..|cycles| - 1]);
      StallsExactly(DEFAULTS, cycles[|cycles| - 1]);
    }
  }
}
