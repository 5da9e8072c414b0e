/** Normalising, scoring and choosing among the actions of one epoch (magellan/scheduler/scoring.py). */
module Scoring {
  import opened Common
  import opened Costs
  import Sorting

  datatype Action = Continue | Pause | Migrate

  datatype Estimate = Estimate(
    action: Action,
    destination: Option<NodeId>,
    time: real,
    carbon: real,
    cost: real,
    idle: real)

  datatype Scored = Scored(estimate: Estimate, time: real, carbon: real, cost: real, score: real)

  datatype Range = Range(least: real, greatest: real)

  datatype Bounds = Bounds(time: Range, carbon: Range, cost: Range)

  /** The rolling bounds and adapted weights of a task, when adaptation is in use. */
  datatype Context = Context(bounds: Bounds, weights: Weights)

  // ---------- Normalising ----------

  function RangeOf(s: seq<real>): Range
    requires s != []
  {
    Range(Least(s), Greatest(s))
  }

  /** Where a value lies within a range, from 0 to 1. */
  function Position(value: real, r: Range): real {
    if r.greatest <= r.least then 0.0 else (value - r.least) / (r.greatest - r.least)
  }

  function MinMaxNormalize(values: seq<real>): seq<real> {
    if values == [] then []
    else seq(|values|, i requires 0 <= i < |values| => Position(values[i], RangeOf(values)))
  }

  function NormalizeWithBounds(values: seq<real>, r: Range): seq<real> {
    seq(|values|, i requires 0 <= i < |values| =>
      if r.greatest <= r.least then 0.0 else Clamp((values[i] - r.least) / (r.greatest - r.least), 0.0, 1.0))
  }

  // ---------- Scoring ----------

  function Times(es: seq<Estimate>): seq<real> {
    seq(|es|, i requires 0 <= i < |es| => es[i].time)
  }

  function Carbons(es: seq<Estimate>): seq<real> {
    seq(|es|, i requires 0 <= i < |es| => es[i].carbon)
  }

  function CostsOf(es: seq<Estimate>): seq<real> {
    seq(|es|, i requires 0 <= i < |es| => es[i].cost)
  }

  function Normalise(values: seq<real>, bounds: Option<Range>): (r: seq<real>)
    ensures |r| == |values|
  {
    match bounds
    case None => MinMaxNormalize(values)
    case Some(range) => NormalizeWithBounds(values, range)
  }

  function TimeBounds(context: Option<Context>): Option<Range> {
    if context.None? then None else Some(context.value.bounds.time)
  }

  function CarbonBounds(context: Option<Context>): Option<Range> {
    if context.None? then None else Some(context.value.bounds.carbon)
  }

  function CostBounds(context: Option<Context>): Option<Range> {
    if context.None? then None else Some(context.value.bounds.cost)
  }

  function WeightsFor(configured: Weights, context: Option<Context>): Weights
    requires ValidWeights(configured)
  {
    if context.None? then Normalized(configured) else context.value.weights
  }

  function Weighted(weight: real, value: real): real {
    weight * value
  }

  function WeightedSum(w: Weights, time: real, carbon: real, cost: real): real {
    Weighted(w.time, time) + Weighted(w.carbon, carbon) + Weighted(w.cost, cost)
  }

  /** The scored estimates, in the order given. */
  function ScoreEach(es: seq<Estimate>, configured: Weights, context: Option<Context>): (r: seq<Scored>)
    requires ValidWeights(configured)
    ensures |r| == |es| && forall i | 0 <= i < |es| :: r[i].estimate == es[i]
  {
    var times := Normalise(Times(es), TimeBounds(context));
    var carbons := Normalise(Carbons(es), CarbonBounds(context));
    var costs := Normalise(CostsOf(es), CostBounds(context));
    seq(|es|, i requires 0 <= i < |es| =>
      Scored(es[i], times[i], carbons[i], costs[i],
             WeightedSum(WeightsFor(configured, context), times[i], carbons[i], costs[i])))
  }

  predicate NotAfter(x: Scored, y: Scored) {
    x.score <= y.score
  }

  function SortedByScore(s: seq<Scored>): seq<Scored> {
    Sorting.Sorted(s, NotAfter)
  }

  method ScoreActions(es: seq<Estimate>, configured: Weights, context: Option<Context>) returns (ranked: seq<Scored>)
    requires ValidWeights(configured) && es != []
    ensures ranked == SortedByScore(ScoreEach(es, configured, context))
  {
    hide Normalise, WeightsFor, WeightedSum, SortedByScore;
    var times := Normalise(Times(es), TimeBounds(context));
    var carbons := Normalise(Carbons(es), CarbonBounds(context));
    var costs := Normalise(CostsOf(es), CostBounds(context));
    var w := WeightsFor(configured, context);
    ghost var all := ScoreEach(es, configured, context);
    var scored: seq<Scored> := [];
    for i := 0 to |es|
      invariant scored == all[..i]
    {
      var score := WeightedSum(w, times[i], carbons[i], costs[i]);
      scored := scored + [Scored(es[i], times[i], carbons[i], costs[i], score)];
      assert all[..i + 1] == all[..i] + [all[i]];
    }
    assert all[..|es|] == all;
    ranked := SortedByScore(scored);
  }

  predicate Ranked(s: seq<Scored>) {
    forall i, j | 0 <= i < j < |s| :: NotAfter(s[i], s[j])
  }

  lemma SortRanks(s: seq<Scored>)
    ensures Ranked(SortedByScore(s)) && multiset(SortedByScore(s)) == multiset(s)
  {
    assert Sorting.IsOrder(NotAfter);
    Sorting.SortedIsOrdered(s, NotAfter);
    var t := SortedByScore(s);
    forall i, j | 0 <= i < j < |t| ensures NotAfter(t[i], t[j]) {
    }
  }

  // ---------- Normalised values mean what they should ----------

  lemma PositionBounds(value: real, r: Range)
    requires r.least <= value <= r.greatest
    ensures 0.0 <= Position(value, r) <= 1.0
    ensures Clamp(Position(value, r), 0.0, 1.0) == Position(value, r)
  {
    if r.least < r.greatest {
      QuotientBounds(value - r.least, r.greatest - r.least);
    }
  }

  lemma QuotientBounds(x: real, y: real)
    requires 0.0 <= x <= y && y > 0.0
    ensures 0.0 <= x / y <= 1.0
  {
    assert x / y * y == x;
  }

  lemma QuotientGrows(x: real, x': real, y: real)
    requires x < x' && y > 0.0
    ensures x / y < x' / y
  {
    assert x / y * y == x && x' / y * y == x';
  }

  lemma PositionGrows(a: real, b: real, r: Range)
    requires r.least <= a <= b <= r.greatest
    ensures Position(a, r) <= Position(b, r)
    ensures a < b ==> Position(a, r) < Position(b, r)
  {
    if a < b {
      QuotientGrows(a - r.least, b - r.least, r.greatest - r.least);
    }
  }

  /** The range used for a metric contains every value of this epoch. */
  predicate Contains(bounds: Option<Range>, values: seq<real>) {
    bounds.Some? ==> forall i | 0 <= i < |values| :: bounds.value.least <= values[i] <= bounds.value.greatest
  }

  function EffectiveRange(values: seq<real>, bounds: Option<Range>): Range
    requires values != []
  {
    if bounds.Some? then bounds.value else RangeOf(values)
  }

  /** With bounds that contain the values, clamping changes nothing. */
  lemma NormalisedIsPosition(values: seq<real>, bounds: Option<Range>, i: nat)
    requires Contains(bounds, values) && i < |values|
    ensures Normalise(values, bounds)[i] == Position(values[i], EffectiveRange(values, bounds))
    ensures EffectiveRange(values, bounds).least <= values[i] <= EffectiveRange(values, bounds).greatest
  {
    PositionBounds(values[i], EffectiveRange(values, bounds));
  }

  lemma NormalisedIsMonotone(values: seq<real>, bounds: Option<Range>, i: nat, j: nat)
    requires Contains(bounds, values) && i < |values| && j < |values| && values[i] <= values[j]
    ensures 0.0 <= Normalise(values, bounds)[i] <= Normalise(values, bounds)[j] <= 1.0
    ensures values[i] < values[j] ==> Normalise(values, bounds)[i] < Normalise(values, bounds)[j]
  {
    hide Position, RangeOf, Normalise;
    var r := EffectiveRange(values, bounds);
    NormalisedIsPosition(values, bounds, i);
    NormalisedIsPosition(values, bounds, j);
    PositionBounds(values[i], r);
    PositionBounds(values[j], r);
    PositionGrows(values[i], values[j], r);
  }

  /** The context, if any, was prepared from an epoch that includes these estimates. */
  predicate Covers(context: Option<Context>, es: seq<Estimate>) {
    && Contains(TimeBounds(context), Times(es))
    && Contains(CarbonBounds(context), Carbons(es))
    && Contains(CostBounds(context), CostsOf(es))
  }

  predicate UnitWeights(w: Weights) {
    w.time >= 0.0 && w.carbon >= 0.0 && w.cost >= 0.0 && w.time + w.carbon + w.cost == 1.0
  }

  lemma NormalizedIsUnit(w: Weights)
    requires ValidWeights(w)
    ensures UnitWeights(Normalized(w))
  {
    var total := w.time + w.carbon + w.cost;
    QuotientBounds(w.time, total);
    QuotientBounds(w.carbon, total);
    QuotientBounds(w.cost, total);
    assert w.time / total + w.carbon / total + w.cost / total == total / total;
  }

  // ---------- Dominance ----------

  /** `a` is no worse than `b` in any metric, and better in one that carries weight. */
  predicate Dominates(a: Estimate, b: Estimate, w: Weights) {
    && a.time <= b.time && a.carbon <= b.carbon && a.cost <= b.cost
    && (|| (a.time < b.time && w.time > 0.0) || (a.carbon < b.carbon && w.carbon > 0.0)
        || (a.cost < b.cost && w.cost > 0.0))
  }

  lemma WeightedMonotone(w: real, x: real, y: real)
    requires w >= 0.0 && x <= y
    ensures Weighted(w, x) <= Weighted(w, y)
    ensures w > 0.0 && x < y ==> Weighted(w, x) < Weighted(w, y)
    ensures Weighted(w, 0.0) == 0.0 && Weighted(w, 1.0) == w
  {
    ProductNonNegative(w, y - x);
    if w > 0.0 && x < y {
      WeightedStrict(w, x, y);
    }
  }

  lemma WeightedStrict(w: real, x: real, y: real)
    requires w > 0.0 && x < y
    ensures Weighted(w, x) < Weighted(w, y)
  {
    var d := y - x;
    ProductPositive(w, d);
    assert w * y == w * (x + d) == w * x + w * d;
  }

  lemma DominantScoresLess(es: seq<Estimate>, configured: Weights, context: Option<Context>, i: nat, j: nat)
    requires ValidWeights(configured) && Covers(context, es) && i < |es| && j < |es|
    requires UnitWeights(WeightsFor(configured, context))
    requires Dominates(es[i], es[j], WeightsFor(configured, context))
    ensures ScoreEach(es, configured, context)[i].score < ScoreEach(es, configured, context)[j].score
  {
    hide Normalise, Contains, WeightsFor, Weighted;
    var w := WeightsFor(configured, context);
    var times := Normalise(Times(es), TimeBounds(context));
    var carbons := Normalise(Carbons(es), CarbonBounds(context));
    var costs := Normalise(CostsOf(es), CostBounds(context));
    NormalisedIsMonotone(Times(es), TimeBounds(context), i, j);
    NormalisedIsMonotone(Carbons(es), CarbonBounds(context), i, j);
    NormalisedIsMonotone(CostsOf(es), CostBounds(context), i, j);
    WeightedMonotone(w.time, times[i], times[j]);
    WeightedMonotone(w.carbon, carbons[i], carbons[j]);
    WeightedMonotone(w.cost, costs[i], costs[j]);
  }

  lemma LowerScoreIsEarlier(ranked: seq<Scored>, p: nat, q: nat)
    requires Ranked(ranked) && p < |ranked| && q < |ranked| && ranked[p].score < ranked[q].score
    ensures p < q
  {
    assert forall j | q < j < |ranked| :: NotAfter(ranked[q], ranked[j]);
  }

  /** A dominating action is ranked strictly before the one it dominates. */
  lemma DominantRanksFirst(es: seq<Estimate>, configured: Weights, context: Option<Context>, p: nat, q: nat)
    requires ValidWeights(configured) && Covers(context, es)
    requires UnitWeights(WeightsFor(configured, context))
    requires p < |es| && q < |es| && |SortedByScore(ScoreEach(es, configured, context))| == |es|
    requires var ranked := SortedByScore(ScoreEach(es, configured, context));
             Dominates(ranked[p].estimate, ranked[q].estimate, WeightsFor(configured, context))
    ensures p < q
  {
    hide Covers, WeightsFor, Dominates, UnitWeights, ScoreEach, SortedByScore;
    var scored := ScoreEach(es, configured, context);
    var ranked := SortedByScore(scored);
    SortRanks(scored);
    assert ranked[p] in multiset(scored) && ranked[q] in multiset(scored);
    var i :| 0 <= i < |scored| && scored[i] == ranked[p];
    var j :| 0 <= j < |scored| && scored[j] == ranked[q];
    DominantScoresLess(es, configured, context, i, j);
    LowerScoreIsEarlier(ranked, p, q);
  }

  /** Scores lie between 0 and 1. */
  lemma ScoreIsUnit(es: seq<Estimate>, configured: Weights, context: Option<Context>, i: nat)
    requires ValidWeights(configured) && Covers(context, es) && i < |es|
    requires UnitWeights(WeightsFor(configured, context))
    ensures 0.0 <= ScoreEach(es, configured, context)[i].score <= 1.0
  {
    hide Normalise, Contains, WeightsFor, Weighted;
    var w := WeightsFor(configured, context);
    var times := Normalise(Times(es), TimeBounds(context));
    var carbons := Normalise(Carbons(es), CarbonBounds(context));
    var costs := Normalise(CostsOf(es), CostBounds(context));
    NormalisedIsMonotone(Times(es), TimeBounds(context), i, i);
    NormalisedIsMonotone(Carbons(es), CarbonBounds(context), i, i);
    NormalisedIsMonotone(CostsOf(es), CostBounds(context), i, i);
    WeightedMonotone(w.time, 0.0, times[i]);
    WeightedMonotone(w.time, times[i], 1.0);
    WeightedMonotone(w.carbon, 0.0, carbons[i]);
    WeightedMonotone(w.carbon, carbons[i], 1.0);
    WeightedMonotone(w.cost, 0.0, costs[i]);
    WeightedMonotone(w.cost, costs[i], 1.0);
  }

  // ---------- What a score is ----------

  /** `x` is where `value` lies within `r`: 0 at the least value, 1 at the greatest, and linear between. */
  predicate LiesAt(x: real, value: real, r: Range) {
    if r.least < r.greatest then r.least + x * (r.greatest - r.least) == value else x == 0.0
  }

  lemma NormalisedLiesAt(values: seq<real>, bounds: Option<Range>, i: nat)
    requires Contains(bounds, values) && i < |values|
    ensures LiesAt(Normalise(values, bounds)[i], values[i], EffectiveRange(values, bounds))
  {
    hide Normalise, EffectiveRange;
    NormalisedIsPosition(values, bounds, i);
    var r := EffectiveRange(values, bounds);
    if r.least < r.greatest {
      assert (values[i] - r.least) / (r.greatest - r.least) * (r.greatest - r.least) == values[i] - r.least;
    }
  }

  /** A score is the weighted sum of where the estimate lies among the others, or within the context's bounds. */
  lemma ScoreIsWeightedSum(es: seq<Estimate>, configured: Weights, context: Option<Context>, i: nat)
    requires ValidWeights(configured) && Covers(context, es) && i < |es|
    ensures var w := if context.None? then Normalized(configured) else context.value.weights;
            var x := ScoreEach(es, configured, context)[i];
            && LiesAt(x.time, es[i].time, EffectiveRange(Times(es), TimeBounds(context)))
            && LiesAt(x.carbon, es[i].carbon, EffectiveRange(Carbons(es), CarbonBounds(context)))
            && LiesAt(x.cost, es[i].cost, EffectiveRange(CostsOf(es), CostBounds(context)))
            && x.score == w.time * x.time + w.carbon * x.carbon + w.cost * x.cost
  {
    hide Normalise, Contains, LiesAt, EffectiveRange;
    NormalisedLiesAt(Times(es), TimeBounds(context), i);
    NormalisedLiesAt(Carbons(es), CarbonBounds(context), i);
    NormalisedLiesAt(CostsOf(es), CostBounds(context), i);
  }

  // ---------- Units do not matter ----------

  function Rescale(value: real, factor: real, shift: real): real {
    factor * value + shift
  }

  function Rescaled(values: seq<real>, factor: real, shift: real): seq<real> {
    seq(|values|, i requires 0 <= i < |values| => Rescale(values[i], factor, shift))
  }

  lemma RescaleKeepsOrder(x: real, y: real, factor: real, shift: real)
    requires factor > 0.0
    ensures x <= y <==> Rescale(x, factor, shift) <= Rescale(y, factor, shift)
  {
    if x <= y {
      WeightedMonotone(factor, x, y);
    } else {
      WeightedMonotone(factor, y, x);
    }
  }

  lemma LeastIs(s: seq<real>, x: real)
    requires s != [] && x in s && forall i | 0 <= i < |s| :: x <= s[i]
    ensures Least(s) == x
  {
    hide Least;
  }

  lemma GreatestIs(s: seq<real>, x: real)
    requires s != [] && x in s && forall i | 0 <= i < |s| :: s[i] <= x
    ensures Greatest(s) == x
  {
    hide Greatest;
  }

  lemma RangeRescaled(values: seq<real>, factor: real, shift: real)
    requires values != [] && factor > 0.0
    ensures RangeOf(Rescaled(values, factor, shift))
            == Range(Rescale(Least(values), factor, shift), Rescale(Greatest(values), factor, shift))
  {
    hide Rescale, Least, Greatest;
    var scaled := Rescaled(values, factor, shift);
    var least, greatest := Least(values), Greatest(values);
    var i :| 0 <= i < |values| && values[i] == least;
    var j :| 0 <= j < |values| && values[j] == greatest;
    assert scaled[i] in scaled && scaled[j] in scaled;
    forall k | 0 <= k < |scaled|
      ensures Rescale(least, factor, shift) <= scaled[k] <= Rescale(greatest, factor, shift)
    {
      RescaleKeepsOrder(least, values[k], factor, shift);
      RescaleKeepsOrder(values[k], greatest, factor, shift);
    }
    LeastIs(scaled, Rescale(least, factor, shift));
    GreatestIs(scaled, Rescale(greatest, factor, shift));
  }

  lemma QuotientRescaled(x: real, y: real, factor: real)
    requires factor > 0.0 && y > 0.0
    ensures factor * y > 0.0 && factor * x / (factor * y) == x / y
  {
    var q, d := x / y, factor * y;
    assert q * y == x;
    ProductPositive(factor, y);
    assert factor * x == q * d;
    CancelFactor(q, d);
  }

  lemma CancelFactor(q: real, d: real)
    requires d > 0.0
    ensures q * d / d == q
  {
  }

  lemma RescaledDifference(x: real, y: real, factor: real, shift: real)
    ensures Rescale(x, factor, shift) - Rescale(y, factor, shift) == factor * (x - y)
  {
  }

  lemma PositionRescaled(value: real, r: Range, factor: real, shift: real)
    requires factor > 0.0
    ensures Position(Rescale(value, factor, shift),
                     Range(Rescale(r.least, factor, shift), Rescale(r.greatest, factor, shift)))
            == Position(value, r)
  {
    hide Rescale;
    RescaleKeepsOrder(r.greatest, r.least, factor, shift);
    if r.least < r.greatest {
      QuotientRescaled(value - r.least, r.greatest - r.least, factor);
      RescaledDifference(value, r.least, factor, shift);
      RescaledDifference(r.greatest, r.least, factor, shift);
    }
  }

  lemma NormaliseIgnoresUnits(values: seq<real>, factor: real, shift: real)
    requires factor > 0.0
    ensures MinMaxNormalize(Rescaled(values, factor, shift)) == MinMaxNormalize(values)
  {
    hide Position, Rescale, RangeOf;
    if values != [] {
      RangeRescaled(values, factor, shift);
      var scaled := Rescaled(values, factor, shift);
      assert RangeOf(values) == Range(Least(values), Greatest(values)) by { RangeIs(values); }
      forall i | 0 <= i < |values|
        ensures Position(scaled[i], RangeOf(scaled)) == Position(values[i], RangeOf(values))
      {
        PositionRescaled(values[i], RangeOf(values), factor, shift);
      }
    }
  }

  lemma RangeIs(values: seq<real>)
    requires values != []
    ensures RangeOf(values) == Range(Least(values), Greatest(values))
  {
  }

  /** The same estimates with each metric in other units. */
  ghost predicate RescaledEstimates(es: seq<Estimate>, es': seq<Estimate>, factors: Weights, shifts: Weights) {
    && |es| == |es'|
    && Times(es') == Rescaled(Times(es), factors.time, shifts.time)
    && Carbons(es') == Rescaled(Carbons(es), factors.carbon, shifts.carbon)
    && CostsOf(es') == Rescaled(CostsOf(es), factors.cost, shifts.cost)
  }

  /** Without an adaptive context, changing the units or the origin of any metric leaves every score as it is. */
  lemma ScoresIgnoreUnits(es: seq<Estimate>, es': seq<Estimate>, factors: Weights, shifts: Weights, w: Weights, i: nat)
    requires ValidWeights(w) && RescaledEstimates(es, es', factors, shifts) && i < |es|
    requires factors.time > 0.0 && factors.carbon > 0.0 && factors.cost > 0.0
    ensures ScoreEach(es', w, None)[i].score == ScoreEach(es, w, None)[i].score
  {
    hide MinMaxNormalize, Rescaled, Weighted;
    NormaliseIgnoresUnits(Times(es), factors.time, shifts.time);
    NormaliseIgnoresUnits(Carbons(es), factors.carbon, shifts.carbon);
    NormaliseIgnoresUnits(CostsOf(es), factors.cost, shifts.cost);
  }

  // ---------- Choosing ----------

  datatype Gaps = Gaps(pause: real, migration: real, requiredImprovement: real)

  datatype Recent = Recent(lastPause: Option<real>, lastMigration: Option<real>)

  datatype Reason = PauseBest | PauseTooSoon | ContinueBest | MigrationTooSoon | BelowHysteresis | MigrationBest

  datatype Choice = Choice(selected: Scored, reason: Reason)

  predicate IsLocal(s: Scored) {
    !s.estimate.action.Migrate?
  }

  predicate IsContinue(s: Scored) {
    s.estimate.action.Continue?
  }

  function FirstWith(s: seq<Scored>, keep: Scored -> bool): (x: Scored)
    requires exists i :: 0 <= i < |s| && keep(s[i])
    ensures x in s && keep(x)
  {
    if keep(s[0]) then s[0]
    else
      assert forall i | 1 <= i < |s| :: s[i] == s[1..][i - 1];
      FirstWith(s[1..], keep)
  }

  /** `min(local_actions, key=score)`: the first of the local actions with the least score. */
  function BestLocal(s: seq<Scored>): (x: Scored)
    requires exists i :: 0 <= i < |s| && IsLocal(s[i])
    ensures x in s && IsLocal(x) && forall i | 0 <= i < |s| && IsLocal(s[i]) :: x.score <= s[i].score
  {
    if exists i :: 0 <= i < |s[1..]| && IsLocal(s[1..][i]) then
      var rest := BestLocal(s[1..]);
      assert forall i | 1 <= i < |s| :: s[i] == s[1..][i - 1];
      if IsLocal(s[0]) && s[0].score <= rest.score then s[0] else rest
    else
      assert forall i | 1 <= i < |s| :: s[i] == s[1..][i - 1];
      s[0]
  }

  predicate WithinGap(last: Option<real>, now: real, gap: real) {
    last.Some? && now - last.value < gap
  }

  function Improvement(local: Scored, overall: Scored): real {
    (local.score - overall.score) / MaxReal(local.score, TOLERANCE)
  }

  predicate HasContinue(s: seq<Scored>) {
    exists i :: 0 <= i < |s| && IsContinue(s[i])
  }

  function ChooseAction(ranked: seq<Scored>, recent: Recent, gaps: Gaps, now: real): (c: Choice)
    requires HasContinue(ranked)
    ensures c.selected in ranked
    ensures c.selected.estimate.action.Migrate? ==> !WithinGap(recent.lastMigration, now, gaps.migration)
  {
    var i :| 0 <= i < |ranked| && IsContinue(ranked[i]);
    assert IsLocal(ranked[i]);
    var local := BestLocal(ranked);
    var overall := ranked[0];
    match overall.estimate.action
    case Pause =>
      if WithinGap(recent.lastPause, now, gaps.pause)
      then Choice(FirstWith(ranked, IsContinue), PauseTooSoon)
      else Choice(overall, PauseBest)
    case Continue => Choice(overall, ContinueBest)
    case Migrate =>
      if WithinGap(recent.lastMigration, now, gaps.migration) then Choice(local, MigrationTooSoon)
      else if Improvement(local, overall) < gaps.requiredImprovement then Choice(local, BelowHysteresis)
      else Choice(overall, MigrationBest)
  }

  // ---------- The choice in terms of the estimates ----------

  predicate IsAny(s: Scored) {
    true
  }

  ghost predicate Has(s: seq<Scored>, keep: Scored -> bool) {
    exists i :: 0 <= i < |s| && keep(s[i])
  }

  /** Among the entries of interest, the `m`-th scores least; of several that do, it was listed first. */
  ghost predicate IsBest(s: seq<Scored>, keep: Scored -> bool, m: nat) {
    && m < |s| && keep(s[m])
    && (forall i | 0 <= i < |s| && keep(s[i]) :: s[m].score <= s[i].score)
    && (forall i | 0 <= i < m && keep(s[i]) :: s[m].score < s[i].score)
  }

  /** The best of a list is its first entry or the best of the others. */
  lemma BestOfCons(s: seq<Scored>, keep: Scored -> bool, k: nat)
    requires s != [] && IsBest(s[1..], keep, k)
    ensures IsBest(s, keep, if keep(s[0]) && s[0].score <= s[k + 1].score then 0 else k + 1)
  {
    assert forall i | 1 <= i < |s| :: s[i] == s[1..][i - 1];
  }

  lemma BestAlone(s: seq<Scored>, keep: Scored -> bool)
    requires s != [] && !Has(s[1..], keep) && Has(s, keep)
    ensures IsBest(s, keep, 0)
  {
    assert forall i | 1 <= i < |s| :: s[i] == s[1..][i - 1];
  }

  lemma {:induction false} BestExists(s: seq<Scored>, keep: Scored -> bool) returns (m: nat)
    requires Has(s, keep)
    ensures IsBest(s, keep, m)
  {
    if Has(s[1..], keep) {
      var k := BestExists(s[1..], keep);
      BestOfCons(s, keep, k);
      m := if keep(s[0]) && s[0].score <= s[k + 1].score then 0 else k + 1;
    } else {
      BestAlone(s, keep);
      m := 0;
    }
  }

  lemma BestInList(s: seq<Scored>, m: nat, keep: Scored -> bool)
    requires IsBest(s, keep, m)
    ensures m < |s| && keep(s[m])
  {
  }

  lemma BestIsUnique(s: seq<Scored>, keep: Scored -> bool, m: nat, k: nat)
    requires IsBest(s, keep, m) && IsBest(s, keep, k)
    ensures m == k
  {
  }

  /** The first entry of interest, one entry at a time. */
  lemma FirstOfCons(x: Scored, t: seq<Scored>, keep: Scored -> bool)
    requires keep(x) || Has(t, keep)
    ensures Has([x] + t, keep)
    ensures FirstWith([x] + t, keep) == if keep(x) then x else FirstWith(t, keep)
  {
    var u := [x] + t;
    assert u[1..] == t && u[0] == x;
    if !keep(x) {
      var i :| 0 <= i < |t| && keep(t[i]);
      assert u[i + 1] == t[i];
    }
  }

  /** The first entry of interest of a ranking scores least among them. */
  lemma {:induction false} FirstIsLeast(s: seq<Scored>, keep: Scored -> bool)
    requires Ranked(s) && Has(s, keep)
    ensures forall i | 0 <= i < |s| && keep(s[i]) :: FirstWith(s, keep).score <= s[i].score
  {
    if !keep(s[0]) {
      assert forall i | 1 <= i < |s| :: s[i] == s[1..][i - 1];
      FirstIsLeast(s[1..], keep);
    }
  }

  /** Inserting `x` changes the first entry of interest exactly when `x` is one and none scores less. */
  lemma {:induction false} InsertFirst(x: Scored, t: seq<Scored>, keep: Scored -> bool)
    requires Ranked(t) && (keep(x) || Has(t, keep))
    ensures var u := Sorting.Insert(x, t, NotAfter);
            Has(u, keep) && FirstWith(u, keep) ==
              if keep(x) && (Has(t, keep) ==> x.score <= FirstWith(t, keep).score) then x else FirstWith(t, keep)
  {
    var u := Sorting.Insert(x, t, NotAfter);
    if t == [] || NotAfter(x, t[0]) {
      assert u == [x] + t;
      FirstOfCons(x, t, keep);
      if Has(t, keep) {
        FirstIsLeast(t, keep);
        assert FirstWith(t, keep) in t;
      }
    } else {
      var tail := t[1..];
      assert t == [t[0]] + tail && u == [t[0]] + Sorting.Insert(x, tail, NotAfter);
      assert forall i | 1 <= i < |t| :: t[i] == tail[i - 1];
      if keep(x) || Has(tail, keep) {
        InsertFirst(x, tail, keep);
      }
      FirstOfCons(t[0], Sorting.Insert(x, tail, NotAfter), keep);
      if keep(t[0]) || Has(tail, keep) {
        FirstOfCons(t[0], tail, keep);
      }
    }
  }

  lemma NoneKept(s: seq<Scored>, keep: Scored -> bool)
    requires !Has(s, keep)
    ensures !Has(SortedByScore(s), keep)
  {
    SortRanks(s);
    hide SortedByScore;
    var ranked := SortedByScore(s);
    forall i | 0 <= i < |ranked| ensures !keep(ranked[i]) {
      assert ranked[i] in multiset(s);
    }
  }

  /** The ranking's first entry of interest is the best of them in the list that was ranked. */
  lemma {:induction false} BestComesFirst(s: seq<Scored>, keep: Scored -> bool, m: nat)
    requires IsBest(s, keep, m)
    ensures Has(SortedByScore(s), keep) && FirstWith(SortedByScore(s), keep) == s[m]
    decreases |s|
  {
    hide Ranked;
    BestInList(s, m, keep);
    hide IsBest;
    var tail := s[1..];
    SortRanks(tail);
    if Has(tail, keep) {
      var k := BestExists(tail, keep);
      BestInList(tail, k, keep);
      BestComesFirst(tail, keep, k);
      BestOfCons(s, keep, k);
      BestIsUnique(s, keep, m, if keep(s[0]) && s[0].score <= s[k + 1].score then 0 else k + 1);
    } else {
      NoneKept(tail, keep);
      BestAlone(s, keep);
      BestIsUnique(s, keep, m, 0);
    }
    InsertFirst(s[0], SortedByScore(tail), keep);
  }

  lemma {:induction false} BestLocalIsFirst(s: seq<Scored>)
    requires Ranked(s) && Has(s, IsLocal)
    ensures BestLocal(s) == FirstWith(s, IsLocal)
  {
    FirstIsLeast(s, IsLocal);
    if !IsLocal(s[0]) {
      assert forall i | 1 <= i < |s| :: s[i] == s[1..][i - 1];
      BestLocalIsFirst(s[1..]);
    }
  }

  /** What `choose_action` looks at in the ranking, in terms of the list that was ranked. */
  lemma RankingShows(s: seq<Scored>, o: nat, l: nat, k: nat)
    requires IsBest(s, IsAny, o) && IsBest(s, IsLocal, l) && IsBest(s, IsContinue, k)
    ensures var ranked := SortedByScore(s);
            && HasContinue(ranked) && Has(ranked, IsLocal)
            && ranked[0] == s[o] && BestLocal(ranked) == s[l] && FirstWith(ranked, IsContinue) == s[k]
  {
    hide SortedByScore, IsBest;
    SortRanks(s);
    BestComesFirst(s, IsAny, o);
    BestComesFirst(s, IsLocal, l);
    BestComesFirst(s, IsContinue, k);
    BestLocalIsFirst(SortedByScore(s));
  }

  /** Any list with a continuation has a best action, a best local one and a best continuation. */
  lemma BestOfEach(s: seq<Scored>) returns (o: nat, l: nat, k: nat)
    requires HasContinue(s)
    ensures IsBest(s, IsAny, o) && IsBest(s, IsLocal, l) && IsBest(s, IsContinue, k)
  {
    hide IsBest;
    var i :| 0 <= i < |s| && IsContinue(s[i]);
    assert IsAny(s[i]) && IsLocal(s[i]);
    o := BestExists(s, IsAny);
    l := BestExists(s, IsLocal);
    k := BestExists(s, IsContinue);
  }

  /** Moving from `l` to `o` is barred: the last move is too recent, or the gain is too small. */
  predicate MoveRefused(l: Scored, o: Scored, recent: Recent, gaps: Gaps, now: real) {
    || (recent.lastMigration.Some? && now - recent.lastMigration.value < gaps.migration)
    || l.score - o.score < gaps.requiredImprovement * MaxReal(l.score, 0.000000000001)
  }

  lemma ImprovementFallsShort(l: Scored, o: Scored, required: real)
    ensures Improvement(l, o) < required <==> l.score - o.score < required * MaxReal(l.score, 0.000000000001)
  {
    var gain, scale := l.score - o.score, MaxReal(l.score, TOLERANCE);
    var ratio := gain / scale;
    assert ratio * scale == gain;
    if ratio < required {
      ProductPositive(required - ratio, scale);
    } else {
      ProductNonNegative(ratio - required, scale);
    }
  }

  /** The `o`-th entry is a move that scores least of all, the `l`-th the best way to stay. */
  ghost predicate MoveWins(s: seq<Scored>, o: nat, l: nat) {
    IsBest(s, IsAny, o) && IsBest(s, IsLocal, l) && s[o].estimate.action.Migrate?
  }

  /**
   The decision on a list, whatever its order, from its best action `o`, its best way to stay `l` and its best
   continuation `k`.
   */
  ghost predicate Decides(s: seq<Scored>, o: nat, l: nat, k: nat, recent: Recent, gaps: Gaps, now: real, c: Choice) {
    && IsBest(s, IsAny, o) && IsBest(s, IsLocal, l) && IsBest(s, IsContinue, k)
    && match s[o].estimate.action
       case Continue => c == Choice(s[o], ContinueBest)
       case Pause =>
         if recent.lastPause.Some? && now - recent.lastPause.value < gaps.pause then c == Choice(s[k], PauseTooSoon)
         else c == Choice(s[o], PauseBest)
       case Migrate =>
         if !MoveRefused(s[l], s[o], recent, gaps, now) then c == Choice(s[o], MigrationBest)
         else c.selected == s[l] && (c.reason.MigrationTooSoon? || c.reason.BelowHysteresis?)
  }

  ghost predicate Chosen(s: seq<Scored>, recent: Recent, gaps: Gaps, now: real, c: Choice) {
    exists o: nat, l: nat, k: nat :: Decides(s, o, l, k, recent, gaps, now, c)
  }

  /** What is chosen, by what scores least in the list that was ranked. */
  lemma ChoiceShows(s: seq<Scored>, recent: Recent, gaps: Gaps, now: real) returns (o: nat, l: nat, k: nat)
    requires HasContinue(s)
    ensures HasContinue(SortedByScore(s))
    ensures Decides(s, o, l, k, recent, gaps, now, ChooseAction(SortedByScore(s), recent, gaps, now))
    ensures forall o': nat, l': nat :: MoveWins(s, o', l') ==> o' == o && l' == l
  {
    hide SortedByScore, IsBest, Improvement;
    o, l, k := BestOfEach(s);
    RankingShows(s, o, l, k);
    BestInList(s, o, IsAny);
    BestInList(s, l, IsLocal);
    BestInList(s, k, IsContinue);
    ImprovementFallsShort(s[l], s[o], gaps.requiredImprovement);
    forall o': nat, l': nat | MoveWins(s, o', l') ensures o' == o && l' == l {
      BestIsUnique(s, IsAny, o, o');
      BestIsUnique(s, IsLocal, l, l');
    }
  }

  /** The ranking decides as the list does. */
  lemma ChoiceIsChosen(es: seq<Estimate>, w: Weights, context: Option<Context>, recent: Recent, gaps: Gaps, now: real)
    requires ValidWeights(w) && HasContinue(ScoreEach(es, w, context))
    ensures HasContinue(SortedByScore(ScoreEach(es, w, context)))
    ensures var all := ScoreEach(es, w, context);
            Chosen(all, recent, gaps, now, ChooseAction(SortedByScore(all), recent, gaps, now))
  {
    hide ScoreEach, SortedByScore, ChooseAction, Decides;
    var o, l, k := ChoiceShows(ScoreEach(es, w, context), recent, gaps, now);
  }

  /**
   Of any estimates, whatever their order: the task moves exactly when a move scores least of all, ties going to what
   was listed first, the last move is long enough ago, and the gain over the best way to stay is large enough.
   */
  lemma MigratesExactlyWhen(es: seq<Estimate>, w: Weights, context: Option<Context>, recent: Recent, gaps: Gaps,
                            now: real)
    requires ValidWeights(w) && HasContinue(ScoreEach(es, w, context))
    ensures HasContinue(SortedByScore(ScoreEach(es, w, context)))
    ensures var all := ScoreEach(es, w, context);
            ChooseAction(SortedByScore(all), recent, gaps, now).selected.estimate.action.Migrate?
            <==> exists o: nat, l: nat :: MoveWins(all, o, l) && !MoveRefused(all[l], all[o], recent, gaps, now)
  {
    hide ScoreEach, SortedByScore, ChooseAction, MoveRefused, IsBest;
    var all := ScoreEach(es, w, context);
    var o, l, k := ChoiceShows(all, recent, gaps, now);
    BestInList(all, o, IsAny);
    BestInList(all, l, IsLocal);
    BestInList(all, k, IsContinue);
    assert all[o].estimate.action.Migrate? ==> MoveWins(all, o, l);
  }

  /**
   Pauses are not spaced as migrations are: inside the pause gap the task still pauses exactly when a move scores
   least of all but is refused, and the best way to stay is a pause.
   */
  lemma PausesInsideGapExactlyWhen(es: seq<Estimate>, w: Weights, context: Option<Context>, recent: Recent, gaps: Gaps,
                                   now: real)
    requires ValidWeights(w) && HasContinue(ScoreEach(es, w, context)) && WithinGap(recent.lastPause, now, gaps.pause)
    ensures HasContinue(SortedByScore(ScoreEach(es, w, context)))
    ensures var all := ScoreEach(es, w, context);
            ChooseAction(SortedByScore(all), recent, gaps, now).selected.estimate.action.Pause?
            <==> exists o: nat, l: nat :: MoveWins(all, o, l) && MoveRefused(all[l], all[o], recent, gaps, now)
                                          && all[l].estimate.action.Pause?
  {
    hide ScoreEach, SortedByScore, ChooseAction, MoveRefused, IsBest;
    var all := ScoreEach(es, w, context);
    var o, l, k := ChoiceShows(all, recent, gaps, now);
    BestInList(all, o, IsAny);
    BestInList(all, l, IsLocal);
    BestInList(all, k, IsContinue);
    assert all[o].estimate.action.Migrate? ==> MoveWins(all, o, l);
  }

  /** Going on costs carbon, a pause costs time and less carbon, a move costs less time than the pause and no carbon. */
  function ThreeWays(): seq<Estimate> {
    [Estimate(Continue, None, 0.0, 10.0, 0.0, 0.0), Estimate(Pause, None, 10.0, 2.0, 0.0, 600.0),
     Estimate(Migrate, Some(1), 5.0, 0.0, 0.0, 0.0)]
  }

  lemma RangeOfThree(a: real, b: real, c: real, r: Range)
    requires r.least <= a <= r.greatest && r.least <= b <= r.greatest && r.least <= c <= r.greatest
    requires r.least in [a, b, c] && r.greatest in [a, b, c]
    ensures RangeOf([a, b, c]) == r
  {
    var s := [a, b, c];
    assert s[0] == a && s[1] == b && s[2] == c;
  }

  lemma ThreeNormalised()
    ensures Normalise(Times(ThreeWays()), None) == [0.0, 1.0, 0.5]
    ensures Normalise(Carbons(ThreeWays()), None) == [1.0, 0.2, 0.0]
    ensures Normalise(CostsOf(ThreeWays()), None) == [0.0, 0.0, 0.0]
  {
    hide Least, Greatest, RangeOf;
    assert Times(ThreeWays()) == [0.0, 10.0, 5.0];
    assert Carbons(ThreeWays()) == [10.0, 2.0, 0.0];
    assert CostsOf(ThreeWays()) == [0.0, 0.0, 0.0];
    RangeOfThree(0.0, 10.0, 5.0, Range(0.0, 10.0));
    RangeOfThree(10.0, 2.0, 0.0, Range(0.0, 10.0));
    RangeOfThree(0.0, 0.0, 0.0, Range(0.0, 0.0));
  }

  lemma OneIsNormal(w: Weights)
    requires ValidWeights(w) && w.time + w.carbon + w.cost == 1.0
    ensures Normalized(w) == w
  {
  }

  lemma ThreeSums(w: Weights)
    requires w == Weights(0.2, 0.8, 0.0)
    ensures WeightedSum(w, 0.0, 1.0, 0.0) == 0.8 && WeightedSum(w, 1.0, 0.2, 0.0) == 0.36
    ensures WeightedSum(w, 0.5, 0.0, 0.0) == 0.1
  {
    assert w.time == 0.2 && w.carbon == 0.8 && w.cost == 0.0;
    assert Weighted(0.2, 1.0) == 0.2 && Weighted(0.8, 0.2) == 0.16 && Weighted(0.2, 0.5) == 0.1;
    assert Weighted(0.8, 1.0) == 0.8 && Weighted(0.2, 0.0) == 0.0 && Weighted(0.8, 0.0) == 0.0;
    assert Weighted(0.0, 0.0) == 0.0;
    hide Weighted;
  }

  lemma ThreeScores()
    ensures ValidWeights(Weights(0.2, 0.8, 0.0))
    ensures var all := ScoreEach(ThreeWays(), Weights(0.2, 0.8, 0.0), None);
            |all| == 3 && all[0].score == 0.8 && all[1].score == 0.36 && all[2].score == 0.1
  {
    hide Normalise, Times, Carbons, CostsOf, WeightedSum, Normalized;
    ThreeNormalised();
    OneIsNormal(Weights(0.2, 0.8, 0.0));
    ThreeSums(Weights(0.2, 0.8, 0.0));
  }

  /** ... and it can happen: a pause one second after a pause, the pause gap being ten minutes. */
  lemma PausesTwiceInARow()
    ensures ValidWeights(Weights(0.2, 0.8, 0.0))
    ensures HasContinue(SortedByScore(ScoreEach(ThreeWays(), Weights(0.2, 0.8, 0.0), None)))
    ensures var ranked := SortedByScore(ScoreEach(ThreeWays(), Weights(0.2, 0.8, 0.0), None));
            var choice := ChooseAction(ranked, Recent(Some(100.0), Some(50.0)), Gaps(600.0, 600.0, 0.0), 101.0);
            choice.selected.estimate.action.Pause?
  {
    hide ScoreEach, SortedByScore, ChooseAction;
    var w, recent, gaps := Weights(0.2, 0.8, 0.0), Recent(Some(100.0), Some(50.0)), Gaps(600.0, 600.0, 0.0);
    ThreeScores();
    var all := ScoreEach(ThreeWays(), w, None);
    assert IsContinue(all[0]);
    PausesInsideGapExactlyWhen(ThreeWays(), w, None, recent, gaps, 101.0);
    assert MoveWins(all, 2, 1) && MoveRefused(all[1], all[2], recent, gaps, 101.0);
  }
}
