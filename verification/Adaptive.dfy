/** Bounded adaptation of a task's weights, and its rolling normalisation (magellan/policy/adaptive.py). */
module Adaptive {
  import opened Common
  import opened Costs
  import opened Scoring

  datatype AdaptivePolicy = AdaptivePolicy(
    enabled: bool,
    bound: real,
    window: nat,
    historyLimit: nat,
    confidenceFloor: real)

  /** What the signals look at, besides the estimates. */
  datatype TaskFacts = TaskFacts(
    costCap: Option<real>,
    spent: real,
    deadline: Option<real>,
    remaining: Option<real>)

  datatype Signals = Signals(
    budgetSlack: Option<real>,
    deadlineSlack: Option<real>,
    carbonOpportunity: real,
    telemetry: real,
    forecast: real,
    deadlineAtRisk: bool)

  datatype Windows = Windows(time: seq<Range>, carbon: seq<Range>, cost: seq<Range>)

  datatype DecisionRecord = DecisionRecord(index: nat, selected: Scored, effective: Weights)

  datatype PolicyState = PolicyState(
    baseline: Weights,
    effective: Weights,
    multipliers: Weights,
    windows: Windows,
    decisionCount: nat,
    history: seq<DecisionRecord>)

  const UNCHANGED := Weights(1.0, 1.0, 1.0)

  ghost predicate IsSquareRoot(root: real -> real) {
    forall x :: x >= 0.0 ==> root(x) >= 0.0 && root(x) * root(x) == x
  }

  predicate ValidAdaptivePolicy(p: AdaptivePolicy) {
    0.0 <= p.bound <= 0.5 && p.window >= 1 && p.historyLimit >= 1 && 0.0 <= p.confidenceFloor <= 1.0
  }

  /** The last `n` elements. */
  function LastOf<T>(s: seq<T>, n: nat): seq<T> {
    if |s| <= n then s else s[|s| - n..]
  }

  // ---------- Rolling bounds ----------

  function LowerEnds(window: seq<Range>): seq<real> {
    seq(|window|, i requires 0 <= i < |window| => window[i].least)
  }

  function UpperEnds(window: seq<Range>): seq<real> {
    seq(|window|, i requires 0 <= i < |window| => window[i].greatest)
  }

  function Overall(window: seq<Range>): Range
    requires window != []
  {
    Range(Least(LowerEnds(window)), Greatest(UpperEnds(window)))
  }

  /** The window after this epoch's values. */
  function Extended(window: seq<Range>, values: seq<real>, size: nat): (w: seq<Range>)
    requires values != [] && size >= 1
    ensures w != [] && w[|w| - 1] == RangeOf(values)
    ensures |window| <= size ==> |w| <= size
  {
    LastOf(window + [RangeOf(values)], size)
  }

  function ExtendedWindows(w: Windows, es: seq<Estimate>, size: nat): Windows
    requires es != [] && size >= 1
  {
    Windows(Extended(w.time, Times(es), size), Extended(w.carbon, Carbons(es), size),
            Extended(w.cost, CostsOf(es), size))
  }

  function BoundsOf(w: Windows): Bounds
    requires w.time != [] && w.carbon != [] && w.cost != []
  {
    Bounds(Overall(w.time), Overall(w.carbon), Overall(w.cost))
  }

  /** The rolling bounds contain the epoch's own values, so clamping them changes nothing. */
  lemma RollingBoundsContain(window: seq<Range>, values: seq<real>, size: nat)
    requires values != [] && size >= 1
    ensures Contains(Some(Overall(Extended(window, values, size))), values)
  {
    hide Least, Greatest;
    var w := Extended(window, values, size);
    var last := |w| - 1;
    assert Least(LowerEnds(w)) <= LowerEnds(w)[last] && UpperEnds(w)[last] <= Greatest(UpperEnds(w));
  }

  // ---------- Signals ----------

  function CarbonsWhere(es: seq<Estimate>, moving: bool): seq<real> {
    if es == [] then []
    else CarbonsWhere(es[..|es| - 1], moving)
         + if es[|es| - 1].action.Migrate? == moving then [es[|es| - 1].carbon] else []
  }

  function Opportunity(es: seq<Estimate>): real {
    var staying, moving := CarbonsWhere(es, false), CarbonsWhere(es, true);
    if staying == [] || moving == [] then 0.0
    else Clamp((Least(staying) - Least(moving)) / MaxReal(Least(staying), 0.000000001), 0.0, 1.0)
  }

  function SignalsOf(t: TaskFacts, es: seq<Estimate>, now: real, telemetry: real, forecast: real): Signals
    requires t.costCap.Some? ==> t.costCap.value > 0.0
  {
    var budget := if t.costCap.None? then None
                  else Some(Clamp(MaxReal(0.0, t.costCap.value - t.spent) / t.costCap.value, 0.0, 1.0));
    var slack := if t.deadline.None? || t.remaining.None? then None
                 else Some(MaxReal(0.0, t.deadline.value - now) / MaxReal(t.remaining.value, 0.000000001));
    Signals(budget, slack, Opportunity(es), Clamp(telemetry, 0.0, 1.0), Clamp(forecast, 0.0, 1.0),
            slack.Some? && slack.value <= 1.0)
  }

  predicate ValidSignals(s: Signals) {
    && (s.budgetSlack.Some? ==> 0.0 <= s.budgetSlack.value <= 1.0)
    && 0.0 <= s.carbonOpportunity <= 1.0 && 0.0 <= s.telemetry <= 1.0 && 0.0 <= s.forecast <= 1.0
  }

  lemma SignalsAreValid(t: TaskFacts, es: seq<Estimate>, now: real, telemetry: real, forecast: real)
    requires t.costCap.Some? ==> t.costCap.value > 0.0
    ensures ValidSignals(SignalsOf(t, es, now, telemetry, forecast))
  {
    hide Least, CarbonsWhere;
  }

  // ---------- Adaptation ----------

  function TimePressure(s: Signals): real {
    if s.deadlineSlack.None? then 0.0
    else if s.deadlineAtRisk then 1.0
    else Clamp(1.0 - s.deadlineSlack.value, 0.0, 1.0)
  }

  function CostPressure(s: Signals): real {
    if s.budgetSlack.None? then 0.0 else 1.0 - s.budgetSlack.value
  }

  function CarbonPressure(s: Signals, floor: real, root: real -> real): real {
    s.carbonOpportunity * root(CombinedConfidence(s, floor))
  }

  function CombinedConfidence(s: Signals, floor: real): real {
    MaxReal(s.telemetry, floor) * MaxReal(s.forecast, floor)
  }

  function MultiplierFor(bound: real, pressure: real): real {
    Clamp(1.0 + bound * pressure, 1.0 - bound, 1.0 + bound)
  }

  function MultipliersFor(p: AdaptivePolicy, s: Signals, root: real -> real): Weights {
    Weights(MultiplierFor(p.bound, TimePressure(s)), MultiplierFor(p.bound, CarbonPressure(s, p.confidenceFloor, root)),
            MultiplierFor(p.bound, CostPressure(s)))
  }

  function Scaled(w: Weights, m: Weights): Weights {
    Weights(Weighted(w.time, m.time), Weighted(w.carbon, m.carbon), Weighted(w.cost, m.cost))
  }

  predicate WithinBound(m: real, bound: real) {
    1.0 <= m <= 1.0 + bound
  }

  lemma ProductAtMost(x: real, y: real, limit: real)
    requires x >= 0.0 && 0.0 <= y <= limit
    ensures 0.0 <= x * y <= x * limit
  {
    ProductNonNegative(x, y);
    ProductNonNegative(x, limit - y);
    assert x * (limit - y) == x * limit - x * y;
  }

  lemma UnitProduct(x: real, y: real)
    requires 0.0 <= x <= 1.0 && 0.0 <= y <= 1.0
    ensures 0.0 <= x * y <= 1.0
  {
    ProductNonNegative(x, y);
    ProductNonNegative(x, 1.0 - y);
    assert x * (1.0 - y) == x - x * y;
  }

  /** A multiplier only ever raises its weight; the lower clamp never acts. */
  lemma MultiplierBounds(bound: real, pressure: real)
    requires bound >= 0.0 && 0.0 <= pressure <= 1.0
    ensures WithinBound(MultiplierFor(bound, pressure), bound)
    ensures MultiplierFor(bound, pressure) == 1.0 + bound * pressure
  {
    ProductAtMost(bound, pressure, 1.0);
  }

  lemma RootOfUnit(x: real, root: real -> real)
    requires IsSquareRoot(root) && 0.0 <= x <= 1.0
    ensures 0.0 <= root(x) <= 1.0
  {
    var r := root(x);
    assert r * (r - 1.0) == r * r - r;
    if r > 1.0 {
      ProductNonNegative(r, r - 1.0);
    }
  }

  lemma ConfidenceIsUnit(s: Signals, floor: real)
    requires ValidSignals(s) && 0.0 <= floor <= 1.0
    ensures 0.0 <= CombinedConfidence(s, floor) <= 1.0
  {
    UnitProduct(MaxReal(s.telemetry, floor), MaxReal(s.forecast, floor));
  }

  lemma CarbonPressureBounds(s: Signals, floor: real, root: real -> real)
    requires ValidSignals(s) && 0.0 <= floor <= 1.0 && IsSquareRoot(root)
    ensures 0.0 <= CarbonPressure(s, floor, root) <= 1.0
  {
    hide CombinedConfidence;
    ConfidenceIsUnit(s, floor);
    RootOfUnit(CombinedConfidence(s, floor), root);
    UnitProduct(s.carbonOpportunity, root(CombinedConfidence(s, floor)));
  }

  /** The adapted weight of one metric: at least baseline/(1+b), at most baseline*(1+b). */
  predicate Near(effective: real, baseline: real, bound: real) {
    Stretched(effective, bound) >= baseline && effective <= Stretched(baseline, bound)
  }

  function Stretched(weight: real, bound: real): real {
    weight * (1.0 + bound)
  }

  lemma StretchedSum(x: real, y: real, z: real, bound: real)
    ensures Stretched(x, bound) + Stretched(y, bound) + Stretched(z, bound) == Stretched(x + y + z, bound)
    ensures Stretched(1.0, bound) == 1.0 + bound
  {
  }

  predicate NearBaseline(e: Weights, b: Weights, bound: real) {
    Near(e.time, b.time, bound) && Near(e.carbon, b.carbon, bound) && Near(e.cost, b.cost, bound)
  }

  lemma ScaledBounds(weight: real, m: real, bound: real)
    requires weight >= 0.0 && bound >= 0.0 && WithinBound(m, bound)
    ensures weight <= Weighted(weight, m) <= Stretched(weight, bound)
  {
    ProductNonNegative(weight, m - 1.0);
    ProductNonNegative(weight, 1.0 + bound - m);
    assert weight * (m - 1.0) == weight * m - weight;
    assert weight * (1.0 + bound - m) == weight * (1.0 + bound) - weight * m;
  }

  lemma NearAfterDivision(weight: real, scaled: real, total: real, bound: real)
    requires weight >= 0.0 && bound >= 0.0 && weight <= scaled <= Stretched(weight, bound)
    requires 1.0 <= total <= 1.0 + bound
    ensures Near(scaled / total, weight, bound)
  {
    var e := scaled / total;
    assert e * total == scaled;
    QuotientNonNegative(scaled, total);
    ProductNonNegative(e, 1.0 + bound - total);
    ProductNonNegative(e, total - 1.0);
    assert e * (1.0 + bound - total) == e * (1.0 + bound) - e * total;
    assert e * (total - 1.0) == e * total - e;
  }

  lemma StretchedNearBaseline(b: Weights, s: Weights, bound: real)
    requires UnitWeights(b) && bound >= 0.0
    requires b.time <= s.time <= Stretched(b.time, bound) && b.carbon <= s.carbon <= Stretched(b.carbon, bound)
    requires b.cost <= s.cost <= Stretched(b.cost, bound)
    ensures ValidWeights(s) && UnitWeights(Normalized(s)) && NearBaseline(Normalized(s), b, bound)
  {
    hide Near, Normalized, Stretched;
    var total := s.time + s.carbon + s.cost;
    StretchedSum(b.time, b.carbon, b.cost, bound);
    NormalizedIsUnit(s);
    NearAfterDivision(b.time, s.time, total, bound);
    NearAfterDivision(b.carbon, s.carbon, total, bound);
    NearAfterDivision(b.cost, s.cost, total, bound);
    NormalizedParts(s);
  }

  /** Adapted weights sum to 1 and stay within a factor 1+b of the baseline. */
  lemma AdaptedNearBaseline(b: Weights, m: Weights, bound: real)
    requires UnitWeights(b) && bound >= 0.0
    requires WithinBound(m.time, bound) && WithinBound(m.carbon, bound) && WithinBound(m.cost, bound)
    ensures ValidWeights(Scaled(b, m))
    ensures UnitWeights(Normalized(Scaled(b, m))) && NearBaseline(Normalized(Scaled(b, m)), b, bound)
  {
    hide Near, Normalized, Stretched, ValidWeights, NearBaseline, Weighted;
    ScaledBounds(b.time, m.time, bound);
    ScaledBounds(b.carbon, m.carbon, bound);
    ScaledBounds(b.cost, m.cost, bound);
    StretchedNearBaseline(b, Scaled(b, m), bound);
  }

  lemma NormalizedParts(w: Weights)
    requires ValidWeights(w)
    ensures var total := w.time + w.carbon + w.cost;
            Normalized(w) == Weights(w.time / total, w.carbon / total, w.cost / total)
  {
  }

  lemma UnchangedIsNear(b: Weights, bound: real)
    requires UnitWeights(b) && bound >= 0.0
    ensures NearBaseline(b, b, bound)
  {
    ProductNonNegative(b.time, bound);
    ProductNonNegative(b.carbon, bound);
    ProductNonNegative(b.cost, bound);
    assert b.time * (1.0 + bound) == b.time + b.time * bound;
    assert b.carbon * (1.0 + bound) == b.carbon + b.carbon * bound;
    assert b.cost * (1.0 + bound) == b.cost + b.cost * bound;
  }

  lemma PressuresAreUnit(p: AdaptivePolicy, s: Signals, root: real -> real)
    requires ValidAdaptivePolicy(p) && ValidSignals(s) && IsSquareRoot(root)
    ensures var m := MultipliersFor(p, s, root);
            WithinBound(m.time, p.bound) && WithinBound(m.carbon, p.bound) && WithinBound(m.cost, p.bound)
  {
    hide CarbonPressure, MultiplierFor, IsSquareRoot;
    CarbonPressureBounds(s, p.confidenceFloor, root);
    MultiplierBounds(p.bound, TimePressure(s));
    MultiplierBounds(p.bound, CarbonPressure(s, p.confidenceFloor, root));
    MultiplierBounds(p.bound, CostPressure(s));
  }

  /** The least-carbon estimate among those that move, or among those that stay. */
  ghost predicate LeastCarbon(es: seq<Estimate>, moving: bool, m: nat) {
    && m < |es| && es[m].action.Migrate? == moving
    && forall i | 0 <= i < |es| && es[i].action.Migrate? == moving :: es[m].carbon <= es[i].carbon
  }

  lemma {:induction false} CarbonsOfKind(es: seq<Estimate>, moving: bool, x: real)
    ensures x in CarbonsWhere(es, moving)
            <==> exists i :: 0 <= i < |es| && es[i].action.Migrate? == moving && es[i].carbon == x
  {
    if es != [] {
      CarbonsOfKind(es[..|es| - 1], moving, x);
      assert es == es[..|es| - 1] + [es[|es| - 1]];
    }
  }

  lemma LeastOfKind(es: seq<Estimate>, moving: bool, m: nat)
    requires LeastCarbon(es, moving, m)
    ensures CarbonsWhere(es, moving) != [] && Least(CarbonsWhere(es, moving)) == es[m].carbon
  {
    hide CarbonsWhere;
    CarbonsOfKind(es, moving, es[m].carbon);
    forall x | x in CarbonsWhere(es, moving) ensures es[m].carbon <= x {
      CarbonsOfKind(es, moving, x);
    }
    var carbons := CarbonsWhere(es, moving);
    assert forall i | 0 <= i < |carbons| :: carbons[i] in carbons;
    LeastIs(carbons, es[m].carbon);
  }

  /** The opportunity is the fraction of staying's carbon that the best move saves, and none if it saves nothing. */
  lemma OpportunityIsSaving(es: seq<Estimate>, stay: nat, move: nat)
    requires LeastCarbon(es, false, stay) && LeastCarbon(es, true, move)
    ensures es[move].carbon >= es[stay].carbon ==> Opportunity(es) == 0.0
    ensures 0.0 <= es[move].carbon < es[stay].carbon && es[stay].carbon >= 0.000000001 ==>
              Opportunity(es) * es[stay].carbon == es[stay].carbon - es[move].carbon
  {
    hide CarbonsWhere, Least;
    LeastOfKind(es, false, stay);
    LeastOfKind(es, true, move);
    var saved, scale := es[stay].carbon - es[move].carbon, MaxReal(es[stay].carbon, 0.000000001);
    assert saved / scale * scale == saved;
    if saved <= 0.0 {
      QuotientNonNegative(-saved, scale);
      assert saved / scale == -((-saved) / scale);
    } else if es[move].carbon >= 0.0 && es[stay].carbon >= 0.000000001 {
      QuotientBounds(saved, scale);
    }
  }

  lemma NoOpportunity(es: seq<Estimate>)
    requires forall i | 0 <= i < |es| :: !es[i].action.Migrate?
    ensures Opportunity(es) == 0.0
  {
    hide Least;
    if CarbonsWhere(es, true) != [] {
      CarbonsOfKind(es, true, CarbonsWhere(es, true)[0]);
    }
  }

  lemma BudgetPressure(cap: real, spent: real)
    requires cap > 0.0
    ensures var pressure := 1.0 - Clamp(MaxReal(0.0, cap - spent) / cap, 0.0, 1.0);
            if spent <= 0.0 then pressure == 0.0 else if spent >= cap then pressure == 1.0
            else pressure * cap == spent
  {
    var left := MaxReal(0.0, cap - spent);
    assert left / cap * cap == left;
    if left <= cap {
      QuotientBounds(left, cap);
    } else {
      ProductNonNegative(left / cap - 1.0, cap);
      assert left / cap >= 1.0;
    }
  }

  lemma SlackRatio(available: real, remaining: real)
    requires available >= 0.0 && remaining > 0.0
    ensures available / remaining <= 1.0 <==> available <= remaining
  {
    var ratio := available / remaining;
    assert ratio * remaining == available;
    if ratio > 1.0 {
      ProductPositive(ratio - 1.0, remaining);
    } else {
      ProductNonNegative(1.0 - ratio, remaining);
    }
  }

  /**
   What raises a weight, and by how much. Time: all the way when the deadline leaves no more than the time still
   needed, and not at all otherwise. Cost: by the fraction of the budget that is spent. Carbon: by the fraction of
   carbon a move would save, discounted by the confidence in the readings.
   */
  lemma PressureMeaning(p: AdaptivePolicy, t: TaskFacts, es: seq<Estimate>, now: real, telemetry: real, forecast: real,
                        root: real -> real)
    requires ValidAdaptivePolicy(p) && IsSquareRoot(root) && (t.costCap.Some? ==> t.costCap.value > 0.0)
    ensures var m := MultipliersFor(p, SignalsOf(t, es, now, telemetry, forecast), root);
            && m.time == (if t.deadline.Some? && t.remaining.Some?
                             && MaxReal(0.0, t.deadline.value - now) <= MaxReal(t.remaining.value, 0.000000001)
                          then 1.0 + p.bound else 1.0)
            && (t.costCap.None? || t.spent <= 0.0 ==> m.cost == 1.0)
            && (t.costCap.Some? && t.spent >= t.costCap.value ==> m.cost == 1.0 + p.bound)
            && (t.costCap.Some? && 0.0 <= t.spent <= t.costCap.value ==>
                  (m.cost - 1.0) * t.costCap.value == p.bound * t.spent)
            && m.carbon == 1.0 + p.bound * (Opportunity(es) * root(Trust(telemetry, p) * Trust(forecast, p)))
  {
    hide Opportunity, IsSquareRoot, MultiplierFor, TimePressure, CostPressure, CarbonPressure, Clamp, MaxReal;
    hide ValidAdaptivePolicy, SignalsOf;
    var s := SignalsOf(t, es, now, telemetry, forecast);
    SignalsAreValid(t, es, now, telemetry, forecast);
    PressuresMultiply(p, s, root);
    TimePressureMeaning(t, es, now, telemetry, forecast);
    CostPressureMeaning(t, es, now, telemetry, forecast);
    CarbonPressureMeaning(p, t, es, now, telemetry, forecast, root);
    if t.costCap.Some? {
      Regrouped(p.bound, CostPressure(s), t.costCap.value);
    }
  }

  /** The multipliers grow with the pressures; no clamp acts. */
  lemma PressuresMultiply(p: AdaptivePolicy, s: Signals, root: real -> real)
    requires ValidAdaptivePolicy(p) && ValidSignals(s) && IsSquareRoot(root)
    ensures MultipliersFor(p, s, root)
            == Weights(1.0 + p.bound * TimePressure(s), 1.0 + p.bound * CarbonPressure(s, p.confidenceFloor, root),
                       1.0 + p.bound * CostPressure(s))
  {
    hide IsSquareRoot, MultiplierFor, CarbonPressure;
    CarbonPressureBounds(s, p.confidenceFloor, root);
    MultiplierBounds(p.bound, TimePressure(s));
    MultiplierBounds(p.bound, CostPressure(s));
    MultiplierBounds(p.bound, CarbonPressure(s, p.confidenceFloor, root));
  }

  lemma TimePressureMeaning(t: TaskFacts, es: seq<Estimate>, now: real, telemetry: real, forecast: real)
    requires t.costCap.Some? ==> t.costCap.value > 0.0
    ensures TimePressure(SignalsOf(t, es, now, telemetry, forecast))
            == if t.deadline.Some? && t.remaining.Some?
                  && MaxReal(0.0, t.deadline.value - now) <= MaxReal(t.remaining.value, 0.000000001)
               then 1.0 else 0.0
  {
    hide Opportunity;
    if t.deadline.Some? && t.remaining.Some? {
      SlackRatio(MaxReal(0.0, t.deadline.value - now), MaxReal(t.remaining.value, 0.000000001));
    }
  }

  lemma CostPressureMeaning(t: TaskFacts, es: seq<Estimate>, now: real, telemetry: real, forecast: real)
    requires t.costCap.Some? ==> t.costCap.value > 0.0
    ensures var pressure := CostPressure(SignalsOf(t, es, now, telemetry, forecast));
            if t.costCap.None? || t.spent <= 0.0 then pressure == 0.0
            else if t.spent >= t.costCap.value then pressure == 1.0
            else pressure * t.costCap.value == t.spent
  {
    hide Opportunity;
    if t.costCap.Some? {
      BudgetPressure(t.costCap.value, t.spent);
    }
  }

  lemma CarbonPressureMeaning(p: AdaptivePolicy, t: TaskFacts, es: seq<Estimate>, now: real, telemetry: real,
                              forecast: real, root: real -> real)
    requires t.costCap.Some? ==> t.costCap.value > 0.0
    ensures CarbonPressure(SignalsOf(t, es, now, telemetry, forecast), p.confidenceFloor, root)
            == Opportunity(es) * root(Trust(telemetry, p) * Trust(forecast, p))
  {
    hide Opportunity;
    var s := SignalsOf(t, es, now, telemetry, forecast);
    assert CombinedConfidence(s, p.confidenceFloor) == Trust(telemetry, p) * Trust(forecast, p);
  }

  /** The confidence in a reading, which counts for no less than the floor. */
  function Trust(confidence: real, p: AdaptivePolicy): real {
    MaxReal(MaxReal(0.0, MinReal(1.0, confidence)), p.confidenceFloor)
  }

  lemma Regrouped(bound: real, pressure: real, cap: real)
    ensures bound * pressure * cap == bound * (pressure * cap)
  {
  }

  // ---------- A task's policy state ----------

  function FreshState(baseline: Weights): PolicyState {
    PolicyState(baseline, baseline, UNCHANGED, Windows([], [], []), 0, [])
  }

  /** The state once an epoch's estimates have been looked at. */
  function Prepared(s: PolicyState, p: AdaptivePolicy, es: seq<Estimate>, signals: Signals, root: real -> real)
    : PolicyState
    requires ValidAdaptivePolicy(p) && es != []
    requires p.enabled ==> ValidWeights(Scaled(s.baseline, MultipliersFor(p, signals, root)))
  {
    var m := if p.enabled then MultipliersFor(p, signals, root) else UNCHANGED;
    s.(windows := ExtendedWindows(s.windows, es, p.window),
       multipliers := m,
       effective := if p.enabled then Normalized(Scaled(s.baseline, m)) else s.baseline)
  }

  function ContextOf(s: PolicyState): Context
    requires s.windows.time != [] && s.windows.carbon != [] && s.windows.cost != []
  {
    Context(BoundsOf(s.windows), s.effective)
  }

  /** The state once the decision has been recorded. */
  function Recorded(s: PolicyState, p: AdaptivePolicy, selected: Scored, effective: Weights, multipliers: Weights)
    : PolicyState
  {
    var count := s.decisionCount + 1;
    s.(decisionCount := count,
       history := LastOf(s.history + [DecisionRecord(count, selected, effective)], p.historyLimit),
       effective := effective,
       multipliers := multipliers)
  }

  /** Of all the decisions recorded so far, numbered from 1, the history is the latest, up to the limit. */
  predicate HistorySound(s: PolicyState, all: seq<DecisionRecord>, limit: nat) {
    && s.history == LastOf(all, limit) && s.decisionCount == |all|
    && forall i | 0 <= i < |all| :: all[i].index == i + 1
  }

  ghost predicate StateSound(s: PolicyState, p: AdaptivePolicy, baseline: Weights, all: seq<DecisionRecord>) {
    && s.baseline == baseline
    && UnitWeights(s.effective) && NearBaseline(s.effective, baseline, p.bound)
    && |s.windows.time| <= p.window && |s.windows.carbon| <= p.window && |s.windows.cost| <= p.window
    && HistorySound(s, all, p.historyLimit)
  }

  lemma FreshIsSound(p: AdaptivePolicy, baseline: Weights)
    requires ValidAdaptivePolicy(p) && UnitWeights(baseline)
    ensures StateSound(FreshState(baseline), p, baseline, [])
  {
    UnchangedIsNear(baseline, p.bound);
  }

  lemma PreparedIsSound(s: PolicyState, p: AdaptivePolicy, baseline: Weights, es: seq<Estimate>, signals: Signals,
                        root: real -> real, all: seq<DecisionRecord>)
    requires ValidAdaptivePolicy(p) && StateSound(s, p, baseline, all) && UnitWeights(baseline) && es != []
    requires ValidSignals(signals) && IsSquareRoot(root)
    ensures p.enabled ==> ValidWeights(Scaled(s.baseline, MultipliersFor(p, signals, root)))
    ensures StateSound(Prepared(s, p, es, signals, root), p, baseline, all)
    ensures var w := Prepared(s, p, es, signals, root).effective;
            UnitWeights(w) && NearBaseline(w, baseline, p.bound)
    ensures Covers(Some(ContextOf(Prepared(s, p, es, signals, root))), es)
  {
    hide MultipliersFor, Normalized, UnitWeights, NearBaseline, IsSquareRoot, RangeOf, Overall, LastOf;
    PressuresAreUnit(p, signals, root);
    AdaptedNearBaseline(baseline, MultipliersFor(p, signals, root), p.bound);
    UnchangedIsNear(baseline, p.bound);
    RollingBoundsContain(s.windows.time, Times(es), p.window);
    RollingBoundsContain(s.windows.carbon, Carbons(es), p.window);
    RollingBoundsContain(s.windows.cost, CostsOf(es), p.window);
  }

  lemma LastOfLast<T>(all: seq<T>, x: T, limit: nat)
    ensures LastOf(LastOf(all, limit) + [x], limit) == LastOf(all + [x], limit)
  {
  }

  lemma RecordedIsSound(s: PolicyState, p: AdaptivePolicy, baseline: Weights, selected: Scored, effective: Weights,
                        multipliers: Weights, all: seq<DecisionRecord>)
    requires ValidAdaptivePolicy(p) && StateSound(s, p, baseline, all)
    requires UnitWeights(effective) && NearBaseline(effective, baseline, p.bound)
    ensures StateSound(Recorded(s, p, selected, effective, multipliers), p, baseline,
                       all + [DecisionRecord(|all| + 1, selected, effective)])
  {
    hide UnitWeights, NearBaseline, LastOf;
    LastOfLast(all, DecisionRecord(|all| + 1, selected, effective), p.historyLimit);
  }

  // ---------- The service ----------

  class AdaptivePolicyService {
    const policy: AdaptivePolicy
    const baseline: Weights
    const root: real -> real
    var states: map<TaskId, PolicyState>
    ghost var decided: map<TaskId, seq<DecisionRecord>>    // every decision recorded since the task was last forgotten

    constructor (policy: AdaptivePolicy, weights: Weights, root: real -> real)
      requires ValidAdaptivePolicy(policy) && ValidWeights(weights) && IsSquareRoot(root)
      ensures this.policy == policy && this.baseline == Normalized(weights) && this.root == root
      ensures states == map[] && decided == map[] && Valid()
    {
      NormalizedIsUnit(weights);
      this.policy, this.baseline, this.root := policy, Normalized(weights), root;
      states, decided := map[], map[];
    }

    ghost function DecidedFor(t: TaskId): seq<DecisionRecord>
      reads this
    {
      if t in decided then decided[t] else []
    }

    /** Every task's weights are near the one baseline, which never changes, and its history is what it decided last. */
    ghost predicate Valid()
      reads this
    {
      && ValidAdaptivePolicy(policy) && UnitWeights(baseline) && IsSquareRoot(root)
      && decided.Keys <= states.Keys && forall t | t in states :: StateSound(states[t], policy, baseline, DecidedFor(t))
    }

    function StateFor(t: TaskId): PolicyState
      reads this
    {
      if t in states then states[t] else FreshState(baseline)
    }

    /** Adds an epoch's range of one metric and drops what has left the window. */
    method AppendRange(window: seq<Range>, values: seq<real>) returns (extended: seq<Range>)
      requires values != [] && policy.window >= 1
      ensures extended == Extended(window, values, policy.window)
    {
      extended := window + [RangeOf(values)];
      if |extended| > policy.window {
        extended := extended[|extended| - policy.window..];
      }
    }

    /** Looks at an epoch's estimates: rolling bounds and adapted weights for scoring them. */
    method Prepare(t: TaskId, task: TaskFacts, es: seq<Estimate>, now: real, telemetry: real, forecast: real)
      returns (context: Context, multipliers: Weights)
      requires Valid() && es != [] && (task.costCap.Some? ==> task.costCap.value > 0.0)
      modifies `states
      ensures Valid()
      ensures var signals := SignalsOf(task, es, now, telemetry, forecast);
              && (policy.enabled ==>
                    ValidWeights(Scaled(old(StateFor(t)).baseline, MultipliersFor(policy, signals, root))))
              && states == old(states)[t := Prepared(old(StateFor(t)), policy, es, signals, root)]
      ensures multipliers == states[t].multipliers
      ensures context.weights == states[t].effective && context.bounds == BoundsOf(states[t].windows)
      ensures UnitWeights(context.weights) && NearBaseline(context.weights, baseline, policy.bound)
      ensures Covers(Some(context), es)
    {
      hide Covers, NearBaseline, UnitWeights, MultipliersFor, SignalsOf, IsSquareRoot, Extended, Overall, Normalized;
      hide StateSound;
      var state := StateFor(t);
      FreshIsSound(policy, baseline);
      var signals := SignalsOf(task, es, now, telemetry, forecast);
      SignalsAreValid(task, es, now, telemetry, forecast);
      PreparedIsSound(state, policy, baseline, es, signals, root, DecidedFor(t));
      ghost var target := Prepared(state, policy, es, signals, root);
      var time := AppendRange(state.windows.time, Times(es));
      var carbon := AppendRange(state.windows.carbon, Carbons(es));
      var cost := AppendRange(state.windows.cost, CostsOf(es));
      state := state.(windows := Windows(time, carbon, cost));
      if policy.enabled {
        var m := MultipliersFor(policy, signals, root);
        state := state.(multipliers := m, effective := Normalized(Scaled(state.baseline, m)));
      } else {
        state := state.(multipliers := UNCHANGED, effective := state.baseline);
      }
      assert state == target;
      states := states[t := state];
      context, multipliers := ContextOf(state), state.multipliers;
    }

    /** Records the decision taken with a context this service prepared. */
    method RecordDecision(t: TaskId, selected: Scored, context: Context, multipliers: Weights)
      requires Valid()
      requires UnitWeights(context.weights) && NearBaseline(context.weights, baseline, policy.bound)
      modifies this
      ensures Valid()
      ensures states == old(states)[t := Recorded(old(StateFor(t)), policy, selected, context.weights, multipliers)]
      ensures var all := old(DecidedFor(t));
              decided == old(decided)[t := all + [DecisionRecord(|all| + 1, selected, context.weights)]]
    {
      hide NearBaseline, UnitWeights, IsSquareRoot, StateSound, ValidAdaptivePolicy;
      var state := StateFor(t);
      FreshIsSound(policy, baseline);
      ghost var all := DecidedFor(t);
      RecordedIsSound(state, policy, baseline, selected, context.weights, multipliers, all);
      var count := state.decisionCount + 1;
      var history := state.history + [DecisionRecord(count, selected, context.weights)];
      if |history| > policy.historyLimit {
        history := history[|history| - policy.historyLimit..];
      }
      state := state.(decisionCount := count, history := history, effective := context.weights,
                      multipliers := multipliers);
      states := states[t := state];
      decided := decided[t := all + [DecisionRecord(|all| + 1, selected, context.weights)]];
    }

    /** Forgets a task. */
    method Reset(t: TaskId) returns (known: bool)
      requires Valid()
      modifies this
      ensures Valid() && known == (t in old(states)) && states == old(states) - {t}
      ensures decided == old(decided) - {t}
    {
      known := t in states;
      states, decided := states - {t}, decided - {t};
    }
  }
}
