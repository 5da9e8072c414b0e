/**
 Replaying the online policy over a carbon trace (magellan/experiments/comparison.py,
 magellan/scheduler/scoring.py).
 */
module Replay {
  import opened Common
  import opened Costs
  import opened OracleGraph
  import opened Scoring
  import opened Adaptive

  datatype Mode = TemporalOnly | MagellanCausal | OtherPolicy

  /** Where the task stands when it is evaluated. */
  datatype Situation = Situation(node: NodeId, now: real, remaining: real, spent: real)

  /** The online estimates of time, carbon and cost; a pause may not be applicable. */
  datatype Models = Models(
    stay: Situation -> Charge,
    rest: (Situation, real) -> Option<Charge>,
    move: (Situation, NodeId, nat) -> Charge,
    confidence: Situation -> real)

  datatype Config = Config(
    mode: Mode,
    nodes: seq<NodeConfig>,
    link: (NodeId, NodeId) -> Link,
    intensity: Intensity,
    policy: CostPolicy,
    gaps: Gaps,
    idleCandidates: seq<real>,
    adaptive: AdaptivePolicy,
    epoch: real,
    start: real,
    duration: real,
    powerKw: real,
    checkpointBytes: nat,
    staticBytes: nat,
    startNode: NodeId,
    costCap: Option<real>,
    prestaged: bool,
    models: Models)

  datatype Step = Step(
    index: nat,
    action: Action,
    source: NodeId,
    startedAt: real,
    finishedAt: real,
    carbon: real,
    cost: real,
    remainingAfter: real)

  /** The loop's variables. */
  datatype Progress = Progress(
    now: real,
    node: NodeId,
    remaining: real,
    carbon: real,
    cost: real,
    compute: real,
    idle: real,
    overhead: real,
    migration: real,
    migrations: nat,
    pauses: nat,
    recent: Recent,
    ownerPath: seq<NodeId>,
    staged: set<NodeId>,
    steps: seq<Step>)

  datatype ReplayError = UnsupportedLabel | UnknownNode | TooManyDecisions

  /** Work below this is done. */
  const TINY: real := 0.000000001

  ghost predicate ValidConfig(c: Config) {
    && (forall n | n in c.nodes :: ValidNode(n)) && UniqueIds(c.nodes)
    && (forall s, d :: ValidLink(c.link(s, d)))
    && ValidIntensity(c.intensity) && ValidPolicy(c.policy) && ValidAdaptivePolicy(c.adaptive)
    && (forall i | 0 <= i < |c.idleCandidates| :: c.idleCandidates[i] >= 0.0)
    && c.gaps.migration >= 0.0 && c.epoch > 0.0 && c.duration > 0.0 && c.powerKw > 0.0
    && (c.costCap.Some? ==> c.costCap.value > 0.0)
  }

  // ---------- The estimates of one epoch ----------

  function EstimateOf(action: Action, destination: Option<NodeId>, charge: Charge, idle: real): Estimate {
    Estimate(action, destination, charge.seconds, charge.carbon, charge.cost, idle)
  }

  /** What every action list of the replay looks like. */
  ghost predicate ActionsSound(c: Config, node: NodeId, es: seq<Estimate>) {
    && es != [] && es[0].action.Continue?
    && (forall i | 0 <= i < |es| && es[i].action.Pause? :: es[i].idle >= 0.0)
    && (forall i | 0 <= i < |es| && es[i].action.Migrate? ::
          c.mode.MagellanCausal? && es[i].destination.Some? && es[i].destination.value in Ids(c.nodes)
          && es[i].destination.value != node)
    && (OnlyWorks(c) ==> |es| == 1)
  }

  /** A configuration that leaves the task nothing to do but work. */
  ghost predicate OnlyWorks(c: Config) {
    c.mode.TemporalOnly? && forall s, idle :: c.models.rest(s, idle).None?
  }

  /** One estimate for every candidate pause that the model finds applicable, in order. */
  function PauseEstimates(c: Config, s: Situation, idles: seq<real>): seq<Estimate> {
    if idles == [] then []
    else
      var idle := idles[|idles| - 1];
      var rest := c.models.rest(s, idle);
      PauseEstimates(c, s, idles[..|idles| - 1])
      + if rest.Some? then [EstimateOf(Pause, None, rest.value, idle)] else []
  }

  function MoveEstimate(c: Config, s: Situation, d: NodeId, staged: set<NodeId>): Estimate {
    EstimateOf(Action.Migrate, Some(d), c.models.move(s, d, if d in staged then 0 else c.staticBytes), 0.0)
  }

  predicate Affordable(c: Config, s: Situation, cost: real) {
    c.costCap.None? || s.spent + cost <= c.costCap.value
  }

  /** One estimate for every compatible peer whose move the task can afford, in order. */
  function MoveEstimates(c: Config, s: Situation, peers: seq<NodeConfig>, compatible: set<NodeId>, staged: set<NodeId>)
    : seq<Estimate>
  {
    if peers == [] then []
    else
      var d := peers[|peers| - 1].id;
      MoveEstimates(c, s, peers[..|peers| - 1], compatible, staged)
      + if d in compatible && Affordable(c, s, MoveEstimate(c, s, d, staged).cost)
        then [MoveEstimate(c, s, d, staged)] else []
  }

  /** Continue first, then the pauses, then the moves. */
  function RawActions(c: Config, s: Situation, compatible: set<NodeId>, staged: set<NodeId>): seq<Estimate> {
    [EstimateOf(Action.Continue, None, c.models.stay(s), 0.0)] + PauseEstimates(c, s, c.idleCandidates)
    + MoveEstimates(c, s, Peers(c.nodes, s.node), compatible, staged)
  }

  method BuildRawActions(c: Config, s: Situation, compatible: set<NodeId>, staged: set<NodeId>)
    returns (es: seq<Estimate>)
    ensures es == RawActions(c, s, compatible, staged)
  {
    es := [EstimateOf(Action.Continue, None, c.models.stay(s), 0.0)];
    ghost var first := es;
    for i := 0 to |c.idleCandidates|
      invariant es == first + PauseEstimates(c, s, c.idleCandidates[..i])
    {
      assert c.idleCandidates[..i + 1][..i] == c.idleCandidates[..i];
      var rest := c.models.rest(s, c.idleCandidates[i]);
      if rest.Some? {
        es := es + [EstimateOf(Pause, None, rest.value, c.idleCandidates[i])];
      }
    }
    assert c.idleCandidates[..|c.idleCandidates|] == c.idleCandidates;
    var peers := Peers(c.nodes, s.node);
    ghost var resting := es;
    for i := 0 to |peers|
      invariant es == resting + MoveEstimates(c, s, peers[..i], compatible, staged)
    {
      assert peers[..i + 1][..i] == peers[..i];
      var d := peers[i].id;
      if d in compatible {
        var charge := c.models.move(s, d, if d in staged then 0 else c.staticBytes);
        var estimate := EstimateOf(Action.Migrate, Some(d), charge, 0.0);
        if c.costCap.None? || s.spent + estimate.cost <= c.costCap.value {
          es := es + [estimate];
        }
      }
    }
    assert peers[..|peers|] == peers;
  }

  // ---------- What the list holds ----------

  lemma {:induction false} PausesListed(c: Config, s: Situation, idles: seq<real>, e: Estimate)
    ensures e in PauseEstimates(c, s, idles)
            <==> exists i | 0 <= i < |idles| ::
                   var rest := c.models.rest(s, idles[i]);
                   && rest.Some?
                   && e == Estimate(Pause, None, rest.value.seconds, rest.value.carbon, rest.value.cost, idles[i])
  {
    if idles != [] {
      var last := |idles| - 1;
      PausesListed(c, s, idles[..last], e);
      assert forall i | 0 <= i < last :: idles[..last][i] == idles[i];
    }
  }

  /** The estimate of moving to `d`, to which static data need not be copied if they are staged there. */
  ghost predicate IsMoveTo(c: Config, s: Situation, d: NodeId, staged: set<NodeId>, e: Estimate) {
    var charge := c.models.move(s, d, if d in staged then 0 else c.staticBytes);
    e == Estimate(Action.Migrate, Some(d), charge.seconds, charge.carbon, charge.cost, 0.0)
  }

  lemma {:induction false} MovesListed(c: Config, s: Situation, peers: seq<NodeConfig>, compatible: set<NodeId>,
                                       staged: set<NodeId>, e: Estimate)
    ensures e in MoveEstimates(c, s, peers, compatible, staged)
            <==> exists n | n in peers :: n.id in compatible && IsMoveTo(c, s, n.id, staged, e)
                                          && (c.costCap.Some? ==> s.spent + e.cost <= c.costCap.value)
  {
    if peers != [] {
      var last := |peers| - 1;
      MovesListed(c, s, peers[..last], compatible, staged, e);
      assert forall n :: n in peers <==> n == peers[last] || n in peers[..last];
    }
  }

  /** The list holds exactly: going on, every applicable candidate pause, every affordable move to a compatible peer. */
  lemma RawActionsExactly(c: Config, s: Situation, compatible: set<NodeId>, staged: set<NodeId>, e: Estimate)
    ensures e in RawActions(c, s, compatible, staged)
            <==> match e.action
                 case Continue =>
                   var stay := c.models.stay(s);
                   e == Estimate(Action.Continue, None, stay.seconds, stay.carbon, stay.cost, 0.0)
                 case Pause =>
                   var rest := c.models.rest(s, e.idle);
                   && e.idle in c.idleCandidates && rest.Some?
                   && e == Estimate(Pause, None, rest.value.seconds, rest.value.carbon, rest.value.cost, e.idle)
                 case Migrate =>
                   && e.destination.Some? && e.destination.value != s.node
                   && e.destination.value in Ids(c.nodes) && e.destination.value in compatible
                   && IsMoveTo(c, s, e.destination.value, staged, e)
                   && (c.costCap.Some? ==> s.spent + e.cost <= c.costCap.value)
  {
    hide PauseEstimates, MoveEstimates, Peers;
    PausesListed(c, s, c.idleCandidates, e);
    MovesListed(c, s, Peers(c.nodes, s.node), compatible, staged, e);
    PeersKnown(c.nodes, s.node);
    if e.action.Pause? && e.idle in c.idleCandidates {
      var i :| 0 <= i < |c.idleCandidates| && c.idleCandidates[i] == e.idle;
    }
    if e.action.Migrate? && e.destination.Some? && e.destination.value in Ids(c.nodes) {
      var n :| n in c.nodes && n.id == e.destination.value;
    }
  }

  lemma {:induction false} NoPauses(c: Config, s: Situation, idles: seq<real>)
    requires OnlyWorks(c)
    ensures PauseEstimates(c, s, idles) == []
  {
    if idles != [] {
      NoPauses(c, s, idles[..|idles| - 1]);
    }
  }

  lemma {:induction false} NoMoves(c: Config, s: Situation, peers: seq<NodeConfig>, staged: set<NodeId>)
    ensures MoveEstimates(c, s, peers, {}, staged) == []
  {
    if peers != [] {
      NoMoves(c, s, peers[..|peers| - 1], staged);
    }
  }

  lemma RawActionsSound(c: Config, s: Situation, compatible: set<NodeId>, staged: set<NodeId>)
    requires ValidConfig(c) && (c.mode.TemporalOnly? ==> compatible == {})
    requires c.mode.MagellanCausal? || c.mode.TemporalOnly?
    ensures ActionsSound(c, s.node, RawActions(c, s, compatible, staged))
  {
    hide RawActions, ValidConfig;
    var es := RawActions(c, s, compatible, staged);
    assert es != [] && es[0].action.Continue? by { ContinueFirst(c, s, compatible, staged); }
    forall i | 0 <= i < |es| && es[i].action.Pause? ensures es[i].idle >= 0.0 {
      assert es[i] in es;
      RawActionsExactly(c, s, compatible, staged, es[i]);
      IdlesNonNegative(c);
    }
    forall i | 0 <= i < |es| && es[i].action.Migrate?
      ensures c.mode.MagellanCausal? && es[i].destination.Some? && es[i].destination.value in Ids(c.nodes)
              && es[i].destination.value != s.node
    {
      assert es[i] in es;
      RawActionsExactly(c, s, compatible, staged, es[i]);
    }
    if OnlyWorks(c) {
      JustContinue(c, s, staged);
    }
  }

  lemma ContinueFirst(c: Config, s: Situation, compatible: set<NodeId>, staged: set<NodeId>)
    ensures RawActions(c, s, compatible, staged) != []
    ensures RawActions(c, s, compatible, staged)[0].action.Continue?
  {
  }

  lemma JustContinue(c: Config, s: Situation, staged: set<NodeId>)
    requires OnlyWorks(c)
    ensures |RawActions(c, s, {}, staged)| == 1
  {
    NoPauses(c, s, c.idleCandidates);
    NoMoves(c, s, Peers(c.nodes, s.node), staged);
  }

  lemma SelectedFacts(c: Config, node: NodeId, es: seq<Estimate>, e: Estimate)
    requires ActionsSound(c, node, es) && e in es
    ensures e.action.Pause? ==> e.idle >= 0.0
    ensures e.action.Migrate? ==> c.mode.MagellanCausal? && e.destination.Some? && e.destination.value in Ids(c.nodes)
                                  && e.destination.value != node
    ensures OnlyWorks(c) ==> e.action.Continue?
  {
    var i :| 0 <= i < |es| && es[i] == e;
  }

  lemma IdlesNonNegative(c: Config)
    requires ValidConfig(c)
    ensures forall idle | idle in c.idleCandidates :: idle >= 0.0
  {
  }

  // ---------- One evaluation ----------

  lemma RankedFromEstimates(es: seq<Estimate>, w: Weights, context: Option<Context>)
    requires ValidWeights(w) && es != [] && es[0].action.Continue?
    ensures var ranked := SortedByScore(ScoreEach(es, w, context));
            HasContinue(ranked) && forall x | x in ranked :: exists i :: 0 <= i < |es| && es[i] == x.estimate
  {
    hide ScoreEach, SortedByScore;
    var scored := ScoreEach(es, w, context);
    var ranked := SortedByScore(scored);
    SortRanks(scored);
    assert scored[0] in multiset(ranked);
    var i :| 0 <= i < |ranked| && ranked[i] == scored[0];
    assert ranked[i].estimate.action.Continue?;
    forall x | x in ranked ensures exists i :: 0 <= i < |es| && es[i] == x.estimate {
      assert x in multiset(scored);
      var j :| 0 <= j < |scored| && scored[j] == x;
      assert es[j] == x.estimate;
    }
  }

  /** Where the policy may send the task. */
  function Compatible(c: Config, node: NodeId): set<NodeId> {
    if c.mode.TemporalOnly? then {} else Ids(c.nodes) - {node}
  }

  /** What the adaptive policy reads off the situation and the estimates; the replay has no telemetry. */
  function EpochSignals(c: Config, s: Situation, es: seq<Estimate>): Signals
    requires c.costCap.Some? ==> c.costCap.value > 0.0
  {
    SignalsOf(TaskFacts(c.costCap, s.spent, None, Some(s.remaining)), es, s.now, 0.0, c.models.confidence(s))
  }

  /** One decision: the policy's state around it, the estimates, the context they are scored with, and the choice. */
  datatype Epoch = Epoch(before: PolicyState, es: seq<Estimate>, context: Context, choice: Choice, after: PolicyState)

  /**
   The epoch is evaluated as the policy says: all its estimates are scored with the context prepared from them, the
   choice is decided by what scores least, and the policy remembers it.
   */
  ghost predicate Evaluated(c: Config, s: Situation, recent: Recent, staged: set<NodeId>, root: real -> real, e: Epoch)
    requires ValidConfig(c)
  {
    && e.es == RawActions(c, s, Compatible(c, s.node), staged) && e.es != []
    && (c.adaptive.enabled ==>
          ValidWeights(Scaled(e.before.baseline, MultipliersFor(c.adaptive, EpochSignals(c, s, e.es), root))))
    && var prepared := Prepared(e.before, c.adaptive, e.es, EpochSignals(c, s, e.es), root);
    && e.context == ContextOf(prepared)
    && Chosen(ScoreEach(e.es, c.policy.weights, Some(e.context)), recent, c.gaps, s.now, e.choice)
    && e.after == Recorded(prepared, c.adaptive, e.choice.selected, prepared.effective, prepared.multipliers)
  }

  /** One evaluation: estimate, adapt, score, choose, record. */
  method EvaluateTask(c: Config, s: Situation, recent: Recent, staged: set<NodeId>, service: AdaptivePolicyService)
    returns (choice: Choice, es: seq<Estimate>, context: Context)
    requires ValidConfig(c) && service.Valid() && (c.mode.MagellanCausal? || c.mode.TemporalOnly?)
    requires service.policy == c.adaptive
    modifies service
    ensures service.Valid()
    ensures Evaluated(c, s, recent, staged, service.root,
                      Epoch(old(service.StateFor(0)), es, context, choice, service.StateFor(0)))
    ensures var all := ScoreEach(es, c.policy.weights, Some(context));
            choice.selected.estimate.action.Migrate?
            <==> exists o: nat, l: nat :: MoveWins(all, o, l) && !MoveRefused(all[l], all[o], recent, c.gaps, s.now)
    ensures choice.selected.estimate in es && ActionsSound(c, s.node, es)
    ensures choice.selected.estimate.action.Migrate? ==> !WithinGap(recent.lastMigration, s.now, c.gaps.migration)
  {
    hide SortedByScore, ScoreEach, Scoring.Covers, UnitWeights, NearBaseline, ChooseAction, HasContinue, WithinGap;
    hide AdaptivePolicyService.Valid, StateSound, IsSquareRoot, Recorded, Prepared, SignalsOf, MultipliersFor;
    hide ExtendedWindows, BoundsOf, RawActions, Chosen, ActionsSound, MoveRefused, IsBest;
    var compatible := if c.mode.TemporalOnly? then {} else Ids(c.nodes) - {s.node};
    es := BuildRawActions(c, s, compatible, staged);
    RawActionsSound(c, s, compatible, staged);
    ContinueFirst(c, s, compatible, staged);
    assert ValidWeights(c.policy.weights) && (c.costCap.Some? ==> c.costCap.value > 0.0);
    hide ValidConfig;
    var facts := TaskFacts(c.costCap, s.spent, None, Some(s.remaining));
    var multipliers;
    context, multipliers := service.Prepare(0, facts, es, s.now, 0.0, c.models.confidence(s));
    var ranked := ScoreActions(es, c.policy.weights, Some(context));
    RankedFromEstimates(es, c.policy.weights, Some(context));
    ListHasContinue(es, c.policy.weights, Some(context));
    choice := ChooseAction(ranked, recent, c.gaps, s.now);
    ChoiceIsChosen(es, c.policy.weights, Some(context), recent, c.gaps, s.now);
    MigratesExactlyWhen(es, c.policy.weights, Some(context), recent, c.gaps, s.now);
    var i :| 0 <= i < |es| && es[i] == choice.selected.estimate;
    service.RecordDecision(0, choice.selected, context, multipliers);
  }

  lemma ListHasContinue(es: seq<Estimate>, w: Weights, context: Option<Context>)
    requires ValidWeights(w) && es != [] && es[0].action.Continue?
    ensures HasContinue(ScoreEach(es, w, context))
  {
    hide ScoreEach;
    assert ScoreEach(es, w, context)[0].estimate == es[0];
  }

  // ---------- What the loop keeps ----------

  function CarbonOf(steps: seq<Step>): real {
    if steps == [] then 0.0 else CarbonOf(steps[..|steps| - 1]) + steps[|steps| - 1].carbon
  }

  function CostOf(steps: seq<Step>): real {
    if steps == [] then 0.0 else CostOf(steps[..|steps| - 1]) + steps[|steps| - 1].cost
  }

  /** When the migrations among the steps started. */
  function MoveStarts(steps: seq<Step>): seq<real> {
    if steps == [] then []
    else
      var last := steps[|steps| - 1];
      MoveStarts(steps[..|steps| - 1]) + if last.action.Migrate? then [last.startedAt] else []
  }

  predicate Spaced(starts: seq<real>, gap: real) {
    forall i | 1 <= i < |starts| :: GapBefore(starts, gap, i)
  }

  predicate GapBefore(starts: seq<real>, gap: real, i: nat)
    requires 1 <= i < |starts|
  {
    starts[i] - starts[i - 1] >= gap
  }

  function FinishOf(c: Config, steps: seq<Step>): real {
    if steps == [] then c.start else steps[|steps| - 1].finishedAt
  }

  /** The steps follow each other without gaps. */
  ghost predicate Contiguous(c: Config, steps: seq<Step>) {
    forall i | 0 <= i < |steps| ::
      && steps[i].index == i + 1 && steps[i].startedAt == FinishOf(c, steps[..i])
      && steps[i].startedAt <= steps[i].finishedAt
  }

  /** Where the time went. */
  predicate TimeAdds(c: Config, s: Progress) {
    && s.now - c.start == s.compute + s.idle + s.overhead + s.migration
    && s.compute + s.remaining == c.duration && s.remaining >= 0.0
  }

  ghost predicate OwnersAdd(c: Config, s: Progress) {
    && |s.ownerPath| == s.migrations + 1 && s.ownerPath[0] == c.startNode && s.ownerPath[s.migrations] == s.node
    && s.node in Ids(c.nodes)
    && (forall i | 0 <= i < s.migrations :: s.ownerPath[i] != s.ownerPath[i + 1])
    && (forall n :: n in s.staged <==> n in s.ownerPath || (c.prestaged && n in Ids(c.nodes)))
  }

  function PauseCount(steps: seq<Step>): nat {
    if steps == [] then 0
    else PauseCount(steps[..|steps| - 1]) + if steps[|steps| - 1].action.Pause? then 1 else 0
  }

  /** The overhead of `n` pauses. */
  function Overheads(c: Config, n: nat): real {
    n as real * (c.policy.pauseSeconds + c.policy.resumeSeconds)
  }

  predicate PausesAdd(c: Config, s: Progress) {
    s.pauses == PauseCount(s.steps) && s.overhead == Overheads(c, s.pauses)
  }

  lemma OverheadsGrow(c: Config, n: nat)
    ensures Overheads(c, n + 1) == Overheads(c, n) + (c.policy.pauseSeconds + c.policy.resumeSeconds)
  {
  }

  ghost predicate MovesSpaced(c: Config, s: Progress) {
    var starts := MoveStarts(s.steps);
    && |starts| == s.migrations && Spaced(starts, c.gaps.migration)
    && (forall i | 0 <= i < |starts| :: c.start <= starts[i] <= s.now)
    && s.recent.lastMigration == (if starts == [] then None else Some(starts[|starts| - 1]))
    && (c.mode.TemporalOnly? ==> s.migrations == 0)
  }

  ghost predicate StepsAdd(c: Config, s: Progress) {
    && Contiguous(c, s.steps) && FinishOf(c, s.steps) == s.now >= c.start
    && s.carbon == CarbonOf(s.steps) && s.cost == CostOf(s.steps)
    && (s.steps != [] ==> s.steps[|s.steps| - 1].remainingAfter == s.remaining)
  }

  ghost predicate ProgressSound(c: Config, s: Progress) {
    TimeAdds(c, s) && OwnersAdd(c, s) && MovesSpaced(c, s) && StepsAdd(c, s) && PausesAdd(c, s)
  }

  /** Appends a step that takes `seconds`. */
  function Stepped(s: Progress, action: Action, seconds: real, charge: Charge, remaining: real): Progress {
    s.(now := s.now + seconds,
       remaining := remaining,
       carbon := s.carbon + charge.carbon,
       cost := s.cost + charge.cost,
       steps := s.steps + [Step(|s.steps| + 1, action, s.node, s.now, s.now + seconds, charge.carbon, charge.cost,
                                remaining)])
  }

  lemma StepsGrow(c: Config, s: Progress, action: Action, seconds: real, charge: Charge, remaining: real)
    requires StepsAdd(c, s) && seconds >= 0.0
    ensures StepsAdd(c, Stepped(s, action, seconds, charge, remaining))
    ensures MoveStarts(Stepped(s, action, seconds, charge, remaining).steps)
            == MoveStarts(s.steps) + if action.Migrate? then [s.now] else []
    ensures PauseCount(Stepped(s, action, seconds, charge, remaining).steps)
            == PauseCount(s.steps) + if action.Pause? then 1 else 0
  {
    var s' := Stepped(s, action, seconds, charge, remaining);
    assert s'.steps[..|s.steps|] == s.steps;
    forall i | 0 <= i < |s'.steps|
      ensures s'.steps[i].index == i + 1 && s'.steps[i].startedAt == FinishOf(c, s'.steps[..i])
              && s'.steps[i].startedAt <= s'.steps[i].finishedAt
    {
      if i < |s.steps| {
        assert s'.steps[i] == s.steps[i] && s'.steps[..i] == s.steps[..i];
      }
    }
  }

  lemma SpacedAppend(starts: seq<real>, gap: real, start: real)
    requires Spaced(starts, gap) && (starts == [] || start - starts[|starts| - 1] >= gap)
    ensures Spaced(starts + [start], gap)
  {
    var more := starts + [start];
    forall i | 1 <= i < |more| ensures GapBefore(more, gap, i) {
      if i < |starts| {
        assert GapBefore(starts, gap, i);
      }
    }
  }

  function Worked(s: Progress, seconds: real, charge: Charge): Progress {
    Stepped(s, Action.Continue, seconds, charge, MaxReal(0.0, s.remaining - seconds)).(compute := s.compute + seconds)
  }

  lemma WorkKeepsSound(c: Config, s: Progress, charge: Charge)
    requires ProgressSound(c, s) && c.epoch > 0.0
    ensures ProgressSound(c, Worked(s, MinReal(c.epoch, s.remaining), charge))
  {
    hide StepsAdd, Spaced, MoveStarts, PauseCount, Overheads;
    var seconds := MinReal(c.epoch, s.remaining);
    assert StepsAdd(c, s);
    StepsGrow(c, s, Action.Continue, seconds, charge, MaxReal(0.0, s.remaining - seconds));
    assert MoveStarts(s.steps) + [] == MoveStarts(s.steps);
    StepsIgnoreTotals(c, Stepped(s, Action.Continue, seconds, charge, MaxReal(0.0, s.remaining - seconds)),
                      Worked(s, seconds, charge));
  }

  /** `StepsAdd` looks only at the steps and what they add up to. */
  lemma StepsIgnoreTotals(c: Config, s: Progress, s': Progress)
    requires StepsAdd(c, s) && s'.steps == s.steps && s'.now == s.now && s'.carbon == s.carbon && s'.cost == s.cost
    requires s'.remaining == s.remaining
    ensures StepsAdd(c, s')
  {
  }

  function Paused(s: Progress, policy: CostPolicy, idle: real, charge: Charge): Progress {
    Stepped(s, Pause, charge.seconds, charge, s.remaining)
      .(idle := s.idle + idle, overhead := s.overhead + (policy.pauseSeconds + policy.resumeSeconds),
        pauses := s.pauses + 1, recent := s.recent.(lastPause := Some(s.now)))
  }

  lemma PauseKeepsSound(c: Config, s: Progress, idle: real, charge: Charge)
    requires ProgressSound(c, s) && !OnlyWorks(c)
    requires charge.seconds == c.policy.pauseSeconds + idle + c.policy.resumeSeconds >= 0.0
    ensures ProgressSound(c, Paused(s, c.policy, idle, charge))
  {
    hide StepsAdd, Spaced, MoveStarts, PauseCount, Overheads;
    assert StepsAdd(c, s);
    StepsGrow(c, s, Pause, charge.seconds, charge, s.remaining);
    OverheadsGrow(c, s.pauses);
    assert MoveStarts(s.steps) + [] == MoveStarts(s.steps);
    StepsIgnoreTotals(c, Stepped(s, Pause, charge.seconds, charge, s.remaining), Paused(s, c.policy, idle, charge));
  }

  function Moved(s: Progress, destination: NodeId, charge: Charge): Progress {
    Stepped(s, Action.Migrate, charge.seconds, charge, s.remaining)
      .(migration := s.migration + charge.seconds, migrations := s.migrations + 1,
        recent := s.recent.(lastMigration := Some(s.now)), node := destination,
        staged := s.staged + {destination}, ownerPath := s.ownerPath + [destination])
  }

  lemma MoveKeepsSound(c: Config, s: Progress, destination: NodeId, charge: Charge)
    requires ProgressSound(c, s) && c.mode.MagellanCausal? && charge.seconds >= 0.0
    requires destination in Ids(c.nodes) && destination != s.node
    requires !WithinGap(s.recent.lastMigration, s.now, c.gaps.migration)
    ensures ProgressSound(c, Moved(s, destination, charge))
  {
    hide StepsAdd, Spaced, MoveStarts, Ids, PauseCount, Overheads;
    assert StepsAdd(c, s);
    StepsGrow(c, s, Action.Migrate, charge.seconds, charge, s.remaining);
    SpacedAppend(MoveStarts(s.steps), c.gaps.migration, s.now);
    var stepped := Stepped(s, Action.Migrate, charge.seconds, charge, s.remaining);
    StepsIgnoreTotals(c, stepped, Moved(s, destination, charge));
    assert s.now >= c.start by { TimeForward(c, s); }
  }

  lemma TimeForward(c: Config, s: Progress)
    requires StepsAdd(c, s)
    ensures s.now >= c.start
  {
  }

  // ---------- How many decisions are enough ----------

  /** The time that `k` whole epochs take. */
  function EpochsTake(c: Config, k: nat): real {
    k as real * c.epoch
  }

  /** The decisions needed by a task that does nothing but work: after them, what is left counts as done. */
  function EpochsNeeded(c: Config): int
    requires c.epoch > 0.0
  {
    if c.duration <= TINY then 0 else Ceiling((c.duration - TINY) / c.epoch)
  }

  lemma CeilingAtMost(x: real, k: int)
    ensures Ceiling(x) <= k <==> x <= k as real
  {
  }

  lemma QuotientAtMost(x: real, y: real, k: real)
    requires y > 0.0
    ensures x / y <= k <==> x <= k * y
  {
    var q := x / y;
    assert x == q * y;
    if q <= k {
      ProductNonNegative(k - q, y);
      assert (k - q) * y == k * y - q * y;
    } else {
      ProductPositive(q - k, y);
      assert (q - k) * y == q * y - k * y;
    }
  }

  lemma EpochsSuffice(c: Config, k: nat)
    requires c.epoch > 0.0
    ensures EpochsNeeded(c) <= k <==> c.duration - EpochsTake(c, k) <= TINY
  {
    ProductNonNegative(k as real, c.epoch);
    if c.duration > TINY {
      CeilingAtMost((c.duration - TINY) / c.epoch, k);
      QuotientAtMost(c.duration - TINY, c.epoch, k as real);
    }
  }

  /** Where a task stands that has only worked. */
  ghost predicate OnSchedule(c: Config, s: Progress) {
    OnlyWorks(c) ==> s.remaining == MaxReal(0.0, c.duration - EpochsTake(c, |s.steps|))
  }

  lemma ScheduleStarts(c: Config)
    requires c.duration > 0.0
    ensures OnSchedule(c, StartProgress(c))
  {
  }

  lemma ScheduleAdvances(c: Config, s: Progress, charge: Charge)
    requires OnSchedule(c, s) && c.epoch > 0.0 && s.remaining >= 0.0
    ensures OnSchedule(c, Worked(s, MinReal(c.epoch, s.remaining), charge))
  {
    var k := |s.steps|;
    assert EpochsTake(c, k + 1) == EpochsTake(c, k) + c.epoch;
  }

  lemma WorkingFacts(c: Config)
    requires c.epoch > 0.0
    ensures OnlyWorks(c) ==> c.mode.TemporalOnly?
    ensures EpochsNeeded(c) >= 0
  {
    if c.duration > TINY {
      QuotientNonNegative(c.duration - TINY, c.epoch);
    }
  }

  lemma OffSchedule(c: Config, s: Progress)
    requires !OnlyWorks(c)
    ensures OnSchedule(c, s)
  {
  }

  lemma Scheduled(c: Config, s: Progress)
    requires OnSchedule(c, s) && OnlyWorks(c) && c.epoch > 0.0
    ensures s.remaining <= TINY <==> EpochsNeeded(c) <= |s.steps|
  {
    EpochsSuffice(c, |s.steps|);
  }

  // ---------- The replay ----------

  function StartProgress(c: Config): Progress {
    Progress(c.start, c.startNode, c.duration, 0.0, 0.0, 0.0, 0.0, 0.0, 0.0, 0, 0, Recent(None, None), [c.startNode],
             if c.prestaged then Ids(c.nodes) else {c.startNode}, [])
  }

  function SituationOf(s: Progress): Situation {
    Situation(s.node, s.now, s.remaining, s.cost)
  }

  /** What the decision in `s` leads to: an epoch's work, the pause that was estimated, or the move. */
  ghost predicate CarriedOut(c: Config, s: Progress, e: Estimate, s': Progress)
    requires ValidConfig(c)
  {
    && FindNode(c.nodes, s.node).Some?
    && var source := FindNode(c.nodes, s.node).value;
    match e.action
    case Continue =>
      var seconds := MinReal(c.epoch, s.remaining);
      s' == Worked(s, seconds, ComputeSegment(source, c.intensity, s.now, seconds, c.powerKw))
    case Pause =>
      s' == Paused(s, c.policy, e.idle, PauseCharge(source, c.policy, c.intensity, s.now, e.idle, c.powerKw))
    case Migrate =>
      && e.destination.Some? && FindNode(c.nodes, e.destination.value).Some?
      && var d := e.destination.value;
      var bytes := c.checkpointBytes + if d in s.staged then 0 else c.staticBytes;
      s' == Moved(s, d, MigrationCharge(source, FindNode(c.nodes, d).value, c.link(s.node, d), c.policy, c.intensity,
                                        s.now, c.powerKw, bytes))
  }

  /** Decision `i` of a run: taken while there is work, as the policy says of where the task stands, and carried out. */
  ghost predicate DecidedAt(c: Config, root: real -> real, run: seq<Progress>, epochs: seq<Epoch>, i: nat)
    requires ValidConfig(c) && |run| == |epochs| + 1 && i < |epochs|
  {
    && run[i].remaining > TINY
    && epochs[i].before == (if i == 0 then FreshState(Normalized(c.policy.weights)) else epochs[i - 1].after)
    && Evaluated(c, SituationOf(run[i]), run[i].recent, run[i].staged, root, epochs[i])
    && CarriedOut(c, run[i], epochs[i].choice.selected.estimate, run[i + 1])
  }

  /** A run of the policy from the start to `s`. */
  ghost predicate RunsTo(c: Config, root: real -> real, run: seq<Progress>, epochs: seq<Epoch>, s: Progress)
    requires ValidConfig(c)
  {
    && |run| == |epochs| + 1 && run[0] == StartProgress(c) && run[|epochs|] == s
    && forall i | 0 <= i < |epochs| :: DecidedAt(c, root, run, epochs, i)
  }

  lemma RunGrows(c: Config, root: real -> real, run: seq<Progress>, epochs: seq<Epoch>, s: Progress, e: Epoch,
                 s': Progress)
    requires ValidConfig(c) && RunsTo(c, root, run, epochs, s) && s.remaining > TINY
    requires e.before == LastState(c, epochs)
    requires Evaluated(c, SituationOf(s), s.recent, s.staged, root, e)
    requires CarriedOut(c, s, e.choice.selected.estimate, s')
    ensures RunsTo(c, root, run + [s'], epochs + [e], s')
  {
    hide ValidConfig, Evaluated, CarriedOut, StartProgress;
    var run', epochs' := run + [s'], epochs + [e];
    forall i | 0 <= i < |epochs'| ensures DecidedAt(c, root, run', epochs', i) {
      if i < |epochs| {
        assert DecidedAt(c, root, run, epochs, i);
      }
    }
  }

  lemma WorkCarriedOut(c: Config, s: Progress, e: Estimate)
    requires ValidConfig(c) && FindNode(c.nodes, s.node).Some? && e.action.Continue?
    ensures var seconds := MinReal(c.epoch, s.remaining);
            var charge := ComputeSegment(FindNode(c.nodes, s.node).value, c.intensity, s.now, seconds, c.powerKw);
            CarriedOut(c, s, e, Worked(s, seconds, charge))
  {
  }

  lemma PauseCarriedOut(c: Config, s: Progress, e: Estimate)
    requires ValidConfig(c) && FindNode(c.nodes, s.node).Some? && e.action.Pause?
    ensures var source := FindNode(c.nodes, s.node).value;
            var charge := PauseCharge(source, c.policy, c.intensity, s.now, e.idle, c.powerKw);
            CarriedOut(c, s, e, Paused(s, c.policy, e.idle, charge))
  {
  }

  lemma MoveCarriedOut(c: Config, s: Progress, e: Estimate)
    requires ValidConfig(c) && FindNode(c.nodes, s.node).Some? && e.action.Migrate? && e.destination.Some?
    requires FindNode(c.nodes, e.destination.value).Some?
    ensures var source, d := FindNode(c.nodes, s.node).value, e.destination.value;
            var bytes := c.checkpointBytes + if d in s.staged then 0 else c.staticBytes;
            var charge := MigrationCharge(source, FindNode(c.nodes, d).value, c.link(s.node, d), c.policy, c.intensity,
                                          s.now, c.powerKw, bytes);
            CarriedOut(c, s, e, Moved(s, d, charge))
  {
  }

  /** The policy's state after the decisions so far. */
  function LastState(c: Config, epochs: seq<Epoch>): PolicyState
    requires ValidWeights(c.policy.weights)
  {
    if epochs == [] then FreshState(Normalized(c.policy.weights)) else epochs[|epochs| - 1].after
  }

  lemma RunStarts(c: Config, root: real -> real)
    requires ValidConfig(c)
    ensures RunsTo(c, root, [StartProgress(c)], [], StartProgress(c))
  {
  }

  /**
   The replay. `s` is where it stood when it stopped; the replayed outcome is `s` when there is no error.
   It gives up exactly when every allowed decision was taken. A task that only works completes only if more decisions
   are allowed than it needs epochs: when just as many are, the work is done and the replay gives up all the same.
   Where it stopped is where a run of the policy leads: every decision is what its epoch's scores call for.
   */
  method ReplayCausalPolicy(c: Config, maxDecisions: nat, root: real -> real)
    returns (error: Option<ReplayError>, s: Progress, ghost run: seq<Progress>, ghost epochs: seq<Epoch>)
    requires ValidConfig(c) && IsSquareRoot(root)
    ensures error == Some(UnsupportedLabel) <==> c.mode.OtherPolicy?
    ensures error == Some(UnknownNode) <==> !c.mode.OtherPolicy? && c.startNode !in Ids(c.nodes)
    ensures error.None? ==> ProgressSound(c, s) && s.remaining <= TINY && |s.steps| < maxDecisions
    ensures error == Some(TooManyDecisions) ==> ProgressSound(c, s) && |s.steps| == maxDecisions
    ensures error.None? || error == Some(TooManyDecisions) ==>
              RunsTo(c, root, run, epochs, s) && |epochs| == |s.steps|
    ensures OnlyWorks(c) && c.startNode in Ids(c.nodes) ==>
              && (error == Some(TooManyDecisions) <==> maxDecisions <= EpochsNeeded(c))
              && (maxDecisions == EpochsNeeded(c) ==> s.remaining <= TINY)
  {
    hide ProgressSound, OnSchedule, OnlyWorks, EpochsNeeded, IsSquareRoot, ComputeSegment, PauseCharge;
    hide MigrationCharge, Peers, WithinGap, Evaluated, RunsTo, CarriedOut, MoveWins, MoveRefused, IsBest, ScoreEach;
    s := StartProgress(c);
    run, epochs := [s], [];
    RunStarts(c, root);
    WorkingFacts(c);
    if c.mode.OtherPolicy? {
      return Some(UnsupportedLabel), s, run, epochs;
    }
    FindNodeFinds(c.nodes, c.startNode);
    if FindNode(c.nodes, c.startNode).None? {
      return Some(UnknownNode), s, run, epochs;
    }
    var service := new AdaptivePolicyService(c.adaptive, c.policy.weights, root);
    StartIsSound(c);
    ScheduleStarts(c);
    for index := 0 to maxDecisions
      invariant ProgressSound(c, s) && OnSchedule(c, s) && |s.steps| == index && service.Valid() && fresh(service)
      invariant service.policy == c.adaptive && service.root == root && service.StateFor(0) == LastState(c, epochs)
      invariant RunsTo(c, root, run, epochs, s) && |epochs| == index
      invariant OnlyWorks(c) ==> EpochsNeeded(c) >= index
    {
      SoundFacts(c, s);
      if OnlyWorks(c) {
        Scheduled(c, s);
      }
      if s.remaining <= TINY {
        return None, s, run, epochs;
      }
      var situation := Situation(s.node, s.now, s.remaining, s.cost);
      ghost var before, from := service.StateFor(0), s;
      var choice, es, context := EvaluateTask(c, situation, s.recent, s.staged, service);
      var selected := choice.selected.estimate;
      SelectedFacts(c, s.node, es, selected);
      FindNodeFinds(c.nodes, s.node);
      var source := FindNode(c.nodes, s.node).value;
      match selected.action {
        case Continue =>
          var seconds := MinReal(c.epoch, s.remaining);
          var charge := ComputeSegment(source, c.intensity, s.now, seconds, c.powerKw);
          WorkKeepsSound(c, s, charge);
          ScheduleAdvances(c, s, charge);
          WorkCarriedOut(c, s, selected);
          s := Worked(s, seconds, charge);
        case Pause =>
          var charge := PauseCharge(source, c.policy, c.intensity, s.now, selected.idle, c.powerKw);
          PauseTakes(source, c.policy, c.intensity, s.now, selected.idle, c.powerKw);
          PauseKeepsSound(c, s, selected.idle, charge);
          OffSchedule(c, Paused(s, c.policy, selected.idle, charge));
          PauseCarriedOut(c, s, selected);
          s := Paused(s, c.policy, selected.idle, charge);
        case Migrate =>
          var d := selected.destination.value;
          FindNodeFinds(c.nodes, d);
          var destination := FindNode(c.nodes, d).value;
          var bytes := c.checkpointBytes + if d in s.staged then 0 else c.staticBytes;
          var charge := MigrationCharge(source, destination, c.link(s.node, d), c.policy, c.intensity, s.now, c.powerKw,
                                        bytes);
          MigrationNonNegative(source, destination, c.link(s.node, d), c.policy, c.intensity, s.now, c.powerKw, bytes);
          MoveKeepsSound(c, s, d, charge);
          OffSchedule(c, Moved(s, d, charge));
          MoveCarriedOut(c, s, selected);
          s := Moved(s, d, charge);
      }
      ghost var e := Epoch(before, es, context, choice, service.StateFor(0));
      RunGrows(c, root, run, epochs, from, e, s);
      run, epochs := run + [s], epochs + [e];
    }
    SoundFacts(c, s);
    if OnlyWorks(c) {
      Scheduled(c, s);
    }
    error := Some(TooManyDecisions);
  }

  lemma PauseTakes(n: NodeConfig, policy: CostPolicy, intensity: Intensity, start: real, idle: real, powerKw: real)
    ensures PauseCharge(n, policy, intensity, start, idle, powerKw).seconds
            == policy.pauseSeconds + idle + policy.resumeSeconds
  {
  }

  lemma StartIsSound(c: Config)
    requires c.startNode in Ids(c.nodes) && c.duration > 0.0
    ensures ProgressSound(c, StartProgress(c))
  {
  }

  lemma SoundFacts(c: Config, s: Progress)
    requires ProgressSound(c, s)
    ensures s.node in Ids(c.nodes) && s.remaining >= 0.0
  {
  }

  // ---------- What the replay guarantees ----------

  function Gaps(n: nat, gap: real): real {
    n as real * gap
  }

  lemma {:induction false} SpacedSpan(starts: seq<real>, gap: real)
    requires starts != [] && Spaced(starts, gap)
    ensures starts[|starts| - 1] - starts[0] >= Gaps(|starts| - 1, gap)
    decreases |starts|
  {
    if |starts| > 1 {
      var front := starts[..|starts| - 1];
      forall i | 1 <= i < |front| ensures GapBefore(front, gap, i) {
        assert GapBefore(starts, gap, i);
      }
      SpacedSpan(front, gap);
      assert GapBefore(starts, gap, |starts| - 1);
      assert Gaps(|starts| - 1, gap) == Gaps(|starts| - 2, gap) + gap;
    }
  }

  /**
   Time is conserved, work is conserved, every move is on the owner path, and moves cannot come faster than
   the gap: n of them take at least n-1 gaps of the makespan.
   */
  lemma ReplayConserves(c: Config, s: Progress)
    requires ProgressSound(c, s)
    ensures s.now - c.start == s.compute + s.idle + s.overhead + s.migration
    ensures s.compute + s.remaining == c.duration
    ensures |s.ownerPath| == s.migrations + 1
    ensures s.migrations >= 1 ==> Gaps(s.migrations - 1, c.gaps.migration) <= s.now - c.start
    ensures s.carbon == CarbonOf(s.steps) && s.cost == CostOf(s.steps)
    ensures s.pauses == PauseCount(s.steps)
            && s.overhead == s.pauses as real * (c.policy.pauseSeconds + c.policy.resumeSeconds)
  {
    hide Gaps;
    var starts := MoveStarts(s.steps);
    if s.migrations >= 1 {
      SpacedSpan(starts, c.gaps.migration);
    }
  }
}
