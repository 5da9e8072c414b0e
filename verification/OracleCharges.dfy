/**
 What a schedule is worth and what its steps are charged, said without the planner's own arithmetic: the objective is
 the weighted sum of the schedule's totals, and every charge follows from the configuration and the carbon trace.
 */
module OracleCharges {
  import opened Common
  import opened Costs
  import opened OracleGraph
  import opened OracleSearch

  // ---------- The objective ----------

  /** Time, carbon and money of a whole schedule, on top of `m`. */
  function Along(m: Metrics, path: seq<Edge>): Metrics
    decreases |path|
  {
    if path == [] then m else Along(Plus(m, path[0]), path[1..])
  }

  function Totals(path: seq<Edge>): Metrics {
    Along(Metrics(0.0, 0.0, 0.0), path)
  }

  /** The share of `weight` in `total`, times an amount in units of its reference, which counts as at least 1e-12. */
  function Part(weight: real, total: real, amount: real, reference: real): real
    requires total > 0.0
  {
    weight / total * amount / MaxReal(reference, 0.000000000001)
  }

  /** Totals in units of the reference run, weighted by the policy. */
  ghost function WeightedTotals(p: Problem, m: Metrics): real
    requires ValidWeights(p.policy.weights)
  {
    var w := p.policy.weights;
    var total := w.time + w.carbon + w.cost;
    Part(w.time, total, m.time, p.referenceTime) + Part(w.carbon, total, m.carbon, p.referenceCarbon)
    + Part(w.cost, total, m.cost, p.referenceCost)
  }

  lemma PartSum(weight: real, total: real, x: real, y: real, reference: real)
    requires total > 0.0
    ensures Part(weight, total, x + y, reference)
            == Part(weight, total, x, reference) + Part(weight, total, y, reference)
  {
    var share, scale := weight / total, MaxReal(reference, 0.000000000001);
    assert share * (x + y) == share * x + share * y;
  }

  lemma IncrementInParts(p: Problem, e: Edge)
    requires ValidWeights(p.policy.weights)
    ensures Increment(p, e) == WeightedTotals(p, Metrics(e.seconds, e.carbon, e.cost))
  {
    hide Part, Scale;
    var w := p.policy.weights;
    var total := w.time + w.carbon + w.cost;
    ScaledIsPart(w.time, total, e.seconds, p.referenceTime);
    ScaledIsPart(w.carbon, total, e.carbon, p.referenceCarbon);
    ScaledIsPart(w.cost, total, e.cost, p.referenceCost);
  }

  lemma ScaledIsPart(weight: real, total: real, amount: real, reference: real)
    requires total > 0.0
    ensures weight / total * amount / Scale(reference) == Part(weight, total, amount, reference)
  {
  }

  lemma IncrementIsDifference(p: Problem, m: Metrics, e: Edge)
    requires ValidWeights(p.policy.weights)
    ensures WeightedTotals(p, Plus(m, e)) == WeightedTotals(p, m) + Increment(p, e)
  {
    hide Increment, Part;
    IncrementInParts(p, e);
    var w := p.policy.weights;
    var total := w.time + w.carbon + w.cost;
    PartSum(w.time, total, m.time, e.seconds, p.referenceTime);
    PartSum(w.carbon, total, m.carbon, e.carbon, p.referenceCarbon);
    PartSum(w.cost, total, m.cost, e.cost, p.referenceCost);
  }

  /** What the search adds up step by step along a path is the difference of its weighted totals. */
  lemma {:induction false} CostIsDifference(p: Problem, m: Metrics, path: seq<Edge>)
    requires Valid(p)
    ensures Cost(p, path) == WeightedTotals(p, Along(m, path)) - WeightedTotals(p, m)
    decreases |path|
  {
    hide Valid, Increment, WeightedTotals;
    WeightsValid(p);
    if path != [] {
      IncrementIsDifference(p, m, path[0]);
      CostIsDifference(p, Plus(m, path[0]), path[1..]);
    }
  }

  lemma NothingWeighsNothing(p: Problem)
    requires ValidWeights(p.policy.weights)
    ensures WeightedTotals(p, Metrics(0.0, 0.0, 0.0)) == 0.0
  {
  }

  lemma CostIsWeighted(p: Problem, path: seq<Edge>)
    requires Valid(p)
    ensures Cost(p, path) == WeightedTotals(p, Totals(path))
  {
    hide Valid, WeightedTotals, Cost, Along;
    WeightsValid(p);
    NothingWeighsNothing(p);
    CostIsDifference(p, Metrics(0.0, 0.0, 0.0), path);
  }

  // ---------- The charges of one step ----------

  /** Work burns power at the node's efficiency and is billed by the hour. */
  ghost predicate WorkCharged(p: Problem, n: NodeConfig, start: real, e: Edge) {
    && e.cost == n.computePricePerHour * (e.compute / 3600.0)
    && e.carbon == p.powerKw * n.pue * (e.compute / 3600.0) * p.intensity(n.id, start, e.compute)
  }

  /**
   A move burns power at the source while it writes the checkpoint and at the destination while it restores it, and
   network energy at the mean of the two intensities; only the source's egress is billed.
   */
  ghost predicate MoveCharged(p: Problem, n: NodeConfig, m: NodeConfig, start: real, e: Edge) {
    var link := p.link(n.id, m.id);
    var checkpoint := if link.checkpointSeconds.Some? then link.checkpointSeconds.value else p.policy.pauseSeconds;
    var restore := if link.restoreSeconds.Some? then link.restoreSeconds.value else p.policy.resumeSeconds;
    var before := p.intensity(n.id, start, checkpoint);
    var after := p.intensity(m.id, start + (e.migration - restore), restore);
    var gigabytes := p.transferBytes as real / 1000000000.0;
    var perGigabyte := p.policy.networkKwhPerGb + p.policy.networkKwhPerGbKm * link.distanceKm;
    && (e.migration - checkpoint - restore - link.latencyMs / 1000.0) * (link.bandwidthMbps * 1000000.0)
       == 8.0 * p.transferBytes as real
    && e.cost == gigabytes * n.egressPricePerGb
    && e.carbon == p.powerKw * (n.pue * checkpoint * before + m.pue * restore * after) / 3600.0
                   + gigabytes * perGigabyte * (before + after) / 2.0
  }

  /** A step of the schedule is charged for the node it is taken at and the interval that begins at `start`. */
  ghost predicate StepCharged(p: Problem, start: real, e: Edge) {
    match e.move
    case Continue =>
      exists n | n in p.nodes :: n.id == e.source && WorkCharged(p, n, start, e) && e.seconds == e.compute
    case Wait => e.seconds == e.idle == p.quantum && e.carbon == e.cost == 0.0
    case Migrate(d) =>
      exists n, m | n in p.nodes && m in p.nodes ::
        n.id == e.source && m.id == d && n.id != m.id && MoveCharged(p, n, m, start, e)
  }

  lemma WorkIsCharged(p: Problem, n: NodeConfig, start: real, e: Edge)
    requires e.compute >= 0.0
    requires var c := ComputeSegment(n, p.intensity, start, e.compute, p.powerKw);
             e.carbon == c.carbon && e.cost == c.cost
    ensures WorkCharged(p, n, start, e)
  {
    if e.compute == 0.0 {
      assert p.powerKw * n.pue * (e.compute / 3600.0) == 0.0;
    }
  }

  lemma TransferIsExact(bytes: nat, link: Link)
    requires ValidLink(link)
    ensures (TransferSeconds(bytes, link) - link.latencyMs / 1000.0) * (link.bandwidthMbps * 1000000.0)
            == 8.0 * bytes as real
  {
    var rate := link.bandwidthMbps * 1000000.0;
    assert rate > 0.0;
    assert (bytes * 8) as real / rate * rate == (bytes * 8) as real;
  }

  /** Energy over hours, regrouped. */
  lemma EnergyRegrouped(power: real, pue: real, seconds: real, level: real)
    ensures power * pue * Hours(seconds) * level == power * (pue * seconds * level) / 3600.0
  {
    var x := power * pue;
    assert x * Hours(seconds) == x * seconds / 3600.0;
    assert x * seconds * level == power * (pue * seconds * level);
  }

  lemma MoveIsExact(p: Problem, n: NodeConfig, m: NodeConfig, elapsed: nat, e: Edge)
    requires Valid(p)
    requires var c := MigrationAt(p, n, m, elapsed);
             e.migration == c.seconds && e.carbon == c.carbon && e.cost == c.cost
    ensures MoveCharged(p, n, m, Instant(p, elapsed), e)
  {
    hide Instant, TransferSeconds, Hours, UniqueIds, Ids, ValidIntensity, ValidNode, ValidPolicy;
    var link := p.link(n.id, m.id);
    TransferIsExact(p.transferBytes, link);
    var start := Instant(p, elapsed);
    var checkpoint := if link.checkpointSeconds.Some? then link.checkpointSeconds.value else p.policy.pauseSeconds;
    var restore := if link.restoreSeconds.Some? then link.restoreSeconds.value else p.policy.resumeSeconds;
    var before := p.intensity(n.id, start, checkpoint);
    var after := p.intensity(m.id, start + (checkpoint + TransferSeconds(p.transferBytes, link)), restore);
    assert start + (e.migration - restore) == start + (checkpoint + TransferSeconds(p.transferBytes, link));
    EnergyRegrouped(p.powerKw, n.pue, checkpoint, before);
    EnergyRegrouped(p.powerKw, m.pue, restore, after);
    EnergySum(p.powerKw, n.pue * checkpoint * before, m.pue * restore * after);
    MeanRegrouped(p.transferBytes as real / 1000000000.0
                  * (p.policy.networkKwhPerGb + p.policy.networkKwhPerGbKm * link.distanceKm), before + after);
  }

  lemma EnergySum(power: real, x: real, y: real)
    ensures power * (x + y) / 3600.0 == power * x / 3600.0 + power * y / 3600.0
  {
  }

  lemma MeanRegrouped(energy: real, sum: real)
    ensures energy * (sum / 2.0) == energy * sum / 2.0
  {
  }

  /** Every step the search considers is charged so, from the instant at which it is taken. */
  lemma CandidateIsCharged(p: Problem, u: Place, e: Edge)
    requires Valid(p) && e in Candidates(p, u)
    ensures e.source == u.node && StepCharged(p, Instant(p, u.elapsed), e)
  {
    hide ComputeSegment, MigrationAt, Instant, CeilSteps, FindNode, Peers, MoveCharged, WorkCharged, Ids, UniqueIds;
    FindNodeFinds(p.nodes, u.node);
    PeersKnown(p.nodes, u.node);
    var n := FindNode(p.nodes, u.node).value;
    var peers := Peers(p.nodes, u.node);
    if e.move.Continue? {
      WorkIsCharged(p, n, Instant(p, u.elapsed), e);
    } else if e.move.Migrate? {
      var i :| 0 <= i < |peers| && e == MigrateEdges(p, u, n, peers)[i];
      MoveIsExact(p, n, peers[i], u.elapsed, e);
    }
  }

  // ---------- The interval of one step ----------

  /** Rounding up: so many quanta cover a duration exactly when they are no fewer than its quanta. */
  lemma QuantaCover(seconds: real, quantum: real, steps: int)
    requires quantum > 0.0
    ensures steps >= Quanta(seconds, quantum) <==> steps as real * quantum >= seconds
  {
    var ratio := seconds / quantum;
    assert ratio * quantum == seconds;
    assert steps >= Quanta(seconds, quantum) <==> steps as real >= ratio;
    if steps as real >= ratio {
      ProductNonNegative(steps as real - ratio, quantum);
    } else {
      ProductPositive(ratio - steps as real, quantum);
    }
  }

  /** The work is done after the fewest quanta that cover it, and the horizon is the fewest that cover its multiple. */
  lemma HorizonIsLeast(p: Problem, steps: int)
    requires Valid(p)
    ensures steps >= WorkSteps(p) <==> steps as real * p.quantum >= p.duration
    ensures steps >= MaxSteps(p) <==> steps as real * p.quantum >= p.duration * p.multiplier
  {
    hide Quanta;
    QuantaCover(p.duration, p.quantum, steps);
    QuantaCover(HorizonSeconds(p), p.quantum, steps);
  }

  lemma InstantLater(p: Problem, elapsed: nat, steps: nat)
    ensures Instant(p, elapsed + steps) == Instant(p, elapsed) + steps as real * p.quantum
  {
  }

  /** A step that leaves work to do takes whole quanta. */
  lemma WholeQuanta(p: Problem, u: Place, e: Edge)
    requires Valid(p) && e in Candidates(p, u) && !Goal(p, Next(u, e))
    ensures Instant(p, Next(u, e).elapsed) == Instant(p, u.elapsed) + e.seconds
  {
    hide ComputeSegment, MigrationAt, CeilSteps, FindNode, Peers, Ids, UniqueIds, Quanta;
    hide Instant;
    InstantLater(p, u.elapsed, e.steps);
    if e.move.Continue? {
      QuantaCover(p.duration, p.quantum, u.done + 1);
      assert (u.done + 1) as real * p.quantum == u.done as real * p.quantum + p.quantum;
    }
  }
}
