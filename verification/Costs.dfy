/** What running, pausing and moving a task costs (magellan/experiments/comparison.py, magellan/models/utils.py). */
module Costs {
  import opened Common

  datatype NodeConfig = NodeConfig(id: NodeId, pue: real, computePricePerHour: real, egressPricePerGb: real)

  datatype Link = Link(
    distanceKm: real,
    bandwidthMbps: real,
    latencyMs: real,
    checkpointSeconds: Option<real>,
    restoreSeconds: Option<real>)

  datatype Weights = Weights(time: real, carbon: real, cost: real)

  datatype CostPolicy = CostPolicy(
    weights: Weights,
    pauseSeconds: real,
    resumeSeconds: real,
    networkKwhPerGb: real,
    networkKwhPerGbKm: real)

  /** Mean carbon intensity at a node, from a start time and over a duration, both in seconds. */
  type Intensity = (NodeId, real, real) -> real

  datatype Charge = Charge(seconds: real, carbon: real, cost: real)

  ghost predicate ValidIntensity(intensity: Intensity) {
    forall n, t, d :: intensity(n, t, d) >= 0.0
  }

  predicate ValidNode(n: NodeConfig) {
    n.pue >= 1.0 && n.computePricePerHour >= 0.0 && n.egressPricePerGb >= 0.0
  }

  predicate ValidLink(l: Link) {
    && l.distanceKm >= 0.0 && l.bandwidthMbps > 0.0 && l.latencyMs >= 0.0
    && (l.checkpointSeconds.Some? ==> l.checkpointSeconds.value >= 0.0)
    && (l.restoreSeconds.Some? ==> l.restoreSeconds.value >= 0.0)
  }

  predicate ValidWeights(w: Weights) {
    w.time >= 0.0 && w.carbon >= 0.0 && w.cost >= 0.0 && w.time + w.carbon + w.cost > 0.0
  }

  predicate ValidPolicy(p: CostPolicy) {
    && ValidWeights(p.weights) && p.pauseSeconds >= 0.0 && p.resumeSeconds >= 0.0
    && p.networkKwhPerGb >= 0.0 && p.networkKwhPerGbKm >= 0.0
  }

  function Hours(seconds: real): real {
    seconds / 3600.0
  }

  function Normalized(w: Weights): Weights
    requires w.time + w.carbon + w.cost > 0.0
  {
    var total := w.time + w.carbon + w.cost;
    Weights(w.time / total, w.carbon / total, w.cost / total)
  }

  /** Active seconds at a node: the energy is charged as carbon, the time as money. */
  function ComputeSegment(n: NodeConfig, intensity: Intensity, start: real, seconds: real, powerKw: real): Charge {
    if seconds <= 0.0 then Charge(0.0, 0.0, 0.0)
    else Charge(seconds,
                powerKw * n.pue * Hours(seconds) * intensity(n.id, start, seconds),
                n.computePricePerHour * Hours(seconds))
  }

  /** Pausing and resuming burn energy but are not billed. */
  function OverheadSegment(n: NodeConfig, intensity: Intensity, start: real, seconds: real, powerKw: real): Charge {
    ComputeSegment(n, intensity, start, seconds, powerKw).(cost := 0.0)
  }

  function PauseCharge(n: NodeConfig, policy: CostPolicy, intensity: Intensity, start: real, idle: real, powerKw: real)
    : Charge
  {
    var pause := OverheadSegment(n, intensity, start, policy.pauseSeconds, powerKw);
    var resume := OverheadSegment(n, intensity, start + (policy.pauseSeconds + idle), policy.resumeSeconds, powerKw);
    Charge(policy.pauseSeconds + idle + policy.resumeSeconds, pause.carbon + resume.carbon, 0.0)
  }

  function TransferSeconds(bytes: nat, link: Link): real
    requires link.bandwidthMbps > 0.0
  {
    (bytes * 8) as real / (link.bandwidthMbps * 1000000.0) + link.latencyMs / 1000.0
  }

  function MigrationCharge(
      source: NodeConfig, destination: NodeConfig, link: Link, policy: CostPolicy, intensity: Intensity,
      start: real, powerKw: real, bytes: nat): Charge
    requires link.bandwidthMbps > 0.0
  {
    var transfer := TransferSeconds(bytes, link);
    var checkpoint := if link.checkpointSeconds.Some? then link.checkpointSeconds.value else policy.pauseSeconds;
    var restore := if link.restoreSeconds.Some? then link.restoreSeconds.value else policy.resumeSeconds;
    var before := intensity(source.id, start, checkpoint);
    var after := intensity(destination.id, start + (checkpoint + transfer), restore);
    var gb := bytes as real / 1000000000.0;
    var network := gb * (policy.networkKwhPerGb + policy.networkKwhPerGbKm * link.distanceKm);
    Charge(checkpoint + transfer + restore,
           powerKw * source.pue * Hours(checkpoint) * before
           + powerKw * destination.pue * Hours(restore) * after
           + network * ((before + after) / 2.0),
           gb * source.egressPricePerGb)
  }

  function Ceiling(x: real): int {
    -((-x).Floor)
  }

  /** Rounding slack used throughout the planner. */
  const TOLERANCE: real := 0.000000000001

  /** Whole quanta a duration takes, at least one. */
  function CeilSteps(seconds: real, quantum: real): (steps: nat)
    requires quantum > 0.0
    ensures steps >= 1
  {
    var c := Ceiling(seconds / quantum - TOLERANCE);
    if c < 1 then 1 else c
  }

  // ---------- Non-negativity ----------

  lemma EnergyNonNegative(powerKw: real, pue: real, seconds: real, level: real)
    requires powerKw >= 0.0 && pue >= 0.0 && seconds >= 0.0 && level >= 0.0
    ensures powerKw * pue * Hours(seconds) * level >= 0.0
  {
    ProductNonNegative(powerKw, pue);
    ProductNonNegative(powerKw * pue, Hours(seconds));
    ProductNonNegative(powerKw * pue * Hours(seconds), level);
  }

  lemma ComputeNonNegative(n: NodeConfig, intensity: Intensity, start: real, seconds: real, powerKw: real)
    requires ValidNode(n) && ValidIntensity(intensity) && powerKw >= 0.0
    ensures var c := ComputeSegment(n, intensity, start, seconds, powerKw);
            c.seconds >= 0.0 && c.carbon >= 0.0 && c.cost >= 0.0
  {
    if seconds > 0.0 {
      EnergyNonNegative(powerKw, n.pue, seconds, intensity(n.id, start, seconds));
      ProductNonNegative(n.computePricePerHour, Hours(seconds));
    }
  }

  lemma PauseNonNegative(
      n: NodeConfig, policy: CostPolicy, intensity: Intensity, start: real, idle: real, powerKw: real)
    requires ValidNode(n) && ValidPolicy(policy) && ValidIntensity(intensity) && powerKw >= 0.0 && idle >= 0.0
    ensures var c := PauseCharge(n, policy, intensity, start, idle, powerKw);
            c.seconds >= 0.0 && c.carbon >= 0.0 && c.cost >= 0.0
  {
    ComputeNonNegative(n, intensity, start, policy.pauseSeconds, powerKw);
    ComputeNonNegative(n, intensity, start + (policy.pauseSeconds + idle), policy.resumeSeconds, powerKw);
  }

  lemma TransferNonNegative(bytes: nat, link: Link)
    requires ValidLink(link)
    ensures TransferSeconds(bytes, link) >= 0.0
  {
    ProductNonNegative(link.bandwidthMbps, 1000000.0);
    var x, y := (bytes * 8) as real, link.bandwidthMbps * 1000000.0;
    assert x / y >= 0.0;
  }

  lemma MigrationNonNegative(
      source: NodeConfig, destination: NodeConfig, link: Link, policy: CostPolicy, intensity: Intensity,
      start: real, powerKw: real, bytes: nat)
    requires ValidNode(source) && ValidNode(destination) && ValidLink(link) && ValidPolicy(policy)
    requires ValidIntensity(intensity) && powerKw >= 0.0
    ensures var c := MigrationCharge(source, destination, link, policy, intensity, start, powerKw, bytes);
            c.seconds >= 0.0 && c.carbon >= 0.0 && c.cost >= 0.0
  {
    TransferNonNegative(bytes, link);
    var transfer := TransferSeconds(bytes, link);
    var checkpoint := if link.checkpointSeconds.Some? then link.checkpointSeconds.value else policy.pauseSeconds;
    var restore := if link.restoreSeconds.Some? then link.restoreSeconds.value else policy.resumeSeconds;
    var before := intensity(source.id, start, checkpoint);
    var after := intensity(destination.id, start + (checkpoint + transfer), restore);
    var gb := bytes as real / 1000000000.0;
    EnergyNonNegative(powerKw, source.pue, checkpoint, before);
    EnergyNonNegative(powerKw, destination.pue, restore, after);
    ProductNonNegative(policy.networkKwhPerGbKm, link.distanceKm);
    ProductNonNegative(gb, policy.networkKwhPerGb + policy.networkKwhPerGbKm * link.distanceKm);
    ProductNonNegative(gb * (policy.networkKwhPerGb + policy.networkKwhPerGbKm * link.distanceKm),
                       (before + after) / 2.0);
    ProductNonNegative(gb, source.egressPricePerGb);
  }

  // ---------- Pausing ----------

  /** A pause costs no money; it burns power while it pauses and while it resumes, after the idle time between. */
  lemma PauseIsExact(n: NodeConfig, policy: CostPolicy, intensity: Intensity, start: real, idle: real, powerKw: real)
    requires ValidPolicy(policy)
    ensures var c := PauseCharge(n, policy, intensity, start, idle, powerKw);
            && c.seconds == policy.pauseSeconds + idle + policy.resumeSeconds && c.cost == 0.0
            && c.carbon == powerKw * n.pue
                           * (policy.pauseSeconds * intensity(n.id, start, policy.pauseSeconds)
                              + policy.resumeSeconds
                                * intensity(n.id, start + policy.pauseSeconds + idle, policy.resumeSeconds)) / 3600.0
  {
    var first := intensity(n.id, start, policy.pauseSeconds);
    var second := intensity(n.id, start + policy.pauseSeconds + idle, policy.resumeSeconds);
    assert start + (policy.pauseSeconds + idle) == start + policy.pauseSeconds + idle;
    OverheadRegrouped(powerKw * n.pue, policy.pauseSeconds, first);
    OverheadRegrouped(powerKw * n.pue, policy.resumeSeconds, second);
    assert powerKw * n.pue * (policy.pauseSeconds * first + policy.resumeSeconds * second)
           == powerKw * n.pue * (policy.pauseSeconds * first) + powerKw * n.pue * (policy.resumeSeconds * second);
  }

  lemma OverheadRegrouped(power: real, seconds: real, level: real)
    requires seconds >= 0.0
    ensures (if seconds <= 0.0 then 0.0 else power * Hours(seconds) * level) == power * (seconds * level) / 3600.0
  {
    assert power * Hours(seconds) == power * seconds / 3600.0;
    assert power * seconds * level == power * (seconds * level);
  }
}
