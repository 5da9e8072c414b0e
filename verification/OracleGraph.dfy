/** The step graph that the clairvoyant oracle searches (magellan/experiments/oracle.py). */
module OracleGraph {
  import opened Common
  import opened Costs

  datatype Problem = Problem(
    nodes: seq<NodeConfig>,
    link: (NodeId, NodeId) -> Link,
    intensity: Intensity,
    policy: CostPolicy,
    duration: real,
    powerKw: real,
    transferBytes: nat,            // checkpoint, and static data unless it is staged beforehand
    startNode: NodeId,
    referenceTime: real,
    referenceCarbon: real,
    referenceCost: real,
    quantum: real,
    multiplier: real)

  datatype Place = Place(elapsed: nat, done: nat, node: NodeId)

  datatype Move = Continue | Wait | Migrate(destination: NodeId)

  datatype Edge = Edge(
    move: Move,
    source: NodeId,
    steps: nat,
    seconds: real,
    compute: real,
    idle: real,
    migration: real,
    carbon: real,
    cost: real)

  /** Time, carbon and money along a path. */
  datatype Metrics = Metrics(time: real, carbon: real, cost: real)

  function FindNode(nodes: seq<NodeConfig>, id: NodeId): Option<NodeConfig> {
    if nodes == [] then None else if nodes[0].id == id then Some(nodes[0]) else FindNode(nodes[1..], id)
  }

  function Peers(nodes: seq<NodeConfig>, id: NodeId): seq<NodeConfig> {
    if nodes == [] then []
    else (if nodes[0].id != id then [nodes[0]] else []) + Peers(nodes[1..], id)
  }

  function Ids(nodes: seq<NodeConfig>): set<NodeId> {
    set n | n in nodes :: n.id
  }

  /** The configuration loader refuses two nodes with one id. */
  ghost predicate UniqueIds(nodes: seq<NodeConfig>) {
    forall m, n | m in nodes && n in nodes :: m.id == n.id ==> m == n
  }

  /** What the configuration models and the workload model guarantee. */
  ghost predicate WellConfigured(p: Problem) {
    && (forall n | n in p.nodes :: ValidNode(n)) && UniqueIds(p.nodes)
    && (forall s, d :: ValidLink(p.link(s, d)))
    && ValidIntensity(p.intensity) && ValidPolicy(p.policy)
    && p.duration > 0.0 && p.powerKw > 0.0
  }

  /** ... and with it the guards at the head of the search. */
  ghost predicate Valid(p: Problem) {
    && WellConfigured(p)
    && p.quantum > 0.0 && p.multiplier >= 1.0
    && p.startNode in Ids(p.nodes)
  }

  function Quanta(seconds: real, quantum: real): int
    requires quantum > 0.0
  {
    Ceiling(seconds / quantum)
  }

  function WorkSteps(p: Problem): int
    requires p.quantum > 0.0
  {
    Quanta(p.duration, p.quantum)
  }

  function HorizonSeconds(p: Problem): real {
    p.duration * p.multiplier
  }

  function MaxSteps(p: Problem): int
    requires p.quantum > 0.0
  {
    Quanta(HorizonSeconds(p), p.quantum)
  }

  function Start(p: Problem): Place {
    Place(0, 0, p.startNode)
  }

  /** Work still to be done, of which at most one quantum fits the next step. */
  function ComputeSeconds(p: Problem, done: nat): real {
    MinReal(p.quantum, MaxReal(0.0, p.duration - done as real * p.quantum))
  }

  function Instant(p: Problem, elapsed: nat): real {
    elapsed as real * p.quantum
  }

  function SegmentAt(p: Problem, n: NodeConfig, elapsed: nat, seconds: real): Charge {
    ComputeSegment(n, p.intensity, Instant(p, elapsed), seconds, p.powerKw)
  }

  ghost function MigrationAt(p: Problem, source: NodeConfig, destination: NodeConfig, elapsed: nat): Charge
    requires Valid(p)
  {
    MigrationCharge(source, destination, p.link(source.id, destination.id), p.policy, p.intensity,
                    Instant(p, elapsed), p.powerKw, p.transferBytes)
  }

  function ContinueEdge(p: Problem, u: Place, c: Charge): Edge {
    var seconds := ComputeSeconds(p, u.done);
    Edge(Continue, u.node, 1, seconds, seconds, 0.0, 0.0, c.carbon, c.cost)
  }

  function WaitEdge(p: Problem, u: Place): Edge {
    Edge(Wait, u.node, 1, p.quantum, 0.0, p.quantum, 0.0, 0.0, 0.0)
  }

  function MigrateEdge(p: Problem, u: Place, destination: NodeId, c: Charge): Edge
    requires p.quantum > 0.0
  {
    var steps := CeilSteps(c.seconds, p.quantum);
    Edge(Migrate(destination), u.node, steps, steps as real * p.quantum, 0.0, 0.0, c.seconds, c.carbon, c.cost)
  }

  ghost function MigrateEdges(p: Problem, u: Place, source: NodeConfig, peers: seq<NodeConfig>): seq<Edge>
    requires Valid(p)
  {
    seq(|peers|, i requires 0 <= i < |peers| =>
      MigrateEdge(p, u, peers[i].id, MigrationAt(p, source, peers[i], u.elapsed)))
  }

  /** Every step the task can take from `u`: work, wait, or move to a peer. */
  ghost function Candidates(p: Problem, u: Place): seq<Edge>
    requires Valid(p)
  {
    match FindNode(p.nodes, u.node)
    case None => []
    case Some(n) =>
      [ContinueEdge(p, u, SegmentAt(p, n, u.elapsed, ComputeSeconds(p, u.done))), WaitEdge(p, u)]
      + MigrateEdges(p, u, n, Peers(p.nodes, u.node))
  }

  function Next(u: Place, e: Edge): Place {
    match e.move
    case Continue => Place(u.elapsed + e.steps, u.done + 1, u.node)
    case Wait => Place(u.elapsed + e.steps, u.done, u.node)
    case Migrate(d) => Place(u.elapsed + e.steps, u.done, d)
  }

  /** A reference value, kept away from zero. */
  function Scale(reference: real): (scale: real)
    ensures scale > 0.0 && scale >= reference
  {
    MaxReal(reference, TOLERANCE)
  }

  /** The weighted objective of one step, scaled by the reference run. */
  function Increment(p: Problem, e: Edge): real
    requires ValidWeights(p.policy.weights)
  {
    var w := Normalized(p.policy.weights);
    w.time * e.seconds / Scale(p.referenceTime)
    + w.carbon * e.carbon / Scale(p.referenceCarbon)
    + w.cost * e.cost / Scale(p.referenceCost)
  }

  // ---------- Schedules ----------

  predicate Goal(p: Problem, u: Place)
    requires p.quantum > 0.0
  {
    u.done >= WorkSteps(p)
  }

  /** A schedule in the step graph that stays inside the horizon. */
  ghost predicate Feasible(p: Problem, u: Place, path: seq<Edge>)
    requires Valid(p)
    decreases |path|
  {
    path == [] ||
    (path[0] in Candidates(p, u) && Next(u, path[0]).elapsed <= MaxSteps(p)
     && Feasible(p, Next(u, path[0]), path[1..]))
  }

  function End(u: Place, path: seq<Edge>): Place
    decreases |path|
  {
    if path == [] then u else End(Next(u, path[0]), path[1..])
  }

  ghost function Cost(p: Problem, path: seq<Edge>): real
    requires Valid(p)
  {
    if path == [] then 0.0 else Increment(p, path[0]) + Cost(p, path[1..])
  }

  // ---------- Facts about one step ----------

  lemma {:induction false} FindNodeFinds(nodes: seq<NodeConfig>, id: NodeId)
    ensures FindNode(nodes, id).Some? <==> id in Ids(nodes)
    ensures FindNode(nodes, id).Some? ==> FindNode(nodes, id).value in nodes && FindNode(nodes, id).value.id == id
  {
    if nodes != [] {
      FindNodeFinds(nodes[1..], id);
      assert forall n :: n in nodes <==> n == nodes[0] || n in nodes[1..];
    }
  }

  lemma {:induction false} PeersKnown(nodes: seq<NodeConfig>, id: NodeId)
    ensures forall n :: n in Peers(nodes, id) <==> n in nodes && n.id != id
  {
    if nodes != [] {
      PeersKnown(nodes[1..], id);
      assert forall n :: n in nodes <==> n == nodes[0] || n in nodes[1..];
    }
  }

  /** Each step advances time, completes at most as much as it advances, and stays inside the cluster. */
  lemma CandidateAdvances(p: Problem, u: Place, e: Edge)
    requires Valid(p) && e in Candidates(p, u)
    ensures e.steps >= 1 && u.elapsed < Next(u, e).elapsed
    ensures Next(u, e).done - u.done <= Next(u, e).elapsed - u.elapsed
    ensures u.node in Ids(p.nodes) && Next(u, e).node in Ids(p.nodes)
  {
    FindNodeFinds(p.nodes, u.node);
    PeersKnown(p.nodes, u.node);
  }

  lemma ScaledNonNegative(w: real, x: real, scale: real)
    requires w >= 0.0 && x >= 0.0 && scale > 0.0
    ensures w * x / scale >= 0.0
  {
    ProductNonNegative(w, x);
  }

  lemma MigrationAtNonNegative(p: Problem, source: NodeConfig, destination: NodeConfig, elapsed: nat)
    requires Valid(p) && source in p.nodes && destination in p.nodes
    ensures var c := MigrationAt(p, source, destination, elapsed);
            c.seconds >= 0.0 && c.carbon >= 0.0 && c.cost >= 0.0
  {
    hide MigrationCharge, Instant;
    MigrationNonNegative(source, destination, p.link(source.id, destination.id), p.policy, p.intensity,
                         Instant(p, elapsed), p.powerKw, p.transferBytes);
  }

  lemma EdgeChargesNonNegative(p: Problem, u: Place, e: Edge)
    requires Valid(p) && e in Candidates(p, u)
    ensures e.seconds >= 0.0 && e.carbon >= 0.0 && e.cost >= 0.0
  {
    hide ComputeSegment, MigrationAt, Instant, CeilSteps, FindNode, Peers;
    FindNodeFinds(p.nodes, u.node);
    PeersKnown(p.nodes, u.node);
    var n := FindNode(p.nodes, u.node).value;
    ComputeNonNegative(n, p.intensity, Instant(p, u.elapsed), ComputeSeconds(p, u.done), p.powerKw);
    var peers := Peers(p.nodes, u.node);
    forall i | 0 <= i < |peers|
      ensures var e' := MigrateEdges(p, u, n, peers)[i]; e'.seconds >= 0.0 && e'.carbon >= 0.0 && e'.cost >= 0.0
    {
      MigrationAtNonNegative(p, n, peers[i], u.elapsed);
      ProductNonNegative(MigrateEdges(p, u, n, peers)[i].steps as real, p.quantum);
    }
  }

  lemma IncrementNonNegative(p: Problem, u: Place, e: Edge)
    requires Valid(p) && e in Candidates(p, u)
    ensures Increment(p, e) >= 0.0
  {
    hide Candidates, Scale;
    EdgeChargesNonNegative(p, u, e);
    NormalizedNonNegative(p.policy.weights);
    var n := Normalized(p.policy.weights);
    ScaledNonNegative(n.time, e.seconds, Scale(p.referenceTime));
    ScaledNonNegative(n.carbon, e.carbon, Scale(p.referenceCarbon));
    ScaledNonNegative(n.cost, e.cost, Scale(p.referenceCost));
  }

  lemma NormalizedNonNegative(w: Weights)
    requires ValidWeights(w)
    ensures Normalized(w).time >= 0.0 && Normalized(w).carbon >= 0.0 && Normalized(w).cost >= 0.0
  {
    var total := w.time + w.carbon + w.cost;
    QuotientNonNegative(w.time, total);
    QuotientNonNegative(w.carbon, total);
    QuotientNonNegative(w.cost, total);
  }
}
