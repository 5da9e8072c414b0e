/** The oracle's heap search: lazy deletion, a tolerance on every comparison, and predecessor pointers. */
module OracleSearch {
  import opened Common
  import opened Costs
  import opened OracleGraph

  datatype Entry = Entry(score: real, serial: nat, place: Place)

  datatype Labels = Labels(
    distance: map<Place, real>,
    metrics: map<Place, Metrics>,
    previous: map<Place, (Place, Edge)>)

  function Plus(m: Metrics, e: Edge): Metrics {
    Metrics(m.time + e.seconds, m.carbon + e.carbon, m.cost + e.cost)
  }

  // ---------- What the search maintains ----------

  ghost predicate InHorizon(p: Problem, v: Place)
    requires Valid(p)
  {
    v.elapsed <= MaxSteps(p) && v.done <= v.elapsed && v.node in Ids(p.nodes)
  }

  /** The label of `v` is its predecessor's final label plus the step between them. */
  ghost predicate Linked(p: Problem, l: Labels, settled: set<Place>, v: Place)
    requires Valid(p) && v in l.previous && l.distance.Keys == l.metrics.Keys && v in l.distance
  {
    var (u, e) := l.previous[v];
    && u in settled && u in l.distance && e in Candidates(p, u) && v == Next(u, e)
    && l.distance[v] == l.distance[u] + Increment(p, e)
    && l.metrics[v] == Plus(l.metrics[u], e)
  }

  ghost predicate LabelsSound(p: Problem, l: Labels, settled: set<Place>)
    requires Valid(p)
  {
    && Start(p) in l.distance && l.distance[Start(p)] == 0.0
    && l.distance.Keys == l.metrics.Keys && l.metrics[Start(p)] == Metrics(0.0, 0.0, 0.0)
    && l.previous.Keys == l.distance.Keys - {Start(p)}
    && settled <= l.distance.Keys
    && (forall v | v in l.distance :: InHorizon(p, v))
    && (forall v | v in l.previous :: Linked(p, l, settled, v))
    && (forall v | v in settled :: !Goal(p, v))
  }

  /** `ticket` numbers the one current entry of every open place; all other entries are stale. */
  ghost predicate QueueSound(
      l: Labels, tolerance: real, queue: set<Entry>, serial: nat, ticket: map<Place, nat>, settled: set<Place>,
      frontier: real)
  {
    && (forall x | x in queue :: x.serial < serial && x.place in l.distance && x.score >= frontier)
    && (forall x | x in queue ::
          (x.place !in settled && x.place in ticket && x.serial == ticket[x.place]
           && x.score == l.distance[x.place])
          || x.score > l.distance[x.place] + tolerance)
    && (forall x, y | x in queue && y in queue :: x.serial == y.serial ==> x == y)
    && (forall v | v in l.distance && v !in settled ::
          v in ticket && Entry(l.distance[v], ticket[v], v) in queue)
    && (forall v | v in l.distance && v in settled :: l.distance[v] <= frontier)
  }

  ghost predicate RelaxedBy(p: Problem, tolerance: real, l: Labels, u: Place, e: Edge)
    requires Valid(p) && u in l.distance
  {
    Next(u, e).elapsed <= MaxSteps(p) ==>
      && Next(u, e) in l.distance
      && l.distance[Next(u, e)] <= l.distance[u] + Increment(p, e) + tolerance
  }

  ghost predicate Relaxed(p: Problem, tolerance: real, l: Labels, u: Place)
    requires Valid(p) && u in l.distance
  {
    forall e | e in Candidates(p, u) :: RelaxedBy(p, tolerance, l, u, e)
  }

  ghost predicate AllRelaxed(p: Problem, tolerance: real, l: Labels, settled: set<Place>)
    requires Valid(p)
  {
    forall u | u in settled :: u in l.distance && Relaxed(p, tolerance, l, u)
  }

  /** Labels only fall, and those of settled places stay. */
  ghost predicate Improves(l: Labels, l': Labels, settled: set<Place>) {
    && l.distance.Keys <= l'.distance.Keys
    && (forall v | v in l.distance :: l'.distance[v] <= l.distance[v])
    && (forall v | v in l.distance && v in settled :: l'.distance[v] == l.distance[v])
  }

  lemma ImprovementKeepsRelaxed(p: Problem, tolerance: real, l: Labels, l': Labels, settled: set<Place>, u: Place)
    requires Valid(p) && Improves(l, l', settled) && u in l.distance && u in settled && Relaxed(p, tolerance, l, u)
    ensures Relaxed(p, tolerance, l', u)
  {
    hide Valid, Candidates, Increment, Next;
    forall e | e in Candidates(p, u) ensures RelaxedBy(p, tolerance, l', u, e) {
      assert RelaxedBy(p, tolerance, l, u, e);
    }
  }

  lemma ImprovementKeepsAllRelaxed(
      p: Problem, tolerance: real, l: Labels, l': Labels, settled: set<Place>, expanded: set<Place>)
    requires Valid(p) && Improves(l, l', settled) && expanded <= settled && AllRelaxed(p, tolerance, l, expanded)
    ensures AllRelaxed(p, tolerance, l', expanded)
  {
    hide Valid, Relaxed;
    forall u | u in expanded ensures u in l'.distance && Relaxed(p, tolerance, l', u) {
      ImprovementKeepsRelaxed(p, tolerance, l, l', settled, u);
    }
  }

  // ---------- The heap ----------

  predicate Before(x: Entry, y: Entry) {
    x.score < y.score || (x.score == y.score && x.serial <= y.serial)
  }

  lemma {:induction false} LeastExists(queue: set<Entry>) returns (x: Entry)
    requires queue != {}
    ensures x in queue && forall y | y in queue :: Before(x, y)
    decreases |queue|
  {
    x :| x in queue;
    if queue != {x} {
      var rest := queue - {x};
      assert queue == rest + {x};
      var y := LeastExists(rest);
      if Before(y, x) {
        x := y;
      }
    }
  }

  /** `heappop`: the least score, the earlier push among equals. */
  method PopLeast(queue: set<Entry>) returns (x: Entry, rest: set<Entry>)
    requires queue != {}
    ensures x in queue && rest == queue - {x}
    ensures forall y | y in queue :: Before(x, y)
  {
    ghost var least := LeastExists(queue);
    x :| x in queue && forall y | y in queue :: Before(x, y);
    rest := queue - {x};
  }

  // ---------- Relaxing one step ----------

  ghost predicate CanRelax(
      p: Problem, tolerance: real, l: Labels, queue: set<Entry>, serial: nat, ticket: map<Place, nat>,
      settled: set<Place>, u: Place, e: Edge)
  {
    && Valid(p) && tolerance >= 0.0 && LabelsSound(p, l, settled)
    && u in settled && u in l.distance && e in Candidates(p, u)
    && QueueSound(l, tolerance, queue, serial, ticket, settled, l.distance[u])
  }

  /** The labels once `next` is reached through `u` and `e`. */
  function Relabelled(l: Labels, u: Place, e: Edge, score: real): Labels
    requires u in l.metrics
  {
    Labels(l.distance[Next(u, e) := score],
           l.metrics[Next(u, e) := Plus(l.metrics[u], e)],
           l.previous[Next(u, e) := (u, e)])
  }

  lemma RelabelledSound(p: Problem, l: Labels, settled: set<Place>, u: Place, e: Edge)
    requires Valid(p) && LabelsSound(p, l, settled) && u in settled && u in l.distance && e in Candidates(p, u)
    requires Next(u, e) !in settled && Next(u, e).elapsed <= MaxSteps(p)
    requires Next(u, e) in l.distance ==> l.distance[u] + Increment(p, e) <= l.distance[Next(u, e)]
    ensures var l' := Relabelled(l, u, e, l.distance[u] + Increment(p, e));
            LabelsSound(p, l', settled) && Improves(l, l', settled)
  {
    hide Candidates, Increment, Goal, Valid, MaxSteps;
    WeightsValid(p);
    CandidateAdvances(p, u, e);
    var next := Next(u, e);
    var l' := Relabelled(l, u, e, l.distance[u] + Increment(p, e));
    assert InHorizon(p, u);
    forall v | v in l'.previous ensures Linked(p, l', settled, v) {
      if v != next {
        assert Linked(p, l, settled, v);
      }
    }
  }

  lemma PushedSound(l: Labels, l': Labels, tolerance: real, queue: set<Entry>, serial: nat, ticket: map<Place, nat>,
                    settled: set<Place>, frontier: real, next: Place, score: real)
    requires QueueSound(l, tolerance, queue, serial, ticket, settled, frontier) && next !in settled
    requires l'.distance == l.distance[next := score] && score >= frontier && tolerance >= 0.0
    requires next in l.distance ==> score + tolerance < l.distance[next]
    ensures QueueSound(l', tolerance, queue + {Entry(score, serial, next)}, serial + 1, ticket[next := serial], settled,
                       frontier)
  {
  }

  lemma CheaperIsUnsettled(l: Labels, tolerance: real, queue: set<Entry>, serial: nat, ticket: map<Place, nat>,
                           settled: set<Place>, frontier: real, next: Place, score: real)
    requires QueueSound(l, tolerance, queue, serial, ticket, settled, frontier) && settled <= l.distance.Keys
    requires tolerance >= 0.0 && score >= frontier && (next in l.distance ==> score + tolerance < l.distance[next])
    ensures next !in settled
  {
  }

  method Relax(p: Problem, tolerance: real, l: Labels, queue: set<Entry>, serial: nat, u: Place, score: real, e: Edge,
               ghost ticket: map<Place, nat>, ghost settled: set<Place>)
    returns (l': Labels, queue': set<Entry>, serial': nat, ghost ticket': map<Place, nat>)
    requires CanRelax(p, tolerance, l, queue, serial, ticket, settled, u, e) && score == l.distance[u]
    ensures LabelsSound(p, l', settled) && Improves(l, l', settled)
    ensures QueueSound(l', tolerance, queue', serial', ticket', settled, score)
    ensures RelaxedBy(p, tolerance, l', u, e)
  {
    hide Candidates, Increment, Goal, Valid, LabelsSound, QueueSound, MaxSteps;
    l', queue', serial', ticket' := l, queue, serial, ticket;
    IncrementNonNegative(p, u, e);
    WeightsValid(p);
    KeysMatch(p, l, settled);
    var next := Next(u, e);
    if next.elapsed > MaxSteps(p) {
      return;
    }
    var candidate := score + Increment(p, e);
    if next in l.distance && candidate + tolerance >= l.distance[next] {
      return;
    }
    CheaperIsUnsettled(l, tolerance, queue, serial, ticket, settled, score, next, candidate);
    RelabelledSound(p, l, settled, u, e);
    l' := Labels(l.distance[next := candidate],
                 l.metrics[next := Plus(l.metrics[u], e)],
                 l.previous[next := (u, e)]);
    PushedSound(l, l', tolerance, queue, serial, ticket, settled, score, next, candidate);
    queue' := queue + {Entry(candidate, serial, next)};
    serial' := serial + 1;
    ticket' := ticket[next := serial];
  }

  lemma KeysMatch(p: Problem, l: Labels, settled: set<Place>)
    requires Valid(p) && LabelsSound(p, l, settled)
    ensures l.distance.Keys == l.metrics.Keys && settled <= l.distance.Keys
  {
  }

  lemma WeightsValid(p: Problem)
    requires Valid(p)
    ensures ValidWeights(p.policy.weights) && p.quantum > 0.0
  {
  }
}
