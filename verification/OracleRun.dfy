/** The main loop of the oracle: pop, skip stale entries, expand, relax. */
module OracleRun {
  import opened Common
  import opened Costs
  import opened OracleGraph
  import opened OracleSearch

  // ---------- Caches ----------

  datatype Caches = Caches(
    compute: map<(nat, NodeId, real), Charge>,
    migration: map<(nat, NodeId, NodeId), Charge>)

  /** What was computed once under a key is what the model gives for that key. */
  ghost predicate CachesSound(p: Problem, caches: Caches)
    requires Valid(p)
  {
    && (forall elapsed, node, seconds | (elapsed, node, seconds) in caches.compute ::
          && FindNode(p.nodes, node).Some?
          && caches.compute[(elapsed, node, seconds)]
             == SegmentAt(p, FindNode(p.nodes, node).value, elapsed, seconds))
    && (forall elapsed, source, destination | (elapsed, source, destination) in caches.migration ::
          && FindNode(p.nodes, source).Some? && FindNode(p.nodes, destination).Some?
          && caches.migration[(elapsed, source, destination)]
             == MigrationAt(p, FindNode(p.nodes, source).value, FindNode(p.nodes, destination).value, elapsed))
  }

  lemma PeerIsFound(p: Problem, id: NodeId, peer: NodeConfig)
    requires Valid(p) && peer in Peers(p.nodes, id)
    ensures FindNode(p.nodes, peer.id) == Some(peer)
  {
    PeersKnown(p.nodes, id);
    FindNodeFinds(p.nodes, peer.id);
  }

  method CachedSegment(p: Problem, caches: Caches, n: NodeConfig, elapsed: nat, seconds: real)
    returns (charge: Charge, caches': Caches)
    requires Valid(p) && CachesSound(p, caches) && FindNode(p.nodes, n.id) == Some(n)
    ensures charge == SegmentAt(p, n, elapsed, seconds) && CachesSound(p, caches')
  {
    hide Valid, FindNode, SegmentAt, MigrationAt;
    var key := (elapsed, n.id, seconds);
    if key in caches.compute {
      return caches.compute[key], caches;
    }
    charge := SegmentAt(p, n, elapsed, seconds);
    caches' := caches.(compute := caches.compute[key := charge]);
  }

  method CachedMigration(p: Problem, caches: Caches, source: NodeConfig, destination: NodeConfig, elapsed: nat)
    returns (charge: Charge, caches': Caches)
    requires Valid(p) && CachesSound(p, caches)
    requires FindNode(p.nodes, source.id) == Some(source) && FindNode(p.nodes, destination.id) == Some(destination)
    ensures charge == MigrationAt(p, source, destination, elapsed) && CachesSound(p, caches')
  {
    hide FindNode, SegmentAt, MigrationCharge, Instant;
    var key := (elapsed, source.id, destination.id);
    if key in caches.migration {
      return caches.migration[key], caches;
    }
    charge := MigrationCharge(source, destination, p.link(source.id, destination.id), p.policy, p.intensity,
                              Instant(p, elapsed), p.powerKw, p.transferBytes);
    caches' := caches.(migration := caches.migration[key := charge]);
  }

  /** The steps out of `u`, charged through the caches. */
  method Expand(p: Problem, u: Place, caches: Caches) returns (edges: seq<Edge>, caches': Caches)
    requires Valid(p) && CachesSound(p, caches) && u.node in Ids(p.nodes)
    ensures edges == Candidates(p, u) && CachesSound(p, caches')
  {
    hide Valid, CachesSound, FindNode, Peers, SegmentAt, MigrationAt, ContinueEdge, WaitEdge, MigrateEdge;
    FindNodeFinds(p.nodes, u.node);
    WeightsValid(p);
    var source := FindNode(p.nodes, u.node).value;
    var charge;
    charge, caches' := CachedSegment(p, caches, source, u.elapsed, ComputeSeconds(p, u.done));
    edges := [ContinueEdge(p, u, charge), WaitEdge(p, u)];
    var peers := Peers(p.nodes, u.node);
    for i := 0 to |peers|
      invariant |edges| == 2 + i && CachesSound(p, caches')
      invariant edges[0] == ContinueEdge(p, u, SegmentAt(p, source, u.elapsed, ComputeSeconds(p, u.done)))
      invariant edges[1] == WaitEdge(p, u)
      invariant forall k | 0 <= k < i ::
                  edges[2 + k] == MigrateEdge(p, u, peers[k].id, MigrationAt(p, source, peers[k], u.elapsed))
    {
      PeerIsFound(p, u.node, peers[i]);
      charge, caches' := CachedMigration(p, caches', source, peers[i], u.elapsed);
      edges := edges + [MigrateEdge(p, u, peers[i].id, charge)];
    }
    assert edges == [edges[0], edges[1]] + MigrateEdges(p, u, source, peers);
  }

  // ---------- Termination ----------

  /** Every place the search can ever label. */
  ghost function Universe(p: Problem): set<Place>
    requires Valid(p)
  {
    set elapsed: nat, done: nat, node: NodeId |
      0 <= elapsed < MaxSteps(p) + 1 && 0 <= done < MaxSteps(p) + 1 && node in Ids(p.nodes) ::
      Place(elapsed, done, node)
  }

  lemma LabelledInUniverse(p: Problem, l: Labels, settled: set<Place>)
    requires Valid(p) && LabelsSound(p, l, settled)
    ensures l.distance.Keys <= Universe(p)
  {
    hide Valid, Linked, Goal, MaxSteps, Ids;
    forall v | v in l.distance ensures v in Universe(p) {
      assert InHorizon(p, v);
      assert Place(v.elapsed, v.done, v.node) == v;
    }
  }

  lemma SettlingShrinks(open: set<Place>, settled: set<Place>, u: Place)
    requires u in open && u !in settled
    ensures |open - (settled + {u})| < |open - settled|
  {
    assert open - (settled + {u}) == (open - settled) - {u};
    assert u in open - settled;
  }

  // ---------- The loop ----------

  /** What the search guarantees when it stops. */
  ghost predicate Searched(
      p: Problem, tolerance: real, l: Labels, settled: set<Place>, terminal: Option<Place>)
    requires Valid(p)
  {
    && LabelsSound(p, l, settled) && AllRelaxed(p, tolerance, l, settled)
    && match terminal
       case Some(t) =>
         && t in l.distance && Goal(p, t) && t !in settled
         && (forall v | v in l.distance && v !in settled :: l.distance[t] <= l.distance[v])
       case None => l.distance.Keys <= settled
  }

  /** The popped place becomes settled: nothing that follows changes its label. */
  lemma Settle(p: Problem, tolerance: real, l: Labels, queue: set<Entry>, x: Entry, serial: nat,
               ticket: map<Place, nat>, settled: set<Place>, frontier: real)
    requires Valid(p) && tolerance >= 0.0 && LabelsSound(p, l, settled) && x in queue
    requires QueueSound(l, tolerance, queue, serial, ticket, settled, frontier)
    requires forall y | y in queue :: Before(x, y)
    requires x.score <= l.distance[x.place] + tolerance && !Goal(p, x.place)
    ensures x.place !in settled && x.score == l.distance[x.place]
    ensures LabelsSound(p, l, settled + {x.place})
    ensures QueueSound(l, tolerance, queue - {x}, serial, ticket, settled + {x.place}, x.score)
  {
    hide Valid, Candidates, Increment, Goal;
    forall v | v in l.previous ensures Linked(p, l, settled + {x.place}, v) {
      assert Linked(p, l, settled, v);
    }
  }

  lemma Discard(l: Labels, tolerance: real, queue: set<Entry>, x: Entry, serial: nat, ticket: map<Place, nat>,
                settled: set<Place>, frontier: real)
    requires QueueSound(l, tolerance, queue, serial, ticket, settled, frontier) && x in queue
    requires tolerance >= 0.0 && x.score > l.distance[x.place] + tolerance
    ensures QueueSound(l, tolerance, queue - {x}, serial, ticket, settled, frontier)
  {
  }

  lemma AtHorizonRelaxed(p: Problem, tolerance: real, l: Labels, u: Place)
    requires Valid(p) && u in l.distance && u.elapsed >= MaxSteps(p)
    ensures Relaxed(p, tolerance, l, u)
  {
    hide Candidates, MaxSteps;
    forall e | e in Candidates(p, u) ensures RelaxedBy(p, tolerance, l, u, e) {
      CandidateAdvances(p, u, e);
    }
  }

  lemma LeastOpen(p: Problem, tolerance: real, l: Labels, queue: set<Entry>, x: Entry, serial: nat,
                  ticket: map<Place, nat>, settled: set<Place>, frontier: real)
    requires QueueSound(l, tolerance, queue, serial, ticket, settled, frontier) && x in queue
    requires forall y | y in queue :: Before(x, y)
    requires tolerance >= 0.0 && x.score <= l.distance[x.place] + tolerance
    ensures x.place !in settled && x.place in l.distance
    ensures forall v | v in l.distance && v !in settled :: l.distance[x.place] <= l.distance[v]
  {
    forall v | v in l.distance && v !in settled ensures l.distance[x.place] <= l.distance[v] {
      assert Entry(l.distance[v], ticket[v], v) in queue;
    }
  }

  /** Relaxes every step out of the settled place `u`. */
  method RelaxAll(p: Problem, tolerance: real, l: Labels, queue: set<Entry>, serial: nat, u: Place, score: real,
                  edges: seq<Edge>, ghost ticket: map<Place, nat>, ghost settled: set<Place>)
    returns (l': Labels, queue': set<Entry>, serial': nat, ghost ticket': map<Place, nat>)
    requires Valid(p) && tolerance >= 0.0 && edges == Candidates(p, u)
    requires u in settled && u in l.distance && score == l.distance[u] && LabelsSound(p, l, settled)
    requires QueueSound(l, tolerance, queue, serial, ticket, settled, score)
    requires AllRelaxed(p, tolerance, l, settled - {u})
    ensures LabelsSound(p, l', settled) && AllRelaxed(p, tolerance, l', settled) && Improves(l, l', settled)
    ensures QueueSound(l', tolerance, queue', serial', ticket', settled, score)
  {
    hide Valid, Candidates, Increment, LabelsSound, QueueSound, Relaxed;
    l', queue', serial', ticket' := l, queue, serial, ticket;
    for i := 0 to |edges|
      invariant LabelsSound(p, l', settled) && Improves(l, l', settled)
      invariant QueueSound(l', tolerance, queue', serial', ticket', settled, score)
      invariant forall k | 0 <= k < i :: RelaxedBy(p, tolerance, l', u, edges[k])
    {
      ghost var before := l';
      l', queue', serial', ticket' :=
        Relax(p, tolerance, l', queue', serial', u, score, edges[i], ticket', settled);
      forall k | 0 <= k < i ensures RelaxedBy(p, tolerance, l', u, edges[k]) {
        assert RelaxedBy(p, tolerance, before, u, edges[k]);
      }
    }
    RelaxedFromAll(p, tolerance, l', u, edges);
    ImprovementKeepsAllRelaxed(p, tolerance, l, l', settled, settled - {u});
  }

  lemma RelaxedFromAll(p: Problem, tolerance: real, l: Labels, u: Place, edges: seq<Edge>)
    requires Valid(p) && u in l.distance && edges == Candidates(p, u)
    requires forall k | 0 <= k < |edges| :: RelaxedBy(p, tolerance, l, u, edges[k])
    ensures Relaxed(p, tolerance, l, u)
  {
    hide Valid, Candidates, RelaxedBy;
  }

  /**
   The trace of expansions, each with the label the place had then: exactly the settled places inside the
   horizon, no place twice, and no label changed since.
   */
  ghost predicate ExpandedOnce(p: Problem, l: Labels, settled: set<Place>, expansions: seq<(Place, real)>)
    requires Valid(p)
  {
    && (forall i | 0 <= i < |expansions| ::
          && expansions[i].0 in settled && expansions[i].0.elapsed < MaxSteps(p) && expansions[i].0 in l.distance
          && expansions[i].1 == l.distance[expansions[i].0])
    && (forall i, j | 0 <= i < j < |expansions| :: expansions[i].0 != expansions[j].0)
    && (forall u | u in settled && u.elapsed < MaxSteps(p) :: Occurs(u, expansions))
  }

  ghost predicate Occurs(u: Place, expansions: seq<(Place, real)>) {
    exists i :: 0 <= i < |expansions| && expansions[i].0 == u
  }

  lemma ExpansionKept(p: Problem, l: Labels, l': Labels, settled: set<Place>, u: Place,
                      expansions: seq<(Place, real)>)
    requires Valid(p) && ExpandedOnce(p, l, settled, expansions) && u !in settled && u in l.distance
    requires Improves(l, l', settled + {u})
    ensures u.elapsed < MaxSteps(p) ==>
              ExpandedOnce(p, l', settled + {u}, expansions + [(u, l.distance[u])])
    ensures u.elapsed >= MaxSteps(p) ==> ExpandedOnce(p, l', settled + {u}, expansions)
  {
    hide MaxSteps;
    var more := expansions + [(u, l.distance[u])];
    assert more[|expansions|].0 == u;
    forall v | v in settled && v.elapsed < MaxSteps(p) ensures Occurs(v, more) {
      assert Occurs(v, expansions);
      var i :| 0 <= i < |expansions| && expansions[i].0 == v;
      assert more[i].0 == v;
    }
  }

  lemma ImprovesItself(l: Labels, settled: set<Place>)
    ensures Improves(l, l, settled)
  {
  }

  method Search(p: Problem, tolerance: real)
    returns (l: Labels, terminal: Option<Place>, expansions: seq<(Place, real)>)
    requires Valid(p) && tolerance >= 0.0
    ensures exists settled ::
              Searched(p, tolerance, l, settled, terminal) && ExpandedOnce(p, l, settled, expansions)
  {
    hide Valid, Candidates, Increment, Goal, LabelsSound, QueueSound, AllRelaxed, MaxSteps, WorkSteps, Ids;
    hide ExpandedOnce, Improves;
    var start := Start(p);
    l := Labels(map[start := 0.0], map[start := Metrics(0.0, 0.0, 0.0)], map[]);
    var queue, serial, caches := {Entry(0.0, 0, start)}, 1, Caches(map[], map[]);
    ghost var ticket: map<Place, nat> := map[start := 0];
    ghost var frontier := 0.0;
    ghost var settled: set<Place> := {};
    terminal, expansions := None, [];
    NothingExpanded(p, l);
    StartSound(p, tolerance, l, queue, ticket);
    while queue != {}
      invariant LabelsSound(p, l, settled) && AllRelaxed(p, tolerance, l, settled)
      invariant QueueSound(l, tolerance, queue, serial, ticket, settled, frontier)
      invariant CachesSound(p, caches) && ExpandedOnce(p, l, settled, expansions)
      decreases |Universe(p) - settled|, |queue|
    {
      var x, rest := PopLeast(queue);
      EntryKnown(p, l, tolerance, queue, serial, ticket, settled, frontier, x);
      if x.score > l.distance[x.place] + tolerance {
        Discard(l, tolerance, queue, x, serial, ticket, settled, frontier);
        queue := rest;
        continue;
      }
      WeightsValid(p);
      if Goal(p, x.place) {
        LeastOpen(p, tolerance, l, queue, x, serial, ticket, settled, frontier);
        terminal := Some(x.place);
        assert Searched(p, tolerance, l, settled, terminal);
        return;
      }
      Settle(p, tolerance, l, queue, x, serial, ticket, settled, frontier);
      LabelledInUniverse(p, l, settled);
      SettlingShrinks(Universe(p), settled, x.place);
      ghost var before := settled;
      queue, settled, frontier := rest, settled + {x.place}, x.score;
      assert settled - {x.place} == before;
      if x.place.elapsed >= MaxSteps(p) {
        AtHorizonRelaxed(p, tolerance, l, x.place);
        SettledRelaxed(p, tolerance, l, before, x.place);
        ImprovesItself(l, settled);
        ExpansionKept(p, l, l, before, x.place, expansions);
        continue;
      }
      var edges;
      edges, caches := Expand(p, x.place, caches);
      ghost var labels, traced := l, expansions;
      expansions := expansions + [(x.place, x.score)];
      l, queue, serial, ticket :=
        RelaxAll(p, tolerance, l, queue, serial, x.place, x.score, edges, ticket, settled);
      ExpansionKept(p, labels, l, before, x.place, traced);
    }
    AllSettled(p, l, tolerance, serial, ticket, settled, frontier);
    assert Searched(p, tolerance, l, settled, terminal);
  }

  lemma NothingExpanded(p: Problem, l: Labels)
    requires Valid(p)
    ensures ExpandedOnce(p, l, {}, [])
  {
  }

  lemma StartSound(p: Problem, tolerance: real, l: Labels, queue: set<Entry>, ticket: map<Place, nat>)
    requires Valid(p) && tolerance >= 0.0
    requires l == Labels(map[Start(p) := 0.0], map[Start(p) := Metrics(0.0, 0.0, 0.0)], map[])
    requires queue == {Entry(0.0, 0, Start(p))} && ticket == map[Start(p) := 0]
    ensures LabelsSound(p, l, {}) && AllRelaxed(p, tolerance, l, {})
    ensures QueueSound(l, tolerance, queue, 1, ticket, {}, 0.0)
    ensures CachesSound(p, Caches(map[], map[]))
  {
    HorizonNonNegative(p);
  }

  lemma EntryKnown(p: Problem, l: Labels, tolerance: real, queue: set<Entry>, serial: nat, ticket: map<Place, nat>,
                   settled: set<Place>, frontier: real, x: Entry)
    requires Valid(p) && LabelsSound(p, l, settled)
    requires QueueSound(l, tolerance, queue, serial, ticket, settled, frontier) && x in queue
    ensures x.place in l.distance && x.place.node in Ids(p.nodes)
  {
    hide Valid, Linked, Goal;
    assert InHorizon(p, x.place);
  }

  lemma SettledRelaxed(p: Problem, tolerance: real, l: Labels, settled: set<Place>, u: Place)
    requires Valid(p) && AllRelaxed(p, tolerance, l, settled) && u in l.distance && Relaxed(p, tolerance, l, u)
    ensures AllRelaxed(p, tolerance, l, settled + {u})
  {
    hide Valid, Relaxed;
  }

  lemma AllSettled(p: Problem, l: Labels, tolerance: real, serial: nat, ticket: map<Place, nat>, settled: set<Place>,
                   frontier: real)
    requires QueueSound(l, tolerance, {}, serial, ticket, settled, frontier)
    ensures l.distance.Keys <= settled
  {
  }

  lemma CeilingMonotone(x: real, y: real)
    requires x <= y
    ensures Ceiling(x) <= Ceiling(y)
  {
  }

  lemma QuotientMonotone(x: real, y: real, d: real)
    requires x <= y && d > 0.0
    ensures x / d <= y / d
  {
    QuotientNonNegative(y - x, d);
    assert (y - x) / d == y / d - x / d;
  }

  lemma ScaledUp(x: real, factor: real)
    requires x >= 0.0 && factor >= 1.0
    ensures x <= x * factor
  {
    ProductNonNegative(x, factor - 1.0);
    assert x * (factor - 1.0) == x * factor - x;
  }

  lemma QuantaMonotone(x: real, y: real, quantum: real)
    requires 0.0 <= x <= y && quantum > 0.0
    ensures 0 <= Quanta(x, quantum) <= Quanta(y, quantum)
  {
    QuotientNonNegative(x, quantum);
    QuotientMonotone(x, y, quantum);
    CeilingMonotone(0.0, x / quantum);
    CeilingMonotone(x / quantum, y / quantum);
  }

  lemma HorizonNonNegative(p: Problem)
    requires Valid(p)
    ensures 0 <= WorkSteps(p) <= MaxSteps(p)
  {
    hide Quanta;
    ScaledUp(p.duration, p.multiplier);
    assert p.duration <= HorizonSeconds(p);
    QuantaMonotone(p.duration, HorizonSeconds(p), p.quantum);
  }
}
