/** What the oracle returns: an optimal schedule, rebuilt edge by edge and summed up. */
module OraclePlan {
  import opened Common
  import opened Costs
  import opened OracleGraph
  import opened OracleSearch
  import opened OracleRun
  import opened OracleCharges

  // ---------- Optimality ----------

  lemma {:induction false} PathCostNonNegative(p: Problem, u: Place, path: seq<Edge>)
    requires Valid(p) && Feasible(p, u, path)
    ensures Cost(p, path) >= 0.0
    decreases |path|
  {
    hide Valid, Candidates, Increment, MaxSteps;
    if path != [] {
      IncrementNonNegative(p, u, path[0]);
      PathCostNonNegative(p, Next(u, path[0]), path[1..]);
    }
  }

  /** A feasible path takes at most as many steps as the horizon allows. */
  lemma {:induction false} PathFitsHorizon(p: Problem, u: Place, path: seq<Edge>)
    requires Valid(p) && Feasible(p, u, path) && u.elapsed <= MaxSteps(p)
    ensures u.elapsed + |path| <= End(u, path).elapsed <= MaxSteps(p)
    decreases |path|
  {
    hide Valid, Candidates, MaxSteps;
    if path != [] {
      CandidateAdvances(p, u, path[0]);
      PathFitsHorizon(p, Next(u, path[0]), path[1..]);
    }
  }

  /** On any completing schedule there is a labelled, unsettled place that is cheap enough. */
  lemma {:induction false} OpenOnPath(
      p: Problem, tolerance: real, l: Labels, settled: set<Place>, u: Place, path: seq<Edge>) returns (v: Place)
    requires Valid(p) && tolerance >= 0.0 && LabelsSound(p, l, settled) && AllRelaxed(p, tolerance, l, settled)
    requires u in l.distance && Feasible(p, u, path) && Goal(p, End(u, path))
    ensures v in l.distance && v !in settled
    ensures l.distance[v] <= l.distance[u] + Cost(p, path) + tolerance * |path| as real
    decreases |path|
  {
    hide Valid, Candidates, Increment, MaxSteps, Linked, WorkSteps;
    WeightsValid(p);
    PathCostNonNegative(p, u, path);
    ProductNonNegative(tolerance, |path| as real);
    if u !in settled {
      v := u;
    } else {
      assert !Goal(p, u);
      assert Relaxed(p, tolerance, l, u) && RelaxedBy(p, tolerance, l, u, path[0]);
      v := OpenOnPath(p, tolerance, l, settled, Next(u, path[0]), path[1..]);
      assert tolerance * |path| as real == tolerance * |path[1..]| as real + tolerance;
    }
  }

  /** The weighted totals of every schedule that completes inside the horizon reach `bound`, up to the slack. */
  ghost predicate LowerBound(p: Problem, tolerance: real, bound: real)
    requires Valid(p)
  {
    forall path | Feasible(p, Start(p), path) && Goal(p, End(Start(p), path)) ::
      bound <= WeightedTotals(p, Totals(path)) + tolerance * MaxSteps(p) as real
  }

  lemma TerminalIsOptimal(p: Problem, tolerance: real, l: Labels, settled: set<Place>, terminal: Place)
    requires Valid(p) && tolerance >= 0.0 && Searched(p, tolerance, l, settled, Some(terminal))
    ensures LowerBound(p, tolerance, l.distance[terminal])
  {
    hide Valid, Candidates, Increment, MaxSteps, AllRelaxed, Feasible, Cost, End, Goal, Linked, WeightedTotals, Totals;
    WeightsValid(p);
    HorizonNonNegative(p);
    forall path | Feasible(p, Start(p), path) && Goal(p, End(Start(p), path))
      ensures l.distance[terminal] <= WeightedTotals(p, Totals(path)) + tolerance * MaxSteps(p) as real
    {
      CostIsWeighted(p, path);
      var v := OpenOnPath(p, tolerance, l, settled, Start(p), path);
      PathFitsHorizon(p, Start(p), path);
      ProductNonNegative(tolerance, (MaxSteps(p) - |path|) as real);
      assert tolerance * (MaxSteps(p) - |path|) as real
             == tolerance * MaxSteps(p) as real - tolerance * |path| as real;
    }
  }

  // ---------- The search always completes ----------

  /** Working without pause or move completes inside the horizon. */
  lemma {:induction false} WorkThrough(p: Problem, u: Place) returns (path: seq<Edge>)
    requires Valid(p) && u.elapsed == u.done <= WorkSteps(p) && u.node in Ids(p.nodes)
    ensures Feasible(p, u, path) && Goal(p, End(u, path))
    decreases WorkSteps(p) - u.done
  {
    hide Valid, MaxSteps, WorkSteps, Ids, SegmentAt, MigrateEdges, ComputeSeconds, Peers;
    HorizonNonNegative(p);
    WeightsValid(p);
    FindNodeFinds(p.nodes, u.node);
    if u.done == WorkSteps(p) {
      path := [];
    } else {
      var e := ContinueEdge(p, u, SegmentAt(p, FindNode(p.nodes, u.node).value, u.elapsed, ComputeSeconds(p, u.done)));
      var rest := WorkThrough(p, Next(u, e));
      assert e == Candidates(p, u)[0];
      path := [e] + rest;
      assert path[1..] == rest;
    }
  }

  lemma SearchCompletes(p: Problem, tolerance: real, l: Labels, settled: set<Place>, terminal: Option<Place>)
    requires Valid(p) && tolerance >= 0.0 && Searched(p, tolerance, l, settled, terminal)
    ensures terminal.Some?
  {
    hide Candidates, Increment, MaxSteps, WorkSteps, AllRelaxed, Feasible, Cost, End, Goal, Linked;
    HorizonNonNegative(p);
    var path := WorkThrough(p, Start(p));
    var v := OpenOnPath(p, tolerance, l, settled, Start(p), path);
  }

  // ---------- Rebuilding the path ----------

  function Reversed<T>(s: seq<T>): seq<T> {
    if s == [] then [] else [s[|s| - 1]] + Reversed(s[..|s| - 1])
  }

  lemma ReversedAppend<T>(s: seq<T>, x: T)
    ensures Reversed(s + [x]) == [x] + Reversed(s)
  {
    assert (s + [x])[..|s|] == s;
  }

  /** The work is done at the end of the path and not before. */
  ghost predicate Pending(p: Problem, u: Place, path: seq<Edge>)
    requires Valid(p)
    decreases |path|
  {
    path == [] || (!Goal(p, u) && Pending(p, Next(u, path[0]), path[1..]))
  }

  /** The rest of the rebuilt path, from `cursor` to the terminal, accounts for the difference of their labels. */
  ghost predicate Rebuilt(p: Problem, l: Labels, cursor: Place, path: seq<Edge>, terminal: Place)
    requires Valid(p) && l.distance.Keys == l.metrics.Keys && cursor in l.distance && terminal in l.distance
  {
    && Feasible(p, cursor, path) && End(cursor, path) == terminal && Pending(p, cursor, path)
    && l.distance[cursor] + Cost(p, path) == l.distance[terminal]
    && Along(l.metrics[cursor], path) == l.metrics[terminal]
  }

  lemma RebuildStep(p: Problem, l: Labels, settled: set<Place>, cursor: Place, path: seq<Edge>, terminal: Place)
    requires Valid(p) && LabelsSound(p, l, settled) && cursor in l.distance && terminal in l.distance
    requires Rebuilt(p, l, cursor, path, terminal) && cursor != Start(p)
    ensures cursor in l.previous
    ensures var (parent, edge) := l.previous[cursor];
            && parent in l.distance && parent.elapsed < cursor.elapsed
            && Rebuilt(p, l, parent, [edge] + path, terminal)
  {
    hide Valid, Candidates, Increment, MaxSteps, Goal;
    var (parent, edge) := l.previous[cursor];
    assert Linked(p, l, settled, cursor) && InHorizon(p, cursor);
    CandidateAdvances(p, parent, edge);
    assert ([edge] + path)[1..] == path;
  }

  method Rebuild(p: Problem, l: Labels, terminal: Place, ghost settled: set<Place>) returns (path: seq<Edge>)
    requires Valid(p) && LabelsSound(p, l, settled) && terminal in l.distance
    ensures Rebuilt(p, l, Start(p), path, terminal)
  {
    hide Valid, LabelsSound, Rebuilt, MaxSteps, Feasible, Reversed, Pending;
    var reversedEdges: seq<Edge>, cursor := [], terminal;
    RebuildStarts(p, l, settled, terminal);
    while cursor != Start(p)
      invariant cursor in l.distance && l.distance.Keys == l.metrics.Keys
      invariant Rebuilt(p, l, cursor, Reversed(reversedEdges), terminal)
      decreases cursor.elapsed
    {
      RebuildStep(p, l, settled, cursor, Reversed(reversedEdges), terminal);
      var (parent, edge) := l.previous[cursor];
      ReversedAppend(reversedEdges, edge);
      reversedEdges, cursor := reversedEdges + [edge], parent;
    }
    path := Reversed(reversedEdges);
  }

  lemma RebuildStarts(p: Problem, l: Labels, settled: set<Place>, terminal: Place)
    requires Valid(p) && LabelsSound(p, l, settled) && terminal in l.distance
    ensures l.distance.Keys == l.metrics.Keys && Rebuilt(p, l, terminal, Reversed([]), terminal)
  {
  }

  // ---------- Summing it up ----------

  datatype Step = Step(index: nat, edge: Edge, startedAt: real, finishedAt: real, remainingAfter: real)

  datatype Tally = Tally(
    node: NodeId,
    compute: real,
    idle: real,
    migration: real,
    carbon: real,
    cost: real,
    migrations: nat,
    pauses: nat,
    ownerPath: seq<NodeId>)

  datatype Outcome = Outcome(tally: Tally, makespan: real, objective: real, steps: seq<Step>)

  function StartTally(p: Problem): Tally {
    Tally(p.startNode, 0.0, 0.0, 0.0, 0.0, 0.0, 0, 0, [p.startNode])
  }

  function Counted(t: Tally, e: Edge): Tally {
    var summed := t.(compute := t.compute + e.compute, idle := t.idle + e.idle,
                     migration := t.migration + e.migration, carbon := t.carbon + e.carbon, cost := t.cost + e.cost);
    match e.move
    case Migrate(d) => summed.(node := d, migrations := t.migrations + 1, ownerPath := t.ownerPath + [d])
    case Wait => summed.(pauses := t.pauses + 1)
    case Continue => summed
  }

  /** Work done after `done` quanta; the last quantum may be partial. */
  function Worked(p: Problem, done: nat): real {
    MinReal(done as real * p.quantum, p.duration)
  }

  /** What stays true of the tally while the path from the start to `u` is counted. */
  ghost predicate TallySound(p: Problem, t: Tally, m: Metrics, u: Place)
    requires Valid(p)
  {
    && t.node == u.node && |t.ownerPath| == t.migrations + 1 && t.ownerPath[t.migrations] == u.node
    && t.ownerPath[0] == p.startNode
    && t.compute == Worked(p, u.done) && t.idle == Times(t.pauses, p.quantum)
    && t.carbon == m.carbon && t.cost == m.cost
    && var unaccounted := m.time - (t.compute + t.idle + t.migration);
       -(TOLERANCE * Times(t.migrations, p.quantum)) <= unaccounted <= Times(t.migrations, p.quantum)
  }

  function Times(n: nat, quantum: real): real {
    n as real * quantum
  }

  lemma TimesNext(n: nat, quantum: real)
    ensures Times(n + 1, quantum) == Times(n, quantum) + quantum
  {
  }

  lemma OneMoreQuantum(p: Problem, done: nat)
    requires Valid(p)
    ensures Worked(p, done) + ComputeSeconds(p, done) == Worked(p, done + 1)
  {
    assert (done + 1) as real * p.quantum == done as real * p.quantum + p.quantum;
  }

  /** Rounding a move up to whole quanta wastes at most one quantum. */
  lemma RoundingBounds(seconds: real, quantum: real)
    requires seconds >= 0.0 && quantum > 0.0
    ensures var rounded := CeilSteps(seconds, quantum) as real * quantum;
            -(TOLERANCE * quantum) <= rounded - seconds <= quantum
  {
    var ratio := seconds / quantum;
    var steps := CeilSteps(seconds, quantum);
    QuotientNonNegative(seconds, quantum);
    assert ratio * quantum == seconds;
    var excess := steps as real - ratio;
    assert -TOLERANCE <= excess <= 1.0;
    ProductNonNegative(excess + TOLERANCE, quantum);
    ProductNonNegative(1.0 - excess, quantum);
  }

  lemma MoveIsCharged(p: Problem, u: Place, e: Edge)
    requires Valid(p) && e in Candidates(p, u) && e.move.Migrate?
    ensures e.compute == e.idle == 0.0
    ensures -(TOLERANCE * p.quantum) <= e.seconds - e.migration <= p.quantum
  {
    hide ComputeSegment, MigrationAt, CeilSteps, FindNode, Peers, UniqueIds, Ids;
    FindNodeFinds(p.nodes, u.node);
    PeersKnown(p.nodes, u.node);
    var n := FindNode(p.nodes, u.node).value;
    var peers := Peers(p.nodes, u.node);
    var i :| 0 <= i < |peers| && e == MigrateEdges(p, u, n, peers)[i];
    MigrationAtNonNegative(p, n, peers[i], u.elapsed);
    RoundingBounds(e.migration, p.quantum);
  }

  lemma StayIsCharged(p: Problem, u: Place, e: Edge)
    requires Valid(p) && e in Candidates(p, u) && !e.move.Migrate?
    ensures e.migration == 0.0 && e.seconds == e.compute + e.idle
    ensures e.compute == (if e.move.Continue? then ComputeSeconds(p, u.done) else 0.0)
    ensures e.idle == (if e.move.Continue? then 0.0 else p.quantum)
  {
    hide ComputeSegment, MigrationCharge, CeilSteps, FindNode, Peers, UniqueIds, Ids, ComputeSeconds;
  }

  lemma CountingKeepsTally(p: Problem, t: Tally, m: Metrics, u: Place, e: Edge)
    requires Valid(p) && TallySound(p, t, m, u) && e in Candidates(p, u)
    ensures TallySound(p, Counted(t, e), Plus(m, e), Next(u, e))
  {
    hide Valid, Candidates, ComputeSeconds, Worked, Times;
    if e.move.Migrate? {
      MoveIsCharged(p, u, e);
      TimesNext(t.migrations, p.quantum);
    } else {
      TimesNext(t.pauses, p.quantum);
      StayIsCharged(p, u, e);
      OneMoreQuantum(p, u.done);
    }
  }

  /** The nodes a path moves to, in order. */
  function Visited(path: seq<Edge>): seq<NodeId> {
    if path == [] then []
    else
      var e := path[|path| - 1];
      Visited(path[..|path| - 1]) + (if e.move.Migrate? then [e.move.destination] else [])
  }

  lemma CountedMoves(t: Tally, e: Edge)
    ensures Counted(t, e).ownerPath == t.ownerPath + (if e.move.Migrate? then [e.move.destination] else [])
    ensures Counted(t, e).compute == t.compute + e.compute
  {
  }

  lemma VisitedAppend(path: seq<Edge>, e: Edge)
    ensures Visited(path + [e]) == Visited(path) + (if e.move.Migrate? then [e.move.destination] else [])
  {
    assert (path + [e])[..|path|] == path;
  }

  function EdgesOf(steps: seq<Step>): seq<Edge> {
    seq(|steps|, i requires 0 <= i < |steps| => steps[i].edge)
  }

  /** The steps follow each other without gaps, and each shows the work still to do after it. */
  ghost predicate Contiguous(p: Problem, steps: seq<Step>)
    requires Valid(p)
  {
    forall i | 0 <= i < |steps| :: FollowsOn(p, steps, i)
  }

  ghost predicate FollowsOn(p: Problem, steps: seq<Step>, i: nat)
    requires Valid(p) && i < |steps|
  {
    && steps[i].index == i + 1
    && steps[i].startedAt == FinishOf(steps[..i])
    && steps[i].finishedAt == steps[i].startedAt + steps[i].edge.seconds
    && steps[i].remainingAfter == p.duration - Worked(p, End(Start(p), EdgesOf(steps[..i + 1])).done)
  }

  function FinishOf(steps: seq<Step>): real {
    if steps == [] then 0.0 else steps[|steps| - 1].finishedAt
  }

  lemma {:induction false} EndAppend(u: Place, path: seq<Edge>, e: Edge)
    ensures End(u, path + [e]) == Next(End(u, path), e)
    decreases |path|
  {
    if path == [] {
      assert (path + [e])[1..] == [];
    } else {
      assert (path + [e])[1..] == path[1..] + [e];
      EndAppend(Next(u, path[0]), path[1..], e);
    }
  }

  lemma ContiguousAppend(p: Problem, steps: seq<Step>, s: Step)
    requires Valid(p) && Contiguous(p, steps)
    requires s.index == |steps| + 1 && s.finishedAt == s.startedAt + s.edge.seconds
    requires s.startedAt == FinishOf(steps)
    requires s.remainingAfter
             == p.duration - Worked(p, Next(End(Start(p), EdgesOf(steps)), s.edge).done)
    ensures Contiguous(p, steps + [s])
  {
    hide Valid, Worked, Next;
    EndAppend(Start(p), EdgesOf(steps), s.edge);
    assert EdgesOf(steps + [s]) == EdgesOf(steps) + [s.edge];
    var all := steps + [s];
    forall i | 0 <= i < |all| ensures FollowsOn(p, all, i) {
      assert all[..|steps| + 1] == all && all[..|steps|] == steps;
      if i < |steps| {
        assert FollowsOn(p, steps, i);
        assert all[..i] == steps[..i] && all[..i + 1] == steps[..i + 1];
      }
    }
  }

  lemma WorkedStart(p: Problem)
    requires Valid(p)
    ensures TallySound(p, StartTally(p), Metrics(0.0, 0.0, 0.0), Start(p))
  {
  }

  method Summarise(p: Problem, path: seq<Edge>) returns (t: Tally, steps: seq<Step>)
    requires Valid(p) && Feasible(p, Start(p), path)
    ensures EdgesOf(steps) == path && Contiguous(p, steps)
    ensures TallySound(p, t, Totals(path), End(Start(p), path))
    ensures FinishOf(steps) == Totals(path).time
    ensures t.ownerPath == [p.startNode] + Visited(path)
  {
    hide Valid, Candidates, Contiguous, MaxSteps, TallySound, Worked, Visited, Counted;
    t, steps := StartTally(p), [];
    WorkedStart(p);
    var startedAt, completed := 0.0, 0.0;
    ghost var u, m := Start(p), Metrics(0.0, 0.0, 0.0);
    assert Contiguous(p, []) by { NothingContiguous(p); }
    assert Visited([]) == [] by { NothingVisited(); }
    assert path[0..] == path;
    for i := 0 to |path|
      invariant |steps| == i && EdgesOf(steps) == path[..i] && Contiguous(p, steps)
      invariant u == End(Start(p), path[..i]) && End(u, path[i..]) == End(Start(p), path)
      invariant Feasible(p, u, path[i..])
      invariant TallySound(p, t, m, u) && completed == t.compute
      invariant Along(m, path[i..]) == Totals(path)
      invariant startedAt == m.time && startedAt == FinishOf(steps)
      invariant t.ownerPath == [p.startNode] + Visited(path[..i])
    {
      var e := path[i];
      assert path[i..][0] == e && path[i..][1..] == path[i + 1..] && path[..i + 1] == path[..i] + [e];
      CountingKeepsTally(p, t, m, u, e);
      CountedMoves(t, e);
      VisitedAppend(path[..i], e);
      EndAppend(Start(p), path[..i], e);
      var finishedAt := startedAt + e.seconds;
      completed, t := completed + e.compute, Counted(t, e);
      RemainingShown(p, t, Plus(m, e), Next(u, e));
      var step := Step(i + 1, e, startedAt, finishedAt, MaxReal(0.0, p.duration - completed));
      ContiguousAppend(p, steps, step);
      assert EdgesOf(steps + [step]) == EdgesOf(steps) + [e];
      steps, startedAt := steps + [step], finishedAt;
      u, m := Next(u, e), Plus(m, e);
    }
    assert path[..|path|] == path;
  }

  lemma NothingContiguous(p: Problem)
    requires Valid(p)
    ensures Contiguous(p, [])
  {
  }

  lemma NothingVisited()
    ensures Visited([]) == []
  {
  }

  lemma RemainingShown(p: Problem, t: Tally, m: Metrics, u: Place)
    requires Valid(p) && TallySound(p, t, m, u)
    ensures MaxReal(0.0, p.duration - t.compute) == p.duration - Worked(p, u.done)
  {
  }

  lemma AllWorked(p: Problem, u: Place)
    requires Valid(p) && Goal(p, u)
    ensures Worked(p, u.done) == p.duration
  {
    hide ValidIntensity, ValidLink, ValidNode, ValidPolicy, UniqueIds, Ids;
    QuantaCover(p.duration, p.quantum, u.done);
  }

  // ---------- What every step is charged ----------

  /** Step `i` is taken where the ones before it led, and is charged for the very interval it shows. */
  ghost predicate ChargedAsShown(p: Problem, steps: seq<Step>, i: nat)
    requires Valid(p) && i < |steps|
  {
    && steps[i].edge.source == End(Start(p), EdgesOf(steps[..i])).node
    && StepCharged(p, steps[i].startedAt, steps[i].edge)
  }

  lemma {:induction false} OnPath(p: Problem, u: Place, path: seq<Edge>, i: nat)
    requires Valid(p) && Feasible(p, u, path) && Pending(p, u, path) && i < |path|
    ensures path[i] in Candidates(p, End(u, path[..i])) && !Goal(p, End(u, path[..i]))
    decreases |path|
  {
    hide Valid, Candidates, Goal, MaxSteps;
    if i > 0 {
      OnPath(p, Next(u, path[0]), path[1..], i - 1);
      assert path[..i][1..] == path[1..][..i - 1];
    }
  }

  lemma EdgesOfPrefix(steps: seq<Step>, i: nat)
    requires i <= |steps|
    ensures EdgesOf(steps[..i]) == EdgesOf(steps)[..i]
  {
  }

  /** Until the work is done, what the steps have taken is what the planner has counted in whole quanta. */
  lemma {:induction false} StartsOnTime(p: Problem, steps: seq<Step>, i: nat)
    requires Valid(p) && Contiguous(p, steps) && i < |steps|
    requires Feasible(p, Start(p), EdgesOf(steps)) && Pending(p, Start(p), EdgesOf(steps))
    ensures steps[i].startedAt == Instant(p, End(Start(p), EdgesOf(steps[..i])).elapsed)
  {
    hide Valid, Candidates, Goal, Feasible, Pending, Instant, Worked, Next;
    assert FollowsOn(p, steps, i);
    if i == 0 {
      TimeStartsAtZero(p);
    } else {
      StartsOnTime(p, steps, i - 1);
      assert FollowsOn(p, steps, i - 1);
      OnPath(p, Start(p), EdgesOf(steps), i - 1);
      OnPath(p, Start(p), EdgesOf(steps), i);
      EdgesOfPrefix(steps, i - 1);
      EdgesOfPrefix(steps, i);
      var path, e := EdgesOf(steps)[..i - 1], steps[i - 1].edge;
      assert EdgesOf(steps)[..i] == path + [e];
      EndAppend(Start(p), path, e);
      WholeQuanta(p, End(Start(p), path), e);
      assert steps[..i][|steps[..i]| - 1] == steps[i - 1];
    }
  }

  lemma TimeStartsAtZero(p: Problem)
    ensures Instant(p, 0) == 0.0 && End(Start(p), EdgesOf([])).elapsed == 0
  {
  }

  lemma StepsAreCharged(p: Problem, steps: seq<Step>)
    requires Valid(p) && Contiguous(p, steps)
    requires Feasible(p, Start(p), EdgesOf(steps)) && Pending(p, Start(p), EdgesOf(steps))
    ensures forall i | 0 <= i < |steps| :: ChargedAsShown(p, steps, i)
  {
    hide Valid, Candidates, Goal, Feasible, Pending, Instant, Contiguous, End, StepCharged;
    forall i | 0 <= i < |steps| ensures ChargedAsShown(p, steps, i) {
      StartsOnTime(p, steps, i);
      OnPath(p, Start(p), EdgesOf(steps), i);
      EdgesOfPrefix(steps, i);
      CandidateIsCharged(p, End(Start(p), EdgesOf(steps[..i])), steps[i].edge);
    }
  }

  // ---------- The whole planner ----------

  datatype OracleError = BadQuantum | BadMultiplier | UnknownStart | Incomplete

  /** The plan is a schedule that completes, charged as the trace says, and its figures are those of its steps. */
  ghost predicate Faithful(p: Problem, o: Outcome)
    requires Valid(p)
  {
    var path := EdgesOf(o.steps);
    var t := o.tally;
    && Feasible(p, Start(p), path) && Goal(p, End(Start(p), path)) && Contiguous(p, o.steps)
    && Totals(path) == Metrics(o.makespan, t.carbon, t.cost) && o.objective == WeightedTotals(p, Totals(path))
    && (forall i | 0 <= i < |o.steps| :: ChargedAsShown(p, o.steps, i))
    && t.ownerPath == [p.startNode] + Visited(path)
    && t.compute == p.duration
    && TallySound(p, t, Metrics(o.makespan, t.carbon, t.cost), End(Start(p), path))
    && o.steps != [] && FinishOf(o.steps) == o.makespan
    && o.steps[|o.steps| - 1].remainingAfter == 0.0
  }

  lemma WholePathCost(p: Problem, l: Labels, settled: set<Place>, path: seq<Edge>, terminal: Place)
    requires Valid(p) && LabelsSound(p, l, settled) && terminal in l.distance
    requires Rebuilt(p, l, Start(p), path, terminal)
    ensures Feasible(p, Start(p), path) && End(Start(p), path) == terminal && Pending(p, Start(p), path)
    ensures Totals(path) == l.metrics[terminal]
    ensures WeightedTotals(p, l.metrics[terminal]) == l.distance[terminal]
  {
    hide Valid, Feasible, Cost, Along, End, WeightedTotals, Pending;
    CostIsWeighted(p, path);
  }

  lemma PlanIsFaithful(p: Problem, o: Outcome, path: seq<Edge>)
    requires Valid(p) && Feasible(p, Start(p), path) && Goal(p, End(Start(p), path))
    requires EdgesOf(o.steps) == path && Contiguous(p, o.steps) && Pending(p, Start(p), path)
    requires o.objective == WeightedTotals(p, Totals(path))
    requires TallySound(p, o.tally, Totals(path), End(Start(p), path))
    requires o.makespan == Totals(path).time
    requires FinishOf(o.steps) == o.makespan && o.tally.ownerPath == [p.startNode] + Visited(path)
    ensures Faithful(p, o)
  {
    hide Candidates, Feasible, Worked, Ids, ValidIntensity, ValidLink, ValidNode, ValidPolicy, UniqueIds;
    hide ChargedAsShown, Pending, Along, Visited, WeightedTotals;
    StepsAreCharged(p, o.steps);
    AllWorked(p, End(Start(p), path));
    NoneWorked(p);
    assert o.steps != [];
    var last := |o.steps| - 1;
    assert FollowsOn(p, o.steps, last);
    assert o.steps[..last + 1] == o.steps;
  }

  lemma NoneWorked(p: Problem)
    requires Valid(p)
    ensures Worked(p, 0) == 0.0
  {
  }

  /**
   The clairvoyant planner. For every well-formed configuration it either reports the bad argument or
   returns a plan that is optimal among all schedules of the step graph up to the accumulated slack
   (exactly optimal when `tolerance` is 0; the system uses TOLERANCE). It never reports `Incomplete`.
   */
  method ClairvoyantOracle(p: Problem, tolerance: real) returns (r: Result<Outcome, OracleError>)
    requires WellConfigured(p) && tolerance >= 0.0
    ensures r.Err? <==> p.quantum <= 0.0 || p.multiplier < 1.0 || p.startNode !in Ids(p.nodes)
    ensures r == Err(BadQuantum) <==> p.quantum <= 0.0
    ensures r == Err(BadMultiplier) <==> p.quantum > 0.0 && p.multiplier < 1.0
    ensures r != Err(Incomplete)
    ensures r.Ok? ==> Valid(p) && Faithful(p, r.value) && LowerBound(p, tolerance, r.value.objective)
    ensures r.Ok? ==>
              var o := r.value;
              o.objective == WeightedTotals(p, Metrics(o.makespan, o.tally.carbon, o.tally.cost))
  {
    hide WellConfigured, Searched, LabelsSound, Rebuilt, Faithful, LowerBound, Feasible, Goal, TallySound, Contiguous;
    hide WeightedTotals, Pending, Visited, Along;
    if p.quantum <= 0.0 {
      return Err(BadQuantum);
    }
    if p.multiplier < 1.0 {
      return Err(BadMultiplier);
    }
    FindNodeFinds(p.nodes, p.startNode);
    if FindNode(p.nodes, p.startNode).None? {
      return Err(UnknownStart);
    }
    var l, terminal, expansions := Search(p, tolerance);
    ghost var settled :|
      Searched(p, tolerance, l, settled, terminal) && ExpandedOnce(p, l, settled, expansions);
    SearchCompletes(p, tolerance, l, settled, terminal);
    if terminal.None? {
      return Err(Incomplete);
    }
    SearchedFacts(p, tolerance, l, settled, terminal.value);
    TerminalIsOptimal(p, tolerance, l, settled, terminal.value);
    var path := Rebuild(p, l, terminal.value, settled);
    WholePathCost(p, l, settled, path, terminal.value);
    var tally, steps := Summarise(p, path);
    var o := Outcome(tally, l.metrics[terminal.value].time, l.distance[terminal.value], steps);
    PlanIsFaithful(p, o, path);
    ObjectiveIsWeighted(p, o);
    r := Ok(o);
  }

  lemma SearchedFacts(p: Problem, tolerance: real, l: Labels, settled: set<Place>, terminal: Place)
    requires Valid(p) && Searched(p, tolerance, l, settled, Some(terminal))
    ensures LabelsSound(p, l, settled) && terminal in l.distance && terminal in l.metrics && Goal(p, terminal)
  {
  }

  lemma ObjectiveIsWeighted(p: Problem, o: Outcome)
    requires Valid(p) && Faithful(p, o)
    ensures o.objective == WeightedTotals(p, Metrics(o.makespan, o.tally.carbon, o.tally.cost))
  {
    hide Valid, Totals, Feasible, Goal, Contiguous, TallySound, End, EdgesOf, FinishOf, ChargedAsShown, Visited;
    hide WeightedTotals;
  }

  /** With no tolerance the returned plan is a cheapest schedule: it is one, and none is cheaper. */
  lemma ExactlyOptimal(p: Problem, o: Outcome, path: seq<Edge>)
    requires Valid(p) && Faithful(p, o) && LowerBound(p, 0.0, o.objective)
    requires Feasible(p, Start(p), path) && Goal(p, End(Start(p), path))
    ensures WeightedTotals(p, Totals(EdgesOf(o.steps))) <= WeightedTotals(p, Totals(path))
  {
    hide Valid, Feasible, Goal, WeightedTotals, Totals, MaxSteps, End, Contiguous, TallySound;
  }
}
