/** Stretches of the migration protocol's runs, from which whole runs are put together. */
module MigrationRuns {
  import opened Common
  import opened Registry
  import opened MigrationProtocol
  import opened MigrationSafety
  import opened MigrationSteps
  import opened MigrationTheorems

  lemma {:induction false} RunThen(w: World, first: seq<Action>, mid: World, rest: seq<Action>, last: World)
    requires Run(w, first, mid) && Run(mid, rest, last)
    ensures Run(w, first + rest, last)
    decreases |first|
  {
    hide Apply, Enabled, Assumed;
    if first == [] {
      assert first + rest == rest;
    } else {
      assert (first + rest)[1..] == first[1..] + rest;
      RunThen(Apply(w, first[0]), first[1..], mid, rest, last);
    }
  }

  lemma RunOne(w: World, a: Action)
    requires Enabled(w, a) && Assumed(w, a)
    ensures Run(w, [a], Apply(w, a))
  {
    hide Apply, Enabled, Assumed;
    assert [a][1..] == [];
  }

  lemma RunTwo(w: World, a: Action, b: Action)
    requires Enabled(w, a) && Assumed(w, a) && Enabled(Apply(w, a), b) && Assumed(Apply(w, a), b)
    ensures Run(w, [a, b], Apply(Apply(w, a), b))
  {
    hide Apply, Enabled, Assumed;
    assert [a, b][1..] == [b] && [b][1..] == [];
    assert Run(Apply(w, a), [b], Apply(Apply(w, a), b));
  }

  // ---------- The source, from its PREPARING record to the request ----------

  /** Node `n` has logged migration `m` and not yet touched the task. */
  predicate Departing(w: World, n: NodeId, m: MigrationId) {
    && n in w.op && n in w.registry && w.op[n] == Sourcing(m, Prepared) && m in w.journals.source
    && w.registry[n].owner == n && !w.registry[n].status.Completed?
  }

  lemma Mark(w: World, n: NodeId, m: MigrationId) returns (w': World)
    requires Departing(w, n, m)
    ensures Run(w, [MarkMigrating(n), LogTransferring(n)], w')
    ensures w' == w.(registry := w.registry[n := w.registry[n].(status := Migrating, lastMigration := Some(m))],
                     op := w.op[n := Sourcing(m, Quiescing)],
                     journals := SourceLogged(w.journals, m, w.journals.source[m].(status := Transferring)))
  {
    w' := Apply(Apply(w, MarkMigrating(n)), LogTransferring(n));
    RunTwo(w, MarkMigrating(n), LogTransferring(n));
  }

  lemma Stop(w: World, n: NodeId, m: MigrationId) returns (w': World)
    requires n in w.op && w.op[n] == Sourcing(m, Quiescing) && m in w.journals.source
    requires n in w.registry && w.registry[n].status.Migrating?
    ensures Run(w, [StopSource(n), LogHandover(n)], w')
    ensures w' == w.(registry := w.registry[n := w.registry[n].(status := Stopped)],
                     op := w.op[n := Sourcing(m, Sending)],
                     journals := SourceLogged(w.journals, m, w.journals.source[m].(status := Handover)))
  {
    w' := Apply(Apply(w, StopSource(n)), LogHandover(n));
    RunTwo(w, StopSource(n), LogHandover(n));
  }

  function DepartureActions(n: NodeId): seq<Action> {
    [MarkMigrating(n), LogTransferring(n)] + [StopSource(n), LogHandover(n)] + [SendRequest(n)]
  }

  /** The world once node `n` has stopped the task and sent the request of `m`. */
  function Departed(w: World, n: NodeId, m: MigrationId): World
    requires Departing(w, n, m)
  {
    w.(registry := w.registry[n := w.registry[n].(status := Stopped, lastMigration := Some(m))],
       op := w.op[n := Sourcing(m, AwaitingReply)],
       journals := SourceLogged(w.journals, m, w.journals.source[m].(status := Handover))
         .(sent := w.journals.sent + {m}))
  }

  lemma Depart(w: World, n: NodeId, m: MigrationId)
    requires Departing(w, n, m)
    ensures Run(w, DepartureActions(n), Departed(w, n, m))
  {
    hide Apply, Run, Assumed;
    var marking, stopping := [MarkMigrating(n), LogTransferring(n)], [StopSource(n), LogHandover(n)];
    var w1 := Mark(w, n, m);
    var w2 := Stop(w1, n, m);
    RunThen(w, marking, w1, stopping, w2);
    var w3 := Send(w2, n, m);
    assert w3.registry == Departed(w, n, m).registry && w3.op == Departed(w, n, m).op;
    assert w3.journals.source == Departed(w, n, m).journals.source;
    RunThen(w, marking + stopping, w2, [SendRequest(n)], w3);
  }

  lemma Send(w: World, n: NodeId, m: MigrationId) returns (w': World)
    requires n in w.op && w.op[n] == Sourcing(m, Sending) && n in w.registry && m in w.journals.source
    ensures Run(w, [SendRequest(n)], w')
    ensures w' == w.(op := w.op[n := Sourcing(m, AwaitingReply)],
                     journals := w.journals.(sent := w.journals.sent + {m}))
  {
    w' := Apply(w, SendRequest(n));
    RunOne(w, SendRequest(n));
  }

  // ---------- The destination, from the request to the commit ----------

  /** The request of `m` is at an idle destination that has not seen it, with the lease still granted. */
  predicate Arriving(w: World, m: MigrationId) {
    && Enabled(w, Receive(m)) && m !in w.journals.destination && m !in w.journals.absent && w.lease[m].Granted?
    && w.registry[w.journals.source[m].destination].lastMigration != Some(m)
    && w.registry[w.journals.source[m].destination].generation <= w.journals.source[m].generation
    && m !in w.history.hops
  }

  /** The world once the destination of `m` runs the task and has logged ACTIVATED. */
  function Arrived(w: World, m: MigrationId): World
    requires Arriving(w, m)
  {
    var r := w.journals.source[m];
    var d := r.destination;
    w.(registry := w.registry[d := TaskState(d, r.generation, Running, Some(m))],
       lease := w.lease[m := Spent],
       journals := DestinationLogged(w.journals, m, DestinationRecord(Activated, w.registry[d]))
         .(reserved := w.journals.reserved + {m}),
       history := w.history.(holder := d, hops := w.history.hops + [m]))
  }

  lemma Accept(w: World, m: MigrationId, d: NodeId) returns (w': World)
    requires Arriving(w, m) && d == w.journals.source[m].destination
    ensures Run(w, [Receive(m)], w') && Accepted(w', m, d, w.registry[d])
    ensures w' == w.(op := w.op[d := Activating(m, Reserving, w.registry[d])],
                     journals := DestinationLogged(w.journals, m, DestinationRecord(Handover, w.registry[d])))
  {
    w' := Apply(w, Receive(m));
    RunOne(w, Receive(m));
  }

  /** A destination has journalled the request of `m` and can still use the lease. */
  predicate Accepted(w: World, m: MigrationId, d: NodeId, before: TaskState) {
    && d in w.op && d in w.registry && w.op[d] == Activating(m, Reserving, before)
    && m in w.journals.source && d == w.journals.source[m].destination && m !in w.history.hops
    && m in w.journals.destination && m in w.lease && w.lease[m].Granted?
    && w.registry[d].generation <= w.journals.source[m].generation
  }

  lemma Reserve(w: World, m: MigrationId, d: NodeId, before: TaskState) returns (w': World)
    requires Accepted(w, m, d, before)
    ensures Run(w, [ActivateStep(d)], w')
    ensures w' == w.(op := w.op[d := Activating(m, Claiming, before)], lease := w.lease[m := InUse],
                     journals := w.journals.(reserved := w.journals.reserved + {m}))
  {
    w' := Apply(w, ActivateStep(d));
    RunOne(w, ActivateStep(d));
  }

  lemma Claim(w: World, m: MigrationId, d: NodeId, before: TaskState) returns (w': World)
    requires d in w.op && d in w.registry && w.op[d] == Activating(m, Claiming, before)
    requires m in w.journals.source && m in w.journals.destination && m in w.lease
    requires w.registry[d].generation <= w.journals.source[m].generation
    ensures Run(w, [ActivateStep(d), ActivateStep(d)], w')
    ensures w' == w.(registry := w.registry[d := TaskState(d, w.journals.source[m].generation, Running, Some(m))],
                     op := w.op[d := Activating(m, Consuming, before)])
  {
    w' := Apply(Apply(w, ActivateStep(d)), ActivateStep(d));
    RunTwo(w, ActivateStep(d), ActivateStep(d));
  }

  lemma Log(w: World, m: MigrationId, d: NodeId, before: TaskState) returns (w': World)
    requires d in w.op && d in w.registry && w.op[d] == Activating(m, Consuming, before)
    requires m in w.journals.source && m in w.journals.destination && m in w.lease && w.lease[m].InUse?
    requires d == w.journals.source[m].destination && m !in w.history.hops
    ensures Run(w, [ActivateStep(d), ActivateStep(d)], w')
    ensures w' == w.(op := w.op[d := Idle], lease := w.lease[m := Spent],
                     journals := DestinationLogged(w.journals, m, w.journals.destination[m].(status := Activated)),
                     history := w.history.(holder := d, hops := w.history.hops + [m]))
  {
    w' := Apply(Apply(w, ActivateStep(d)), ActivateStep(d));
    RunTwo(w, ActivateStep(d), ActivateStep(d));
  }

  function ActivationActions(d: NodeId): seq<Action> {
    [ActivateStep(d)] + [ActivateStep(d), ActivateStep(d)] + [ActivateStep(d), ActivateStep(d)]
  }

  lemma Activate(w: World, m: MigrationId, d: NodeId, before: TaskState) returns (w': World)
    requires Accepted(w, m, d, before)
    ensures Run(w, ActivationActions(d), w')
    ensures w'.registry == w.registry[d := TaskState(d, w.journals.source[m].generation, Running, Some(m))]
    ensures w'.op == w.op[d := Idle] && w'.lease == w.lease[m := Spent]
    ensures w'.journals == DestinationLogged(w.journals, m, w.journals.destination[m].(status := Activated))
                             .(reserved := w.journals.reserved + {m})
    ensures w'.history == w.history.(holder := d, hops := w.history.hops + [m])
  {
    hide Apply, Run, Assumed;
    var pair := [ActivateStep(d), ActivateStep(d)];
    var w1 := Reserve(w, m, d, before);
    var w2 := Claim(w1, m, d, before);
    RunThen(w, [ActivateStep(d)], w1, pair, w2);
    w' := Log(w2, m, d, before);
    RunThen(w, [ActivateStep(d)] + pair, w2, pair, w');
  }

  function ArrivalActions(m: MigrationId, d: NodeId): seq<Action> {
    [Receive(m)] + ActivationActions(d)
  }

  lemma Arrive(w: World, m: MigrationId, d: NodeId)
    requires Arriving(w, m) && d == w.journals.source[m].destination
    ensures Run(w, ArrivalActions(m, d), Arrived(w, m))
  {
    hide Apply, Run, Assumed;
    var w1 := Accept(w, m, d);
    var w2 := Activate(w1, m, d, w.registry[d]);
    assert w2.op == w.op && w2.registry == Arrived(w, m).registry;
    assert w2.journals.destination == Arrived(w, m).journals.destination;
    RunThen(w, [Receive(m)], w1, ActivationActions(d), w2);
  }

  // ---------- How the source concludes ----------

  function FinishActions(n: NodeId): seq<Action> {
    [ReplyActivated(n), FinalizeStep(n)] + [FinalizeStep(n)]
  }

  /** The reply says ACTIVATED: the source names the new owner and closes its record. */
  lemma Finish(w: World, n: NodeId, m: MigrationId) returns (w': World)
    requires n in w.op && n in w.registry && w.op[n] == Sourcing(m, AwaitingReply)
    requires m in w.journals.source && Committed(w.journals, m) && w.registry[n].status.Stopped?
    ensures Run(w, FinishActions(n), w')
    ensures var r := w.journals.source[m];
            w' == w.(registry := w.registry[n := TaskState(r.destination, r.generation, Remote, Some(m))],
                     op := w.op[n := Idle],
                     journals := SourceLogged(w.journals, m, w.journals.source[m].(status := Activated)))
  {
    var w1 := Apply(Apply(w, ReplyActivated(n)), FinalizeStep(n));
    assert w1.op[n] == Finalizing(m, true) && w1.journals == w.journals;
    w' := Apply(w1, FinalizeStep(n));
    RunTwo(w, ReplyActivated(n), FinalizeStep(n));
    RunOne(w1, FinalizeStep(n));
    assert w'.op == w.op[n := Idle];
    hide Run;
    RunThen(w, [ReplyActivated(n), FinalizeStep(n)], w1, [FinalizeStep(n)], w');
  }

  /** The reply does not come, the destination has no record, and the source turns to taking the task back. */
  lemma Unheard(w: World, n: NodeId, m: MigrationId) returns (w': World)
    requires n in w.op && n in w.registry && w.op[n] == Sourcing(m, AwaitingReply)
    requires m in w.journals.source && m !in w.journals.destination
    ensures Run(w, [ReplyLost(n), PollDecides(n)], w')
    ensures w' == w.(op := w.op[n := Restoring(m, RestoreState, true, true)],
                     journals := SourceLogged(w.journals, m, w.journals.source[m].(status := Uncertain))
                       .(absent := w.journals.absent + {m}))
  {
    w' := Apply(Apply(w, ReplyLost(n)), PollDecides(n));
    RunTwo(w, ReplyLost(n), PollDecides(n));
  }

  /** The source's reconciliation of `m` finds no ACTIVATED anywhere, and no PREPARING record it can simply drop. */
  predicate TakesBack(w: World, n: NodeId, m: MigrationId) {
    && Unresolved(w.journals, m) && w.journals.source[m].source == n && n in w.registry && n in w.op
    && (w.registry[n].owner == w.journals.source[m].destination ==>
          w.registry[n].generation < w.journals.source[m].generation)
    && (w.registry[n].owner == n ==> !w.journals.source[m].status.Preparing?)
    && !ActivatingAt(w.journals, m) && !Committed(w.journals, m)
  }

  function TakeBackActions(n: NodeId, m: MigrationId): seq<Action> {
    [Crash(n), ReconcileSource(m, true)] + [RestoreStep(n, true), RestoreStep(n, true)]
  }

  lemma AsksAfterRestart(w: World, n: NodeId, m: MigrationId) returns (w': World)
    requires TakesBack(w, n, m)
    ensures Run(w, [Crash(n), ReconcileSource(m, true)], w')
    ensures w' == w.(op := w.op[n := Restoring(m, RestoreState, true, true)],
                     journals := if m in w.journals.destination then w.journals
                                 else w.journals.(absent := w.journals.absent + {m}))
  {
    w' := Apply(Apply(w, Crash(n)), ReconcileSource(m, true));
    RunTwo(w, Crash(n), ReconcileSource(m, true));
  }

  /** The journalled snapshot, running again. */
  function TakenBack(r: SourceRecord, n: NodeId): TaskState {
    RestoredState(r.original, n, if r.generation == 0 then 0 else r.generation - 1).(status := Running)
  }

  lemma RestartsTask(w: World, n: NodeId, m: MigrationId) returns (w': World)
    requires n in w.op && n in w.registry && w.op[n] == Restoring(m, RestoreState, true, true)
    requires m in w.journals.source
    ensures Run(w, [RestoreStep(n, true), RestoreStep(n, true)], w')
    ensures w' == w.(op := w.op[n := Restoring(m, LogRestored, true, true)], registry := w'.registry)
    ensures w'.registry == w.registry[n := TakenBack(w.journals.source[m], n)] && Live(w', n)
  {
    w' := Apply(Apply(w, RestoreStep(n, true)), RestoreStep(n, true));
    RunTwo(w, RestoreStep(n, true), RestoreStep(n, true));
  }

  /** After a restart such a source reaches the destination and runs the task again. */
  lemma TakeBack(w: World, n: NodeId, m: MigrationId) returns (w': World)
    requires TakesBack(w, n, m)
    ensures Run(w, TakeBackActions(n, m), w')
    ensures Live(w', n) && forall k | k != n :: Live(w', k) == Live(w, k)
    ensures w'.journals.source == w.journals.source && w'.history == w.history
  {
    hide Run, Apply;
    var w1 := AsksAfterRestart(w, n, m);
    w' := RestartsTask(w1, n, m);
    RunThen(w, [Crash(n), ReconcileSource(m, true)], w1, [RestoreStep(n, true), RestoreStep(n, true)], w');
  }

  // ---------- How a destination forgets ----------

  /** After a restart it finds no claim of `k`, and turns to undoing. */
  lemma DropsClaim(w: World, n: NodeId, k: MigrationId) returns (w': World)
    requires k in w.journals.source && w.journals.source[k].destination == n && n in w.op && n in w.registry
    requires ActivatingAt(w.journals, k) && !Claims(w.registry[n], n, k, w.journals.source[k].generation)
    ensures Run(w, [Crash(n), ReconcileDestination(k)], w')
    ensures w' == w.(op := w.op[n := Undoing(k, UndoRestore, w.journals.destination[k].original)])
  {
    w' := Apply(Apply(w, Crash(n)), ReconcileDestination(k));
    RunTwo(w, Crash(n), ReconcileDestination(k));
  }

  // ---------- A whole hop ----------

  /** What a migration of a live task to `d` finds: nothing is in flight from `n`, and `d` is not ahead. */
  lemma Prospects(w: World, n: NodeId, m: MigrationId, d: NodeId)
    requires Invariant(w) && Enabled(w, Begin(n, m, d)) && Live(w, n)
    ensures NotesKnown(w.journals) && m !in w.history.hops
    ensures d in w.op && w.registry[d].lastMigration != Some(m)
    ensures w.registry[d].generation <= w.registry[n].generation + 1
    ensures w.registry[n].generation <= |w.history.hops| + 1
  {
    hide Invariant, OperationSound;
    Facts(w);
    HopsWereBegun(w);
    NodeFacts(w, n);
    NodeFacts(w, d);
    if w.registry[d].generation > |w.history.hops| {
      ClaimIsPending(w, d);
    }
    if w.registry[n].generation > |w.history.hops| {
      ClaimIsPending(w, n);
    }
  }

  /** The steps by which a migration from `n` that has just begun commits at `d`, whatever `d` was doing. */
  function HopActions(n: NodeId, m: MigrationId, d: NodeId): seq<Action> {
    DepartureActions(n) + [Crash(d)] + ArrivalActions(m, d)
  }

  /** The world once it has. */
  predicate Hopped(w: World, n: NodeId, m: MigrationId, d: NodeId, w': World)
    requires Enabled(w, Begin(n, m, d))
  {
    var generation := w.registry[n].generation + 1;
    && w'.registry == w.registry[n := w.registry[n].(status := Stopped, lastMigration := Some(m))]
                        [d := TaskState(d, generation, Running, Some(m))]
    && w'.op == w.op[n := Sourcing(m, AwaitingReply)][d := Idle]
    && w'.journals.source == w.journals.source[m := SourceRecord(n, d, generation, Handover, w.registry[n])]
    && w'.journals.destination == w.journals.destination[m := DestinationRecord(Activated, w.registry[d])]
    && w'.journals.sent == w.journals.sent + {m} && w'.journals.absent == w.journals.absent
    && w'.lease == w.lease[m := Spent] && w'.history == w.history.(holder := d, hops := w.history.hops + [m])
  }

  lemma Began(w: World, n: NodeId, m: MigrationId, d: NodeId) returns (w': World)
    requires Enabled(w, Begin(n, m, d)) && Live(w, n)
    ensures w' == Apply(w, Begin(n, m, d)) && Departing(w', n, m)
    ensures w' == w.(op := w.op[n := Sourcing(m, Prepared)], lease := w.lease[m := Granted],
                     journals := SourceLogged(w.journals, m, SourceRecord(n, d, w.registry[n].generation + 1,
                                                                          Preparing, w.registry[n])))
  {
    w' := Apply(w, Begin(n, m, d));
  }

  lemma Crashed(w: World, n: NodeId) returns (w': World)
    requires n in w.op
    ensures Run(w, [Crash(n)], w') && w' == w.(op := w.op[n := Idle])
  {
    w' := Apply(w, Crash(n));
    RunOne(w, Crash(n));
  }

  /** The same from any state in which nothing stands in the way of the request. */
  lemma HopFrom(w: World, n: NodeId, m: MigrationId, d: NodeId) returns (w': World)
    requires Enabled(w, Begin(n, m, d)) && Live(w, n) && d in w.op && NotesKnown(w.journals)
    requires m !in w.history.hops && w.registry[d].lastMigration != Some(m)
    requires w.registry[d].generation <= w.registry[n].generation + 1
    ensures Run(Apply(w, Begin(n, m, d)), HopActions(n, m, d), w') && Hopped(w, n, m, d, w')
  {
    hide Run, Apply;
    var w1 := Began(w, n, m, d);
    Depart(w1, n, m);
    var w2 := Departed(w1, n, m);
    var w3 := Crashed(w2, d);
    RunThen(w1, DepartureActions(n), w2, [Crash(d)], w3);
    assert Arriving(w3, m);
    Arrive(w3, m, d);
    w' := Arrived(w3, m);
    RunThen(w1, DepartureActions(n) + [Crash(d)], w3, ArrivalActions(m, d), w');
  }

  lemma Hop(w: World, n: NodeId, m: MigrationId, d: NodeId) returns (w': World)
    requires Invariant(w) && Enabled(w, Begin(n, m, d)) && Live(w, n)
    ensures Run(Apply(w, Begin(n, m, d)), HopActions(n, m, d), w') && Hopped(w, n, m, d, w')
  {
    hide Invariant, Run, Apply, Hopped;
    Prospects(w, n, m, d);
    w' := HopFrom(w, n, m, d);
  }

  // ---------- A small network ----------

  /** Three nodes; the task runs at node 0. */
  function ThreeNodes(): World {
    World(map[0 := TaskState(0, 0, Running, None), 1 := TaskState(0, 0, Remote, None),
              2 := TaskState(0, 0, Remote, None)],
          Journals(map[], map[], {}, {}, {}), map[],
          map[0 := Idle, 1 := Idle, 2 := Idle], History(0, 0, []))
  }

  /** Node 0 has stopped the task and sent node 1 the request of migration 10. */
  lemma RequestSent() returns (actions: seq<Action>, w: World)
    ensures Initial(ThreeNodes()) && Run(ThreeNodes(), actions, w)
    ensures w == World(map[0 := TaskState(0, 0, Stopped, Some(10)), 1 := TaskState(0, 0, Remote, None),
                           2 := TaskState(0, 0, Remote, None)],
                       Journals(map[10 := SourceRecord(0, 1, 1, Handover, TaskState(0, 0, Running, None))], map[],
                                {10}, {}, {}),
                       map[10 := Granted],
                       map[0 := Sourcing(10, AwaitingReply), 1 := Idle, 2 := Idle], History(0, 0, []))
  {
    hide Run, Apply;
    RunOne(ThreeNodes(), Begin(0, 10, 1));
    var begun := Began(ThreeNodes(), 0, 10, 1);
    Depart(begun, 0, 10);
    w := Departed(begun, 0, 10);
    actions := [Begin(0, 10, 1)] + DepartureActions(0);
    RunThen(ThreeNodes(), [Begin(0, 10, 1)], begun, DepartureActions(0), w);
  }
}
