/**
 What becomes of the task when a migration does not go through, and that none is stuck.

 A source that fails after it has stopped the task restarts it; one that fails before that leaves it STOPPED. Either
 way, and whenever the destination's answer decides the migration, it ends with a closed record and nothing under way.
 */
module MigrationRecovery {
  import opened Common
  import opened Registry
  import opened MigrationProtocol
  import opened MigrationSafety
  import opened MigrationSteps
  import opened MigrationTheorems
  import opened MigrationRuns

  // ---------- The end of an attempt ----------

  /** Node `n` is done with `m`: nothing is under way, the record says `status`, and nothing else has changed. */
  predicate Concluded(w: World, w': World, n: NodeId, m: MigrationId, status: RecordStatus) {
    && n in w.op && n in w.registry && n in w'.registry && m in w.journals.source
    && w'.op == w.op[n := Idle] && w'.registry == w.registry[n := w'.registry[n]]
    && w'.lease == w.lease && w'.history == w.history && w'.journals.destination == w.journals.destination
    && w'.journals.source == w.journals.source[m := w.journals.source[m].(status := status)]
  }

  /** ... and the task is back at `n`, as it was owned before the attempt. */
  predicate GivenBack(w: World, w': World, n: NodeId, m: MigrationId, status: TaskStatus) {
    && Concluded(w, w', n, m, RolledBack)
    && w'.registry[n].owner == n && w'.registry[n].generation == w.journals.source[m].generation - 1
    && w'.registry[n].status == status
  }

  function Outcome(healthy: bool): TaskStatus {
    if healthy then Running else Failed
  }

  // ---------- The steps that give it back ----------

  /** Operation `o` of node `n` is about to take the task back from `m`. */
  predicate TakingBack(w: World, n: NodeId, m: MigrationId, restart: bool) {
    && n in w.op && n in w.registry && m in w.journals.source && w.journals.source[m].generation >= 1
    && w.op[n].Restoring? && w.op[n].m == m && w.op[n].restore.RestoreState? && w.op[n].restart == restart
  }

  function RestoreActions(n: NodeId, restart: bool, healthy: bool): seq<Action> {
    [RestoreStep(n, healthy), RestoreStep(n, healthy)] + if restart then [RestoreStep(n, healthy)] else []
  }

  lemma RestartedTask(w: World, n: NodeId, m: MigrationId, healthy: bool) returns (w': World)
    requires TakingBack(w, n, m, true)
    ensures Run(w, RestoreActions(n, true, healthy), w') && GivenBack(w, w', n, m, Outcome(healthy))
  {
    var w1 := Apply(Apply(w, RestoreStep(n, healthy)), RestoreStep(n, healthy));
    w' := Apply(w1, RestoreStep(n, healthy));
    RunTwo(w, RestoreStep(n, healthy), RestoreStep(n, healthy));
    RunOne(w1, RestoreStep(n, healthy));
    assert w'.op == w.op[n := Idle];
    hide Run, Apply;
    RunThen(w, [RestoreStep(n, healthy), RestoreStep(n, healthy)], w1, [RestoreStep(n, healthy)], w');
  }

  lemma StoppedTask(w: World, n: NodeId, m: MigrationId, healthy: bool) returns (w': World)
    requires TakingBack(w, n, m, false)
    ensures Run(w, RestoreActions(n, false, healthy), w') && GivenBack(w, w', n, m, Stopped)
  {
    w' := Apply(Apply(w, RestoreStep(n, healthy)), RestoreStep(n, healthy));
    RunTwo(w, RestoreStep(n, healthy), RestoreStep(n, healthy));
    assert w'.op == w.op[n := Idle];
    assert RestoreActions(n, false, healthy) == [RestoreStep(n, healthy), RestoreStep(n, healthy)];
  }

  /** Whether `w` or `w1` counts as the start makes no difference: they differ in what `n` is doing. */
  lemma SameStart(w: World, w1: World, w': World, n: NodeId, m: MigrationId, status: TaskStatus)
    requires GivenBack(w1, w', n, m, status) && n in w.op && w1.op == w.op[n := w1.op[n]]
    requires w1.registry == w.registry && w1.lease == w.lease && w1.history == w.history
    requires w1.journals.source == w.journals.source && w1.journals.destination == w.journals.destination
    ensures GivenBack(w, w', n, m, status)
  {
    assert w'.op == w.op[n := Idle];
  }

  /** Step `a` turns node `n` to taking the task back from `m`, and changes nothing else but what it noted. */
  predicate TurnsBack(w: World, a: Action, w1: World, n: NodeId, m: MigrationId, restart: bool) {
    && Enabled(w, a) && Assumed(w, a) && w1 == Apply(w, a) && TakingBack(w1, n, m, restart)
    && n in w.op && w1.op == w.op[n := w1.op[n]]
    && w1.registry == w.registry && w1.lease == w.lease && w1.history == w.history
    && w1.journals.source == w.journals.source && w1.journals.destination == w.journals.destination
  }

  /** ... and the steps that follow give it back. */
  lemma ThenGivenBack(w: World, a: Action, w1: World, n: NodeId, m: MigrationId, restart: bool, healthy: bool)
    returns (w': World)
    requires TurnsBack(w, a, w1, n, m, restart)
    ensures Run(w, [a] + RestoreActions(n, restart, healthy), w')
    ensures GivenBack(w, w', n, m, if restart then Outcome(healthy) else Stopped)
  {
    hide Run, GivenBack, Apply, Enabled, Assumed, TakingBack;
    RunOne(w, a);
    if restart {
      w' := RestartedTask(w1, n, m, healthy);
    } else {
      w' := StoppedTask(w1, n, m, healthy);
    }
    RunThen(w, [a], w1, RestoreActions(n, restart, healthy), w');
    SameStart(w, w1, w', n, m, if restart then Outcome(healthy) else Stopped);
  }

  lemma AttemptHasGeneration(w: World, m: MigrationId)
    requires Invariant(w) && m in w.journals.source
    ensures w.journals.source[m].generation >= 1
  {
    hide Invariant;
    MigrationFacts(w, m);
  }

  // ---------- Rejected, aborted, decided ----------

  lemma RejectionTurnsBack(w: World, n: NodeId)
    requires Enabled(w, ReplyRejected(n)) && w.journals.source[w.op[n].m].generation >= 1
    ensures TurnsBack(w, ReplyRejected(n), Apply(w, ReplyRejected(n)), n, w.op[n].m, true)
  {
  }

  /** A rejected migration gives the task back running; FAILED if it does not start. */
  lemma RejectionGivesBack(w: World, n: NodeId, healthy: bool) returns (w': World)
    requires Invariant(w) && Enabled(w, ReplyRejected(n))
    ensures Run(w, [ReplyRejected(n)] + RestoreActions(n, true, healthy), w')
    ensures GivenBack(w, w', n, w.op[n].m, Outcome(healthy))
  {
    hide Invariant, Run, GivenBack;
    AttemptHasGeneration(w, w.op[n].m);
    RejectionTurnsBack(w, n);
    w' := ThenGivenBack(w, ReplyRejected(n), Apply(w, ReplyRejected(n)), n, w.op[n].m, true, healthy);
  }

  /** The task has been stopped for the migration that `n` is carrying out. */
  predicate StoppedFor(w: World, n: NodeId)
    requires n in w.op && w.op[n].Sourcing?
  {
    w.op[n].stage.Quiesced? || w.op[n].stage.Sending?
  }

  lemma AbortTurnsBack(w: World, n: NodeId)
    requires Enabled(w, Abort(n)) && w.journals.source[w.op[n].m].generation >= 1
    ensures TurnsBack(w, Abort(n), Apply(w, Abort(n)), n, w.op[n].m, StoppedFor(w, n))
  {
  }

  /**
   A failure before the request is sent gives the task back running exactly when it had been stopped and starts again;
   before that the source leaves it STOPPED, whatever it was.
   */
  lemma AbortGivesBack(w: World, n: NodeId, healthy: bool) returns (w': World)
    requires Invariant(w) && Enabled(w, Abort(n))
    ensures Run(w, [Abort(n)] + RestoreActions(n, StoppedFor(w, n), healthy), w')
    ensures GivenBack(w, w', n, w.op[n].m, if StoppedFor(w, n) then Outcome(healthy) else Stopped)
    ensures Live(w', n) <==> healthy && w.op[n].stage in {Quiesced, Sending}
  {
    hide Invariant, Run;
    AttemptHasGeneration(w, w.op[n].m);
    AbortTurnsBack(w, n);
    w' := ThenGivenBack(w, Abort(n), Apply(w, Abort(n)), n, w.op[n].m, StoppedFor(w, n), healthy);
  }

  lemma PollTurnsBack(w: World, n: NodeId)
    requires Enabled(w, PollDecides(n)) && !Committed(w.journals, w.op[n].m)
    requires w.journals.source[w.op[n].m].generation >= 1
    ensures TurnsBack(w, PollDecides(n), Apply(w, PollDecides(n)), n, w.op[n].m, true)
  {
  }

  /** A poll that finds anything but a commit or an activation under way gives the task back as it was journalled. */
  lemma PollGivesBack(w: World, n: NodeId, healthy: bool) returns (w': World)
    requires Invariant(w) && Enabled(w, PollDecides(n)) && !Committed(w.journals, w.op[n].m)
    ensures Run(w, [PollDecides(n)] + RestoreActions(n, true, healthy), w')
    ensures GivenBack(w, w', n, w.op[n].m, Outcome(healthy))
  {
    hide Invariant, Run, GivenBack;
    AttemptHasGeneration(w, w.op[n].m);
    PollTurnsBack(w, n);
    w' := ThenGivenBack(w, PollDecides(n), Apply(w, PollDecides(n)), n, w.op[n].m, true, healthy);
  }

  /** A poll that never gets an answer leaves the task FAILED, owned as before, and the record for a reconciliation. */
  lemma PollLeavesOpen(w: World, n: NodeId)
    requires Invariant(w) && Enabled(w, PollGivesUp(n))
    ensures var w', m := Apply(w, PollGivesUp(n)), w.op[n].m;
            && w'.op[n].Idle? && w'.journals == w.journals && w'.history == w.history
            && w'.registry == w.registry[n := w.registry[n].(status := Failed)]
            && Unresolved(w'.journals, m) && w'.journals.source[m].source == n
            && Enabled(w', ReconcileSource(m, true))
  {
    hide Invariant, AttemptSound;
    NodeFacts(w, n);
  }

  // ---------- Committed ----------

  /** The source has handed the task over: its entry names the destination and the record is closed. */
  predicate HandedOver(w: World, w': World, n: NodeId, m: MigrationId) {
    && Concluded(w, w', n, m, Activated)
    && w'.registry[n].owner == w.journals.source[m].destination
    && w'.registry[n].generation == w.journals.source[m].generation
    && !IsLive(w'.registry[n])
  }

  lemma HandsOver(w: World, n: NodeId, m: MigrationId) returns (w': World)
    requires n in w.op && n in w.registry && m in w.journals.source && w.op[n] == Finalizing(m, false)
    ensures Run(w, [FinalizeStep(n), FinalizeStep(n)], w') && HandedOver(w, w', n, m)
  {
    w' := Apply(Apply(w, FinalizeStep(n)), FinalizeStep(n));
    RunTwo(w, FinalizeStep(n), FinalizeStep(n));
    assert w'.op == w.op[n := Idle];
  }

  /** A reply or a poll that says ACTIVATED hands the task over. */
  lemma CommitHandsOver(w: World, n: NodeId, a: Action) returns (w': World)
    requires Enabled(w, a) && (a == ReplyActivated(n) || a == PollDecides(n)) && Committed(w.journals, w.op[n].m)
    ensures Run(w, [a] + [FinalizeStep(n), FinalizeStep(n)], w') && HandedOver(w, w', n, w.op[n].m)
  {
    var m := w.op[n].m;
    var w1 := Apply(w, a);
    RunOne(w, a);
    assert w1 == WithOp(w, n, Finalizing(m, false));
    hide Run, Apply;
    w' := HandsOver(w1, n, m);
    RunThen(w, [a], w1, [FinalizeStep(n), FinalizeStep(n)], w');
  }

  // ---------- What a reconciliation does ----------

  /** The source's own registry already names the destination. */
  predicate KnowsHop(w: World, m: MigrationId)
    requires m in w.journals.source && w.journals.source[m].source in w.registry
  {
    var r := w.journals.source[m];
    w.registry[r.source].owner == r.destination && w.registry[r.source].generation >= r.generation
  }

  /** The attempt was logged and nothing else happened. */
  predicate NeverStarted(w: World, m: MigrationId)
    requires m in w.journals.source && w.journals.source[m].source in w.registry
  {
    var r := w.journals.source[m];
    r.status.Preparing? && w.registry[r.source].owner == r.source && !w.registry[r.source].status.Migrating?
  }

  predicate Reconcilable(w: World, m: MigrationId) {
    Enabled(w, ReconcileSource(m, true)) && w.journals.source[m].generation >= 1
  }

  lemma ReconcileKnown(w: World, m: MigrationId, n: NodeId) returns (w': World)
    requires Reconcilable(w, m) && n == w.journals.source[m].source && (KnowsHop(w, m) || NeverStarted(w, m))
    ensures Run(w, [ReconcileSource(m, true)], w')
    ensures Concluded(w, w', n, m, if KnowsHop(w, m) then Activated else RolledBack) && w'.registry == w.registry
  {
    w' := Apply(w, ReconcileSource(m, true));
    RunOne(w, ReconcileSource(m, true));
    assert w'.op == w.op[n := Idle];
  }

  lemma ReconcileCommitted(w: World, m: MigrationId, n: NodeId) returns (w': World)
    requires Reconcilable(w, m) && n == w.journals.source[m].source && !KnowsHop(w, m) && !NeverStarted(w, m)
    requires Committed(w.journals, m)
    ensures Run(w, [ReconcileSource(m, true)] + [FinalizeStep(n), FinalizeStep(n)], w') && HandedOver(w, w', n, m)
  {
    var w1 := Apply(w, ReconcileSource(m, true));
    RunOne(w, ReconcileSource(m, true));
    assert w1 == WithOp(w, n, Finalizing(m, false));
    hide Run, Apply;
    w' := HandsOver(w1, n, m);
    RunThen(w, [ReconcileSource(m, true)], w1, [FinalizeStep(n), FinalizeStep(n)], w');
  }

  lemma ReconcileTurnsBack(w: World, m: MigrationId, n: NodeId)
    requires Reconcilable(w, m) && n == w.journals.source[m].source && !KnowsHop(w, m) && !NeverStarted(w, m)
    requires !Committed(w.journals, m) && !ActivatingAt(w.journals, m)
    ensures TurnsBack(w, ReconcileSource(m, true), Apply(w, ReconcileSource(m, true)), n, m, true)
  {
  }

  /** A reconciliation that reaches a destination which is not at work on `m` closes the record either way. */
  lemma ReconciliationConcludes(w: World, m: MigrationId, n: NodeId, healthy: bool)
    returns (actions: seq<Action>, w': World)
    requires Invariant(w) && Enabled(w, ReconcileSource(m, true)) && !ActivatingAt(w.journals, m)
    requires n == w.journals.source[m].source
    ensures Run(w, actions, w') && actions != [] && actions[0] == ReconcileSource(m, true)
    ensures if KnowsHop(w, m) then Concluded(w, w', n, m, Activated) && w'.registry == w.registry
            else if NeverStarted(w, m) then Concluded(w, w', n, m, RolledBack) && w'.registry == w.registry
            else if Committed(w.journals, m) then HandedOver(w, w', n, m)
            else GivenBack(w, w', n, m, Outcome(healthy))
    ensures w'.journals.source[m].status == if m in w.history.hops then Activated else RolledBack
  {
    AttemptHasGeneration(w, m);
    hide Invariant, Run, Apply;
    if KnowsHop(w, m) || NeverStarted(w, m) {
      w' := ReconcileKnown(w, m, n);
      actions := [ReconcileSource(m, true)];
    } else if Committed(w.journals, m) {
      w' := ReconcileCommitted(w, m, n);
      actions := [ReconcileSource(m, true)] + [FinalizeStep(n), FinalizeStep(n)];
    } else {
      ReconcileTurnsBack(w, m, n);
      w' := ThenGivenBack(w, ReconcileSource(m, true), Apply(w, ReconcileSource(m, true)), n, m, true, healthy);
      actions := [ReconcileSource(m, true)] + RestoreActions(n, true, healthy);
    }
    ClosedAsItWent(w, actions, w', n, m);
  }

  lemma ClosedAsItWent(w: World, actions: seq<Action>, w': World, n: NodeId, m: MigrationId)
    requires Invariant(w) && Run(w, actions, w') && m in w.journals.source
    requires Concluded(w, w', n, m, Activated) || Concluded(w, w', n, m, RolledBack)
    ensures w'.journals.source[m].status == if m in w.history.hops then Activated else RolledBack
  {
    hide Invariant, Run;
    RunKeepsInvariant(w, actions, w');
    MigrationFacts(w', m);
  }

  /** One that does not reach it, or finds it at work, notes the doubt and leaves everything else for later. */
  lemma ReconciliationWaits(w: World, m: MigrationId, reached: bool)
    requires Invariant(w) && Enabled(w, ReconcileSource(m, reached)) && (!reached || ActivatingAt(w.journals, m))
    requires w.journals.source[m].source in w.registry && !KnowsHop(w, m) && !NeverStarted(w, m)
    ensures Apply(w, ReconcileSource(m, reached)) == WithSourceStatus(w, m, Uncertain)
    ensures Enabled(Apply(w, ReconcileSource(m, reached)), ReconcileSource(m, true))
  {
    hide Invariant;
  }

  // ---------- No migration is stuck ----------

  /** Both ends of `m` have restarted. */
  predicate BothIdle(w: World, m: MigrationId) {
    && m in w.journals.source && w.journals.source[m].source in w.op && w.journals.source[m].destination in w.op
    && w.op[w.journals.source[m].source].Idle? && w.op[w.journals.source[m].destination].Idle?
  }

  lemma Restart(w: World, m: MigrationId, n: NodeId, d: NodeId) returns (w': World)
    requires Invariant(w) && m in w.journals.source
    requires n == w.journals.source[m].source && d == w.journals.source[m].destination
    ensures Run(w, [Crash(n), Crash(d)], w') && BothIdle(w', m) && Invariant(w')
    ensures w'.registry == w.registry && w'.journals == w.journals && w'.history == w.history
  {
    hide Invariant;
    MigrationFacts(w, m);
    Facts(w);
    hide AttemptSound;
    w' := Apply(Apply(w, Crash(n)), Crash(d));
    RunTwo(w, Crash(n), Crash(d));
    RunKeepsInvariant(w, [Crash(n), Crash(d)], w');
  }

  /** The destination of `m` holds the task for good or is done with it. */
  predicate ClaimStands(w: World, m: MigrationId, d: NodeId) {
    && m in w.journals.source && d in w.registry && Claims(w.registry[d], d, m, w.journals.source[m].generation)
    && (IsLive(w.registry[d]) || w.registry[d].status.Completed?)
  }

  /** The lease of `m` no longer holds capacity, and no other lease has changed. */
  predicate LeaseReleased(w: World, w': World, m: MigrationId) {
    m in w.lease ==> m in w'.lease && w'.lease == w.lease[m := w'.lease[m]] && (w'.lease[m].Spent? || w'.lease[m].Void?)
  }

  /** Without a live claim the destination undoes the activation and releases the lease. */
  lemma Undone(w: World, m: MigrationId, d: NodeId) returns (actions: seq<Action>, w': World)
    requires m in w.journals.source && w.journals.source[m].destination == d && d in w.op && d in w.registry
    requires ActivatingAt(w.journals, m) && w.op[d].Idle? && !ClaimStands(w, m, d)
    ensures Run(w, actions, w') && Rejected(w'.journals, m) && w'.op == w.op && w'.history == w.history
    ensures w'.journals.source == w.journals.source && d in w'.registry
    ensures w'.registry == w.registry[d := w'.registry[d]] && LeaseReleased(w, w', m)
  {
    hide Run, Apply, Claims;
    var w1 := TurnsToUndo(w, m, d);
    var undoing;
    undoing, w' := Undoes(w1, m, d);
    actions := [ReconcileDestination(m)] + undoing;
    RunThen(w, [ReconcileDestination(m)], w1, undoing, w');
    assert w'.op == w.op;
  }

  /** An undo that has not yet put the entry back, to its end. */
  lemma Undoes(w: World, m: MigrationId, d: NodeId) returns (actions: seq<Action>, w': World)
    requires d in w.op && d in w.registry && m in w.journals.destination
    requires w.op[d].Undoing? && !w.op[d].undo.UndoLog? && w.op[d].m == m
    ensures Run(w, actions, w') && Rejected(w'.journals, m)
    ensures w'.op == w.op[d := Idle] && w'.history == w.history && w'.journals.source == w.journals.source
    ensures d in w'.registry && w'.registry == w.registry[d := w.op[d].before] && LeaseReleased(w, w', m)
  {
    hide Run, Apply;
    if w.op[d].undo.UndoStop? {
      var w1 := StopsFirst(w, m, d);
      w' := RestoredAndLogged(w1, m, d);
      actions := [UndoStep(d)] + [UndoStep(d), UndoStep(d)];
      RunThen(w, [UndoStep(d)], w1, [UndoStep(d), UndoStep(d)], w');
    } else {
      w' := RestoredAndLogged(w, m, d);
      actions := [UndoStep(d), UndoStep(d)];
    }
  }

  lemma TurnsToUndo(w: World, m: MigrationId, d: NodeId) returns (w': World)
    requires m in w.journals.source && w.journals.source[m].destination == d && d in w.op && d in w.registry
    requires ActivatingAt(w.journals, m) && w.op[d].Idle? && !ClaimStands(w, m, d)
    ensures Run(w, [ReconcileDestination(m)], w') && d in w'.op && w'.op == w.op[d := w'.op[d]]
    ensures w'.op[d].Undoing? && w'.op[d].m == m && !w'.op[d].undo.UndoLog?
    ensures w'.registry == w.registry && w'.journals == w.journals && w'.history == w.history && w'.lease == w.lease
  {
    w' := Apply(w, ReconcileDestination(m));
    RunOne(w, ReconcileDestination(m));
  }

  lemma StopsFirst(w: World, m: MigrationId, d: NodeId) returns (w': World)
    requires d in w.op && d in w.registry && m in w.journals.destination
    requires w.op[d].Undoing? && w.op[d].undo.UndoStop? && w.op[d].m == m
    ensures Run(w, [UndoStep(d)], w') && d in w'.op && w'.op == w.op[d := w'.op[d]]
    ensures w'.op[d].Undoing? && w'.op[d].undo.UndoRestore? && w'.op[d].m == m && w'.op[d].before == w.op[d].before
    ensures d in w'.registry && w'.registry == w.registry[d := w'.registry[d]]
    ensures w'.journals == w.journals && w'.history == w.history && w'.lease == w.lease
  {
    w' := Apply(w, UndoStep(d));
    RunOne(w, UndoStep(d));
  }

  lemma RestoredAndLogged(w: World, m: MigrationId, d: NodeId) returns (w': World)
    requires d in w.op && d in w.registry && m in w.journals.destination
    requires w.op[d].Undoing? && w.op[d].undo.UndoRestore? && w.op[d].m == m
    ensures Run(w, [UndoStep(d), UndoStep(d)], w') && Rejected(w'.journals, m)
    ensures w'.op == w.op[d := Idle] && w'.history == w.history && w'.journals.source == w.journals.source
    ensures d in w'.registry && w'.registry == w.registry[d := w.op[d].before] && LeaseReleased(w, w', m)
  {
    w' := Apply(Apply(w, UndoStep(d)), UndoStep(d));
    RunTwo(w, UndoStep(d), UndoStep(d));
    assert w'.op == w.op[d := Idle];
  }

  /** An activation that fails, at any stage before it is logged, leaves the entry it found and a released lease. */
  lemma FailureRestores(w: World, m: MigrationId, d: NodeId) returns (actions: seq<Action>, w': World)
    requires Enabled(w, ActivateFails(d)) && m == w.op[d].m
    ensures Run(w, actions, w') && actions != [] && actions[0] == ActivateFails(d)
    ensures Rejected(w'.journals, m) && w'.op == w.op[d := Idle] && LeaseReleased(w, w', m)
    ensures w'.registry == w.registry[d := w.op[d].before]
    ensures w'.journals.source == w.journals.source && w'.history == w.history
  {
    var w1 := TurnsFromActivating(w, d);
    hide Run, Apply, Enabled;
    var undoing;
    undoing, w' := Undoes(w1, m, d);
    actions := [ActivateFails(d)] + undoing;
    RunThen(w, [ActivateFails(d)], w1, undoing, w');
  }

  lemma TurnsFromActivating(w: World, d: NodeId) returns (w': World)
    requires Enabled(w, ActivateFails(d))
    ensures Run(w, [ActivateFails(d)], w') && d in w.op && d in w'.op && w'.op == w.op[d := w'.op[d]]
    ensures w.op[d].Activating? && w.op[d].m in w'.journals.destination
    ensures w'.op[d].Undoing? && w'.op[d].m == w.op[d].m && !w'.op[d].undo.UndoLog?
    ensures w'.op[d].before == w.op[d].before
    ensures d in w'.registry && w'.registry == w.registry[d := w'.registry[d]]
    ensures w'.journals == w.journals && w'.history == w.history && w'.lease == w.lease
  {
    w' := Apply(w, ActivateFails(d));
    RunOne(w, ActivateFails(d));
  }

  /** A lease that lapses before the destination takes it into use refuses the migration and leaves the entry alone. */
  lemma LapseRefuses(w: World, m: MigrationId, d: NodeId) returns (w': World)
    requires d in w.op && d in w.registry && m in w.journals.destination && m in w.lease && w.lease[m].Granted?
    requires w.op[d] == Activating(m, Reserving, w.registry[d])
    ensures Enabled(w, LeaseLapses(m)) && !Enabled(Apply(w, LeaseLapses(m)), ActivateStep(d))
    ensures Run(w, [LeaseLapses(m), ActivateFails(d)] + [UndoStep(d), UndoStep(d)], w')
    ensures Rejected(w'.journals, m) && w'.op == w.op[d := Idle] && w'.registry == w.registry
    ensures LeaseReleased(w, w', m) && w'.journals.source == w.journals.source && w'.history == w.history
  {
    hide Run, Apply, Enabled, Assumed;
    var w1 := Lapses(w, m, d);
    w' := RestoredAndLogged(w1, m, d);
    RunThen(w, [LeaseLapses(m), ActivateFails(d)], w1, [UndoStep(d), UndoStep(d)], w');
    assert w'.op == w.op[d := Idle] && w'.registry == w.registry;
    assert w'.lease == w.lease[m := w'.lease[m]];
  }

  lemma Lapses(w: World, m: MigrationId, d: NodeId) returns (w': World)
    requires d in w.op && d in w.registry && m in w.journals.destination && m in w.lease && w.lease[m].Granted?
    requires w.op[d] == Activating(m, Reserving, w.registry[d])
    ensures Run(w, [LeaseLapses(m), ActivateFails(d)], w')
    ensures Enabled(w, LeaseLapses(m)) && !Enabled(Apply(w, LeaseLapses(m)), ActivateStep(d))
    ensures w' == w.(op := w.op[d := Undoing(m, UndoRestore, w.registry[d])], lease := w.lease[m := Void])
  {
    var w1 := Apply(w, LeaseLapses(m));
    assert Enabled(w, LeaseLapses(m)) && w1 == w.(lease := w.lease[m := Void]);
    w' := FailsToReserve(w1, m, d);
    RunTwo(w, LeaseLapses(m), ActivateFails(d));
  }

  lemma FailsToReserve(w: World, m: MigrationId, d: NodeId) returns (w': World)
    requires d in w.op && d in w.registry && m in w.journals.destination && m in w.lease && w.lease[m].Void?
    requires w.op[d] == Activating(m, Reserving, w.registry[d])
    ensures !Enabled(w, ActivateStep(d)) && Enabled(w, ActivateFails(d)) && w' == Apply(w, ActivateFails(d))
    ensures w' == w.(op := w.op[d := Undoing(m, UndoRestore, w.registry[d])])
  {
    w' := Apply(w, ActivateFails(d));
    assert w'.registry == w.registry;
  }

  /** With one it commits. */
  lemma Stands(w: World, m: MigrationId, d: NodeId) returns (w': World)
    requires m in w.journals.source && w.journals.source[m].destination == d && d in w.op && d in w.registry
    requires ActivatingAt(w.journals, m) && w.op[d].Idle? && ClaimStands(w, m, d) && m !in w.history.hops
    ensures Run(w, [ReconcileDestination(m)], w') && Committed(w'.journals, m) && w'.op == w.op
    ensures w'.journals.source == w.journals.source && w'.registry == w.registry
    ensures m in w'.history.hops && w'.history.holder == d && LeaseReleased(w, w', m)
  {
    w' := Apply(w, ReconcileDestination(m));
    RunOne(w, ReconcileDestination(m));
  }

  /** A restarted destination makes up its mind. */
  lemma Settles(w: World, m: MigrationId, d: NodeId) returns (actions: seq<Action>, w': World)
    requires Invariant(w) && BothIdle(w, m) && Unresolved(w.journals, m) && d == w.journals.source[m].destination
    ensures Run(w, actions, w') && Invariant(w') && BothIdle(w', m) && d in w'.registry
    ensures w'.journals.source == w.journals.source && !ActivatingAt(w'.journals, m)
    ensures w'.registry == w.registry[d := w'.registry[d]]
    ensures m in w'.history.hops && m !in w.history.hops ==> w'.history.holder == d && ClaimStands(w', m, d)
  {
    hide Invariant;
    MigrationFacts(w, m);
    Facts(w);
    if !ActivatingAt(w.journals, m) {
      actions, w' := [], w;
    } else {
      hide AttemptSound, Run, Apply;
      if ClaimStands(w, m, d) {
        w' := Stands(w, m, d);
        actions := [ReconcileDestination(m)];
      } else {
        actions, w' := Undone(w, m, d);
      }
      RunKeepsInvariant(w, actions, w');
    }
  }

  /**
   From every state of the invariant, whatever either end was doing, an undecided migration can be brought to an end:
   both ends restart, the destination makes up its mind, and the source asks it. If it commits only now, the task is at
   the destination. If it does not, the task runs at the source, as it did before unless it was never touched.
   */
  lemma NoMigrationIsStuck(w: World, m: MigrationId, n: NodeId, d: NodeId) returns (actions: seq<Action>, w': World)
    requires Invariant(w) && Unresolved(w.journals, m)
    requires n == w.journals.source[m].source && d == w.journals.source[m].destination
    ensures Run(w, actions, w') && n in w'.op && w'.op[n].Idle? && n in w'.registry && d in w'.registry
    ensures m in w'.journals.source
            && w'.journals.source[m].status == if m in w'.history.hops then Activated else RolledBack
    ensures m in w'.history.hops && m !in w.history.hops ==>
              w'.history.holder == d && w'.registry[d].owner == d
              && (IsLive(w'.registry[d]) || w'.registry[d].status.Completed?)
    ensures m !in w'.history.hops && !w.journals.source[m].status.Preparing? ==>
              Live(w', n) && w'.registry[n].owner == n
              && w'.registry[n].generation == w.journals.source[m].generation - 1
  {
    hide Invariant, Run, Apply, KnowsHop;
    MigrationFacts(w, m);
    var w1 := Restart(w, m, n, d);
    var settling, w2 := Settles(w1, m, d);
    MigrationFacts(w2, m);
    hide AttemptSound;
    Facts(w2);
    var concluding;
    concluding, w' := ReconciliationConcludes(w2, m, n, true);
    RunThen(w, [Crash(n), Crash(d)], w1, settling, w2);
    RunThen(w, [Crash(n), Crash(d)] + settling, w2, concluding, w');
    actions := [Crash(n), Crash(d)] + settling + concluding;
  }
}
