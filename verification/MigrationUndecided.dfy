/**
 When a new migration may begin.

 `migrate` checks that the node owns the task and never looks for a record it has not concluded. A restart can
 leave such a record behind a live task: the source of an undecided attempt runs the task again, or a destination
 runs it before it has logged ACTIVATED. Beginning then breaks the protocol, and only then.
 */
module MigrationUndecided {
  import opened Common
  import opened Registry
  import opened MigrationProtocol
  import opened MigrationSafety
  import opened MigrationSteps
  import opened MigrationTheorems
  import opened MigrationRuns

  // ---------- An attempt of its own is still open ----------

  /** The live source of an open attempt is the holder, and the attempt cannot commit as things stand. */
  lemma OpenAndLive(w: World, n: NodeId, k: MigrationId)
    requires Invariant(w) && Live(w, n) && n in w.op
    requires k in w.journals.source && w.journals.source[k].source == n && OpenAttempt(w.journals, k)
    ensures n == w.history.holder && !MayCommit(w.journals, k) && k !in w.history.hops
    ensures w.registry[n].owner == n && w.registry[n].generation + 1 == w.journals.source[k].generation
    ensures w.journals.source[k].destination != n
  {
    hide Invariant, OperationSound;
    Facts(w);
    NodeFacts(w, n);
    MigrationFacts(w, k);
    if w.registry[n].generation > |w.history.hops| {
      ClaimIsPending(w, n);
    }
  }

  /** After the reply to `m`, the source's reconciliation of `k` takes `d` for the destination of `k`. */
  lemma Mistaken(w: World, n: NodeId, k: MigrationId) returns (w': World)
    requires n in w.registry && n in w.op && w.op[n].Idle? && Unresolved(w.journals, k)
    requires w.journals.source[k].source == n && w.registry[n].owner == w.journals.source[k].destination
    requires w.registry[n].generation >= w.journals.source[k].generation
    ensures Run(w, [ReconcileSource(k, true)], w') && w'.history == w.history
    ensures k in w'.journals.source && w'.journals.source[k].status.Activated?
  {
    RunOne(w, ReconcileSource(k, true));
    w' := Apply(w, ReconcileSource(k, true));
  }

  /** The attempt got past PREPARING: a restart is enough for its source to take the task back. */
  lemma BeginBesideRequest(w: World, n: NodeId, m: MigrationId, d: NodeId, k: MigrationId)
    returns (actions: seq<Action>, last: World)
    requires Invariant(w) && Enabled(w, Begin(n, m, d)) && Live(w, n)
    requires k in w.journals.source && w.journals.source[k].source == n && OpenAttempt(w.journals, k)
    requires !w.journals.source[k].status.Preparing?
    ensures Run(Apply(w, Begin(n, m, d)), actions, last) && Live(last, n) && Live(last, d)
  {
    hide Invariant, Run, Apply;
    OpenAndLive(w, n, k);
    var w2 := Hop(w, n, m, d);
    assert TakesBack(w2, n, k) && Live(w2, d);
    last := TakeBack(w2, n, k);
    RunThen(Apply(w, Begin(n, m, d)), HopActions(n, m, d), w2, TakeBackActions(n, k), last);
    actions := HopActions(n, m, d) + TakeBackActions(n, k);
  }

  /** It did not: the source first learns that `m` arrived, then reconciles. */
  lemma BeginBesidePrepared(w: World, n: NodeId, m: MigrationId, d: NodeId, k: MigrationId)
    returns (actions: seq<Action>, last: World)
    requires Invariant(w) && Enabled(w, Begin(n, m, d)) && Live(w, n)
    requires k in w.journals.source && w.journals.source[k].source == n && OpenAttempt(w.journals, k)
    ensures Run(Apply(w, Begin(n, m, d)), actions, last)
    ensures if w.journals.source[k].destination == d then
              k in last.journals.source && last.journals.source[k].status.Activated? && k !in last.history.hops
            else Live(last, n) && Live(last, d)
  {
    hide Invariant, Run, Apply;
    OpenAndLive(w, n, k);
    var w1 := Apply(w, Begin(n, m, d));
    var w2 := Hop(w, n, m, d);
    var w3 := Finish(w2, n, m);
    RunThen(w1, HopActions(n, m, d), w2, FinishActions(n), w3);
    actions := HopActions(n, m, d) + FinishActions(n);
    assert w3.journals.source[k] == w.journals.source[k] && Live(w3, d);
    if w.journals.source[k].destination == d {
      last := Mistaken(w3, n, k);
      RunThen(w1, actions, w3, [ReconcileSource(k, true)], last);
      actions := actions + [ReconcileSource(k, true)];
    } else {
      assert TakesBack(w3, n, k);
      last := TakeBack(w3, n, k);
      RunThen(w1, actions, w3, TakeBackActions(n, k), last);
      actions := actions + TakeBackActions(n, k);
    }
  }

  /**
   Beginning beside an open attempt `k` ends with the task running at two nodes, or, if `k` never got past
   PREPARING and leads to the same destination, with `k` logged as ACTIVATED though it never moved the task.
   */
  lemma BeginBesideOpenAttempt(w: World, n: NodeId, m: MigrationId, d: NodeId, k: MigrationId)
    returns (actions: seq<Action>, last: World)
    requires Invariant(w) && Enabled(w, Begin(n, m, d)) && Live(w, n)
    requires k in w.journals.source && w.journals.source[k].source == n && OpenAttempt(w.journals, k)
    ensures Run(Apply(w, Begin(n, m, d)), actions, last)
    ensures var r := w.journals.source[k];
            if r.status.Preparing? && r.destination == d then
              k in last.journals.source && last.journals.source[k].status.Activated? && k !in last.history.hops
            else Live(last, n) && Live(last, d)
  {
    hide Invariant, Run, Apply, Live;
    if w.journals.source[k].status.Preparing? {
      actions, last := BeginBesidePrepared(w, n, m, d, k);
    } else {
      actions, last := BeginBesideRequest(w, n, m, d, k);
    }
  }

  // ---------- An activation here is not logged yet ----------

  /** A live destination of an uncommitted activation carries its claim, past the last hop. */
  lemma ActivatingAndLive(w: World, n: NodeId, k: MigrationId)
    requires Invariant(w) && Live(w, n) && n in w.op
    requires k in w.journals.source && w.journals.source[k].destination == n
    requires ActivatingAt(w.journals, k) && Unresolved(w.journals, k)
    ensures w.registry[n].generation == |w.history.hops| + 1 == w.journals.source[k].generation
    ensures w.journals.source[k].source == w.history.holder != n
    ensures w.history.holder in w.op && w.history.holder in w.registry
    ensures w.registry[w.history.holder].generation <= |w.history.hops|
    ensures !w.journals.source[k].status.Preparing?
  {
    hide Invariant, OperationSound;
    Facts(w);
    NodeFacts(w, n);
    MigrationFacts(w, k);
    HolderCarriesNoClaim(w);
    assert MayCommit(w.journals, k);
    if w.registry[n].generation > |w.history.hops| {
      ClaimIsPending(w, n);
    }
  }

  function ForgetActions(n: NodeId, k: MigrationId): seq<Action> {
    [Crash(n), ReconcileDestination(k)] + [UndoStep(n), UndoStep(n)]
  }

  lemma Undoes(w: World, n: NodeId, k: MigrationId, s: TaskState) returns (w': World)
    requires n in w.op && n in w.registry && w.op[n] == Undoing(k, UndoRestore, s) && k in w.journals.destination
    ensures Run(w, [UndoStep(n), UndoStep(n)], w')
    ensures w'.registry == w.registry[n := s] && w'.op == w.op[n := Idle] && w'.history == w.history
    ensures w'.journals == DestinationLogged(w.journals, k, w.journals.destination[k].(status := RolledBack))
  {
    w' := Apply(Apply(w, UndoStep(n)), UndoStep(n));
    RunTwo(w, UndoStep(n), UndoStep(n));
  }

  /** A destination whose registry has moved past the claim of `k` rolls `k` back when it reconciles. */
  lemma Forget(w: World, n: NodeId, k: MigrationId) returns (w': World)
    requires k in w.journals.source && w.journals.source[k].destination == n && n in w.op && n in w.registry
    requires ActivatingAt(w.journals, k) && w.registry[n].lastMigration != Some(k)
    ensures Run(w, ForgetActions(n, k), w')
    ensures w'.registry == w.registry[n := w.journals.destination[k].original] && w'.op == w.op[n := Idle]
    ensures w'.journals == DestinationLogged(w.journals, k, w.journals.destination[k].(status := RolledBack))
    ensures w'.history == w.history
  {
    hide Run, Apply;
    var w1 := DropsClaim(w, n, k);
    w' := Undoes(w1, n, k, w.journals.destination[k].original);
    RunThen(w, [Crash(n), ReconcileDestination(k)], w1, [UndoStep(n), UndoStep(n)], w');
  }

  /**
   Beginning from an activation of `k` that is not logged makes a hop whose generation skips one; if it leads
   anywhere but back to the source of `k`, that source then runs the task as well.
   */
  lemma BeginBeforeCommit(w: World, n: NodeId, m: MigrationId, d: NodeId, k: MigrationId)
    returns (actions: seq<Action>, last: World)
    requires Invariant(w) && Enabled(w, Begin(n, m, d)) && Live(w, n)
    requires k in w.journals.source && w.journals.source[k].destination == n
    requires ActivatingAt(w.journals, k) && Unresolved(w.journals, k)
    ensures Run(Apply(w, Begin(n, m, d)), actions, last)
    ensures m in last.journals.source && last.history.hops == w.history.hops + [m]
    ensures last.journals.source[m].generation == |last.history.hops| + 1
    ensures d != w.journals.source[k].source ==> Live(last, w.journals.source[k].source) && Live(last, d)
  {
    hide Invariant, Run, Apply;
    ActivatingAndLive(w, n, k);
    var w1 := Apply(w, Begin(n, m, d));
    var w2 := Hop(w, n, m, d);
    if d == w.journals.source[k].source {
      actions, last := HopActions(n, m, d), w2;
    } else {
      var w3 := Forget(w2, n, k);
      RunThen(w1, HopActions(n, m, d), w2, ForgetActions(n, k), w3);
      var h := w.history.holder;
      assert k != m && w3.journals.source[k] == w.journals.source[k];
      assert TakesBack(w3, h, k);
      last := TakeBack(w3, h, k);
      RunThen(w1, HopActions(n, m, d) + ForgetActions(n, k), w3, TakeBackActions(h, k), last);
      actions := HopActions(n, m, d) + ForgetActions(n, k) + TakeBackActions(h, k);
      assert Live(w3, d);
    }
  }

  // ---------- Exactly when a migration may begin ----------

  lemma SkippedGeneration(w: World, m: MigrationId)
    requires w.history.hops != [] && w.history.hops[|w.history.hops| - 1] == m && m in w.journals.source
    requires w.journals.source[m].generation == |w.history.hops| + 1
    ensures !Path(w.journals, w.history)
  {
    assert !HopSound(w.journals, w.history, |w.history.hops| - 1);
  }

  lemma BrokenOnce(w: World, n: NodeId, m: MigrationId, d: NodeId) returns (actions: seq<Action>, last: World)
    requires Invariant(w) && Enabled(w, Begin(n, m, d)) && Live(w, n) && !SafeToBegin(w.journals, n)
    ensures Run(Apply(w, Begin(n, m, d)), actions, last) && !Guarantees(last)
  {
    hide Invariant, Run, Path, Live, GenerationCountsHops;
    if k :| k in w.journals.source && w.journals.source[k].source == n && OpenAttempt(w.journals, k) {
      actions, last := BeginBesideOpenAttempt(w, n, m, d, k);
    } else {
      var k :| k in w.journals.source && w.journals.source[k].destination == n
               && ActivatingAt(w.journals, k) && Unresolved(w.journals, k);
      actions, last := BeginBeforeCommit(w, n, m, d, k);
      SkippedGeneration(last, m);
    }
  }

  /**
   A live task's migration is safe to begin exactly when nothing is undecided at its node: no attempt of its own
   is open, and no activation it has not logged still has a source waiting for it.
   */
  lemma BeginIsSafeExactlyWhen(w: World, n: NodeId, m: MigrationId, d: NodeId)
    requires Invariant(w) && Enabled(w, Begin(n, m, d)) && Live(w, n)
    ensures SafeToBegin(w.journals, n) <==>
            forall actions, last :: Run(Apply(w, Begin(n, m, d)), actions, last) ==> Guarantees(last)
  {
    hide Invariant, Run, Guarantees, Apply;
    if SafeToBegin(w.journals, n) {
      StepKeepsInvariant(w, Begin(n, m, d));
      forall actions, last | Run(Apply(w, Begin(n, m, d)), actions, last) ensures Guarantees(last) {
        RunsKeepGuarantees(Apply(w, Begin(n, m, d)), actions, last);
      }
    } else {
      var actions, last := BrokenOnce(w, n, m, d);
    }
  }

  // ---------- Such a state is reached ----------

  /** It restarts before it has logged ROLLED_BACK, and cannot reach the destination when it reconciles. */
  lemma Unreached(w: World, n: NodeId, m: MigrationId) returns (w': World)
    requires n in w.op && Unresolved(w.journals, m) && w.journals.source[m].source == n
    requires w.journals.source[m].status.Uncertain? && w.journals.source[m].destination != n
    requires n in w.registry && w.registry[n].owner == n
    ensures Run(w, [Crash(n), ReconcileSource(m, false)], w') && w' == w.(op := w.op[n := Idle])
  {
    w' := Apply(Apply(w, Crash(n)), ReconcileSource(m, false));
    RunTwo(w, Crash(n), ReconcileSource(m, false));
  }

  function UndecidedActions(n: NodeId, m: MigrationId): seq<Action> {
    [ReplyLost(n), PollDecides(n)] + [RestoreStep(n, true), RestoreStep(n, true)]
    + [Crash(n), ReconcileSource(m, false)]
  }

  lemma Undecided(w: World, n: NodeId, m: MigrationId) returns (w': World)
    requires n in w.op && n in w.registry && w.op[n] == Sourcing(m, AwaitingReply)
    requires m in w.journals.source && w.journals.source[m].source == n && m !in w.journals.destination
    requires w.journals.source[m].destination != n
    ensures Run(w, UndecidedActions(n, m), w')
    ensures Live(w', n) && w'.registry[n].owner == n && w'.registry.Keys == w.registry.Keys
    ensures w'.op == w.op[n := Idle] && OpenAttempt(w'.journals, m)
    ensures w'.journals.source == w.journals.source[m := w.journals.source[m].(status := Uncertain)]
  {
    hide Run, Apply;
    var w1 := Unheard(w, n, m);
    var w2 := RestartsTask(w1, n, m);
    w' := Unreached(w2, n, m);
    assert w'.op == w.op[n := Idle];
    var asking, restoring := [ReplyLost(n), PollDecides(n)], [RestoreStep(n, true), RestoreStep(n, true)];
    RunThen(w, asking, w1, restoring, w2);
    RunThen(w, asking + restoring, w2, [Crash(n), ReconcileSource(m, false)], w');
  }

  /** From the initial state of three nodes: one lost request, one restart, one more migration, two live owners. */
  lemma SplitByBeginReachable() returns (first: seq<Action>, mid: World, rest: seq<Action>, last: World)
    ensures Initial(ThreeNodes()) && Run(ThreeNodes(), first, mid)
    ensures Enabled(mid, Begin(0, 11, 2)) && Live(mid, 0)
    ensures Run(Apply(mid, Begin(0, 11, 2)), rest, last) && Live(last, 0) && Live(last, 2)
  {
    hide Run, Invariant, Apply, Initial;
    var sent, w := RequestSent();
    mid := Undecided(w, 0, 10);
    first := sent + UndecidedActions(0, 10);
    RunThen(ThreeNodes(), sent, w, UndecidedActions(0, 10), mid);
    InitiallySound(ThreeNodes());
    RunKeepsInvariant(ThreeNodes(), first, mid);
    rest, last := BeginBesideOpenAttempt(mid, 0, 11, 2, 10);
  }
}
