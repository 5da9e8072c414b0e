/**
 When a completed task stays completed.

 Nothing in the rollback of a migration looks at the task's status: a source that takes the task back writes its
 journalled snapshot over whatever is there and starts the task, and a source that learns late of a hop writes
 REMOTE. A destination that takes up a late repeat may write back the snapshot of an earlier arrival.
 */
module MigrationCompletion {
  import opened Common
  import opened Registry
  import opened MigrationProtocol
  import opened MigrationSafety
  import opened MigrationSteps
  import opened MigrationTheorems
  import opened MigrationRuns

  /** The task has completed at `n`, where the hops lead or where an activation has just claimed it. */
  predicate Finished(w: World, n: NodeId) {
    && n in w.registry && n in w.op && w.registry[n].status.Completed? && w.registry[n].owner == n
    && ((n == w.history.holder && w.registry[n].generation == |w.history.hops|)
        || w.registry[n].generation > |w.history.hops|)
  }

  /** Operation `o` is not about to write anything but `s`. */
  predicate Harmless(o: Operation, s: TaskState) {
    match o
    case Idle => true
    case Sourcing(_, _) => false
    case Finalizing(_, remoteMarked) => remoteMarked
    case Restoring(_, stage, _, _) => !stage.RestoreState?
    case Activating(_, stage, before) => stage.LogActivation? || before == s
    case Undoing(_, stage, before) => stage.UndoLog? || before == s
  }

  /** Node `n` has no record of its own that it has yet to conclude, but for one that touched nothing. */
  predicate OwnRecordsConcluded(j: Journals, n: NodeId) {
    forall m | m in j.source :: j.source[m].source == n && Unresolved(j, m) ==> j.source[m].status.Preparing?
  }

  /** Every migration that `n` may take up again is the one `s` names, or would write back `s` itself. */
  predicate ArrivalsSettled(j: Journals, n: NodeId, s: TaskState) {
    forall m | m in j.source :: j.source[m].destination == n && (Committed(j, m) || ActivatingAt(j, m)) ==>
      Claims(s, n, m, j.source[m].generation) || j.destination[m].original == s
  }

  /** Nothing at node `n` is left that could write its entry. */
  predicate Undisturbed(w: World, n: NodeId)
    requires n in w.registry && n in w.op
  {
    && Harmless(w.op[n], w.registry[n]) && OwnRecordsConcluded(w.journals, n)
    && ArrivalsSettled(w.journals, n, w.registry[n])
  }

  predicate StaysFinished(w: World, w': World, n: NodeId)
    requires n in w.registry
  {
    Finished(w', n) && Undisturbed(w', n) && w'.registry[n] == w.registry[n]
  }

  // ---------- Undisturbed, it stays ----------

  lemma NobodyLive(w: World, n: NodeId, x: NodeId)
    requires Invariant(w) && Finished(w, n) && OwnRecordsConcluded(w.journals, n)
    ensures !Live(w, x)
  {
    hide Invariant, OperationSound;
    Facts(w);
    if Live(w, x) {
      NodeFacts(w, x);
      if w.registry[n].generation > |w.history.hops| {
        ClaimIsPending(w, n);
        if w.registry[x].generation > |w.history.hops| {
          OneClaimant(w, n, x);
        }
      } else {
        ClaimIsPending(w, x);
        var m := w.registry[x].lastMigration.value;
        MigrationFacts(w, m);
      }
    }
  }

  /** What may still commit is the claim that `n` carries. */
  lemma OnlyItsClaim(w: World, n: NodeId, m: MigrationId)
    requires Invariant(w) && Finished(w, n) && OwnRecordsConcluded(w.journals, n)
    requires m in w.journals.source && MayCommit(w.journals, m)
    ensures w.registry[n].generation > |w.history.hops| && PendingClaim(w.journals, n, w.registry[n], m)
  {
    hide Invariant, OperationSound;
    Facts(w);
    MigrationFacts(w, m);
    if w.registry[n].generation > |w.history.hops| {
      ClaimIsPending(w, n);
      var k := w.registry[n].lastMigration.value;
      MigrationFacts(w, k);
      OnlyOpenAttempt(w, m, k);
    }
  }

  /** Entry, operation, own records and arrivals of `n` are the same in both worlds, and so is the history. */
  predicate LeftAlone(w: World, w': World, n: NodeId) {
    && n in w.registry && n in w.op && n in w'.registry && n in w'.op
    && w'.registry[n] == w.registry[n] && w'.op[n] == w.op[n] && w'.history == w.history
    && (forall m | m in w'.journals.source && w'.journals.source[m].source == n ::
          m in w.journals.source && w'.journals.source[m] == w.journals.source[m])
    && (forall m | m in w'.journals.source && w'.journals.source[m].destination == n && m in w'.journals.destination ::
          && m in w.journals.source && w.journals.source[m].destination == n
          && w.journals.source[m].generation == w'.journals.source[m].generation
          && m in w.journals.destination && w.journals.destination[m] == w'.journals.destination[m])
  }

  lemma LeftAloneStays(w: World, w': World, n: NodeId)
    requires Finished(w, n) && Undisturbed(w, n) && LeftAlone(w, w', n)
    ensures StaysFinished(w, w', n)
  {
  }

  predicate SourceAction(a: Action) {
    a.Begin? || a.PrefetchFails? || a.MarkMigrating? || a.LogTransferring? || a.StopSource? || a.LogHandover?
    || a.SendRequest? || a.Abort? || a.ReplyActivated? || a.ReplyRejected? || a.ReplyLost?
  }

  predicate Resolution(a: Action) {
    a.PollDecides? || a.PollGivesUp? || a.FinalizeStep? || a.RestoreStep? || a.ReconcileSource?
  }

  /** The step happens at node `n`. */
  predicate ActsAt(w: World, a: Action, n: NodeId)
    requires Enabled(w, a)
  {
    match a
    case LeaseLapses(_) => false
    case Receive(m) => w.journals.source[m].destination == n
    case ReconcileDestination(m) => w.journals.source[m].destination == n
    case ReconcileSource(m, _) => w.journals.source[m].source == n
    case Broadcast(_, to) => to == n
    case _ => a.n == n
  }

  /** A commit elsewhere writes what is already a hop. */
  lemma CommitElsewhere(w: World, n: NodeId, m: MigrationId)
    requires Invariant(w) && Finished(w, n) && OwnRecordsConcluded(w.journals, n)
    requires m in w.journals.source && w.journals.source[m].destination != n
    requires var d := w.journals.source[m].destination;
             d in w.registry && Claims(w.registry[d], d, m, w.journals.source[m].generation) && d in w.op
    ensures m in w.history.hops
  {
    hide Invariant, OperationSound;
    var d := w.journals.source[m].destination;
    NodeFacts(w, d);
    MigrationFacts(w, m);
    if m !in w.history.hops {
      OnlyItsClaim(w, n, m);
    }
  }

  lemma SourceStepElsewhere(w: World, a: Action, n: NodeId)
    requires Invariant(w) && Finished(w, n) && OwnRecordsConcluded(w.journals, n)
    requires Enabled(w, a) && Assumed(w, a) && !ActsAt(w, a, n)
    requires SourceAction(a)
    ensures LeftAlone(w, Apply(w, a), n)
  {
    hide Invariant, AttemptSound, EntrySound;
    if a.Begin? {
      NobodyLive(w, n, a.n);
    } else {
      NodeFacts(w, a.n);
    }
  }

  lemma ResolutionElsewhere(w: World, a: Action, n: NodeId)
    requires Invariant(w) && Finished(w, n) && OwnRecordsConcluded(w.journals, n)
    requires Enabled(w, a) && !ActsAt(w, a, n) && Resolution(a) && !a.ReconcileSource?
    ensures LeftAlone(w, Apply(w, a), n)
  {
    hide Invariant, AttemptSound, EntrySound;
    NodeFacts(w, a.n);
  }

  lemma ReconciliationElsewhere(w: World, a: Action, n: NodeId)
    requires Finished(w, n) && Enabled(w, a) && !ActsAt(w, a, n) && a.ReconcileSource?
    ensures LeftAlone(w, Apply(w, a), n)
  {
  }

  /** A request or a repair at another node. */
  lemma DeliveryElsewhere(w: World, a: Action, n: NodeId)
    requires Invariant(w) && Finished(w, n) && OwnRecordsConcluded(w.journals, n)
    requires Enabled(w, a) && !ActsAt(w, a, n) && (a.ReconcileDestination? || a.Receive?)
    ensures LeftAlone(w, Apply(w, a), n)
  {
    hide Invariant, AttemptSound, EntrySound, SafeSnapshot, Restorable, OperationSound;
    var m := a.m;
    var r := w.journals.source[m];
    if Claims(w.registry[r.destination], r.destination, m, r.generation) {
      CommitElsewhere(w, n, m);
    }
  }

  lemma DestinationStepElsewhere(w: World, a: Action, n: NodeId)
    requires Invariant(w) && Finished(w, n) && OwnRecordsConcluded(w.journals, n)
    requires Enabled(w, a) && !ActsAt(w, a, n) && (a.ActivateStep? || a.ActivateFails? || a.UndoStep?)
    ensures LeftAlone(w, Apply(w, a), n)
  {
    hide Invariant, AttemptSound, EntrySound, SafeSnapshot, Restorable;
    NodeFacts(w, a.n);
    if a.ActivateStep? && w.op[a.n].activate.LogActivation? {
      CommitElsewhere(w, n, w.op[a.n].m);
    }
  }

  lemma BackgroundElsewhere(w: World, a: Action, n: NodeId)
    requires Finished(w, n) && Enabled(w, a) && !ActsAt(w, a, n)
    requires a.LeaseLapses? || a.Crash? || a.Broadcast? || a.TaskPauses? || a.TaskResumes? || a.TaskCompletes?
             || a.TaskFails?
    ensures LeftAlone(w, Apply(w, a), n)
  {
  }

  // ---------- Its own steps ----------

  /** A migration neither begins nor goes on at `n`. */
  lemma NoSourceStep(w: World, a: Action, n: NodeId)
    requires Finished(w, n) && Undisturbed(w, n) && Enabled(w, a) && Assumed(w, a) && ActsAt(w, a, n)
    ensures !SourceAction(a)
  {
  }

  lemma OwnResolution(w: World, a: Action, n: NodeId)
    requires Invariant(w) && Finished(w, n) && Undisturbed(w, n) && Enabled(w, a) && ActsAt(w, a, n)
    requires Resolution(a)
    ensures StaysFinished(w, Apply(w, a), n)
  {
    hide Invariant, EntrySound, SafeSnapshot, Restorable;
    NodeFacts(w, n);
    if a.ReconcileSource? {
      MigrationFacts(w, a.m);
    }
    hide AttemptSound;
  }

  /** What `n` is asked to take up once it has finished, it has committed or undone before. */
  lemma NoFirstArrival(w: World, n: NodeId, m: MigrationId)
    requires Invariant(w) && Finished(w, n) && OwnRecordsConcluded(w.journals, n)
    requires Enabled(w, Receive(m)) && Assumed(w, Receive(m)) && w.journals.source[m].destination == n
    ensures m in w.journals.destination
  {
    hide Invariant, OperationSound;
    MigrationFacts(w, m);
    NodeFacts(w, n);
    if m !in w.journals.destination && w.registry[n].generation > |w.history.hops| {
      ClaimIsPending(w, n);
      OnlyOpenAttempt(w, m, w.registry[n].lastMigration.value);
    }
  }

  lemma OwnReceive(w: World, m: MigrationId, n: NodeId)
    requires Invariant(w) && Finished(w, n) && Undisturbed(w, n)
    requires Enabled(w, Receive(m)) && Assumed(w, Receive(m)) && w.journals.source[m].destination == n
    ensures StaysFinished(w, Apply(w, Receive(m)), n)
  {
    hide Invariant, SafeSnapshot, Restorable;
    NoFirstArrival(w, n, m);
    MigrationFacts(w, m);
    NodeFacts(w, n);
  }

  /** An activation that `n` is still working on is a late repeat, which the lease stops, or about to be logged. */
  lemma OnlyRepeats(w: World, n: NodeId)
    requires Invariant(w) && Finished(w, n) && Undisturbed(w, n) && w.op[n].Activating?
    ensures w.op[n].m in w.journals.source && w.journals.source[w.op[n].m].destination == n
    ensures !w.op[n].activate.LogActivation? ==>
              w.op[n].activate.Reserving? && w.op[n].m in w.journals.reserved && w.op[n].m in w.journals.destination
    ensures w.op[n].activate.LogActivation? ==>
              Claims(w.registry[n], n, w.op[n].m, w.journals.source[w.op[n].m].generation)
  {
    hide Invariant, Restorable;
    var m := w.op[n].m;
    Facts(w);
    NodeFacts(w, n);
    if !w.op[n].activate.LogActivation? && Unresolved(w.journals, m) {
      OnlyItsClaim(w, n, m);
    }
  }

  lemma OwnActivateStep(w: World, n: NodeId)
    requires Invariant(w) && Finished(w, n) && Undisturbed(w, n) && Enabled(w, ActivateStep(n))
    ensures StaysFinished(w, Apply(w, ActivateStep(n)), n)
  {
    hide Invariant, OperationSound, SafeSnapshot, Restorable;
    OnlyRepeats(w, n);
    Facts(w);
    NodeFacts(w, n);
    MigrationFacts(w, w.op[n].m);
  }

  lemma OwnUndo(w: World, a: Action, n: NodeId)
    requires Invariant(w) && Finished(w, n) && Undisturbed(w, n) && Enabled(w, a)
    requires a == ActivateFails(n) || a == UndoStep(n)
    ensures StaysFinished(w, Apply(w, a), n)
  {
    hide Invariant, OperationSound, SafeSnapshot, Restorable;
    if a.ActivateFails? {
      OnlyRepeats(w, n);
    }
  }

  lemma OwnReconcileDestination(w: World, m: MigrationId, n: NodeId)
    requires Invariant(w) && Finished(w, n) && Undisturbed(w, n) && Enabled(w, ReconcileDestination(m))
    requires w.journals.source[m].destination == n
    ensures StaysFinished(w, Apply(w, ReconcileDestination(m)), n)
  {
    hide Invariant, OperationSound, SafeSnapshot, Restorable;
    MigrationFacts(w, m);
    NodeFacts(w, n);
  }

  lemma OwnBackground(w: World, a: Action, n: NodeId)
    requires Invariant(w) && Finished(w, n) && Undisturbed(w, n) && Enabled(w, a) && ActsAt(w, a, n)
    requires a.Crash? || a.Broadcast? || a.TaskPauses? || a.TaskResumes? || a.TaskCompletes? || a.TaskFails?
    ensures StaysFinished(w, Apply(w, a), n)
  {
    hide Invariant, OperationSound, SafeSnapshot, Restorable;
    NodeFacts(w, n);
    if a.Broadcast? {
      MigrationFacts(w, a.m);
    }
  }

  lemma OwnStep(w: World, a: Action, n: NodeId)
    requires Invariant(w) && Finished(w, n) && Undisturbed(w, n) && Enabled(w, a) && Assumed(w, a) && ActsAt(w, a, n)
    ensures StaysFinished(w, Apply(w, a), n)
  {
    hide Invariant, Finished, Undisturbed, Apply, Enabled, Assumed;
    NoSourceStep(w, a, n);
    match a {
      case Receive(m) => OwnReceive(w, m, n);
      case ActivateStep(_) => OwnActivateStep(w, n);
      case ActivateFails(_) => OwnUndo(w, a, n);
      case UndoStep(_) => OwnUndo(w, a, n);
      case ReconcileDestination(m) => OwnReconcileDestination(w, m, n);
      case _ =>
        if Resolution(a) {
          OwnResolution(w, a, n);
        } else {
          OwnBackground(w, a, n);
        }
    }
  }

  lemma OtherStep(w: World, a: Action, n: NodeId)
    requires Invariant(w) && Finished(w, n) && OwnRecordsConcluded(w.journals, n)
    requires Enabled(w, a) && Assumed(w, a) && !ActsAt(w, a, n)
    ensures LeftAlone(w, Apply(w, a), n)
  {
    hide Invariant, Finished, OwnRecordsConcluded, Apply, Enabled, Assumed, ActsAt, LeftAlone;
    if SourceAction(a) {
      SourceStepElsewhere(w, a, n);
    } else if a.ReconcileSource? {
      ReconciliationElsewhere(w, a, n);
    } else if Resolution(a) {
      ResolutionElsewhere(w, a, n);
    } else if a.ReconcileDestination? || a.Receive? {
      DeliveryElsewhere(w, a, n);
    } else if a.ActivateStep? || a.ActivateFails? || a.UndoStep? {
      DestinationStepElsewhere(w, a, n);
    } else {
      BackgroundElsewhere(w, a, n);
    }
  }

  lemma StepKeepsFinished(w: World, a: Action, n: NodeId)
    requires Invariant(w) && Finished(w, n) && Undisturbed(w, n) && Enabled(w, a) && Assumed(w, a)
    ensures StaysFinished(w, Apply(w, a), n)
  {
    hide Invariant, Apply, Enabled, Assumed, LeftAlone, ActsAt;
    if ActsAt(w, a, n) {
      OwnStep(w, a, n);
    } else {
      OtherStep(w, a, n);
      LeftAloneStays(w, Apply(w, a), n);
    }
  }

  /**
   Undisturbed, a completed task is completed for good: in every continuation its entry stays as it is, the task runs
   nowhere, and no hop leaves its generation behind.
   */
  lemma {:induction false} CompletedForGood(w: World, n: NodeId, actions: seq<Action>, last: World)
    requires Invariant(w) && Finished(w, n) && Undisturbed(w, n) && Run(w, actions, last)
    ensures n in last.registry && last.registry[n] == w.registry[n]
    ensures (forall x :: !Live(last, x)) && |last.history.hops| <= w.registry[n].generation
    decreases |actions|
  {
    hide Invariant, Apply, Enabled, Assumed, Live;
    if actions == [] {
      forall x ensures !Live(w, x) {
        NobodyLive(w, n, x);
      }
    } else {
      StepKeepsInvariant(w, actions[0]);
      StepKeepsFinished(w, actions[0], n);
      CompletedForGood(Apply(w, actions[0]), n, actions[1..], last);
    }
  }

  // ---------- Disturbed, it changes ----------

  /** Some continuation changes the entry of `n`. */
  ghost predicate Changes(w: World, n: NodeId, actions: seq<Action>, last: World)
    requires n in w.registry
  {
    Run(w, actions, last) && n in last.registry && last.registry[n] != w.registry[n]
  }

  lemma ChangesLater(w: World, n: NodeId, first: seq<Action>, mid: World, rest: seq<Action>, last: World)
    requires n in w.registry && Run(w, first, mid) && n in mid.registry && mid.registry[n] == w.registry[n]
    requires Changes(mid, n, rest, last)
    ensures Changes(w, n, first + rest, last)
  {
    hide Run;
    RunThen(w, first, mid, rest, last);
  }

  lemma ChangesNow(w: World, n: NodeId, a: Action)
    requires n in w.registry && Enabled(w, a) && Assumed(w, a) && n in Apply(w, a).registry
    requires Apply(w, a).registry[n] != w.registry[n]
    ensures Changes(w, n, [a], Apply(w, a))
  {
    hide Apply, Enabled, Assumed;
    RunOne(w, a);
  }

  /** A migration under way is aborted, or gives up, and writes STOPPED or FAILED. */
  lemma SourcingChanges(w: World, n: NodeId) returns (actions: seq<Action>, last: World)
    requires Invariant(w) && Finished(w, n) && w.op[n].Sourcing?
    ensures Changes(w, n, actions, last)
  {
    hide Invariant, AttemptSound, EntrySound, Run, Changes;
    NodeFacts(w, n);
    var stage := w.op[n].stage;
    if stage.Resolving? {
      ChangesNow(w, n, PollGivesUp(n));
      actions, last := [PollGivesUp(n)], Apply(w, PollGivesUp(n));
    } else {
      var a, b := if stage.AwaitingReply? then ReplyLost(n) else Abort(n),
                  if stage.AwaitingReply? then PollGivesUp(n) else RestoreStep(n, true);
      var mid := Apply(w, a);
      RunOne(w, a);
      ChangesNow(mid, n, b);
      last := Apply(mid, b);
      ChangesLater(w, n, [a], mid, [b], last);
      actions := [a] + [b];
    }
  }

  /** So do a conclusion and a rollback under way. */
  lemma ConcludingChanges(w: World, n: NodeId) returns (actions: seq<Action>, last: World)
    requires n in w.op && n in w.registry && w.registry[n].status.Completed? && w.registry[n].owner == n
    requires || (w.op[n].Finalizing? && !w.op[n].remoteMarked && w.op[n].m in w.journals.source
                 && w.journals.source[w.op[n].m].destination != n)
             || (w.op[n].Restoring? && w.op[n].restore.RestoreState? && w.op[n].m in w.journals.source)
    ensures Changes(w, n, actions, last)
  {
    hide Run, Changes;
    var a := if w.op[n].Finalizing? then FinalizeStep(n) else RestoreStep(n, true);
    ChangesNow(w, n, a);
    actions, last := [a], Apply(w, a);
  }

  /** An activation under way at `n` fails, and what it found is written back. */
  lemma UndoingChanges(w: World, n: NodeId) returns (actions: seq<Action>, last: World)
    requires n in w.op && n in w.registry && w.registry[n].status.Completed?
    requires w.op[n].Undoing? && !w.op[n].undo.UndoLog? && w.op[n].before != w.registry[n]
    requires w.op[n].m in w.journals.destination
    ensures Changes(w, n, actions, last)
  {
    hide Run, Changes;
    if w.op[n].undo.UndoRestore? {
      ChangesNow(w, n, UndoStep(n));
      actions, last := [UndoStep(n)], Apply(w, UndoStep(n));
    } else {
      var mid := Apply(w, UndoStep(n));
      RunOne(w, UndoStep(n));
      ChangesNow(mid, n, UndoStep(n));
      last := Apply(mid, UndoStep(n));
      ChangesLater(w, n, [UndoStep(n)], mid, [UndoStep(n)], last);
      actions := [UndoStep(n)] + [UndoStep(n)];
    }
  }

  lemma ActivatingChanges(w: World, n: NodeId) returns (actions: seq<Action>, last: World)
    requires n in w.op && n in w.registry && w.registry[n].status.Completed?
    requires w.op[n].Activating? && !w.op[n].activate.LogActivation? && w.op[n].before != w.registry[n]
    requires w.op[n].m in w.journals.destination
    ensures Changes(w, n, actions, last)
  {
    hide Run, Changes;
    var mid := Apply(w, ActivateFails(n));
    if w.op[n].activate.Starting? {
      ChangesNow(w, n, ActivateFails(n));
      actions, last := [ActivateFails(n)], mid;
    } else {
      RunOne(w, ActivateFails(n));
      var rest;
      rest, last := UndoingChanges(mid, n);
      ChangesLater(w, n, [ActivateFails(n)], mid, rest, last);
      actions := [ActivateFails(n)] + rest;
    }
  }

  lemma OperationChanges(w: World, n: NodeId) returns (actions: seq<Action>, last: World)
    requires Invariant(w) && Finished(w, n) && !Harmless(w.op[n], w.registry[n])
    ensures Changes(w, n, actions, last)
  {
    hide Invariant, EntrySound, Changes, SafeSnapshot, Restorable;
    NodeFacts(w, n);
    if w.op[n].Sourcing? {
      actions, last := SourcingChanges(w, n);
    } else if w.op[n].Activating? {
      actions, last := ActivatingChanges(w, n);
    } else if w.op[n].Undoing? {
      actions, last := UndoingChanges(w, n);
    } else {
      actions, last := ConcludingChanges(w, n);
    }
  }

  // ---------- A record of its own ----------

  /** After a restart the destination of `m` decides, one way or the other, and nobody else is concerned. */
  lemma DestinationDecides(w: World, m: MigrationId, d: NodeId) returns (actions: seq<Action>, w': World)
    requires m in w.journals.source && w.journals.source[m].destination == d && d in w.op && d in w.registry
    requires ActivatingAt(w.journals, m)
    ensures Run(w, actions, w') && !ActivatingAt(w'.journals, m)
    ensures w'.journals.source == w.journals.source && d in w'.registry && d in w'.op
    ensures w'.registry == w.registry[d := w'.registry[d]] && w'.op == w.op[d := w'.op[d]]
  {
    hide Run;
    var w1 := Apply(Apply(w, Crash(d)), ReconcileDestination(m));
    RunTwo(w, Crash(d), ReconcileDestination(m));
    actions, w' := [Crash(d), ReconcileDestination(m)], w1;
    assert w1.registry == w.registry && w1.op == w.op[d := w1.op[d]];
    if ActivatingAt(w1.journals, m) {
      var undo;
      undo, w' := UndoesAll(w1, m, d);
      RunThen(w, actions, w1, undo, w');
      actions := actions + undo;
      assert w'.registry == w.registry[d := w'.registry[d]] && w'.op == w.op[d := w'.op[d]];
    }
  }

  lemma {:induction false} UndoesAll(w: World, m: MigrationId, d: NodeId) returns (actions: seq<Action>, w': World)
    requires d in w.op && d in w.registry && w.op[d].Undoing? && w.op[d].m == m && m in w.journals.destination
    ensures Run(w, actions, w') && Rejected(w'.journals, m)
    ensures w'.journals.source == w.journals.source && d in w'.registry && d in w'.op
    ensures w'.registry == w.registry[d := w'.registry[d]] && w'.op == w.op[d := w'.op[d]]
    decreases match w.op[d].undo case UndoStop => 2 case UndoRestore => 1 case UndoLog => 0
  {
    hide Run;
    var w1 := Apply(w, UndoStep(d));
    RunOne(w, UndoStep(d));
    actions, w' := [UndoStep(d)], w1;
    assert w1.registry == w.registry[d := w1.registry[d]] && w1.op == w.op[d := w1.op[d]];
    if !w.op[d].undo.UndoLog? {
      var rest;
      rest, w' := UndoesAll(w1, m, d);
      RunThen(w, [UndoStep(d)], w1, rest, w');
      actions := [UndoStep(d)] + rest;
      assert w'.registry == w.registry[d := w'.registry[d]] && w'.op == w.op[d := w'.op[d]];
    }
  }

  /** With the verdict there, a restart of the source acts on it. */
  lemma VerdictChanges(w: World, n: NodeId, m: MigrationId) returns (actions: seq<Action>, last: World)
    requires n in w.op && n in w.registry && w.registry[n].status.Completed? && w.registry[n].owner == n
    requires Unresolved(w.journals, m) && w.journals.source[m].source == n && !w.journals.source[m].status.Preparing?
    requires !ActivatingAt(w.journals, m) && w.journals.source[m].destination != n
    ensures Changes(w, n, actions, last)
  {
    hide Run, Changes;
    var w1 := Apply(Apply(w, Crash(n)), ReconcileSource(m, true));
    RunTwo(w, Crash(n), ReconcileSource(m, true));
    assert w1.registry == w.registry;
    var rest;
    rest, last := ConcludingChanges(w1, n);
    ChangesLater(w, n, [Crash(n), ReconcileSource(m, true)], w1, rest, last);
    actions := [Crash(n), ReconcileSource(m, true)] + rest;
  }

  lemma RecordChanges(w: World, n: NodeId, m: MigrationId) returns (actions: seq<Action>, last: World)
    requires Invariant(w) && Finished(w, n)
    requires Unresolved(w.journals, m) && w.journals.source[m].source == n && !w.journals.source[m].status.Preparing?
    ensures Changes(w, n, actions, last)
  {
    hide Invariant, Run, Changes;
    MigrationFacts(w, m);
    Facts(w);
    if ActivatingAt(w.journals, m) {
      var first, w1 := DestinationDecides(w, m, w.journals.source[m].destination);
      var rest;
      rest, last := VerdictChanges(w1, n, m);
      ChangesLater(w, n, first, w1, rest, last);
      actions := first + rest;
    } else {
      actions, last := VerdictChanges(w, n, m);
    }
  }

  // ---------- An earlier arrival ----------

  /** After a restart `n` writes back the snapshot of an activation it does not recognise. */
  lemma SnapshotReturns(w: World, n: NodeId, m: MigrationId) returns (actions: seq<Action>, last: World)
    requires n in w.op && n in w.registry && m in w.journals.source && w.journals.source[m].destination == n
    requires ActivatingAt(w.journals, m) && !Claims(w.registry[n], n, m, w.journals.source[m].generation)
    requires w.journals.destination[m].original != w.registry[n]
    ensures Changes(w, n, actions, last)
  {
    hide Run, Changes;
    var w1 := DropsClaim(w, n, m);
    ChangesNow(w1, n, UndoStep(n));
    last := Apply(w1, UndoStep(n));
    ChangesLater(w, n, [Crash(n), ReconcileDestination(m)], w1, [UndoStep(n)], last);
    actions := [Crash(n), ReconcileDestination(m)] + [UndoStep(n)];
  }

  /** After a restart the source of a hop learns of it, from its registry or from the destination. */
  lemma SourceLearns(w: World, m: MigrationId, x: NodeId) returns (w': World)
    requires Unresolved(w.journals, m) && w.journals.source[m].source == x && Committed(w.journals, m)
    requires x in w.op && x in w.registry && !w.journals.source[m].status.Preparing?
    ensures Run(w, [Crash(x), ReconcileSource(m, true)], w')
    ensures w' == w.(op := w.op[x := Finalizing(m, false)])
            || w' == w.(op := w.op[x := Idle], journals := SourceLogged(w.journals, m,
                                                              w.journals.source[m].(status := Activated)))
  {
    w' := Apply(Apply(w, Crash(x)), ReconcileSource(m, true));
    RunTwo(w, Crash(x), ReconcileSource(m, true));
  }

  lemma SourceFinalizes(w: World, m: MigrationId, x: NodeId) returns (w': World)
    requires x in w.op && x in w.registry && w.op[x] == Finalizing(m, false) && m in w.journals.source
    ensures Run(w, [FinalizeStep(x), FinalizeStep(x)], w')
    ensures x in w'.registry && w'.registry == w.registry[x := w'.registry[x]] && w'.op == w.op[x := Idle]
    ensures w' == w.(op := w'.op, registry := w'.registry, journals := w'.journals)
    ensures w'.journals == SourceLogged(w.journals, m, w.journals.source[m].(status := Activated))
  {
    w' := Apply(Apply(w, FinalizeStep(x)), FinalizeStep(x));
    RunTwo(w, FinalizeStep(x), FinalizeStep(x));
    assert w'.op == w.op[x := Idle];
  }

  /** Either way it concludes it. */
  lemma SourceConcludes(w: World, m: MigrationId, x: NodeId) returns (actions: seq<Action>, w': World)
    requires Unresolved(w.journals, m) && w.journals.source[m].source == x && Committed(w.journals, m)
    requires x in w.op && x in w.registry && !w.journals.source[m].status.Preparing?
    ensures Run(w, actions, w') && x in w'.registry && x in w'.op
    ensures w'.journals == SourceLogged(w.journals, m, w.journals.source[m].(status := Activated))
    ensures w'.registry == w.registry[x := w'.registry[x]] && w'.op == w.op[x := w'.op[x]] && w'.lease == w.lease
  {
    hide Run, Apply;
    var w1 := SourceLearns(w, m, x);
    actions, w' := [Crash(x), ReconcileSource(m, true)], w1;
    if w1.op[x].Finalizing? {
      w' := SourceFinalizes(w1, m, x);
      RunThen(w, actions, w1, [FinalizeStep(x), FinalizeStep(x)], w');
      actions := actions + [FinalizeStep(x), FinalizeStep(x)];
    }
    assert w'.registry == w.registry[x := w'.registry[x]] && w'.op == w.op[x := w'.op[x]];
  }

  /** Its request is then repeated. */
  lemma RepeatChanges(w: World, n: NodeId, m: MigrationId) returns (actions: seq<Action>, last: World)
    requires n in w.op && n in w.registry && m in w.journals.source && w.journals.source[m].destination == n
    requires Committed(w.journals, m) && !Unresolved(w.journals, m) && m in w.journals.sent && m in w.lease
    requires !Claims(w.registry[n], n, m, w.journals.source[m].generation)
    requires w.journals.destination[m].original != w.registry[n]
    ensures Changes(w, n, actions, last)
  {
    hide Run, Changes;
    var w1 := Apply(Apply(w, Crash(n)), Receive(m));
    RunTwo(w, Crash(n), Receive(m));
    assert w1.registry == w.registry;
    var rest;
    rest, last := SnapshotReturns(w1, n, m);
    ChangesLater(w, n, [Crash(n), Receive(m)], w1, rest, last);
    actions := [Crash(n), Receive(m)] + rest;
  }

  lemma ArrivalChanges(w: World, n: NodeId, m: MigrationId) returns (actions: seq<Action>, last: World)
    requires Invariant(w) && Finished(w, n) && m in w.journals.source && w.journals.source[m].destination == n
    requires Committed(w.journals, m) || ActivatingAt(w.journals, m)
    requires !Claims(w.registry[n], n, m, w.journals.source[m].generation)
    requires w.journals.destination[m].original != w.registry[n]
    ensures Changes(w, n, actions, last)
  {
    hide Invariant, Run, Changes;
    MigrationFacts(w, m);
    Facts(w);
    if ActivatingAt(w.journals, m) {
      actions, last := SnapshotReturns(w, n, m);
    } else if Unresolved(w.journals, m) {
      var first, w1 := SourceConcludes(w, m, w.journals.source[m].source);
      var rest;
      rest, last := RepeatChanges(w1, n, m);
      ChangesLater(w, n, first, w1, rest, last);
      actions := first + rest;
    } else {
      actions, last := RepeatChanges(w, n, m);
    }
  }

  // ---------- Exactly when ----------

  lemma DisturbedChanges(w: World, n: NodeId) returns (actions: seq<Action>, last: World)
    requires Invariant(w) && Finished(w, n) && !Undisturbed(w, n)
    ensures Changes(w, n, actions, last)
  {
    hide Invariant, Changes, Harmless;
    if !Harmless(w.op[n], w.registry[n]) {
      actions, last := OperationChanges(w, n);
    } else if m :| Unresolved(w.journals, m) && w.journals.source[m].source == n
                   && !w.journals.source[m].status.Preparing? {
      actions, last := RecordChanges(w, n, m);
    } else {
      var m :| m in w.journals.source && w.journals.source[m].destination == n
               && (Committed(w.journals, m) || ActivatingAt(w.journals, m))
               && !Claims(w.registry[n], n, m, w.journals.source[m].generation)
               && w.journals.destination[m].original != w.registry[n];
      actions, last := ArrivalChanges(w, n, m);
    }
  }

  /**
   A completed task keeps its entry in every continuation exactly when nothing at its node is left that could write
   it: no operation about to, no record of its own to conclude, and no earlier arrival to take up again.
   */
  lemma CompletedStaysExactlyWhen(w: World, n: NodeId)
    requires Invariant(w) && Finished(w, n)
    ensures Undisturbed(w, n) <==>
            forall actions, last :: Run(w, actions, last) ==>
              n in last.registry && last.registry[n] == w.registry[n]
  {
    hide Invariant, Run, Undisturbed;
    if Undisturbed(w, n) {
      forall actions, last | Run(w, actions, last) ensures n in last.registry && last.registry[n] == w.registry[n] {
        CompletedForGood(w, n, actions, last);
      }
    } else {
      var actions, last := DisturbedChanges(w, n);
      assert Run(w, actions, last) && !(n in last.registry && last.registry[n] == w.registry[n]);
    }
  }

  /** Beside an attempt of its own that got past PREPARING and is neither committed nor under way, it runs again. */
  lemma RunsAgain(w: World, n: NodeId, k: MigrationId) returns (actions: seq<Action>, last: World)
    requires Invariant(w) && Finished(w, n) && OpenAttempt(w.journals, k) && w.journals.source[k].source == n
    requires !w.journals.source[k].status.Preparing? && !ActivatingAt(w.journals, k)
    ensures Run(w, actions, last) && Live(last, n)
  {
    hide Invariant;
    MigrationFacts(w, k);
    assert TakesBack(w, n, k);
    last := TakeBack(w, n, k);
    actions := TakeBackActions(n, k);
  }

  // ---------- It happens ----------

  /** Node 0 takes the task back, restarts before it has logged that, and then the task completes. */
  lemma CompletesUndecided() returns (actions: seq<Action>, w: World)
    ensures Initial(ThreeNodes()) && Run(ThreeNodes(), actions, w)
    ensures w.registry == map[0 := TaskState(0, 0, Completed, None), 1 := TaskState(0, 0, Remote, None),
                              2 := TaskState(0, 0, Remote, None)]
    ensures w.journals == Journals(map[10 := SourceRecord(0, 1, 1, Uncertain, TaskState(0, 0, Running, None))], map[],
                                   {10}, {10}, {})
    ensures w.op == map[0 := Idle, 1 := Idle, 2 := Idle] && w.history == History(0, 0, [])
    ensures w.lease == map[10 := Granted]
  {
    hide Run, Initial;
    var asking, restarting := [ReplyLost(0), PollDecides(0)], [RestoreStep(0, true), RestoreStep(0, true)];
    var sent, w1 := RequestSent();
    var w2 := Unheard(w1, 0, 10);
    RunThen(ThreeNodes(), sent, w1, asking, w2);
    var w3 := RestartsTask(w2, 0, 10);
    RunThen(ThreeNodes(), sent + asking, w2, restarting, w3);
    w := Apply(Apply(w3, Crash(0)), TaskCompletes(0));
    RunTwo(w3, Crash(0), TaskCompletes(0));
    actions := sent + asking + restarting + [Crash(0), TaskCompletes(0)];
    RunThen(ThreeNodes(), sent + asking + restarting, w3, [Crash(0), TaskCompletes(0)], w);
  }

  /** The undecided attempt rolls back, and the task runs at node 0 as if it had never completed. */
  lemma RolledBackAlive(w: World) returns (actions: seq<Action>, w': World)
    requires w.registry == map[0 := TaskState(0, 0, Completed, None), 1 := TaskState(0, 0, Remote, None),
                               2 := TaskState(0, 0, Remote, None)]
    requires w.journals == Journals(map[10 := SourceRecord(0, 1, 1, Uncertain, TaskState(0, 0, Running, None))], map[],
                                    {10}, {10}, {})
    requires w.op == map[0 := Idle, 1 := Idle, 2 := Idle]
    ensures Run(w, actions, w') && w'.history == w.history
    ensures w'.registry == map[0 := TaskState(0, 0, Running, None), 1 := TaskState(0, 0, Remote, None),
                               2 := TaskState(0, 0, Remote, None)]
    ensures w'.journals == Journals(map[10 := SourceRecord(0, 1, 1, RolledBack, TaskState(0, 0, Running, None))], map[],
                                    {10}, {10}, {})
    ensures w'.op == map[0 := Idle, 1 := Idle, 2 := Idle]
  {
    hide Run, Apply;
    var asking, restarting := [Crash(0), ReconcileSource(10, true)], [RestoreStep(0, true), RestoreStep(0, true)];
    var w1 := AsksAfterRestart(w, 0, 10);
    var w2 := RestartsTask(w1, 0, 10);
    RunThen(w, asking, w1, restarting, w2);
    w' := LogsRollback(w2, 0, 10);
    actions := asking + restarting + [RestoreStep(0, true)];
    RunThen(w, asking + restarting, w2, [RestoreStep(0, true)], w');
  }

  lemma LogsRollback(w: World, n: NodeId, m: MigrationId) returns (w': World)
    requires n in w.op && n in w.registry && m in w.journals.source && w.op[n] == Restoring(m, LogRestored, true, true)
    ensures Run(w, [RestoreStep(n, true)], w')
    ensures w' == w.(op := w.op[n := Idle],
                     journals := SourceLogged(w.journals, m, w.journals.source[m].(status := RolledBack)))
  {
    w' := Apply(w, RestoreStep(n, true));
    RunOne(w, RestoreStep(n, true));
  }

  /**
   From the initial state of three nodes: a lost request, a restart, the task completes, a reconciliation runs it
   again, and it moves on: there is a hop, and a later generation, after the completion.
   */
  lemma CompletedTaskMigrates() returns (first: seq<Action>, mid: World, rest: seq<Action>, last: World)
    ensures Initial(ThreeNodes()) && Run(ThreeNodes(), first, mid) && Run(mid, rest, last)
    ensures mid.registry.Keys == {0, 1, 2} && mid.registry[0] == TaskState(0, 0, Completed, None)
    ensures last.history.hops == [11] && Live(last, 2) && last.registry[2].generation == 1
  {
    hide Run, Initial, Invariant;
    first, mid := CompletesUndecided();
    var back, w1 := RolledBackAlive(mid);
    RunThen(ThreeNodes(), first, mid, back, w1);
    InitiallySound(ThreeNodes());
    RunKeepsInvariant(ThreeNodes(), first + back, w1);
    RunOne(w1, Begin(0, 11, 2));
    last := Hop(w1, 0, 11, 2);
    var begun := Apply(w1, Begin(0, 11, 2));
    RunThen(w1, [Begin(0, 11, 2)], begun, HopActions(0, 11, 2), last);
    rest := back + ([Begin(0, 11, 2)] + HopActions(0, 11, 2));
    RunThen(mid, back, w1, [Begin(0, 11, 2)] + HopActions(0, 11, 2), last);
  }
}
