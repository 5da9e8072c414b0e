/** What a crash and the repair after it can make of an activation (magellan/migration/service.py). */
module CrashAtomicity {
  import opened Common
  import opened Registry
  import opened MigrationProtocol
  import opened ActivationLog

  // ---------- Vocabulary ----------

  /** What a complete reconciliation makes of a disk. */
  function Resolved(d: Disk, r: Request): Disk {
    if !HasStatus(d, Handover) then d
    else if Established(d.registry, r) then
      Logged(d.(lease := if LeaseActive(d.lease) then Spent else d.lease), RecordStatus.Activated)
    else
      Logged(d.(checkpoint := if d.backup.Missing? then d.checkpoint else d.backup,
                backup := Missing,
                incoming := Missing,
                registry := d.record.value.original,
                lease := if LeaseActive(d.lease) then Void else d.lease),
             RolledBack)
  }

  /** The state before the first request of a migration. */
  predicate Fresh(d: Disk, r: Request) {
    && d.record.None? && d.backup.Missing? && !d.checkpoint.Partial? && !d.incoming.Partial?
    && !Claimed(d, r)
  }

  /** The task runs here under this migration, with the checkpoint that came with it. */
  predicate CommittedTo(start: Disk, d: Disk, r: Request) {
    && Established(d.registry, r)
    && d.registry.status.Running?
    && start.incoming.Full? && d.checkpoint == start.incoming
  }

  predicate RevertedTo(start: Disk, d: Disk) {
    d.registry == start.registry && d.checkpoint == start.checkpoint
  }

  /** The original checkpoint is in place or in the backup; if it never existed, a copy may have begun. */
  predicate OriginalSafe(start: Disk, d: Disk) {
    if d.backup.Missing? then
      d.checkpoint == start.checkpoint
      || (start.checkpoint.Missing? && start.incoming.Full?
          && (d.checkpoint == start.incoming || d.checkpoint == Partial(start.incoming.content)))
    else start.checkpoint.Full? && d.backup == start.checkpoint
  }

  /** A disk from which the activation that began at `start` can still be completed or undone. */
  predicate Interrupted(start: Disk, d: Disk, r: Request) {
    match d.record
    case None => d == start
    case Some(record) =>
      && record.original == start.registry
      && match record.status
         case Handover =>
           && OriginalSafe(start, d)
           && (Established(d.registry, r) ==> CommittedTo(start, d, r))
         case Activated => CommittedTo(start, d, r)
         case RolledBack => RevertedTo(start, d)
         case _ => false
  }

  /** The all-or-nothing outcome. */
  predicate AllOrNothing(start: Disk, d: Disk, r: Request) {
    match d.record
    case None => d == start
    case Some(record) =>
      || (record.status.Activated? && CommittedTo(start, d, r))
      || (record.status.RolledBack? && d.registry == start.registry
          && (start.checkpoint.Full? ==> d.checkpoint == start.checkpoint))
  }

  // ---------- The repair ----------

  /** `x` is on the way from `d` to the disk that `d` resolves to. */
  predicate OnTheWay(d: Disk, x: Disk, r: Request)
    requires d.record.Some?
  {
    Resolved(x, r) == Resolved(d, r) && x.record.Some? && x.record.value.original == d.record.value.original
  }

  lemma SettleResolves(d: Disk, r: Request)
    requires HasStatus(d, Handover) && Established(d.registry, r)
    ensures Final(d, SettleLog(d)) == Resolved(d, r)
    ensures forall x | x in SettleLog(d) :: OnTheWay(d, x, r)
  {
  }

  lemma PutCheckpointBackResolves(d: Disk, r: Request, stops: bool)
    requires HasStatus(d, Handover) && !Established(d.registry, r)
    ensures forall x | x in PutCheckpointBackLog(d, r, stops) :: OnTheWay(d, x, r)
    ensures var x := Final(d, PutCheckpointBackLog(d, r, stops));
            x.backup.Missing? && x.record == d.record && !Established(x.registry, r) && OnTheWay(d, x, r)
  {
  }

  lemma ConcludeResolves(d: Disk, r: Request)
    requires HasStatus(d, Handover) && !Established(d.registry, r) && d.backup.Missing?
    requires !Established(d.record.value.original, r)
    ensures Final(d, ConcludeLog(d)) == Resolved(d, r)
    ensures forall x | x in ConcludeLog(d) :: OnTheWay(d, x, r)
  {
  }

  lemma RollBackResolves(d: Disk, r: Request, stops: bool)
    requires HasStatus(d, Handover) && !Established(d.registry, r) && !Established(d.record.value.original, r)
    ensures Final(d, RollBackLog(d, r, stops)) == Resolved(d, r)
    ensures forall x | x in RollBackLog(d, r, stops) :: OnTheWay(d, x, r)
  {
    hide PutCheckpointBackLog, ConcludeLog, Resolved;
    var log := PutCheckpointBackLog(d, r, stops);
    PutCheckpointBackResolves(d, r, stops);
    ConcludeResolves(Final(d, log), r);
    LeftOfBoth(d, log, ConcludeLog(Final(d, log)), 0);
  }

  /** However a repair is interrupted, it is heading for the same disk, and when it finishes it is there. */
  lemma ReconcileResolves(d: Disk, r: Request, stops: bool, budget: nat)
    requires d.record.Some? ==> !Established(d.record.value.original, r)
    ensures var left := Left(d, ReconcileLog(d, r, stops), budget);
            && Resolved(left, r) == Resolved(d, r)
            && (left.record.Some? ==> d.record.Some? && left.record.value.original == d.record.value.original)
            && (budget >= |ReconcileLog(d, r, stops)| ==> left == Resolved(d, r))
  {
    hide RollBackLog, SettleLog, Resolved;
    var log := ReconcileLog(d, r, stops);
    if HasStatus(d, Handover) {
      if Established(d.registry, r) {
        SettleResolves(d, r);
      } else {
        RollBackResolves(d, r, stops);
      }
      assert budget > 0 && log != [] ==> Left(d, log, budget) in log;
    } else {
      assert log == [];
      UnresolvedIsFinal(d, r);
    }
  }

  lemma UnresolvedIsFinal(d: Disk, r: Request)
    requires !HasStatus(d, Handover)
    ensures Resolved(d, r) == d
  {
  }

  // ---------- The activation ----------

  /** The failure handler begins here. */
  predicate Undoable(start: Disk, d: Disk, r: Request, replaced: bool, started: bool) {
    && Fresh(start, r) && d.record == Some(DestinationRecord(Handover, start.registry))
    && OriginalSafe(start, d)
    && (Established(d.registry, r) ==> started && CommittedTo(start, d, r))
    && (if replaced then d.checkpoint == start.incoming && start.incoming.Full? && d.backup == start.checkpoint
        else d.checkpoint == start.checkpoint && d.backup.Missing?)
  }

  lemma RefusalInterrupted(start: Disk, d: Disk, r: Request)
    requires Fresh(start, r) && d.record == Some(DestinationRecord(Handover, start.registry))
    requires d.backup.Missing? && d.checkpoint == start.checkpoint
    ensures forall x | x in RefusalLog(d, start.registry) :: Interrupted(start, x, r)
  {
  }

  lemma HandlerInterrupted(start: Disk, d: Disk, r: Request, replaced: bool, started: bool, stops: bool)
    requires Undoable(start, d, r, replaced, started) && (started ==> stops && replaced)
    ensures forall x | x in HandlerLog(d, start.registry, replaced, started, stops) :: Interrupted(start, x, r)
  {
    hide RefusalLog;
    RefusalInterrupted(start, Final(d, WithdrawLog(d, replaced, started, stops)), r);
  }

  lemma CommitInterrupted(start: Disk, d: Disk, r: Request)
    requires d.record == Some(DestinationRecord(Handover, start.registry)) && CommittedTo(start, d, r)
    requires OriginalSafe(start, d)
    ensures forall x | x in CommitLog(d) :: Interrupted(start, x, r)
  {
  }

  lemma ReplaceInterrupted(start: Disk, d: Disk, r: Request)
    requires Undoable(start, d, r, false, false) && d.incoming == start.incoming && !d.incoming.Missing?
    ensures forall x | x in ReplaceLog(d) :: Interrupted(start, x, r)
    ensures Undoable(start, Final(d, ReplaceLog(d)), r, true, false)
    ensures Final(d, ReplaceLog(d)) == d.(checkpoint := start.incoming, backup := start.checkpoint)
    ensures |ReplaceLog(d)| == if start.checkpoint.Missing? then 2 else 3
  {
  }

  /** The claim is out of date, or the start fails: the task never ran here. */
  lemma NotStartedInterrupted(start: Disk, d: Disk, r: Request, faults: Faults)
    requires Undoable(start, d, r, true, false)
    requires r.generation < d.registry.generation || !faults.healthy
    ensures forall x | x in ClaimLog(d, r, start.registry, faults) :: Interrupted(start, x, r)
  {
    hide HandlerLog;
    var claimed := ClaimedState(d.registry, r.node, r.generation, r.migration);
    if claimed.Err? {
      HandlerInterrupted(start, d, r, true, false, faults.stops);
    } else {
      var failed := d.(registry := FailedState(claimed.value));
      assert Interrupted(start, d.(registry := claimed.value), r) && Interrupted(start, failed, r);
      HandlerInterrupted(start, failed, r, true, false, faults.stops);
    }
  }

  function Running(d: Disk, r: Request): Disk {
    d.(registry := TaskState(r.node, r.generation, TaskStatus.Running, Some(r.migration)))
  }

  lemma StartedInterrupted(start: Disk, d: Disk, r: Request, faults: Faults)
    requires Undoable(start, d, r, true, false) && r.generation >= d.registry.generation && faults.healthy
    ensures var claimed := d.(registry := TaskState(r.node, r.generation, Stopped, Some(r.migration)));
            && ClaimLog(d, r, start.registry, faults) == [claimed, Running(d, r)] +
                 (if faults.leaseHolds then CommitLog(Running(d, r))
                  else HandlerLog(Running(d, r), start.registry, true, true, faults.stops))
            && Interrupted(start, claimed, r)
    ensures Interrupted(start, Running(d, r), r) && Undoable(start, Running(d, r), r, true, true)
  {
    hide HandlerLog, CommitLog;
  }

  lemma ClaimInterrupted(start: Disk, d: Disk, r: Request, faults: Faults)
    requires Undoable(start, d, r, true, false)
    requires r.generation >= d.registry.generation && faults.healthy && !faults.leaseHolds ==> faults.stops
    ensures forall x | x in ClaimLog(d, r, start.registry, faults) :: Interrupted(start, x, r)
  {
    hide ClaimLog, HandlerLog, CommitLog, Interrupted;
    if r.generation < d.registry.generation || !faults.healthy {
      NotStartedInterrupted(start, d, r, faults);
    } else {
      StartedInterrupted(start, d, r, faults);
      if faults.leaseHolds {
        CommitInterrupted(start, Running(d, r), r);
      } else {
        HandlerInterrupted(start, Running(d, r), r, true, true, faults.stops);
      }
    }
  }

  /**
   The one failure the handler cannot undo safely: the task was started, the lease turned out to be gone, and
   stopping the task failed too.
   */
  predicate StopFails(start: Disk, r: Request, faults: Faults) {
    && start.lease.Granted? && !start.incoming.Missing? && faults.checkpointValid && faults.artifactsStaged
    && r.generation >= start.registry.generation && faults.healthy && !faults.leaseHolds && !faults.stops
  }

  lemma ProceedInterrupted(start: Disk, d: Disk, r: Request, faults: Faults)
    requires Undoable(start, d, r, false, false) && !StopFails(start, r, faults)
    requires d.registry == start.registry && d.lease == start.lease && d.incoming == start.incoming
    ensures forall x | x in ProceedLog(d, r, faults) :: Interrupted(start, x, r)
  {
    hide HandlerLog, ClaimLog, ReplaceLog;
    if !d.lease.Granted? {
      HandlerInterrupted(start, d, r, false, false, faults.stops);
    } else {
      var reserved := d.(lease := InUse);
      assert Interrupted(start, reserved, r);
      if d.incoming.Missing? {
        HandlerInterrupted(start, reserved, r, false, false, faults.stops);
      } else {
        ReplaceInterrupted(start, reserved, r);
        var replaced := Final(reserved, ReplaceLog(reserved));
        hide Interrupted;
        if faults.checkpointValid && faults.artifactsStaged {
          ClaimInterrupted(start, replaced, r, faults);
        } else {
          HandlerInterrupted(start, replaced, r, true, false, faults.stops);
        }
      }
    }
  }

  lemma ActivateInterrupted(start: Disk, r: Request, faults: Faults)
    requires Fresh(start, r) && !StopFails(start, r, faults)
    ensures forall x | x in ActivateLog(start, r, faults) :: Interrupted(start, x, r)
  {
    hide ProceedLog;
    ProceedInterrupted(start, Journalled(start, Handover), r, faults);
  }

  // ---------- All or nothing ----------

  /**
   A crash at any point from which the activation can be completed or undone, then a repair: the migration has
   happened completely or not at all, and repairing again changes nothing.
   */
  lemma CrashAtomic(start: Disk, crashed: Disk, r: Request)
    requires Fresh(start, r) && Interrupted(start, crashed, r)
    ensures AllOrNothing(start, Resolved(crashed, r), r)
    ensures Resolved(Resolved(crashed, r), r) == Resolved(crashed, r)
  {
  }

  /** The writes before the failure handler starts to remove the checkpoint. */
  function FirstRemoval(start: Disk): nat {
    if start.checkpoint.Missing? then 6 else 7
  }

  /**
   The crash points that a failed stop spoils: the checkpoint is going or gone, or the old one is back and differs,
   while the registry still says that the task runs here.
   */
  predicate Torn(start: Disk, r: Request, faults: Faults, budget: nat) {
    && StopFails(start, r, faults)
    && (|| FirstRemoval(start) < budget <= FirstRemoval(start) + 2
        || (budget == FirstRemoval(start) + 3 && start.checkpoint.Full? && start.checkpoint != start.incoming))
  }

  /** Up to the start of the task, every disk can be completed or undone. */
  lemma BeforeRemoval(start: Disk, r: Request, faults: Faults) returns (log: seq<Disk>, running: Disk)
    requires Fresh(start, r) && StopFails(start, r, faults)
    ensures running == Disk(TaskState(r.node, r.generation, TaskStatus.Running, Some(r.migration)), start.incoming,
                            start.checkpoint, start.incoming, Some(DestinationRecord(Handover, start.registry)), InUse)
    ensures ActivateLog(start, r, faults) == log + HandlerLog(running, start.registry, true, true, false)
    ensures |log| == FirstRemoval(start) && Final(start, log) == running
    ensures forall x | x in log :: Interrupted(start, x, r)
  {
    hide HandlerLog, ClaimLog, ReplaceLog, CommitLog;
    var reserved := Journalled(start, Handover).(lease := InUse);
    ReplaceInterrupted(start, reserved, r);
    var replaced := Final(reserved, ReplaceLog(reserved));
    StartedInterrupted(start, replaced, r, faults);
    var claimed := replaced.(registry := TaskState(r.node, r.generation, Stopped, Some(r.migration)));
    running := Running(replaced, r);
    log := [Journalled(start, Handover), reserved] + ReplaceLog(reserved) + [claimed, running];
    assert Interrupted(start, Journalled(start, Handover), r) && Interrupted(start, reserved, r);
    assert ActivateLog(start, r, faults) == log + HandlerLog(running, start.registry, true, true, false);
  }

  /** The failure handler after a failed stop: the checkpoint goes, the old one comes back, then the registry. */
  lemma HandlerAfterFailedStop(start: Disk, r: Request, running: Disk)
    requires Fresh(start, r) && start.incoming.Full?
    requires running == Disk(TaskState(r.node, r.generation, TaskStatus.Running, Some(r.migration)), start.incoming,
                             start.checkpoint, start.incoming, Some(DestinationRecord(Handover, start.registry)), InUse)
    ensures var gone := running.(checkpoint := Missing);
            HandlerLog(running, start.registry, true, true, false)
            == [running.(checkpoint := Partial(start.incoming.content)), gone] + PutBackLog(gone)
               + RefusalLog(Final(gone, PutBackLog(gone)), start.registry)
    ensures var refusal := RefusalLog(running.(checkpoint := start.checkpoint, backup := Missing), start.registry);
            refusal != [] && forall x | x in refusal :: Interrupted(start, x, r)
  {
    RefusalInterrupted(start, running.(checkpoint := start.checkpoint, backup := Missing), r);
  }

  lemma EstablishedCommits(start: Disk, d: Disk, r: Request)
    requires HasStatus(d, Handover) && Established(d.registry, r) && d.registry.status.Running? && start.incoming.Full?
    ensures AllOrNothing(start, Resolved(d, r), r) <==> d.checkpoint == start.incoming
  {
  }

  /**
   All or nothing after a crash and its repair: exactly unless a failed stop spoils that crash point. With no
   crash, or a crash anywhere else, and whatever else fails, the migration happens completely or not at all.
   */
  lemma AtomicExactlyWhen(start: Disk, r: Request, faults: Faults, budget: nat)
    requires Fresh(start, r)
    ensures AllOrNothing(start, Resolved(Left(start, ActivateLog(start, r, faults), budget), r), r)
            <==> !Torn(start, r, faults, budget)
  {
    hide ActivateLog, HandlerLog, RefusalLog, Interrupted, Resolved, AllOrNothing;
    var log := ActivateLog(start, r, faults);
    var left := Left(start, log, budget);
    if !StopFails(start, r, faults) {
      ActivateInterrupted(start, r, faults);
      Untouched(start, r);
      assert left == start || left in log;
      CrashAtomic(start, left, r);
    } else {
      TornExactlyWhen(start, r, faults, budget);
    }
  }

  lemma Untouched(start: Disk, r: Request)
    requires Fresh(start, r)
    ensures Interrupted(start, start, r)
  {
  }

  lemma TornExactlyWhen(start: Disk, r: Request, faults: Faults, budget: nat)
    requires Fresh(start, r) && StopFails(start, r, faults)
    ensures AllOrNothing(start, Resolved(Left(start, ActivateLog(start, r, faults), budget), r), r)
            <==> !Torn(start, r, faults, budget)
  {
    hide ActivateLog, HandlerLog, RefusalLog, Interrupted, Resolved, AllOrNothing;
    var log, running := BeforeRemoval(start, r, faults);
    var handler := HandlerLog(running, start.registry, true, true, false);
    LeftOfBoth(start, log, handler, budget);
    if budget <= FirstRemoval(start) {
      var left := Left(start, log, budget);
      Untouched(start, r);
      assert left == start || left in log;
      assert Left(start, log + handler, budget) == left;
      CrashAtomic(start, left, r);
    } else {
      HandlerAfterFailedStop(start, r, running);
      var gone := running.(checkpoint := Missing);
      var removal := [running.(checkpoint := Partial(start.incoming.content)), gone];
      var refusal := RefusalLog(Final(gone, PutBackLog(gone)), start.registry);
      var rest := budget - FirstRemoval(start);
      var left := Left(running, removal + PutBackLog(gone) + refusal, rest);
      assert Left(start, log + handler, budget) == left;
      if rest <= 2 + |PutBackLog(gone)| {
        assert left == (removal + PutBackLog(gone))[rest - 1];
        EstablishedCommits(start, left, r);
      } else {
        LeftOfBoth(running, removal + PutBackLog(gone), refusal, rest);
        assert left in refusal;
        CrashAtomic(start, left, r);
      }
    }
  }

  /**
   A failed stop at its worst, whatever the task and its checkpoints: if the daemon dies once the handler has
   removed the checkpoint, the repair commits a migration whose checkpoint is gone.
   */
  lemma FailedStopCommitsWithoutCheckpoint(start: Disk, r: Request, faults: Faults)
    requires Fresh(start, r) && StopFails(start, r, faults)
    ensures var crashed := Left(start, ActivateLog(start, r, faults), FirstRemoval(start) + 2);
            && crashed == Disk(TaskState(r.node, r.generation, TaskStatus.Running, Some(r.migration)), Missing,
                               start.checkpoint, start.incoming, Some(DestinationRecord(Handover, start.registry)),
                               InUse)
            && HasStatus(Resolved(crashed, r), RecordStatus.Activated) && Resolved(crashed, r).checkpoint.Missing?
  {
    hide ActivateLog, HandlerLog, RefusalLog;
    var log, running := BeforeRemoval(start, r, faults);
    HandlerAfterFailedStop(start, r, running);
    LeftOfBoth(start, log, HandlerLog(running, start.registry, true, true, false), FirstRemoval(start) + 2);
  }

  /** The repair decides for the migration exactly when a live owner had been established. */
  lemma DecidedByTheRegistry(start: Disk, crashed: Disk, r: Request)
    requires Fresh(start, r) && Interrupted(start, crashed, r) && HasStatus(crashed, Handover)
    ensures HasStatus(Resolved(crashed, r), RecordStatus.Activated) <==> Established(crashed.registry, r)
    ensures HasStatus(Resolved(crashed, r), RolledBack) <==> !Established(crashed.registry, r)
  {
  }

  /**
   A rollback after a crash restores the checkpoint directory exactly when there was one before or the copy
   had not begun; otherwise it leaves the copy, perhaps a partial one, in place.
   */
  lemma RollbackRestoresCheckpoint(start: Disk, crashed: Disk, r: Request)
    requires Fresh(start, r) && Interrupted(start, crashed, r) && HasStatus(crashed, Handover)
    requires !Established(crashed.registry, r)
    ensures Resolved(crashed, r).checkpoint == start.checkpoint
            <==> start.checkpoint.Full? || crashed.checkpoint.Missing?
  {
  }

  /** Half a copy stays behind when the daemon dies during the copy and there was no checkpoint before. */
  lemma CopyLeftBehind(start: Disk, r: Request, faults: Faults)
    requires Fresh(start, r) && start.checkpoint.Missing? && start.lease.Granted? && start.incoming.Full?
    ensures var crashed := Left(start, ActivateLog(start, r, faults), 3);
            && crashed == start.(checkpoint := Partial(start.incoming.content), lease := InUse,
                                 record := Some(DestinationRecord(Handover, start.registry)))
            && HasStatus(Resolved(crashed, r), RolledBack)
            && Resolved(crashed, r).checkpoint == Partial(start.incoming.content)
  {
    hide HandlerLog, ClaimLog;
  }

  lemma RefusalKeepsOriginal(d: Disk, original: TaskState)
    requires d.record.Some?
    ensures forall x | x in RefusalLog(d, original) ::
              x.record.Some? && x.record.value.original == d.record.value.original
  {
  }

  lemma HandlerKeepsOriginal(d: Disk, original: TaskState, replaced: bool, started: bool, stops: bool)
    requires d.record.Some?
    ensures forall x | x in HandlerLog(d, original, replaced, started, stops) ::
              x.record.Some? && x.record.value.original == d.record.value.original
  {
    hide WithdrawLog, RefusalLog;
    WithdrawKeepsRecord(d, replaced, started, stops);
    RefusalKeepsOriginal(Final(d, WithdrawLog(d, replaced, started, stops)), original);
  }

  /** Whatever a first request leaves, the journalled snapshot is not that of a running task of this migration. */
  lemma OriginalNotEstablished(start: Disk, r: Request, faults: Faults, budget: nat)
    requires Fresh(start, r)
    ensures var left := Left(start, ActivateLog(start, r, faults), budget);
            left.record.Some? ==> !Established(left.record.value.original, r)
  {
    hide ActivateLog, HandlerLog, RefusalLog, OriginalSafe, CommittedTo;
    var log := ActivateLog(start, r, faults);
    var left := Left(start, log, budget);
    if !StopFails(start, r, faults) {
      ActivateInterrupted(start, r, faults);
      assert left == start || left in log;
    } else {
      var before, running := BeforeRemoval(start, r, faults);
      HandlerKeepsOriginal(running, start.registry, true, true, false);
      assert left == start || left in log;
    }
  }

  // ---------- Without a crash ----------

  /** Where a first request ends if the daemon lives: committed, or everything but the transfer as it was. */
  function Outcome(start: Disk, r: Request, faults: Faults): Disk {
    if Succeeds(start, r, faults) then
      Disk(TaskState(r.node, r.generation, TaskStatus.Running, Some(r.migration)), start.incoming, Missing, Missing,
           Some(DestinationRecord(RecordStatus.Activated, start.registry)), Spent)
    else
      start.(incoming := Missing, lease := if LeaseActive(start.lease) then Void else start.lease,
             record := Some(DestinationRecord(RolledBack, start.registry)))
  }

  lemma RefusalEnds(start: Disk, d: Disk)
    requires d.record == Some(DestinationRecord(Handover, start.registry))
    ensures Final(d, RefusalLog(d, start.registry)) ==
            d.(registry := start.registry, incoming := Missing, lease := if LeaseActive(d.lease) then Void else d.lease,
               record := Some(DestinationRecord(RolledBack, start.registry)))
  {
  }

  lemma HandlerEnds(start: Disk, d: Disk, r: Request, replaced: bool, started: bool, stops: bool)
    requires Undoable(start, d, r, replaced, started) && (started ==> replaced)
    ensures Final(d, HandlerLog(d, start.registry, replaced, started, stops)) ==
            start.(incoming := Missing, lease := if LeaseActive(d.lease) then Void else d.lease,
                   record := Some(DestinationRecord(RolledBack, start.registry)))
  {
    hide RefusalLog;
    var log := WithdrawLog(d, replaced, started, stops);
    RefusalEnds(start, Final(d, log));
    LeftOfBoth(d, log, RefusalLog(Final(d, log), start.registry), 0);
  }

  lemma ClaimEnds(start: Disk, d: Disk, r: Request, faults: Faults)
    requires Undoable(start, d, r, true, false) && d.lease.InUse? && d.incoming == start.incoming
    requires start.lease.Granted? && d.registry == start.registry && faults.checkpointValid && faults.artifactsStaged
    ensures Final(d, ClaimLog(d, r, start.registry, faults)) == Outcome(start, r, faults)
  {
    hide HandlerLog;
    var claimed := ClaimedState(d.registry, r.node, r.generation, r.migration);
    if claimed.Err? {
      HandlerEnds(start, d, r, true, false, faults.stops);
    } else {
      var log := [d.(registry := claimed.value)];
      if !faults.healthy {
        var failed := d.(registry := FailedState(claimed.value));
        HandlerEnds(start, failed, r, true, false, faults.stops);
        LeftOfBoth(d, log + [failed], HandlerLog(failed, start.registry, true, false, faults.stops), 0);
      } else if !faults.leaseHolds {
        StartedInterrupted(start, d, r, faults);
        HandlerEnds(start, Running(d, r), r, true, true, faults.stops);
        LeftOfBoth(d, log + [Running(d, r)], HandlerLog(Running(d, r), start.registry, true, true, faults.stops), 0);
      }
    }
  }

  lemma ProceedEnds(start: Disk, d: Disk, r: Request, faults: Faults)
    requires Fresh(start, r) && d == start.(record := Some(DestinationRecord(Handover, start.registry)))
    ensures Final(d, ProceedLog(d, r, faults)) == Outcome(start, r, faults)
  {
    hide HandlerLog, ClaimLog, ReplaceLog;
    var reserved := d.(lease := InUse);
    if !d.lease.Granted? {
      HandlerEnds(start, d, r, false, false, faults.stops);
    } else if d.incoming.Missing? {
      HandlerEnds(start, reserved, r, false, false, faults.stops);
      LeftOfBoth(d, [reserved], HandlerLog(reserved, d.registry, false, false, faults.stops), 0);
    } else {
      ReplaceInterrupted(start, reserved, r);
      var replaced := Final(reserved, ReplaceLog(reserved));
      var next := if faults.checkpointValid && faults.artifactsStaged then ClaimLog(replaced, r, d.registry, faults)
                  else HandlerLog(replaced, d.registry, true, false, faults.stops);
      LeftOfBoth(d, [reserved], ReplaceLog(reserved), 0);
      LeftOfBoth(d, [reserved] + ReplaceLog(reserved), next, 0);
      if faults.checkpointValid && faults.artifactsStaged {
        ClaimEnds(start, replaced, r, faults);
      } else {
        HandlerEnds(start, replaced, r, true, false, faults.stops);
      }
    }
  }

  /** The whole log of a first request ends there, a failed stop included. */
  lemma ActivationEnds(start: Disk, r: Request, faults: Faults)
    requires Fresh(start, r)
    ensures Final(start, ActivateLog(start, r, faults)) == Outcome(start, r, faults)
    ensures Answer(start, r, faults) == Succeeds(start, r, faults)
  {
    hide ProceedLog;
    var journalled := Journalled(start, Handover);
    ProceedEnds(start, journalled, r, faults);
    LeftOfBoth(start, [journalled], ProceedLog(journalled, r, faults), 0);
  }

  /** A request repeated after its answer is answered the same way and changes nothing, whatever fails this time. */
  lemma RepeatIsAnsweredAlike(start: Disk, r: Request, faults: Faults, later: Faults)
    requires Fresh(start, r)
    ensures var d := Outcome(start, r, faults);
            && Answer(d, r, later) == Answer(start, r, faults)
            && Final(d, ActivateLog(d, r, later)) == d && |ActivateLog(d, r, later)| <= 1
  {
    hide ProceedLog;
  }
}
