/**
 The destination of a migration as a daemon that may die at any durable write (magellan/migration/service.py).

 `budget` is the number of durable writes that still get through before it does.
 */
module Activation {
  import opened Common
  import opened Registry
  import opened MigrationProtocol
  import opened ActivationLog
  import opened CrashAtomicity

  datatype Ending = Crashed | Answered(activated: bool)

  /** One restart: how many writes get through, and whether a running task can be stopped. */
  datatype Restart = Restart(budget: nat, stops: bool)

  class Destination {
    const request: Request
    var registry: TaskState
    var checkpoint: Copy
    var backup: Copy
    var incoming: Copy
    var record: Option<DestinationRecord>
    var lease: Lease
    var budget: nat

    constructor (request: Request, disk: Disk, budget: nat)
      ensures Contents() == disk && this.request == request && this.budget == budget
    {
      this.request := request;
      registry, checkpoint, backup, incoming := disk.registry, disk.checkpoint, disk.backup, disk.incoming;
      record, lease := disk.record, disk.lease;
      this.budget := budget;
    }

    function Contents(): Disk
      reads this
    {
      Disk(registry, checkpoint, backup, incoming, record, lease)
    }

    /** One more durable write, unless the daemon dies first. */
    method Survives() returns (alive: bool)
      modifies `budget
      ensures alive <==> old(budget) > 0
      ensures budget == if alive then old(budget) - 1 else 0
    {
      alive := budget > 0;
      if alive {
        budget := budget - 1;
      }
    }

    method RemoveCheckpoint() returns (alive: bool)
      modifies `budget, `checkpoint
      ensures Ran(old(Contents()), old(budget), RemoveCheckpointLog(old(Contents())), Contents(), budget, alive)
    {
      alive := true;
      if checkpoint.Missing? {
        return;
      }
      alive := Survives();
      if !alive {
        return;
      }
      checkpoint := Partial(checkpoint.content);
      alive := Survives();
      if alive {
        checkpoint := Missing;
      }
    }

    method RemoveBackup() returns (alive: bool)
      modifies `budget, `backup
      ensures Ran(old(Contents()), old(budget), RemoveBackupLog(old(Contents())), Contents(), budget, alive)
    {
      alive := true;
      if backup.Missing? {
        return;
      }
      alive := Survives();
      if !alive {
        return;
      }
      backup := Partial(backup.content);
      alive := Survives();
      if alive {
        backup := Missing;
      }
    }

    method RemoveIncoming() returns (alive: bool)
      modifies `budget, `incoming
      ensures Ran(old(Contents()), old(budget), RemoveIncomingLog(old(Contents())), Contents(), budget, alive)
    {
      alive := true;
      if incoming.Missing? {
        return;
      }
      alive := Survives();
      if !alive {
        return;
      }
      incoming := Partial(incoming.content);
      alive := Survives();
      if alive {
        incoming := Missing;
      }
    }

    method StopTask(stops: bool) returns (alive: bool)
      modifies `budget, `registry
      ensures Ran(old(Contents()), old(budget), StopLog(old(Contents()), stops), Contents(), budget, alive)
    {
      alive := true;
      if stops {
        alive := Survives();
        if alive {
          registry := StoppedState(registry);
        }
      }
    }

    method PutBack() returns (alive: bool)
      modifies `budget, `checkpoint, `backup
      ensures Ran(old(Contents()), old(budget), PutBackLog(old(Contents())), Contents(), budget, alive)
    {
      alive := true;
      if !backup.Missing? {
        alive := Survives();
        if alive {
          checkpoint, backup := backup, Missing;
        }
      }
    }

    method VoidLease() returns (alive: bool)
      modifies `budget, `lease
      ensures Ran(old(Contents()), old(budget), VoidLeaseLog(old(Contents())), Contents(), budget, alive)
    {
      alive := true;
      if LeaseActive(lease) {
        alive := Survives();
        if alive {
          lease := Void;
        }
      }
    }

    // ---------- Repair ----------

    /** Repairs an unfinished activation after a restart. */
    method Reconcile(stops: bool) returns (finished: bool)
      modifies this
      ensures Ran(old(Contents()), old(budget), ReconcileLog(old(Contents()), request, stops), Contents(), budget,
                  finished)
    {
      finished := true;
      if record.None? || !record.value.status.Handover? {
        return;
      }
      if Established(registry, request) {
        finished := Settle();
      } else {
        finished := RollBack(stops);
      }
    }

    method Settle() returns (finished: bool)
      requires record.Some?
      modifies `budget, `lease, `record
      ensures Ran(old(Contents()), old(budget), SettleLog(old(Contents())), Contents(), budget, finished)
    {
      if lease.Granted? {
        finished := Survives();
        if !finished {
          return;
        }
        lease := InUse;
      }
      if lease.InUse? {
        finished := Survives();
        if !finished {
          return;
        }
        lease := Spent;
      }
      finished := Survives();
      if finished {
        record := Some(record.value.(status := RecordStatus.Activated));
      }
    }

    method RollBack(stops: bool) returns (finished: bool)
      requires record.Some?
      modifies this
      ensures Ran(old(Contents()), old(budget), RollBackLog(old(Contents()), request, stops), Contents(), budget,
                  finished)
    {
      hide PutCheckpointBackLog, ConcludeLog, Ran;
      ghost var start, funds := Contents(), budget;
      ghost var log := PutCheckpointBackLog(start, request, stops);
      PutCheckpointBackKeepsRecord(start, request, stops);
      finished := PutCheckpointBack(stops);
      ghost var mid, rest := Contents(), budget;
      if !finished {
        RanFirst(start, funds, log, mid, rest, ConcludeLog(Final(start, log)));
        return;
      }
      RanToTheEnd(start, funds, log, mid, rest);
      finished := Conclude();
      RanBoth(start, funds, log, mid, rest, ConcludeLog(mid), Contents(), budget, finished);
    }

    method PutCheckpointBack(stops: bool) returns (alive: bool)
      modifies `budget, `registry, `checkpoint, `backup
      ensures Ran(old(Contents()), old(budget), PutCheckpointBackLog(old(Contents()), request, stops), Contents(),
                  budget, alive)
      ensures record == old(record)
    {
      alive := true;
      if HasProcess(registry, request) {
        alive := StopTask(stops);
        if !alive {
          return;
        }
      }
      if !backup.Missing? {
        alive := RemoveCheckpoint();
        if !alive {
          return;
        }
        alive := PutBack();
      }
    }

    method Conclude() returns (finished: bool)
      requires record.Some?
      modifies this
      ensures Ran(old(Contents()), old(budget), ConcludeLog(old(Contents())), Contents(), budget, finished)
    {
      finished := Survives();
      if !finished {
        return;
      }
      registry := record.value.original;
      finished := VoidLease();
      if !finished {
        return;
      }
      finished := RemoveIncoming();
      if !finished {
        return;
      }
      finished := Survives();
      if finished {
        record := Some(record.value.(status := RolledBack));
      }
    }

    /**
     Restart after restart, each interrupted or not: all are heading for the one outcome, the first that
     finishes reaches it, and one that lives long enough finishes.
     */
    method RestartUntilResolved(restarts: seq<Restart>) returns (finished: bool)
      requires record.Some? ==> !Established(record.value.original, request)
      modifies this
      ensures Resolved(Contents(), request) == Resolved(old(Contents()), request)
      ensures finished ==> Contents() == Resolved(old(Contents()), request)
      ensures (exists i :: 0 <= i < |restarts| && restarts[i].budget >= RECONCILE_WRITES) ==> finished
    {
      hide Resolved, ReconcileLog;
      finished := false;
      for i := 0 to |restarts|
        invariant record.Some? ==> !Established(record.value.original, request)
        invariant Resolved(Contents(), request) == Resolved(old(Contents()), request)
        invariant !finished && forall k | 0 <= k < i :: restarts[k].budget < RECONCILE_WRITES
      {
        ghost var before := Contents();
        budget := restarts[i].budget;
        finished := Reconcile(restarts[i].stops);
        ReconcileResolves(before, request, restarts[i].stops, restarts[i].budget);
        ReconcileWrites(before, request, restarts[i].stops);
        if finished {
          return;
        }
      }
    }

    // ---------- Activation ----------

    /** The stale backup goes, the local checkpoint is renamed out of the way, the incoming one is copied in. */
    method ReplaceCheckpoint() returns (alive: bool)
      requires !incoming.Missing?
      modifies `budget, `checkpoint, `backup
      ensures Ran(old(Contents()), old(budget), ReplaceLog(old(Contents())), Contents(), budget, alive)
    {
      alive := RemoveBackup();
      if !alive {
        return;
      }
      if !checkpoint.Missing? {
        alive := Survives();
        if !alive {
          return;
        }
        checkpoint, backup := Missing, checkpoint;
      }
      alive := Survives();
      if !alive {
        return;
      }
      checkpoint := Partial(incoming.content);
      alive := Survives();
      if alive {
        checkpoint := incoming;
      }
    }

    /** The failure handler's first half. */
    method Withdraw(replaced: bool, started: bool, stops: bool) returns (alive: bool)
      modifies `budget, `registry, `checkpoint, `backup
      ensures Ran(old(Contents()), old(budget), WithdrawLog(old(Contents()), replaced, started, stops), Contents(),
                  budget, alive)
    {
      alive := true;
      if started {
        alive := StopTask(stops);
        if !alive {
          return;
        }
      }
      if replaced {
        alive := RemoveCheckpoint();
        if !alive {
          return;
        }
      }
      alive := PutBack();
    }

    /** Its second half: the registry, the journal, the lease and the transfer. */
    method Refuse(original: TaskState) returns (alive: bool)
      requires record.Some?
      modifies this
      ensures Ran(old(Contents()), old(budget), RefusalLog(old(Contents()), original), Contents(), budget, alive)
    {
      alive := Survives();
      if !alive {
        return;
      }
      registry := original;
      alive := Survives();
      if !alive {
        return;
      }
      record := Some(record.value.(status := RolledBack));
      alive := VoidLease();
      if !alive {
        return;
      }
      alive := RemoveIncoming();
    }

    /** Undoes an activation that failed without a crash. */
    method Undo(original: TaskState, replaced: bool, started: bool, stops: bool) returns (alive: bool)
      requires record.Some?
      modifies this
      ensures Ran(old(Contents()), old(budget), HandlerLog(old(Contents()), original, replaced, started, stops),
                  Contents(), budget, alive)
    {
      hide WithdrawLog, RefusalLog, Ran;
      ghost var start, funds := Contents(), budget;
      ghost var log := WithdrawLog(start, replaced, started, stops);
      WithdrawKeepsRecord(start, replaced, started, stops);
      alive := Withdraw(replaced, started, stops);
      ghost var mid, rest := Contents(), budget;
      if !alive {
        RanFirst(start, funds, log, mid, rest, RefusalLog(Final(start, log), original));
        return;
      }
      RanToTheEnd(start, funds, log, mid, rest);
      alive := Refuse(original);
      RanBoth(start, funds, log, mid, rest, RefusalLog(mid, original), Contents(), budget, alive);
    }

    /** From a running task to the end of a successful activation. */
    method Finish() returns (alive: bool)
      requires record.Some?
      modifies `budget, `lease, `record, `backup, `incoming
      ensures Ran(old(Contents()), old(budget), CommitLog(old(Contents())), Contents(), budget, alive)
    {
      alive := Survives();
      if !alive {
        return;
      }
      lease := Spent;
      alive := Survives();
      if !alive {
        return;
      }
      record := Some(record.value.(status := RecordStatus.Activated));
      alive := RemoveBackup();
      if !alive {
        return;
      }
      alive := RemoveIncoming();
    }

    /** With the checkpoint in place: claim the task, start it, consume the lease, commit. */
    method ClaimAndStart(original: TaskState, faults: Faults) returns (ending: Ending)
      requires record.Some?
      modifies this
      ensures Ran(old(Contents()), old(budget), ClaimLog(old(Contents()), request, original, faults), Contents(),
                  budget, !ending.Crashed?)
      ensures !ending.Crashed? ==>
                (ending.activated
                 <==> request.generation >= old(registry).generation && faults.healthy && faults.leaseHolds)
    {
      hide HandlerLog, CommitLog;
      ghost var start, funds := Contents(), budget;
      ending := Crashed;
      var claimed := ClaimedState(registry, request.node, request.generation, request.migration);
      var alive;
      if claimed.Err? {
        alive := Undo(original, true, false, faults.stops);
        return if alive then Answered(false) else Crashed;
      }
      alive := Survives();
      if !alive {
        return;
      }
      registry := claimed.value;
      alive := Survives();
      if !alive {
        return;
      }
      registry := if faults.healthy then Started(registry, request.node).value else FailedState(registry);
      ghost var mid, rest := Contents(), budget;
      ghost var log := [start.(registry := claimed.value), mid];
      assert Ran(start, funds, log, mid, rest, true);
      if faults.healthy && faults.leaseHolds {
        alive := Finish();
        RanBoth(start, funds, log, mid, rest, CommitLog(mid), Contents(), budget, alive);
        return if alive then Answered(true) else Crashed;
      }
      alive := Undo(original, true, faults.healthy, faults.stops);
      RanBoth(start, funds, log, mid, rest, HandlerLog(mid, original, true, faults.healthy, faults.stops), Contents(),
              budget, alive);
      return if alive then Answered(false) else Crashed;
    }

    /** From the journalled request to the commit. */
    method Proceed(faults: Faults) returns (ending: Ending)
      requires record.Some?
      modifies this
      ensures Ran(old(Contents()), old(budget), ProceedLog(old(Contents()), request, faults), Contents(), budget,
                  !ending.Crashed?)
      ensures !ending.Crashed? ==> ending.activated == Succeeds(old(Contents()), request, faults)
    {
      hide HandlerLog, ReplaceLog, ClaimLog;
      ghost var start, funds := Contents(), budget;
      var original := registry;
      ending := Crashed;
      var alive;
      if !lease.Granted? {
        alive := Undo(original, false, false, faults.stops);
        return if alive then Answered(false) else Crashed;
      }
      alive := Survives();
      if !alive {
        return;
      }
      lease := InUse;
      ghost var reserved := Contents();
      assert Ran(start, funds, [reserved], reserved, budget, true);
      if incoming.Missing? {
        ghost var rest := budget;
        alive := Undo(original, false, false, faults.stops);
        RanBoth(start, funds, [reserved], reserved, rest, HandlerLog(reserved, original, false, false, faults.stops),
                Contents(), budget, alive);
        return if alive then Answered(false) else Crashed;
      }
      ghost var left := budget;
      alive := ReplaceCheckpoint();
      ghost var log, mid, rest := [reserved] + ReplaceLog(reserved), Contents(), budget;
      RanBoth(start, funds, [reserved], reserved, left, ReplaceLog(reserved), mid, rest, alive);
      hide Ran;
      if !alive {
        ghost var next := ProceedLog(start, request, faults);
        RanFirst(start, funds, log, mid, rest, next[|log|..]);
        return;
      }
      if faults.checkpointValid && faults.artifactsStaged {
        ending := ClaimAndStart(original, faults);
        RanBoth(start, funds, log, mid, rest, ClaimLog(mid, request, original, faults), Contents(), budget,
                !ending.Crashed?);
      } else {
        alive := Undo(original, true, false, faults.stops);
        RanBoth(start, funds, log, mid, rest, HandlerLog(mid, original, true, false, faults.stops), Contents(), budget,
                alive);
        ending := if alive then Answered(false) else Crashed;
      }
    }

    /** A migration the registry already carries is confirmed, one that was rolled back is refused. */
    method ActivateLocked(faults: Faults) returns (ending: Ending)
      modifies this
      ensures Ran(old(Contents()), old(budget), ActivateLog(old(Contents()), request, faults), Contents(), budget,
                  !ending.Crashed?)
      ensures !ending.Crashed? ==> ending.activated == Answer(old(Contents()), request, faults)
    {
      hide ProceedLog;
      ghost var start, funds := Contents(), budget;
      ending := Crashed;
      if Claims(registry, request.node, request.migration, request.generation) {
        var alive := Survives();
        if alive {
          record := Some(DestinationRecord(RecordStatus.Activated,
                                           if record.Some? then record.value.original else registry));
          ending := Answered(true);
        }
        return;
      }
      if record.Some? && record.value.status.RolledBack? {
        return Answered(false);
      }
      var alive := Survives();
      if !alive {
        return;
      }
      record := Some(DestinationRecord(Handover, if record.Some? then record.value.original else registry));
      ghost var mid, rest := Contents(), budget;
      assert Ran(start, funds, [mid], mid, rest, true);
      hide Ran;
      ending := Proceed(faults);
      RanBoth(start, funds, [mid], mid, rest, ProceedLog(mid, request, faults), Contents(), budget, !ending.Crashed?);
    }

    /**
     The activation: the disk it leaves after any number of writes, what it answers, and that enough writes bring an
     answer. A first request that is answered has succeeded completely or left everything but the transfer as it was.
     */
    method Activate(faults: Faults) returns (ending: Ending)
      modifies this
      ensures Ran(old(Contents()), old(budget), ActivateLog(old(Contents()), request, faults), Contents(), budget,
                  !ending.Crashed?)
      ensures !ending.Crashed? ==> ending.activated == Answer(old(Contents()), request, faults)
      ensures old(budget) >= ACTIVATE_WRITES ==> !ending.Crashed?
      ensures Fresh(old(Contents()), request) && !ending.Crashed? ==>
                Contents() == Outcome(old(Contents()), request, faults)
    {
      hide ActivateLog, Outcome, Fresh;
      ghost var start, funds := Contents(), budget;
      ending := ActivateLocked(faults);
      ActivateWrites(start, request, faults);
      if !ending.Crashed? && Fresh(start, request) {
        RanToTheEnd(start, funds, ActivateLog(start, request, faults), Contents(), budget);
        ActivationEnds(start, request, faults);
      }
    }

    /**
     A request, a crash anywhere in it, and restarts that crash as well. One restart that lives long enough
     resolves it; then all or nothing holds exactly unless a failed stop spoiled that crash point.
     */
    method ActivateAcrossCrashes(faults: Faults, restarts: seq<Restart>) returns (resolved: bool)
      requires Fresh(Contents(), request)
      modifies this
      ensures (exists i :: 0 <= i < |restarts| && restarts[i].budget >= RECONCILE_WRITES) ==> resolved
      ensures resolved ==>
                (AllOrNothing(old(Contents()), Contents(), request)
                 <==> !Torn(old(Contents()), request, faults, old(budget)))
    {
      hide ActivateLog, Resolved, AllOrNothing, Torn, Outcome;
      ghost var start, funds := Contents(), budget;
      var ending := Activate(faults);
      AtomicExactlyWhen(start, request, faults, funds);
      OriginalNotEstablished(start, request, faults, funds);
      resolved := RestartUntilResolved(restarts);
    }
  }

  // ---------- Runs that go wrong ----------

  /**
   A task with a checkpoint of its own arrives, starts, loses its lease and cannot be stopped; the daemon dies after
   nine writes and restarts. The journal says ACTIVATED, and the checkpoint is gone.
   */
  method FailedStopRun() returns (crashed: Disk, repaired: Disk)
    ensures crashed == Disk(TaskState(5, 1, TaskStatus.Running, Some(7)), Missing, Full(10), Full(20),
                            Some(DestinationRecord(Handover, TaskState(4, 0, Remote, None))), InUse)
    ensures HasStatus(repaired, RecordStatus.Activated) && repaired.checkpoint.Missing?
  {
    hide ActivateLog, ReconcileLog;
    var r, faults := Request(5, 7, 1), Faults(true, true, true, false, false);
    var start := Disk(TaskState(4, 0, Remote, None), Full(10), Missing, Full(20), None, Granted);
    var node := new Destination(r, start, 9);
    FailedStopCommitsWithoutCheckpoint(start, r, faults);
    var ending := node.Activate(faults);
    crashed := node.Contents();
    var restarts := [Restart(RECONCILE_WRITES, false)];
    assert restarts[0].budget >= RECONCILE_WRITES;
    var resolved := node.RestartUntilResolved(restarts);
    repaired := node.Contents();
  }

  /** A task without a checkpoint arrives and the daemon dies during the copy: after the repair half of it is there. */
  method LeftoverRun() returns (crashed: Disk, repaired: Disk)
    ensures crashed == Disk(TaskState(4, 0, Remote, None), Partial(20), Missing, Full(20),
                            Some(DestinationRecord(Handover, TaskState(4, 0, Remote, None))), InUse)
    ensures HasStatus(repaired, RolledBack) && repaired.checkpoint == Partial(20)
  {
    hide ActivateLog, ReconcileLog;
    var r, faults := Request(5, 7, 1), Faults(true, true, true, true, true);
    var start := Disk(TaskState(4, 0, Remote, None), Missing, Missing, Full(20), None, Granted);
    var node := new Destination(r, start, 3);
    CopyLeftBehind(start, r, faults);
    var ending := node.Activate(faults);
    crashed := node.Contents();
    var restarts := [Restart(RECONCILE_WRITES, true)];
    assert restarts[0].budget >= RECONCILE_WRITES;
    var resolved := node.RestartUntilResolved(restarts);
    repaired := node.Contents();
  }
}
