/**
 The destination's activation as a sequence of durable writes (magellan/migration/service.py).

 A write log lists the disks after each durable write of a procedure; a crash leaves the disk of the last write
 that got through. Removing a directory tree and copying one take two writes, so a crash can leave half a
 checkpoint behind.
 */
module ActivationLog {
  import opened Common
  import opened Registry
  import opened MigrationProtocol

  /** A checkpoint directory. */
  datatype Copy = Missing | Partial(content: nat) | Full(content: nat)

  /** Everything of one task and one migration that survives a crash of the destination. */
  datatype Disk = Disk(
    registry: TaskState,
    checkpoint: Copy,
    backup: Copy,
    incoming: Copy,
    record: Option<DestinationRecord>,
    lease: Lease)

  datatype Request = Request(node: NodeId, migration: MigrationId, generation: nat)

  /** What may go wrong without a crash. */
  datatype Faults = Faults(
    checkpointValid: bool,
    artifactsStaged: bool,
    healthy: bool,
    leaseHolds: bool,
    stops: bool)

  predicate Claimed(d: Disk, r: Request) {
    Claims(d.registry, r.node, r.migration, r.generation)
  }

  /** A live local owner was established. */
  predicate Established(s: TaskState, r: Request) {
    Claims(s, r.node, r.migration, r.generation) && (IsLive(s) || s.status.Completed?)
  }

  /** A process of this migration may be running here. */
  predicate HasProcess(s: TaskState, r: Request) {
    s.owner == r.node && s.lastMigration == Some(r.migration) && (IsLive(s) || s.status.Migrating?)
  }

  predicate LeaseActive(l: Lease) {
    l.Granted? || l.InUse?
  }

  predicate HasStatus(d: Disk, status: RecordStatus) {
    d.record.Some? && d.record.value.status == status
  }

  function Logged(d: Disk, status: RecordStatus): Disk
    requires d.record.Some?
  {
    d.(record := Some(d.record.value.(status := status)))
  }

  // ---------- Write logs ----------

  /** The disk when the whole log has been written. */
  function Final(d: Disk, log: seq<Disk>): Disk {
    if log == [] then d else log[|log| - 1]
  }

  /** The disk when `budget` writes get through. */
  function Left(d: Disk, log: seq<Disk>, budget: nat): Disk {
    if budget == 0 || log == [] then d else if budget <= |log| then log[budget - 1] else log[|log| - 1]
  }

  /** A procedure with this log, run on `before` with `budget` writes to go, ended like this. */
  predicate Ran(before: Disk, budget: nat, log: seq<Disk>, after: Disk, rest: nat, alive: bool) {
    && after == Left(before, log, budget) && (alive <==> budget >= |log|)
    && rest == if alive then budget - |log| else 0
  }

  lemma LeftOfBoth(d: Disk, log: seq<Disk>, more: seq<Disk>, budget: nat)
    ensures budget < |log| ==> Left(d, log + more, budget) == Left(d, log, budget)
    ensures budget >= |log| ==> Left(d, log + more, budget) == Left(Final(d, log), more, budget - |log|)
    ensures Final(d, log + more) == Final(Final(d, log), more)
  {
  }

  /** One procedure after the other; the second only if the first survived. */
  lemma RanBoth(before: Disk, budget: nat, log: seq<Disk>, mid: Disk, rest: nat, more: seq<Disk>, after: Disk,
                last: nat, alive: bool)
    requires Ran(before, budget, log, mid, rest, true) && Ran(mid, rest, more, after, last, alive)
    ensures Ran(before, budget, log + more, after, last, alive)
  {
    LeftOfBoth(before, log, more, budget);
  }

  lemma RanFirst(before: Disk, budget: nat, log: seq<Disk>, mid: Disk, rest: nat, more: seq<Disk>)
    requires Ran(before, budget, log, mid, rest, false)
    ensures Ran(before, budget, log + more, mid, rest, false)
  {
    LeftOfBoth(before, log, more, budget);
  }

  lemma RanToTheEnd(before: Disk, budget: nat, log: seq<Disk>, after: Disk, rest: nat)
    requires Ran(before, budget, log, after, rest, true)
    ensures after == Final(before, log)
  {
  }

  function RemoveCheckpointLog(d: Disk): seq<Disk> {
    if d.checkpoint.Missing? then []
    else [d.(checkpoint := Partial(d.checkpoint.content)), d.(checkpoint := Missing)]
  }

  function RemoveBackupLog(d: Disk): seq<Disk> {
    if d.backup.Missing? then [] else [d.(backup := Partial(d.backup.content)), d.(backup := Missing)]
  }

  function RemoveIncomingLog(d: Disk): seq<Disk> {
    if d.incoming.Missing? then [] else [d.(incoming := Partial(d.incoming.content)), d.(incoming := Missing)]
  }

  function StopLog(d: Disk, stops: bool): seq<Disk> {
    if stops then [d.(registry := StoppedState(d.registry))] else []
  }

  function PutBackLog(d: Disk): seq<Disk> {
    if d.backup.Missing? then [] else [d.(checkpoint := d.backup, backup := Missing)]
  }

  function VoidLeaseLog(d: Disk): seq<Disk> {
    if LeaseActive(d.lease) then [d.(lease := Void)] else []
  }

  /** A stale backup goes, the local checkpoint is renamed out of the way, the incoming one is copied in. */
  function ReplaceLog(d: Disk): seq<Disk>
    requires !d.incoming.Missing?
  {
    var cleared := d.(backup := Missing);
    var rename := if d.checkpoint.Missing? then [] else [cleared.(checkpoint := Missing, backup := d.checkpoint)];
    var moved := Final(cleared, rename);
    RemoveBackupLog(d) + rename
    + [moved.(checkpoint := Partial(d.incoming.content)), moved.(checkpoint := d.incoming)]
  }

  /** The registry, the journal, the lease and the transfer of an undone activation. */
  function RefusalLog(d: Disk, original: TaskState): seq<Disk>
    requires d.record.Some?
  {
    var restored := d.(registry := original);
    var refused := Logged(restored, RolledBack);
    var voided := Final(refused, VoidLeaseLog(refused));
    [restored, refused] + VoidLeaseLog(refused) + RemoveIncomingLog(voided)
  }

  /** The first half of the failure handler: the task stops, the checkpoint goes back, */
  function WithdrawLog(d: Disk, replaced: bool, started: bool, stops: bool): seq<Disk> {
    var stop := if started then StopLog(d, stops) else [];
    var stopped := Final(d, stop);
    var removal := if replaced then RemoveCheckpointLog(stopped) else [];
    stop + removal + PutBackLog(Final(stopped, removal))
  }

  lemma WithdrawKeepsRecord(d: Disk, replaced: bool, started: bool, stops: bool)
    ensures forall x | x in WithdrawLog(d, replaced, started, stops) :: x.record == d.record
    ensures Final(d, WithdrawLog(d, replaced, started, stops)).record == d.record
  {
  }

  /** and then everything else. */
  function HandlerLog(d: Disk, original: TaskState, replaced: bool, started: bool, stops: bool): seq<Disk>
    requires d.record.Some?
  {
    var log := WithdrawLog(d, replaced, started, stops);
    log + RefusalLog(Final(d, log), original)
  }

  /** From a running task to the end of a successful activation. */
  function CommitLog(d: Disk): seq<Disk>
    requires d.record.Some?
  {
    var spent := d.(lease := Spent);
    var committed := Logged(spent, RecordStatus.Activated);
    [spent, committed] + RemoveBackupLog(committed) + RemoveIncomingLog(committed.(backup := Missing))
  }

  /** With the checkpoint in place: claim the task, start it, consume the lease, commit. */
  function ClaimLog(d: Disk, r: Request, original: TaskState, faults: Faults): seq<Disk>
    requires d.record.Some?
  {
    match ClaimedState(d.registry, r.node, r.generation, r.migration)
    case Err(_) => HandlerLog(d, original, true, false, faults.stops)
    case Ok(s) =>
      var claimed := d.(registry := s);
      if !faults.healthy then
        var failed := d.(registry := FailedState(s));
        [claimed, failed] + HandlerLog(failed, original, true, false, faults.stops)
      else
        var running := d.(registry := s.(status := Running));
        [claimed, running]
        + if faults.leaseHolds then CommitLog(running) else HandlerLog(running, original, true, true, faults.stops)
  }

  /** From the journalled request to the commit. */
  function ProceedLog(d: Disk, r: Request, faults: Faults): seq<Disk>
    requires d.record.Some?
  {
    if !d.lease.Granted? then HandlerLog(d, d.registry, false, false, faults.stops)
    else
      var reserved := d.(lease := InUse);
      if d.incoming.Missing? then [reserved] + HandlerLog(reserved, d.registry, false, false, faults.stops)
      else
        var replaced := Final(reserved, ReplaceLog(reserved));
        [reserved] + ReplaceLog(reserved)
        + if faults.checkpointValid && faults.artifactsStaged then ClaimLog(replaced, r, d.registry, faults)
          else HandlerLog(replaced, d.registry, true, false, faults.stops)
  }

  /** The first write of a request, unless the registry already carries the migration or it was rolled back. */
  function Journalled(d: Disk, status: RecordStatus): Disk {
    d.(record := Some(DestinationRecord(status, if d.record.Some? then d.record.value.original else d.registry)))
  }

  function ActivateLog(d: Disk, r: Request, faults: Faults): seq<Disk> {
    if Claimed(d, r) then [Journalled(d, RecordStatus.Activated)]
    else if HasStatus(d, RolledBack) then []
    else [Journalled(d, Handover)] + ProceedLog(Journalled(d, Handover), r, faults)
  }

  /** Every condition under which a first request succeeds. */
  predicate Succeeds(d: Disk, r: Request, faults: Faults) {
    && d.lease.Granted? && !d.incoming.Missing? && faults.checkpointValid && faults.artifactsStaged
    && r.generation >= d.registry.generation && faults.healthy && faults.leaseHolds
  }

  /** What the request is answered. */
  predicate Answer(d: Disk, r: Request, faults: Faults) {
    Claimed(d, r) || (!HasStatus(d, RolledBack) && Succeeds(d, r, faults))
  }

  /** The repair of an activation that established a live owner. */
  function SettleLog(d: Disk): seq<Disk>
    requires d.record.Some?
  {
    var taken := if d.lease.Granted? then [d.(lease := InUse)] else [];
    var spent := if LeaseActive(d.lease) then [d.(lease := Spent)] else [];
    taken + spent + [Logged(Final(d, spent), RecordStatus.Activated)]
  }

  /** The repair of one that did not: the checkpoint goes back, */
  function PutCheckpointBackLog(d: Disk, r: Request, stops: bool): seq<Disk> {
    var stop := if HasProcess(d.registry, r) then StopLog(d, stops) else [];
    var stopped := Final(d, stop);
    var removal := if d.backup.Missing? then [] else RemoveCheckpointLog(stopped);
    stop + removal + PutBackLog(Final(stopped, removal))
  }

  lemma PutCheckpointBackKeepsRecord(d: Disk, r: Request, stops: bool)
    ensures Final(d, PutCheckpointBackLog(d, r, stops)).record == d.record
  {
  }

  /** and then everything else. */
  function ConcludeLog(d: Disk): seq<Disk>
    requires d.record.Some?
  {
    var restored := d.(registry := d.record.value.original);
    var voided := Final(restored, VoidLeaseLog(restored));
    [restored] + VoidLeaseLog(restored) + RemoveIncomingLog(voided)
    + [Logged(voided.(incoming := Missing), RolledBack)]
  }

  function RollBackLog(d: Disk, r: Request, stops: bool): seq<Disk>
    requires d.record.Some?
  {
    var log := PutCheckpointBackLog(d, r, stops);
    log + ConcludeLog(Final(d, log))
  }

  function ReconcileLog(d: Disk, r: Request, stops: bool): seq<Disk> {
    if !HasStatus(d, Handover) then []
    else if Established(d.registry, r) then SettleLog(d)
    else RollBackLog(d, r, stops)
  }

  /** A repair that rolls back first stops the process that this migration may have left running here. */
  lemma RepairStopsFirst(d: Disk, r: Request)
    requires HasStatus(d, Handover) && !Established(d.registry, r)
    requires d.registry.owner == r.node && d.registry.lastMigration == Some(r.migration)
    requires d.registry.status in {Running, Paused, Migrating}
    ensures ReconcileLog(d, r, true) != []
    ensures ReconcileLog(d, r, true)[0] == d.(registry := d.registry.(status := Stopped))
  {
  }

  // ---------- How many writes are enough ----------

  const ACTIVATE_WRITES := 18
  const RECONCILE_WRITES := 9

  lemma HandlerWrites(d: Disk, original: TaskState, replaced: bool, started: bool, stops: bool)
    requires d.record.Some?
    ensures |HandlerLog(d, original, replaced, started, stops)| <= ACTIVATE_WRITES - 9
  {
  }

  lemma ClaimWrites(d: Disk, r: Request, original: TaskState, faults: Faults)
    requires d.record.Some?
    ensures |ClaimLog(d, r, original, faults)| <= ACTIVATE_WRITES - 7
  {
    hide HandlerLog;
    var claimed := ClaimedState(d.registry, r.node, r.generation, r.migration);
    if claimed.Ok? {
      HandlerWrites(d.(registry := FailedState(claimed.value)), original, true, false, faults.stops);
      HandlerWrites(d.(registry := claimed.value.(status := Running)), original, true, true, faults.stops);
    } else {
      HandlerWrites(d, original, true, false, faults.stops);
    }
  }

  lemma ProceedWrites(d: Disk, r: Request, faults: Faults)
    requires d.record.Some?
    ensures |ProceedLog(d, r, faults)| <= ACTIVATE_WRITES - 1
  {
    hide HandlerLog, ClaimLog;
    var reserved := d.(lease := InUse);
    HandlerWrites(d, d.registry, false, false, faults.stops);
    HandlerWrites(reserved, d.registry, false, false, faults.stops);
    if !d.incoming.Missing? {
      var replaced := Final(reserved, ReplaceLog(reserved));
      HandlerWrites(replaced, d.registry, true, false, faults.stops);
      ClaimWrites(replaced, r, d.registry, faults);
    }
  }

  /** A request concludes within this many writes, whatever it finds and whatever fails. */
  lemma ActivateWrites(d: Disk, r: Request, faults: Faults)
    ensures |ActivateLog(d, r, faults)| <= ACTIVATE_WRITES
  {
    hide ProceedLog;
    ProceedWrites(Journalled(d, Handover), r, faults);
  }

  /** So does a restart's repair. */
  lemma ReconcileWrites(d: Disk, r: Request, stops: bool)
    ensures |ReconcileLog(d, r, stops)| <= RECONCILE_WRITES
  {
  }
}
