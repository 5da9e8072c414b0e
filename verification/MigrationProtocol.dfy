/**
 The migration transaction of one task (magellan/migration/service.py) as a state machine.

 A step is one durable write, one message, or one purely local transition, so a crash may fall
 between any two of them. `Enabled` holds what the code itself checks; `Assumed` holds what the
 code needs of its environment.
 */
module MigrationProtocol {
  import opened Common
  import opened Registry

  /** Journal statuses; `Handover` is ACTIVATING, which either side writes. */
  datatype RecordStatus = Preparing | Transferring | Handover | Activated | RolledBack | Uncertain

  datatype SourceRecord = SourceRecord(
    source: NodeId,
    destination: NodeId,
    generation: nat,
    status: RecordStatus,
    original: TaskState)

  datatype DestinationRecord = DestinationRecord(status: RecordStatus, original: TaskState)

  /** The destination's capacity lease that backs the migration. */
  datatype Lease = Granted | InUse | Spent | Void

  datatype MigrateStage = Prepared | Marked | Quiescing | Quiesced | Sending | AwaitingReply | Resolving
  datatype RestoreStage = RestoreState | RestartTask | LogRestored
  datatype ActivateStage = Reserving | Claiming | Starting | Consuming | LogActivation
  datatype UndoStage = UndoStop | UndoRestore | UndoLog

  /** What a node is doing to the task right now; lost in a crash. The per-task lock allows one. */
  datatype Operation =
    | Idle
    | Sourcing(m: MigrationId, stage: MigrateStage)
    | Finalizing(m: MigrationId, remoteMarked: bool)
    | Restoring(m: MigrationId, restore: RestoreStage, fromJournal: bool, restart: bool)
    | Activating(m: MigrationId, activate: ActivateStage, before: TaskState)
    | Undoing(m: MigrationId, undo: UndoStage, before: TaskState)

  /** Every node's journal, split by role, and the requests put on the wire. */
  datatype Journals = Journals(
    source: map<MigrationId, SourceRecord>,
    destination: map<MigrationId, DestinationRecord>,
    sent: set<MigrationId>,
    absent: set<MigrationId>,      // history: decided by a source because the destination had no record
    reserved: set<MigrationId>)    // history: whose lease a destination took into use

  /** History: who holds the task by the committed migrations, oldest first. */
  datatype History = History(origin: NodeId, holder: NodeId, hops: seq<MigrationId>)

  /** Registries, journals and leases are durable; `op` is volatile. */
  datatype World = World(
    registry: map<NodeId, TaskState>,
    journals: Journals,
    lease: map<MigrationId, Lease>,
    op: map<NodeId, Operation>,
    history: History)

  datatype Action =
    | Begin(n: NodeId, m: MigrationId, destination: NodeId)
    | PrefetchFails(n: NodeId)
    | MarkMigrating(n: NodeId)
    | LogTransferring(n: NodeId)
    | StopSource(n: NodeId)
    | LogHandover(n: NodeId)
    | SendRequest(n: NodeId)
    | Abort(n: NodeId)
    | ReplyActivated(n: NodeId)
    | ReplyRejected(n: NodeId)
    | ReplyLost(n: NodeId)
    | PollDecides(n: NodeId)
    | PollGivesUp(n: NodeId)
    | FinalizeStep(n: NodeId)
    | RestoreStep(n: NodeId, healthy: bool)
    | Receive(m: MigrationId)
    | ActivateStep(n: NodeId)
    | ActivateFails(n: NodeId)
    | UndoStep(n: NodeId)
    | LeaseLapses(m: MigrationId)
    | Crash(n: NodeId)
    | ReconcileDestination(m: MigrationId)
    | ReconcileSource(m: MigrationId, reached: bool)
    | Broadcast(m: MigrationId, to: NodeId)
    | TaskPauses(n: NodeId)
    | TaskResumes(n: NodeId)
    | TaskCompletes(n: NodeId)
    | TaskFails(n: NodeId)

  // ---------- Vocabulary ----------

  predicate Live(w: World, n: NodeId) {
    n in w.registry && IsLive(w.registry[n])
  }

  predicate Unresolved(j: Journals, m: MigrationId) {
    m in j.source && !j.source[m].status.Activated? && !j.source[m].status.RolledBack?
  }

  predicate ActivatingAt(j: Journals, m: MigrationId) {
    m in j.destination && j.destination[m].status.Handover?
  }

  predicate Committed(j: Journals, m: MigrationId) {
    m in j.destination && j.destination[m].status.Activated?
  }

  predicate Rejected(j: Journals, m: MigrationId) {
    m in j.destination && j.destination[m].status.RolledBack?
  }

  /** The registry entry `s` of node `n` carries migration `m`'s claim. */
  predicate Claims(s: TaskState, n: NodeId, m: MigrationId, generation: nat) {
    s.owner == n && s.generation == generation && s.lastMigration == Some(m)
  }

  /** The destination is working on `m`, or may still hear of it. */
  predicate Pending(j: Journals, m: MigrationId) {
    ActivatingAt(j, m) || (m in j.sent && m !in j.destination && m !in j.absent)
  }

  /** The destination could still commit `m`. */
  predicate MayCommit(j: Journals, m: MigrationId) {
    Unresolved(j, m) && Pending(j, m)
  }

  /** An attempt that is neither resolved at its source nor committed at its destination. */
  predicate OpenAttempt(j: Journals, m: MigrationId) {
    Unresolved(j, m) && !Committed(j, m)
  }

  /** Nothing at node `n` is undecided: no attempt of its own, and no activation whose source still waits. */
  predicate SafeToBegin(j: Journals, n: NodeId) {
    && (forall m | m in j.source :: j.source[m].source == n ==> !OpenAttempt(j, m))
    && (forall m | m in j.source :: j.source[m].destination == n ==> !(ActivatingAt(j, m) && Unresolved(j, m)))
  }

  // ---------- Updates ----------

  function WithState(w: World, n: NodeId, s: TaskState): World {
    w.(registry := w.registry[n := s])
  }

  function WithOp(w: World, n: NodeId, o: Operation): World {
    w.(op := w.op[n := o])
  }

  function SourceLogged(j: Journals, m: MigrationId, r: SourceRecord): Journals {
    j.(source := j.source[m := r])
  }

  function DestinationLogged(j: Journals, m: MigrationId, r: DestinationRecord): Journals {
    j.(destination := j.destination[m := r])
  }

  function WithSourceStatus(w: World, m: MigrationId, status: RecordStatus): World
    requires m in w.journals.source
  {
    w.(journals := SourceLogged(w.journals, m, w.journals.source[m].(status := status)))
  }

  function WithDestination(w: World, m: MigrationId, status: RecordStatus, original: TaskState): World {
    w.(journals := DestinationLogged(w.journals, m, DestinationRecord(status, original)))
  }

  /** Ends a lease that is still active; a finished lease stays as it is. */
  function WithLeaseEnded(w: World, m: MigrationId, outcome: Lease): World {
    if m in w.lease && (w.lease[m].Granted? || w.lease[m].InUse?) then w.(lease := w.lease[m := outcome]) else w
  }

  /** Commits `m` at its destination: the journal says so, and the first time counts as a hop. */
  function WithCommit(w: World, m: MigrationId, original: TaskState): World
    requires m in w.journals.source
  {
    var logged := WithDestination(w, m, Activated, original);
    if m in w.history.hops then logged
    else logged.(history := w.history.(holder := w.journals.source[m].destination, hops := w.history.hops + [m]))
  }

  /** `runtime.start`: a start that is refused or unhealthy leaves the task FAILED. */
  function StartOutcome(s: TaskState, n: NodeId, healthy: bool): TaskState {
    match Started(s, n)
    case Ok(running) => if healthy then running else FailedState(s)
    case Err(_) => FailedState(s)
  }

  // ---------- Guards the code checks ----------

  predicate Sourcing?(w: World, n: NodeId, stage: MigrateStage) {
    && n in w.op && n in w.registry
    && w.op[n].Sourcing? && w.op[n].stage == stage && w.op[n].m in w.journals.source
  }

  predicate IdleAt(w: World, n: NodeId) {
    n in w.op && n in w.registry && w.op[n].Idle?
  }

  predicate Enabled(w: World, a: Action) {
    match a
    case Begin(n, m, d) =>
      IdleAt(w, n) && d in w.registry && d != n && m !in w.journals.source && w.registry[n].owner == n
    case PrefetchFails(n) => Sourcing?(w, n, Prepared)
    case MarkMigrating(n) => Sourcing?(w, n, Prepared)
    case LogTransferring(n) => Sourcing?(w, n, Marked)
    case StopSource(n) => Sourcing?(w, n, Quiescing)
    case LogHandover(n) => Sourcing?(w, n, Quiesced)
    case SendRequest(n) => Sourcing?(w, n, Sending)
    case Abort(n) =>
      Sourcing?(w, n, Prepared) || Sourcing?(w, n, Marked) || Sourcing?(w, n, Quiescing)
      || Sourcing?(w, n, Quiesced) || Sourcing?(w, n, Sending)
    case ReplyActivated(n) => Sourcing?(w, n, AwaitingReply) && Committed(w.journals, w.op[n].m)
    case ReplyRejected(n) => Sourcing?(w, n, AwaitingReply) && Rejected(w.journals, w.op[n].m)
    case ReplyLost(n) => Sourcing?(w, n, AwaitingReply)
    case PollDecides(n) => Sourcing?(w, n, Resolving) && !ActivatingAt(w.journals, w.op[n].m)
    case PollGivesUp(n) => Sourcing?(w, n, Resolving)
    case FinalizeStep(n) => n in w.op && n in w.registry && w.op[n].Finalizing? && w.op[n].m in w.journals.source
    case RestoreStep(n, _) => n in w.op && n in w.registry && w.op[n].Restoring? && w.op[n].m in w.journals.source
    case Receive(m) =>
      && m in w.journals.sent && m in w.journals.source && m in w.lease
      && IdleAt(w, w.journals.source[m].destination)
    case ActivateStep(n) =>
      && n in w.op && n in w.registry && w.op[n].Activating?
      && w.op[n].m in w.journals.source && w.op[n].m in w.journals.destination && w.op[n].m in w.lease
      && (w.op[n].activate.Reserving? ==> w.lease[w.op[n].m].Granted?)
      && (w.op[n].activate.Consuming? ==> w.lease[w.op[n].m].InUse?)
    case ActivateFails(n) =>
      && n in w.op && n in w.registry && w.op[n].Activating? && w.op[n].m in w.journals.destination
      && !w.op[n].activate.LogActivation?
    case UndoStep(n) => n in w.op && n in w.registry && w.op[n].Undoing? && w.op[n].m in w.journals.destination
    case LeaseLapses(m) => m in w.lease && (w.lease[m].Granted? || w.lease[m].InUse?)
    case Crash(n) => n in w.op
    case ReconcileDestination(m) =>
      m in w.journals.source && ActivatingAt(w.journals, m) && IdleAt(w, w.journals.source[m].destination)
    case ReconcileSource(m, _) => Unresolved(w.journals, m) && IdleAt(w, w.journals.source[m].source)
    case Broadcast(m, to) => m in w.history.hops && m in w.journals.source && to in w.registry
    case TaskPauses(n) => n in w.registry && w.registry[n].owner == n && w.registry[n].status.Running?
    case TaskResumes(n) => n in w.registry && w.registry[n].owner == n && w.registry[n].status.Paused?
    case TaskCompletes(n) => Live(w, n) && w.registry[n].owner == n
    case TaskFails(n) => Live(w, n)
  }

  // ---------- What the environment must provide ----------

  /** Operation `o` neither takes the task back from `m` nor is about to write back a live entry. */
  predicate Waits(o: Operation, m: MigrationId) {
    match o
    case Restoring(k, _, _, _) => k != m
    case Activating(_, _, before) => !IsLive(before)
    case Undoing(_, undo, before) => undo.UndoLog? || !IsLive(before)
    case _ => true
  }

  /** The source of the unresolved `m` neither runs the task nor is about to. */
  predicate SourceQuiet(w: World, m: MigrationId)
    requires m in w.journals.source
  {
    var n := w.journals.source[m].source;
    Unresolved(w.journals, m) && !Live(w, n) && (n in w.op ==> Waits(w.op[n], m))
  }

  /**
   - a migration begins only for a live task, at a node where nothing is undecided;
   - a request first arrives before the source has decided that the destination has no record, or while the source
     neither runs the task nor is about to;
   - while the source has not resolved a migration, its request is not repeated once the destination has
     committed and its registry has moved on.
   */
  predicate Assumed(w: World, a: Action) {
    match a
    case Begin(n, _, _) => Live(w, n) && SafeToBegin(w.journals, n)
    case Receive(m) =>
      m in w.journals.source && w.journals.source[m].destination in w.registry ==>
        var r := w.journals.source[m];
        && (m !in w.journals.destination ==> m !in w.journals.absent || SourceQuiet(w, m))
        && (Committed(w.journals, m) && Unresolved(w.journals, m) ==>
              Claims(w.registry[r.destination], r.destination, m, r.generation))
    case _ => true
  }

  // ---------- Steps ----------

  function Apply(w: World, a: Action): World
    requires Enabled(w, a)
  {
    match a
    case Begin(n, m, d) =>
      var s := w.registry[n];
      WithOp(w.(journals := SourceLogged(w.journals, m, SourceRecord(n, d, s.generation + 1, Preparing, s)),
                lease := w.lease[m := Granted]),
             n, Sourcing(m, Prepared))
    case PrefetchFails(n) => WithOp(WithSourceStatus(w, w.op[n].m, RolledBack), n, Idle)
    case MarkMigrating(n) =>
      var m := w.op[n].m;
      (match MigratingState(w.registry[n], n, m)
       case Ok(s) => WithOp(WithState(w, n, s), n, Sourcing(m, Marked))
       case Err(_) => WithOp(w, n, Restoring(m, RestoreState, false, false)))
    case LogTransferring(n) =>
      WithOp(WithSourceStatus(w, w.op[n].m, Transferring), n, Sourcing(w.op[n].m, Quiescing))
    case StopSource(n) =>
      WithOp(WithState(w, n, StoppedState(w.registry[n])), n, Sourcing(w.op[n].m, Quiesced))
    case LogHandover(n) =>
      WithOp(WithSourceStatus(w, w.op[n].m, Handover), n, Sourcing(w.op[n].m, Sending))
    case SendRequest(n) =>
      WithOp(w.(journals := w.journals.(sent := w.journals.sent + {w.op[n].m})), n, Sourcing(w.op[n].m, AwaitingReply))
    case Abort(n) =>
      var stage := w.op[n].stage;
      WithOp(w, n, Restoring(w.op[n].m, RestoreState, false, stage.Quiesced? || stage.Sending?))
    case ReplyActivated(n) => WithOp(w, n, Finalizing(w.op[n].m, false))
    case ReplyRejected(n) => WithOp(w, n, Restoring(w.op[n].m, RestoreState, false, true))
    case ReplyLost(n) =>
      WithOp(WithSourceStatus(w, w.op[n].m, Uncertain), n, Sourcing(w.op[n].m, Resolving))
    case PollDecides(n) => Decide(w, n, w.op[n].m)
    case PollGivesUp(n) => WithOp(WithState(w, n, FailedState(w.registry[n])), n, Idle)
    case FinalizeStep(n) =>
      var m := w.op[n].m;
      if !w.op[n].remoteMarked then
        var r := w.journals.source[m];
        WithOp(WithState(w, n, RemoteState(w.registry[n], r.destination, r.generation, m)), n, Finalizing(m, true))
      else WithOp(WithSourceStatus(w, m, Activated), n, Idle)
    case RestoreStep(n, healthy) => ApplyRestore(w, n, healthy)
    case Receive(m) => ApplyReceive(w, m)
    case ActivateStep(n) => ApplyActivate(w, n)
    case ActivateFails(n) =>
      var o := w.op[n];
      var s := if o.activate.Starting? then FailedState(w.registry[n]) else w.registry[n];
      WithOp(WithState(w, n, s), n,
             Undoing(o.m, if o.activate.Consuming? then UndoStop else UndoRestore, o.before))
    case UndoStep(n) => ApplyUndo(w, n)
    case LeaseLapses(m) => w.(lease := w.lease[m := Void])
    case Crash(n) => WithOp(w, n, Idle)
    case ReconcileDestination(m) =>
      var r := w.journals.source[m];
      var s := w.registry[r.destination];
      if Claims(s, r.destination, m, r.generation) && (IsLive(s) || s.status.Completed?) then
        WithCommit(WithLeaseEnded(w, m, Spent), m, w.journals.destination[m].original)
      else
        var first := if Claims(s, r.destination, m, r.generation) then UndoStop else UndoRestore;
        WithOp(w, r.destination, Undoing(m, first, w.journals.destination[m].original))
    case ReconcileSource(m, reached) => ApplyReconcileSource(w, m, reached)
    case Broadcast(m, to) =>
      var r := w.journals.source[m];
      WithState(w, to, OwnershipApplied(w.registry[to], to,
                                        OwnershipUpdate(r.destination, r.generation, false, Some(m))))
    case TaskPauses(n) => WithState(w, n, PausedState(w.registry[n], n).value)
    case TaskResumes(n) => WithState(w, n, ResumedState(w.registry[n], n).value)
    case TaskCompletes(n) => WithState(w, n, CompletedState(w.registry[n], n).value)
    case TaskFails(n) => WithState(w, n, FailedState(w.registry[n]))
  }

  /** A reached poll found a decisive answer: activated, rolled back, or no record at all. */
  function Decide(w: World, n: NodeId, m: MigrationId): World
    requires n in w.op
  {
    if Committed(w.journals, m) then WithOp(w, n, Finalizing(m, false))
    else
      var noted :=
        if m in w.journals.destination then w
        else w.(journals := w.journals.(absent := w.journals.absent + {m}));
      WithOp(noted, n, Restoring(m, RestoreState, true, true))
  }

  /** Both ways a source takes the task back: from the journalled snapshot, or in place. */
  function ApplyRestore(w: World, n: NodeId, healthy: bool): World
    requires Enabled(w, RestoreStep(n, healthy))
  {
    var o := w.op[n];
    var r := w.journals.source[o.m];
    match o.restore
    case RestoreState =>
      var generation := if r.generation == 0 then 0 else r.generation - 1;
      var base := if o.fromJournal then r.original else w.registry[n];
      WithOp(WithState(w, n, RestoredState(base, n, generation)), n,
             o.(restore := if o.restart then RestartTask else LogRestored))
    case RestartTask =>
      WithOp(WithState(w, n, StartOutcome(w.registry[n], n, healthy)), n, o.(restore := LogRestored))
    case LogRestored => WithOp(WithSourceStatus(w, o.m, RolledBack), n, Idle)
  }

  function ApplyReceive(w: World, m: MigrationId): World
    requires Enabled(w, Receive(m))
  {
    var r := w.journals.source[m];
    var d := r.destination;
    var s := w.registry[d];
    if Claims(s, d, m, r.generation) then
      WithCommit(w, m, if m in w.journals.destination then w.journals.destination[m].original else s)
    else if Rejected(w.journals, m) then w
    else
      var original := if m in w.journals.destination then w.journals.destination[m].original else s;
      WithOp(WithDestination(w, m, Handover, original), d, Activating(m, Reserving, s))
  }

  function ApplyActivate(w: World, n: NodeId): World
    requires Enabled(w, ActivateStep(n))
  {
    var o := w.op[n];
    match o.activate
    case Reserving =>
      var noted := w.(journals := w.journals.(reserved := w.journals.reserved + {o.m}));
      WithOp(noted.(lease := w.lease[o.m := InUse]), n, o.(activate := Claiming))
    case Claiming =>
      (match ClaimedState(w.registry[n], n, w.journals.source[o.m].generation, o.m)
       case Ok(s) => WithOp(WithState(w, n, s), n, o.(activate := Starting))
       case Err(_) => WithOp(w, n, Undoing(o.m, UndoRestore, o.before)))
    case Starting =>
      (match Started(w.registry[n], n)
       case Ok(s) => WithOp(WithState(w, n, s), n, o.(activate := Consuming))
       case Err(_) => WithOp(w, n, Undoing(o.m, UndoRestore, o.before)))
    case Consuming => WithOp(w.(lease := w.lease[o.m := Spent]), n, o.(activate := LogActivation))
    case LogActivation => WithOp(WithCommit(w, o.m, w.journals.destination[o.m].original), n, Idle)
  }

  function ApplyUndo(w: World, n: NodeId): World
    requires Enabled(w, UndoStep(n))
  {
    var o := w.op[n];
    match o.undo
    case UndoStop => WithOp(WithState(w, n, StoppedState(w.registry[n])), n, o.(undo := UndoRestore))
    case UndoRestore => WithOp(WithState(w, n, o.before), n, o.(undo := UndoLog))
    case UndoLog =>
      var ended := WithLeaseEnded(w, o.m, Void);
      WithOp(WithDestination(ended, o.m, RolledBack, w.journals.destination[o.m].original), n, Idle)
  }

  function ApplyReconcileSource(w: World, m: MigrationId, reached: bool): World
    requires Enabled(w, ReconcileSource(m, reached))
  {
    var r := w.journals.source[m];
    var n := r.source;
    var s := w.registry[n];
    if s.owner == r.destination && s.generation >= r.generation then WithSourceStatus(w, m, Activated)
    else if r.status.Preparing? && s.owner == n && !s.status.Migrating? then WithSourceStatus(w, m, RolledBack)
    else if reached && !ActivatingAt(w.journals, m) then Decide(w, n, m)
    else WithSourceStatus(w, m, Uncertain)
  }

  // ---------- Runs ----------

  predicate Initial(w: World) {
    && w.history.origin in w.registry && w.registry.Keys == w.op.Keys
    && (forall n | n in w.registry ::
          && w.op[n].Idle?
          && w.registry[n].owner == w.history.origin && w.registry[n].generation == 0
          && w.registry[n].lastMigration.None? && (n != w.history.origin ==> w.registry[n].status.Remote?))
    && w.journals == Journals(map[], map[], {}, {}, {}) && w.lease == map[]
    && w.history.holder == w.history.origin && w.history.hops == []
  }

  /** Running `actions` from `w`, each step enabled by the code and permitted by the environment. */
  ghost predicate Run(w: World, actions: seq<Action>, last: World)
    decreases |actions|
  {
    if actions == [] then w == last
    else Enabled(w, actions[0]) && Assumed(w, actions[0]) && Run(Apply(w, actions[0]), actions[1..], last)
  }
}
