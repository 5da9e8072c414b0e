/** The ownership part of a node's durable task registry (magellan/state/persistent_registry.py). */
module Registry {
  import opened Common

  datatype TaskStatus =
    | Stopped | Running | Paused | Migrating | Recovering | Remote | Completed | Failed

  /** The fields that decide who may run a task. */
  datatype TaskState = TaskState(
    owner: NodeId,
    generation: nat,
    status: TaskStatus,
    lastMigration: Option<MigrationId>)

  datatype RegistryError =
    | UnknownTask | ConflictingDefinition | NotOwner | AlreadyCompleted | WrongStatus | StaleGeneration

  type StateResult = Result<TaskState, RegistryError>

  /** A committed fact about ownership, sent to peers. */
  datatype OwnershipUpdate = OwnershipUpdate(
    owner: NodeId,
    generation: nat,
    completed: bool,
    migration: Option<MigrationId>)

  predicate IsLive(s: TaskState) {
    s.status.Running? || s.status.Paused?
  }

  predicate HoldsCapacity(s: TaskState) {
    s.status.Running? || s.status.Paused? || s.status.Migrating? || s.status.Recovering? || s.status.Failed?
  }

  function Started(s: TaskState, local: NodeId): StateResult {
    if s.owner != local then Err(NotOwner)
    else if s.status.Completed? then Err(AlreadyCompleted)
    else Ok(s.(status := Running))
  }

  function PausedState(s: TaskState, local: NodeId): StateResult {
    if s.owner != local then Err(NotOwner)
    else if !s.status.Running? then Err(WrongStatus)
    else Ok(s.(status := Paused))
  }

  function ResumedState(s: TaskState, local: NodeId): StateResult {
    if s.owner != local then Err(NotOwner)
    else if !s.status.Paused? then Err(WrongStatus)
    else Ok(s.(status := Running))
  }

  function StoppedState(s: TaskState): TaskState {
    if s.status.Completed? then s else s.(status := Stopped)
  }

  function FailedState(s: TaskState): TaskState {
    s.(status := Failed)
  }

  function CompletedState(s: TaskState, local: NodeId): StateResult {
    if s.owner != local then Err(NotOwner) else Ok(s.(status := Completed))
  }

  function MigratingState(s: TaskState, local: NodeId, m: MigrationId): StateResult {
    if s.owner != local then Err(NotOwner)
    else if s.status.Completed? then Err(AlreadyCompleted)
    else Ok(s.(status := Migrating, lastMigration := Some(m)))
  }

  function ClaimedState(s: TaskState, local: NodeId, generation: nat, m: MigrationId): StateResult {
    if generation < s.generation then Err(StaleGeneration)
    else Ok(TaskState(local, generation, Stopped, Some(m)))
  }

  function RemoteState(s: TaskState, owner: NodeId, generation: nat, m: MigrationId): TaskState {
    if s.generation == generation && s.owner == owner && s.status.Completed? then s
    else TaskState(owner, generation, Remote, Some(m))
  }

  function RestoredState(s: TaskState, local: NodeId, generation: nat): TaskState {
    s.(owner := local, generation := generation, status := Stopped)
  }

  predicate Accepts(s: TaskState, u: OwnershipUpdate) {
    && u.generation >= s.generation
    && (u.generation == s.generation ==> u.owner == s.owner)
    && (u.generation == s.generation && s.status.Completed? ==> u.completed)
  }

  /** The state after an ownership update reaches node `local`. */
  function OwnershipApplied(s: TaskState, local: NodeId, u: OwnershipUpdate): TaskState {
    if !Accepts(s, u) then s
    else
      var status :=
        if u.completed then Completed
        else if u.owner != local then Remote
        else s.status;
      TaskState(u.owner, u.generation, status, if u.migration.Some? then u.migration else s.lastMigration)
  }
}
