/** Every step of the protocol keeps the invariant. */
module MigrationSteps {
  import opened Common
  import opened Registry
  import opened MigrationProtocol
  import opened MigrationSafety

  // ---------- What the invariant says about one node, one migration ----------

  lemma Facts(w: World)
    requires Invariant(w)
    ensures w.history.holder in w.registry && w.registry.Keys == w.op.Keys
    ensures NotesKnown(w.journals) && LeasesMatch(w.journals, w.lease)
    ensures QuietWhilePending(w.journals, Live(w, w.history.holder))
  {
    hide EntrySound, Path, AttemptSound, OperationSound;
  }

  lemma MigrationFacts(w: World, m: MigrationId)
    requires Invariant(w) && m in w.journals.source
    ensures AttemptSound(w.journals, w.history, m)
    ensures w.journals.source[m].source in w.registry && w.journals.source[m].destination in w.registry
  {
    hide EntrySound, Path, OperationSound;
  }

  lemma NodeFacts(w: World, n: NodeId)
    requires Invariant(w) && n in w.op
    ensures n in w.registry
    ensures OperationSound(w.journals, w.history, n, w.registry[n], w.op[n])
    ensures EntrySound(w.journals, w.history, n, w.registry[n])
    ensures !w.op[n].Idle? ==> w.op[n].m in w.journals.source && AttemptSound(w.journals, w.history, w.op[n].m)
  {
    hide EntrySound, Path;
  }

  /** With one open attempt, which cannot commit, nothing can. */
  lemma NothingPending(w: World, m: MigrationId)
    requires Invariant(w) && OpenAttempt(w.journals, m) && !MayCommit(w.journals, m)
    ensures forall k | k in w.journals.source :: !MayCommit(w.journals, k)
  {
    hide EntrySound, Path, OperationSound;
    forall k | k in w.journals.source ensures !MayCommit(w.journals, k) {
      assert AttemptSound(w.journals, w.history, k);
    }
  }

  /** The holder never carries an unfinished claim: every claim pending leaves from it. */
  lemma HolderCarriesNoClaim(w: World)
    requires Invariant(w)
    ensures w.history.holder in w.registry && w.registry[w.history.holder].generation <= |w.history.hops|
    ensures SafeOriginal(w.journals, w.history, w.history.holder, w.registry[w.history.holder])
  {
    hide Invariant;
    Facts(w);
    NodeFacts(w, w.history.holder);
    var s := w.registry[w.history.holder];
    if s.lastMigration.Some? {
      MigrationFacts(w, s.lastMigration.value);
    }
  }

  // ---------- Three shapes of step ----------

  lemma OpStep(w: World, n: NodeId, o: Operation)
    requires Invariant(w) && n in w.registry
    requires OperationSound(w.journals, w.history, n, w.registry[n], o)
    ensures Invariant(WithOp(w, n, o))
  {
    hide AttemptSound, EntrySound, OperationSound, Path;
    OpWrite(w, n, o);
  }

  lemma StateStep(w: World, n: NodeId, s: TaskState, o: Operation)
    requires Invariant(w) && n in w.registry
    requires Restorable(w.journals, w.history, n, s)
    requires OperationSound(w.journals, w.history, n, s, o)
    ensures Invariant(WithOp(WithState(w, n, s), n, o))
  {
    hide AttemptSound, EntrySound, OperationSound, Path;
    StateWrite(w, n, s);
    OpWrite(WithState(w, n, s), n, o);
  }

  lemma JournalStep(w: World, j': Journals, m: MigrationId, n: NodeId, o: Operation)
    requires Invariant(w) && n in w.registry && Admissible(w, j', w.history, m, n)
    requires QuietWhilePending(j', Live(w, w.history.holder))
    requires EntrySound(j', w.history, n, w.registry[n]) && LeasesMatch(j', w.lease)
    requires OperationSound(j', w.history, n, w.registry[n], o)
    ensures Invariant(WithOp(w.(journals := j'), n, o))
  {
    hide AttemptSound, EntrySound, OperationSound, Path;
    JournalWrite(w, j', m, n);
    PathKept(w.journals, j', w.history, m);
    OpWrite(w.(journals := j'), n, o);
  }

  lemma LeaseStep(w: World, lease: map<MigrationId, Lease>)
    requires Invariant(w) && LeasesMatch(w.journals, lease)
    ensures Invariant(w.(lease := lease))
  {
    hide AttemptSound, EntrySound, OperationSound, Path;
  }

  /** A write about `m` that keeps every unfinished claim leaves the writer's own entry sound. */
  lemma OwnEntryKept(w: World, j': Journals, m: MigrationId, n: NodeId)
    requires Invariant(w) && n in w.registry && n in w.op && ChangesOnly(w.journals, j', m)
    requires m in w.journals.source && ActivatingAt(w.journals, m) ==> ActivatingAt(j', m) || m in w.history.hops
    ensures EntrySound(j', w.history, n, w.registry[n])
  {
    hide Invariant, EntrySound;
    Facts(w);
    NodeFacts(w, n);
    if m in w.journals.source {
      MigrationFacts(w, m);
    }
    EntryKept(w.journals, j', w.history, m, n, w.registry[n]);
  }

  lemma StatusKeepsAttempt(j: Journals, j': Journals, h: History, m: MigrationId, status: RecordStatus)
    requires m in j.source && AttemptSound(j, h, m) && j' == SourceLogged(j, m, j.source[m].(status := status))
    requires Unresolved(j, m) || status.Activated?
    requires status.Activated? ==> m in h.hops
    requires status.RolledBack? ==> !MayCommit(j, m) && !Committed(j, m)
    requires status.Preparing? || status.Transferring? ==> m !in j.sent
    ensures AttemptSound(j', h, m)
    ensures MayCommit(j', m) == MayCommit(j, m)
    ensures OpenAttempt(j', m) ==> OpenAttempt(j, m)
    ensures DestinationSideKept(j, j', m)
  {
  }

  /** A source writes a new status for its own record. */
  lemma SourceLogStep(w: World, n: NodeId, m: MigrationId, status: RecordStatus, o: Operation)
    requires Invariant(w) && n in w.registry && m in w.journals.source && w.journals.source[m].source == n
    requires Unresolved(w.journals, m) || status.Activated?
    requires status.Activated? ==> m in w.history.hops
    requires status.RolledBack? ==> !MayCommit(w.journals, m) && !Committed(w.journals, m)
    requires status.Preparing? || status.Transferring? ==> m !in w.journals.sent
    requires OperationSound(WithSourceStatus(w, m, status).journals, w.history, n, w.registry[n], o)
    ensures Invariant(WithOp(WithSourceStatus(w, m, status), n, o))
  {
    hide Invariant, OperationSound, AttemptSound, EntrySound;
    var j' := WithSourceStatus(w, m, status).journals;
    Facts(w);
    MigrationFacts(w, m);
    StatusKeepsAttempt(w.journals, j', w.history, m, status);
    assert Admissible(w, j', w.history, m, n);
    assert forall k | k in j'.source :: MayCommit(j', k) == MayCommit(w.journals, k);
    OwnEntryKept(w, j', m, n);
    hide Admissible;
    JournalStep(w, j', m, n, o);
  }

  /** Before the handover is logged, no request is out. */
  lemma NothingSent(w: World, m: MigrationId)
    requires Invariant(w) && m in w.journals.source
    requires w.journals.source[m].status.Preparing? || w.journals.source[m].status.Transferring?
    ensures m !in w.journals.sent && m !in w.journals.destination && !MayCommit(w.journals, m)
  {
    hide Invariant;
    MigrationFacts(w, m);
  }

  // ---------- The source ----------

  /** A live node with nothing undecided is the holder, and no attempt is open anywhere. */
  lemma NothingOpen(w: World, n: NodeId)
    requires Invariant(w) && n in w.op && Live(w, n) && SafeToBegin(w.journals, n)
    ensures n == w.history.holder && w.registry[n].generation == |w.history.hops|
    ensures SafeOriginal(w.journals, w.history, n, w.registry[n])
    ensures forall k | k in w.journals.source :: !OpenAttempt(w.journals, k)
  {
    hide Invariant, OperationSound;
    NodeFacts(w, n);
    var s := w.registry[n];
    if s.lastMigration.Some? {
      MigrationFacts(w, s.lastMigration.value);
    }
    forall k | k in w.journals.source ensures !OpenAttempt(w.journals, k) {
      MigrationFacts(w, k);
    }
  }

  lemma BeginSafe(w: World, n: NodeId, m: MigrationId, d: NodeId)
    requires Invariant(w) && n in w.op && n in w.registry && d in w.registry && n != d && m !in w.journals.source
    requires Live(w, n) && SafeToBegin(w.journals, n) && m in w.lease
    ensures var r := SourceRecord(n, d, w.registry[n].generation + 1, Preparing, w.registry[n]);
            Invariant(WithOp(w.(journals := SourceLogged(w.journals, m, r)), n, Sourcing(m, Prepared)))
  {
    hide Invariant, EntrySound;
    var j' := SourceLogged(w.journals, m, SourceRecord(n, d, w.registry[n].generation + 1, Preparing, w.registry[n]));
    Facts(w);
    NothingOpen(w, n);
    HopsWereBegun(w);
    OwnEntryKept(w, j', m, n);
    assert Admissible(w, j', w.history, m, n);
    hide Admissible, AttemptSound, SafeToBegin;
    JournalStep(w, j', m, n, Sourcing(m, Prepared));
  }

  lemma NeverReserved(w: World, m: MigrationId)
    requires Invariant(w) && m !in w.journals.source
    ensures m !in w.journals.reserved
  {
    hide Invariant;
    Facts(w);
  }

  lemma HopsWereBegun(w: World)
    requires Invariant(w)
    ensures forall m | m in w.history.hops :: m in w.journals.source
  {
    hide Core, OperationsSound;
    forall m | m in w.history.hops ensures m in w.journals.source {
      var i :| 0 <= i < |w.history.hops| && w.history.hops[i] == m;
      assert HopSound(w.journals, w.history, i);
    }
  }

  /** Every status a migrating source may log next. */
  lemma SourceLogSafe(w: World, n: NodeId, m: MigrationId, stage: MigrateStage, status: RecordStatus, next: Operation)
    requires Invariant(w) && n in w.op && w.op[n] == Sourcing(m, stage)
    requires || (stage.Prepared? && status.RolledBack? && next.Idle?)
             || (stage.Marked? && status.Transferring? && next == Sourcing(m, Quiescing))
             || (stage.Quiesced? && status.Handover? && next == Sourcing(m, Sending))
             || (stage.AwaitingReply? && status.Uncertain? && next == Sourcing(m, Resolving))
    ensures m in w.journals.source && Invariant(WithOp(WithSourceStatus(w, m, status), n, next))
  {
    hide Invariant, EntrySound, AttemptSound;
    NodeFacts(w, n);
    if !stage.AwaitingReply? {
      NothingSent(w, m);
    }
    SourceLogStep(w, n, m, status, next);
  }

  lemma MarkSafe(w: World, n: NodeId, m: MigrationId, s: TaskState)
    requires Invariant(w) && n in w.op && w.op[n] == Sourcing(m, Prepared) && n in w.registry
    requires MigratingState(w.registry[n], n, m) == Ok(s)
    ensures Invariant(WithOp(WithState(w, n, s), n, Sourcing(m, Marked)))
  {
    hide Invariant;
    NodeFacts(w, n);
    HolderCarriesNoClaim(w);
    StateStep(w, n, s, Sourcing(m, Marked));
  }

  lemma StopSourceSafe(w: World, n: NodeId, m: MigrationId)
    requires Invariant(w) && n in w.op && w.op[n] == Sourcing(m, Quiescing) && n in w.registry
    ensures Invariant(WithOp(WithState(w, n, StoppedState(w.registry[n])), n, Sourcing(m, Quiesced)))
  {
    hide Invariant, AttemptSound;
    NodeFacts(w, n);
    StateStep(w, n, StoppedState(w.registry[n]), Sourcing(m, Quiesced));
  }

  lemma SendSafe(w: World, n: NodeId, m: MigrationId)
    requires Invariant(w) && n in w.op && w.op[n] == Sourcing(m, Sending)
    ensures Invariant(WithOp(w.(journals := w.journals.(sent := w.journals.sent + {m})), n, Sourcing(m, AwaitingReply)))
  {
    hide Invariant, EntrySound;
    var j' := w.journals.(sent := w.journals.sent + {m});
    Facts(w);
    NodeFacts(w, n);
    MigrationFacts(w, m);
    OwnEntryKept(w, j', m, n);
    assert Admissible(w, j', w.history, m, n);
    hide Admissible;
    JournalStep(w, j', m, n, Sourcing(m, AwaitingReply));
  }

  /** An exception before the request is out. */
  lemma AbortSafe(w: World, n: NodeId, m: MigrationId, restart: bool)
    requires Invariant(w) && n in w.op && w.op[n].Sourcing? && w.op[n].m == m
    requires !w.op[n].stage.AwaitingReply? && !w.op[n].stage.Resolving?
    ensures Invariant(WithOp(w, n, Restoring(m, RestoreState, false, restart)))
  {
    hide Invariant, EntrySound;
    NodeFacts(w, n);
    OpStep(w, n, Restoring(m, RestoreState, false, restart));
  }

  lemma ReplyActivatedSafe(w: World, n: NodeId, m: MigrationId)
    requires Invariant(w) && n in w.op && w.op[n] == Sourcing(m, AwaitingReply) && Committed(w.journals, m)
    ensures Invariant(WithOp(w, n, Finalizing(m, false)))
  {
    hide Invariant, EntrySound;
    NodeFacts(w, n);
    OpStep(w, n, Finalizing(m, false));
  }

  lemma ReplyRejectedSafe(w: World, n: NodeId, m: MigrationId)
    requires Invariant(w) && n in w.op && w.op[n] == Sourcing(m, AwaitingReply) && Rejected(w.journals, m)
    ensures Invariant(WithOp(w, n, Restoring(m, RestoreState, false, true)))
  {
    hide Invariant, EntrySound, AttemptSound;
    NodeFacts(w, n);
    OpStep(w, n, Restoring(m, RestoreState, false, true));
  }

  lemma AbsenceSafe(w: World, n: NodeId, m: MigrationId)
    requires Invariant(w) && n in w.registry && Unresolved(w.journals, m) && w.journals.source[m].source == n
    requires m !in w.journals.destination && n in w.op
    ensures Invariant(WithOp(w.(journals := w.journals.(absent := w.journals.absent + {m})), n,
                             Restoring(m, RestoreState, true, true)))
  {
    hide Invariant, EntrySound;
    var j' := w.journals.(absent := w.journals.absent + {m});
    Facts(w);
    MigrationFacts(w, m);
    OwnEntryKept(w, j', m, n);
    assert Admissible(w, j', w.history, m, n);
    hide Admissible, AttemptSound;
    JournalStep(w, j', m, n, Restoring(m, RestoreState, true, true));
  }

  lemma AnswerSafe(w: World, n: NodeId, m: MigrationId)
    requires Invariant(w) && n in w.registry && n in w.op
    requires Unresolved(w.journals, m) && w.journals.source[m].source == n
    ensures Committed(w.journals, m) ==> Invariant(WithOp(w, n, Finalizing(m, false)))
    ensures Rejected(w.journals, m) ==> Invariant(WithOp(w, n, Restoring(m, RestoreState, true, true)))
  {
    hide Invariant, EntrySound;
    MigrationFacts(w, m);
    if Committed(w.journals, m) {
      OpStep(w, n, Finalizing(m, false));
    } else if Rejected(w.journals, m) {
      OpStep(w, n, Restoring(m, RestoreState, true, true));
    }
  }

  /** A poll that reached the destination and found no activation under way. */
  lemma DecideSafe(w: World, n: NodeId, m: MigrationId)
    requires Invariant(w) && n in w.registry && n in w.op
    requires Unresolved(w.journals, m) && w.journals.source[m].source == n && !ActivatingAt(w.journals, m)
    ensures Invariant(Decide(w, n, m))
  {
    hide Invariant;
    MigrationFacts(w, m);
    if m !in w.journals.destination {
      AbsenceSafe(w, n, m);
    } else {
      AnswerSafe(w, n, m);
    }
  }

  lemma GiveUpSafe(w: World, n: NodeId, m: MigrationId)
    requires Invariant(w) && n in w.op && w.op[n] == Sourcing(m, Resolving) && n in w.registry
    ensures Invariant(WithOp(WithState(w, n, FailedState(w.registry[n])), n, Idle))
  {
    hide Invariant, AttemptSound;
    NodeFacts(w, n);
    StateStep(w, n, FailedState(w.registry[n]), Idle);
  }

  lemma FinalizeMarkSafe(w: World, n: NodeId, m: MigrationId)
    requires Invariant(w) && n in w.op && w.op[n] == Finalizing(m, false) && n in w.registry && m in w.journals.source
    ensures var r := w.journals.source[m];
            Invariant(WithOp(WithState(w, n, RemoteState(w.registry[n], r.destination, r.generation, m)),
                             n, Finalizing(m, true)))
  {
    hide Invariant;
    NodeFacts(w, n);
    var r := w.journals.source[m];
    StateStep(w, n, RemoteState(w.registry[n], r.destination, r.generation, m), Finalizing(m, true));
  }

  lemma FinalizeLogSafe(w: World, n: NodeId, m: MigrationId)
    requires Invariant(w) && n in w.op && w.op[n] == Finalizing(m, true) && m in w.journals.source
    ensures Invariant(WithOp(WithSourceStatus(w, m, Activated), n, Idle))
  {
    hide Invariant, EntrySound, AttemptSound;
    NodeFacts(w, n);
    SourceLogStep(w, n, m, Activated, Idle);
  }

  lemma RestoreStateSafe(w: World, n: NodeId, m: MigrationId, base: TaskState, next: Operation)
    requires Invariant(w) && n in w.op && n in w.registry && m in w.journals.source
    requires w.op[n].Restoring? && w.op[n].m == m && w.op[n].restore.RestoreState?
    requires base == w.journals.source[m].original || base == w.registry[n]
    requires next.Restoring? && next.m == m && !next.restore.RestoreState?
    ensures w.journals.source[m].generation >= 1
    ensures Invariant(WithOp(WithState(w, n, RestoredState(base, n, w.journals.source[m].generation - 1)), n, next))
  {
    hide Invariant;
    NodeFacts(w, n);
    HolderCarriesNoClaim(w);
    StateStep(w, n, RestoredState(base, n, w.journals.source[m].generation - 1), next);
  }

  lemma RestartSafe(w: World, n: NodeId, m: MigrationId, healthy: bool, next: Operation)
    requires Invariant(w) && n in w.op && n in w.registry
    requires w.op[n].Restoring? && w.op[n].m == m && w.op[n].restore.RestartTask?
    requires next.Restoring? && next.m == m && next.restore.LogRestored?
    ensures Invariant(WithOp(WithState(w, n, StartOutcome(w.registry[n], n, healthy)), n, next))
  {
    hide Invariant;
    NodeFacts(w, n);
    NothingPending(w, m);
    StateStep(w, n, StartOutcome(w.registry[n], n, healthy), next);
  }

  lemma LogRestoredSafe(w: World, n: NodeId, m: MigrationId)
    requires Invariant(w) && n in w.op && m in w.journals.source
    requires w.op[n].Restoring? && w.op[n].m == m
    ensures Invariant(WithOp(WithSourceStatus(w, m, RolledBack), n, Idle))
  {
    hide Invariant, EntrySound, AttemptSound;
    NodeFacts(w, n);
    SourceLogStep(w, n, m, RolledBack, Idle);
  }

  /** A registry at the destination's owner and generation proves the hop. */
  lemma RemoteImpliesHop(w: World, m: MigrationId)
    requires Invariant(w) && m in w.journals.source && Unresolved(w.journals, m)
    requires var r := w.journals.source[m];
             r.source in w.registry && w.registry[r.source].generation >= r.generation
    ensures m in w.history.hops
  {
    hide Invariant;
    var r := w.journals.source[m];
    MigrationFacts(w, m);
    Facts(w);
    NodeFacts(w, r.source);
    if !Committed(w.journals, m) {
      var k := w.registry[r.source].lastMigration.value;
      MigrationFacts(w, k);
    }
  }

  /** What source reconciliation may log for an idle node's unresolved record. */
  lemma ReconcileLogSafe(w: World, n: NodeId, m: MigrationId, status: RecordStatus)
    requires Invariant(w) && Unresolved(w.journals, m) && w.journals.source[m].source == n && IdleAt(w, n)
    requires status.Uncertain? || (status.Activated? && m in w.history.hops)
             || (status.RolledBack? && !MayCommit(w.journals, m) && !Committed(w.journals, m))
    ensures Invariant(WithSourceStatus(w, m, status))
  {
    hide Invariant;
    SourceLogStep(w, n, m, status, Idle);
    assert WithOp(WithSourceStatus(w, m, status), n, Idle).op == w.op;
  }

  // ---------- The destination ----------

  /** The registry entry a destination may snapshot before its first write for `m`. */
  lemma SnapshotSafe(w: World, m: MigrationId)
    requires Invariant(w) && m in w.journals.source && OpenAttempt(w.journals, m)
    requires w.journals.source[m].destination in w.registry
    requires var r := w.journals.source[m]; !Claims(w.registry[r.destination], r.destination, m, r.generation)
    ensures SafeSnapshot(w.journals, w.history, w.journals.source[m].destination,
                         w.registry[w.journals.source[m].destination])
  {
    hide Invariant;
    var d := w.journals.source[m].destination;
    var s := w.registry[d];
    Facts(w);
    MigrationFacts(w, m);
    NodeFacts(w, d);
    if s.lastMigration.Some? {
      var k := s.lastMigration.value;
      if PendingClaim(w.journals, d, s, k) {
        MigrationFacts(w, k);
        if k !in w.history.hops {
          OnlyOpenAttempt(w, m, k);
        }
      }
    }
  }

  lemma OnlyOpenAttempt(w: World, m: MigrationId, k: MigrationId)
    requires Invariant(w) && m in w.journals.source && k in w.journals.source
    requires OpenAttempt(w.journals, m) && OpenAttempt(w.journals, k)
    ensures m == k
  {
    hide AttemptSound, EntrySound, OperationSound, Path, OpenAttempt, QuietWhilePending;
  }

  /** The attempt may commit already, or its source will not notice that it may again. */
  predicate Acceptable(w: World, m: MigrationId) {
    && m in w.journals.source && m in w.journals.sent && OpenAttempt(w.journals, m)
    && (Pending(w.journals, m) || SourceQuiet(w, m))
  }

  /** Accepting opens the one attempt there is, while the holder is quiet. */
  lemma AcceptKeepsQuiet(w: World, m: MigrationId, original: TaskState)
    requires Invariant(w) && Acceptable(w, m)
    ensures QuietWhilePending(WithDestination(w, m, Handover, original).journals, Live(w, w.history.holder))
  {
    hide Invariant;
    var j' := WithDestination(w, m, Handover, original).journals;
    Facts(w);
    MigrationFacts(w, m);
    assert forall k | k in j'.source && k != m :: MayCommit(j', k) == MayCommit(w.journals, k);
  }

  lemma AcceptSafe(w: World, m: MigrationId, d: NodeId, original: TaskState, before: TaskState)
    requires Invariant(w) && Acceptable(w, m)
    requires d == w.journals.source[m].destination && d in w.registry
    requires SafeSnapshot(w.journals, w.history, d, original)
    requires SafeSnapshot(w.journals, w.history, d, before)
    ensures Invariant(WithOp(WithDestination(w, m, Handover, original), d, Activating(m, Reserving, before)))
  {
    hide Invariant, EntrySound;
    var j' := WithDestination(w, m, Handover, original).journals;
    Facts(w);
    MigrationFacts(w, m);
    OwnEntryKept(w, j', m, d);
    AcceptKeepsQuiet(w, m, original);
    assert Admissible(w, j', w.history, m, d);
    hide QuietWhilePending;
    JournalStep(w, j', m, d, Activating(m, Reserving, before));
  }

  /** A repeat of a migration its source has resolved is taken up again, but its lease is spent for good. */
  lemma LateAcceptSafe(w: World, m: MigrationId, d: NodeId)
    requires Invariant(w) && m in w.journals.source && m in w.journals.destination && m in w.history.hops
    requires d == w.journals.source[m].destination && d in w.registry && !Unresolved(w.journals, m)
    ensures Invariant(WithOp(WithDestination(w, m, Handover, w.journals.destination[m].original), d,
                             Activating(m, Reserving, w.registry[d])))
  {
    hide Invariant, EntrySound, SafeSnapshot, SafeOriginal;
    var j' := WithDestination(w, m, Handover, w.journals.destination[m].original).journals;
    Facts(w);
    MigrationFacts(w, m);
    NodeFacts(w, d);
    OwnEntryKept(w, j', m, d);
    RecordKeepsAttempt(w.journals, j', w.history, m, Handover);
    assert Admissible(w, j', w.history, m, d);
    assert forall k | k in j'.source :: MayCommit(j', k) == MayCommit(w.journals, k);
    JournalStep(w, j', m, d, Activating(m, Reserving, w.registry[d]));
  }

  /** The destination's record of `m` gets a new status. */
  lemma RecordKeepsAttempt(j: Journals, j': Journals, h: History, m: MigrationId, status: RecordStatus)
    requires m in j.source && m in j.destination && AttemptSound(j, h, m)
    requires j' == DestinationLogged(j, m, j.destination[m].(status := status))
    requires (status.RolledBack? && ActivatingAt(j, m)) || (status.Handover? && m in h.hops && !Unresolved(j, m))
    ensures AttemptSound(j', h, m)
  {
  }

  lemma CommitSafe(w: World, m: MigrationId, o: Operation)
    requires Invariant(w) && m in w.journals.source && MayCommit(w.journals, m) && o.Idle?
    requires var r := w.journals.source[m];
             r.destination in w.registry && PendingClaim(w.journals, r.destination, w.registry[r.destination], m)
    ensures Invariant(WithOp(WithCommit(w, m, w.journals.destination[m].original),
                             w.journals.source[m].destination, o))
  {
    hide EntrySound, OperationSound, Path, JournalsSound, EntriesSound, QuietWhilePending;
    var d, original := w.journals.source[m].destination, w.journals.destination[m].original;
    MigrationFacts(w, m);
    hide AttemptSound;
    CommitWrite(w, m, original);
    CommitAdmissible(w, m, original);
    OpenIsNoHop(w, m);
    OpWrite(Commit(w, m, original), d, o);
  }

  /** Logging ACTIVATED for what is already a hop. */
  lemma RecommitSafe(w: World, m: MigrationId)
    requires Invariant(w) && m in w.journals.source && m in w.journals.destination && m in w.history.hops
    requires IdleAt(w, w.journals.source[m].destination)
    ensures Invariant(WithCommit(w, m, w.journals.destination[m].original))
  {
    hide Invariant, EntrySound;
    var d, original := w.journals.source[m].destination, w.journals.destination[m].original;
    var j' := WithDestination(w, m, Activated, original).journals;
    Facts(w);
    MigrationFacts(w, m);
    OwnEntryKept(w, j', m, d);
    assert Admissible(w, j', w.history, m, d);
    assert forall k | k in j'.source :: MayCommit(j', k) ==> MayCommit(w.journals, k);
    JournalStep(w, j', m, d, Idle);
    assert WithOp(w.(journals := j'), d, Idle).op == w.op;
  }

  lemma ReserveSafe(w: World, n: NodeId, m: MigrationId, before: TaskState)
    requires Invariant(w) && n in w.op && w.op[n] == Activating(m, Reserving, before)
    requires m in w.lease && w.lease[m].Granted?
    ensures m in w.journals.source
    ensures Invariant(WithOp(w.(journals := w.journals.(reserved := w.journals.reserved + {m}),
                                lease := w.lease[m := InUse]), n, Activating(m, Claiming, before)))
  {
    hide Invariant, EntrySound;
    var used := w.(lease := w.lease[m := InUse]);
    var j' := w.journals.(reserved := w.journals.reserved + {m});
    Facts(w);
    NodeFacts(w, n);
    LeaseStep(w, used.lease);
    OwnEntryKept(used, j', m, n);
    assert Admissible(used, j', used.history, m, n);
    assert forall k | k in j'.source :: MayCommit(j', k) == MayCommit(w.journals, k);
    JournalStep(used, j', m, n, Activating(m, Claiming, before));
  }

  lemma ConsumeSafe(w: World, n: NodeId, m: MigrationId, before: TaskState)
    requires Invariant(w) && n in w.op && w.op[n] == Activating(m, Consuming, before)
    ensures Invariant(WithOp(w, n, Activating(m, LogActivation, before)))
  {
    hide Invariant, EntrySound, AttemptSound;
    NodeFacts(w, n);
    OpStep(w, n, Activating(m, LogActivation, before));
  }

  lemma ClaimSafe(w: World, n: NodeId, m: MigrationId, before: TaskState, s: TaskState)
    requires Invariant(w) && n in w.op && w.op[n] == Activating(m, Claiming, before) && n in w.registry
    requires m in w.journals.source && ClaimedState(w.registry[n], n, w.journals.source[m].generation, m) == Ok(s)
    ensures Invariant(WithOp(WithState(w, n, s), n, Activating(m, Starting, before)))
  {
    hide Invariant;
    NodeFacts(w, n);
    StateStep(w, n, s, Activating(m, Starting, before));
  }

  lemma StartSafe(w: World, n: NodeId, m: MigrationId, before: TaskState, s: TaskState)
    requires Invariant(w) && n in w.op && w.op[n] == Activating(m, Starting, before) && n in w.registry
    requires Started(w.registry[n], n) == Ok(s)
    ensures Invariant(WithOp(WithState(w, n, s), n, Activating(m, Consuming, before)))
  {
    hide Invariant;
    NodeFacts(w, n);
    StateStep(w, n, s, Activating(m, Consuming, before));
  }

  /** A failure writes at most FAILED, and only once the claim is made. */
  lemma UndoBegins(w: World, n: NodeId, m: MigrationId, before: TaskState, undo: UndoStage)
    requires Invariant(w) && n in w.op && w.op[n].Activating? && w.op[n].m == m && w.op[n].before == before
    requires n in w.registry && !undo.UndoLog?
    ensures Invariant(WithOp(w, n, Undoing(m, undo, before)))
    ensures !w.op[n].activate.Reserving? && !w.op[n].activate.Claiming? ==>
              Invariant(WithOp(WithState(w, n, FailedState(w.registry[n])), n, Undoing(m, undo, before)))
  {
    hide Invariant, SafeSnapshot, AttemptSound;
    NodeFacts(w, n);
    OpStep(w, n, Undoing(m, undo, before));
    if !w.op[n].activate.Reserving? && !w.op[n].activate.Claiming? {
      StateStep(w, n, FailedState(w.registry[n]), Undoing(m, undo, before));
    }
  }

  lemma UndoStopSafe(w: World, n: NodeId, m: MigrationId, before: TaskState)
    requires Invariant(w) && n in w.op && w.op[n] == Undoing(m, UndoStop, before) && n in w.registry
    ensures Invariant(WithOp(WithState(w, n, StoppedState(w.registry[n])), n, Undoing(m, UndoRestore, before)))
  {
    hide Invariant, SafeSnapshot, AttemptSound;
    NodeFacts(w, n);
    StateStep(w, n, StoppedState(w.registry[n]), Undoing(m, UndoRestore, before));
  }

  lemma UndoRestoreSafe(w: World, n: NodeId, m: MigrationId, before: TaskState)
    requires Invariant(w) && n in w.op && w.op[n] == Undoing(m, UndoRestore, before) && n in w.registry
    ensures Invariant(WithOp(WithState(w, n, before), n, Undoing(m, UndoLog, before)))
  {
    hide Invariant, AttemptSound;
    NodeFacts(w, n);
    StateStep(w, n, before, Undoing(m, UndoLog, before));
  }

  lemma UndoLogSafe(w: World, n: NodeId, m: MigrationId, before: TaskState)
    requires Invariant(w) && n in w.op && w.op[n] == Undoing(m, UndoLog, before) && m in w.journals.destination
    ensures Invariant(WithOp(WithDestination(w, m, RolledBack, w.journals.destination[m].original), n, Idle))
  {
    hide Invariant;
    var j' := WithDestination(w, m, RolledBack, w.journals.destination[m].original).journals;
    Facts(w);
    NodeFacts(w, n);
    MigrationFacts(w, m);
    if m in w.history.hops {
      OwnEntryKept(w, j', m, n);
    }
    RecordKeepsAttempt(w.journals, j', w.history, m, RolledBack);
    hide AttemptSound;
    assert Admissible(w, j', w.history, m, n);
    assert forall k | k in j'.source :: MayCommit(j', k) ==> MayCommit(w.journals, k);
    hide Admissible;
    JournalStep(w, j', m, n, Idle);
  }

  /** A kept snapshot may be written back at any time. */
  lemma SnapshotIsRestorable(j: Journals, h: History, n: NodeId, s: TaskState)
    requires SafeSnapshot(j, h, n, s)
    ensures Restorable(j, h, n, s)
  {
  }

  /** Destination reconciliation of an unfinished activation that did not commit. */
  lemma ReconcileUndoSafe(w: World, m: MigrationId, d: NodeId, undo: UndoStage)
    requires Invariant(w) && m in w.journals.source && ActivatingAt(w.journals, m) && !undo.UndoLog?
    requires d == w.journals.source[m].destination && d in w.registry
    ensures Invariant(WithOp(w, d, Undoing(m, undo, w.journals.destination[m].original)))
  {
    hide Invariant, EntrySound;
    MigrationFacts(w, m);
    SnapshotIsRestorable(w.journals, w.history, d, w.journals.destination[m].original);
    OpStep(w, d, Undoing(m, undo, w.journals.destination[m].original));
  }

  // ---------- Messages, crashes and the task's own life ----------

  lemma CrashSafe(w: World, n: NodeId)
    requires Invariant(w) && n in w.op
    ensures Invariant(WithOp(w, n, Idle))
  {
    hide Invariant, EntrySound, AttemptSound;
    NodeFacts(w, n);
    OpStep(w, n, Idle);
  }

  /** A change of an entry that leaves its operation's evidence alone. */
  lemma OwnStateSafe(w: World, n: NodeId, s: TaskState)
    requires Invariant(w) && n in w.registry && n in w.op
    requires EntrySound(w.journals, w.history, n, s)
    requires IsLive(s) ==> IsLive(w.registry[n])
    requires OperationSound(w.journals, w.history, n, s, w.op[n])
    ensures Invariant(WithState(w, n, s))
  {
    hide Invariant, EntrySound, OperationSound;
    Facts(w);
    StateStep(w, n, s, w.op[n]);
    assert WithOp(WithState(w, n, s), n, w.op[n]).op == w.op;
  }

  /** News of a hop reaches a node. */
  lemma BroadcastSafe(w: World, m: MigrationId, to: NodeId)
    requires Invariant(w) && m in w.journals.source && m in w.history.hops && to in w.registry && to in w.op
    ensures var r := w.journals.source[m];
            Invariant(WithState(w, to, OwnershipApplied(
              w.registry[to], to, OwnershipUpdate(r.destination, r.generation, false, Some(m)))))
  {
    hide Invariant;
    var r := w.journals.source[m];
    var s := w.registry[to];
    var u := OwnershipUpdate(r.destination, r.generation, false, Some(m));
    NodeFacts(w, to);
    MigrationFacts(w, m);
    hide Restorable;
    OwnStateSafe(w, to, OwnershipApplied(s, to, u));
  }

  /** A live task pauses, resumes, completes or fails where it is. */
  lemma TaskEventSafe(w: World, n: NodeId, status: TaskStatus)
    requires Invariant(w) && n in w.registry && n in w.op && Live(w, n)
    ensures Invariant(WithState(w, n, w.registry[n].(status := status)))
  {
    hide Invariant;
    NodeFacts(w, n);
    OwnStateSafe(w, n, w.registry[n].(status := status));
  }
}
