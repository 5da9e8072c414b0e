/** What holds of the migration protocol in every run. */
module MigrationTheorems {
  import opened Common
  import opened Registry
  import opened MigrationProtocol
  import opened MigrationSafety
  import opened MigrationSteps

  lemma InitiallySound(w: World)
    requires Initial(w)
    ensures Invariant(w)
  {
  }

  lemma SourceStepKeepsInvariant(w: World, a: Action)
    requires Invariant(w) && Enabled(w, a) && Assumed(w, a)
    requires a.Begin? || a.PrefetchFails? || a.MarkMigrating? || a.LogTransferring? || a.StopSource? || a.LogHandover?
             || a.SendRequest? || a.Abort? || a.ReplyActivated? || a.ReplyRejected? || a.ReplyLost?
    ensures Invariant(Apply(w, a))
  {
    hide Invariant;
    match a {
      case Begin(n, m, d) =>
        NeverReserved(w, m);
        LeasesGranted(w, m);
        LeaseStep(w, w.lease[m := Granted]);
        BeginSafe(w.(lease := w.lease[m := Granted]), n, m, d);
      case PrefetchFails(n) => SourceLogSafe(w, n, w.op[n].m, Prepared, RolledBack, Idle);
      case MarkMigrating(n) =>
        match MigratingState(w.registry[n], n, w.op[n].m) {
          case Ok(s) => MarkSafe(w, n, w.op[n].m, s);
          case Err(_) => AbortSafe(w, n, w.op[n].m, false);
        }
      case LogTransferring(n) =>
        SourceLogSafe(w, n, w.op[n].m, Marked, Transferring, Sourcing(w.op[n].m, Quiescing));
      case StopSource(n) => StopSourceSafe(w, n, w.op[n].m);
      case LogHandover(n) => SourceLogSafe(w, n, w.op[n].m, Quiesced, Handover, Sourcing(w.op[n].m, Sending));
      case SendRequest(n) => SendSafe(w, n, w.op[n].m);
      case Abort(n) => AbortSafe(w, n, w.op[n].m, w.op[n].stage.Quiesced? || w.op[n].stage.Sending?);
      case ReplyActivated(n) => ReplyActivatedSafe(w, n, w.op[n].m);
      case ReplyRejected(n) => ReplyRejectedSafe(w, n, w.op[n].m);
      case ReplyLost(n) => SourceLogSafe(w, n, w.op[n].m, AwaitingReply, Uncertain, Sourcing(w.op[n].m, Resolving));
    }
  }

  lemma ResolutionKeepsInvariant(w: World, a: Action)
    requires Invariant(w) && Enabled(w, a)
    requires a.PollDecides? || a.PollGivesUp? || a.FinalizeStep? || a.RestoreStep? || a.ReconcileSource?
    ensures Invariant(Apply(w, a))
  {
    hide Invariant, EntrySound, AttemptSound;
    match a {
      case PollDecides(n) =>
        NodeFacts(w, n);
        DecideSafe(w, n, w.op[n].m);
      case PollGivesUp(n) => GiveUpSafe(w, n, w.op[n].m);
      case FinalizeStep(n) =>
        if w.op[n].remoteMarked {
          FinalizeLogSafe(w, n, w.op[n].m);
        } else {
          FinalizeMarkSafe(w, n, w.op[n].m);
        }
      case RestoreStep(n, healthy) =>
        var o := w.op[n];
        match o.restore {
          case RestoreState =>
            var next := o.(restore := if o.restart then RestartTask else LogRestored);
            var base := if o.fromJournal then w.journals.source[o.m].original else w.registry[n];
            RestoreStateSafe(w, n, o.m, base, next);
          case RestartTask => RestartSafe(w, n, o.m, healthy, o.(restore := LogRestored));
          case LogRestored => LogRestoredSafe(w, n, o.m);
        }
      case ReconcileSource(m, reached) =>
        var r := w.journals.source[m];
        var s := w.registry[r.source];
        if s.owner == r.destination && s.generation >= r.generation {
          RemoteImpliesHop(w, m);
          ReconcileLogSafe(w, r.source, m, Activated);
        } else if r.status.Preparing? && s.owner == r.source && !s.status.Migrating? {
          NothingSent(w, m);
          ReconcileLogSafe(w, r.source, m, RolledBack);
        } else if reached && !ActivatingAt(w.journals, m) {
          DecideSafe(w, r.source, m);
        } else {
          ReconcileLogSafe(w, r.source, m, Uncertain);
        }
    }
  }

  /** A fresh lease matches, as do leases of which some have ended. */
  lemma LeasesGranted(w: World, m: MigrationId)
    requires Invariant(w) && m !in w.journals.reserved
    ensures LeasesMatch(w.journals, w.lease[m := Granted])
  {
    hide Core, Path, OperationsSound;
  }

  lemma LeaseEnds(w: World, m: MigrationId, outcome: Lease)
    requires Invariant(w) && !outcome.Granted?
    ensures Invariant(w.(lease := w.lease[m := outcome])) && Invariant(WithLeaseEnded(w, m, outcome))
  {
    hide Core, Path, OperationsSound;
    var lease := w.lease[m := outcome];
    assert LeasesMatch(w.journals, lease);
    LeaseStep(w, lease);
  }

  lemma ReceiveKeepsInvariant(w: World, m: MigrationId)
    requires Invariant(w) && Enabled(w, Receive(m)) && Assumed(w, Receive(m))
    ensures Invariant(Apply(w, Receive(m)))
  {
    hide Invariant, SafeSnapshot, SafeOriginal;
    Facts(w);
    MigrationFacts(w, m);
    var r := w.journals.source[m];
    var d := r.destination;
    var s := w.registry[d];
    NodeFacts(w, d);
    hide Restorable;
    if Claims(s, d, m, r.generation) {
      if m in w.history.hops {
        RecommitSafe(w, m);
      } else {
        CommitSafe(w, m, Idle);
        assert WithOp(WithCommit(w, m, w.journals.destination[m].original), d, Idle).op == w.op;
      }
    } else if !Rejected(w.journals, m) {
      if Unresolved(w.journals, m) || m !in w.history.hops {
        SnapshotSafe(w, m);
        AcceptSafe(w, m, d, if m in w.journals.destination then w.journals.destination[m].original else s, s);
      } else {
        LateAcceptSafe(w, m, d);
      }
    }
  }

  lemma DestinationStepKeepsInvariant(w: World, a: Action)
    requires Invariant(w) && Enabled(w, a)
    requires a.ActivateStep? || a.ActivateFails? || a.UndoStep? || a.ReconcileDestination?
    ensures Invariant(Apply(w, a))
  {
    hide Invariant, EntrySound, AttemptSound;
    match a {
      case ActivateStep(n) => ActivateStepSafe(w, n);
      case ActivateFails(n) =>
        NodeFacts(w, n);
        UndoBegins(w, n, w.op[n].m, w.op[n].before, if w.op[n].activate.Consuming? then UndoStop else UndoRestore);
        assert WithState(w, n, w.registry[n]).registry == w.registry;
      case UndoStep(n) =>
        var m, before := w.op[n].m, w.op[n].before;
        match w.op[n].undo {
          case UndoStop => UndoStopSafe(w, n, m, before);
          case UndoRestore => UndoRestoreSafe(w, n, m, before);
          case UndoLog =>
            LeaseEnds(w, m, Void);
            UndoLogSafe(WithLeaseEnded(w, m, Void), n, m, before);
        }
      case ReconcileDestination(m) =>
        var r := w.journals.source[m];
        var s := w.registry[r.destination];
        if Claims(s, r.destination, m, r.generation) && (IsLive(s) || s.status.Completed?) {
          LeaseEnds(w, m, Spent);
          ReconcileCommitSafe(WithLeaseEnded(w, m, Spent), m);
        } else {
          var first := if Claims(s, r.destination, m, r.generation) then UndoStop else UndoRestore;
          ReconcileUndoSafe(w, m, r.destination, first);
        }
    }
  }

  /** Destination reconciliation of an activation whose claim is in place. */
  lemma ReconcileCommitSafe(w: World, m: MigrationId)
    requires Invariant(w) && m in w.journals.source && ActivatingAt(w.journals, m)
    requires var r := w.journals.source[m];
             IdleAt(w, r.destination) && Claims(w.registry[r.destination], r.destination, m, r.generation)
    ensures Invariant(WithCommit(w, m, w.journals.destination[m].original))
  {
    hide Invariant, SafeSnapshot, SafeOriginal;
    var d := w.journals.source[m].destination;
    MigrationFacts(w, m);
    NodeFacts(w, d);
    if m in w.history.hops {
      RecommitSafe(w, m);
    } else {
      CommitSafe(w, m, Idle);
      assert WithOp(WithCommit(w, m, w.journals.destination[m].original), d, Idle).op == w.op;
    }
  }

  lemma ActivateStepSafe(w: World, n: NodeId)
    requires Invariant(w) && Enabled(w, ActivateStep(n))
    ensures Invariant(ApplyActivate(w, n))
  {
    hide Invariant, EntrySound, AttemptSound;
    var m, before := w.op[n].m, w.op[n].before;
    NodeFacts(w, n);
    match w.op[n].activate {
      case Reserving =>
        ReserveSafe(w, n, m, before);
      case Claiming =>
        match ClaimedState(w.registry[n], n, w.journals.source[m].generation, m) {
          case Ok(s) => ClaimSafe(w, n, m, before, s);
          case Err(_) => UndoBegins(w, n, m, before, UndoRestore);
        }
      case Starting =>
        match Started(w.registry[n], n) {
          case Ok(s) => StartSafe(w, n, m, before, s);
          case Err(_) => UndoBegins(w, n, m, before, UndoRestore);
        }
      case Consuming =>
        ConsumeSafe(w, n, m, before);
        LeaseEnds(WithOp(w, n, Activating(m, LogActivation, before)), m, Spent);
      case LogActivation =>
        CommitSafe(w, m, Idle);
    }
  }

  lemma BackgroundKeepsInvariant(w: World, a: Action)
    requires Invariant(w) && Enabled(w, a)
    requires a.LeaseLapses? || a.Crash? || a.Broadcast? || a.TaskPauses? || a.TaskResumes? || a.TaskCompletes?
             || a.TaskFails?
    ensures Invariant(Apply(w, a))
  {
    hide Invariant;
    Facts(w);
    match a {
      case LeaseLapses(m) => LeaseEnds(w, m, Void);
      case Crash(n) => CrashSafe(w, n);
      case Broadcast(m, to) =>
        BroadcastSafe(w, m, to);
      case TaskPauses(n) => TaskEventSafe(w, n, Paused);
      case TaskResumes(n) => TaskEventSafe(w, n, Running);
      case TaskCompletes(n) => TaskEventSafe(w, n, Completed);
      case TaskFails(n) => TaskEventSafe(w, n, Failed);
    }
  }

  lemma StepKeepsInvariant(w: World, a: Action)
    requires Invariant(w) && Enabled(w, a) && Assumed(w, a)
    ensures Invariant(Apply(w, a))
  {
    hide Invariant, Apply, Enabled, Assumed;
    match a {
      case Begin(_, _, _) => SourceStepKeepsInvariant(w, a);
      case PrefetchFails(_) => SourceStepKeepsInvariant(w, a);
      case MarkMigrating(_) => SourceStepKeepsInvariant(w, a);
      case LogTransferring(_) => SourceStepKeepsInvariant(w, a);
      case StopSource(_) => SourceStepKeepsInvariant(w, a);
      case LogHandover(_) => SourceStepKeepsInvariant(w, a);
      case SendRequest(_) => SourceStepKeepsInvariant(w, a);
      case Abort(_) => SourceStepKeepsInvariant(w, a);
      case ReplyActivated(_) => SourceStepKeepsInvariant(w, a);
      case ReplyRejected(_) => SourceStepKeepsInvariant(w, a);
      case ReplyLost(_) => SourceStepKeepsInvariant(w, a);
      case PollDecides(_) => ResolutionKeepsInvariant(w, a);
      case PollGivesUp(_) => ResolutionKeepsInvariant(w, a);
      case FinalizeStep(_) => ResolutionKeepsInvariant(w, a);
      case RestoreStep(_, _) => ResolutionKeepsInvariant(w, a);
      case ReconcileSource(_, _) => ResolutionKeepsInvariant(w, a);
      case Receive(m) => ReceiveKeepsInvariant(w, m);
      case ActivateStep(_) => DestinationStepKeepsInvariant(w, a);
      case ActivateFails(_) => DestinationStepKeepsInvariant(w, a);
      case UndoStep(_) => DestinationStepKeepsInvariant(w, a);
      case ReconcileDestination(_) => DestinationStepKeepsInvariant(w, a);
      case LeaseLapses(_) => BackgroundKeepsInvariant(w, a);
      case Crash(_) => BackgroundKeepsInvariant(w, a);
      case Broadcast(_, _) => BackgroundKeepsInvariant(w, a);
      case TaskPauses(_) => BackgroundKeepsInvariant(w, a);
      case TaskResumes(_) => BackgroundKeepsInvariant(w, a);
      case TaskCompletes(_) => BackgroundKeepsInvariant(w, a);
      case TaskFails(_) => BackgroundKeepsInvariant(w, a);
    }
  }

  lemma {:induction false} RunKeepsInvariant(w: World, actions: seq<Action>, last: World)
    requires Invariant(w) && Run(w, actions, last)
    ensures Invariant(last)
    decreases |actions|
  {
    hide Invariant, Apply, Enabled, Assumed;
    if actions != [] {
      StepKeepsInvariant(w, actions[0]);
      RunKeepsInvariant(Apply(w, actions[0]), actions[1..], last);
    }
  }

  // ---------- What the protocol guarantees ----------

  /** At most one node has the task running or paused. */
  ghost predicate OneLiveOwner(w: World) {
    forall n, n' :: Live(w, n) && Live(w, n') ==> n == n'
  }

  /**
   A live node's generation is the number of hops, and the node is where the hops lead; during an activation
   that has not committed yet it is one more, and the hops' end is not live.
   */
  ghost predicate GenerationCountsHops(w: World) {
    forall n | Live(w, n) ::
      && w.registry[n].owner == n
      && (|| (w.registry[n].generation == |w.history.hops| && n == w.history.holder)
          || (w.registry[n].generation == |w.history.hops| + 1 && !Live(w, w.history.holder)
              && exists m :: m in w.journals.source && w.journals.source[m].destination == n
                             && ActivatingAt(w.journals, m)))
  }

  /**
   Both ends agree on what happened: what either journal calls ACTIVATED is a hop, and a destination says so
   for as long as the source may ask; what a source rolled back is no hop and never will be.
   */
  ghost predicate JournalsAgree(w: World) {
    forall m | m in w.journals.source ::
      && (w.journals.source[m].status.Activated? || Committed(w.journals, m) ==> m in w.history.hops)
      && (m in w.history.hops && Unresolved(w.journals, m) ==> Committed(w.journals, m))
      && (w.journals.source[m].status.RolledBack? ==> m !in w.history.hops && !Pending(w.journals, m))
      && (MayCommit(w.journals, m) ==> !Live(w, w.journals.source[m].source))
  }

  ghost predicate Guarantees(w: World) {
    OneLiveOwner(w) && GenerationCountsHops(w) && Path(w.journals, w.history) && JournalsAgree(w)
  }

  // ---------- They follow from the invariant ----------

  /** An entry past the last hop is the claim of the one open attempt, and meanwhile the holder is quiet. */
  lemma ClaimIsPending(w: World, n: NodeId)
    requires Invariant(w) && n in w.registry && w.registry[n].generation > |w.history.hops|
    ensures w.registry[n].lastMigration.Some?
    ensures var m := w.registry[n].lastMigration.value;
            && PendingClaim(w.journals, n, w.registry[n], m) && MayCommit(w.journals, m)
            && w.registry[n].generation == |w.history.hops| + 1
    ensures !Live(w, w.history.holder)
  {
    hide Invariant, OperationSound;
    Facts(w);
    NodeFacts(w, n);
    MigrationFacts(w, w.registry[n].lastMigration.value);
  }

  lemma OneClaimant(w: World, n: NodeId, n': NodeId)
    requires Invariant(w) && n in w.registry && n' in w.registry
    requires w.registry[n].generation > |w.history.hops| && w.registry[n'].generation > |w.history.hops|
    ensures n == n'
  {
    hide Invariant, OperationSound;
    ClaimIsPending(w, n);
    ClaimIsPending(w, n');
    OnlyOpenAttempt(w, w.registry[n].lastMigration.value, w.registry[n'].lastMigration.value);
  }

  lemma OneLive(w: World, n: NodeId, n': NodeId)
    requires Invariant(w) && Live(w, n) && Live(w, n')
    ensures n == n'
  {
    hide Invariant, OperationSound, PendingClaim;
    Facts(w);
    NodeFacts(w, n);
    NodeFacts(w, n');
    var hops := |w.history.hops|;
    if w.registry[n].generation > hops {
      ClaimIsPending(w, n);
      if w.registry[n'].generation > hops {
        OneClaimant(w, n, n');
      }
    } else if w.registry[n'].generation > hops {
      ClaimIsPending(w, n');
    }
  }

  lemma LiveCounts(w: World)
    requires Invariant(w)
    ensures OneLiveOwner(w) && GenerationCountsHops(w)
  {
    hide Invariant, OperationSound;
    Facts(w);
    forall n, n' | Live(w, n) && Live(w, n') ensures n == n' {
      OneLive(w, n, n');
    }
    forall n | Live(w, n)
      ensures w.registry[n].owner == n
      ensures || (w.registry[n].generation == |w.history.hops| && n == w.history.holder)
              || (w.registry[n].generation == |w.history.hops| + 1 && !Live(w, w.history.holder)
                  && exists m :: m in w.journals.source && w.journals.source[m].destination == n
                                 && ActivatingAt(w.journals, m))
    {
      NodeFacts(w, n);
      if w.registry[n].generation > |w.history.hops| {
        ClaimIsPending(w, n);
      }
    }
  }

  lemma InvariantGuarantees(w: World)
    requires Invariant(w)
    ensures Guarantees(w)
  {
    hide Core, OperationsSound;
    LiveCounts(w);
    hide Invariant, Path, OneLiveOwner, GenerationCountsHops;
    Facts(w);
    forall m | m in w.journals.source
      ensures w.journals.source[m].status.Activated? || Committed(w.journals, m) ==> m in w.history.hops
      ensures m in w.history.hops && Unresolved(w.journals, m) ==> Committed(w.journals, m)
      ensures w.journals.source[m].status.RolledBack? ==> m !in w.history.hops && !Pending(w.journals, m)
      ensures MayCommit(w.journals, m) ==> !Live(w, w.journals.source[m].source)
    {
      MigrationFacts(w, m);
    }
  }

  // ---------- The theorems ----------

  lemma RunsKeepGuarantees(w: World, actions: seq<Action>, last: World)
    requires Invariant(w) && Run(w, actions, last)
    ensures Guarantees(last)
  {
    hide Invariant, Run, Guarantees;
    RunKeepsInvariant(w, actions, last);
    InvariantGuarantees(last);
  }

  /** At most one node has the task running or paused, whatever was lost, repeated or restarted. */
  lemma SingleLiveOwner(start: World, actions: seq<Action>, w: World)
    requires Initial(start) && Run(start, actions, w)
    ensures forall n, n' :: Live(w, n) && Live(w, n') ==> n == n'
  {
    hide Invariant, Run, Live;
    InitiallySound(start);
    RunsKeepGuarantees(start, actions, w);
  }

  lemma LiveGenerationCountsHops(start: World, actions: seq<Action>, w: World)
    requires Initial(start) && Run(start, actions, w)
    ensures GenerationCountsHops(w)
  {
    hide Invariant, Run;
    InitiallySound(start);
    RunsKeepGuarantees(start, actions, w);
  }

  /** The hops form a path from the origin to the holder, and the i-th has generation i+1: no two share one. */
  lemma HopsFormAPath(start: World, actions: seq<Action>, w: World)
    requires Initial(start) && Run(start, actions, w)
    ensures forall i | 0 <= i < |w.history.hops| ::
              w.history.hops[i] in w.journals.source && w.journals.source[w.history.hops[i]].generation == i + 1
    ensures forall i | 1 <= i < |w.history.hops| ::
              w.journals.source[w.history.hops[i]].source == w.journals.source[w.history.hops[i - 1]].destination
    ensures w.history.hops != [] ==>
              && w.journals.source[w.history.hops[0]].source == w.history.origin
              && w.journals.source[w.history.hops[|w.history.hops| - 1]].destination == w.history.holder
  {
    hide Run, Core, OperationsSound;
    InitiallySound(start);
    RunKeepsInvariant(start, actions, w);
    var j, h := w.journals, w.history;
    forall i | 0 <= i < |h.hops| ensures h.hops[i] in j.source && j.source[h.hops[i]].generation == i + 1 {
      assert HopSound(j, h, i);
    }
    forall i | 1 <= i < |h.hops| ensures j.source[h.hops[i]].source == j.source[h.hops[i - 1]].destination {
      assert HopSound(j, h, i) && HopSound(j, h, i - 1);
    }
    if h.hops != [] {
      assert HopSound(j, h, 0) && HopSound(j, h, |h.hops| - 1);
    }
  }

  lemma EndsAgree(start: World, actions: seq<Action>, w: World)
    requires Initial(start) && Run(start, actions, w)
    ensures JournalsAgree(w)
  {
    hide Invariant, Run;
    InitiallySound(start);
    RunsKeepGuarantees(start, actions, w);
  }
}
