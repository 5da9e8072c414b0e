/** Safety of the migration protocol over every run: one live owner, and one generation per hop. */
module MigrationSafety {
  import opened Common
  import opened Registry
  import opened MigrationProtocol

  // ---------- The inductive invariant ----------

  /** Entry `s` of node `n` carries an unfinished claim of migration `m`. */
  predicate PendingClaim(j: Journals, n: NodeId, s: TaskState, m: MigrationId) {
    && m in j.source && m in j.reserved && ActivatingAt(j, m) && j.source[m].destination == n
    && Claims(s, n, m, j.source[m].generation)
  }

  /** A migration into `n` that `s` names is a hop, or is the unfinished claim that `s` carries. */
  predicate Accounted(j: Journals, h: History, n: NodeId, s: TaskState) {
    s.lastMigration.Some? ==>
      var m := s.lastMigration.value;
      m in j.source && (j.source[m].destination == n ==> m in h.hops || PendingClaim(j, n, s, m))
  }

  /** The same for a journalled snapshot, which carries no unfinished claim. */
  predicate SafeOriginal(j: Journals, h: History, n: NodeId, s: TaskState) {
    s.lastMigration.Some? ==>
      var m := s.lastMigration.value;
      m in j.source && (j.source[m].destination == n ==> m in h.hops)
  }

  /** A snapshot a destination may restore: neither live nor ahead of the hops. */
  predicate SafeSnapshot(j: Journals, h: History, n: NodeId, s: TaskState) {
    !IsLive(s) && s.generation <= |h.hops| && SafeOriginal(j, h, n, s)
  }

  /** An entry is past the last hop only through an unfinished claim; otherwise only the holder is live. */
  predicate EntrySound(j: Journals, h: History, n: NodeId, s: TaskState) {
    && (s.generation > |h.hops| ==> s.lastMigration.Some? && PendingClaim(j, n, s, s.lastMigration.value))
    && (IsLive(s) && s.generation <= |h.hops| ==> n == h.holder && s.owner == n && s.generation == |h.hops|)
    && Accounted(j, h, n, s)
  }

  /** A hop stays on record: its lease was used, and until its source resolves it the destination says so. */
  predicate HopRecorded(j: Journals, h: History, m: MigrationId)
    requires m in j.source
  {
    && j.source[m].generation <= |h.hops| && m in j.reserved && m in j.destination
    && (Unresolved(j, m) ==> Committed(j, m))
  }

  /** What either end's journal says about `m` agrees with the history. */
  predicate VerdictsSound(j: Journals, h: History, m: MigrationId)
    requires m in j.source
  {
    && (m in h.hops ==> HopRecorded(j, h, m)) && (Committed(j, m) ==> m in h.hops)
    && (j.source[m].status.Activated? ==> m in h.hops)
    && (j.source[m].status.RolledBack? ==> m !in h.hops && !Pending(j, m))
  }

  /** An unresolved, uncommitted attempt leaves from the holder for the next generation. */
  predicate AttemptSound(j: Journals, h: History, m: MigrationId)
    requires m in j.source
  {
    var r := j.source[m];
    && r.source != r.destination && 1 <= r.generation <= |h.hops| + 1
    && (OpenAttempt(j, m) ==> r.source == h.holder && r.generation == |h.hops| + 1)
    && VerdictsSound(j, h, m)
    && (m in j.destination ==> m in j.sent && (ActivatingAt(j, m) || Committed(j, m) || Rejected(j, m)))
    && (m in j.sent ==> !r.status.Preparing? && !r.status.Transferring?)
    && SafeOriginal(j, h, r.source, r.original)
    && (m in j.destination ==> SafeSnapshot(j, h, r.destination, j.destination[m].original))
  }

  /** Nothing is noted about a migration that was never begun. */
  predicate NotesKnown(j: Journals) {
    && j.destination.Keys <= j.source.Keys && j.sent <= j.source.Keys && j.absent <= j.source.Keys
    && j.reserved <= j.source.Keys
  }

  predicate JournalsSound(j: Journals, h: History) {
    && NotesKnown(j)
    && (forall m | m in j.source :: AttemptSound(j, h, m))
    && (forall m, m' | m in j.source && m' in j.source :: OpenAttempt(j, m) && OpenAttempt(j, m') ==> m == m')
  }

  /** The hop at position `i` has generation i+1 and leaves from where the previous one arrived. */
  predicate HopSound(j: Journals, h: History, i: nat)
    requires i < |h.hops|
  {
    && h.hops[i] in j.source && j.source[h.hops[i]].generation == i + 1
    && j.source[h.hops[i]].source == Arrival(j, h, i)
  }

  /** Where the first `i` hops lead. */
  function Arrival(j: Journals, h: History, i: nat): NodeId
    requires i <= |h.hops|
  {
    if i == 0 then h.origin
    else if h.hops[i - 1] in j.source then j.source[h.hops[i - 1]].destination
    else h.origin
  }

  /** The committed migrations form a path from the origin to the holder; the i-th has generation i+1. */
  ghost predicate Path(j: Journals, h: History) {
    && (forall i {:trigger HopSound(j, h, i)} | 0 <= i < |h.hops| :: HopSound(j, h, i))
    && h.holder == Arrival(j, h, |h.hops|)
  }

  /** While a destination may still commit, the holder is quiet. */
  predicate QuietWhilePending(j: Journals, live: bool) {
    live ==> forall m | m in j.source :: !MayCommit(j, m)
  }

  predicate EntriesSound(j: Journals, h: History, registry: map<NodeId, TaskState>) {
    forall n | n in registry :: EntrySound(j, h, n, registry[n])
  }

  predicate NodesKnown(w: World) {
    && w.history.holder in w.registry && w.registry.Keys == w.op.Keys
    && (forall m | m in w.journals.source ::
          w.journals.source[m].source in w.registry && w.journals.source[m].destination in w.registry)
  }

  ghost predicate Core(w: World) {
    && NodesKnown(w)
    && JournalsSound(w.journals, w.history)
    && EntriesSound(w.journals, w.history, w.registry)
    && QuietWhilePending(w.journals, Live(w, w.history.holder))
  }

  /** An entry of node `n` that may be written back at any time. */
  predicate Restorable(j: Journals, h: History, n: NodeId, s: TaskState) {
    EntrySound(j, h, n, s) && (n == h.holder ==> QuietWhilePending(j, IsLive(s)))
  }

  /** An activation under way at `n`: of an attempt that may commit, or a late repeat of a resolved hop. */
  predicate ActivationSound(j: Journals, h: History, n: NodeId, m: MigrationId, before: TaskState) {
    && m in j.source && j.source[m].destination == n && ActivatingAt(j, m)
    && (Unresolved(j, m) ==> SafeSnapshot(j, h, n, before))
    && (!Unresolved(j, m) ==> Restorable(j, h, n, before))
  }

  /** Operation `o` of node `n`, whose registry entry is `s`. */
  predicate OperationSound(j: Journals, h: History, n: NodeId, s: TaskState, o: Operation) {
    match o
    case Idle => true
    case Sourcing(m, stage) =>
      && m in j.source && j.source[m].source == n && Unresolved(j, m)
      && (stage.Prepared? || stage.Marked? ==> j.source[m].status.Preparing?)
      && (stage.Quiescing? || stage.Quiesced? ==> j.source[m].status.Transferring?)
      && (stage.Sending? || stage.AwaitingReply? ==> j.source[m].status.Handover?)
      && (stage.Sending? ==> m !in j.sent)
      && (!stage.Prepared? ==> !IsLive(s))
    case Finalizing(m, _) => m in j.source && j.source[m].source == n && m in h.hops
    case Restoring(m, stage, _, _) =>
      && m in j.source && j.source[m].source == n && OpenAttempt(j, m) && !MayCommit(j, m)
      && (stage.RestartTask? ==>
            s.owner == n && s.generation == j.source[m].generation - 1 && s.status.Stopped?)
    case Activating(m, stage, before) =>
      && ActivationSound(j, h, n, m, before)
      && (!stage.Reserving? ==> Unresolved(j, m) && m in j.reserved)
      && (!stage.Reserving? && !stage.Claiming? ==> PendingClaim(j, n, s, m))
    case Undoing(m, stage, before) =>
      && m in j.source && j.source[m].destination == n && ActivatingAt(j, m)
      && (if stage.UndoLog? then Unresolved(j, m) ==> SafeSnapshot(j, h, n, s)
          else ActivationSound(j, h, n, m, before))
  }

  /** Every operation is sound, except perhaps that of `x`, which is about to be replaced. */
  predicate OthersSound(w: World, x: NodeId) {
    forall n | n in w.op && n in w.registry ::
      n != x ==> OperationSound(w.journals, w.history, n, w.registry[n], w.op[n])
  }

  predicate OperationsSound(w: World) {
    forall n | n in w.op && n in w.registry ::
      OperationSound(w.journals, w.history, n, w.registry[n], w.op[n])
  }

  /** Every migration was granted a lease; one that was taken into use is never granted again. */
  predicate LeasesMatch(j: Journals, lease: map<MigrationId, Lease>) {
    j.source.Keys <= lease.Keys && forall m | m in lease :: lease[m].Granted? ==> m !in j.reserved
  }

  ghost predicate Invariant(w: World) {
    && Core(w) && Path(w.journals, w.history) && OperationsSound(w)
    && LeasesMatch(w.journals, w.lease)
  }

  // ---------- What each kind of write keeps ----------

  lemma OpWrite(w: World, n: NodeId, o: Operation)
    requires Core(w) && OthersSound(w, n) && n in w.registry
    requires OperationSound(w.journals, w.history, n, w.registry[n], o)
    ensures Core(WithOp(w, n, o)) && OperationsSound(WithOp(w, n, o))
  {
  }

  lemma StateWrite(w: World, n: NodeId, s: TaskState)
    requires Core(w) && OthersSound(w, n) && n in w.registry
    requires Restorable(w.journals, w.history, n, s)
    ensures Core(WithState(w, n, s)) && OthersSound(WithState(w, n, s), n)
  {
    hide EntrySound, JournalsSound, OperationSound, MayCommit;
    var w' := WithState(w, n, s);
    assert w'.registry.Keys == w.registry.Keys;
  }

  /** The journals say the same about attempt `k`. */
  predicate SameAt(j: Journals, j': Journals, k: MigrationId) {
    && k in j.source && k in j'.source && j'.source[k] == j.source[k]
    && (k in j.destination <==> k in j'.destination)
    && (k in j.destination ==> j.destination[k] == j'.destination[k])
    && (k in j.sent <==> k in j'.sent) && (k in j.absent <==> k in j'.absent)
    && (k in j.reserved <==> k in j'.reserved)
  }

  /** `j'` differs from `j` at most about `m`, whose route and generation stay. */
  predicate ChangesOnly(j: Journals, j': Journals, m: MigrationId) {
    && m in j'.source && j'.source.Keys == j.source.Keys + {m} && NotesKnown(j')
    && (forall k | k in j.source && k != m :: SameAt(j, j', k))
    && (m in j.source ==> j'.source[m] == j.source[m].(status := j'.source[m].status))
    && (m in j.reserved ==> m in j'.reserved)
  }

  /** Nothing that operation `o` of the source of `m` is relying on has changed. */
  predicate SourceSideKept(j: Journals, j': Journals, m: MigrationId, o: Operation)
    requires ChangesOnly(j, j', m)
  {
    m in j.source && j'.source[m] == j.source[m] && (m in j'.sent ==> m in j.sent)
    && (o.Restoring? && o.m == m && Unresolved(j', m) && (Pending(j', m) || Committed(j', m)) ==>
          Pending(j, m) || Committed(j, m))
  }

  /** Nothing a destination is relying on about `m` has changed. */
  predicate DestinationSideKept(j: Journals, j': Journals, m: MigrationId) {
    ActivatingAt(j, m) ==> ActivatingAt(j', m) && (Unresolved(j, m) <==> Unresolved(j', m))
  }

  lemma EntryKept(j: Journals, j': Journals, h: History, m: MigrationId, n: NodeId, s: TaskState)
    requires EntrySound(j, h, n, s) && ChangesOnly(j, j', m) && NotesKnown(j)
    requires m in j.source && j.source[m].destination == n && ActivatingAt(j, m) ==>
               ActivatingAt(j', m) || (m in h.hops && j.source[m].generation <= |h.hops|)
    ensures EntrySound(j', h, n, s)
  {
  }

  lemma AttemptKept(j: Journals, j': Journals, h: History, m: MigrationId, k: MigrationId)
    requires ChangesOnly(j, j', m) && k in j.source && k != m && AttemptSound(j, h, k) && NotesKnown(j)
    ensures AttemptSound(j', h, k)
  {
    assert SameAt(j, j', k);
  }

  /** The history only grows. */
  predicate Extends(h: History, h': History) {
    |h.hops| <= |h'.hops| && forall m | m in h.hops :: m in h'.hops
  }

  lemma SnapshotKept(j: Journals, j': Journals, h: History, h': History, m: MigrationId, n: NodeId, s: TaskState)
    requires SafeSnapshot(j, h, n, s) && ChangesOnly(j, j', m) && Extends(h, h')
    ensures SafeSnapshot(j', h', n, s)
  {
    if s.lastMigration.Some? && s.lastMigration.value != m {
      assert SameAt(j, j', s.lastMigration.value);
    }
  }

  predicate MayWriteBack(o: Operation) {
    o.Activating? || (o.Undoing? && !o.undo.UndoLog?)
  }

  /** The entry `o` may write back, if it is one that need not be a snapshot. */
  predicate BeforeKept(j: Journals, j': Journals, h: History, h': History, n: NodeId, o: Operation) {
    MayWriteBack(o) ==> Restorable(j, h, n, o.before) ==> Restorable(j', h', n, o.before)
  }

  lemma OperationKept(
      j: Journals, j': Journals, h: History, h': History, m: MigrationId, n: NodeId, s: TaskState, o: Operation)
    requires OperationSound(j, h, n, s, o) && ChangesOnly(j, j', m) && NotesKnown(j) && Extends(h, h')
    requires m in j.source && j.source[m].source == n ==> SourceSideKept(j, j', m, o)
    requires m in j.source && j.source[m].destination == n ==> DestinationSideKept(j, j', m)
    requires BeforeKept(j, j', h, h', n, o)
    ensures OperationSound(j', h', n, s, o)
  {
    hide SafeSnapshot, Restorable;
    if !o.Idle? && o.m != m {
      assert SameAt(j, j', o.m);
    }
    if MayWriteBack(o) && Unresolved(j, o.m) {
      SnapshotKept(j, j', h, h', m, n, o.before);
    } else if o.Undoing? && o.undo.UndoLog? && Unresolved(j, o.m) {
      SnapshotKept(j, j', h, h', m, n, s);
    }
  }

  /** What a journal write about `m` must satisfy, apart from the operation of node `x` that performs it. */
  ghost predicate Admissible(w: World, j': Journals, h': History, m: MigrationId, x: NodeId) {
    var j := w.journals;
    && ChangesOnly(j, j', m)
    && j'.source[m].source in w.registry && j'.source[m].destination in w.registry
    && AttemptSound(j', h', m)
    && (OpenAttempt(j', m) ==> OpenAttempt(j, m) || forall k | k in j.source :: !OpenAttempt(j, k))
    && (MayCommit(j', m) ==>
          MayCommit(j, m) || x == w.history.holder || (OpenAttempt(j, m) && SourceQuiet(w, m)))
    && (j'.source[m].source == x || (j'.source[m].source in w.op ==>
                                       SourceSideKept(j, j', m, w.op[j'.source[m].source])))
    && (j'.source[m].destination == x || DestinationSideKept(j, j', m))
  }

  /** The only attempt that may come to commit leaves from the holder. */
  lemma LeavesFromHolder(w: World, m: MigrationId)
    requires Core(w) && m in w.journals.source
    ensures OpenAttempt(w.journals, m) ==> w.journals.source[m].source == w.history.holder
  {
    hide EntrySound;
    assert AttemptSound(w.journals, w.history, m);
  }

  lemma RestorableKept(w: World, j': Journals, m: MigrationId, x: NodeId, n: NodeId, s: TaskState)
    requires Core(w) && Admissible(w, j', w.history, m, x) && n != x && n in w.op
    requires Restorable(w.journals, w.history, n, s) && MayWriteBack(w.op[n]) && s == w.op[n].before
    ensures Restorable(j', w.history, n, s)
  {
    hide EntrySound, AttemptSound, OpenAttempt;
    var j := w.journals;
    EntryKept(j, j', w.history, m, n, s);
    if n == w.history.holder && IsLive(s) {
      if m in j.source {
        LeavesFromHolder(w, m);
      }
      forall k | k in j'.source ensures !MayCommit(j', k) {
        if k != m {
          assert SameAt(j, j', k);
        }
      }
    }
  }

  lemma OthersKept(w: World, j': Journals, h': History, m: MigrationId, x: NodeId)
    requires Core(w) && OthersSound(w, x) && Admissible(w, j', h', m, x) && Extends(w.history, h')
    requires forall n | n in w.op && n in w.registry && n != x ::
               BeforeKept(w.journals, j', w.history, h', n, w.op[n])
    ensures OthersSound(w.(journals := j', history := h'), x)
  {
    hide OperationSound, AttemptSound, EntrySound, BeforeKept, Extends, SourceSideKept, DestinationSideKept;
    var j, h := w.journals, w.history;
    forall n | n in w.op && n in w.registry && n != x
      ensures OperationSound(j', h', n, w.registry[n], w.op[n])
    {
      OperationKept(j, j', h, h', m, n, w.registry[n], w.op[n]);
    }
  }

  lemma OneOpenAttempt(w: World, j': Journals, m: MigrationId, x: NodeId)
    requires Core(w) && Admissible(w, j', w.history, m, x)
    ensures forall k, k' | k in j'.source && k' in j'.source :: OpenAttempt(j', k) && OpenAttempt(j', k') ==> k == k'
  {
    hide AttemptSound, EntrySound;
    assert forall k | k in w.journals.source && k != m :: SameAt(w.journals, j', k);
    assert forall k | k in w.journals.source && k != m :: OpenAttempt(j', k) == OpenAttempt(w.journals, k);
  }

  lemma JournalWrite(w: World, j': Journals, m: MigrationId, x: NodeId)
    requires Core(w) && OthersSound(w, x) && Admissible(w, j', w.history, m, x) && x in w.registry
    requires QuietWhilePending(j', Live(w, w.history.holder))
    requires EntrySound(j', w.history, x, w.registry[x])
    ensures Core(w.(journals := j')) && OthersSound(w.(journals := j'), x)
  {
    hide OperationSound, AttemptSound, EntrySound, SourceSideKept;
    var j, h := w.journals, w.history;
    forall k | k in j'.source ensures AttemptSound(j', h, k) {
      if k != m {
        AttemptKept(j, j', h, m, k);
      }
    }
    forall n | n in w.registry ensures EntrySound(j', h, n, w.registry[n]) {
      if n != x {
        EntryKept(j, j', h, m, n, w.registry[n]);
      }
    }
    OneOpenAttempt(w, j', m, x);
    forall n | n in w.op && n in w.registry && n != x ensures BeforeKept(j, j', h, h, n, w.op[n]) {
      if MayWriteBack(w.op[n]) && Restorable(j, h, n, w.op[n].before) {
        RestorableKept(w, j', m, x, n, w.op[n].before);
      }
    }
    OthersKept(w, j', h, m, x);
  }

  lemma PathKept(j: Journals, j': Journals, h: History, m: MigrationId)
    requires Path(j, h) && ChangesOnly(j, j', m)
    ensures Path(j', h)
  {
    forall i {:trigger HopSound(j', h, i)} | 0 <= i < |h.hops| ensures HopSound(j', h, i) {
      assert HopSound(j, h, i);
      assert h.hops[i] in j.source && (h.hops[i] != m ==> SameAt(j, j', h.hops[i]));
      if i > 0 {
        assert HopSound(j, h, i - 1);
        assert h.hops[i - 1] in j.source && (h.hops[i - 1] != m ==> SameAt(j, j', h.hops[i - 1]));
      }
    }
    if |h.hops| > 0 {
      assert HopSound(j, h, |h.hops| - 1);
      var last := h.hops[|h.hops| - 1];
      assert last in j.source && (last != m ==> SameAt(j, j', last));
    }
  }

  // ---------- A commit ----------

  /** The journals and history once `m` has committed. */
  function Commit(w: World, m: MigrationId, original: TaskState): World
    requires m in w.journals.source
  {
    w.(journals := DestinationLogged(w.journals, m, DestinationRecord(Activated, original)),
       history := w.history.(holder := w.journals.source[m].destination, hops := w.history.hops + [m]))
  }

  ghost predicate MayCommitNow(w: World, m: MigrationId) {
    && Core(w) && Path(w.journals, w.history)
    && m in w.journals.source && MayCommit(w.journals, m)
    && PendingClaim(w.journals, w.journals.source[m].destination,
                    w.registry[w.journals.source[m].destination], m)
  }

  /** An open attempt is no hop: its destination's journal would say so. */
  lemma OpenIsNoHop(w: World, m: MigrationId)
    requires Core(w) && m in w.journals.source && OpenAttempt(w.journals, m)
    ensures m !in w.history.hops
  {
    assert AttemptSound(w.journals, w.history, m);
  }

  lemma AttemptAfterCommit(w: World, m: MigrationId, original: TaskState, k: MigrationId)
    requires MayCommitNow(w, m) && k in w.journals.source
    requires SafeSnapshot(w.journals, w.history, w.journals.source[m].destination, original)
    ensures AttemptSound(Commit(w, m, original).journals, Commit(w, m, original).history, k)
    ensures !OpenAttempt(Commit(w, m, original).journals, k) && !MayCommit(Commit(w, m, original).journals, k)
  {
    hide EntrySound;
    assert AttemptSound(w.journals, w.history, m) && AttemptSound(w.journals, w.history, k);
  }

  /** An entry past the last hop carries the claim of the one attempt that may commit. */
  lemma OneClaim(w: World, m: MigrationId, n: NodeId, s: TaskState)
    requires Core(w) && m in w.journals.source && MayCommit(w.journals, m)
    requires EntrySound(w.journals, w.history, n, s) && s.generation > |w.history.hops|
    ensures PendingClaim(w.journals, n, s, m)
  {
    var k := s.lastMigration.value;
    assert AttemptSound(w.journals, w.history, k);
    assert OpenAttempt(w.journals, k) && OpenAttempt(w.journals, m);
  }

  /** An entry stays sound when `m` commits, unless it is the old holder's and live. */
  lemma EntryAfterCommit(w: World, m: MigrationId, original: TaskState, n: NodeId, s: TaskState)
    requires MayCommitNow(w, m) && Restorable(w.journals, w.history, n, s)
    ensures EntrySound(Commit(w, m, original).journals, Commit(w, m, original).history, n, s)
  {
    assert AttemptSound(w.journals, w.history, m);
    if s.generation > |w.history.hops| {
      OneClaim(w, m, n, s);
    }
    hide Core, Path, AttemptSound;
  }

  lemma PathExtended(j: Journals, j': Journals, h: History, h': History, m: MigrationId)
    requires Path(j, h) && m in j.source
    requires j.source[m].source == h.holder && j.source[m].generation == |h.hops| + 1
    requires j'.source == j.source
    requires h' == h.(holder := j.source[m].destination, hops := h.hops + [m])
    ensures Path(j', h')
  {
    forall i {:trigger HopSound(j', h', i)} | 0 <= i < |h'.hops| ensures HopSound(j', h', i) {
      if i < |h.hops| {
        assert HopSound(j, h, i);
        assert Arrival(j', h', i) == Arrival(j, h, i);
      }
    }
  }

  lemma CommitAdmissible(w: World, m: MigrationId, original: TaskState)
    requires MayCommitNow(w, m)
    requires SafeSnapshot(w.journals, w.history, w.journals.source[m].destination, original)
    ensures var w' := Commit(w, m, original);
            && Admissible(w, w'.journals, w'.history, m, w.journals.source[m].destination)
            && Path(w'.journals, w'.history) && Extends(w.history, w'.history)
  {
    hide EntrySound;
    var w' := Commit(w, m, original);
    assert AttemptSound(w.journals, w.history, m);
    AttemptAfterCommit(w, m, original, m);
    hide AttemptSound;
    PathExtended(w.journals, w'.journals, w.history, w'.history, m);
  }

  lemma CommitWrite(w: World, m: MigrationId, original: TaskState)
    requires MayCommitNow(w, m) && OthersSound(w, w.journals.source[m].destination)
    requires SafeSnapshot(w.journals, w.history, w.journals.source[m].destination, original)
    ensures Core(Commit(w, m, original)) && Path(Commit(w, m, original).journals, Commit(w, m, original).history)
    ensures OthersSound(Commit(w, m, original), w.journals.source[m].destination)
  {
    hide OperationSound, AttemptSound, EntrySound, Path, OpenAttempt, MayCommit;
    var w', d := Commit(w, m, original), w.journals.source[m].destination;
    CommitAdmissible(w, m, original);
    forall k | k in w'.journals.source
      ensures AttemptSound(w'.journals, w'.history, k)
      ensures !OpenAttempt(w'.journals, k) && !MayCommit(w'.journals, k)
    {
      AttemptAfterCommit(w, m, original, k);
    }
    forall n, s | Restorable(w.journals, w.history, n, s)
      ensures Restorable(w'.journals, w'.history, n, s)
    {
      EntryAfterCommit(w, m, original, n, s);
    }
    OthersKept(w, w'.journals, w'.history, m, d);
    hide Admissible, OthersSound, Live;
    forall n | n in w'.registry ensures EntrySound(w'.journals, w'.history, n, w'.registry[n]) {
      EntryAfterCommit(w, m, original, n, w.registry[n]);
    }
  }
}
