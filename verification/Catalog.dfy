/** The replicated catalog of immutable task definitions and runs (magellan/submission/catalog.py). */
module Catalog {
  import opened Common

  type DefinitionId = nat
  type RunId = nat
  type Digest = nat

  /** A definition and its revision. */
  datatype Key = Key(definition: DefinitionId, revision: nat)

  /** `body` stands for everything the digest covers, `origin` for what it does not. */
  datatype Submission = Submission(definition: DefinitionId, body: nat)

  datatype Definition = Definition(submission: Submission, revision: nat, digest: Digest, origin: NodeId)

  datatype RunSubmission = RunSubmission(
    definition: DefinitionId,
    revision: Option<nat>,
    idempotencyKey: nat,
    options: nat)

  datatype TaskRun = TaskRun(
    id: RunId,
    definition: DefinitionId,
    revision: nat,
    definitionDigest: Digest,
    idempotencyKey: nat,
    requestDigest: Digest,
    owner: NodeId,
    origin: NodeId)

  datatype Catalog = Catalog(definitions: map<Key, Definition>, runs: map<RunId, TaskRun>)

  datatype CatalogError =
    | ConflictingDefinition | ConflictingKey | ConflictingRun | UnknownDefinition | DigestMismatch | KeyReused

  /** What a peer reports: its entries in key order. */
  datatype Snapshot = Snapshot(definitions: seq<Definition>, runs: seq<TaskRun>)

  function KeyOf(d: Definition): Key {
    Key(d.submission.definition, d.revision)
  }

  // ---------- Merging, entry by entry ----------

  /** The catalog when the merge ended, and why it ended early if it did. */
  datatype Merged = Merged(catalog: Catalog, error: Option<CatalogError>)

  function DefinitionError(c: Catalog, d: Definition): Option<CatalogError> {
    if KeyOf(d) in c.definitions && c.definitions[KeyOf(d)].digest != d.digest then Some(ConflictingDefinition)
    else None
  }

  function WithDefinition(c: Catalog, d: Definition): Catalog {
    if KeyOf(d) in c.definitions then c else c.(definitions := c.definitions[KeyOf(d) := d])
  }

  predicate KeyTaken(c: Catalog, r: TaskRun) {
    exists id | id in c.runs :: c.runs[id].idempotencyKey == r.idempotencyKey && c.runs[id].id != r.id
  }

  function RunError(c: Catalog, r: TaskRun): Option<CatalogError> {
    if KeyTaken(c, r) then Some(ConflictingKey)
    else if r.id in c.runs then (if c.runs[r.id] != r then Some(ConflictingRun) else None)
    else if Key(r.definition, r.revision) !in c.definitions then Some(UnknownDefinition)
    else if c.definitions[Key(r.definition, r.revision)].digest != r.definitionDigest then Some(DigestMismatch)
    else None
  }

  function WithRun(c: Catalog, r: TaskRun): Catalog {
    if r.id in c.runs then c else c.(runs := c.runs[r.id := r])
  }

  function MergeDefinitions(c: Catalog, ds: seq<Definition>): Merged
    decreases |ds|
  {
    if ds == [] then Merged(c, None)
    else if DefinitionError(c, ds[0]).Some? then Merged(c, DefinitionError(c, ds[0]))
    else MergeDefinitions(WithDefinition(c, ds[0]), ds[1..])
  }

  function MergeRuns(c: Catalog, rs: seq<TaskRun>): Merged
    decreases |rs|
  {
    if rs == [] then Merged(c, None)
    else if RunError(c, rs[0]).Some? then Merged(c, RunError(c, rs[0]))
    else MergeRuns(WithRun(c, rs[0]), rs[1..])
  }

  function Merge(c: Catalog, s: Snapshot): Merged {
    var m := MergeDefinitions(c, s.definitions);
    if m.error.Some? then m else MergeRuns(m.catalog, s.runs)
  }

  // ---------- Registering and creating ----------

  predicate IsLatest(c: Catalog, id: DefinitionId, revision: nat) {
    && (revision == 0 || Key(id, revision) in c.definitions)
    && (forall k | k in c.definitions && k.definition == id :: k.revision <= revision)
  }

  ghost predicate RegisteredAs(c: Catalog, s: Submission, digest: Digest, origin: NodeId, c': Catalog, d: Definition,
                               created: bool)
  {
    if exists k :: k in c.definitions && k.definition == s.definition && c.definitions[k].digest == digest then
      !created && c' == c && KeyOf(d).definition == s.definition && d.digest == digest
      && exists k :: k in c.definitions && k.definition == s.definition && c.definitions[k] == d
    else
      created && d == Definition(s, d.revision, digest, origin) && d.revision >= 1
      && IsLatest(c, s.definition, d.revision - 1) && c' == c.(definitions := c.definitions[KeyOf(d) := d])
  }

  /** A run with this idempotency key exists. */
  predicate KeyKnown(c: Catalog, key: nat) {
    exists x :: x in c.runs && c.runs[x].idempotencyKey == key
  }

  ghost predicate CreatedAs(c: Catalog, s: RunSubmission, digest: Digest, id: RunId, owner: NodeId, origin: NodeId,
                            c': Catalog, r: Result<TaskRun, CatalogError>)
  {
    if KeyKnown(c, s.idempotencyKey) then
      c' == c && (r.Ok? ==> exists x :: x in c.runs && c.runs[x] == r.value
                                       && r.value.idempotencyKey == s.idempotencyKey && r.value.requestDigest == digest)
      && (r.Err? ==> r.error == KeyReused
                     && exists x :: x in c.runs && c.runs[x].idempotencyKey == s.idempotencyKey
                                    && c.runs[x].requestDigest != digest)
    else if r.Err? then
      c' == c && r.error == UnknownDefinition
      && (if s.revision.Some? then Key(s.definition, s.revision.value) !in c.definitions
          else IsLatest(c, s.definition, 0))
    else
      var run := r.value;
      && Key(run.definition, run.revision) in c.definitions && run.definition == s.definition
      && (if s.revision.Some? then run.revision == s.revision.value else IsLatest(c, s.definition, run.revision))
      && run == TaskRun(id, s.definition, run.revision, c.definitions[Key(run.definition, run.revision)].digest,
                        s.idempotencyKey, digest, owner, origin)
      && c' == c.(runs := c.runs[id := run])
  }

  // ---------- The store ----------

  class TaskCatalogStore {
    const local: NodeId
    const digestOf: Submission -> Digest
    const requestDigestOf: RunSubmission -> Digest
    var definitions: map<Key, Definition>
    var runs: map<RunId, TaskRun>
    var saved: Catalog    // the file

    constructor (local: NodeId, digestOf: Submission -> Digest, requestDigestOf: RunSubmission -> Digest)
      ensures this.local == local && this.digestOf == digestOf && this.requestDigestOf == requestDigestOf
      ensures Contents() == saved == Catalog(map[], map[])
    {
      this.local, this.digestOf, this.requestDigestOf := local, digestOf, requestDigestOf;
      definitions, runs, saved := map[], map[], Catalog(map[], map[]);
    }

    /** What a restarted daemon finds. */
    method Load()
      modifies `definitions, `runs
      ensures Contents() == saved
    {
      definitions, runs := saved.definitions, saved.runs;
    }

    function Contents(): Catalog
      reads this
    {
      Catalog(definitions, runs)
    }

    /** The revision with the given digest, if any, and the highest revision. */
    method Scan(id: DefinitionId, digest: Option<Digest>) returns (match': Option<Definition>, latest: nat)
      ensures match'.Some? ==> digest.Some? && match'.value.digest == digest.value
                               && exists k :: k in definitions && k.definition == id && definitions[k] == match'.value
      ensures match'.None? ==> digest.None? || forall k | k in definitions && k.definition == id ::
                                 definitions[k].digest != digest.value
      ensures IsLatest(Contents(), id, latest)
    {
      match', latest := None, 0;
      var todo: set<Key> := definitions.Keys;
      while todo != {}
        invariant todo <= definitions.Keys
        invariant match'.Some? ==>
                    && digest.Some? && match'.value.digest == digest.value
                    && exists k :: k in definitions && k.definition == id && definitions[k] == match'.value
        invariant match'.None? ==> digest.None? || forall k | k in definitions && k !in todo && k.definition == id ::
                                     definitions[k].digest != digest.value
        invariant latest == 0 || Key(id, latest) in definitions
        invariant forall k | k in definitions && k !in todo && k.definition == id :: k.revision <= latest
        decreases |todo|
      {
        var k :| k in todo;
        todo := todo - {k};
        if k.definition == id {
          if digest.Some? && definitions[k].digest == digest.value {
            match' := Some(definitions[k]);
          }
          if k.revision > latest {
            latest := k.revision;
          }
        }
      }
    }

    /** An unchanged definition keeps its revision; a changed one gets the next. */
    method RegisterDefinition(s: Submission, origin: Option<NodeId>) returns (d: Definition, created: bool)
      requires Filed(Contents())
      modifies `definitions, `saved
      ensures RegisteredAs(old(Contents()), s, digestOf(s), if origin.Some? then origin.value else local, Contents(), d,
                           created)
      ensures saved == if created then Contents() else old(saved)
    {
      var digest := digestOf(s);
      var found, latest := Scan(s.definition, Some(digest));
      if found.Some? {
        return found.value, false;
      }
      d := Definition(s, latest + 1, digest, if origin.Some? then origin.value else local);
      definitions := definitions[KeyOf(d) := d];
      saved := Contents();
      created := true;
    }

    method FindKey(key: nat) returns (run: Option<TaskRun>)
      ensures run.Some? ==> exists x :: x in runs && runs[x] == run.value && run.value.idempotencyKey == key
      ensures run.None? ==> forall x | x in runs :: runs[x].idempotencyKey != key
    {
      var todo := runs.Keys;
      while todo != {}
        invariant todo <= runs.Keys
        invariant forall x | x in runs && x !in todo :: runs[x].idempotencyKey != key
        decreases |todo|
      {
        var x :| x in todo;
        if runs[x].idempotencyKey == key {
          return Some(runs[x]);
        }
        todo := todo - {x};
      }
      run := None;
    }

    /** One run for each idempotency key. `id` is a fresh identifier. */
    method CreateRun(s: RunSubmission, id: RunId, owner: NodeId, origin: Option<NodeId>)
      returns (r: Result<TaskRun, CatalogError>)
      requires PositiveRevisions(Contents())
      modifies `runs, `saved
      ensures CreatedAs(old(Contents()), s, requestDigestOf(s), id, owner,
                        if origin.Some? then origin.value else local, Contents(), r)
      ensures saved == if KeyKnown(old(Contents()), s.idempotencyKey) || r.Err? then old(saved) else Contents()
    {
      var digest := requestDigestOf(s);
      var existing := FindKey(s.idempotencyKey);
      if existing.Some? {
        return if existing.value.requestDigest != digest then Err(KeyReused) else Ok(existing.value);
      }
      var nobody, latest := Scan(s.definition, None);
      if latest == 0 {
        return Err(UnknownDefinition);
      }
      var revision := if s.revision.Some? then s.revision.value else latest;
      if Key(s.definition, revision) !in definitions {
        return Err(UnknownDefinition);
      }
      var run := TaskRun(id, s.definition, revision, definitions[Key(s.definition, revision)].digest, s.idempotencyKey,
                         digest, owner, if origin.Some? then origin.value else local);
      runs := runs[id := run];
      saved := Contents();
      r := Ok(run);
    }

    method OtherRunHasKey(r: TaskRun) returns (taken: bool)
      ensures taken <==> KeyTaken(Contents(), r)
    {
      var todo := runs.Keys;
      while todo != {}
        invariant todo <= runs.Keys
        invariant forall x | x in runs && x !in todo ::
                    !(runs[x].idempotencyKey == r.idempotencyKey && runs[x].id != r.id)
        decreases |todo|
      {
        var x :| x in todo;
        if runs[x].idempotencyKey == r.idempotencyKey && runs[x].id != r.id {
          return true;
        }
        todo := todo - {x};
      }
      taken := false;
    }

    /**
     Merges a peer's entries one by one. A conflict ends it, and what was merged before stays in memory; only a
     merge that completes and added something is saved.
     */
    method MergeSnapshot(s: Snapshot) returns (error: Option<CatalogError>)
      modifies this
      ensures Merged(Contents(), error) == Merge(old(Contents()), s)
      ensures saved == if error.None? && Contents() != old(Contents()) then Contents() else old(saved)
    {
      ghost var start := Contents();
      var added := false;
      assert s.definitions[0..] == s.definitions;
      for i := 0 to |s.definitions|
        invariant MergeDefinitions(Contents(), s.definitions[i..]) == MergeDefinitions(start, s.definitions)
        invariant Contents().runs == start.runs && saved == old(saved)
        invariant start.definitions.Keys <= definitions.Keys && (added <==> Contents() != start)
      {
        var incoming := s.definitions[i];
        assert s.definitions[i..][0] == incoming && s.definitions[i..][1..] == s.definitions[i + 1..];
        if KeyOf(incoming) in definitions {
          if definitions[KeyOf(incoming)].digest != incoming.digest {
            return Some(ConflictingDefinition);
          }
        } else {
          definitions := definitions[KeyOf(incoming) := incoming];
          added := true;
          assert KeyOf(incoming) in Contents().definitions;
        }
      }
      assert MergeDefinitions(start, s.definitions) == Merged(Contents(), None);
      ghost var between := Contents();
      assert s.runs[0..] == s.runs;
      for i := 0 to |s.runs|
        invariant MergeRuns(Contents(), s.runs[i..]) == MergeRuns(between, s.runs)
        invariant start.runs.Keys <= runs.Keys && start.definitions.Keys <= definitions.Keys && saved == old(saved)
        invariant added <==> Contents() != start
      {
        var incoming := s.runs[i];
        assert s.runs[i..][0] == incoming && s.runs[i..][1..] == s.runs[i + 1..];
        var taken := OtherRunHasKey(incoming);
        if taken {
          return Some(ConflictingKey);
        }
        if incoming.id in runs {
          if runs[incoming.id] != incoming {
            return Some(ConflictingRun);
          }
        } else {
          if Key(incoming.definition, incoming.revision) !in definitions {
            return Some(UnknownDefinition);
          }
          if definitions[Key(incoming.definition, incoming.revision)].digest != incoming.definitionDigest {
            return Some(DigestMismatch);
          }
          runs := runs[incoming.id := incoming];
          added := true;
          assert incoming.id in Contents().runs;
        }
      }
      if added {
        saved := Contents();
      }
      error := None;
    }
  }

  // ---------- What every catalog satisfies ----------

  /** Entries are filed under their own keys. */
  ghost predicate Filed(c: Catalog) {
    && (forall k | k in c.definitions :: KeyOf(c.definitions[k]) == k)
    && (forall id | id in c.runs :: c.runs[id].id == id)
  }

  ghost predicate PositiveRevisions(c: Catalog) {
    forall k | k in c.definitions :: k.revision >= 1
  }

  /** Each definition's revisions are 1, 2, ..., n, and no two of them have the same content. */
  ghost predicate Contiguous(c: Catalog) {
    && PositiveRevisions(c)
    && (forall k, q: nat | k in c.definitions && 1 <= q <= k.revision :: Key(k.definition, q) in c.definitions)
    && (forall k, k' | k in c.definitions && k' in c.definitions && k.definition == k'.definition ::
          c.definitions[k].digest == c.definitions[k'].digest ==> k == k')
  }

  /** An idempotency key names one run. */
  ghost predicate KeysUnique(c: Catalog) {
    forall x, y | x in c.runs && y in c.runs :: c.runs[x].idempotencyKey == c.runs[y].idempotencyKey ==> x == y
  }

  predicate Grounded(c: Catalog, r: TaskRun) {
    Key(r.definition, r.revision) in c.definitions
    && c.definitions[Key(r.definition, r.revision)].digest == r.definitionDigest
  }

  ghost predicate Sound(c: Catalog) {
    Filed(c) && Contiguous(c) && KeysUnique(c) && forall id | id in c.runs :: Grounded(c, c.runs[id])
  }

  predicate KeyBefore(a: Key, b: Key) {
    a.definition < b.definition || (a.definition == b.definition && a.revision < b.revision)
  }

  /** `snapshot()`: the entries of `c`, in key order. */
  ghost predicate Reports(s: Snapshot, c: Catalog) {
    && (forall d :: d in s.definitions <==> KeyOf(d) in c.definitions && c.definitions[KeyOf(d)] == d)
    && (forall i, j | 0 <= i < j < |s.definitions| :: KeyBefore(KeyOf(s.definitions[i]), KeyOf(s.definitions[j])))
    && (forall r :: r in s.runs <==> r.id in c.runs && c.runs[r.id] == r)
  }
}
