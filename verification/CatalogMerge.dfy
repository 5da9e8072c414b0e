/** What holds of the catalog over every run, and why merging is a join. */
module CatalogMerge {
  import opened Common
  import opened Catalog

  // ---------- Entries never change ----------

  /** `c'` keeps every entry of `c`. */
  ghost predicate Extends(c: Catalog, c': Catalog) {
    && (forall k | k in c.definitions :: k in c'.definitions && c'.definitions[k] == c.definitions[k])
    && (forall id | id in c.runs :: id in c'.runs && c'.runs[id] == c.runs[id])
  }

  lemma {:induction false} DefinitionsExtend(c: Catalog, ds: seq<Definition>)
    ensures Extends(c, MergeDefinitions(c, ds).catalog) && MergeDefinitions(c, ds).catalog.runs == c.runs
    decreases |ds|
  {
    if ds != [] && DefinitionError(c, ds[0]).None? {
      DefinitionsExtend(WithDefinition(c, ds[0]), ds[1..]);
    }
  }

  lemma {:induction false} RunsExtend(c: Catalog, rs: seq<TaskRun>)
    ensures Extends(c, MergeRuns(c, rs).catalog) && MergeRuns(c, rs).catalog.definitions == c.definitions
    decreases |rs|
  {
    hide RunError;
    if rs != [] && RunError(c, rs[0]).None? {
      RunsExtend(WithRun(c, rs[0]), rs[1..]);
    }
  }

  /** Whether it completes or ends early, a merge never changes what is there. */
  lemma MergeExtends(c: Catalog, s: Snapshot)
    ensures Extends(c, Merge(c, s).catalog)
  {
    hide RunError, DefinitionError;
    DefinitionsExtend(c, s.definitions);
    RunsExtend(MergeDefinitions(c, s.definitions).catalog, s.runs);
  }

  // ---------- Soundness ----------

  /** The entries before index `i` of a peer's report are in `c` with the same digest. */
  ghost predicate MergedUpTo(c: Catalog, ds: seq<Definition>, i: nat)
    requires i <= |ds|
  {
    forall j | 0 <= j < i :: KeyOf(ds[j]) in c.definitions && c.definitions[KeyOf(ds[j])].digest == ds[j].digest
  }

  lemma EarlierRevisionMerged(c: Catalog, peer: Catalog, s: Snapshot, i: nat, q: nat)
    requires Sound(peer) && Reports(s, peer) && i < |s.definitions| && MergedUpTo(c, s.definitions, i)
    requires 1 <= q < s.definitions[i].revision
    ensures var k := Key(s.definitions[i].submission.definition, q);
            && k in peer.definitions && k in c.definitions && c.definitions[k].digest == peer.definitions[k].digest
  {
    var d := s.definitions[i];
    assert d in s.definitions;
    var k := Key(d.submission.definition, q);
    assert k in peer.definitions && KeyOf(peer.definitions[k]) == k;
    assert peer.definitions[k] in s.definitions;
    var j :| 0 <= j < |s.definitions| && s.definitions[j] == peer.definitions[k];
    assert KeyBefore(k, KeyOf(d));
    assert j < i;
  }

  /** A new definition that leaves no gap and repeats no content keeps the catalog sound. */
  lemma AddDefinitionKeepsSound(c: Catalog, d: Definition)
    requires Sound(c) && KeyOf(d) !in c.definitions && Contiguous(c.(definitions := c.definitions[KeyOf(d) := d]))
    ensures Sound(c.(definitions := c.definitions[KeyOf(d) := d]))
  {
    hide Contiguous;
    var c' := c.(definitions := c.definitions[KeyOf(d) := d]);
    forall id | id in c'.runs ensures Grounded(c', c'.runs[id]) {
      assert Grounded(c, c.runs[id]);
    }
  }

  /** A revision that comes right after those present, with content unlike theirs, fits. */
  lemma NextInLine(c: Catalog, d: Definition)
    requires Sound(c) && KeyOf(d) !in c.definitions && d.revision >= 1
    requires forall q: nat | 1 <= q < d.revision ::
               Key(d.submission.definition, q) in c.definitions
               && c.definitions[Key(d.submission.definition, q)].digest != d.digest
    ensures Contiguous(c.(definitions := c.definitions[KeyOf(d) := d]))
  {
    hide KeysUnique, Grounded;
    var k := KeyOf(d);
    forall x | x in c.definitions && x.definition == k.definition
      ensures x.revision < k.revision && c.definitions[x].digest != d.digest
    {
      assert x.revision > k.revision ==> Key(x.definition, k.revision) in c.definitions;
      assert Key(x.definition, x.revision) == x;
    }
  }

  /** The earlier revisions of a peer's entry are there, with other content. */
  lemma EarlierRevisionsDiffer(c: Catalog, peer: Catalog, s: Snapshot, i: nat, q: nat)
    requires Sound(peer) && Reports(s, peer) && i < |s.definitions| && MergedUpTo(c, s.definitions, i)
    requires 1 <= q < s.definitions[i].revision
    ensures var k := Key(s.definitions[i].submission.definition, q);
            k in c.definitions && c.definitions[k].digest != s.definitions[i].digest
  {
    EarlierRevisionMerged(c, peer, s, i, q);
    hide MergedUpTo;
    var d := s.definitions[i];
    assert d in s.definitions;
    assert KeyOf(d) in peer.definitions && peer.definitions[KeyOf(d)] == d;
  }

  /** Adding a peer's next revision leaves no gap and repeats no content. */
  lemma NextRevisionFits(c: Catalog, peer: Catalog, s: Snapshot, i: nat)
    requires Sound(c) && Sound(peer) && Reports(s, peer) && i < |s.definitions| && MergedUpTo(c, s.definitions, i)
    requires DefinitionError(c, s.definitions[i]).None?
    ensures Sound(WithDefinition(c, s.definitions[i]))
    ensures MergedUpTo(WithDefinition(c, s.definitions[i]), s.definitions, i + 1)
  {
    var d := s.definitions[i];
    PeerRevisionPositive(peer, s, d);
    hide Sound, Reports;
    if KeyOf(d) !in c.definitions {
      forall q: nat | 1 <= q < d.revision
        ensures Key(d.submission.definition, q) in c.definitions
        ensures c.definitions[Key(d.submission.definition, q)].digest != d.digest
      {
        EarlierRevisionsDiffer(c, peer, s, i, q);
      }
      NextInLine(c, d);
      AddDefinitionKeepsSound(c, d);
    }
  }

  lemma PeerRevisionPositive(peer: Catalog, s: Snapshot, d: Definition)
    requires Sound(peer) && Reports(s, peer) && d in s.definitions
    ensures d.revision >= 1
  {
  }

  lemma {:induction false} DefinitionsKeepSound(c: Catalog, peer: Catalog, s: Snapshot, i: nat)
    requires Sound(c) && Sound(peer) && Reports(s, peer) && i <= |s.definitions| && MergedUpTo(c, s.definitions, i)
    ensures Sound(MergeDefinitions(c, s.definitions[i..]).catalog)
    decreases |s.definitions| - i
  {
    hide Sound, Reports, DefinitionError, MergedUpTo;
    if i < |s.definitions| && DefinitionError(c, s.definitions[i]).None? {
      assert s.definitions[i..][0] == s.definitions[i] && s.definitions[i..][1..] == s.definitions[i + 1..];
      NextRevisionFits(c, peer, s, i);
      DefinitionsKeepSound(WithDefinition(c, s.definitions[i]), peer, s, i + 1);
    } else if i < |s.definitions| {
      assert s.definitions[i..][0] == s.definitions[i];
    }
  }

  lemma AddRunKeepsSound(c: Catalog, r: TaskRun)
    requires Sound(c) && RunError(c, r).None?
    ensures Sound(WithRun(c, r))
  {
    var c' := WithRun(c, r);
    if r.id !in c.runs {
      forall x, y | x in c'.runs && y in c'.runs && c'.runs[x].idempotencyKey == c'.runs[y].idempotencyKey
        ensures x == y
      {
        assert !KeyTaken(c, r);
      }
      forall id | id in c'.runs ensures Grounded(c', c'.runs[id]) {
        assert id != r.id ==> Grounded(c, c.runs[id]);
      }
    }
  }

  lemma {:induction false} RunsKeepSound(c: Catalog, rs: seq<TaskRun>)
    requires Sound(c)
    ensures Sound(MergeRuns(c, rs).catalog)
    decreases |rs|
  {
    hide Sound, RunError;
    if rs != [] && RunError(c, rs[0]).None? {
      AddRunKeepsSound(c, rs[0]);
      RunsKeepSound(WithRun(c, rs[0]), rs[1..]);
    }
  }

  /** A merge of a peer's report keeps the catalog sound, even when it ends early. */
  lemma MergeKeepsSound(c: Catalog, peer: Catalog, s: Snapshot)
    requires Sound(c) && Sound(peer) && Reports(s, peer)
    ensures Sound(Merge(c, s).catalog)
  {
    hide Sound, Reports, DefinitionError, RunError;
    assert s.definitions[0..] == s.definitions;
    DefinitionsKeepSound(c, peer, s, 0);
    RunsKeepSound(MergeDefinitions(c, s.definitions).catalog, s.runs);
  }

  // ---------- Runs of the whole store ----------

  /** What a node has in memory and what its file holds. */
  datatype Replica = Replica(memory: Catalog, saved: Catalog)

  type Network = map<NodeId, Replica>

  datatype Event =
    | Register(submission: Submission, digest: Digest, origin: NodeId)
    | Create(run: RunSubmission, requestDigest: Digest, id: RunId, owner: NodeId, origin: NodeId)
    | MergeReport(peer: NodeId, time: nat, report: Snapshot)
    | Restart

  datatype Step = Step(node: NodeId, event: Event)

  /** What `e` may make of catalog `c`, and whether that is saved. */
  ghost predicate Changes(past: seq<Network>, c: Catalog, e: Event, c': Catalog, saves: bool)
    requires !e.Restart?
  {
    match e
    case Register(s, digest, origin) => exists d :: RegisteredAs(c, s, digest, origin, c', d, saves)
    case Create(s, digest, id, owner, origin) =>
      id !in c.runs && exists r :: CreatedAs(c, s, digest, id, owner, origin, c', r)
                                   && (saves <==> !KeyKnown(c, s.idempotencyKey) && r.Ok?)
    case MergeReport(peer, time, s) =>
      && time < |past| && peer in past[time] && Reports(s, past[time][peer].memory)
      && c' == Merge(c, s).catalog && (saves <==> Merge(c, s).error.None? && c' != c)
  }

  /**
   What `e` may make of a node in a network whose states so far are `past`. Run identifiers are fresh, and a report
   is what some node's catalog contained at some time: it may be late, repeated or out of order.
   */
  ghost predicate Happens(past: seq<Network>, r: Replica, e: Event, r': Replica) {
    if e.Restart? then r' == Replica(r.saved, r.saved)
    else exists saves :: Changes(past, r.memory, e, r'.memory, saves)
                         && r'.saved == if saves then r'.memory else r.saved
  }

  lemma RegisterKeepsSound(c: Catalog, s: Submission, digest: Digest, origin: NodeId, c': Catalog, d: Definition,
                           created: bool)
    requires Sound(c) && RegisteredAs(c, s, digest, origin, c', d, created)
    ensures Sound(c') && Extends(c, c')
  {
    if created {
      assert KeyOf(d) !in c.definitions;
      forall q: nat | 1 <= q < d.revision ensures Key(s.definition, q) in c.definitions {
        assert Key(s.definition, d.revision - 1) in c.definitions;
      }
      AddDefinitionKeepsSound(c, d);
    }
  }

  lemma CreateKeepsSound(c: Catalog, s: RunSubmission, digest: Digest, id: RunId, owner: NodeId, origin: NodeId,
                         c': Catalog, r: Result<TaskRun, CatalogError>)
    requires Sound(c) && id !in c.runs && CreatedAs(c, s, digest, id, owner, origin, c', r)
    ensures Sound(c') && Extends(c, c')
  {
    if c' != c {
      forall x | x in c'.runs ensures Grounded(c', c'.runs[x]) {
        assert x != id ==> Grounded(c, c.runs[x]);
      }
    }
  }

  /** What is in memory and what is saved are sound, and what is saved is in memory. */
  ghost predicate ReplicaSound(r: Replica) {
    Sound(r.memory) && Sound(r.saved) && Extends(r.saved, r.memory)
  }

  ghost predicate AllSound(net: Network) {
    forall n | n in net :: ReplicaSound(net[n])
  }

  lemma ChangeKeepsSound(past: seq<Network>, c: Catalog, e: Event, c': Catalog, saves: bool)
    requires !e.Restart? && Sound(c) && Changes(past, c, e, c', saves)
    requires forall i | 0 <= i < |past| :: AllSound(past[i])
    ensures Sound(c') && Extends(c, c')
  {
    hide Sound, RegisteredAs, CreatedAs, Reports, Extends, Merge;
    match e {
      case Register(s, digest, origin) =>
        var d :| RegisteredAs(c, s, digest, origin, c', d, saves);
        RegisterKeepsSound(c, s, digest, origin, c', d, saves);
      case Create(s, digest, id, owner, origin) =>
        var r :| CreatedAs(c, s, digest, id, owner, origin, c', r);
        CreateKeepsSound(c, s, digest, id, owner, origin, c', r);
      case MergeReport(peer, time, s) =>
        assert AllSound(past[time]) && ReplicaSound(past[time][peer]);
        MergeKeepsSound(c, past[time][peer].memory, s);
        MergeExtends(c, s);
    }
  }

  lemma EventKeepsSound(past: seq<Network>, r: Replica, e: Event, r': Replica)
    requires ReplicaSound(r) && Happens(past, r, e, r') && forall i | 0 <= i < |past| :: AllSound(past[i])
    ensures ReplicaSound(r') && Extends(r.saved, r'.saved)
    ensures !e.Restart? ==> Extends(r.memory, r'.memory)
  {
    hide Sound, Changes;
    if !e.Restart? {
      var saves :| Changes(past, r.memory, e, r'.memory, saves)
                   && r'.saved == if saves then r'.memory else r.saved;
      ChangeKeepsSound(past, r.memory, e, r'.memory, saves);
    }
  }

  /** One node changes by one event; the others stay. */
  ghost predicate Follows(past: seq<Network>, net: Network, s: Step, net': Network) {
    && s.node in net && net'.Keys == net.Keys && net' == net[s.node := net'[s.node]]
    && Happens(past, net[s.node], s.event, net'[s.node])
  }

  const EMPTY := Catalog(map[], map[])

  /** A run of the whole network, from empty catalogs. */
  ghost predicate History(nets: seq<Network>, steps: seq<Step>) {
    && |nets| == |steps| + 1
    && (forall n | n in nets[0] :: nets[0][n] == Replica(EMPTY, EMPTY))
    && (forall i | 0 <= i < |steps| :: Follows(nets[..i + 1], nets[i], steps[i], nets[i + 1]))
  }

  /**
   Over every run of the network, restarts and merges that end early included, each node's catalog has revisions 1..n
   for every definition, one run for an idempotency key, and every run's definition with its digest; so has its file,
   which holds nothing else.
   */
  lemma {:induction false} NetworkKeepsSound(nets: seq<Network>, steps: seq<Step>, i: nat)
    requires History(nets, steps) && i < |nets|
    ensures AllSound(nets[i])
    decreases i
  {
    hide Happens, Sound;
    if i > 0 {
      forall k | 0 <= k < i ensures AllSound(nets[..i][k]) {
        NetworkKeepsSound(nets, steps, k);
      }
      var step := steps[i - 1];
      assert Follows(nets[..i], nets[i - 1], step, nets[i]);
      assert AllSound(nets[..i][i - 1]);
      EventKeepsSound(nets[..i], nets[i - 1][step.node], step.event, nets[i][step.node]);
    } else {
      EmptyIsSound();
    }
  }

  lemma EmptyIsSound()
    ensures Sound(EMPTY)
  {
  }

  /** Node `n` does not restart between times `i` and `j`. */
  ghost predicate StaysUp(steps: seq<Step>, i: nat, j: nat, n: NodeId)
    requires i <= j <= |steps|
  {
    forall k | i <= k < j :: steps[k] != Step(n, Restart)
  }

  /**
   Over every such run, no saved entry of any node ever changes or disappears, from its file or from its memory; and
   as long as the node does not restart, neither does an entry that is only in memory.
   */
  lemma {:induction false} NetworkOnlyAdds(nets: seq<Network>, steps: seq<Step>, i: nat, j: nat, n: NodeId)
    requires History(nets, steps) && i <= j < |nets| && n in nets[i]
    ensures n in nets[j] && Extends(nets[i][n].saved, nets[j][n].saved) && Extends(nets[i][n].saved, nets[j][n].memory)
    ensures StaysUp(steps, i, j, n) ==> Extends(nets[i][n].memory, nets[j][n].memory)
    decreases j
  {
    hide Happens, Sound;
    NetworkKeepsSound(nets, steps, j);
    if i < j {
      NetworkOnlyAdds(nets, steps, i, j - 1, n);
      var step := steps[j - 1];
      assert Follows(nets[..j], nets[j - 1], step, nets[j]);
      forall k | 0 <= k < j ensures AllSound(nets[..j][k]) {
        NetworkKeepsSound(nets, steps, k);
      }
      assert AllSound(nets[..j][j - 1]);
      EventKeepsSound(nets[..j], nets[j - 1][step.node], step.event, nets[j][step.node]);
    }
  }

  // ---------- What a restart forgets ----------

  function DefinitionOf(id: DefinitionId, content: nat, origin: NodeId): Definition {
    Definition(Submission(id, content), 1, content, origin)
  }

  /** Catalogs without runs. */
  function Defining(ds: map<Key, Definition>): Catalog {
    Catalog(ds, map[])
  }

  /** Node 0 disagrees with node 1 about definition 2; node 1 also has definition 1. */
  const MINE := Defining(map[Key(2, 1) := DefinitionOf(2, 7, 0)])
  const THEIRS := Defining(map[Key(1, 1) := DefinitionOf(1, 5, 1), Key(2, 1) := DefinitionOf(2, 6, 1)])
  const REPORT := Snapshot([DefinitionOf(1, 5, 1), DefinitionOf(2, 6, 1)], [])

  /** Merging takes over definition 1 and then ends at the conflict. */
  const HALF_MERGED := Defining(map[Key(1, 1) := DefinitionOf(1, 5, 1), Key(2, 1) := DefinitionOf(2, 7, 0)])

  lemma MergeEndsEarly()
    ensures Reports(REPORT, THEIRS) && Merge(MINE, REPORT) == Merged(HALF_MERGED, Some(ConflictingDefinition))
  {
    var d, e := DefinitionOf(1, 5, 1), DefinitionOf(2, 6, 1);
    assert REPORT.definitions[1..] == [e];
    assert WithDefinition(MINE, d).definitions == HALF_MERGED.definitions;
    assert MergeDefinitions(HALF_MERGED, [e]) == Merged(HALF_MERGED, Some(ConflictingDefinition));
    assert MergeDefinitions(MINE, REPORT.definitions) == MergeDefinitions(WithDefinition(MINE, d), [e]);
  }

  /** A first registration of a definition. */
  lemma FirstRevision(past: seq<Network>, c: Catalog, id: DefinitionId, content: nat, node: NodeId)
    requires forall k | k in c.definitions :: k.definition != id
    ensures var c' := c.(definitions := c.definitions[Key(id, 1) := DefinitionOf(id, content, node)]);
            forall saved :: Happens(past, Replica(c, saved), Register(Submission(id, content), content, node),
                                    Replica(c', c'))
  {
    var d := DefinitionOf(id, content, node);
    var c' := c.(definitions := c.definitions[Key(id, 1) := d]);
    assert IsLatest(c, id, 0);
    assert RegisteredAs(c, Submission(id, content), content, node, c', d, true);
    assert Changes(past, c, Register(Submission(id, content), content, node), c', true);
  }

  const FIRST_THEIRS := Defining(map[Key(1, 1) := DefinitionOf(1, 5, 1)])
  const OTHERWISE := Defining(map[Key(1, 1) := DefinitionOf(1, 8, 0), Key(2, 1) := DefinitionOf(2, 7, 0)])

  function Both(a: Replica, b: Replica): Network {
    map[0 := a, 1 := b]
  }

  function Saved(c: Catalog): Replica {
    Replica(c, c)
  }

  const FORGETTING: seq<Network> := [
    Both(Saved(EMPTY), Saved(EMPTY)), Both(Saved(EMPTY), Saved(FIRST_THEIRS)), Both(Saved(EMPTY), Saved(THEIRS)),
    Both(Saved(MINE), Saved(THEIRS)), Both(Replica(HALF_MERGED, MINE), Saved(THEIRS)),
    Both(Saved(MINE), Saved(THEIRS)), Both(Saved(OTHERWISE), Saved(THEIRS))]

  const FORGETTING_STEPS: seq<Step> := [
    Step(1, Register(Submission(1, 5), 5, 1)), Step(1, Register(Submission(2, 6), 6, 1)),
    Step(0, Register(Submission(2, 7), 7, 0)), Step(0, MergeReport(1, 2, REPORT)), Step(0, Restart),
    Step(0, Register(Submission(1, 8), 8, 0))]

  lemma RegistersFollow(past: seq<Network>)
    ensures Follows(past, FORGETTING[0], FORGETTING_STEPS[0], FORGETTING[1])
    ensures Follows(past, FORGETTING[1], FORGETTING_STEPS[1], FORGETTING[2])
    ensures Follows(past, FORGETTING[2], FORGETTING_STEPS[2], FORGETTING[3])
    ensures Follows(past, FORGETTING[5], FORGETTING_STEPS[5], FORGETTING[6])
  {
    hide Happens;
    FirstRevision(past, EMPTY, 1, 5, 1);
    FirstRevision(past, FIRST_THEIRS, 2, 6, 1);
    FirstRevision(past, EMPTY, 2, 7, 0);
    FirstRevision(past, MINE, 1, 8, 0);
    assert EMPTY.definitions[Key(1, 1) := DefinitionOf(1, 5, 1)] == FIRST_THEIRS.definitions;
    assert FIRST_THEIRS.definitions[Key(2, 1) := DefinitionOf(2, 6, 1)] == THEIRS.definitions;
    assert EMPTY.definitions[Key(2, 1) := DefinitionOf(2, 7, 0)] == MINE.definitions;
    assert MINE.definitions[Key(1, 1) := DefinitionOf(1, 8, 0)] == OTHERWISE.definitions;
  }

  lemma MergeFollows(past: seq<Network>)
    requires |past| > 2 && past[2] == FORGETTING[2]
    ensures Follows(past, FORGETTING[3], FORGETTING_STEPS[3], FORGETTING[4])
    ensures Follows(past, FORGETTING[4], FORGETTING_STEPS[4], FORGETTING[5])
  {
    MergeEndsEarly();
    assert Changes(past, MINE, MergeReport(1, 2, REPORT), HALF_MERGED, false);
  }

  /**
   A merge that ends early leaves entries that only memory holds. After a restart they are gone, and their keys are
   free for other content: a run in which node 0 knows two contents for revision 1 of definition 1.
   */
  lemma RestartForgets()
    ensures History(FORGETTING, FORGETTING_STEPS)
    ensures FORGETTING[4][0].memory.definitions[Key(1, 1)].digest == 5
    ensures FORGETTING[6][0].memory.definitions[Key(1, 1)].digest == 8
  {
    hide Follows;
    forall i | 0 <= i < |FORGETTING_STEPS|
      ensures Follows(FORGETTING[..i + 1], FORGETTING[i], FORGETTING_STEPS[i], FORGETTING[i + 1])
    {
      RegistersFollow(FORGETTING[..i + 1]);
      if i == 3 || i == 4 {
        MergeFollows(FORGETTING[..i + 1]);
      }
    }
  }

  // ---------- Merging is a join ----------

  predicate HasDigest(c: Catalog, k: Key, d: Digest) {
    k in c.definitions && c.definitions[k].digest == d
  }

  predicate HasRun(c: Catalog, r: TaskRun) {
    r.id in c.runs && c.runs[r.id] == r
  }

  /** Two catalogs that no merge can find in conflict. */
  ghost predicate Compatible(a: Catalog, b: Catalog) {
    && (forall k | k in a.definitions && k in b.definitions :: a.definitions[k].digest == b.definitions[k].digest)
    && (forall x, y | x in a.runs && y in b.runs ::
          x == y || a.runs[x].idempotencyKey == b.runs[y].idempotencyKey ==> a.runs[x] == b.runs[y])
  }

  /** `c` holds exactly what `a` and `b` hold together. */
  ghost predicate IsJoin(c: Catalog, a: Catalog, b: Catalog) {
    && (forall k, d :: HasDigest(c, k, d) <==> HasDigest(a, k, d) || HasDigest(b, k, d))
    && (forall r :: HasRun(c, r) <==> HasRun(a, r) || HasRun(b, r))
  }

  lemma {:induction false} DefinitionsJoin(c: Catalog, ds: seq<Definition>)
    requires forall i | 0 <= i < |ds| :: DefinitionError(c, ds[i]).None?
    requires forall i, j | 0 <= i < j < |ds| :: KeyOf(ds[i]) != KeyOf(ds[j])
    ensures MergeDefinitions(c, ds).error.None? && MergeDefinitions(c, ds).catalog.runs == c.runs
    ensures forall k, d :: HasDigest(MergeDefinitions(c, ds).catalog, k, d)
                           <==> HasDigest(c, k, d) || exists i | 0 <= i < |ds| :: KeyOf(ds[i]) == k && ds[i].digest == d
    decreases |ds|
  {
    if ds != [] {
      var next, rest := WithDefinition(c, ds[0]), ds[1..];
      forall i | 0 <= i < |rest| ensures DefinitionError(next, rest[i]).None? {
        assert rest[i] == ds[i + 1];
      }
      DefinitionsJoin(next, rest);
      forall k, d ensures HasDigest(MergeDefinitions(c, ds).catalog, k, d)
                          <==> HasDigest(c, k, d) || exists i | 0 <= i < |ds| :: KeyOf(ds[i]) == k && ds[i].digest == d
      {
        if i :| 0 <= i < |ds| && KeyOf(ds[i]) == k && ds[i].digest == d {
          if i > 0 {
            assert rest[i - 1] == ds[i];
          }
        }
      }
    }
  }

  /** The runs of `rs` can be added to `c` one after another. */
  ghost predicate RunsFit(c: Catalog, rs: seq<TaskRun>) {
    && (forall i | 0 <= i < |rs| :: Grounded(c, rs[i]))
    && (forall x, i | x in c.runs && 0 <= i < |rs| ::
          x == rs[i].id || c.runs[x].idempotencyKey == rs[i].idempotencyKey ==> c.runs[x] == rs[i])
    && (forall i, j | 0 <= i < |rs| && 0 <= j < |rs| ::
          rs[i].id == rs[j].id || rs[i].idempotencyKey == rs[j].idempotencyKey ==> rs[i] == rs[j])
  }

  lemma FirstRunFits(c: Catalog, rs: seq<TaskRun>)
    requires RunsFit(c, rs) && rs != []
    ensures RunError(c, rs[0]).None? && RunsFit(WithRun(c, rs[0]), rs[1..])
  {
    assert forall x | x in c.runs :: c.runs[x].idempotencyKey == rs[0].idempotencyKey ==> c.runs[x] == rs[0];
    assert Grounded(c, rs[0]);
    var next, rest := WithRun(c, rs[0]), rs[1..];
    assert forall i | 0 <= i < |rest| :: rest[i] == rs[i + 1];
    forall i | 0 <= i < |rest| ensures Grounded(next, rest[i]) {
      assert Grounded(c, rs[i + 1]);
    }
  }

  lemma {:induction false} RunsJoin(c: Catalog, rs: seq<TaskRun>)
    requires RunsFit(c, rs)
    ensures MergeRuns(c, rs).error.None? && MergeRuns(c, rs).catalog.definitions == c.definitions
    ensures forall r :: HasRun(MergeRuns(c, rs).catalog, r) <==> HasRun(c, r) || r in rs
    decreases |rs|
  {
    hide RunsFit, RunError;
    if rs != [] {
      FirstRunFits(c, rs);
      RunsJoin(WithRun(c, rs[0]), rs[1..]);
      assert HasRunAfter(c, rs[0], rs) by { FirstRunHeld(c, rs); }
      assert rs == [rs[0]] + rs[1..];
    }
  }

  ghost predicate HasRunAfter(c: Catalog, first: TaskRun, rs: seq<TaskRun>) {
    forall r :: HasRun(WithRun(c, first), r) <==> HasRun(c, r) || r == first
  }

  lemma FirstRunHeld(c: Catalog, rs: seq<TaskRun>)
    requires RunsFit(c, rs) && rs != []
    ensures HasRunAfter(c, rs[0], rs)
  {
  }

  lemma ReportedRunsFit(c: Catalog, b: Catalog, s: Snapshot, between: Catalog)
    requires Sound(b) && Reports(s, b) && Compatible(c, b)
    requires between.runs == c.runs
    requires forall k | k in b.definitions :: HasDigest(between, k, b.definitions[k].digest)
    ensures RunsFit(between, s.runs)
  {
    forall i | 0 <= i < |s.runs| ensures HasRun(b, s.runs[i]) && Grounded(between, s.runs[i]) {
      assert s.runs[i] in s.runs;
      assert Grounded(b, s.runs[i]);
    }
  }

  /** After a compatible peer's definitions are merged, their digests are joined. */
  lemma ReportedDefinitionsJoin(a: Catalog, b: Catalog, s: Snapshot)
    requires FiledDefinitions(b) && Reports(s, b) && Compatible(a, b)
    ensures MergeDefinitions(a, s.definitions).error.None? && MergeDefinitions(a, s.definitions).catalog.runs == a.runs
    ensures forall k, d :: HasDigest(MergeDefinitions(a, s.definitions).catalog, k, d)
                           <==> HasDigest(a, k, d) || HasDigest(b, k, d)
  {
    hide MergeDefinitions;
    forall i | 0 <= i < |s.definitions|
      ensures KeyOf(s.definitions[i]) in b.definitions && b.definitions[KeyOf(s.definitions[i])] == s.definitions[i]
    {
      assert s.definitions[i] in s.definitions;
    }
    DefinitionsJoin(a, s.definitions);
    forall k, d | HasDigest(b, k, d) ensures exists i | 0 <= i < |s.definitions| ::
                                              KeyOf(s.definitions[i]) == k && s.definitions[i].digest == d
    {
      assert b.definitions[k] in s.definitions;
    }
  }

  /** Merging a compatible peer's report never fails and yields the join of the two catalogs. */
  lemma MergeIsJoin(a: Catalog, b: Catalog, s: Snapshot)
    requires Sound(a) && Sound(b) && Reports(s, b) && Compatible(a, b)
    ensures Merge(a, s).error.None? && IsJoin(Merge(a, s).catalog, a, b)
  {
    hide Sound, MergeDefinitions, MergeRuns, Compatible, RunsFit, Reports;
    SoundIsFiled(b);
    ReportedDefinitionsJoin(a, b, s);
    var between := MergeDefinitions(a, s.definitions).catalog;
    ReportedRunsFit(a, b, s, between);
    RunsJoin(between, s.runs);
    assert forall r :: r in s.runs <==> HasRun(b, r) by { ReportedRuns(s, b); }
  }

  lemma ReportedRuns(s: Snapshot, b: Catalog)
    requires Reports(s, b)
    ensures forall r :: r in s.runs <==> HasRun(b, r)
  {
  }

  ghost predicate FiledDefinitions(c: Catalog) {
    forall k | k in c.definitions :: KeyOf(c.definitions[k]) == k
  }

  lemma SoundIsFiled(c: Catalog)
    requires Sound(c)
    ensures FiledDefinitions(c)
  {
  }

  // ---------- Any number of merges ----------

  /** Merging the reports one after another; each merge may end early. */
  function MergeEach(c: Catalog, ss: seq<Snapshot>): Catalog
    decreases |ss|
  {
    if ss == [] then c else MergeEach(Merge(c, ss[0]).catalog, ss[1..])
  }

  predicate NoneFails(c: Catalog, ss: seq<Snapshot>)
    decreases |ss|
  {
    ss == [] || (Merge(c, ss[0]).error.None? && NoneFails(Merge(c, ss[0]).catalog, ss[1..]))
  }

  ghost predicate AllReport(ss: seq<Snapshot>, bs: seq<Catalog>) {
    |ss| == |bs| && forall i | 0 <= i < |ss| :: Sound(bs[i]) && Reports(ss[i], bs[i])
  }

  ghost predicate AllCompatible(a: Catalog, bs: seq<Catalog>) {
    && (forall i | 0 <= i < |bs| :: Compatible(a, bs[i]))
    && (forall i, j | 0 <= i < |bs| && 0 <= j < |bs| :: Compatible(bs[i], bs[j]))
  }

  /** `c` is the union of `a` and all of `bs`. */
  ghost predicate IsUnion(c: Catalog, a: Catalog, bs: seq<Catalog>) {
    && (forall k, d :: HasDigest(c, k, d) <==> HasDigest(a, k, d) || exists i | 0 <= i < |bs| :: HasDigest(bs[i], k, d))
    && (forall r :: HasRun(c, r) <==> HasRun(a, r) || exists i | 0 <= i < |bs| :: HasRun(bs[i], r))
  }

  lemma JoinIsCompatible(c: Catalog, a: Catalog, b: Catalog, other: Catalog)
    requires IsJoin(c, a, b) && Compatible(a, other) && Compatible(b, other) && Sound(a) && Sound(b) && Sound(c)
    ensures Compatible(c, other)
  {
    forall k | k in c.definitions && k in other.definitions
      ensures c.definitions[k].digest == other.definitions[k].digest
    {
      assert HasDigest(c, k, c.definitions[k].digest);
    }
    forall x, y | x in c.runs && y in other.runs
      ensures x == y || c.runs[x].idempotencyKey == other.runs[y].idempotencyKey ==> c.runs[x] == other.runs[y]
    {
      assert HasRun(c, c.runs[x]);
    }
  }

  lemma UnionStep(c: Catalog, next: Catalog, a: Catalog, b: Catalog, rest: seq<Catalog>)
    requires IsJoin(next, a, b) && IsUnion(c, next, rest)
    ensures IsUnion(c, a, [b] + rest)
  {
    var bs := [b] + rest;
    assert forall i | 0 <= i < |rest| :: rest[i] == bs[i + 1];
    assert bs[0] == b;
    forall k, d
      ensures HasDigest(c, k, d) <==> HasDigest(a, k, d) || exists i | 0 <= i < |bs| :: HasDigest(bs[i], k, d)
    {
      if i :| 0 <= i < |bs| && HasDigest(bs[i], k, d) {
        assert i == 0 || HasDigest(rest[i - 1], k, d);
      }
    }
    forall r ensures HasRun(c, r) <==> HasRun(a, r) || exists i | 0 <= i < |bs| :: HasRun(bs[i], r) {
      if i :| 0 <= i < |bs| && HasRun(bs[i], r) {
        assert i == 0 || HasRun(rest[i - 1], r);
      }
    }
  }

  /** Pairwise compatible reports merge to their union, whatever their order and however often each is repeated. */
  lemma {:induction false} MergesAreUnion(a: Catalog, ss: seq<Snapshot>, bs: seq<Catalog>)
    requires Sound(a) && AllReport(ss, bs) && AllCompatible(a, bs)
    ensures IsUnion(MergeEach(a, ss), a, bs) && Sound(MergeEach(a, ss))
    ensures NoneFails(a, ss)
    decreases |ss|
  {
    hide Sound, Compatible, Reports, IsJoin, IsUnion, Merge;
    if ss == [] {
      assert IsUnion(a, a, []) by { NothingMerged(a); }
      assert bs == [];
    } else {
      var next := Merge(a, ss[0]).catalog;
      MergeIsJoin(a, bs[0], ss[0]);
      MergeKeepsSound(a, bs[0], ss[0]);
      forall i | 0 <= i < |bs[1..]| ensures Compatible(next, bs[1..][i]) {
        JoinIsCompatible(next, a, bs[0], bs[i + 1]);
      }
      MergesAreUnion(next, ss[1..], bs[1..]);
      UnionStep(MergeEach(next, ss[1..]), next, a, bs[0], bs[1..]);
      assert [bs[0]] + bs[1..] == bs;
    }
  }

  lemma NothingMerged(a: Catalog)
    ensures IsUnion(a, a, [])
  {
  }

  /** Two nodes that start alike and hear the same peers, in any order and any number of times, agree. */
  lemma MergeOrderIsIrrelevant(a: Catalog, ss: seq<Snapshot>, bs: seq<Catalog>, ss': seq<Snapshot>, bs': seq<Catalog>)
    requires Sound(a) && AllReport(ss, bs) && AllCompatible(a, bs) && AllReport(ss', bs') && AllCompatible(a, bs')
    requires forall b :: b in bs <==> b in bs'
    ensures MergeEach(a, ss).runs == MergeEach(a, ss').runs
    ensures forall k, d :: HasDigest(MergeEach(a, ss), k, d) <==> HasDigest(MergeEach(a, ss'), k, d)
  {
    hide Sound, Compatible, Reports, Merge, MergeEach;
    MergesAreUnion(a, ss, bs);
    MergesAreUnion(a, ss', bs');
    var c, c' := MergeEach(a, ss), MergeEach(a, ss');
    SameUnion(c, c', a, bs, bs');
    SameRuns(c, c');
  }

  lemma SameUnion(c: Catalog, c': Catalog, a: Catalog, bs: seq<Catalog>, bs': seq<Catalog>)
    requires IsUnion(c, a, bs) && IsUnion(c', a, bs') && forall b :: b in bs <==> b in bs'
    ensures forall k, d :: HasDigest(c, k, d) <==> HasDigest(c', k, d)
    ensures forall r :: HasRun(c, r) <==> HasRun(c', r)
  {
    OneWay(c, c', a, bs, bs');
    OneWay(c', c, a, bs', bs);
  }

  lemma OneWay(c: Catalog, c': Catalog, a: Catalog, bs: seq<Catalog>, bs': seq<Catalog>)
    requires IsUnion(c, a, bs) && IsUnion(c', a, bs') && forall b :: b in bs ==> b in bs'
    ensures forall k, d :: HasDigest(c, k, d) ==> HasDigest(c', k, d)
    ensures forall r :: HasRun(c, r) ==> HasRun(c', r)
  {
    forall k, d | HasDigest(c, k, d) ensures HasDigest(c', k, d) {
      if !HasDigest(a, k, d) {
        var i :| 0 <= i < |bs| && HasDigest(bs[i], k, d);
        assert bs[i] in bs';
        var j :| 0 <= j < |bs'| && bs'[j] == bs[i];
      }
    }
    forall r | HasRun(c, r) ensures HasRun(c', r) {
      if !HasRun(a, r) {
        var i :| 0 <= i < |bs| && HasRun(bs[i], r);
        assert bs[i] in bs';
        var j :| 0 <= j < |bs'| && bs'[j] == bs[i];
      }
    }
  }

  lemma SameRuns(c: Catalog, c': Catalog)
    requires Sound(c) && Sound(c') && forall r :: HasRun(c, r) <==> HasRun(c', r)
    ensures c.runs == c'.runs
  {
    forall id | id in c.runs ensures id in c'.runs && c'.runs[id] == c.runs[id] {
      assert HasRun(c, c.runs[id]);
    }
    forall id | id in c'.runs ensures id in c.runs {
      assert HasRun(c', c'.runs[id]);
    }
  }
}
