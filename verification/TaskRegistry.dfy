/** A node's task registry: every operation loads a state, changes it and writes it back. */
module TaskRegistry {
  import opened Common
  import opened Registry
  import opened Resources

  /** The tasks that count against the capacity of `node`. */
  function OwnedTasks(states: map<TaskId, TaskState>, node: NodeId): set<TaskId> {
    set t | t in states && states[t].owner == node && HoldsCapacity(states[t])
  }

  class PersistentTaskRegistry {
    const local: NodeId
    var requests: map<TaskId, Request>    // of the registered definitions
    var states: map<TaskId, TaskState>

    constructor (local: NodeId)
      ensures this.local == local && states == map[] && requests == map[] && Valid()
    {
      this.local := local;
      states, requests := map[], map[];
    }

    /** A task has a state exactly when its definition is registered. */
    predicate Valid()
      reads this
    {
      states.Keys == requests.Keys
    }

    /** A new task starts STOPPED here or REMOTE elsewhere, in generation 0; a known one must be declared alike. */
    method RegisterDefinition(t: TaskId, request: Request, owner: NodeId) returns (added: Result<bool, RegistryError>)
      requires Valid()
      modifies this
      ensures Valid()
      ensures added == if t !in old(states) then Ok(true)
                       else if old(requests)[t] == request then Ok(false) else Err(ConflictingDefinition)
      ensures if added == Ok(true) then
                states == old(states)[t := TaskState(owner, 0, if owner == local then Stopped else Remote, None)]
                && requests == old(requests)[t := request]
              else states == old(states) && requests == old(requests)
    {
      if t in states {
        return if requests[t] != request then Err(ConflictingDefinition) else Ok(false);
      }
      requests := requests[t := request];
      states := states[t := TaskState(owner, 0, if owner == local then Stopped else Remote, None)];
      added := Ok(true);
    }

    /** Writes back the outcome of an operation that may be refused. */
    method Write(t: TaskId, outcome: StateResult) returns (r: StateResult)
      requires Valid() && t in states
      modifies `states
      ensures Valid() && r == outcome
      ensures states == if outcome.Ok? then old(states)[t := outcome.value] else old(states)
    {
      if outcome.Ok? {
        states := states[t := outcome.value];
      }
      r := outcome;
    }

    method MarkMigrating(t: TaskId, m: MigrationId) returns (r: StateResult)
      requires Valid()
      modifies `states
      ensures Valid()
      ensures r == if t in old(states) then MigratingState(old(states)[t], local, m) else Err(UnknownTask)
      ensures states == if r.Ok? then old(states)[t := r.value] else old(states)
    {
      if t !in states {
        return Err(UnknownTask);
      }
      var s := states[t];
      if s.owner != local {
        r := Write(t, Err(NotOwner));
      } else if s.status.Completed? {
        r := Write(t, Err(AlreadyCompleted));
      } else {
        r := Write(t, Ok(s.(status := Migrating, lastMigration := Some(m))));
      }
    }

    method ClaimLocal(t: TaskId, generation: nat, m: MigrationId) returns (r: StateResult)
      requires Valid()
      modifies `states
      ensures Valid()
      ensures r == if t in old(states) then ClaimedState(old(states)[t], local, generation, m) else Err(UnknownTask)
      ensures states == if r.Ok? then old(states)[t := r.value] else old(states)
    {
      if t !in states {
        return Err(UnknownTask);
      }
      var s := states[t];
      if generation < s.generation {
        r := Write(t, Err(StaleGeneration));
      } else {
        s := s.(owner := local, generation := generation, status := Stopped);
        r := Write(t, Ok(s.(lastMigration := Some(m))));
      }
    }

    method MarkRemote(t: TaskId, owner: NodeId, generation: nat, m: MigrationId) returns (r: StateResult)
      requires Valid()
      modifies `states
      ensures Valid()
      ensures r == if t in old(states) then Ok(RemoteState(old(states)[t], owner, generation, m)) else Err(UnknownTask)
      ensures states == if r.Ok? then old(states)[t := r.value] else old(states)
    {
      if t !in states {
        return Err(UnknownTask);
      }
      var s := states[t];
      if s.generation == generation && s.owner == owner && s.status.Completed? {
        r := Write(t, Ok(s));
      } else {
        r := Write(t, Ok(s.(owner := owner, generation := generation, status := Remote, lastMigration := Some(m))));
      }
    }

    method RestoreLocalAfterFailure(t: TaskId, generation: nat) returns (r: StateResult)
      requires Valid()
      modifies `states
      ensures Valid()
      ensures r == if t in old(states) then Ok(RestoredState(old(states)[t], local, generation)) else Err(UnknownTask)
      ensures states == if r.Ok? then old(states)[t := r.value] else old(states)
    {
      if t !in states {
        return Err(UnknownTask);
      }
      r := Write(t, Ok(states[t].(owner := local, generation := generation, status := Stopped)));
    }

    /** Takes over a peer's view of the owner unless the local view is newer or contradicts it. */
    method ApplyOwnership(t: TaskId, u: OwnershipUpdate) returns (r: Result<bool, RegistryError>)
      requires Valid()
      modifies `states
      ensures Valid()
      ensures r == if t in old(states) then Ok(Accepts(old(states)[t], u)) else Err(UnknownTask)
      ensures states == if t in old(states) then old(states)[t := OwnershipApplied(old(states)[t], local, u)]
                        else old(states)
    {
      if t !in states {
        return Err(UnknownTask);
      }
      var s := states[t];
      assert states == states[t := s];
      if u.generation < s.generation {
        return Ok(false);
      }
      if u.generation == s.generation && u.owner != s.owner {
        return Ok(false);
      }
      if u.generation == s.generation && s.status.Completed? && !u.completed {
        return Ok(false);
      }
      s := s.(owner := u.owner, generation := u.generation);
      if u.migration.Some? {
        s := s.(lastMigration := u.migration);
      }
      if u.completed {
        s := s.(status := Completed);
      } else if u.owner != local {
        s := s.(status := Remote);
      }
      states := states[t := s];
      r := Ok(true);
    }

    method CountOwned(node: NodeId) returns (count: nat)
      ensures count == |OwnedTasks(states, node)|
    {
      count := 0;
      var todo := states.Keys;
      ghost var counted: set<TaskId> := {};
      while todo != {}
        invariant todo <= states.Keys && count == |counted|
        invariant counted == set t | t in states && t !in todo && states[t].owner == node && HoldsCapacity(states[t])
        decreases |todo|
      {
        var t :| t in todo;
        todo := todo - {t};
        if states[t].owner == node && HoldsCapacity(states[t]) {
          count := count + 1;
          counted := counted + {t};
        }
      }
      assert counted == OwnedTasks(states, node);
    }

    /** The declared demands of those same tasks, one entry a task. */
    method OwnedResourceRequests(node: NodeId) returns (demands: seq<Request>)
      requires Valid()
      ensures |demands| == |OwnedTasks(states, node)|
      ensures exists tasks :: ListsDemands(requests, OwnedTasks(states, node), tasks, demands)
    {
      demands := [];
      ghost var tasks: seq<TaskId> := [];
      var todo := states.Keys;
      ghost var counted: set<TaskId> := {};
      while todo != {}
        invariant todo <= states.Keys && |demands| == |counted|
        invariant counted == set t | t in states && t !in todo && states[t].owner == node && HoldsCapacity(states[t])
        invariant ListsDemands(requests, counted, tasks, demands)
        decreases |todo|
      {
        var t :| t in todo;
        todo := todo - {t};
        if states[t].owner == node && HoldsCapacity(states[t]) {
          demands, tasks := demands + [requests[t]], tasks + [t];
          counted := counted + {t};
        }
      }
      assert counted == OwnedTasks(states, node);
    }
  }

  /** `tasks` lists `owned`, and `demands` their declared demands in that order. */
  ghost predicate ListsDemands(requests: map<TaskId, Request>, owned: set<TaskId>, tasks: seq<TaskId>,
                               demands: seq<Request>)
  {
    && |demands| == |tasks| && (forall t :: t in tasks <==> t in owned)
    && forall i | 0 <= i < |tasks| :: tasks[i] in requests && demands[i] == requests[tasks[i]]
  }

  // ---------- Ownership converges ----------

  function ApplyAll(s: TaskState, local: NodeId, us: seq<OwnershipUpdate>): TaskState
    decreases |us|
  {
    if us == [] then s else ApplyAll(OwnershipApplied(s, local, us[0]), local, us[1..])
  }

  /** An update never lowers the generation, and changes the owner only by raising it. */
  lemma {:induction false} OwnershipIsMonotone(s: TaskState, local: NodeId, us: seq<OwnershipUpdate>)
    ensures ApplyAll(s, local, us).generation >= s.generation
    ensures ApplyAll(s, local, us).owner != s.owner ==> ApplyAll(s, local, us).generation > s.generation
    ensures s.status.Completed? && !ApplyAll(s, local, us).status.Completed? ==>
              ApplyAll(s, local, us).generation > s.generation
    decreases |us|
  {
    if us != [] {
      OwnershipIsMonotone(OwnershipApplied(s, local, us[0]), local, us[1..]);
    }
  }

  /** A claim to ownership, ordered by generation and then by completion. */
  datatype Claim = Claim(generation: nat, completed: bool)

  function ClaimOf(u: OwnershipUpdate): Claim {
    Claim(u.generation, u.completed)
  }

  function Held(s: TaskState): Claim {
    Claim(s.generation, s.status.Completed?)
  }

  predicate NoLater(a: Claim, b: Claim) {
    a.generation < b.generation || (a.generation == b.generation && (a.completed ==> b.completed))
  }

  /** One owner per generation, counting the local view. */
  ghost predicate OneOwner(s: TaskState, us: seq<OwnershipUpdate>) {
    && (forall u | u in us :: u.generation == s.generation ==> u.owner == s.owner)
    && (forall u, v | u in us && v in us :: u.generation == v.generation ==> u.owner == v.owner)
  }

  /** `r` holds the largest claim among `s` and `us`, with the owner that goes with it. */
  ghost predicate HoldsLargest(r: TaskState, s: TaskState, us: seq<OwnershipUpdate>) {
    && NoLater(Held(s), Held(r)) && (forall u | u in us :: NoLater(ClaimOf(u), Held(r)))
    && ((Held(r) == Held(s) && r.owner == s.owner)
        || exists u :: u in us && ClaimOf(u) == Held(r) && u.owner == r.owner)
  }

  /** `r` holds the latest generation among `s` and `us`, with the owner that goes with it. */
  ghost predicate HoldsLatest(r: TaskState, s: TaskState, us: seq<OwnershipUpdate>) {
    && s.generation <= r.generation && (forall u | u in us :: u.generation <= r.generation)
    && ((r.generation == s.generation && r.owner == s.owner)
        || exists u :: u in us && u.generation == r.generation && u.owner == r.owner)
  }

  /** Generation and owner converge whatever is delivered, in any order and with any repeats. */
  lemma {:induction false} LatestOwnerWins(s: TaskState, local: NodeId, us: seq<OwnershipUpdate>)
    requires OneOwner(s, us)
    ensures HoldsLatest(ApplyAll(s, local, us), s, us)
    decreases |us|
  {
    if us != [] {
      var next := OwnershipApplied(s, local, us[0]);
      assert us[0] in us && forall u | u in us[1..] :: u in us;
      LatestOwnerWins(next, local, us[1..]);
      assert us == [us[0]] + us[1..];
    }
  }

  // ---------- Completion converges, exactly when ----------

  /** `v` is later than the local view and than all other updates, names this node, and nothing completed it. */
  ghost predicate Returns(s: TaskState, local: NodeId, us: seq<OwnershipUpdate>, v: OwnershipUpdate) {
    && v in us && v.owner == local && v.generation > s.generation
    && forall u | u in us :: u.generation <= v.generation && (u.generation == v.generation ==> !u.completed)
  }

  /** Some completion of an earlier generation may be what the node last heard. */
  ghost predicate CompletedBefore(s: TaskState, us: seq<OwnershipUpdate>, generation: nat) {
    s.status.Completed? || exists u :: u in us && u.completed && s.generation <= u.generation < generation
  }

  /** ... and so may something else: another completion status is as possible just before the task returns. */
  ghost predicate StatusInDoubt(s: TaskState, local: NodeId, us: seq<OwnershipUpdate>, generation: nat) {
    if s.status.Completed? then
      exists u :: u in us && !u.completed && u.owner != local && s.generation < u.generation < generation
    else exists u :: u in us && u.completed && s.generation <= u.generation < generation
  }

  /** Once the latest generation is known and no completion of it is to come, completion does not change. */
  lemma {:induction false} StaysSettled(s: TaskState, local: NodeId, us: seq<OwnershipUpdate>)
    requires OneOwner(s, us) && forall u | u in us :: u.generation <= s.generation
    requires forall u | u in us :: u.generation == s.generation ==> !u.completed || s.status.Completed?
    ensures Held(ApplyAll(s, local, us)) == Held(s)
    decreases |us|
  {
    if us != [] {
      assert us[0] in us && forall u | u in us[1..] :: u in us;
      StaysSettled(OwnershipApplied(s, local, us[0]), local, us[1..]);
    }
  }

  /**
   The largest claim wins, whatever the order and the repeats, unless the task returns to this node after a
   completion.
   */
  lemma {:induction false} LargestClaimWins(s: TaskState, local: NodeId, us: seq<OwnershipUpdate>)
    requires OneOwner(s, us)
    requires forall v :: Returns(s, local, us, v) ==> !CompletedBefore(s, us, v.generation)
    ensures HoldsLargest(ApplyAll(s, local, us), s, us)
    decreases |us|
  {
    if us != [] {
      var next := OwnershipApplied(s, local, us[0]);
      assert us[0] in us && forall u | u in us[1..] :: u in us;
      assert us == [us[0]] + us[1..];
      LargestClaimWins(next, local, us[1..]);
    }
  }

  /** If the task returns to this node and its status before that is not in doubt, that status stays. */
  lemma {:induction false} ReturnKeepsStatus(s: TaskState, local: NodeId, us: seq<OwnershipUpdate>, v: OwnershipUpdate)
    requires OneOwner(s, us) && Returns(s, local, us, v) && !StatusInDoubt(s, local, us, v.generation)
    ensures Held(ApplyAll(s, local, us)) == Claim(v.generation, s.status.Completed?)
    decreases |us|
  {
    var next := OwnershipApplied(s, local, us[0]);
    assert us[0] in us && forall u | u in us[1..] :: u in us;
    assert us == [us[0]] + us[1..];
    if us[0].generation == v.generation {
      StaysSettled(next, local, us[1..]);
    } else {
      ReturnKeepsStatus(next, local, us[1..], v);
    }
  }

  predicate Alike(a: TaskState, b: TaskState) {
    Held(a) == Held(b) && a.owner == b.owner
  }

  /** Any two deliveries of the same updates, in any order and with any repeats, leave the same claim and owner. */
  lemma DeliveryOrderIsIrrelevant(s: TaskState, local: NodeId, us: seq<OwnershipUpdate>, us': seq<OwnershipUpdate>)
    requires OneOwner(s, us) && forall u :: u in us <==> u in us'
    requires forall v :: Returns(s, local, us, v) ==> !StatusInDoubt(s, local, us, v.generation)
    ensures Alike(ApplyAll(s, local, us), ApplyAll(s, local, us'))
  {
    LatestOwnerWins(s, local, us);
    LatestOwnerWins(s, local, us');
    if v :| Returns(s, local, us, v) {
      ReturnKeepsStatus(s, local, us, v);
      ReturnKeepsStatus(s, local, us', v);
    } else {
      assert forall v :: Returns(s, local, us', v) ==> Returns(s, local, us, v);
      LargestClaimWins(s, local, us);
      LargestClaimWins(s, local, us');
    }
  }

  /**
   At a node that no update names, completions in any generation included, the largest claim wins and the order of
   delivery does not matter.
   */
  lemma UnnamedNodeConverges(s: TaskState, local: NodeId, us: seq<OwnershipUpdate>, us': seq<OwnershipUpdate>)
    requires OneOwner(s, us) && forall u | u in us :: u.owner != local
    requires forall u :: u in us <==> u in us'
    ensures HoldsLargest(ApplyAll(s, local, us), s, us)
    ensures Alike(ApplyAll(s, local, us), ApplyAll(s, local, us'))
  {
    LargestClaimWins(s, local, us);
    DeliveryOrderIsIrrelevant(s, local, us, us');
  }

  // ---------- Two orders that disagree ----------

  /** The same updates, with `x` first. */
  lemma BroughtForward(us: seq<OwnershipUpdate>, x: OwnershipUpdate) returns (rest: seq<OwnershipUpdate>)
    requires x in us
    ensures multiset([x] + rest) == multiset(us) && forall u | u in rest :: u in us
  {
    var i :| 0 <= i < |us| && us[i] == x;
    rest := us[..i] + us[i + 1..];
    assert us == us[..i] + [x] + us[i + 1..];
  }

  lemma ApplyFirst(s: TaskState, local: NodeId, x: OwnershipUpdate, rest: seq<OwnershipUpdate>)
    ensures ApplyAll(s, local, [x] + rest) == ApplyAll(OwnershipApplied(s, local, x), local, rest)
  {
    assert ([x] + rest)[1..] == rest;
  }

  /** Delivered first, the return finds the status this node started with. */
  lemma ReturnFirst(s: TaskState, local: NodeId, us: seq<OwnershipUpdate>, v: OwnershipUpdate)
    returns (vs: seq<OwnershipUpdate>)
    requires OneOwner(s, us) && Returns(s, local, us, v)
    ensures multiset(vs) == multiset(us)
    ensures Held(ApplyAll(s, local, vs)) == Claim(v.generation, s.status.Completed?)
  {
    var rest := BroughtForward(us, v);
    vs := [v] + rest;
    ApplyFirst(s, local, v, rest);
    StaysSettled(OwnershipApplied(s, local, v), local, rest);
  }

  /** Delivered after an earlier update that the node accepts, it finds the status which that one leaves. */
  lemma ReturnSecond(s: TaskState, local: NodeId, us: seq<OwnershipUpdate>, u: OwnershipUpdate, v: OwnershipUpdate)
    returns (ws: seq<OwnershipUpdate>)
    requires OneOwner(s, us) && Returns(s, local, us, v) && u in us && u.generation < v.generation && Accepts(s, u)
    ensures multiset(ws) == multiset(us)
    ensures Held(ApplyAll(s, local, ws)) == Claim(v.generation, OwnershipApplied(s, local, u).status.Completed?)
  {
    var rest := BroughtForward(us, u);
    assert v in multiset([u] + rest);
    assert v in rest;
    var last := BroughtForward(rest, v);
    ws := [u] + ([v] + last);
    assert multiset(ws) == multiset{u} + multiset([v] + last) && multiset([u] + rest) == multiset{u} + multiset(rest);
    var next := OwnershipApplied(s, local, u);
    ApplyFirst(s, local, u, [v] + last);
    ApplyFirst(next, local, v, last);
    StaysSettled(OwnershipApplied(next, local, v), local, last);
  }

  lemma TwoOrdersDisagree(s: TaskState, local: NodeId, us: seq<OwnershipUpdate>, v: OwnershipUpdate)
    returns (vs: seq<OwnershipUpdate>, ws: seq<OwnershipUpdate>)
    requires OneOwner(s, us) && Returns(s, local, us, v) && StatusInDoubt(s, local, us, v.generation)
    ensures multiset(vs) == multiset(us) == multiset(ws)
    ensures !Alike(ApplyAll(s, local, vs), ApplyAll(s, local, ws))
  {
    vs := ReturnFirst(s, local, us, v);
    var u :| u in us && s.generation <= u.generation < v.generation
             && if s.status.Completed? then !u.completed && u.owner != local && s.generation < u.generation
                else u.completed;
    ws := ReturnSecond(s, local, us, u, v);
  }

  lemma SameElements(us: seq<OwnershipUpdate>, vs: seq<OwnershipUpdate>)
    requires multiset(us) == multiset(vs)
    ensures forall u :: u in us <==> u in vs
  {
    assert forall u :: u in us <==> u in multiset(us);
    assert forall u :: u in vs <==> u in multiset(vs);
  }

  /**
   Every order of delivery leaves the same claim and owner exactly when it is not so that the latest update names
   this node, does not complete the task, and finds the node's completion status in doubt.
   */
  lemma OrderIsIrrelevantExactlyWhen(s: TaskState, local: NodeId, us: seq<OwnershipUpdate>)
    requires OneOwner(s, us)
    ensures (forall v :: Returns(s, local, us, v) ==> !StatusInDoubt(s, local, us, v.generation))
            <==> forall vs, ws :: multiset(vs) == multiset(us) == multiset(ws) ==>
                   Alike(ApplyAll(s, local, vs), ApplyAll(s, local, ws))
  {
    hide OneOwner, Returns, StatusInDoubt, Alike;
    if v :| Returns(s, local, us, v) && StatusInDoubt(s, local, us, v.generation) {
      var vs, ws := TwoOrdersDisagree(s, local, us, v);
    } else {
      forall vs, ws | multiset(vs) == multiset(us) == multiset(ws)
        ensures Alike(ApplyAll(s, local, vs), ApplyAll(s, local, ws))
      {
        SameElements(us, vs);
        SameElements(us, ws);
        DeliveryOrderIsIrrelevant(s, local, us, vs);
        DeliveryOrderIsIrrelevant(s, local, us, ws);
        AlikeChain(ApplyAll(s, local, us), ApplyAll(s, local, vs), ApplyAll(s, local, ws));
      }
    }
  }

  lemma AlikeChain(a: TaskState, b: TaskState, c: TaskState)
    requires Alike(a, b) && Alike(a, c)
    ensures Alike(b, c)
  {
  }

  /**
   Every order leaves the largest claim exactly when it is not so that the latest update names this node, does not
   complete the task, and an earlier generation was completed.
   */
  lemma LargestClaimWinsExactlyWhen(s: TaskState, local: NodeId, us: seq<OwnershipUpdate>)
    requires OneOwner(s, us)
    ensures (forall v :: Returns(s, local, us, v) ==> !CompletedBefore(s, us, v.generation))
            <==> forall vs :: multiset(vs) == multiset(us) ==> HoldsLargest(ApplyAll(s, local, vs), s, us)
  {
    if v :| Returns(s, local, us, v) && CompletedBefore(s, us, v.generation) {
      var vs := StaleCompletion(s, local, us, v);
      assert !HoldsLargest(ApplyAll(s, local, vs), s, us);
    } else {
      hide HoldsLargest;
      forall vs | multiset(vs) == multiset(us) ensures HoldsLargest(ApplyAll(s, local, vs), s, us) {
        SameElements(us, vs);
        assert forall v :: Returns(s, local, vs, v) ==> Returns(s, local, us, v);
        LargestClaimWins(s, local, vs);
        SameLargest(ApplyAll(s, local, vs), s, us, vs);
      }
    }
  }

  lemma SameLargest(r: TaskState, s: TaskState, us: seq<OwnershipUpdate>, vs: seq<OwnershipUpdate>)
    requires HoldsLargest(r, s, vs) && forall u :: u in us <==> u in vs
    ensures HoldsLargest(r, s, us)
  {
  }

  /** An order in which an earlier completion passes for one of the latest generation. */
  lemma StaleCompletion(s: TaskState, local: NodeId, us: seq<OwnershipUpdate>, v: OwnershipUpdate)
    returns (vs: seq<OwnershipUpdate>)
    requires OneOwner(s, us) && Returns(s, local, us, v) && CompletedBefore(s, us, v.generation)
    ensures multiset(vs) == multiset(us) && Held(ApplyAll(s, local, vs)) == Claim(v.generation, true)
  {
    if s.status.Completed? {
      vs := ReturnFirst(s, local, us, v);
    } else {
      var u :| u in us && u.completed && s.generation <= u.generation < v.generation;
      vs := ReturnSecond(s, local, us, u, v);
    }
  }

  // ---------- Once more ----------

  lemma {:induction false} ApplyTwice(s: TaskState, local: NodeId, us: seq<OwnershipUpdate>, vs: seq<OwnershipUpdate>)
    ensures ApplyAll(s, local, us + vs) == ApplyAll(ApplyAll(s, local, us), local, vs)
    decreases |us|
  {
    if us == [] {
      assert us + vs == vs;
    } else {
      assert (us + vs)[1..] == us[1..] + vs;
      ApplyTwice(OwnershipApplied(s, local, us[0]), local, us[1..], vs);
    }
  }

  /** A completion of the generation that is held was not missed. */
  lemma {:induction false} CompletionIsHeard(s: TaskState, local: NodeId, us: seq<OwnershipUpdate>, u: OwnershipUpdate)
    requires OneOwner(s, us) && u in us && u.completed
    ensures var r := ApplyAll(s, local, us); u.generation < r.generation || r.status.Completed?
    decreases |us|
  {
    var next := OwnershipApplied(s, local, us[0]);
    assert us[0] in us && forall v | v in us[1..] :: v in us;
    assert us == [us[0]] + us[1..];
    if u in us[1..] {
      CompletionIsHeard(next, local, us[1..], u);
    } else {
      OwnershipIsMonotone(next, local, us[1..]);
    }
  }

  /** Delivering everything again changes nothing, whatever was delivered. */
  lemma RedeliveryIsIdle(s: TaskState, local: NodeId, us: seq<OwnershipUpdate>)
    requires OneOwner(s, us)
    ensures Alike(ApplyAll(s, local, us + us), ApplyAll(s, local, us))
  {
    var r := ApplyAll(s, local, us);
    ApplyTwice(s, local, us, us);
    LatestOwnerWins(s, local, us);
    forall u | u in us && u.completed ensures u.generation < r.generation || r.status.Completed? {
      CompletionIsHeard(s, local, us, u);
    }
    StaysSettled(r, local, us);
    LatestOwnerWins(r, local, us);
  }

  /**
   Two orders that disagree: an update that names this node keeps the local status, so a task completed in an
   earlier generation still counts as completed after its ownership returned.
   */
  lemma ReturningOwnershipKeepsStatus(local: NodeId, other: NodeId)
    requires local != other
    ensures var s := TaskState(other, 0, Remote, None);
            var us := [OwnershipUpdate(other, 1, true, None), OwnershipUpdate(local, 2, false, None)];
            && Held(ApplyAll(s, local, us)) == Claim(2, true)
            && Held(ApplyAll(s, local, [us[1], us[0]])) == Claim(2, false)
  {
    var s := TaskState(other, 0, Remote, None);
    var u, v := OwnershipUpdate(other, 1, true, None), OwnershipUpdate(local, 2, false, None);
    assert ApplyAll(s, local, [u, v]) == ApplyAll(OwnershipApplied(s, local, u), local, [v]);
    assert ApplyAll(s, local, [v, u]) == ApplyAll(OwnershipApplied(s, local, v), local, [u]);
    assert [u][1..] == [] && [v][1..] == [];
  }
}
