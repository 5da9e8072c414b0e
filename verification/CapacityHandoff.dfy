/**
 A node's capacity while tasks move in (magellan/bidding/arbiter.py, magellan/migration/service.py,
 magellan/state/persistent_registry.py): the lease counts until the task does.

 A round takes one snapshot of what is left; anything else may happen before each of its decisions.
 */
module CapacityHandoff {
  import opened Common
  import opened Resources
  import opened BidBook
  import opened BidLifecycle
  import opened Admission
  import opened Ranking
  import opened Arbiter

  /** The node's limits, and every task's declared demand. */
  datatype Site = Site(slots: Option<nat>, capacity: Capacity, request: TaskId -> Request)

  /** `owned` are the local tasks in a capacity-holding status; `round` is what the running round has left. */
  datatype State = State(owned: set<TaskId>, book: Book, round: Option<Room>, ttl: real)

  datatype Step =
    | Store(op: Op)                                             // anything but an acceptance
    | OpenRound(owned: seq<TaskId>, reserved: seq<Bid>)         // the snapshot
    | AdmitBid(id: BidId, rank: nat, credit: real, at: real)    // an acceptance of the running round
    | CloseRound
    | StartTask(id: BidId)                                      // the activation of a bid starts its task
    | LeaveTask(task: TaskId)                                   // finished, stopped or handed over

  function LeasedTasks(k: Book): set<TaskId> {
    set id | id in k.records && Active(k.records[id]) :: k.records[id].terms.task
  }

  /** Every task that counts, once. */
  function Counted(s: State): set<TaskId> {
    s.owned + LeasedTasks(s.book)
  }

  /** A bid declares its task's demand. */
  ghost predicate Honest(site: Site, k: Book) {
    forall id | id in k.records :: RequestOf(k.records[id]) == site.request(k.records[id].terms.task)
  }

  ghost predicate ValidSite(site: Site) {
    ValidCapacity(site.capacity) && forall t :: ValidRequest(site.request(t))
  }

  // ---------- Usage ----------

  ghost function Usage(site: Site, tasks: set<TaskId>): Demand {
    if tasks == {} then NOTHING
    else
      var t :| t in tasks;
      Plus(Usage(site, tasks - {t}), DemandOf(site.request(t)))
  }

  lemma {:induction false} UsageRemove(site: Site, tasks: set<TaskId>, t: TaskId)
    requires t in tasks
    ensures Usage(site, tasks) == Plus(Usage(site, tasks - {t}), DemandOf(site.request(t)))
    decreases |tasks|
  {
    var u :| u in tasks && Usage(site, tasks) == Plus(Usage(site, tasks - {u}), DemandOf(site.request(u)));
    if u != t {
      UsageRemove(site, tasks - {u}, t);
      UsageRemove(site, tasks - {t}, u);
      assert tasks - {u} - {t} == tasks - {t} - {u};
      var rest, a, b := Usage(site, tasks - {u} - {t}), DemandOf(site.request(t)), DemandOf(site.request(u));
      assert Usage(site, tasks) == Plus(Plus(rest, a), b) && Usage(site, tasks - {t}) == Plus(rest, b);
    }
  }

  lemma {:induction false} UsageShrinks(site: Site, fewer: set<TaskId>, tasks: set<TaskId>)
    requires ValidSite(site) && fewer <= tasks
    ensures AtMostDemand(Usage(site, fewer), Usage(site, tasks)) && |fewer| <= |tasks|
    decreases |tasks|
  {
    if fewer != tasks {
      var t :| t in tasks && t !in fewer;
      UsageRemove(site, tasks, t);
      UsageShrinks(site, fewer, tasks - {t});
    }
  }

  lemma UsageAdd(site: Site, tasks: set<TaskId>, t: TaskId)
    requires ValidSite(site)
    ensures AtMostDemand(Usage(site, tasks + {t}), Plus(Usage(site, tasks), DemandOf(site.request(t))))
    ensures |tasks + {t}| <= |tasks| + 1
  {
    if t in tasks {
      assert tasks + {t} == tasks;
    } else {
      UsageRemove(site, tasks + {t}, t);
      assert tasks + {t} - {t} == tasks;
    }
  }

  function RequestsFor(site: Site, tasks: seq<TaskId>): seq<Request> {
    seq(|tasks|, i requires 0 <= i < |tasks| => site.request(tasks[i]))
  }

  function Elements(tasks: seq<TaskId>): set<TaskId> {
    set t | t in tasks
  }

  /** A list counts every task it names at least once. */
  lemma {:induction false} ListCounts(site: Site, tasks: seq<TaskId>)
    requires ValidSite(site)
    ensures AtMostDemand(Usage(site, Elements(tasks)), TotalDemand(RequestsFor(site, tasks)))
    ensures |Elements(tasks)| <= |tasks|
  {
    if tasks != [] {
      var last := |tasks| - 1;
      ListCounts(site, tasks[..last]);
      assert Elements(tasks) == Elements(tasks[..last]) + {tasks[last]};
      assert RequestsFor(site, tasks)[..last] == RequestsFor(site, tasks[..last]);
      UsageAdd(site, Elements(tasks[..last]), tasks[last]);
    } else {
      assert Elements(tasks) == {};
    }
  }

  // ---------- Steps ----------

  predicate IsAcceptance(op: Op) {
    op.Decide? && op.decision.accept
  }

  ghost predicate Enabled(site: Site, s: State, step: Step) {
    match step
    case Store(op) =>
      && !IsAcceptance(op)
      && (op.Submit? ==>
            RequestOf(Bid(op.id, op.terms, op.at, Pending, None, None, 0.0)) == site.request(op.terms.task))
    case OpenRound(owned, reserved) =>
      s.round.None? && Elements(owned) == s.owned && Lists(s.book, reserved, Reserved(s.book))
    case AdmitBid(id, _, _, _) =>
      && s.round.Some? && id in s.book.records && HasSlot(s.round.value)
      && Fits(s.round.value.resources, RequestOf(s.book.records[id]))
    case CloseRound => s.round.Some?
    case StartTask(id) => id in s.book.records
    case LeaveTask(t) => t in s.owned
  }

  /** A task starts only while its lease is still being activated. */
  predicate LeaseHolds(s: State, step: Step) {
    step.StartTask? && step.id in s.book.records ==> s.book.records[step.id].status.Activating?
  }

  function Apply(site: Site, s: State, step: Step): State {
    match step
    case Store(op) => s.(book := BidBook.Apply(s.book, op, s.ttl))
    case OpenRound(owned, reserved) =>
      s.(round := Some(RoomLeft(site.slots, site.capacity, RequestsFor(site, owned), reserved)))
    case AdmitBid(id, rank, credit, at) =>
      if s.round.None? || id !in s.book.records then s
      else
        s.(book := BidBook.Apply(s.book, Op.Decide(id, Decision(true, rank, credit), at), s.ttl),
           round := Some(Without(s.round.value, s.book.records[id])))
    case CloseRound => s.(round := None)
    case StartTask(id) => if id in s.book.records then s.(owned := s.owned + {s.book.records[id].terms.task}) else s
    case LeaveTask(t) => s.(owned := s.owned - {t})
  }

  // ---------- The invariant ----------

  predicate Beside(limit: Limit, used: real, rest: Limit) {
    limit.Limited? ==> rest.Limited? && rest.amount >= 0.0 && used + rest.amount <= limit.amount
  }

  /** What counts, together with what the running round may still give away, is within capacity. */
  ghost predicate RoundFits(site: Site, tasks: set<TaskId>, room: Room) {
    var used := Usage(site, tasks);
    && (site.slots.Some? ==> room.slots.Some? && |tasks| + room.slots.value <= site.slots.value)
    && Beside(site.capacity.cpu, used.cpu, room.resources.cpu)
    && Beside(site.capacity.memory, used.memory as real, room.resources.memory)
    && Beside(site.capacity.gpu, used.gpu as real, room.resources.gpu)
  }

  ghost predicate WithinCapacity(site: Site, tasks: set<TaskId>) {
    && (site.slots.Some? ==> |tasks| <= site.slots.value)
    && Covers(site.capacity, Usage(site, tasks))
  }

  ghost predicate Sound(site: Site, s: State) {
    && Honest(site, s.book)
    && WithinCapacity(site, Counted(s))
    && (s.round.Some? ==> RoundFits(site, Counted(s), s.round.value))
  }

  lemma FewerStillFit(site: Site, tasks: set<TaskId>, fewer: set<TaskId>, round: Option<Room>)
    requires ValidSite(site) && fewer <= tasks && WithinCapacity(site, tasks)
    requires round.Some? ==> RoundFits(site, tasks, round.value)
    ensures WithinCapacity(site, fewer) && (round.Some? ==> RoundFits(site, fewer, round.value))
  {
    UsageShrinks(site, fewer, tasks);
  }

  /** A task that leaves and holds no lease gives back its slot and its demand. */
  lemma LeavingFrees(site: Site, s: State, t: TaskId)
    requires t in s.owned && t !in LeasedTasks(s.book)
    ensures var s' := Apply(site, s, LeaveTask(t));
            && Counted(s') == Counted(s) - {t} && |Counted(s')| == |Counted(s)| - 1
            && Usage(site, Counted(s)) == Plus(Usage(site, Counted(s')), DemandOf(site.request(t)))
            && s'.book == s.book && s'.round == s.round
  {
    var s' := Apply(site, s, LeaveTask(t));
    assert Counted(s') == Counted(s) - {t};
    UsageRemove(site, Counted(s), t);
  }

  /** No operation but an acceptance adds a lease. */
  lemma LeasesOnlyEnd(k: Book, op: Op, ttl: real)
    requires !IsAcceptance(op)
    ensures LeasedTasks(BidBook.Apply(k, op, ttl)) <= LeasedTasks(k)
  {
    hide RaisedCredits, DecayedCredits;
    var k' := BidBook.Apply(k, op, ttl);
    forall t | t in LeasedTasks(k') ensures t in LeasedTasks(k) {
      var id :| id in k'.records && Active(k'.records[id]) && k'.records[id].terms.task == t;
      assert id in k.records && Active(k.records[id]) && k.records[id].terms.task == t;
    }
  }

  lemma AcceptanceAddsOne(k: Book, id: BidId, d: Decision, at: real, ttl: real)
    requires id in k.records
    ensures LeasedTasks(BidBook.Apply(k, Op.Decide(id, d, at), ttl)) <= LeasedTasks(k) + {k.records[id].terms.task}
  {
    var k' := BidBook.Apply(k, Op.Decide(id, d, at), ttl);
    forall t | t in LeasedTasks(k') ensures t in LeasedTasks(k) + {k.records[id].terms.task} {
      var x :| x in k'.records && Active(k'.records[x]) && k'.records[x].terms.task == t;
      assert x == id || (x in k.records && Active(k.records[x]) && k.records[x].terms.task == t);
    }
  }

  lemma StaysHonest(site: Site, k: Book, op: Op, ttl: real)
    requires Honest(site, k)
    requires op.Submit? ==>
               RequestOf(Bid(op.id, op.terms, op.at, Pending, None, None, 0.0)) == site.request(op.terms.task)
    ensures Honest(site, BidBook.Apply(k, op, ttl))
  {
    hide RaisedCredits, DecayedCredits;
    var k' := BidBook.Apply(k, op, ttl);
    forall id | id in k'.records ensures RequestOf(k'.records[id]) == site.request(k'.records[id].terms.task) {
      if id in k.records {
        StepMovesDown(k, op, ttl, id);
        assert RequestOf(k.records[id]) == site.request(k.records[id].terms.task);
      }
    }
  }

  /** The snapshot counts at least what counts; what it leaves is really free. */
  lemma SnapshotIsSafe(site: Site, s: State, owned: seq<TaskId>, reserved: seq<Bid>)
    requires ValidSite(site) && Sound(site, s) && Elements(owned) == s.owned
    requires Lists(s.book, reserved, Reserved(s.book))
    ensures RoundFits(site, Counted(s), RoomLeft(site.slots, site.capacity, RequestsFor(site, owned), reserved))
  {
    hide Usage, TotalDemand, Lists, Honest, Elements;
    var tasks := owned + seq(|reserved|, i requires 0 <= i < |reserved| => reserved[i].terms.task);
    assert RequestsFor(site, tasks) == RequestsFor(site, owned) + RequestsIn(reserved) by {
      ReservedRequests(site, s.book, reserved);
    }
    assert Counted(s) <= Elements(tasks) by {
      CountedIsListed(s, owned, reserved, tasks);
    }
    ListCounts(site, tasks);
    UsageShrinks(site, Counted(s), Elements(tasks));
  }

  lemma ReservedRequests(site: Site, k: Book, reserved: seq<Bid>)
    requires Honest(site, k) && Lists(k, reserved, Reserved(k))
    ensures forall i | 0 <= i < |reserved| :: RequestOf(reserved[i]) == site.request(reserved[i].terms.task)
  {
  }

  lemma CountedIsListed(s: State, owned: seq<TaskId>, reserved: seq<Bid>, tasks: seq<TaskId>)
    requires Elements(owned) == s.owned && Lists(s.book, reserved, Reserved(s.book))
    requires |tasks| == |owned| + |reserved|
    requires forall i | 0 <= i < |owned| :: tasks[i] == owned[i]
    requires forall i | 0 <= i < |reserved| :: tasks[|owned| + i] == reserved[i].terms.task
    ensures Counted(s) <= Elements(tasks)
  {
    forall t | t in Counted(s) ensures t in Elements(tasks) {
      if t in s.owned {
        assert t in owned;
        var i :| 0 <= i < |owned| && owned[i] == t;
        assert tasks[i] == t;
      } else {
        var id :| id in s.book.records && Active(s.book.records[id]) && s.book.records[id].terms.task == t;
        assert id in Reserved(s.book);
        var i :| 0 <= i < |reserved| && reserved[i].id == id;
        assert tasks[|owned| + i] == t;
      }
    }
  }

  lemma AcceptanceFits(site: Site, tasks: set<TaskId>, more: set<TaskId>, b: Bid, room: Room)
    requires ValidSite(site) && RoundFits(site, tasks, room) && HasSlot(room) && Fits(room.resources, RequestOf(b))
    requires RequestOf(b) == site.request(b.terms.task) && more <= tasks + {b.terms.task}
    ensures WithinCapacity(site, more) && RoundFits(site, more, Without(room, b))
  {
    hide Usage;
    UsageAdd(site, tasks, b.terms.task);
    UsageShrinks(site, more, tasks + {b.terms.task});
  }

  lemma StepKeepsSound(site: Site, s: State, step: Step)
    requires ValidSite(site) && Sound(site, s) && Enabled(site, s, step) && LeaseHolds(s, step)
    ensures Sound(site, Apply(site, s, step))
  {
    hide WithinCapacity, RoundFits, Honest, Fits, BidBook.Apply, LeasedTasks, RoomLeft;
    var s' := Apply(site, s, step);
    match step {
      case Store(op) =>
        LeasesOnlyEnd(s.book, op, s.ttl);
        StaysHonest(site, s.book, op, s.ttl);
        FewerStillFit(site, Counted(s), Counted(s'), s.round);
      case OpenRound(owned, reserved) =>
        SnapshotIsSafe(site, s, owned, reserved);
      case AdmitBid(id, rank, credit, at) =>
        HonestBid(site, s.book, id);
        AcceptanceAddsOne(s.book, id, Decision(true, rank, credit), at, s.ttl);
        StaysHonest(site, s.book, Op.Decide(id, Decision(true, rank, credit), at), s.ttl);
        AcceptanceFits(site, Counted(s), Counted(s'), s.book.records[id], s.round.value);
      case CloseRound =>
      case StartTask(id) =>
        ActivatingCounts(s, id);
        FewerStillFit(site, Counted(s), Counted(s'), s.round);
      case LeaveTask(t) =>
        FewerStillFit(site, Counted(s), Counted(s'), s.round);
    }
  }

  lemma HonestBid(site: Site, k: Book, id: BidId)
    requires Honest(site, k) && id in k.records
    ensures RequestOf(k.records[id]) == site.request(k.records[id].terms.task)
  {
  }

  lemma ActivatingCounts(s: State, id: BidId)
    requires id in s.book.records && s.book.records[id].status.Activating?
    ensures s.book.records[id].terms.task in LeasedTasks(s.book)
  {
  }

  // ---------- Runs ----------

  ghost predicate Run(site: Site, s: State, steps: seq<Step>, last: State)
    decreases |steps|
  {
    if steps == [] then last == s
    else Enabled(site, s, steps[0]) && LeaseHolds(s, steps[0]) && Run(site, Apply(site, s, steps[0]), steps[1..], last)
  }

  /** Owned or leased, counted once a task, usage never exceeds slots, CPU, memory or GPUs. */
  lemma {:induction false} NeverOvercommitted(site: Site, s: State, steps: seq<Step>, last: State)
    requires ValidSite(site) && Sound(site, s) && Run(site, s, steps, last)
    ensures Sound(site, last)
    ensures WithinCapacity(site, Counted(last)) && WithinCapacity(site, last.owned)
    decreases |steps|
  {
    hide WithinCapacity, RoundFits, Honest, Enabled, Apply, LeaseHolds;
    if steps != [] {
      StepKeepsSound(site, s, steps[0]);
      NeverOvercommitted(site, Apply(site, s, steps[0]), steps[1..], last);
    } else {
      FewerStillFit(site, Counted(last), last.owned, None);
    }
  }

  // ---------- The hypothesis is needed ----------

  const ONE_SLOT := Site(Some(1), Capacity(Unlimited, Unlimited, Unlimited, {}), _ => DEFAULT_REQUEST)

  function BidOf(id: BidId, status: BidStatus, received: real, expires: Option<real>): Bid {
    Bid(id, BidRequest(id, 8, 9, 0.0, None), received, status, expires,
        if status.Pending? then None else Some(1), 0.0)
  }

  const EMPTY := State({}, Book(map[], map[]), None, 180.0)

  /** Bid 1 is accepted and begins its activation, but the lease runs out before the task starts ... */
  const FIRST_LEASE: seq<Step> :=
    [Store(Submit(1, BidRequest(1, 8, 9, 0.0, None), 0.0)), OpenRound([], []), AdmitBid(1, 1, 0.0, 0.0), CloseRound,
     Store(BeginActivation(1, BidRequest(1, 8, 9, 0.0, None), 1.0)), Store(Sweep(220.0))]

  /** ... and bid 2 gets the slot. */
  const SECOND_LEASE: seq<Step> :=
    [Store(Submit(2, BidRequest(2, 8, 9, 0.0, None), 200.0)), OpenRound([], []), AdmitBid(2, 1, 0.0, 220.0), CloseRound,
     Store(BeginActivation(2, BidRequest(2, 8, 9, 0.0, None), 221.0)), StartTask(2)]

  function Lapsed1(): State {
    State({}, Book(map[1 := BidOf(1, Expired, 0.0, Some(180.0))], map[]), None, 180.0)
  }

  function Running2(): State {
    State({2}, Book(map[1 := BidOf(1, Expired, 0.0, Some(180.0)),
                        2 := BidOf(2, Activating, 200.0, Some(400.0))], map[]), None, 180.0)
  }

  lemma NoLeases(k: Book)
    requires forall id | id in k.records :: !Active(k.records[id])
    ensures Lists(k, [], Reserved(k)) && Elements([]) == {}
  {
    assert Reserved(k) == {};
  }

  lemma FirstLeaseLapses()
    ensures Run(ONE_SLOT, EMPTY, FIRST_LEASE, Lapsed1())
  {
    var k1 := Book(map[1 := BidOf(1, Pending, 0.0, None)], map[]);
    var s1 := State({}, k1, None, 180.0);
    assert Apply(ONE_SLOT, EMPTY, FIRST_LEASE[0]) == s1;
    NoLeases(k1);
    var s2 := Apply(ONE_SLOT, s1, OpenRound([], []));
    assert RequestsFor(ONE_SLOT, []) + RequestsIn([]) == [];
    assert s2.round == Some(Room(Some(1), Capacity(Unlimited, Unlimited, Unlimited, {})));
    assert SweptAll(k1.records, 0.0) == k1.records;
    var s3 := Apply(ONE_SLOT, s2, AdmitBid(1, 1, 0.0, 0.0));
    assert s3.book == Book(map[1 := BidOf(1, Accepted, 0.0, Some(180.0))], map[]);
    var s4 := Apply(ONE_SLOT, s3, CloseRound);
    assert SweptAll(s4.book.records, 1.0) == s4.book.records;
    var s5 := Apply(ONE_SLOT, s4, FIRST_LEASE[4]);
    assert s5.book == Book(map[1 := BidOf(1, Activating, 0.0, Some(180.0))], map[]);
    var s6 := Apply(ONE_SLOT, s5, FIRST_LEASE[5]);
    assert s6.book == Book(map[1 := BidOf(1, Expired, 0.0, Some(180.0))], map[]);
    RunLast(ONE_SLOT, s5, FIRST_LEASE[5], s6);
    RunMore(ONE_SLOT, s4, FIRST_LEASE[4], s5, [FIRST_LEASE[5]], s6);
    RunMore(ONE_SLOT, s3, FIRST_LEASE[3], s4, FIRST_LEASE[4..], s6);
    RunMore(ONE_SLOT, s2, FIRST_LEASE[2], s3, FIRST_LEASE[3..], s6);
    RunMore(ONE_SLOT, s1, FIRST_LEASE[1], s2, FIRST_LEASE[2..], s6);
    RunMore(ONE_SLOT, EMPTY, FIRST_LEASE[0], s1, FIRST_LEASE[1..], s6);
  }

  lemma SecondLeaseStarts()
    ensures Run(ONE_SLOT, Lapsed1(), SECOND_LEASE, Running2())
  {
    var expired := BidOf(1, Expired, 0.0, Some(180.0));
    var s0 := Lapsed1();
    var k1 := Book(map[1 := expired, 2 := BidOf(2, Pending, 200.0, None)], map[]);
    var s1 := State({}, k1, None, 180.0);
    assert Apply(ONE_SLOT, s0, SECOND_LEASE[0]) == s1;
    NoLeases(k1);
    var s2 := Apply(ONE_SLOT, s1, OpenRound([], []));
    assert RequestsFor(ONE_SLOT, []) + RequestsIn([]) == [];
    assert s2.round == Some(Room(Some(1), Capacity(Unlimited, Unlimited, Unlimited, {})));
    assert SweptAll(k1.records, 220.0) == k1.records;
    var s3 := Apply(ONE_SLOT, s2, SECOND_LEASE[2]);
    assert s3.book == Book(map[1 := expired, 2 := BidOf(2, Accepted, 200.0, Some(400.0))], map[]);
    var s4 := Apply(ONE_SLOT, s3, CloseRound);
    assert SweptAll(s4.book.records, 221.0) == s4.book.records;
    var s5 := Apply(ONE_SLOT, s4, SECOND_LEASE[4]);
    assert s5.book == Running2().book;
    var s6 := Apply(ONE_SLOT, s5, StartTask(2));
    assert s6.owned == {2};
    RunLast(ONE_SLOT, s5, SECOND_LEASE[5], s6);
    RunMore(ONE_SLOT, s4, SECOND_LEASE[4], s5, [SECOND_LEASE[5]], s6);
    RunMore(ONE_SLOT, s3, SECOND_LEASE[3], s4, SECOND_LEASE[4..], s6);
    RunMore(ONE_SLOT, s2, SECOND_LEASE[2], s3, SECOND_LEASE[3..], s6);
    RunMore(ONE_SLOT, s1, SECOND_LEASE[1], s2, SECOND_LEASE[2..], s6);
    RunMore(ONE_SLOT, s0, SECOND_LEASE[0], s1, SECOND_LEASE[1..], s6);
  }

  lemma {:induction false} RunConcat(site: Site, s: State, steps: seq<Step>, middle: State, more: seq<Step>,
                                     last: State)
    requires Run(site, s, steps, middle) && Run(site, middle, more, last)
    ensures Run(site, s, steps + more, last)
    decreases |steps|
  {
    hide Apply, Enabled, LeaseHolds;
    if steps == [] {
      assert steps + more == more;
    } else {
      RunConcat(site, Apply(site, s, steps[0]), steps[1..], middle, more, last);
      assert (steps + more)[1..] == steps[1..] + more;
    }
  }

  lemma RunLast(site: Site, s: State, step: Step, last: State)
    requires Enabled(site, s, step) && LeaseHolds(s, step) && Apply(site, s, step) == last
    ensures Run(site, s, [step], last)
  {
  }

  lemma RunMore(site: Site, s: State, step: Step, next: State, rest: seq<Step>, last: State)
    requires Enabled(site, s, step) && LeaseHolds(s, step) && Apply(site, s, step) == next
    requires Run(site, next, rest, last)
    ensures Run(site, s, [step] + rest, last)
  {
  }

  /**
   If the lease lapses between `begin_activation` and the start of the task, its slot is given away again.
   On a node with one slot a run from the empty store reaches a state in which the late start, which the
   code does not prevent, makes two tasks run.
   */
  lemma LapsedLeaseOvercommits()
    ensures Run(ONE_SLOT, EMPTY, FIRST_LEASE + SECOND_LEASE, Running2())
    ensures Sound(ONE_SLOT, EMPTY) && ValidSite(ONE_SLOT)
    ensures Enabled(ONE_SLOT, Running2(), StartTask(1)) && !LeaseHolds(Running2(), StartTask(1))
    ensures !WithinCapacity(ONE_SLOT, Apply(ONE_SLOT, Running2(), StartTask(1)).owned)
  {
    assert Run(ONE_SLOT, EMPTY, FIRST_LEASE + SECOND_LEASE, Running2()) by {
      hide Run, Apply, Enabled;
      FirstLeaseLapses();
      SecondLeaseStarts();
      RunConcat(ONE_SLOT, EMPTY, FIRST_LEASE, Lapsed1(), SECOND_LEASE, Running2());
    }
    hide Run;
    assert Counted(EMPTY) == {};
    assert Apply(ONE_SLOT, Running2(), StartTask(1)).owned == {1, 2};
  }
}
