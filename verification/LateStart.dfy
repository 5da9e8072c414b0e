/**
 When a task may start after its lease has lapsed (magellan/migration/service.py, magellan/bidding/store.py).

 Nothing looks at the lease between `begin_activation` and `consume`, so the task starts all the same.
 */
module LateStart {
  import opened Common
  import opened Resources
  import opened BidBook
  import opened Arbiter
  import opened CapacityHandoff

  // ---------- Whatever is leased may start ----------

  /** A time before any of the given leases runs out. */
  lemma {:induction false} EarlyTime(k: Book, ids: set<BidId>) returns (at: real)
    ensures forall id | id in ids && id in k.records :: !Lapsed(k.records[id], at)
    decreases |ids|
  {
    if ids == {} {
      at := 0.0;
    } else {
      var x :| x in ids;
      var early := EarlyTime(k, ids - {x});
      at := if x in k.records && k.records[x].expires.Some? && k.records[x].expires.value <= early
            then k.records[x].expires.value - 1.0 else early;
    }
  }

  /** The active leases of tasks that have not started. */
  function Waiting(s: State): set<BidId> {
    set id | id in s.book.records && Active(s.book.records[id]) && s.book.records[id].terms.task !in s.owned
  }

  /** One of them begins its activation, in time. */
  lemma Begins(site: Site, s: State, id: BidId) returns (steps: seq<Step>, s': State)
    requires id in s.book.records && Active(s.book.records[id])
    ensures Run(site, s, steps, s') && s'.owned == s.owned && s'.round == s.round
    ensures s'.book.records == s.book.records[id := s.book.records[id].(status := Activating)]
  {
    if s.book.records[id].status.Activating? {
      steps, s' := [], s;
    } else {
      var at := EarlyTime(s.book, s.book.records.Keys);
      var step := Store(BeginActivation(id, s.book.records[id].terms, at));
      assert SweptAll(s.book.records, at) == s.book.records;
      steps, s' := [step], CapacityHandoff.Apply(site, s, step);
      RunLast(site, s, step, s');
    }
  }

  /** ... and starts. */
  lemma Starts(site: Site, s: State, id: BidId) returns (steps: seq<Step>, s': State)
    requires id in s.book.records && Active(s.book.records[id])
    ensures Run(site, s, steps, s')
    ensures s'.owned == s.owned + {s.book.records[id].terms.task} && s'.round == s.round
    ensures s'.book.records == s.book.records[id := s.book.records[id].(status := Activating)]
  {
    var first, mid := Begins(site, s, id);
    s' := CapacityHandoff.Apply(site, mid, StartTask(id));
    RunLast(site, mid, StartTask(id), s');
    RunConcat(site, s, first, mid, [StartTask(id)], s');
    steps := first + [StartTask(id)];
  }

  /** So all of them can be running at once. */
  lemma {:induction false} AllStart(site: Site, s: State) returns (steps: seq<Step>, last: State)
    ensures Run(site, s, steps, last) && Counted(s) <= last.owned
    decreases |Waiting(s)|
  {
    if Waiting(s) == {} {
      steps, last := [], s;
      forall t | t in LeasedTasks(s.book) ensures t in s.owned {
        var id :| id in s.book.records && Active(s.book.records[id]) && s.book.records[id].terms.task == t;
        assert t !in s.owned ==> id in Waiting(s);
      }
    } else {
      var id :| id in Waiting(s);
      var first, mid := Starts(site, s, id);
      SameLeases(s, mid, id);
      assert Waiting(mid) < Waiting(s) by {
        assert id !in Waiting(mid);
      }
      FewerIds(Waiting(mid), Waiting(s));
      var rest;
      rest, last := AllStart(site, mid);
      RunConcat(site, s, first, mid, rest, last);
      steps := first + rest;
    }
  }

  lemma FewerIds(a: set<BidId>, b: set<BidId>)
    requires a < b
    ensures |a| < |b|
  {
    var x :| x in b && x !in a;
    assert a <= b - {x};
    AtMostIds(a, b - {x});
  }

  lemma {:induction false} AtMostIds(a: set<BidId>, b: set<BidId>)
    requires a <= b
    ensures |a| <= |b|
    decreases |b|
  {
    if b != {} {
      var x :| x in b;
      AtMostIds(a - {x}, b - {x});
    }
  }

  lemma SameLeases(s: State, s': State, id: BidId)
    requires id in s.book.records && Active(s.book.records[id])
    requires s'.book.records == s.book.records[id := s.book.records[id].(status := Activating)]
    requires s.owned <= s'.owned
    ensures LeasedTasks(s'.book) == LeasedTasks(s.book) && Waiting(s') <= Waiting(s)
  {
    forall t ensures t in LeasedTasks(s'.book) <==> t in LeasedTasks(s.book) {
      if t in LeasedTasks(s.book) {
        var x :| x in s.book.records && Active(s.book.records[x]) && s.book.records[x].terms.task == t;
        assert x in s'.book.records && Active(s'.book.records[x]) && s'.book.records[x].terms.task == t;
      }
    }
  }

  // ---------- Exactly when ----------

  /** What counts once the task of bid `id` has started. */
  function CountedWith(s: State, id: BidId): set<TaskId>
    requires id in s.book.records
  {
    Counted(s) + {s.book.records[id].terms.task}
  }

  lemma StartCounts(site: Site, s: State, id: BidId)
    requires id in s.book.records
    ensures Counted(CapacityHandoff.Apply(site, s, StartTask(id))) == CountedWith(s, id)
  {
  }

  /** With a lease that is still active, or a task that counts already, a start changes nothing. */
  lemma LeasedStartFits(site: Site, s: State, id: BidId)
    requires Sound(site, s) && id in s.book.records
    requires Active(s.book.records[id]) || s.book.records[id].terms.task in Counted(s)
    ensures WithinCapacity(site, CountedWith(s, id))
    ensures s.round.Some? ==> RoundFits(site, CountedWith(s, id), s.round.value)
  {
    assert CountedWith(s, id) == Counted(s);
  }

  /** Too much counted is too much running, sooner or later. */
  lemma Overcommits(site: Site, s: State) returns (steps: seq<Step>, last: State)
    requires ValidSite(site) && !WithinCapacity(site, Counted(s))
    ensures Run(site, s, steps, last) && !WithinCapacity(site, last.owned)
  {
    hide WithinCapacity, Run;
    steps, last := AllStart(site, s);
    if WithinCapacity(site, last.owned) {
      FewerStillFit(site, last.owned, Counted(s), None);
    }
  }

  /**
   With no round running, a start keeps what runs and what is promised within capacity in every continuation exactly
   when what counts still fits together with the task; in particular when its lease is active or it counts already.
   */
  lemma LateStartIsSafeExactlyWhen(site: Site, s: State, id: BidId)
    requires ValidSite(site) && Sound(site, s) && s.round.None? && id in s.book.records
    ensures WithinCapacity(site, CountedWith(s, id)) <==>
            forall steps, last :: Run(site, CapacityHandoff.Apply(site, s, StartTask(id)), steps, last) ==>
              WithinCapacity(site, last.owned)
    ensures WithinCapacity(site, CountedWith(s, id)) <==>
            forall steps, last :: Run(site, CapacityHandoff.Apply(site, s, StartTask(id)), steps, last) ==>
              WithinCapacity(site, Counted(last))
    ensures Active(s.book.records[id]) || s.book.records[id].terms.task in Counted(s) ==>
              WithinCapacity(site, CountedWith(s, id))
  {
    hide WithinCapacity, Run, Honest;
    var s' := CapacityHandoff.Apply(site, s, StartTask(id));
    StartCounts(site, s, id);
    if Active(s.book.records[id]) || s.book.records[id].terms.task in Counted(s) {
      LeasedStartFits(site, s, id);
    }
    if WithinCapacity(site, CountedWith(s, id)) {
      forall steps, last | Run(site, s', steps, last)
        ensures WithinCapacity(site, last.owned) && WithinCapacity(site, Counted(last))
      {
        NeverOvercommitted(site, s', steps, last);
      }
    } else {
      var steps, last := Overcommits(site, s');
      NothingYet(site, s');
      assert Run(site, s', [], s') && !WithinCapacity(site, Counted(s'));
    }
  }

  lemma NothingYet(site: Site, s: State)
    ensures Run(site, s, [], s)
  {
  }

  /** While a round runs, what it may still give away has to fit as well. */
  lemma LateStartInRound(site: Site, s: State, id: BidId)
    requires ValidSite(site) && Sound(site, s) && s.round.Some? && id in s.book.records
    ensures WithinCapacity(site, CountedWith(s, id)) && RoundFits(site, CountedWith(s, id), s.round.value) ==>
              forall steps, last :: Run(site, CapacityHandoff.Apply(site, s, StartTask(id)), steps, last) ==>
                WithinCapacity(site, Counted(last)) && WithinCapacity(site, last.owned)
    ensures !WithinCapacity(site, CountedWith(s, id)) ==>
              exists steps, last :: Run(site, CapacityHandoff.Apply(site, s, StartTask(id)), steps, last)
                                    && !WithinCapacity(site, last.owned)
  {
    hide WithinCapacity, Run, Honest, RoundFits;
    var s' := CapacityHandoff.Apply(site, s, StartTask(id));
    StartCounts(site, s, id);
    if !WithinCapacity(site, CountedWith(s, id)) {
      var steps, last := Overcommits(site, s');
    } else if RoundFits(site, CountedWith(s, id), s.round.value) {
      forall steps, last | Run(site, s', steps, last)
        ensures WithinCapacity(site, Counted(last)) && WithinCapacity(site, last.owned)
      {
        NeverOvercommitted(site, s', steps, last);
      }
    }
  }
}
