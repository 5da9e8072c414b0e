/**
 When a request may arrive late.

 A request that first arrives when the source has been told that the destination has no record finds the source
 taking the task back. A request repeated once the destination's registry has moved on is not recognised as a
 repeat: the registry no longer carries the claim, and only a ROLLED_BACK record is remembered. The lease was
 used, so the activation is refused and the refusal is journalled as ROLLED_BACK. A source that has not resolved
 the migration believes it.
 */
module MigrationLateRequest {
  import opened Common
  import opened Registry
  import opened MigrationProtocol
  import opened MigrationSafety
  import opened MigrationSteps
  import opened MigrationTheorems
  import opened MigrationRuns

  /** The request of `m` can arrive again at a destination that has committed it and since moved on. */
  predicate LateRepeat(w: World, m: MigrationId) {
    && Enabled(w, Receive(m)) && Committed(w.journals, m)
    && var r := w.journals.source[m]; !Claims(w.registry[r.destination], r.destination, m, r.generation)
  }

  function RefusalActions(d: NodeId): seq<Action> {
    [ActivateFails(d), UndoStep(d)] + [UndoStep(d)]
  }

  /** The activation is refused and the registry put back as it was. */
  lemma Refused(w: World, m: MigrationId, d: NodeId, s: TaskState) returns (w': World)
    requires d in w.op && d in w.registry && m in w.journals.destination && s == w.registry[d]
    requires w.op[d] == Activating(m, Reserving, s)
    ensures Run(w, [ActivateFails(d), UndoStep(d)], w')
    ensures w' == w.(op := w.op[d := Undoing(m, UndoLog, s)])
  {
    w' := Apply(Apply(w, ActivateFails(d)), UndoStep(d));
    RunTwo(w, ActivateFails(d), UndoStep(d));
    assert w'.registry == w.registry && w'.op == w.op[d := Undoing(m, UndoLog, s)];
  }

  lemma Withdrawn(w: World, m: MigrationId, d: NodeId, s: TaskState) returns (w': World)
    requires d in w.op && d in w.registry && m in w.journals.destination && w.op[d] == Undoing(m, UndoLog, s)
    ensures Run(w, [UndoStep(d)], w')
    ensures w'.registry == w.registry && w'.op == w.op[d := Idle] && w'.history == w.history
    ensures w'.journals == DestinationLogged(w.journals, m, w.journals.destination[m].(status := RolledBack))
  {
    w' := Apply(w, UndoStep(d));
    RunOne(w, UndoStep(d));
  }

  /** The lease cannot be taken a second time, and the destination's verdict turns into ROLLED_BACK. */
  lemma VerdictFlips(w: World, m: MigrationId, d: NodeId) returns (w': World)
    requires Invariant(w) && LateRepeat(w, m) && d == w.journals.source[m].destination
    ensures !Enabled(Apply(w, Receive(m)), ActivateStep(d))
    ensures Run(Apply(w, Receive(m)), RefusalActions(d), w')
    ensures w'.registry == w.registry && w'.op == w.op && w'.history == w.history
    ensures w'.journals == DestinationLogged(w.journals, m, w.journals.destination[m].(status := RolledBack))
  {
    hide Invariant, Run;
    Facts(w);
    MigrationFacts(w, m);
    hide AttemptSound;
    var w1 := Apply(w, Receive(m));
    assert w1.op == w.op[d := Activating(m, Reserving, w.registry[d])];
    var w2 := Refused(w1, m, d, w.registry[d]);
    w' := Withdrawn(w2, m, d, w.registry[d]);
    assert w'.op == w.op;
    RunThen(w1, [ActivateFails(d), UndoStep(d)], w2, [UndoStep(d)], w');
  }

  /** Node `n` has learnt that `m` arrived, and nothing newer is on its way to tell it otherwise. */
  predicate Informed(w: World, n: NodeId, m: MigrationId)
    requires m in w.journals.source && n in w.registry
  {
    var d := w.journals.source[m].destination;
    && w.registry[n].owner == d && w.registry[n].generation >= w.journals.source[m].generation
    && forall k | k in w.history.hops && k in w.journals.source ::
         w.journals.source[k].destination == d || w.journals.source[k].generation <= w.registry[n].generation
  }

  /** News of a later hop makes a source forget that it had learnt of `m`. */
  lemma NewsArrives(w: World, n: NodeId, m: MigrationId) returns (actions: seq<Action>, w': World)
    requires m in w.journals.source && n in w.registry && n in w.op && !Informed(w, n, m)
    ensures Run(w, actions, w') && n in w'.registry && w' == w.(registry := w.registry[n := w'.registry[n]])
    ensures (w'.registry[n].owner == w.journals.source[m].destination ==>
              w'.registry[n].generation < w.journals.source[m].generation)
  {
    var r, s := w.journals.source[m], w.registry[n];
    if s.owner == r.destination && s.generation >= r.generation {
      var k :| k in w.history.hops && k in w.journals.source
               && w.journals.source[k].destination != r.destination && w.journals.source[k].generation > s.generation;
      actions, w' := [Broadcast(k, n)], Apply(w, Broadcast(k, n));
      RunOne(w, Broadcast(k, n));
    } else {
      actions, w' := [], w;
    }
  }

  /**
   Whatever the source of an unresolved migration was doing, a late repeat makes it run the task beside
   whichever node is running it, unless it has been informed of the hop and of nothing newer.
   */
  lemma LateRepeatSplitsOwnership(w: World, m: MigrationId, d: NodeId, n: NodeId)
    returns (actions: seq<Action>, last: World)
    requires Invariant(w) && LateRepeat(w, m) && Unresolved(w.journals, m) && n in w.registry
    requires d == w.journals.source[m].destination && n == w.journals.source[m].source && !Informed(w, n, m)
    ensures Run(Apply(w, Receive(m)), actions, last)
    ensures Live(last, n) && forall k | k != n && Live(w, k) :: Live(last, k)
  {
    hide Invariant, Run;
    Facts(w);
    MigrationFacts(w, m);
    var w1 := VerdictFlips(w, m, d);
    var news, w2 := NewsArrives(w1, n, m);
    RunThen(Apply(w, Receive(m)), RefusalActions(d), w1, news, w2);
    assert TakesBack(w2, n, m);
    last := TakeBack(w2, n, m);
    RunThen(Apply(w, Receive(m)), RefusalActions(d) + news, w2, TakeBackActions(n, m), last);
    actions := RefusalActions(d) + news + TakeBackActions(n, m);
    forall k | k != n && Live(w, k) ensures Live(last, k) {
      assert Live(w2, k);
    }
  }

  /** After the repeat a live node passes the task on once more, and the news reaches the source. */
  lemma NewsFollows(w: World, h: NodeId, f: MigrationId, x: NodeId, n: NodeId)
    returns (actions: seq<Action>, w': World)
    requires Enabled(w.(op := w.op[h := Idle]), Begin(h, f, x)) && Live(w, h) && SafeToBegin(w.journals, h)
    requires h in w.op && x in w.op && n in w.op && n in w.registry && n != h && n != x && NotesKnown(w.journals)
    requires f !in w.history.hops && w.registry[x].lastMigration != Some(f)
    requires w.registry[x].generation <= w.registry[h].generation + 1
    requires w.registry[n].generation <= w.registry[h].generation
    ensures Run(w, actions, w') && Live(w', x) && n in w'.registry && n in w'.op && w'.registry[n].owner == x
    ensures forall k | k in w.journals.source :: k in w'.journals.source && SameRecord(w, w', k)
  {
    hide Run, Apply;
    var w1 := Crashed(w, h);
    var begun := Began(w1, h, f, x);
    RunOne(w1, Begin(h, f, x));
    RunThen(w, [Crash(h)], w1, [Begin(h, f, x)], begun);
    var w2 := HopFrom(w1, h, f, x);
    var moving := [Crash(h)] + [Begin(h, f, x)];
    RunThen(w, moving, begun, HopActions(h, f, x), w2);
    w' := Told(w2, f, n);
    actions := moving + HopActions(h, f, x) + [Broadcast(f, n)];
    RunThen(w, moving + HopActions(h, f, x), w2, [Broadcast(f, n)], w');
  }

  /** The journals say the same about `k` at both of its ends. */
  predicate SameRecord(w: World, w': World, k: MigrationId)
    requires k in w.journals.source && k in w'.journals.source
  {
    && w'.journals.source[k] == w.journals.source[k]
    && (k in w'.journals.destination <==> k in w.journals.destination)
    && (k in w.journals.destination ==> w'.journals.destination[k] == w.journals.destination[k])
  }

  lemma Told(w: World, f: MigrationId, n: NodeId) returns (w': World)
    requires f in w.history.hops && f in w.journals.source && n in w.registry
    requires w.journals.source[f].generation > w.registry[n].generation
    ensures Run(w, [Broadcast(f, n)], w') && w' == w.(registry := w'.registry)
    ensures n in w'.registry && w'.registry[n].owner == w.journals.source[f].destination
    ensures w'.registry == w.registry[n := w'.registry[n]]
  {
    w' := Apply(w, Broadcast(f, n));
    RunOne(w, Broadcast(f, n));
  }

  /**
   Being informed does not last: if a live node passes the task on to a further one, the source hears of that,
   no longer recognises the hop, and takes the task back beside the new owner.
   */
  lemma InformedSourceForgets(w: World, m: MigrationId, d: NodeId, n: NodeId, h: NodeId, f: MigrationId, x: NodeId)
    returns (actions: seq<Action>, last: World)
    requires Invariant(w) && LateRepeat(w, m) && Unresolved(w.journals, m) && n in w.registry
    requires d == w.journals.source[m].destination && n == w.journals.source[m].source && Informed(w, n, m)
    requires Live(w, h) && SafeToBegin(w.journals, h) && f !in w.journals.source
    requires x in w.registry && x != n && x != d && x != h
    ensures Run(Apply(w, Receive(m)), actions, last) && Live(last, n) && Live(last, x)
  {
    hide Invariant, Run, Apply, OperationSound, Hopped;
    MigrationFacts(w, m);
    Facts(w);
    NodeFacts(w, h);
    NodeFacts(w, n);
    var idle := w.(op := w.op[h := Idle]);
    CrashSafe(w, h);
    Prospects(idle, h, f, x);
    var w1 := VerdictFlips(w, m, d);
    FlipKeepsSafe(w, w1, m, h);
    var news, w2 := NewsFollows(w1, h, f, x, n);
    RunThen(Apply(w, Receive(m)), RefusalActions(d), w1, news, w2);
    assert SameRecord(w1, w2, m);
    assert TakesBack(w2, n, m);
    last := TakeBack(w2, n, m);
    RunThen(Apply(w, Receive(m)), RefusalActions(d) + news, w2, TakeBackActions(n, m), last);
    actions := RefusalActions(d) + news + TakeBackActions(n, m);
  }

  lemma FlipKeepsSafe(w: World, w1: World, m: MigrationId, h: NodeId)
    requires m in w.journals.source && m in w.journals.destination && w.journals.source[m].source != h
    requires w1.journals == DestinationLogged(w.journals, m, w.journals.destination[m].(status := RolledBack))
    requires SafeToBegin(w.journals, h)
    ensures SafeToBegin(w1.journals, h)
  {
  }

  /** Taking up a late repeat withdraws the verdict that an unresolved source may still ask for. */
  lemma VerdictWithdrawn(w: World, m: MigrationId)
    requires Invariant(w) && LateRepeat(w, m) && Unresolved(w.journals, m)
    ensures Run(Apply(w, Receive(m)), [], Apply(w, Receive(m))) && !Guarantees(Apply(w, Receive(m)))
  {
    hide Invariant;
    MigrationFacts(w, m);
    var w1 := Apply(w, Receive(m));
    assert m in w1.history.hops && Unresolved(w1.journals, m) && !Committed(w1.journals, m);
  }

  /** A late repeat is safe exactly when the source has resolved the migration. */
  lemma LateRepeatIsSafeExactlyWhen(w: World, m: MigrationId)
    requires Invariant(w) && LateRepeat(w, m)
    ensures !Unresolved(w.journals, m) <==>
            forall actions, last :: Run(Apply(w, Receive(m)), actions, last) ==> Guarantees(last)
  {
    hide Invariant, Run, Guarantees, Apply;
    if Unresolved(w.journals, m) {
      VerdictWithdrawn(w, m);
    } else {
      StepKeepsInvariant(w, Receive(m));
      forall actions, last | Run(Apply(w, Receive(m)), actions, last) ensures Guarantees(last) {
        RunsKeepGuarantees(Apply(w, Receive(m)), actions, last);
      }
    }
  }

  // ---------- A first arrival ----------

  /** The request of `m` can reach its destination for the first time. */
  predicate FirstArrival(w: World, m: MigrationId) {
    Enabled(w, Receive(m)) && m !in w.journals.destination
  }

  /** It is journalled, and nothing else changes. */
  lemma Journalled(w: World, m: MigrationId) returns (w': World)
    requires Invariant(w) && FirstArrival(w, m)
    ensures w' == Apply(w, Receive(m)) && w.journals.source[m].destination in w.registry
    ensures var d := w.journals.source[m].destination;
            w' == w.(op := w.op[d := Activating(m, Reserving, w.registry[d])],
                     journals := DestinationLogged(w.journals, m, DestinationRecord(Handover, w.registry[d])))
    ensures w.journals.source[m].source != w.journals.source[m].destination && m !in w.history.hops
    ensures w.journals.source[m].source in w.registry && w.journals.source[m].source in w.op
    ensures !w.journals.source[m].status.Activated?
  {
    hide Invariant, OperationSound;
    var d := w.journals.source[m].destination;
    Facts(w);
    NodeFacts(w, d);
    MigrationFacts(w, m);
    w' := Apply(w, Receive(m));
  }

  /** A source that is taking the task back logs ROLLED_BACK while the destination is at work. */
  lemma {:induction false} RestoringBreaks(w: World, n: NodeId, m: MigrationId)
    returns (actions: seq<Action>, last: World)
    requires Unresolved(w.journals, m) && w.journals.source[m].source == n && ActivatingAt(w.journals, m)
    requires n in w.op && n in w.registry && w.op[n].Restoring? && w.op[n].m == m
    ensures Run(w, actions, last) && m in last.journals.source
    ensures last.journals.source[m].status.RolledBack? && Pending(last.journals, m)
    decreases match w.op[n].restore case RestoreState => 2 case RestartTask => 1 case LogRestored => 0
  {
    hide Run;
    var w1 := Apply(w, RestoreStep(n, true));
    RunOne(w, RestoreStep(n, true));
    if w.op[n].restore.LogRestored? {
      actions, last := [RestoreStep(n, true)], w1;
    } else {
      var rest;
      rest, last := RestoringBreaks(w1, n, m);
      RunThen(w, [RestoreStep(n, true)], w1, rest, last);
      actions := [RestoreStep(n, true)] + rest;
    }
  }

  /** A source that is writing back a live entry runs the task while the destination is at work. */
  lemma WriteBackBreaks(w: World, n: NodeId, k: MigrationId, before: TaskState)
    returns (actions: seq<Action>, last: World)
    requires n in w.op && n in w.registry && k in w.journals.destination && IsLive(before)
    requires || w.op[n] == Activating(k, Reserving, before) || w.op[n] == Undoing(k, UndoStop, before)
             || w.op[n] == Undoing(k, UndoRestore, before)
    ensures Run(w, actions, last) && Live(last, n) && last.journals == w.journals
  {
    hide Run;
    var w1, first := w, [];
    StandStill(w);
    if w.op[n].Activating? {
      w1, first := Apply(w, ActivateFails(n)), [ActivateFails(n)];
      RunOne(w, ActivateFails(n));
    } else if w.op[n].undo.UndoStop? {
      w1, first := Apply(w, UndoStep(n)), [UndoStep(n)];
      RunOne(w, UndoStep(n));
    }
    assert w1.op[n] == Undoing(k, UndoRestore, before) && w1.journals == w.journals;
    last := Apply(w1, UndoStep(n));
    RunOne(w1, UndoStep(n));
    RunThen(w, first, w1, [UndoStep(n)], last);
    actions := first + [UndoStep(n)];
  }

  lemma StandStill(w: World)
    ensures Run(w, [], w)
  {
  }

  /** A first arrival that a source has ruled out, and does not wait for, breaks a guarantee. */
  lemma ArrivalBreaks(w: World, m: MigrationId) returns (actions: seq<Action>, last: World)
    requires Invariant(w) && FirstArrival(w, m) && m in w.journals.absent && !SourceQuiet(w, m)
    ensures Run(Apply(w, Receive(m)), actions, last) && !JournalsAgree(last)
  {
    hide Invariant, Run;
    var n := w.journals.source[m].source;
    var w1 := Journalled(w, m);
    StandStill(w1);
    actions, last := [], w1;
    if Unresolved(w.journals, m) && !Live(w, n) {
      if w.op[n].Restoring? {
        actions, last := RestoringBreaks(w1, n, m);
      } else {
        WritesBackEarly(w, n);
        actions, last := WriteBackBreaks(w1, n, w.op[n].m, w.op[n].before);
      }
    }
  }

  /** Only a late repeat writes back a live entry, and it gets no further than its lease. */
  lemma WritesBackEarly(w: World, n: NodeId)
    requires Invariant(w) && n in w.op && MayWriteBack(w.op[n]) && IsLive(w.op[n].before)
    ensures w.op[n].Activating? ==> w.op[n].activate.Reserving?
    ensures w.op[n].m in w.journals.destination
  {
    hide Invariant, Restorable;
    NodeFacts(w, n);
  }

  /**
   A first arrival is safe exactly when the source has not been told that the destination has no record, or
   waits all the same and does not run the task.
   */
  lemma FirstArrivalIsSafeExactlyWhen(w: World, m: MigrationId)
    requires Invariant(w) && FirstArrival(w, m)
    ensures m !in w.journals.absent || SourceQuiet(w, m) <==>
            forall actions, last :: Run(Apply(w, Receive(m)), actions, last) ==> Guarantees(last)
  {
    hide Invariant, Run, Apply, SourceQuiet, JournalsAgree, OneLiveOwner, GenerationCountsHops, Path;
    if m !in w.journals.absent || SourceQuiet(w, m) {
      StepKeepsInvariant(w, Receive(m));
      forall actions, last | Run(Apply(w, Receive(m)), actions, last) ensures Guarantees(last) {
        RunsKeepGuarantees(Apply(w, Receive(m)), actions, last);
      }
    } else {
      var actions, last := ArrivalBreaks(w, m);
    }
  }

  /** If the source runs the task again, the lease is still granted and the claim not stale, then two nodes run it. */
  lemma LateArrivalSplitsOwnership(w: World, m: MigrationId, d: NodeId, n: NodeId)
    returns (actions: seq<Action>, last: World)
    requires Invariant(w) && FirstArrival(w, m) && Live(w, n) && w.lease[m].Granted?
    requires d == w.journals.source[m].destination && n == w.journals.source[m].source
    requires d in w.registry && w.registry[d].generation <= w.journals.source[m].generation
    ensures Run(Apply(w, Receive(m)), actions, last) && Live(last, n) && Live(last, d)
  {
    hide Invariant, Run;
    var w1 := Journalled(w, m);
    last := Activate(w1, m, d, w.registry[d]);
    actions := ActivationActions(d);
  }

  // ---------- Such states are reached ----------

  /** A whole migration from an idle, live node, up to the reply. */
  lemma Moved(start: World, before: seq<Action>, w: World, n: NodeId, m: MigrationId, d: NodeId)
    returns (actions: seq<Action>, w': World)
    requires Initial(start) && Run(start, before, w)
    requires Enabled(w, Begin(n, m, d)) && Assumed(w, Begin(n, m, d)) && Live(w, n)
    ensures Run(start, actions, w') && Hopped(w, n, m, d, w')
  {
    hide Invariant, Run, Enabled, Assumed, Initial, Apply, Hopped;
    InitiallySound(start);
    RunKeepsInvariant(start, before, w);
    RunOne(w, Begin(n, m, d));
    w' := Hop(w, n, m, d);
    RunThen(start, before, w, [Begin(n, m, d)], Apply(w, Begin(n, m, d)));
    actions := before + [Begin(n, m, d)] + HopActions(n, m, d);
    RunThen(start, before + [Begin(n, m, d)], Apply(w, Begin(n, m, d)), HopActions(n, m, d), w');
  }

  /** Node 0 has handed over to node 1 and waits for the reply. */
  lemma OneHop() returns (actions: seq<Action>, w: World)
    ensures Initial(ThreeNodes()) && Run(ThreeNodes(), actions, w) && Hopped(ThreeNodes(), 0, 10, 1, w)
    ensures Enabled(w, Begin(1, 11, 2)) && Assumed(w, Begin(1, 11, 2)) && Live(w, 1)
  {
    hide Run, Invariant, Apply;
    assert Run(ThreeNodes(), [], ThreeNodes()) by { StandStill(ThreeNodes()); }
    actions, w := Moved(ThreeNodes(), [], ThreeNodes(), 0, 10, 1);
  }

  /** Meanwhile node 1 has handed over to node 2. */
  lemma TwoHops() returns (actions: seq<Action>, w: World)
    ensures Initial(ThreeNodes()) && Run(ThreeNodes(), actions, w)
    ensures LateRepeat(w, 10) && 0 in w.op && w.op[0] == Sourcing(10, AwaitingReply)
    ensures w.journals.source[10].source == 0 && w.journals.source[10].destination == 1
    ensures Unresolved(w.journals, 10) && Live(w, 2) && 0 in w.registry && w.registry[0].owner == 0
  {
    hide Run, Invariant, Apply;
    var first, w1 := OneHop();
    var second, w2 := Moved(ThreeNodes(), first, w1, 1, 11, 2);
    w := Finish(w2, 1, 11);
    RunThen(ThreeNodes(), second, w2, FinishActions(1), w);
    actions := second + FinishActions(1);
  }

  /**
   Such a state is reached by an ordinary run: the task moves 0 to 1, the reply is slow, 1 passes it on to 2.
   After one repeated request nodes 0 and 2 both run it.
   */
  lemma TwoLiveOwnersReachable() returns (first: seq<Action>, mid: World, rest: seq<Action>, last: World)
    ensures Initial(ThreeNodes()) && Run(ThreeNodes(), first, mid) && Enabled(mid, Receive(10))
    ensures Run(Apply(mid, Receive(10)), rest, last) && Live(last, 0) && Live(last, 2)
  {
    hide Run, Invariant;
    first, mid := TwoHops();
    InitiallySound(ThreeNodes());
    RunKeepsInvariant(ThreeNodes(), first, mid);
    rest, last := LateRepeatSplitsOwnership(mid, 10, 1, 0);
  }

  /**
   So does a request that is only slow: the source polls a destination that has not journalled it yet, takes the
   task back, and the destination then activates.
   */
  lemma SlowRequestReachable() returns (first: seq<Action>, mid: World, rest: seq<Action>, last: World)
    ensures Initial(ThreeNodes()) && Run(ThreeNodes(), first, mid) && Enabled(mid, Receive(10))
    ensures Run(Apply(mid, Receive(10)), rest, last) && Live(last, 0) && Live(last, 1)
  {
    hide Run, Invariant, Apply, Initial;
    var sent, w1 := RequestSent();
    var asking, restarting := [ReplyLost(0), PollDecides(0)], [RestoreStep(0, true), RestoreStep(0, true)];
    var w2 := Unheard(w1, 0, 10);
    RunThen(ThreeNodes(), sent, w1, asking, w2);
    mid := RestartsTask(w2, 0, 10);
    first := sent + asking + restarting;
    RunThen(ThreeNodes(), sent + asking, w2, restarting, mid);
    InitiallySound(ThreeNodes());
    RunKeepsInvariant(ThreeNodes(), first, mid);
    rest, last := LateArrivalSplitsOwnership(mid, 10, 1, 0);
  }
}
