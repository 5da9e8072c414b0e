/** What holds of a destination's bids over every sequence of store operations. */
module BidLifecycle {
  import opened Common
  import opened Resources
  import opened BidBook

  function After(k: Book, ops: seq<Op>, ttl: real): Book
    decreases |ops|
  {
    if ops == [] then k else After(Apply(k, ops[0], ttl), ops[1..], ttl)
  }

  lemma {:induction false} AfterAppend(k: Book, ops: seq<Op>, op: Op, ttl: real)
    ensures After(k, ops + [op], ttl) == Apply(After(k, ops, ttl), op, ttl)
    decreases |ops|
  {
    hide Apply;
    if ops == [] {
      assert (ops + [op])[1..] == [];
    } else {
      assert (ops + [op])[1..] == ops[1..] + [op];
      AfterAppend(Apply(k, ops[0], ttl), ops[1..], op, ttl);
    }
  }

  /** The lifecycle's edges. */
  predicate Moves(a: BidStatus, b: BidStatus) {
    match a
    case Pending => b.Accepted? || b.Rejected? || b.Cancelled?
    case Accepted => b.Activating? || b.Expired? || b.Cancelled?
    case Activating => b.Consumed? || b.Expired? || b.Cancelled?
    case _ => false
  }

  /** Depth in PENDING > ACCEPTED > ACTIVATING > terminal. */
  function Depth(s: BidStatus): nat {
    match s
    case Pending => 0
    case Accepted => 1
    case Activating => 2
    case _ => 3
  }

  /** One operation moves a bid along at most two edges: a sweep, then its own. The terms never change. */
  lemma StepMovesDown(k: Book, op: Op, ttl: real, id: BidId)
    requires id in k.records
    ensures id in Apply(k, op, ttl).records
    ensures var a, b := k.records[id].status, Apply(k, op, ttl).records[id].status;
            a == b || Moves(a, b) || (exists c :: Moves(a, c) && Moves(c, b))
    ensures k.records[id].terms == Apply(k, op, ttl).records[id].terms
    ensures k.records[id].received == Apply(k, op, ttl).records[id].received
  {
    hide RaisedCredits, DecayedCredits;
  }

  /** Over any run a bid only moves down, and a terminal bid never changes again. */
  lemma {:induction false} RunMovesDown(k: Book, ops: seq<Op>, ttl: real, id: BidId)
    requires id in k.records
    ensures id in After(k, ops, ttl).records
    ensures var a, b := k.records[id], After(k, ops, ttl).records[id];
            && (a.status == b.status || Depth(a.status) < Depth(b.status))
            && (Terminal(a) ==> b == a)
            && b.terms == a.terms
    decreases |ops|
  {
    hide Apply;
    if ops != [] {
      StepMovesDown(k, ops[0], ttl, id);
      if Terminal(k.records[id]) {
        TerminalStays(k, ops[0], ttl, id);
      }
      RunMovesDown(Apply(k, ops[0], ttl), ops[1..], ttl, id);
    }
  }

  lemma TerminalStays(k: Book, op: Op, ttl: real, id: BidId)
    requires id in k.records && Terminal(k.records[id])
    ensures id in Apply(k, op, ttl).records && Apply(k, op, ttl).records[id] == k.records[id]
  {
    hide RaisedCredits, DecayedCredits;
  }

  // ---------- One activation per bid ----------

  predicate Begins(k: Book, op: Op, id: BidId) {
    op.BeginActivation? && op.id == id && Activatable(SweptBook(k, op.at), id, op.terms)
  }

  /** How often a run's `begin_activation` for this bid succeeds. */
  function Activations(k: Book, ops: seq<Op>, ttl: real, id: BidId): nat
    decreases |ops|
  {
    if ops == [] then 0
    else (if Begins(k, ops[0], id) then 1 else 0) + Activations(Apply(k, ops[0], ttl), ops[1..], ttl, id)
  }

  lemma {:induction false} NoSecondActivation(k: Book, ops: seq<Op>, ttl: real, id: BidId)
    requires id in k.records && Depth(k.records[id].status) >= 2
    ensures Activations(k, ops, ttl, id) == 0
    decreases |ops|
  {
    hide Apply;
    if ops != [] {
      StepMovesDown(k, ops[0], ttl, id);
      NoSecondActivation(Apply(k, ops[0], ttl), ops[1..], ttl, id);
    }
  }

  lemma {:induction false} ActivatesAtMostOnce(k: Book, ops: seq<Op>, ttl: real, id: BidId)
    ensures Activations(k, ops, ttl, id) <= 1
    decreases |ops|
  {
    if ops != [] {
      if Begins(k, ops[0], id) {
        BeginLeavesAccepted(k, ops[0], ttl, id);
        NoSecondActivation(Apply(k, ops[0], ttl), ops[1..], ttl, id);
      } else {
        ActivatesAtMostOnce(Apply(k, ops[0], ttl), ops[1..], ttl, id);
      }
    }
  }

  lemma BeginLeavesAccepted(k: Book, op: Op, ttl: real, id: BidId)
    requires Begins(k, op, id)
    ensures id in Apply(k, op, ttl).records && Apply(k, op, ttl).records[id].status.Activating?
  {
  }

  // ---------- Leases end ----------

  ghost predicate ActiveHaveExpiry(k: Book) {
    forall id | id in k.records :: Active(k.records[id]) ==> k.records[id].expires.Some?
  }

  lemma ExpiryKept(k: Book, op: Op, ttl: real)
    requires ActiveHaveExpiry(k)
    ensures ActiveHaveExpiry(Apply(k, op, ttl))
  {
    hide RaisedCredits, DecayedCredits;
  }

  lemma {:induction false} ExpiryKeptOverRun(k: Book, ops: seq<Op>, ttl: real)
    requires ActiveHaveExpiry(k)
    ensures ActiveHaveExpiry(After(k, ops, ttl))
    decreases |ops|
  {
    hide Apply, ActiveHaveExpiry;
    if ops != [] {
      ExpiryKept(k, ops[0], ttl);
      ExpiryKeptOverRun(Apply(k, ops[0], ttl), ops[1..], ttl);
    }
  }

  /** In any run from an empty store, every reservation a sweep at `t` leaves active runs out after `t`. */
  lemma SweepReleases(ops: seq<Op>, ttl: real, t: real)
    ensures var k := After(Book(map[], map[]), ops + [Sweep(t)], ttl);
            forall id | id in k.records && Active(k.records[id]) ::
              k.records[id].expires.Some? && k.records[id].expires.value > t
  {
    var start := Book(map[], map[]);
    ExpiryKeptOverRun(start, ops, ttl);
    AfterAppend(start, ops, Sweep(t), ttl);
  }

  /** When the lease of `id` was last granted or renewed, at the latest. */
  predicate TouchedBy(op: Op, id: BidId, latest: real) {
    (op.Decide? && op.id == id ==> op.at <= latest) && (op.Renew? && op.id == id ==> op.at <= latest)
  }

  predicate RunsOutBy(k: Book, id: BidId, deadline: real) {
    id in k.records && Active(k.records[id]) ==>
      k.records[id].expires.Some? && k.records[id].expires.value <= deadline
  }

  lemma TouchBoundsExpiry(k: Book, op: Op, ttl: real, id: BidId, latest: real)
    requires RunsOutBy(k, id, latest + ttl) && TouchedBy(op, id, latest)
    ensures RunsOutBy(Apply(k, op, ttl), id, latest + ttl)
  {
    hide RaisedCredits, DecayedCredits;
  }

  lemma {:induction false} RunBoundsExpiry(k: Book, ops: seq<Op>, ttl: real, id: BidId, latest: real)
    requires RunsOutBy(k, id, latest + ttl) && forall i | 0 <= i < |ops| :: TouchedBy(ops[i], id, latest)
    ensures RunsOutBy(After(k, ops, ttl), id, latest + ttl)
    decreases |ops|
  {
    hide Apply, TouchedBy, RunsOutBy;
    if ops != [] {
      TouchBoundsExpiry(k, ops[0], ttl, id, latest);
      RunBoundsExpiry(Apply(k, ops[0], ttl), ops[1..], ttl, id, latest);
    }
  }

  /** A lease whose holder fell silent is free again one TTL later, whatever else happens. */
  lemma SilentLeaseIsReleased(ops: seq<Op>, ttl: real, id: BidId, latest: real, t: real)
    requires forall i | 0 <= i < |ops| :: TouchedBy(ops[i], id, latest)
    requires t >= latest + ttl
    ensures var k := After(Book(map[], map[]), ops + [Sweep(t)], ttl);
            id in k.records ==> !Active(k.records[id])
  {
    hide TouchedBy;
    var start := Book(map[], map[]);
    RunBoundsExpiry(start, ops, ttl, id, latest);
    AfterAppend(start, ops, Sweep(t), ttl);
  }

  // ---------- What the operations are for ----------

  /** A bid that is accepted, renewed in time and claimed in time is consumed, and then holds nothing. */
  lemma LeaseServes(k: Book, id: BidId, terms: BidRequest, d: Decision, submitted: real, decided: real, renewed: real,
                    begun: real, ttl: real)
    requires id !in k.records && d.accept && decided <= renewed < decided + ttl && begun < renewed + ttl
    ensures var ops := [Submit(id, terms, submitted), Decide(id, d, decided), Renew(id, renewed),
                        BeginActivation(id, terms, begun)];
            var claimed, spent := After(k, ops, ttl), After(k, ops + [Consume(id)], ttl);
            && id in claimed.records && claimed.records[id].status.Activating?
            && claimed.records[id].expires == Some(renewed + ttl)
            && id in spent.records
            && spent.records[id]
               == Bid(id, terms, submitted, Consumed, None, Some(d.rank), MaxReal(0.0, d.creditBefore))
  {
    hide Apply;
    var ops := [Submit(id, terms, submitted), Decide(id, d, decided), Renew(id, renewed),
                BeginActivation(id, terms, begun)];
    var pending := Apply(k, ops[0], ttl);
    var leased := Apply(pending, ops[1], ttl);
    var extended := Apply(leased, ops[2], ttl);
    var claimed := Apply(extended, ops[3], ttl);
    FourSteps(k, ops, ttl);
    AfterAppend(k, ops, Consume(id), ttl);
    StepsOfOne(k, id, terms, d, submitted, decided, renewed, begun, ttl);
  }

  lemma FourSteps(k: Book, ops: seq<Op>, ttl: real)
    requires |ops| == 4
    ensures After(k, ops, ttl)
            == Apply(Apply(Apply(Apply(k, ops[0], ttl), ops[1], ttl), ops[2], ttl), ops[3], ttl)
  {
    hide Apply;
    assert ops == [] + [ops[0]] + [ops[1]] + [ops[2]] + [ops[3]];
    AfterAppend(k, [], ops[0], ttl);
    AfterAppend(k, [ops[0]], ops[1], ttl);
    AfterAppend(k, [ops[0], ops[1]], ops[2], ttl);
    AfterAppend(k, [ops[0], ops[1], ops[2]], ops[3], ttl);
    assert [ops[0], ops[1], ops[2]] + [ops[3]] == ops;
    assert [ops[0], ops[1]] + [ops[2]] == [ops[0], ops[1], ops[2]];
    assert [ops[0]] + [ops[1]] == [ops[0], ops[1]];
    assert [] + [ops[0]] == [ops[0]];
  }

  lemma StepsOfOne(k: Book, id: BidId, terms: BidRequest, d: Decision, submitted: real, decided: real, renewed: real,
                   begun: real, ttl: real)
    requires id !in k.records && d.accept && decided <= renewed < decided + ttl && begun < renewed + ttl
    ensures var pending := Apply(k, Submit(id, terms, submitted), ttl);
            var leased := Apply(pending, Decide(id, d, decided), ttl);
            var extended := Apply(leased, Renew(id, renewed), ttl);
            var claimed := Apply(extended, BeginActivation(id, terms, begun), ttl);
            var spent := Apply(claimed, Consume(id), ttl);
            var credit := MaxReal(0.0, d.creditBefore);
            && id in claimed.records && id in spent.records
            && claimed.records[id]
               == Bid(id, terms, submitted, Activating, Some(renewed + ttl), Some(d.rank), credit)
            && spent.records[id] == Bid(id, terms, submitted, Consumed, None, Some(d.rank), credit)
  {
  }

  /** Cancelling releases whatever the bid holds and touches nothing else; what has ended stays as it ended. */
  lemma CancelReleases(k: Book, id: BidId, ttl: real)
    requires id in k.records
    ensures var k' := Apply(k, Op.Cancel(id), ttl);
            && k'.records.Keys == k.records.Keys && k'.credits == k.credits && !Active(k'.records[id])
            && (forall other | other in k.records && other != id :: k'.records[other] == k.records[other])
            && (if k.records[id].status in {Consumed, Rejected, BidStatus.Cancelled, Expired}
                then k'.records[id] == k.records[id]
                else k'.records[id] == k.records[id].(status := BidStatus.Cancelled, expires := None))
  {
  }
}
