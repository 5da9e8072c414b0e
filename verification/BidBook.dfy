/** Bids, capacity leases and fairness credits of one destination (magellan/bidding/store.py). */
module BidBook {
  import opened Common
  import opened Resources

  datatype BidStatus = Pending | Accepted | Activating | Consumed | Rejected | Cancelled | Expired

  /** What the bidding task says about itself. Runtime requirements are opaque. */
  datatype TaskContext = TaskContext(
    priority: nat,
    deadline: Option<real>,
    remaining: Option<real>,
    request: Request,
    opportunityLoss: real,
    requirements: nat)

  datatype BidRequest = BidRequest(
    task: TaskId,
    source: NodeId,
    destination: NodeId,
    score: real,
    context: Option<TaskContext>)

  datatype Bid = Bid(
    id: BidId,
    terms: BidRequest,
    received: real,
    status: BidStatus,
    expires: Option<real>,
    rank: Option<nat>,
    creditBefore: real)

  datatype Book = Book(records: map<BidId, Bid>, credits: map<TaskId, real>)

  datatype BidError = UnknownBid | BadDecision | NotRenewable | Mismatch | NotActivatable | NotConsumable

  type BidResult = Result<Bid, BidError>

  predicate Active(b: Bid) {
    b.status.Accepted? || b.status.Activating?
  }

  predicate Terminal(b: Bid) {
    b.status.Consumed? || b.status.Rejected? || b.status.Cancelled? || b.status.Expired?
  }

  predicate Lapsed(b: Bid, now: real) {
    Active(b) && b.expires.Some? && b.expires.value <= now
  }

  function CreditOf(credits: map<TaskId, real>, t: TaskId): real {
    if t in credits then credits[t] else 0.0
  }

  // ---------- Specifications ----------

  function Swept(b: Bid, now: real): Bid {
    if Lapsed(b, now) then b.(status := Expired) else b
  }

  function SweptAll(records: map<BidId, Bid>, now: real): map<BidId, Bid> {
    map id | id in records :: Swept(records[id], now)
  }

  function WithBid(k: Book, id: BidId, b: Bid): Book {
    k.(records := k.records[id := b])
  }

  function SweptBook(k: Book, now: real): Book {
    k.(records := SweptAll(k.records, now))
  }

  predicate AnyLapsed(k: Book, now: real) {
    exists id | id in k.records :: Lapsed(k.records[id], now)
  }

  /** The arbiter's verdict on a bid. */
  datatype Decision = Decision(accept: bool, rank: nat, creditBefore: real)

  function DecidedBid(b: Bid, d: Decision, now: real, ttl: real): Bid {
    if !b.status.Pending? then b
    else b.(status := if d.accept then Accepted else Rejected,
            rank := Some(d.rank),
            creditBefore := MaxReal(0.0, d.creditBefore),
            expires := if d.accept then Some(now + ttl) else b.expires)
  }

  predicate MatchesTerms(b: Bid, t: BidRequest) {
    b.terms.task == t.task && b.terms.source == t.source && b.terms.destination == t.destination
  }

  /** Operations on the book; times are those at which the lock is held. */
  datatype Op =
    | Submit(id: BidId, terms: BidRequest, at: real)
    | Sweep(at: real)
    | Decide(id: BidId, decision: Decision, at: real)
    | Renew(id: BidId, at: real)
    | BeginActivation(id: BidId, terms: BidRequest, at: real)
    | Consume(id: BidId)
    | Cancel(id: BidId)
    | Credit(accepted: set<BidId>, rejected: set<BidId>, increment: real, maximum: real, decay: real)

  function Submitted(k: Book, id: BidId, terms: BidRequest, at: real): Book {
    if id in k.records then k else WithBid(k, id, Bid(id, terms, at, Pending, None, None, 0.0))
  }

  function DecidedBook(k: Book, id: BidId, d: Decision, at: real, ttl: real): Book {
    var swept := SweptBook(k, at);
    if id in swept.records then WithBid(swept, id, DecidedBid(swept.records[id], d, at, ttl)) else swept
  }

  function RenewedBook(k: Book, id: BidId, at: real, ttl: real): Book {
    var swept := SweptBook(k, at);
    if id in swept.records && Active(swept.records[id])
    then WithBid(swept, id, swept.records[id].(expires := Some(at + ttl))) else swept
  }

  predicate Activatable(k: Book, id: BidId, terms: BidRequest) {
    id in k.records && MatchesTerms(k.records[id], terms) && k.records[id].status.Accepted?
  }

  function BegunBook(k: Book, id: BidId, terms: BidRequest, at: real): Book {
    var swept := SweptBook(k, at);
    if Activatable(swept, id, terms) then WithBid(swept, id, swept.records[id].(status := Activating)) else swept
  }

  function ConsumedBook(k: Book, id: BidId): Book {
    if id in k.records && k.records[id].status.Activating?
    then WithBid(k, id, k.records[id].(status := Consumed, expires := None)) else k
  }

  function CancelledBook(k: Book, id: BidId): Book {
    if id in k.records && !Terminal(k.records[id])
    then WithBid(k, id, k.records[id].(status := Cancelled, expires := None)) else k
  }

  // ---------- Credits ----------

  /** The known bids among `ids` that are for task `t`. */
  function BidsOf(records: map<BidId, Bid>, ids: set<BidId>, t: TaskId): set<BidId> {
    set id | id in ids && id in records && records[id].terms.task == t
  }

  function TasksOf(records: map<BidId, Bid>, ids: set<BidId>): set<TaskId> {
    set id | id in ids && id in records :: records[id].terms.task
  }

  function DecayOnce(credit: real, decay: real): real {
    MaxReal(0.0, credit * decay)
  }

  function RaiseOnce(credit: real, increment: real, maximum: real): real {
    MinReal(maximum, credit + increment)
  }

  function Decayed(credit: real, decay: real, times: nat): real {
    if times == 0 then credit else DecayOnce(Decayed(credit, decay, times - 1), decay)
  }

  function Raised(credit: real, increment: real, maximum: real, times: nat): real {
    if times == 0 then credit else RaiseOnce(Raised(credit, increment, maximum, times - 1), increment, maximum)
  }

  /** A task's credit decays once per accepted bid ... */
  function DecayedCredits(records: map<BidId, Bid>, credits: map<TaskId, real>, accepted: set<BidId>, decay: real)
    : map<TaskId, real>
  {
    map t | t in credits.Keys + TasksOf(records, accepted) ::
      Decayed(CreditOf(credits, t), decay, |BidsOf(records, accepted, t)|)
  }

  /** ... and grows once per bid lost to competition. */
  function RaisedCredits(records: map<BidId, Bid>, credits: map<TaskId, real>, rejected: set<BidId>,
                         increment: real, maximum: real): map<TaskId, real>
  {
    map t | t in credits.Keys + TasksOf(records, rejected) ::
      Raised(CreditOf(credits, t), increment, maximum, |BidsOf(records, rejected, t)|)
  }

  function CreditedBook(k: Book, accepted: set<BidId>, rejected: set<BidId>, increment: real, maximum: real,
                        decay: real): Book
  {
    k.(credits := RaisedCredits(k.records, DecayedCredits(k.records, k.credits, accepted, decay),
                                rejected, increment, maximum))
  }

  function Apply(k: Book, op: Op, ttl: real): Book {
    match op
    case Submit(id, terms, at) => Submitted(k, id, terms, at)
    case Sweep(at) => SweptBook(k, at)
    case Decide(id, d, at) => DecidedBook(k, id, d, at, ttl)
    case Renew(id, at) => RenewedBook(k, id, at, ttl)
    case BeginActivation(id, terms, at) => BegunBook(k, id, terms, at)
    case Consume(id) => ConsumedBook(k, id)
    case Cancel(id) => CancelledBook(k, id)
    case Credit(a, r, i, m, d) => CreditedBook(k, a, r, i, m, d)
  }

  /** Records are filed under their own id. */
  predicate Filed(k: Book) {
    forall id | id in k.records :: k.records[id].id == id
  }

  // ---------- The store ----------

  class BidStore {
    const ttl: real
    var records: map<BidId, Bid>
    var credits: map<TaskId, real>

    constructor (ttl: real)
      ensures this.ttl == ttl && Contents() == Book(map[], map[])
    {
      this.ttl := ttl;
      records, credits := map[], map[];
    }

    function Contents(): Book
      reads this
    {
      Book(records, credits)
    }

    /** Expires every active reservation whose time has come; returns those. */
    method ExpireReservations(now: real) returns (expired: set<BidId>)
      modifies `records
      ensures Contents() == Apply(old(Contents()), Sweep(now), ttl)
      ensures expired == set id | id in old(records) && Lapsed(old(records)[id], now)
      ensures expired != {} <==> AnyLapsed(old(Contents()), now)
    {
      var todo := records.Keys;
      expired := {};
      while todo != {}
        invariant todo <= records.Keys == old(records).Keys
        invariant forall id | id in records ::
                    records[id] == if id in todo then old(records)[id] else Swept(old(records)[id], now)
        invariant expired == set id | id in old(records) && id !in todo && Lapsed(old(records)[id], now)
        decreases |todo|
      {
        var id :| id in todo;
        todo := todo - {id};
        if Lapsed(records[id], now) {
          records := records[id := records[id].(status := Expired)];
          expired := expired + {id};
        }
      }
      if expired != {} {
        var id :| id in expired;
        assert AnyLapsed(old(Contents()), now);
      }
    }

    method Submit(id: BidId, terms: BidRequest, now: real) returns (b: Bid)
      modifies `records
      ensures Contents() == Apply(old(Contents()), Op.Submit(id, terms, now), ttl)
      ensures id in records && b == records[id]
    {
      if id !in records {
        records := records[id := Bid(id, terms, now, Pending, None, None, 0.0)];
      }
      b := records[id];
    }

    /** Accepts or rejects a pending bid; a decided one stays as it is. */
    method Decide(id: BidId, decision: Decision, now: real) returns (r: BidResult)
      modifies `records
      ensures Contents() == Apply(old(Contents()), Op.Decide(id, decision, now), ttl)
      ensures r == if id in records then Ok(records[id]) else Err(UnknownBid)
    {
      var expired := ExpireReservations(now);
      if id !in records {
        return Err(UnknownBid);
      }
      var b := records[id];
      if b.status.Pending? {
        b := b.(status := if decision.accept then Accepted else Rejected,
                rank := Some(decision.rank),
                creditBefore := MaxReal(0.0, decision.creditBefore));
        if decision.accept {
          b := b.(expires := Some(now + ttl));
        }
        records := records[id := b];
      } else {
        assert records == records[id := records[id]];
      }
      r := Ok(records[id]);
    }

    method Renew(id: BidId, now: real) returns (r: BidResult)
      modifies `records
      ensures Contents() == Apply(old(Contents()), Op.Renew(id, now), ttl)
      ensures r.Ok? <==> id in records && Active(records[id])
      ensures r.Ok? ==> r.value == records[id]
      ensures r.Err? ==> r.error == if id in records then NotRenewable else UnknownBid
    {
      var expired := ExpireReservations(now);
      if id !in records {
        return Err(UnknownBid);
      }
      if !Active(records[id]) {
        return Err(NotRenewable);
      }
      records := records[id := records[id].(expires := Some(now + ttl))];
      r := Ok(records[id]);
    }

    method BeginActivation(id: BidId, terms: BidRequest, now: real) returns (r: BidResult)
      modifies `records
      ensures Contents() == Apply(old(Contents()), Op.BeginActivation(id, terms, now), ttl)
      ensures r.Ok? <==> Activatable(SweptBook(old(Contents()), now), id, terms)
      ensures r.Ok? ==> id in records && r.value == records[id]
    {
      var expired := ExpireReservations(now);
      if id !in records {
        return Err(UnknownBid);
      }
      if !MatchesTerms(records[id], terms) {
        return Err(Mismatch);
      }
      if !records[id].status.Accepted? {
        return Err(NotActivatable);
      }
      records := records[id := records[id].(status := Activating)];
      r := Ok(records[id]);
    }

    method Consume(id: BidId) returns (r: BidResult)
      modifies `records
      ensures Contents() == Apply(old(Contents()), Op.Consume(id), ttl)
      ensures r.Ok? <==> id in old(records) && old(records)[id].status.Activating?
      ensures r.Ok? ==> id in records && r.value == records[id]
    {
      if id !in records {
        return Err(UnknownBid);
      }
      if !records[id].status.Activating? {
        return Err(NotConsumable);
      }
      records := records[id := records[id].(status := Consumed, expires := None)];
      r := Ok(records[id]);
    }

    method Cancel(id: BidId) returns (r: BidResult)
      modifies `records
      ensures Contents() == Apply(old(Contents()), Op.Cancel(id), ttl)
      ensures r == if id in records then Ok(records[id]) else Err(UnknownBid)
    {
      if id !in records {
        return Err(UnknownBid);
      }
      if !Terminal(records[id]) {
        records := records[id := records[id].(status := Cancelled, expires := None)];
      }
      r := Ok(records[id]);
    }

    /** Winners' credit decays ... */
    method DecayAccepted(accepted: set<BidId>, decay: real)
      modifies `credits
      ensures credits == DecayedCredits(records, old(credits), accepted, decay)
    {
      hide DecayedCredits, DecayOnce, CreditOf;
      var todo := accepted;
      NoOutcomes(records, credits, decay);
      assert accepted - todo == {};
      while todo != {}
        invariant todo <= accepted && credits == DecayedCredits(records, old(credits), accepted - todo, decay)
        decreases |todo|
      {
        var id :| id in todo;
        DecayStep(records, old(credits), accepted - todo, id, decay);
        assert accepted - (todo - {id}) == (accepted - todo) + {id};
        todo := todo - {id};
        if id in records {
          var t := records[id].terms.task;
          credits := credits[t := DecayOnce(CreditOf(credits, t), decay)];
        }
      }
      assert accepted - todo == accepted;
    }

    /** ... and those that lost to competition gain. */
    method RaiseRejected(rejected: set<BidId>, increment: real, maximum: real)
      modifies `credits
      ensures credits == RaisedCredits(records, old(credits), rejected, increment, maximum)
    {
      hide RaisedCredits, RaiseOnce, CreditOf;
      var todo := rejected;
      NothingRaised(records, credits, increment, maximum);
      assert rejected - todo == {};
      while todo != {}
        invariant todo <= rejected
        invariant credits == RaisedCredits(records, old(credits), rejected - todo, increment, maximum)
        decreases |todo|
      {
        var id :| id in todo;
        RaiseStep(records, old(credits), rejected - todo, id, increment, maximum);
        assert rejected - (todo - {id}) == (rejected - todo) + {id};
        todo := todo - {id};
        if id in records {
          var t := records[id].terms.task;
          credits := credits[t := RaiseOnce(CreditOf(credits, t), increment, maximum)];
        }
      }
      assert rejected - todo == rejected;
    }

    /** The credits after an auction. */
    method ApplyCreditOutcomes(accepted: set<BidId>, rejected: set<BidId>, increment: real, maximum: real, decay: real)
      modifies `credits
      ensures Contents() == Apply(old(Contents()), Credit(accepted, rejected, increment, maximum, decay), ttl)
    {
      hide RaisedCredits, DecayedCredits;
      DecayAccepted(accepted, decay);
      RaiseRejected(rejected, increment, maximum);
    }
  }

  lemma NoOutcomes(records: map<BidId, Bid>, credits: map<TaskId, real>, decay: real)
    ensures DecayedCredits(records, credits, {}, decay) == credits
  {
    assert forall t :: BidsOf(records, {}, t) == {};
  }

  lemma NothingRaised(records: map<BidId, Bid>, credits: map<TaskId, real>, increment: real, maximum: real)
    ensures RaisedCredits(records, credits, {}, increment, maximum) == credits
  {
    assert forall t :: BidsOf(records, {}, t) == {};
  }

  /** One more bid counts once for its own task, and for no other. */
  lemma OneMore(records: map<BidId, Bid>, done: set<BidId>, id: BidId, t: TaskId)
    requires id !in done
    ensures |BidsOf(records, done + {id}, t)|
            == |BidsOf(records, done, t)| + if id in records && records[id].terms.task == t then 1 else 0
  {
    if id in records && records[id].terms.task == t {
      assert BidsOf(records, done + {id}, t) == BidsOf(records, done, t) + {id};
    } else {
      assert BidsOf(records, done + {id}, t) == BidsOf(records, done, t);
    }
  }

  lemma OneMoreTask(records: map<BidId, Bid>, done: set<BidId>, id: BidId)
    ensures TasksOf(records, done + {id})
            == TasksOf(records, done) + if id in records then {records[id].terms.task} else {}
    ensures forall t | t !in TasksOf(records, done) :: BidsOf(records, done, t) == {}
  {
    forall t | t !in TasksOf(records, done) ensures BidsOf(records, done, t) == {} {
      assert forall x | x in done && x in records :: records[x].terms.task in TasksOf(records, done);
    }
    var more := TasksOf(records, done + {id});
    forall t | t in TasksOf(records, done) ensures t in more {
      var x :| x in done && x in records && records[x].terms.task == t;
      assert x in done + {id};
    }
    if id in records {
      assert id in done + {id} && records[id].terms.task in more;
    }
  }

  lemma DecayStep(records: map<BidId, Bid>, credits: map<TaskId, real>, done: set<BidId>, id: BidId, decay: real)
    requires id !in done
    ensures var before := DecayedCredits(records, credits, done, decay);
            DecayedCredits(records, credits, done + {id}, decay)
            == if id in records then
                 var t := records[id].terms.task;
                 before[t := DecayOnce(CreditOf(before, t), decay)]
               else before
  {
    hide BidsOf, TasksOf, DecayOnce;
    OneMoreTask(records, done, id);
    var before := DecayedCredits(records, credits, done, decay);
    var after := DecayedCredits(records, credits, done + {id}, decay);
    forall t | t in after
      ensures after[t] == if id in records && records[id].terms.task == t
                          then DecayOnce(CreditOf(before, t), decay) else before[t]
    {
      var n := |BidsOf(records, done, t)|;
      assert Decayed(CreditOf(credits, t), decay, n + 1) == DecayOnce(Decayed(CreditOf(credits, t), decay, n), decay);
      OneMore(records, done, id, t);
      if t !in before {
        assert BidsOf(records, done, t) == {};
      }
    }
  }

  lemma RaiseStep(records: map<BidId, Bid>, credits: map<TaskId, real>, done: set<BidId>, id: BidId, increment: real,
                  maximum: real)
    requires id !in done
    ensures var before := RaisedCredits(records, credits, done, increment, maximum);
            RaisedCredits(records, credits, done + {id}, increment, maximum)
            == if id in records then
                 var t := records[id].terms.task;
                 before[t := RaiseOnce(CreditOf(before, t), increment, maximum)]
               else before
  {
    hide BidsOf, TasksOf, RaiseOnce;
    OneMoreTask(records, done, id);
    var before := RaisedCredits(records, credits, done, increment, maximum);
    var after := RaisedCredits(records, credits, done + {id}, increment, maximum);
    forall t | t in after
      ensures after[t] == if id in records && records[id].terms.task == t
                          then RaiseOnce(CreditOf(before, t), increment, maximum) else before[t]
    {
      var n := |BidsOf(records, done, t)|;
      var raised := Raised(CreditOf(credits, t), increment, maximum, n);
      assert Raised(CreditOf(credits, t), increment, maximum, n + 1) == RaiseOnce(raised, increment, maximum);
      OneMore(records, done, id, t);
      if t !in before {
        assert BidsOf(records, done, t) == {};
      }
    }
  }
}
