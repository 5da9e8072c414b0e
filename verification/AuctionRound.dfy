/** What one auction round leaves in the bid store. */
module AuctionRound {
  import opened Common
  import opened Resources
  import opened BidBook
  import opened BidLifecycle
  import opened Ranking
  import opened Admission
  import opened Arbiter

  ghost predicate NoneLapsed(k: Book, now: real) {
    forall id | id in k.records :: !Lapsed(k.records[id], now)
  }

  /** The ranked bids are pending records of the book, each listed once. */
  ghost predicate Auctioned(k: Book, ranked: seq<RankedBid>) {
    && (forall i | 0 <= i < |ranked| ::
          && ranked[i].bid.id in k.records && k.records[ranked[i].bid.id] == ranked[i].bid
          && ranked[i].bid.status.Pending?)
    && (forall i, j | 0 <= i < j < |ranked| :: ranked[i].bid.id != ranked[j].bid.id)
  }

  /** What becomes of a bid with this verdict. */
  function Outcome(b: Bid, v: Verdict, i: nat, credits: map<TaskId, real>, now: real, ttl: real): Bid {
    b.(status := if v.Accept? then Accepted else Rejected,
       rank := Some(i + 1),
       creditBefore := MaxReal(0.0, CreditOf(credits, b.terms.task)),
       expires := if v.Accept? then Some(now + ttl) else b.expires)
  }

  ghost predicate DecidedAs(k: Book, k': Book, ranked: seq<RankedBid>, verdicts: seq<Verdict>,
                            credits: map<TaskId, real>, now: real, ttl: real)
    requires |verdicts| == |ranked|
  {
    && k'.credits == k.credits && k'.records.Keys == k.records.Keys
    && (forall i | 0 <= i < |ranked| ::
          ranked[i].bid.id in k'.records
          && k'.records[ranked[i].bid.id] == Outcome(ranked[i].bid, verdicts[i], i, credits, now, ttl))
    && (forall id | id in k.records :: (forall i | 0 <= i < |ranked| :: ranked[i].bid.id != id) ==>
                                         k'.records[id] == k.records[id])
  }

  lemma SweepIsIdle(k: Book, now: real)
    requires NoneLapsed(k, now)
    ensures SweptBook(k, now) == k
  {
    assert SweptAll(k.records, now) == k.records;
  }

  lemma OneDecision(k: Book, b: Bid, v: Verdict, i: nat, credits: map<TaskId, real>, now: real, ttl: real)
    requires NoneLapsed(k, now) && ttl > 0.0 && b.id in k.records && k.records[b.id] == b && b.status.Pending?
    ensures Apply(k, DecideOp(b, v, i, credits, now), ttl) == WithBid(k, b.id, Outcome(b, v, i, credits, now, ttl))
    ensures NoneLapsed(WithBid(k, b.id, Outcome(b, v, i, credits, now, ttl)), now)
  {
    SweepIsIdle(k, now);
  }

  lemma {:induction false} DecisionsApplied(
      k: Book, ranked: seq<RankedBid>, verdicts: seq<Verdict>, credits: map<TaskId, real>, now: real, ttl: real)
    requires |verdicts| == |ranked| && NoneLapsed(k, now) && ttl > 0.0 && Auctioned(k, ranked)
    ensures DecidedAs(k, After(k, DecideOps(ranked, verdicts, credits, now), ttl), ranked, verdicts, credits, now, ttl)
    ensures NoneLapsed(After(k, DecideOps(ranked, verdicts, credits, now), ttl), now)
  {
    hide Apply, Outcome, NoneLapsed;
    if ranked != [] {
      var last := |ranked| - 1;
      var front, b, v := ranked[..last], ranked[last].bid, verdicts[last];
      DecisionsApplied(k, front, verdicts[..last], credits, now, ttl);
      var before := After(k, DecideOps(front, verdicts[..last], credits, now), ttl);
      AfterAppend(k, DecideOps(front, verdicts[..last], credits, now), DecideOp(b, v, last, credits, now), ttl);
      assert before.records[b.id] == k.records[b.id];
      OneDecision(before, b, v, last, credits, now, ttl);
      OneMoreDecided(k, before, ranked, verdicts, credits, now, ttl);
    }
  }

  lemma OneMoreDecided(k: Book, before: Book, ranked: seq<RankedBid>, verdicts: seq<Verdict>,
                       credits: map<TaskId, real>, now: real, ttl: real)
    requires |verdicts| == |ranked| > 0 && Auctioned(k, ranked)
    requires DecidedAs(k, before, ranked[..|ranked| - 1], verdicts[..|ranked| - 1], credits, now, ttl)
    ensures var last := |ranked| - 1;
            DecidedAs(k, WithBid(before, ranked[last].bid.id,
                                 Outcome(ranked[last].bid, verdicts[last], last, credits, now, ttl)),
                      ranked, verdicts, credits, now, ttl)
  {
    hide Outcome;
    var last := |ranked| - 1;
    var front := ranked[..last];
    forall i | 0 <= i < last ensures front[i] == ranked[i] && verdicts[..last][i] == verdicts[i] {
    }
    var after := WithBid(before, ranked[last].bid.id,
                         Outcome(ranked[last].bid, verdicts[last], last, credits, now, ttl));
    forall id | id in k.records && forall i | 0 <= i < |ranked| :: ranked[i].bid.id != id
      ensures after.records[id] == k.records[id]
    {
      assert ranked[last].bid.id != id;
      assert forall i | 0 <= i < last :: front[i].bid.id != id;
    }
  }

  /**
   After a round every auctioned bid is decided as the greedy rule says: accepted with a fresh lease, or
   rejected. No other bid is touched, and only winners and those that lost to competition see their credit change.
   */
  lemma RoundOutcome(
      k: Book, ranked: seq<RankedBid>, verdicts: seq<Verdict>, now: real, ttl: real, policy: AuctionPolicy)
    requires |verdicts| == |ranked| && NoneLapsed(k, now) && ttl > 0.0 && Auctioned(k, ranked)
    ensures var k' := After(k, RoundOps(ranked, verdicts, k.credits, now, policy), ttl);
            && DecidedAs(k, k'.(credits := k.credits), ranked, verdicts, k.credits, now, ttl)
            && forall t :: BidsOf(k.records, IdsWith(ranked, verdicts, true), t) == {}
                           && BidsOf(k.records, IdsWith(ranked, verdicts, false), t) == {} ==>
                 CreditOf(k'.credits, t) == CreditOf(k.credits, t)
  {
    hide Outcome, NoneLapsed, DecideOps, IdsWith;
    var won, lost := IdsWith(ranked, verdicts, true), IdsWith(ranked, verdicts, false);
    DecisionsApplied(k, ranked, verdicts, k.credits, now, ttl);
    var decided := After(k, DecideOps(ranked, verdicts, k.credits, now), ttl);
    AfterAppend(k, DecideOps(ranked, verdicts, k.credits, now),
                Credit(won, lost, policy.creditIncrement, policy.creditMax, policy.acceptedDecay), ttl);
    SameTerms(k, decided, ranked, verdicts, now, ttl);
    forall t | BidsOf(k.records, won, t) == {} && BidsOf(k.records, lost, t) == {}
      ensures CreditOf(CreditedBook(decided, won, lost, policy.creditIncrement, policy.creditMax,
                                    policy.acceptedDecay).credits, t) == CreditOf(k.credits, t)
    {
      SameBids(k.records, decided.records, won, t);
      SameBids(k.records, decided.records, lost, t);
    }
  }

  /** Decisions never change what a bid is about. */
  lemma SameTerms(k: Book, k': Book, ranked: seq<RankedBid>, verdicts: seq<Verdict>, now: real, ttl: real)
    requires |verdicts| == |ranked| && Auctioned(k, ranked)
    requires DecidedAs(k, k', ranked, verdicts, k.credits, now, ttl)
    ensures k'.records.Keys == k.records.Keys
    ensures forall id | id in k.records :: k'.records[id].terms == k.records[id].terms
  {
    forall id | id in k.records ensures k'.records[id].terms == k.records[id].terms {
      if i :| 0 <= i < |ranked| && ranked[i].bid.id == id {
        assert k'.records[ranked[i].bid.id] == Outcome(ranked[i].bid, verdicts[i], i, k.credits, now, ttl);
      }
    }
  }

  lemma SameBids(records: map<BidId, Bid>, records': map<BidId, Bid>, ids: set<BidId>, t: TaskId)
    requires records'.Keys == records.Keys && forall id | id in records :: records'[id].terms == records[id].terms
    ensures BidsOf(records', ids, t) == BidsOf(records, ids, t)
  {
  }
}
