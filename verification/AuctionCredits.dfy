/** What a round does to every task's fairness credit (magellan/bidding/arbiter.py, magellan/bidding/store.py). */
module AuctionCredits {
  import opened Common
  import opened Resources
  import opened BidBook
  import opened BidLifecycle
  import opened Ranking
  import opened Admission

  predicate TakesTask(bids: seq<Bid>, verdicts: seq<Verdict>, t: TaskId)
    requires |bids| == |verdicts|
  {
    exists i | 0 <= i < |bids| :: verdicts[i].Accept? && bids[i].terms.task == t
  }

  /** The bids of a task that only competing demand refused. */
  function Losses(bids: seq<Bid>, verdicts: seq<Verdict>, node: Node, t: TaskId): set<nat>
    requires |bids| == |verdicts|
  {
    set i: nat | 0 <= i < |bids| && bids[i].terms.task == t && Competed(bids, verdicts, node, i)
  }

  /** A task that is taken in keeps only a part of its credit; every loss to competition adds an increment. */
  function SettledCredit(credit: real, taken: bool, losses: nat, policy: AuctionPolicy): real {
    var kept := if taken then MaxReal(0.0, credit * policy.acceptedDecay) else credit;
    if losses == 0 then kept else MinReal(policy.creditMax, kept + losses as real * policy.creditIncrement)
  }

  ghost predicate CreditsSettled(credits: map<TaskId, real>, credits': map<TaskId, real>, bids: seq<Bid>,
                                 verdicts: seq<Verdict>, node: Node, policy: AuctionPolicy)
    requires |bids| == |verdicts|
  {
    forall t :: CreditOf(credits', t)
                == SettledCredit(CreditOf(credits, t), TakesTask(bids, verdicts, t), |Losses(bids, verdicts, node, t)|,
                                 policy)
  }

  /**
   With one bid in the window: taken in, lost to competition, or unable to run here. A task that was never credited
   before starts from nothing.
   */
  lemma OneBidSettles(credits: map<TaskId, real>, credits': map<TaskId, real>, bids: seq<Bid>,
                      verdicts: seq<Verdict>, node: Node, policy: AuctionPolicy, i: nat)
    requires |bids| == |verdicts| && CreditsSettled(credits, credits', bids, verdicts, node, policy) && i < |bids|
    requires forall j | 0 <= j < |bids| && j != i :: bids[j].terms.task != bids[i].terms.task
    ensures var t := bids[i].terms.task;
            CreditOf(credits', t)
            == if verdicts[i].Accept? then MaxReal(0.0, CreditOf(credits, t) * policy.acceptedDecay)
               else if node.capable(bids[i]) && Fits(node.capacity, RequestOf(bids[i]))
               then MinReal(policy.creditMax, CreditOf(credits, t) + policy.creditIncrement)
               else CreditOf(credits, t)
    ensures var t := bids[i].terms.task;
            t !in credits && Competed(bids, verdicts, node, i) ==>
              CreditOf(credits', t) == MinReal(policy.creditMax, policy.creditIncrement)
  {
    hide Fits;
    var t := bids[i].terms.task;
    assert Losses(bids, verdicts, node, t) == if Competed(bids, verdicts, node, i) then {i} else {};
  }

  // ---------- Steps of the proof ----------

  function IdsAt(bids: seq<Bid>, indices: set<nat>): set<BidId>
    requires forall i | i in indices :: i < |bids|
  {
    set i | i in indices :: bids[i].id
  }

  lemma {:induction false} AsManyIds(bids: seq<Bid>, indices: set<nat>)
    requires DistinctIds(bids) && forall i | i in indices :: i < |bids|
    ensures |IdsAt(bids, indices)| == |indices|
    decreases |indices|
  {
    if indices != {} {
      var i :| i in indices;
      var rest := indices - {i};
      AsManyIds(bids, rest);
      assert IdsAt(bids, indices) == IdsAt(bids, rest) + {bids[i].id};
      assert bids[i].id !in IdsAt(bids, rest);
    }
  }

  /** The decided bids, as they stand in the records. */
  ghost predicate Recorded(records: map<BidId, Bid>, bids: seq<Bid>) {
    && DistinctIds(bids)
    && forall i | 0 <= i < |bids| :: bids[i].id in records && records[bids[i].id].terms == bids[i].terms
  }

  lemma LostBids(records: map<BidId, Bid>, bids: seq<Bid>, verdicts: seq<Verdict>, node: Node, lost: set<BidId>,
                 t: TaskId)
    requires |bids| == |verdicts| && Recorded(records, bids)
    requires lost == set i | 0 <= i < |bids| && LostToCompetition(verdicts[i]) :: bids[i].id
    requires forall i | 0 <= i < |bids| :: LostToCompetition(verdicts[i]) <==> Competed(bids, verdicts, node, i)
    ensures |BidsOf(records, lost, t)| == |Losses(bids, verdicts, node, t)|
  {
    hide LostToCompetition, Competed;
    AsManyIds(bids, Losses(bids, verdicts, node, t));
    assert BidsOf(records, lost, t) == IdsAt(bids, Losses(bids, verdicts, node, t));
  }

  lemma WonBids(records: map<BidId, Bid>, bids: seq<Bid>, verdicts: seq<Verdict>, node: Node, room: Room,
                won: set<BidId>, t: TaskId)
    requires GreedyChoice(bids, verdicts, node, room) && Recorded(records, bids)
    requires won == set i | 0 <= i < |bids| && verdicts[i].Accept? :: bids[i].id
    ensures |BidsOf(records, won, t)| == if TakesTask(bids, verdicts, t) then 1 else 0
  {
    hide Fits, Covers, AcceptedCount, AcceptedDemand, AcceleratorMatches;
    if TakesTask(bids, verdicts, t) {
      var i :| 0 <= i < |bids| && verdicts[i].Accept? && bids[i].terms.task == t;
      forall id | id in BidsOf(records, won, t) ensures id == bids[i].id {
        var j :| 0 <= j < |bids| && verdicts[j].Accept? && bids[j].id == id;
        assert Admissible(bids, verdicts, node, room, i) && Admissible(bids, verdicts, node, room, j);
      }
      assert bids[i].id in BidsOf(records, won, t);
      assert BidsOf(records, won, t) == {bids[i].id};
    } else {
      assert BidsOf(records, won, t) == {};
    }
  }

  lemma {:induction false} RaisedIsSum(credit: real, increment: real, maximum: real, times: nat)
    requires increment > 0.0
    ensures Raised(credit, increment, maximum, times)
            == if times == 0 then credit else MinReal(maximum, credit + times as real * increment)
  {
    if times > 0 {
      RaisedIsSum(credit, increment, maximum, times - 1);
      assert times as real * increment == (times - 1) as real * increment + increment;
    }
  }

  lemma DecayedAt(records: map<BidId, Bid>, credits: map<TaskId, real>, won: set<BidId>, decay: real, t: TaskId)
    ensures CreditOf(DecayedCredits(records, credits, won, decay), t)
            == Decayed(CreditOf(credits, t), decay, |BidsOf(records, won, t)|)
  {
    hide BidsOf, TasksOf, DecayOnce;
    OneMoreTask(records, won, 0);
  }

  lemma RaisedAt(records: map<BidId, Bid>, credits: map<TaskId, real>, lost: set<BidId>, increment: real,
                 maximum: real, t: TaskId)
    ensures CreditOf(RaisedCredits(records, credits, lost, increment, maximum), t)
            == Raised(CreditOf(credits, t), increment, maximum, |BidsOf(records, lost, t)|)
  {
    hide BidsOf, TasksOf, RaiseOnce;
    OneMoreTask(records, lost, 0);
  }

  lemma OneTaskSettles(k: Book, won: set<BidId>, lost: set<BidId>, policy: AuctionPolicy, t: TaskId)
    requires policy.creditIncrement > 0.0 && |BidsOf(k.records, won, t)| <= 1
    ensures var k' := CreditedBook(k, won, lost, policy.creditIncrement, policy.creditMax, policy.acceptedDecay);
            CreditOf(k'.credits, t)
            == SettledCredit(CreditOf(k.credits, t), |BidsOf(k.records, won, t)| == 1,
                             |BidsOf(k.records, lost, t)|, policy)
  {
    hide BidsOf, CreditOf, DecayedCredits, RaisedCredits, Raised, RaiseOnce;
    var between := DecayedCredits(k.records, k.credits, won, policy.acceptedDecay);
    DecayedAt(k.records, k.credits, won, policy.acceptedDecay, t);
    RaisedAt(k.records, between, lost, policy.creditIncrement, policy.creditMax, t);
    RaisedIsSum(CreditOf(between, t), policy.creditIncrement, policy.creditMax, |BidsOf(k.records, lost, t)|);
  }

  /** The round's two sets of bids settle every task's credit so. */
  lemma RoundSettles(k: Book, bids: seq<Bid>, verdicts: seq<Verdict>, node: Node, room: Room, won: set<BidId>,
                     lost: set<BidId>, policy: AuctionPolicy)
    requires ValidRoom(room) && policy.creditIncrement > 0.0 && verdicts == Admit(bids, node, room, {})
    requires |bids| == |verdicts| && Recorded(k.records, bids)
    requires won == set i | 0 <= i < |bids| && verdicts[i].Accept? :: bids[i].id
    requires lost == set i | 0 <= i < |bids| && LostToCompetition(verdicts[i]) :: bids[i].id
    ensures var k' := CreditedBook(k, won, lost, policy.creditIncrement, policy.creditMax, policy.acceptedDecay);
            CreditsSettled(k.credits, k'.credits, bids, verdicts, node, policy)
  {
    hide Admit, LostToCompetition, Competed, GreedyChoice, Recorded, SettledCredit, CreditedBook, Losses, BidsOf;
    hide TakesTask;
    AdmitIsGreedy(bids, node, room);
    LosersCompeted(bids, node, room);
    var k' := CreditedBook(k, won, lost, policy.creditIncrement, policy.creditMax, policy.acceptedDecay);
    forall t
      ensures CreditOf(k'.credits, t)
              == SettledCredit(CreditOf(k.credits, t), TakesTask(bids, verdicts, t),
                               |Losses(bids, verdicts, node, t)|, policy)
    {
      WonBids(k.records, bids, verdicts, node, room, won, t);
      LostBids(k.records, bids, verdicts, node, lost, t);
      OneTaskSettles(k, won, lost, policy, t);
    }
  }
}
