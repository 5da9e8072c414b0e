/**
 Bounded waiting under the `credit_fair` strategy: `n` tasks bid in every window for the one slot that is free.
 */
module Fairness {
  import opened Common
  import opened Resources
  import opened BidBook
  import opened Ranking
  import opened Admission
  import opened Arbiter

  /** One window: the book at the auction, the bids (task `t`'s at index `t`), the node and what it has left. */
  datatype Round = Round(book: Book, bids: seq<Bid>, node: Node, room: Room, now: real)

  function MarketOf(policy: AuctionPolicy, r: Round): Market {
    Market(policy, r.book.credits, r.node.capacity, r.now)
  }

  /** Every task bids, each could run here alone, and there is one slot. */
  predicate Contested(n: nat, policy: AuctionPolicy, r: Round) {
    && ValidMarket(MarketOf(policy, r)) && policy.strategy.CreditFair? && policy.acceptedDecay == 0.0
    && |r.bids| == n && r.room.slots == Some(1)
    && (forall t: nat | t < n ::
          && r.bids[t].terms.task == t
          && r.bids[t].id in r.book.records && r.book.records[r.bids[t].id] == r.bids[t]
          && r.node.capable(r.bids[t])
          && Fits(r.node.capacity, RequestOf(r.bids[t])) && Fits(r.room.resources, RequestOf(r.bids[t])))
    && DistinctIds(r.bids)
  }

  function RankingOf(policy: AuctionPolicy, r: Round): seq<RankedBid>
    requires ValidMarket(MarketOf(policy, r))
  {
    Sorted(Keyed(r.bids, MarketOf(policy, r)))
  }

  function VerdictsOf(policy: AuctionPolicy, r: Round): seq<Verdict>
    requires ValidMarket(MarketOf(policy, r))
  {
    Admit(BidsIn(RankingOf(policy, r)), r.node, r.room, {})
  }

  /** The store's credits after the round. */
  function CreditsAfter(policy: AuctionPolicy, r: Round): map<TaskId, real>
    requires ValidMarket(MarketOf(policy, r))
    requires |VerdictsOf(policy, r)| == |RankingOf(policy, r)|
  {
    CreditedBook(r.book, IdsWith(RankingOf(policy, r), VerdictsOf(policy, r), true),
                 IdsWith(RankingOf(policy, r), VerdictsOf(policy, r), false),
                 policy.creditIncrement, policy.creditMax, policy.acceptedDecay).credits
  }

  predicate Served(policy: AuctionPolicy, r: Round, t: TaskId)
    requires ValidMarket(MarketOf(policy, r))
  {
    exists i :: 0 <= i < |RankingOf(policy, r)| && i < |VerdictsOf(policy, r)|
                && VerdictsOf(policy, r)[i].Accept? && RankingOf(policy, r)[i].bid.terms.task == t
  }

  // ---------- One window ----------

  lemma RankingFacts(n: nat, policy: AuctionPolicy, r: Round)
    requires Contested(n, policy, r)
    ensures |RankingOf(policy, r)| == |VerdictsOf(policy, r)| == n
    ensures InOrder(RankingOf(policy, r)) && DistinctIds(BidsIn(RankingOf(policy, r)))
    ensures forall i | 0 <= i < n ::
              RankingOf(policy, r)[i].key == KeyOf(RankingOf(policy, r)[i].bid, MarketOf(policy, r))
    ensures forall b :: b in BidsIn(RankingOf(policy, r)) <==> b in r.bids
  {
    hide KeyOf, Sorted, Keyed, InOrder;
    var m := MarketOf(policy, r);
    RankedBids(r.bids, m);
    KeyedPointwise(r.bids, m);
    SortedIsOrdered(Keyed(r.bids, m));
    assert |Sorted(Keyed(r.bids, m))| == |multiset(Sorted(Keyed(r.bids, m)))| == |Keyed(r.bids, m)|;
    AdmitLength(BidsIn(RankingOf(policy, r)), r.node, r.room, {});
  }

  lemma {:induction false} NoSlotLeft(bids: seq<Bid>, node: Node, room: Room, selected: set<TaskId>)
    requires room.slots == Some(0)
    requires forall b | b in bids ::
               node.capable(b) && Fits(node.capacity, RequestOf(b)) && b.terms.task !in selected
    ensures |Admit(bids, node, room, selected)| == |bids|
    ensures forall v | v in Admit(bids, node, room, selected) :: v == NoSlot
    decreases |bids|
  {
    if bids != [] {
      NoSlotLeft(bids[1..], node, room, selected);
    }
  }

  /** The first in rank takes the slot; all others lose to competition. */
  lemma FirstTakesTheSlot(n: nat, policy: AuctionPolicy, r: Round)
    requires Contested(n, policy, r) && n > 0
    ensures |VerdictsOf(policy, r)| == |RankingOf(policy, r)| == n
    ensures VerdictsOf(policy, r)[0].Accept?
    ensures forall i | 1 <= i < n :: VerdictsOf(policy, r)[i].NoSlot?
  {
    hide KeyOf, Sorted, Keyed, InOrder, Fits, Remaining;
    RankingFacts(n, policy, r);
    var bids := BidsIn(RankingOf(policy, r));
    assert bids[0] in r.bids;
    var rest, after := bids[1..], Without(r.room, bids[0]);
    forall b | b in rest
      ensures r.node.capable(b) && Fits(r.node.capacity, RequestOf(b)) && b.terms.task != bids[0].terms.task
    {
      var j :| 0 <= j < |rest| && rest[j] == b;
      assert b == bids[j + 1] && b in r.bids && bids[j + 1].id != bids[0].id;
    }
    NoSlotLeft(rest, r.node, after, {bids[0].terms.task});
    assert {} + {bids[0].terms.task} == {bids[0].terms.task};
    var others := Admit(rest, r.node, after, {bids[0].terms.task});
    assert VerdictsOf(policy, r) == [Accept] + others;
    forall i | 1 <= i < n ensures VerdictsOf(policy, r)[i].NoSlot? {
      assert others[i - 1] in others;
    }
  }

  function Winner(n: nat, policy: AuctionPolicy, r: Round): TaskId
    requires Contested(n, policy, r) && n > 0 && |RankingOf(policy, r)| == n
  {
    RankingOf(policy, r)[0].bid.terms.task
  }

  lemma RankOf(n: nat, policy: AuctionPolicy, r: Round, t: TaskId) returns (i: nat)
    requires Contested(n, policy, r) && t < n
    ensures |RankingOf(policy, r)| == n && i < n && RankingOf(policy, r)[i].bid == r.bids[t]
  {
    hide KeyOf, Sorted, Keyed, InOrder, Fits;
    RankingFacts(n, policy, r);
    assert r.bids[t] in BidsIn(RankingOf(policy, r));
    i :| 0 <= i < n && BidsIn(RankingOf(policy, r))[i] == r.bids[t];
  }

  /** Exactly the winner is served, and nobody has more credit than it. */
  lemma WinnerIsServed(n: nat, policy: AuctionPolicy, r: Round, t: TaskId)
    requires Contested(n, policy, r) && t < n
    ensures |RankingOf(policy, r)| == n
    ensures Served(policy, r, t) <==> t == Winner(n, policy, r)
    ensures Winner(n, policy, r) < n
    ensures CreditOf(r.book.credits, Winner(n, policy, r)) >= CreditOf(r.book.credits, t)
  {
    hide KeyOf, Sorted, Keyed, Fits, Admit;
    RankingFacts(n, policy, r);
    FirstTakesTheSlot(n, policy, r);
    var ranking := RankingOf(policy, r);
    assert BidsIn(ranking)[0] in r.bids;
    var i := RankOf(n, policy, r, t);
    CreditInKey(ranking[0].bid, MarketOf(policy, r));
    CreditInKey(ranking[i].bid, MarketOf(policy, r));
    assert i > 0 ==> AtMost(ranking[0].key, ranking[i].key);
  }

  lemma OneBidPerTask(n: nat, policy: AuctionPolicy, r: Round, ids: set<BidId>, t: TaskId)
    requires Contested(n, policy, r) && t < n && ids <= set b | b in r.bids :: b.id
    ensures BidsOf(r.book.records, ids, t) == if r.bids[t].id in ids then {r.bids[t].id} else {}
  {
    forall id | id in BidsOf(r.book.records, ids, t) ensures id == r.bids[t].id {
      var b :| b in r.bids && b.id == id;
    }
  }

  lemma WonAndLost(ranking: seq<RankedBid>, verdicts: seq<Verdict>, i: nat)
    requires |verdicts| == |ranking| && i < |ranking| && DistinctIds(BidsIn(ranking))
    requires verdicts[0].Accept? && forall j | 1 <= j < |verdicts| :: verdicts[j].NoSlot?
    ensures ranking[i].bid.id in IdsWith(ranking, verdicts, true) <==> i == 0
    ensures ranking[i].bid.id in IdsWith(ranking, verdicts, false) <==> i != 0
  {
    var bids := BidsIn(ranking);
    assert forall j | 0 <= j < |ranking| :: bids[j].id == ranking[j].bid.id;
  }

  lemma IdsAreRanked(ranking: seq<RankedBid>, verdicts: seq<Verdict>)
    requires |verdicts| == |ranking|
    ensures forall id | id in IdsWith(ranking, verdicts, true) + IdsWith(ranking, verdicts, false) ::
              exists b | b in BidsIn(ranking) :: b.id == id
  {
    forall id | id in IdsWith(ranking, verdicts, true) + IdsWith(ranking, verdicts, false)
      ensures exists b | b in BidsIn(ranking) :: b.id == id
    {
      var j :| 0 <= j < |ranking| && ranking[j].bid.id == id;
      assert BidsIn(ranking)[j] in BidsIn(ranking);
    }
  }

  /** The winner starts again from nothing; everyone else gains one increment, up to the maximum. */
  lemma CreditsMove(n: nat, policy: AuctionPolicy, r: Round, t: TaskId)
    requires Contested(n, policy, r) && t < n
    ensures |VerdictsOf(policy, r)| == |RankingOf(policy, r)| == n
    ensures CreditOf(CreditsAfter(policy, r), t)
            == if t == Winner(n, policy, r) then 0.0
               else MinReal(policy.creditMax, CreditOf(r.book.credits, t) + policy.creditIncrement)
  {
    hide KeyOf, Sorted, Keyed, Fits, Admit, InOrder;
    RankingFacts(n, policy, r);
    FirstTakesTheSlot(n, policy, r);
    var ranking, verdicts := RankingOf(policy, r), VerdictsOf(policy, r);
    var won, lost := IdsWith(ranking, verdicts, true), IdsWith(ranking, verdicts, false);
    var i := RankOf(n, policy, r, t);
    assert forall j | 0 <= j < n :: BidsIn(ranking)[j] in r.bids;
    WonAndLost(ranking, verdicts, i);
    assert forall id | id in won + lost :: exists b | b in r.bids :: b.id == id by {
      IdsAreRanked(ranking, verdicts);
    }
    assert t == Winner(n, policy, r) <==> i == 0 by {
      assert BidsIn(ranking)[0] in r.bids;
    }
    OneBidPerTask(n, policy, r, won, t);
    OneBidPerTask(n, policy, r, lost, t);
    CreditValue(r.book, won, lost, policy, t);
  }

  /** A task's credit after at most one decision. */
  lemma CreditValue(k: Book, won: set<BidId>, lost: set<BidId>, policy: AuctionPolicy, t: TaskId)
    requires |BidsOf(k.records, won, t)| + |BidsOf(k.records, lost, t)| == 1
    ensures var k' := CreditedBook(k, won, lost, policy.creditIncrement, policy.creditMax, policy.acceptedDecay);
            CreditOf(k'.credits, t)
            == if |BidsOf(k.records, won, t)| == 1 then DecayOnce(CreditOf(k.credits, t), policy.acceptedDecay)
               else RaiseOnce(CreditOf(k.credits, t), policy.creditIncrement, policy.creditMax)
  {
    hide DecayOnce, RaiseOnce;
    OneMoreTask(k.records, won, 0);
    OneMoreTask(k.records, lost, 0);
    var credit, decay := CreditOf(k.credits, t), policy.acceptedDecay;
    var increment, maximum := policy.creditIncrement, policy.creditMax;
    assert Decayed(credit, decay, 1) == DecayOnce(Decayed(credit, decay, 0), decay);
    assert Raised(credit, increment, maximum, 1)
           == RaiseOnce(Raised(credit, increment, maximum, 0), increment, maximum);
    var between := DecayedCredits(k.records, k.credits, won, decay);
    assert t !in between ==> BidsOf(k.records, won, t) == {};
    assert CreditOf(between, t) == Decayed(credit, decay, |BidsOf(k.records, won, t)|);
    if BidsOf(k.records, lost, t) != {} {
      assert t in TasksOf(k.records, lost);
    }
  }

  // ---------- Many windows ----------

  /** Consecutive windows: each starts from the credits the one before left. */
  ghost predicate Consecutive(n: nat, policy: AuctionPolicy, rounds: seq<Round>) {
    && (forall w | 0 <= w < |rounds| :: Contested(n, policy, rounds[w]))
    && (forall w {:trigger Follows(policy, rounds, w)} | 0 <= w < |rounds| - 1 :: Follows(policy, rounds, w))
  }

  ghost predicate Follows(policy: AuctionPolicy, rounds: seq<Round>, w: nat)
    requires w < |rounds| - 1 && ValidMarket(MarketOf(policy, rounds[w]))
  {
    && |VerdictsOf(policy, rounds[w])| == |RankingOf(policy, rounds[w])|
    && rounds[w + 1].book.credits == CreditsAfter(policy, rounds[w])
  }

  ghost predicate CreditsInRange(n: nat, policy: AuctionPolicy, r: Round) {
    forall t: TaskId | t < n :: 0.0 <= CreditOf(r.book.credits, t) <= policy.creditMax
  }

  function Credit(rounds: seq<Round>, w: nat, t: TaskId): real
    requires w < |rounds|
  {
    CreditOf(rounds[w].book.credits, t)
  }

  lemma CreditStep(n: nat, policy: AuctionPolicy, rounds: seq<Round>, w: nat, t: TaskId)
    requires Consecutive(n, policy, rounds) && w + 1 < |rounds| && t < n
    ensures Credit(rounds, w + 1, t)
            == if Served(policy, rounds[w], t) then 0.0
               else MinReal(policy.creditMax, Credit(rounds, w, t) + policy.creditIncrement)
  {
    hide Contested, Served, VerdictsOf, RankingOf, CreditsAfter;
    MarketsValid(n, policy, rounds);
    assert Follows(policy, rounds, w);
    CreditsMove(n, policy, rounds[w], t);
    WinnerIsServed(n, policy, rounds[w], t);
  }

  lemma {:induction false} CreditsStayInRange(n: nat, policy: AuctionPolicy, rounds: seq<Round>, w: nat)
    requires Consecutive(n, policy, rounds) && w < |rounds| && CreditsInRange(n, policy, rounds[0])
    ensures CreditsInRange(n, policy, rounds[w])
    decreases w
  {
    hide Contested, Served, Follows;
    if w > 0 {
      CreditsStayInRange(n, policy, rounds, w - 1);
      assert Contested(n, policy, rounds[w]);
      PolicyFacts(n, policy, rounds[w]);
      forall t: TaskId | t < n ensures 0.0 <= CreditOf(rounds[w].book.credits, t) <= policy.creditMax {
        CreditStep(n, policy, rounds, w - 1, t);
      }
    }
  }

  lemma PolicyFacts(n: nat, policy: AuctionPolicy, r: Round)
    requires Contested(n, policy, r)
    ensures policy.creditIncrement > 0.0 && policy.creditMax > 0.0 && ValidMarket(MarketOf(policy, r))
  {
  }

  ghost predicate Waits(policy: AuctionPolicy, rounds: seq<Round>, from: nat, to: nat, t: TaskId)
    requires to <= |rounds| && forall w | 0 <= w < |rounds| :: ValidMarket(MarketOf(policy, rounds[w]))
  {
    forall w | from <= w < to :: !Served(policy, rounds[w], t)
  }

  lemma MarketsValid(n: nat, policy: AuctionPolicy, rounds: seq<Round>)
    requires Consecutive(n, policy, rounds)
    ensures forall w | 0 <= w < |rounds| :: ValidMarket(MarketOf(policy, rounds[w]))
  {
  }

  /** The credit of `k` lost windows. */
  function Increments(k: nat, policy: AuctionPolicy): real {
    k as real * policy.creditIncrement
  }

  lemma IncrementsGrow(j: nat, k: nat, policy: AuctionPolicy)
    requires policy.creditIncrement > 0.0
    ensures Increments(k, policy) >= 0.0 && Increments(k + 1, policy) == Increments(k, policy) + policy.creditIncrement
    ensures j < k ==> Increments(j, policy) < Increments(k, policy)
  {
    ProductNonNegative(k as real, policy.creditIncrement);
    if j < k {
      ScaledMonotone(j, k, policy.creditIncrement);
    }
  }

  /** A waiting task's credit grows by an increment a window until it is full. */
  lemma {:induction false} WaitingEarns(n: nat, policy: AuctionPolicy, rounds: seq<Round>, from: nat, w: nat, t: TaskId)
    requires Consecutive(n, policy, rounds) && from <= w < |rounds| && t < n
    requires forall x | 0 <= x < |rounds| :: ValidMarket(MarketOf(policy, rounds[x]))
    requires Credit(rounds, from, t) >= 0.0 && Waits(policy, rounds, from, w, t)
    ensures Credit(rounds, w, t) >= MinReal(policy.creditMax, Increments(w - from, policy))
    decreases w
  {
    hide Contested, Served, Follows;
    if w > from {
      WaitingEarns(n, policy, rounds, from, w - 1, t);
      CreditStep(n, policy, rounds, w - 1, t);
      PolicyFacts(n, policy, rounds[w]);
      IncrementsGrow(0, w - 1 - from, policy);
    } else {
      PolicyFacts(n, policy, rounds[w]);
    }
  }

  /** A task served in window `i` has earned at most one increment for each window since. */
  lemma {:induction false} ServedStartsAgain(n: nat, policy: AuctionPolicy, rounds: seq<Round>, i: nat, w: nat,
                                             u: TaskId)
    requires Consecutive(n, policy, rounds) && i < w < |rounds| && u < n
    requires ValidMarket(MarketOf(policy, rounds[i])) && Served(policy, rounds[i], u)
    ensures Credit(rounds, w, u) <= Increments(w - i - 1, policy)
    decreases w
  {
    hide Contested, Served, Follows;
    CreditStep(n, policy, rounds, w - 1, u);
    PolicyFacts(n, policy, rounds[w]);
    if w > i + 1 {
      ServedStartsAgain(n, policy, rounds, i, w - 1, u);
      IncrementsGrow(0, w - i - 2, policy);
    }
  }

  lemma ScaledMonotone(j: nat, k: nat, x: real)
    requires j < k && x > 0.0
    ensures j as real * x < k as real * x
  {
    assert k as real * x - j as real * x == (k - j) as real * x;
    assert (k - j) as real >= 1.0;
    assert (k - j) as real * x >= x by { ProductNonNegative((k - j - 1) as real, x); }
  }

  /** More windows than other tasks: somebody is served twice. */
  lemma {:induction false} Pigeonhole(s: seq<int>, values: set<int>) returns (i: nat, j: nat)
    requires |s| > |values| && forall k | 0 <= k < |s| :: s[k] in values
    ensures i < j < |s| && s[i] == s[j]
    decreases |s|
  {
    var last := |s| - 1;
    if k :| 0 <= k < last && s[k] == s[last] {
      i, j := k, last;
    } else {
      assert s[last] in values;
      assert forall k | 0 <= k < last :: s[..last][k] == s[k] && s[k] != s[last];
      i, j := Pigeonhole(s[..last], values - {s[last]});
    }
  }

  /** The credit a task can save up while all the others are served once. */
  function Threshold(n: nat, policy: AuctionPolicy): real {
    if n < 2 then 0.0 else Increments(n - 2, policy)
  }

  lemma Repeats(n: nat, policy: AuctionPolicy, rounds: seq<Round>, from: nat, t: TaskId)
    returns (i: nat, j: nat, u: TaskId)
    requires Consecutive(n, policy, rounds) && t < n && from + n <= |rounds|
    requires forall x | 0 <= x < |rounds| :: ValidMarket(MarketOf(policy, rounds[x]))
    requires Waits(policy, rounds, from, from + n, t)
    ensures from <= i < j < from + n && u < n && u != t
    ensures Served(policy, rounds[i], u) && Served(policy, rounds[j], u)
  {
    hide Contested, Served, Follows, RankingOf;
    forall w | 0 <= w < |rounds| ensures |RankingOf(policy, rounds[w])| == n {
      WinnerIsServed(n, policy, rounds[w], t);
    }
    var winners := seq(n, k requires 0 <= k < n => Winner(n, policy, rounds[from + k]));
    var others := Below(n) - {t};
    assert |others| == n - 1;
    forall k | 0 <= k < |winners| ensures winners[k] in others {
      WinnerIsServed(n, policy, rounds[from + k], t);
    }
    i, j := Pigeonhole(winners, others);
    assert winners[i] in others;
    u := winners[i];
    WinnerIsServed(n, policy, rounds[from + i], u);
    WinnerIsServed(n, policy, rounds[from + j], u);
    i, j := from + i, from + j;
  }

  ghost function Below(n: nat): (s: set<int>)
    ensures |s| == n && forall x :: x in s <==> 0 <= x < n
  {
    if n == 0 then {} else Below(n - 1) + {n - 1}
  }

  /**
   With `credit_max` above `n - 2` increments, every task is served within any `n` consecutive windows,
   whatever scores and arrival times the bids have and whatever credits the tasks start with.
   */
  lemma BoundedWaiting(n: nat, policy: AuctionPolicy, rounds: seq<Round>, from: nat, t: TaskId)
    requires Consecutive(n, policy, rounds) && t < n && from + n <= |rounds|
    requires CreditsInRange(n, policy, rounds[0]) && policy.creditMax > Threshold(n, policy)
    ensures exists w :: from <= w < from + n && Contested(n, policy, rounds[w]) && Served(policy, rounds[w], t)
  {
    hide Contested, Served, Follows;
    MarketsValid(n, policy, rounds);
    if Waits(policy, rounds, from, from + n, t) {
      CreditsStayInRange(n, policy, rounds, from);
      var i, j, u := Repeats(n, policy, rounds, from, t);
      WaitingEarns(n, policy, rounds, from, j, t);
      ServedStartsAgain(n, policy, rounds, i, j, u);
      RichestIsServed(n, policy, rounds[j], u, t);
      PolicyFacts(n, policy, rounds[j]);
      IncrementsGrow(j - i - 1, j - from, policy);
      IncrementsGrow(j - i - 1, n - 2, policy);
      assert false;
    }
  }

  lemma RichestIsServed(n: nat, policy: AuctionPolicy, r: Round, u: TaskId, t: TaskId)
    requires Contested(n, policy, r) && u < n && t < n && Served(policy, r, u)
    ensures CreditOf(r.book.credits, u) >= CreditOf(r.book.credits, t)
  {
    hide Served, RankingOf;
    WinnerIsServed(n, policy, r, u);
    WinnerIsServed(n, policy, r, t);
  }
}
