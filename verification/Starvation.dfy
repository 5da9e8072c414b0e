/** Below the threshold of `BoundedWaiting` a task can wait for ever: the others take turns. */
module Starvation {
  import opened Common
  import opened Resources
  import opened BidBook
  import opened Ranking
  import opened Admission
  import opened Arbiter
  import opened Fairness

  const NO_LIMITS := Capacity(Unlimited, Unlimited, Unlimited, {})

  /** Task `t`'s bid in a window in which `favourite` has the better score. */
  function BidIn(t: TaskId, favourite: TaskId): Bid {
    Bid(t, BidRequest(t, 1, 0, if t == favourite then 0.0 else 1.0, None), 0.0, Pending, None, None, 0.0)
  }

  function RoundFor(n: nat, favourite: TaskId, credits: map<TaskId, real>): Round {
    var bids := seq(n, t requires 0 <= t < n => BidIn(t, favourite));
    Round(Book(map t: TaskId | 0 <= t < n :: BidIn(t, favourite), credits), bids,
          Node(Some(1), NO_LIMITS, _ => true), Room(Some(1), NO_LIMITS), 0.0)
  }

  predicate Starvable(n: nat, policy: AuctionPolicy) {
    && n >= 2 && ValidPolicy(policy) && policy.strategy.CreditFair? && policy.acceptedDecay == 0.0
    && policy.creditMax <= Threshold(n, policy)
  }

  /** How many windows until task `t` is the favourite, when it is task `turn + 1`'s turn now. */
  function Wait(n: nat, turn: nat, t: TaskId): int {
    if t - 1 >= turn then t - 1 - turn else t - 1 - turn + n - 1
  }

  ghost predicate Phase(n: nat, policy: AuctionPolicy, turn: nat, credits: map<TaskId, real>)
    requires n >= 2
  {
    && turn < n - 1
    && CreditOf(credits, 0) == policy.creditMax
    && forall t: TaskId | 1 <= t < n :: Filled(n, policy, turn, credits, t)
  }

  predicate Filled(n: nat, policy: AuctionPolicy, turn: nat, credits: map<TaskId, real>, t: TaskId)
    requires turn < n - 1 && 1 <= t < n
  {
    MinReal(policy.creditMax, Increments(n - 2 - Wait(n, turn, t), policy)) <= CreditOf(credits, t) <= policy.creditMax
  }

  lemma RoundIsContested(n: nat, policy: AuctionPolicy, favourite: TaskId, credits: map<TaskId, real>)
    requires Starvable(n, policy)
    ensures Contested(n, policy, RoundFor(n, favourite, credits))
  {
    hide Threshold;
  }

  lemma FavouriteWins(n: nat, policy: AuctionPolicy, turn: nat, credits: map<TaskId, real>)
    requires Starvable(n, policy) && Phase(n, policy, turn, credits)
    ensures var r := RoundFor(n, turn + 1, credits);
            Contested(n, policy, r) && |RankingOf(policy, r)| == n && Winner(n, policy, r) == turn + 1
  {
    hide Sorted, Keyed, Admit, Increments;
    var r := RoundFor(n, turn + 1, credits);
    var m := MarketOf(policy, r);
    RoundIsContested(n, policy, turn + 1, credits);
    RankingFacts(n, policy, r);
    var u := Winner(n, policy, r);
    WinnerIsServed(n, policy, r, turn + 1);
    assert Filled(n, policy, turn, credits, turn + 1);
    assert u != 0 ==> Filled(n, policy, turn, credits, u);
    var i := RankOf(n, policy, r, turn + 1);
    var first := RankingOf(policy, r)[0].bid;
    assert BidsIn(RankingOf(policy, r))[0] in r.bids && first == r.bids[u];
    CreditInKey(first, m);
    CreditInKey(r.bids[turn + 1], m);
    assert i > 0 ==> AtMost(RankingOf(policy, r)[0].key, RankingOf(policy, r)[i].key);
    assert KeyOf(first, m).score == first.terms.score;
  }

  function NextTurn(n: nat, turn: nat): nat
    requires n >= 2
  {
    if turn + 1 == n - 1 then 0 else turn + 1
  }

  lemma PhaseMovesOn(n: nat, policy: AuctionPolicy, turn: nat, credits: map<TaskId, real>)
    requires Starvable(n, policy) && Phase(n, policy, turn, credits)
    ensures var r := RoundFor(n, turn + 1, credits);
            && Contested(n, policy, r) && |VerdictsOf(policy, r)| == |RankingOf(policy, r)| == n
            && !Served(policy, r, 0) && Phase(n, policy, NextTurn(n, turn), CreditsAfter(policy, r))
  {
    hide Contested, CreditsAfter, Served, VerdictsOf, RankingOf, Increments;
    var r := RoundFor(n, turn + 1, credits);
    FavouriteWins(n, policy, turn, credits);
    PolicyFacts(n, policy, r);
    var next := CreditsAfter(policy, r) by { CreditsMove(n, policy, r, 0); }
    CreditsMove(n, policy, r, 0);
    WinnerIsServed(n, policy, r, 0);
    forall t: TaskId | 1 <= t < n ensures Filled(n, policy, NextTurn(n, turn), next, t) {
      CreditsMove(n, policy, r, t);
      assert Filled(n, policy, turn, credits, t);
      if t == turn + 1 {
        assert Wait(n, NextTurn(n, turn), t) == n - 2;
        NoIncrements(policy);
      } else {
        assert Wait(n, NextTurn(n, turn), t) == Wait(n, turn, t) - 1;
        IncrementsGrow(0, n - 2 - Wait(n, turn, t), policy);
      }
    }
  }

  lemma NoIncrements(policy: AuctionPolicy)
    ensures Increments(0, policy) == 0.0
  {
  }

  function FullCredits(n: nat, policy: AuctionPolicy): (credits: map<TaskId, real>)
    ensures forall t: TaskId | t < n :: t in credits && credits[t] == policy.creditMax
  {
    if n == 0 then map[] else FullCredits(n - 1, policy)[n - 1 := policy.creditMax]
  }

  /** Windows without end in which task 0 has the most credit there is and is never served. */
  lemma {:induction false} StarvesFor(n: nat, policy: AuctionPolicy, length: nat)
    returns (rounds: seq<Round>, turn: nat, credits: map<TaskId, real>)
    requires Starvable(n, policy)
    ensures |rounds| == length && Consecutive(n, policy, rounds) && Phase(n, policy, turn, credits)
    ensures length > 0 ==> rounds[0].book.credits == FullCredits(n, policy)
    ensures length == 0 ==> credits == FullCredits(n, policy)
    ensures length > 0 ==> var r := rounds[length - 1];
                           && ValidMarket(MarketOf(policy, r)) && |VerdictsOf(policy, r)| == |RankingOf(policy, r)|
                           && credits == CreditsAfter(policy, r)
    ensures forall w | 0 <= w < length :: Contested(n, policy, rounds[w]) && !Served(policy, rounds[w], 0)
  {
    hide Contested, Served, VerdictsOf, RankingOf, CreditsAfter, RoundFor, Phase;
    if length == 0 {
      rounds, turn, credits := [], 0, FullCredits(n, policy);
      assert Phase(n, policy, 0, FullCredits(n, policy)) by { StartPhase(n, policy); }
    } else {
      var before;
      before, turn, credits := StarvesFor(n, policy, length - 1);
      var r := RoundFor(n, turn + 1, credits);
      PhaseMovesOn(n, policy, turn, credits);
      PolicyFacts(n, policy, r);
      assert r.book.credits == credits by { RoundCredits(n, turn + 1, credits); }
      rounds := before + [r];
      ConsecutiveAppend(n, policy, before, r);
      turn, credits := NextTurn(n, turn), CreditsAfter(policy, r);
    }
  }

  lemma RoundCredits(n: nat, favourite: TaskId, credits: map<TaskId, real>)
    ensures RoundFor(n, favourite, credits).book.credits == credits
  {
  }

  lemma StartPhase(n: nat, policy: AuctionPolicy)
    requires Starvable(n, policy)
    ensures Phase(n, policy, 0, FullCredits(n, policy))
  {
    hide Increments;
  }

  lemma ConsecutiveAppend(n: nat, policy: AuctionPolicy, rounds: seq<Round>, r: Round)
    requires Consecutive(n, policy, rounds) && Contested(n, policy, r)
    requires rounds != [] ==>
               var last := rounds[|rounds| - 1];
               && ValidMarket(MarketOf(policy, last)) && |VerdictsOf(policy, last)| == |RankingOf(policy, last)|
               && r.book.credits == CreditsAfter(policy, last)
    ensures Consecutive(n, policy, rounds + [r])
  {
    hide Contested, VerdictsOf, RankingOf, CreditsAfter;
    var all := rounds + [r];
    assert forall w | 0 <= w < |all| :: Contested(n, policy, all[w]);
    MarketsValid(n, policy, rounds);
    PolicyFacts(n, policy, r);
    forall w | 0 <= w < |all| - 1 ensures Follows(policy, all, w) {
      if w < |rounds| - 1 {
        assert Follows(policy, rounds, w);
      }
    }
  }

  ghost predicate ServedAmong(n: nat, policy: AuctionPolicy, rounds: seq<Round>, t: TaskId) {
    exists w :: 0 <= w < |rounds| && Contested(n, policy, rounds[w]) && Served(policy, rounds[w], t)
  }

  /** Every task is served within any `n` windows in a row, from any credits in range. */
  ghost predicate AlwaysServed(n: nat, policy: AuctionPolicy)
    requires n > 0
  {
    forall rounds, t: TaskId {:trigger ServedAmong(n, policy, rounds, t)} |
      |rounds| == n && Consecutive(n, policy, rounds) && CreditsInRange(n, policy, rounds[0]) && t < n ::
      ServedAmong(n, policy, rounds, t)
  }

  /** Waiting is bounded by the number of tasks exactly when `credit_max` exceeds `n - 2` increments. */
  lemma WaitingBoundIsExact(n: nat, policy: AuctionPolicy)
    requires n >= 2 && ValidPolicy(policy) && policy.strategy.CreditFair? && policy.acceptedDecay == 0.0
    ensures AlwaysServed(n, policy) <==> policy.creditMax > Threshold(n, policy)
  {
    hide Consecutive, Threshold, Contested, Served;
    if policy.creditMax > Threshold(n, policy) {
      forall rounds, t: TaskId {:trigger ServedAmong(n, policy, rounds, t)}
        | |rounds| == n && Consecutive(n, policy, rounds) && CreditsInRange(n, policy, rounds[0]) && t < n
        ensures ServedAmong(n, policy, rounds, t)
      {
        BoundedWaiting(n, policy, rounds, 0, t);
      }
    } else {
      assert Starvable(n, policy);
      var rounds, turn, credits := StarvesFor(n, policy, n);
      assert CreditsInRange(n, policy, rounds[0]);
      assert !ServedAmong(n, policy, rounds, 0);
    }
  }
}
