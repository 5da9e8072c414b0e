/** Ordering the bids of an auction window (magellan/bidding/ranking.py). */
module Ranking {
  import opened Common
  import opened Resources
  import opened BidBook
  import Sorting

  datatype Strategy =
    | LowestScore | ShortestRemaining | LongestRemaining | CreditFair | HighestRegret | PriorityDeadline
    | ResourceEfficiency

  datatype AuctionPolicy = AuctionPolicy(
    strategy: Strategy,
    creditIncrement: real,
    creditMax: real,
    acceptedDecay: real,
    urgencyWindow: real,
    efficiencyFloor: real)

  /** Everything a bid's key depends on besides the bid. */
  datatype Market = Market(policy: AuctionPolicy, credits: map<TaskId, real>, capacity: Capacity, now: real)

  datatype Extended = Finite(value: real) | Infinite

  /** The sort key, compared lexicographically. */
  datatype Key = Key(primary: Extended, score: real, received: real, id: BidId)

  datatype RankedBid = RankedBid(bid: Bid, key: Key)

  predicate ValidPolicy(p: AuctionPolicy) {
    && p.creditIncrement > 0.0 && p.creditMax > 0.0 && 0.0 <= p.acceptedDecay <= 1.0
    && p.urgencyWindow > 0.0 && p.efficiencyFloor > 0.0
  }

  predicate ValidMarket(m: Market) {
    ValidPolicy(m.policy) && ValidCapacity(m.capacity)
  }

  // ---------- Keys ----------

  /** The requested fractions of the configured limits. */
  function Shares(r: Request, c: Capacity): seq<real>
    requires ValidCapacity(c) && !(c.gpu.Limited? && r.gpu > 0 && c.gpu.amount == 0.0)
  {
    (if c.cpu.Limited? then [r.cpu / c.cpu.amount] else [])
    + (if c.memory.Limited? && r.memory > 0 then [r.memory as real / c.memory.amount] else [])
    + (if c.gpu.Limited? && r.gpu > 0 then [r.gpu as real / c.gpu.amount] else [])
  }

  function DominantShare(r: Request, c: Capacity): Extended
    requires ValidCapacity(c)
  {
    if c.gpu.Limited? && r.gpu > 0 && c.gpu.amount == 0.0 then Infinite
    else
      var shares := Shares(r, c);
      Finite(if shares == [] then MaxReal(r.cpu, 1.0) else Greatest(shares))
  }

  function Urgency(context: Option<TaskContext>, now: real, window: real): real
    requires window > 0.0
  {
    if context.None? || context.value.deadline.None? then 0.0
    else
      var remaining := if context.value.remaining.Some? then context.value.remaining.value else 0.0;
      var slack := context.value.deadline.value - now - remaining;
      Clamp(1.0 - slack / window, 0.0, 2.0)
  }

  function OpportunityLoss(b: Bid): real {
    if b.terms.context.Some? then b.terms.context.value.opportunityLoss else 0.0
  }

  function Priority(b: Bid): nat {
    if b.terms.context.Some? then b.terms.context.value.priority else 0
  }

  function RemainingTime(b: Bid): Option<real> {
    if b.terms.context.Some? then b.terms.context.value.remaining else None
  }

  function Efficiency(b: Bid, m: Market): real
    requires ValidMarket(m)
  {
    var share :=
      if b.terms.context.Some? then DominantShare(b.terms.context.value.request, m.capacity) else Finite(1.0);
    var value := MaxReal(OpportunityLoss(b), MaxReal(0.0, 1.0 - b.terms.score));
    match share
    case Infinite => 0.0
    case Finite(s) => value / MaxReal(s, m.policy.efficiencyFloor)
  }

  function Primary(b: Bid, m: Market): Extended
    requires ValidMarket(m)
  {
    match m.policy.strategy
    case LowestScore => Finite(b.terms.score)
    case ShortestRemaining => if RemainingTime(b).Some? then Finite(RemainingTime(b).value) else Infinite
    case LongestRemaining => Finite(if RemainingTime(b).Some? then -RemainingTime(b).value else 1.0)
    case CreditFair => Finite(-CreditOf(m.credits, b.terms.task))
    case HighestRegret => Finite(-OpportunityLoss(b))
    case PriorityDeadline =>
      Finite(-(Urgency(b.terms.context, m.now, m.policy.urgencyWindow) + Priority(b) as real / 100.0))
    case ResourceEfficiency => Finite(-Efficiency(b, m))
  }

  function KeyOf(b: Bid, m: Market): Key
    requires ValidMarket(m)
  {
    Key(Primary(b, m), b.terms.score, b.received, b.id)
  }

  predicate PrimaryLess(a: Extended, b: Extended) {
    a.Finite? && (b.Infinite? || a.value < b.value)
  }

  predicate AtMost(a: Key, b: Key) {
    || PrimaryLess(a.primary, b.primary)
    || (a.primary == b.primary
        && (a.score < b.score
            || (a.score == b.score && (a.received < b.received || (a.received == b.received && a.id <= b.id)))))
  }

  /** The key order is total, and only bids with one id tie. */
  lemma AtMostIsTotalOrder(a: Key, b: Key, c: Key)
    ensures AtMost(a, b) || AtMost(b, a)
    ensures AtMost(a, b) && AtMost(b, c) ==> AtMost(a, c)
    ensures AtMost(a, b) && AtMost(b, a) ==> a == b
  {
  }

  // ---------- Sorting ----------

  predicate NoLater(x: RankedBid, y: RankedBid) {
    AtMost(x.key, y.key)
  }

  function Sorted(s: seq<RankedBid>): seq<RankedBid> {
    Sorting.Sorted(s, NoLater)
  }

  predicate InOrder(s: seq<RankedBid>) {
    forall i, j | 0 <= i < j < |s| :: NoLater(s[i], s[j])
  }

  predicate DistinctKeys(s: seq<RankedBid>) {
    forall i, j | 0 <= i < j < |s| :: s[i].key != s[j].key
  }

  lemma NoLaterIsOrder()
    ensures Sorting.IsOrder(NoLater)
  {
    hide AtMost;
    forall x: RankedBid, y: RankedBid ensures NoLater(x, y) || NoLater(y, x) {
      AtMostIsTotalOrder(x.key, y.key, x.key);
    }
    forall x: RankedBid, y: RankedBid, z: RankedBid | NoLater(x, y) && NoLater(y, z) ensures NoLater(x, z) {
      AtMostIsTotalOrder(x.key, y.key, z.key);
    }
  }

  lemma DistinctKeysDoNotTie(s: seq<RankedBid>)
    requires DistinctKeys(s)
    ensures Sorting.TiesAreEqual(s, NoLater)
  {
    hide AtMost;
    forall i, j | 0 <= i < |s| && 0 <= j < |s| && NoLater(s[i], s[j]) && NoLater(s[j], s[i]) ensures s[i] == s[j] {
      AtMostIsTotalOrder(s[i].key, s[j].key, s[i].key);
    }
  }

  lemma SortedIsOrdered(s: seq<RankedBid>)
    ensures InOrder(Sorted(s)) && multiset(Sorted(s)) == multiset(s)
  {
    hide AtMost;
    NoLaterIsOrder();
    Sorting.SortedIsOrdered(s, NoLater);
  }

  /** There is only one way to put bids with distinct keys in order. */
  lemma OrderIsUnique(s: seq<RankedBid>, t: seq<RankedBid>)
    requires InOrder(s) && InOrder(t) && multiset(s) == multiset(t) && DistinctKeys(s)
    ensures s == t
  {
    hide AtMost;
    NoLaterIsOrder();
    DistinctKeysDoNotTie(s);
    Sorting.OrderIsUnique(s, t, NoLater);
  }

  // ---------- Ranking ----------

  function Keyed(bids: seq<Bid>, m: Market): seq<RankedBid>
    requires ValidMarket(m)
  {
    if bids == [] then [] else Keyed(bids[..|bids| - 1], m) + [RankedBid(bids[|bids| - 1], KeyOf(bids[|bids| - 1], m))]
  }

  method RankBids(bids: seq<Bid>, m: Market) returns (ranked: seq<RankedBid>)
    requires ValidMarket(m)
    ensures ranked == Sorted(Keyed(bids, m))
  {
    ranked := [];
    for i := 0 to |bids|
      invariant ranked == Keyed(bids[..i], m)
    {
      ranked := ranked + [RankedBid(bids[i], KeyOf(bids[i], m))];
      assert bids[..i + 1][..i] == bids[..i];
    }
    assert bids[..|bids|] == bids;
    ranked := Sorted(ranked);
  }

  predicate DistinctIds(bids: seq<Bid>) {
    forall i, j | 0 <= i < j < |bids| :: bids[i].id != bids[j].id
  }

  lemma {:induction false} KeyedPointwise(bids: seq<Bid>, m: Market)
    requires ValidMarket(m)
    ensures |Keyed(bids, m)| == |bids|
    ensures forall i | 0 <= i < |bids| :: Keyed(bids, m)[i] == RankedBid(bids[i], KeyOf(bids[i], m))
  {
    hide KeyOf;
    if bids != [] {
      KeyedPointwise(bids[..|bids| - 1], m);
    }
  }

  lemma {:induction false} KeyedCounts(bids: seq<Bid>, m: Market, x: RankedBid)
    requires ValidMarket(m)
    ensures multiset(Keyed(bids, m))[x] == if x.key == KeyOf(x.bid, m) then multiset(bids)[x.bid] else 0
  {
    hide KeyOf;
    if bids != [] {
      var last := |bids| - 1;
      KeyedCounts(bids[..last], m, x);
      assert bids == bids[..last] + [bids[last]];
    }
  }

  /**
   Every strategy gives one order: listing the same bids differently changes nothing, and the result lists
   exactly those bids, each no later than its key allows.
   */
  lemma ListingOrderIsIrrelevant(bids: seq<Bid>, others: seq<Bid>, m: Market)
    requires ValidMarket(m) && DistinctIds(bids) && multiset(bids) == multiset(others)
    ensures Sorted(Keyed(bids, m)) == Sorted(Keyed(others, m))
  {
    hide KeyOf;
    forall x ensures multiset(Keyed(bids, m))[x] == multiset(Keyed(others, m))[x] {
      KeyedCounts(bids, m, x);
      KeyedCounts(others, m, x);
    }
    SortedIsOrdered(Keyed(bids, m));
    SortedIsOrdered(Keyed(others, m));
    assert multiset(Sorted(Keyed(bids, m))) == multiset(Sorted(Keyed(others, m)));
    RankedKeysDistinct(bids, m);
    OrderIsUnique(Sorted(Keyed(bids, m)), Sorted(Keyed(others, m)));
  }

  lemma IdInKey(b: Bid, m: Market)
    requires ValidMarket(m)
    ensures KeyOf(b, m).id == b.id
  {
  }

  lemma RankedKeysDistinct(bids: seq<Bid>, m: Market)
    requires ValidMarket(m) && DistinctIds(bids)
    ensures DistinctKeys(Sorted(Keyed(bids, m)))
  {
    hide KeyOf;
    KeyedPointwise(bids, m);
    SortedIsOrdered(Keyed(bids, m));
    var keyed, ranked := Keyed(bids, m), Sorted(Keyed(bids, m));
    forall i, j | 0 <= i < |keyed| && 0 <= j < |keyed| && i != j ensures keyed[i].key != keyed[j].key {
      IdInKey(bids[i], m);
      IdInKey(bids[j], m);
    }
    SameKeysDistinct(keyed, ranked);
  }

  lemma SameKeysDistinct(s: seq<RankedBid>, t: seq<RankedBid>)
    requires DistinctKeys(s) && multiset(s) == multiset(t)
    ensures DistinctKeys(t)
  {
    Sorting.NoRepeats(s, t);
    forall i, j | 0 <= i < j < |t| ensures t[i].key != t[j].key {
      assert t[i] in multiset(s) && t[j] in multiset(s);
      var a :| 0 <= a < |s| && s[a] == t[i];
      var b :| 0 <= b < |s| && s[b] == t[j];
    }
  }

  /** What each strategy is for: the first bid matters more than the second. */
  predicate Prefers(m: Market, a: Bid, b: Bid)
    requires ValidMarket(m)
  {
    match m.policy.strategy
    case LowestScore => a.terms.score < b.terms.score
    case ShortestRemaining =>
      RemainingTime(a).Some? && (RemainingTime(b).None? || RemainingTime(a).value < RemainingTime(b).value)
    case LongestRemaining =>
      RemainingTime(a).Some? && (RemainingTime(b).None? || RemainingTime(a).value > RemainingTime(b).value)
    case CreditFair => CreditOf(m.credits, a.terms.task) > CreditOf(m.credits, b.terms.task)
    case HighestRegret => OpportunityLoss(a) > OpportunityLoss(b)
    case PriorityDeadline => Pressure(a, m) > Pressure(b, m)
    case ResourceEfficiency => Efficiency(a, m) > Efficiency(b, m)
  }

  function Pressure(b: Bid, m: Market): real
    requires ValidMarket(m)
  {
    Urgency(b.terms.context, m.now, m.policy.urgencyWindow) + Priority(b) as real / 100.0
  }

  /** Remaining time is never negative. */
  predicate ValidRemaining(b: Bid) {
    RemainingTime(b).Some? ==> RemainingTime(b).value >= 0.0
  }

  lemma PreferredKey(m: Market, a: Bid, b: Bid)
    requires ValidMarket(m) && ValidRemaining(a) && ValidRemaining(b)
    ensures Prefers(m, a, b) ==> PrimaryLess(KeyOf(a, m).primary, KeyOf(b, m).primary)
    ensures !Prefers(m, a, b) && !Prefers(m, b, a) ==> KeyOf(a, m).primary == KeyOf(b, m).primary
  {
    hide DominantShare, Urgency;
  }

  /** The preferred bid is ranked earlier; otherwise the lower score is, then the earlier arrival, then the lower id. */
  lemma PreferredRanksEarlier(bids: seq<Bid>, m: Market, i: nat, j: nat)
    requires ValidMarket(m) && i < |bids| && j < |bids| && |Sorted(Keyed(bids, m))| == |bids|
    requires forall b | b in bids :: ValidRemaining(b)
    ensures var a, b := Sorted(Keyed(bids, m))[i].bid, Sorted(Keyed(bids, m))[j].bid;
            && (Prefers(m, a, b) ==> i < j)
            && (!Prefers(m, b, a) && a.terms.score < b.terms.score ==> i < j)
  {
    hide KeyOf, Sorted, Keyed, Prefers;
    SortedIsOrdered(Keyed(bids, m));
    RankedKeysAreBids(bids, m, i);
    RankedKeysAreBids(bids, m, j);
    var ranked := Sorted(Keyed(bids, m));
    var a, b := ranked[i].bid, ranked[j].bid;
    PreferredKey(m, a, b);
    PreferredKey(m, b, a);
    ScoreInKey(a, m);
    ScoreInKey(b, m);
    assert j < i ==> NoLater(ranked[j], ranked[i]);
    NotPreferredToItself(m, a);
  }

  /** What the strategies read off a bid that says nothing about its task. */
  lemma SilentBid(b: Bid, m: Market)
    requires ValidMarket(m) && b.terms.context.None?
    ensures OpportunityLoss(b) == 0.0 && Priority(b) == 0 && RemainingTime(b).None? && Pressure(b, m) == 0.0
    ensures Efficiency(b, m) * MaxReal(1.0, m.policy.efficiencyFloor) == MaxReal(0.0, 1.0 - b.terms.score)
  {
    ShareTimes(MaxReal(0.0, 1.0 - b.terms.score), MaxReal(1.0, m.policy.efficiencyFloor));
  }

  /**
   ... and off one that does: a point of urgency outweighs 100 of priority, and efficiency is the larger of the loss at
   stake and the gain of the score, for each unit of the dominant share, which counts for no less than the floor.
   */
  lemma SpokenBid(b: Bid, m: Market)
    requires ValidMarket(m) && b.terms.context.Some?
    ensures var c := b.terms.context.value;
            && OpportunityLoss(b) == c.opportunityLoss && Priority(b) == c.priority && RemainingTime(b) == c.remaining
            && Pressure(b, m) == Urgency(Some(c), m.now, m.policy.urgencyWindow) + c.priority as real / 100.0
            && match DominantShare(c.request, m.capacity)
               case Infinite => Efficiency(b, m) == 0.0
               case Finite(share) =>
                 Efficiency(b, m) * MaxReal(share, m.policy.efficiencyFloor)
                 == MaxReal(MaxReal(c.opportunityLoss, 0.0), 1.0 - b.terms.score)
  {
    hide DominantShare, Urgency;
    var c := b.terms.context.value;
    match DominantShare(c.request, m.capacity)
    case Infinite =>
    case Finite(share) =>
      ShareTimes(MaxReal(c.opportunityLoss, MaxReal(0.0, 1.0 - b.terms.score)),
                 MaxReal(share, m.policy.efficiencyFloor));
  }

  lemma ShareTimes(x: real, y: real)
    requires y > 0.0
    ensures x / y * y == x
  {
  }

  lemma NotPreferredToItself(m: Market, a: Bid)
    requires ValidMarket(m)
    ensures !Prefers(m, a, a)
  {
  }

  lemma ScoreInKey(b: Bid, m: Market)
    requires ValidMarket(m)
    ensures KeyOf(b, m).score == b.terms.score
  {
  }

  /** The dominant share is the largest fraction of a configured limit that the request asks for. */
  lemma DominantShareIsLargest(r: Request, c: Capacity)
    requires ValidCapacity(c)
    ensures DominantShare(r, c).Infinite? <==> c.gpu.Limited? && c.gpu.amount == 0.0 && r.gpu > 0
    ensures DominantShare(r, c).Finite? ==>
              var s := DominantShare(r, c).value;
              && (c.cpu.Limited? ==> r.cpu / c.cpu.amount <= s)
              && (c.memory.Limited? && r.memory > 0 ==> r.memory as real / c.memory.amount <= s)
              && (c.gpu.Limited? && r.gpu > 0 ==> r.gpu as real / c.gpu.amount <= s)
              && (|| (c.cpu.Limited? && s == r.cpu / c.cpu.amount)
                  || (c.memory.Limited? && r.memory > 0 && s == r.memory as real / c.memory.amount)
                  || (c.gpu.Limited? && r.gpu > 0 && s == r.gpu as real / c.gpu.amount)
                  || (c.cpu.Unlimited? && s == MaxReal(r.cpu, 1.0)))
  {
    if DominantShare(r, c).Finite? {
      var shares := Shares(r, c);
      assert forall x | x in shares :: exists i :: 0 <= i < |shares| && shares[i] == x;
      assert c.cpu.Limited? ==> r.cpu / c.cpu.amount in shares;
      assert c.memory.Limited? && r.memory > 0 ==> r.memory as real / c.memory.amount in shares;
      assert c.gpu.Limited? && r.gpu > 0 ==> r.gpu as real / c.gpu.amount in shares;
    }
  }

  /** A closer deadline never lowers the urgency, which lies between 0 and 2. */
  lemma UrgencyGrows(c: TaskContext, earlier: real, now: real, window: real)
    requires window > 0.0 && c.deadline.Some? && earlier <= c.deadline.value
    ensures 0.0 <= Urgency(Some(c), now, window) <= Urgency(Some(c.(deadline := Some(earlier))), now, window) <= 2.0
  {
    var remaining := if c.remaining.Some? then c.remaining.value else 0.0;
    var x, y := earlier - now - remaining, c.deadline.value - now - remaining;
    QuotientNonNegative(y - x, window);
    assert (y - x) / window == y / window - x / window;
  }

  /** Urgency measures the slack before the deadline in windows: 1 with none left, 0 with a window, 2 at most. */
  lemma UrgencyMeasuresSlack(c: TaskContext, now: real, window: real)
    requires window > 0.0 && c.deadline.Some?
    ensures var slack := c.deadline.value - now - (if c.remaining.Some? then c.remaining.value else 0.0);
            var urgency := Urgency(Some(c), now, window);
            if slack >= window then urgency == 0.0 else if slack <= -window then urgency == 2.0
            else (1.0 - urgency) * window == slack
  {
    var slack := c.deadline.value - now - (if c.remaining.Some? then c.remaining.value else 0.0);
    var ratio := slack / window;
    assert ratio * window == slack;
    if slack >= window {
      ProductNonNegative(slack - window, window);
      assert ratio >= 1.0;
    } else if slack <= -window {
      assert ratio <= -1.0;
    } else {
      assert -1.0 < ratio < 1.0;
    }
  }

  lemma CreditInKey(b: Bid, m: Market)
    requires ValidMarket(m) && m.policy.strategy.CreditFair?
    ensures KeyOf(b, m).primary == Finite(-CreditOf(m.credits, b.terms.task))
  {
  }

  lemma RankedKeysAreBids(bids: seq<Bid>, m: Market, i: nat)
    requires ValidMarket(m) && i < |Sorted(Keyed(bids, m))|
    ensures |Sorted(Keyed(bids, m))| == |bids|
    ensures Sorted(Keyed(bids, m))[i].bid in bids
    ensures Sorted(Keyed(bids, m))[i].key == KeyOf(Sorted(Keyed(bids, m))[i].bid, m)
  {
    hide KeyOf;
    KeyedPointwise(bids, m);
    SortedIsOrdered(Keyed(bids, m));
    var keyed, ranked := Keyed(bids, m), Sorted(Keyed(bids, m));
    assert |ranked| == |multiset(ranked)| == |keyed|;
    assert ranked[i] in multiset(keyed);
  }
}
