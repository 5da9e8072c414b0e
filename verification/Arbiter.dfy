/** One auction round at a destination (magellan/bidding/arbiter.py). */
module Arbiter {
  import opened Common
  import opened Resources
  import opened BidBook
  import opened BidLifecycle
  import opened Ranking
  import opened Admission
  import opened AuctionCredits
  import Sorting

  // ---------- What the round looks at ----------

  predicate IsPending(k: Book, id: BidId) {
    id in k.records && k.records[id].status.Pending?
  }

  function Reserved(k: Book): set<BidId> {
    set id | id in k.records && Active(k.records[id])
  }

  /** `bids` lists the records filed under `ids`, each once. */
  ghost predicate Lists(k: Book, bids: seq<Bid>, ids: set<BidId>) {
    && (forall i | 0 <= i < |bids| :: bids[i].id in ids && bids[i].id in k.records && bids[i] == k.records[bids[i].id])
    && (forall id | id in ids :: exists i :: 0 <= i < |bids| && bids[i].id == id)
    && DistinctIds(bids)
  }

  predicate ByArrival(bids: seq<Bid>) {
    forall i, j | 0 <= i < j < |bids| :: bids[i].received <= bids[j].received
  }

  predicate NotAfter(a: Bid, b: Bid) {
    a.received <= b.received
  }

  /** `sorted` by time of arrival. */
  function ArrivalSorted(s: seq<Bid>): seq<Bid> {
    Sorting.Sorted(s, NotAfter)
  }

  lemma ArrivalSortedKeeps(s: seq<Bid>)
    requires DistinctIds(s)
    ensures ByArrival(ArrivalSorted(s)) && DistinctIds(ArrivalSorted(s))
    ensures forall x :: x in ArrivalSorted(s) <==> x in s
  {
    assert Sorting.IsOrder(NotAfter);
    Sorting.SortedIsOrdered(s, NotAfter);
    var t := ArrivalSorted(s);
    forall i, j | 0 <= i < j < |t| ensures t[i].received <= t[j].received {
      assert NotAfter(t[i], t[j]);
    }
    forall x ensures x in t <==> x in s {
      assert x in multiset(t) <==> x in multiset(s);
    }
    Sorting.NoRepeats(s, t);
    forall i, j | 0 <= i < j < |t| ensures t[i].id != t[j].id {
      assert t[i] in s && t[j] in s;
      var a :| 0 <= a < |s| && s[a] == t[i];
      var b :| 0 <= b < |s| && s[b] == t[j];
    }
  }

  lemma ListsOneMore(k: Book, bids: seq<Bid>, ids: set<BidId>, id: BidId)
    requires Lists(k, bids, ids) && id !in ids && id in k.records && k.records[id].id == id
    ensures Lists(k, bids + [k.records[id]], ids + {id})
  {
    var more := bids + [k.records[id]];
    forall x | x in ids + {id} ensures exists i :: 0 <= i < |more| && more[i].id == x {
      if x == id {
        assert more[|bids|].id == x;
      } else {
        var i :| 0 <= i < |bids| && bids[i].id == x;
        assert more[i].id == x;
      }
    }
  }

  /** Listing the same bids in another order. */
  lemma ListsReordered(k: Book, s: seq<Bid>, t: seq<Bid>, ids: set<BidId>)
    requires Lists(k, s, ids) && DistinctIds(t) && forall x :: x in s <==> x in t
    ensures Lists(k, t, ids)
  {
    forall i | 0 <= i < |t| ensures t[i].id in ids && t[i].id in k.records && t[i] == k.records[t[i].id] {
      assert t[i] in s;
    }
    forall id | id in ids ensures exists i :: 0 <= i < |t| && t[i].id == id {
      var i :| 0 <= i < |s| && s[i].id == id;
      assert s[i] in t;
    }
  }

  function Matching(records: map<BidId, Bid>, keep: Bid -> bool): set<BidId> {
    set id | id in records && keep(records[id])
  }

  /** The records that satisfy `keep`. */
  method Select(k: Book, keep: Bid -> bool) returns (bids: seq<Bid>)
    requires Filed(k)
    ensures Lists(k, bids, Matching(k.records, keep))
  {
    hide Lists;
    bids := [];
    var todo := k.records.Keys;
    ghost var ids: set<BidId> := {};
    assert Lists(k, bids, ids) by { ListsNone(k); }
    while todo != {}
      invariant todo <= k.records.Keys && Lists(k, bids, ids)
      invariant forall id :: id in ids <==> id in k.records && id !in todo && keep(k.records[id])
      decreases |todo|
    {
      var id :| id in todo;
      todo := todo - {id};
      if keep(k.records[id]) {
        ListsOneMore(k, bids, ids, id);
        bids := bids + [k.records[id]];
        ids := ids + {id};
      }
    }
    assert ids == Matching(k.records, keep);
  }

  lemma ListsNone(k: Book)
    ensures Lists(k, [], {})
  {
  }

  // ---------- The decisions of a round, as operations on the book ----------

  function DecideOps(ranked: seq<RankedBid>, verdicts: seq<Verdict>, credits: map<TaskId, real>, now: real): seq<Op>
    requires |ranked| == |verdicts|
  {
    if ranked == [] then []
    else
      var last := |ranked| - 1;
      var b := ranked[last].bid;
      DecideOps(ranked[..last], verdicts[..last], credits, now)
      + [DecideOp(b, verdicts[last], last, credits, now)]
  }

  function DecideOp(b: Bid, v: Verdict, i: nat, credits: map<TaskId, real>, now: real): Op {
    Op.Decide(b.id, Decision(v.Accept?, i + 1, CreditOf(credits, b.terms.task)), now)
  }

  function IdsWith(ranked: seq<RankedBid>, verdicts: seq<Verdict>, accepted: bool): set<BidId>
    requires |ranked| == |verdicts|
  {
    set i | 0 <= i < |ranked| && (if accepted then verdicts[i].Accept? else LostToCompetition(verdicts[i])) ::
      ranked[i].bid.id
  }

  function BidsIn(ranked: seq<RankedBid>): (bids: seq<Bid>)
    ensures |bids| == |ranked|
  {
    seq(|ranked|, i requires 0 <= i < |ranked| => ranked[i].bid)
  }

  /** The window's bids: pending, and received at most a window after the first of them. */
  ghost predicate Due(k: Book, window: real, now: real, ids: set<BidId>) {
    exists first ::
      && IsPending(k, first)
      && (forall id | IsPending(k, id) :: k.records[first].received <= k.records[id].received)
      && now >= k.records[first].received + window
      && ids == ReceivedBy(k, k.records[first].received + window)
  }

  function ReceivedBy(k: Book, end: real): set<BidId> {
    set id | id in k.records && IsPending(k, id) && k.records[id].received <= end
  }

  ghost predicate NothingDue(k: Book, window: real, now: real) {
    forall id | IsPending(k, id) ::
      exists other :: IsPending(k, other) && k.records[other].received <= k.records[id].received
                      && now < k.records[other].received + window
  }

  /** The window's bids, each once, with their keys, in order. By `OrderIsUnique` there is only one such ranking. */
  ghost predicate RanksWindow(k: Book, m: Market, ids: set<BidId>, ranked: seq<RankedBid>)
    requires ValidMarket(m)
  {
    && Lists(k, BidsIn(ranked), ids) && InOrder(ranked) && DistinctKeys(ranked)
    && forall i | 0 <= i < |ranked| :: ranked[i].key == KeyOf(ranked[i].bid, m)
  }

  /** Slots and resources left by owned tasks and by reservations, of which `reserved` is a listing. */
  function RoomLeft(slots: Option<nat>, capacity: Capacity, owned: seq<Request>, reserved: seq<Bid>): Room {
    Room(if slots.None? then None
         else Some(if slots.value >= |owned| + |reserved| then slots.value - |owned| - |reserved| else 0),
         Remaining(capacity, TotalDemand(owned + RequestsIn(reserved))))
  }

  function RequestsIn(bids: seq<Bid>): seq<Request> {
    seq(|bids|, i requires 0 <= i < |bids| => RequestOf(bids[i]))
  }

  class BidArbiter {
    const store: BidStore
    const slots: Option<nat>
    const capacity: Capacity
    const policy: AuctionPolicy
    const window: real
    const capable: Bid -> bool

    constructor (store: BidStore, slots: Option<nat>, capacity: Capacity, policy: AuctionPolicy, window: real,
                 capable: Bid -> bool)
      ensures this.store == store && this.slots == slots && this.capacity == capacity && this.policy == policy
              && this.window == window && this.capable == capable
    {
      this.store, this.slots, this.capacity, this.policy := store, slots, capacity, policy;
      this.window, this.capable := window, capable;
    }

    predicate Valid() {
      ValidPolicy(policy) && ValidCapacity(capacity) && window >= 0.0
    }

    /** Pending bids, first come first. */
    method PendingRecords() returns (pending: seq<Bid>)
      requires Filed(store.Contents())
      ensures Lists(store.Contents(), pending, PendingIds(store.Contents())) && ByArrival(pending)
    {
      var found := Select(store.Contents(), (b: Bid) => b.status.Pending?);
      pending := ArrivalSorted(found);
      ArrivalSortedKeeps(found);
      assert Matching(store.records, (b: Bid) => b.status.Pending?) == PendingIds(store.Contents());
      ListsReordered(store.Contents(), found, pending, PendingIds(store.Contents()));
    }

    method ActiveReservations() returns (reserved: seq<Bid>)
      requires Filed(store.Contents())
      ensures Lists(store.Contents(), reserved, Reserved(store.Contents()))
    {
      reserved := Select(store.Contents(), (b: Bid) => Active(b));
      assert Matching(store.records, (b: Bid) => Active(b)) == Reserved(store.Contents());
    }

    method AvailableResources(owned: seq<Request>)
      returns (free: Option<nat>, ledger: ResourceLedger, ghost reserved: seq<Bid>)
      requires Filed(store.Contents())
      ensures Lists(store.Contents(), reserved, Reserved(store.Contents()))
      ensures Room(free, ledger.Contents()) == RoomLeft(slots, capacity, owned, reserved)
      ensures fresh(ledger)
    {
      var active := ActiveReservations();
      reserved := active;
      free := None;
      if slots.Some? {
        free := Some(if slots.value >= |owned| + |active| then slots.value - |owned| - |active| else 0);
      }
      var used := SumRequests(owned + RequestsIn(active));
      ledger := new ResourceLedger.FromCapacity(capacity, used);
    }

    /** Judges one bid and, when it is accepted, takes its slot, resources and task. */
    method Consider(b: Bid, full: ResourceLedger, ledger: ResourceLedger, free: Option<nat>, selected: set<TaskId>)
      returns (verdict: Verdict, free': Option<nat>, selected': set<TaskId>)
      requires full != ledger && full.Contents() == Remaining(capacity, NOTHING) && ValidCapacity(capacity)
      modifies ledger
      ensures verdict == Judge(b, Node(slots, capacity, capable), Room(free, old(ledger.Contents())), selected)
      ensures var room := Room(free, old(ledger.Contents()));
              Room(free', ledger.Contents()) == if verdict.Accept? then Without(room, b) else room
      ensures selected' == if verdict.Accept? then selected + {b.terms.task} else selected
    {
      hide Fits, Remaining;
      free', selected' := free, selected;
      var request := RequestOf(b);
      FullFits(capacity, request);
      var oversized := full.Compatible(request);
      if b.terms.task in selected {
        verdict := Duplicate;
      } else if !capable(b) {
        verdict := Incapable;
      } else if oversized.Some? {
        verdict := Oversized;
      } else if free.Some? && free.value <= 0 {
        verdict := NoSlot;
      } else {
        var contention := ledger.Compatible(request);
        if contention.Some? {
          verdict := NoRoom;
        } else {
          verdict := Accept;
          if free.Some? {
            free' := Some(free.value - 1);
          }
          ledger.Consume(request);
          selected' := selected + {b.terms.task};
        }
      }
    }

    /** The admission loop: judges each ranked bid against what is left and records the verdict. */
    method AdmitAll(ranked: seq<RankedBid>, credits: map<TaskId, real>, now: real, free: Option<nat>,
                    ledger: ResourceLedger)
      returns (verdicts: seq<Verdict>, accepted: set<BidId>, lost: set<BidId>)
      requires ValidCapacity(capacity)
      modifies store`records, ledger
      ensures verdicts == Admit(BidsIn(ranked), Node(slots, capacity, capable), Room(free, old(ledger.Contents())), {})
      ensures |verdicts| == |ranked|
      ensures store.Contents() == After(old(store.Contents()), DecideOps(ranked, verdicts, credits, now), store.ttl)
      ensures accepted == IdsWith(ranked, verdicts, true) && lost == IdsWith(ranked, verdicts, false)
    {
      hide Apply, KeyOf, Admit, Judge, Without, DecideOps, IdsWith, After, CreditOf, Remaining;
      var full := new ResourceLedger.FromCapacity(capacity, NOTHING);
      var remaining := free;
      var selected: set<TaskId> := {};
      verdicts, accepted, lost := [], {}, {};
      ghost var k, room := store.Contents(), Room(free, ledger.Contents());
      ghost var node := Node(slots, capacity, capable);
      ghost var all := Admit(BidsIn(ranked), node, room, {});
      NothingDecided(ranked, k, credits, now, store.ttl);
      assert BidsIn(ranked)[0..] == BidsIn(ranked);
      for i := 0 to |ranked|
        invariant |verdicts| == i && ledger != full && fresh(full) && full.Contents() == Remaining(capacity, NOTHING)
        invariant room == Room(remaining, ledger.Contents())
        invariant verdicts + Admit(BidsIn(ranked)[i..], node, room, selected) == all
        invariant store.Contents() == After(k, DecideOps(ranked[..i], verdicts, credits, now), store.ttl)
        invariant accepted == IdsWith(ranked[..i], verdicts, true) && lost == IdsWith(ranked[..i], verdicts, false)
      {
        var b := ranked[i].bid;
        AdmitUnfolds(BidsIn(ranked), node, room, selected, i);
        var verdict;
        verdict, remaining, selected := Consider(b, full, ledger, remaining, selected);
        room := Room(remaining, ledger.Contents());
        DecideOpsGrow(ranked, verdicts, verdict, credits, now, i);
        IdsGrow(ranked, verdicts, verdict, i);
        AfterAppend(k, DecideOps(ranked[..i], verdicts, credits, now),
                    DecideOp(b, verdict, i, credits, now), store.ttl);
        if verdict.Accept? {
          accepted := accepted + {b.id};
        }
        if LostToCompetition(verdict) {
          lost := lost + {b.id};
        }
        verdicts := verdicts + [verdict];
        var decided := store.Decide(b.id, Decision(verdict.Accept?, i + 1, CreditOf(credits, b.terms.task)), now);
      }
      assert ranked[..|ranked|] == ranked;
      NothingLeftToAdmit(BidsIn(ranked), node, room, selected);
    }

    /**
     One pass of the arbiter over a snapshot of the node's owned tasks. While no window is due it only lets leases
     lapse and says whether any did; otherwise it ranks, admits, decides and settles the credits.
     */
    method RunOnce(now: real, owned: seq<Request>)
      returns (progressed: bool, ranked: seq<RankedBid>, verdicts: seq<Verdict>, ghost reserved: seq<Bid>)
      requires Valid() && Filed(store.Contents())
      modifies store
      ensures var k := SweptBook(old(store.Contents()), now);
              var m := Market(policy, k.credits, capacity, now);
              || (ranked == [] && NothingDue(k, window, now) && store.Contents() == k
                  && (progressed <==> AnyLapsed(old(store.Contents()), now)))
              || (progressed
                  && |verdicts| == |ranked|
                  && (exists ids :: Due(k, window, now, ids) && RanksWindow(k, m, ids, ranked))
                  && Lists(k, reserved, Reserved(k))
                  && verdicts == Admit(BidsIn(ranked), Node(slots, capacity, capable),
                                       RoomLeft(slots, capacity, owned, reserved), {})
                  && store.Contents() == After(k, RoundOps(ranked, verdicts, k.credits, now, policy), store.ttl)
                  && CreditsSettled(k.credits, store.credits, BidsIn(ranked), verdicts, Node(slots, capacity, capable),
                                    policy))
    {
      hide Apply, KeyOf, AnyLapsed, CreditsSettled, Admit, RanksWindow, Due, NothingDue, ReceivedBy, Lists, ByArrival;
      hide DistinctIds, RoomLeft, Filed, DecideOps, IdsWith, ValidRoom, CreditedBook, After, SweptBook;
      ranked, verdicts, reserved := [], [], [];
      var expired := store.ExpireReservations(now);
      progressed := expired != {};
      ghost var k := store.Contents();
      assert k == SweptBook(old(store.Contents()), now) by { SweepIsApplied(old(store.Contents()), now, store.ttl); }
      SweptFiled(old(store.Contents()), now);
      var pending := PendingRecords();
      if pending == [] {
        NonePending(k, window, now, pending);
        return;
      }
      var windowEnd := pending[0].received + window;
      if now < windowEnd {
        WindowOpen(k, window, now, pending);
        return;
      }
      var bids := InWindow(pending, windowEnd);
      ghost var ids := ReceivedBy(k, windowEnd);
      WindowDue(k, window, now, pending, ids);
      WindowListed(k, pending, bids, windowEnd);
      var credits := store.credits;
      var m := Market(policy, credits, capacity, now);
      ranked := RankBids(bids, m);
      RankingListsWindow(k, m, ids, bids);
      assert RanksWindow(k, m, ids, ranked);
      var free, ledger;
      free, ledger, reserved := AvailableResources(owned);
      var accepted, lost;
      verdicts, accepted, lost := AdmitAll(ranked, credits, now, free, ledger);
      NothingOversold(slots, capacity, owned, reserved);
      RoundCredits(k, m, ids, ranked, verdicts, Node(slots, capacity, capable),
                   RoomLeft(slots, capacity, owned, reserved), policy, now, store.ttl);
      store.ApplyCreditOutcomes(accepted, lost, policy.creditIncrement, policy.creditMax, policy.acceptedDecay);
      AfterAppend(k, DecideOps(ranked, verdicts, credits, now),
                  Credit(accepted, lost, policy.creditIncrement, policy.creditMax, policy.acceptedDecay), store.ttl);
      progressed := true;
    }
  }

  /** The bids of `pending` received by `end`, in the same order. */
  method InWindow(pending: seq<Bid>, end: real) returns (bids: seq<Bid>)
    requires DistinctIds(pending)
    ensures DistinctIds(bids) && forall b :: b in bids <==> b in pending && b.received <= end
  {
    bids := [];
    for i := 0 to |pending|
      invariant forall b :: b in bids <==> b in pending[..i] && b.received <= end
      invariant DistinctIds(bids)
    {
      assert pending[..i + 1] == pending[..i] + [pending[i]];
      if pending[i].received <= end {
        forall j | 0 <= j < |bids| ensures bids[j].id != pending[i].id {
          assert bids[j] in bids;
        }
        bids := bids + [pending[i]];
      }
    }
    assert pending[..|pending|] == pending;
  }

  /** The operations of a round: one decision a bid, then the credits. */
  function RoundOps(ranked: seq<RankedBid>, verdicts: seq<Verdict>, credits: map<TaskId, real>, now: real,
                    policy: AuctionPolicy): seq<Op>
    requires |ranked| == |verdicts|
  {
    DecideOps(ranked, verdicts, credits, now)
    + [Credit(IdsWith(ranked, verdicts, true), IdsWith(ranked, verdicts, false),
              policy.creditIncrement, policy.creditMax, policy.acceptedDecay)]
  }

  // ---------- Steps of the proof ----------

  /** Deciding bids never changes what they are about. */
  lemma {:induction false} DecisionsKeepTerms(k: Book, ranked: seq<RankedBid>, verdicts: seq<Verdict>,
                                              credits: map<TaskId, real>, now: real, ttl: real)
    requires |ranked| == |verdicts|
    ensures var k' := After(k, DecideOps(ranked, verdicts, credits, now), ttl);
            && k'.records.Keys == k.records.Keys && k'.credits == k.credits
            && forall id | id in k.records :: k'.records[id].terms == k.records[id].terms
  {
    hide Lapsed;
    if ranked != [] {
      var last := |ranked| - 1;
      DecisionsKeepTerms(k, ranked[..last], verdicts[..last], credits, now, ttl);
      AfterAppend(k, DecideOps(ranked[..last], verdicts[..last], credits, now),
                  DecideOp(ranked[last].bid, verdicts[last], last, credits, now), ttl);
    }
  }

  lemma NothingOversold(slots: Option<nat>, capacity: Capacity, owned: seq<Request>, reserved: seq<Bid>)
    requires ValidCapacity(capacity)
    ensures ValidRoom(RoomLeft(slots, capacity, owned, reserved))
  {
  }

  lemma IdsSpelledOut(ranked: seq<RankedBid>, verdicts: seq<Verdict>)
    requires |ranked| == |verdicts|
    ensures IdsWith(ranked, verdicts, true)
            == set i | 0 <= i < |BidsIn(ranked)| && verdicts[i].Accept? :: BidsIn(ranked)[i].id
    ensures IdsWith(ranked, verdicts, false)
            == set i | 0 <= i < |BidsIn(ranked)| && LostToCompetition(verdicts[i]) :: BidsIn(ranked)[i].id
  {
    hide LostToCompetition;
    var bids := BidsIn(ranked);
    var won := set i | 0 <= i < |bids| && verdicts[i].Accept? :: bids[i].id;
    var lost := set i | 0 <= i < |bids| && LostToCompetition(verdicts[i]) :: bids[i].id;
    forall id ensures id in IdsWith(ranked, verdicts, true) <==> id in won {
      if i :| 0 <= i < |bids| && verdicts[i].Accept? && bids[i].id == id {
        assert ranked[i].bid.id == id;
      }
    }
    forall id ensures id in IdsWith(ranked, verdicts, false) <==> id in lost {
      if i :| 0 <= i < |bids| && LostToCompetition(verdicts[i]) && bids[i].id == id {
        assert ranked[i].bid.id == id;
      }
    }
  }

  lemma RoundCredits(k: Book, m: Market, ids: set<BidId>, ranked: seq<RankedBid>, verdicts: seq<Verdict>, node: Node,
                     room: Room, policy: AuctionPolicy, now: real, ttl: real)
    requires ValidMarket(m) && RanksWindow(k, m, ids, ranked) && |verdicts| == |ranked|
    requires ValidRoom(room) && policy.creditIncrement > 0.0 && verdicts == Admit(BidsIn(ranked), node, room, {})
    ensures CreditsSettled(k.credits, After(k, RoundOps(ranked, verdicts, k.credits, now, policy), ttl).credits,
                           BidsIn(ranked), verdicts, node, policy)
  {
    hide Admit, After, DecideOps, IdsWith, InOrder, DistinctKeys, KeyOf, CreditedBook, CreditsSettled;
    hide LostToCompetition;
    DecisionsKeepTerms(k, ranked, verdicts, k.credits, now, ttl);
    var decided := After(k, DecideOps(ranked, verdicts, k.credits, now), ttl);
    IdsSpelledOut(ranked, verdicts);
    RoundSettles(decided, BidsIn(ranked), verdicts, node, room, IdsWith(ranked, verdicts, true),
                 IdsWith(ranked, verdicts, false), policy);
    AfterAppend(k, DecideOps(ranked, verdicts, k.credits, now),
                Credit(IdsWith(ranked, verdicts, true), IdsWith(ranked, verdicts, false),
                       policy.creditIncrement, policy.creditMax, policy.acceptedDecay), ttl);
  }

  lemma NothingDecided(ranked: seq<RankedBid>, k: Book, credits: map<TaskId, real>, now: real, ttl: real)
    ensures After(k, DecideOps(ranked[..0], [], credits, now), ttl) == k
    ensures IdsWith(ranked[..0], [], true) == {} == IdsWith(ranked[..0], [], false)
  {
  }

  lemma NothingLeftToAdmit(bids: seq<Bid>, node: Node, room: Room, selected: set<TaskId>)
    ensures Admit(bids[|bids|..], node, room, selected) == []
  {
  }

  lemma FullFits(capacity: Capacity, r: Request)
    requires ValidCapacity(capacity)
    ensures Fits(Remaining(capacity, NOTHING), r) <==> Fits(capacity, r)
  {
  }

  lemma AdmitUnfolds(bids: seq<Bid>, node: Node, room: Room, selected: set<TaskId>, i: nat)
    requires i < |bids|
    ensures var v := Judge(bids[i], node, room, selected);
            Admit(bids[i..], node, room, selected)
            == [v] + (if v.Accept?
                      then Admit(bids[i + 1..], node, Without(room, bids[i]), selected + {bids[i].terms.task})
                      else Admit(bids[i + 1..], node, room, selected))
  {
    assert bids[i..][1..] == bids[i + 1..];
  }

  lemma DecideOpsGrow(ranked: seq<RankedBid>, verdicts: seq<Verdict>, v: Verdict, credits: map<TaskId, real>, now: real,
                      i: nat)
    requires i < |ranked| && |verdicts| == i
    ensures DecideOps(ranked[..i + 1], verdicts + [v], credits, now)
            == DecideOps(ranked[..i], verdicts, credits, now)
               + [DecideOp(ranked[i].bid, v, i, credits, now)]
  {
    assert ranked[..i + 1][..i] == ranked[..i] && (verdicts + [v])[..i] == verdicts;
  }

  lemma IdsGrow(ranked: seq<RankedBid>, verdicts: seq<Verdict>, v: Verdict, i: nat)
    requires i < |ranked| && |verdicts| == i
    ensures IdsWith(ranked[..i + 1], verdicts + [v], true)
            == IdsWith(ranked[..i], verdicts, true) + if v.Accept? then {ranked[i].bid.id} else {}
    ensures IdsWith(ranked[..i + 1], verdicts + [v], false)
            == IdsWith(ranked[..i], verdicts, false) + if LostToCompetition(v) then {ranked[i].bid.id} else {}
  {
    var more := verdicts + [v];
    assert forall j | 0 <= j < i :: more[j] == verdicts[j] && ranked[..i + 1][j] == ranked[..i][j];
    assert more[i] == v && ranked[..i + 1][i] == ranked[i];
  }

  lemma SweepIsApplied(k: Book, now: real, ttl: real)
    ensures Apply(k, Sweep(now), ttl) == SweptBook(k, now)
  {
  }

  lemma SweptFiled(k: Book, now: real)
    requires Filed(k)
    ensures Filed(SweptBook(k, now))
  {
  }

  ghost function PendingIds(k: Book): set<BidId> {
    set id | id in k.records && IsPending(k, id)
  }

  lemma NonePending(k: Book, window: real, now: real, pending: seq<Bid>)
    requires Lists(k, pending, PendingIds(k)) && pending == []
    ensures NothingDue(k, window, now)
  {
    assert forall id | IsPending(k, id) :: id in PendingIds(k);
  }

  lemma FirstIsEarliest(k: Book, pending: seq<Bid>)
    requires Lists(k, pending, PendingIds(k)) && ByArrival(pending) && pending != []
    ensures IsPending(k, pending[0].id) && k.records[pending[0].id] == pending[0]
    ensures forall id | IsPending(k, id) :: pending[0].received <= k.records[id].received
  {
    assert pending[0].id in PendingIds(k);
    forall id | IsPending(k, id) ensures pending[0].received <= k.records[id].received {
      assert id in PendingIds(k);
      var i :| 0 <= i < |pending| && pending[i].id == id;
      assert pending[i] == k.records[id];
    }
  }

  lemma WindowOpen(k: Book, window: real, now: real, pending: seq<Bid>)
    requires Lists(k, pending, PendingIds(k)) && ByArrival(pending) && pending != []
    requires now < pending[0].received + window
    ensures NothingDue(k, window, now)
  {
    FirstIsEarliest(k, pending);
  }

  lemma WindowDue(k: Book, window: real, now: real, pending: seq<Bid>, ids: set<BidId>)
    requires Lists(k, pending, PendingIds(k)) && ByArrival(pending) && pending != []
    requires now >= pending[0].received + window
    requires ids == ReceivedBy(k, pending[0].received + window)
    ensures Due(k, window, now, ids)
  {
    FirstIsEarliest(k, pending);
  }

  lemma WindowListed(k: Book, pending: seq<Bid>, bids: seq<Bid>, end: real)
    requires Lists(k, pending, PendingIds(k)) && DistinctIds(bids)
    requires forall b :: b in bids <==> b in pending && b.received <= end
    ensures Lists(k, bids, ReceivedBy(k, end))
  {
    forall i | 0 <= i < |bids|
      ensures bids[i].id in ReceivedBy(k, end) && bids[i].id in k.records && bids[i] == k.records[bids[i].id]
    {
      assert bids[i] in pending;
    }
    forall id | id in ReceivedBy(k, end) ensures exists i :: 0 <= i < |bids| && bids[i].id == id {
      assert id in PendingIds(k);
      var i :| 0 <= i < |pending| && pending[i].id == id;
      assert pending[i] in bids;
    }
  }

  lemma RankedBids(bids: seq<Bid>, m: Market)
    requires ValidMarket(m) && DistinctIds(bids)
    ensures var ranked := Sorted(Keyed(bids, m));
            && InOrder(ranked) && DistinctKeys(ranked) && DistinctIds(BidsIn(ranked))
            && (forall i | 0 <= i < |ranked| :: ranked[i].key == KeyOf(ranked[i].bid, m))
            && (forall b :: b in BidsIn(ranked) <==> b in bids)
  {
    hide KeyOf, Sorted, Keyed, AtMost;
    var ranked := Sorted(Keyed(bids, m));
    RankedKeysDistinct(bids, m);
    SortedIsOrdered(Keyed(bids, m));
    KeyedPointwise(bids, m);
    forall i | 0 <= i < |ranked|
      ensures ranked[i].bid in bids && ranked[i].key == KeyOf(ranked[i].bid, m)
    {
      RankedKeysAreBids(bids, m, i);
    }
    forall i, j | 0 <= i < j < |ranked| ensures ranked[i].bid.id != ranked[j].bid.id {
      IdInKey(ranked[i].bid, m);
      IdInKey(ranked[j].bid, m);
      var a :| 0 <= a < |bids| && bids[a] == ranked[i].bid;
      var b :| 0 <= b < |bids| && bids[b] == ranked[j].bid;
    }
    forall b | b in bids ensures b in BidsIn(ranked) {
      var i :| 0 <= i < |bids| && bids[i] == b;
      var x := Keyed(bids, m)[i];
      assert x in multiset(ranked);
      var j :| 0 <= j < |ranked| && ranked[j] == x;
      assert BidsIn(ranked)[j] == b;
    }
  }

  lemma RankingListsWindow(k: Book, m: Market, ids: set<BidId>, bids: seq<Bid>)
    requires ValidMarket(m) && Lists(k, bids, ids)
    ensures RanksWindow(k, m, ids, Sorted(Keyed(bids, m)))
  {
    hide KeyOf, Sorted, Keyed, InOrder, DistinctKeys;
    RankedBids(bids, m);
    ListsReordered(k, bids, BidsIn(Sorted(Keyed(bids, m))), ids);
  }
}
