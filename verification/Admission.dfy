/** Greedy admission by rank (magellan/bidding/arbiter.py), as a recursive specification. */
module Admission {
  import opened Common
  import opened Resources
  import opened BidBook

  /** The destination: task slots, physical capacity, and what it can run. */
  datatype Node = Node(slots: Option<nat>, capacity: Capacity, capable: Bid -> bool)

  /** What is left to hand out in this round. */
  datatype Room = Room(slots: Option<nat>, resources: Capacity)

  datatype Verdict = Accept | Duplicate | Incapable | Oversized | NoSlot | NoRoom

  function RequestOf(b: Bid): Request {
    if b.terms.context.Some? then b.terms.context.value.request else DEFAULT_REQUEST
  }

  function DemandFor(b: Bid): Demand {
    DemandOf(RequestOf(b))
  }

  predicate HasSlot(r: Room) {
    r.slots.None? || r.slots.value > 0
  }

  /** The order of the checks decides the reason of a refusal. */
  function Judge(b: Bid, node: Node, room: Room, selected: set<TaskId>): Verdict {
    if b.terms.task in selected then Duplicate
    else if !node.capable(b) then Incapable
    else if !Fits(node.capacity, RequestOf(b)) then Oversized
    else if !HasSlot(room) then NoSlot
    else if !Fits(room.resources, RequestOf(b)) then NoRoom
    else Accept
  }

  /** Losing to competing demand, and only that, earns fairness credit. */
  predicate LostToCompetition(v: Verdict) {
    v.NoSlot? || v.NoRoom?
  }

  function Without(room: Room, b: Bid): Room {
    Room(if room.slots.Some? && room.slots.value > 0 then Some(room.slots.value - 1) else room.slots,
         Remaining(room.resources, DemandFor(b)))
  }

  /** One verdict a bid, in rank order. */
  function Admit(bids: seq<Bid>, node: Node, room: Room, selected: set<TaskId>): seq<Verdict>
    decreases |bids|
  {
    if bids == [] then []
    else
      var v := Judge(bids[0], node, room, selected);
      [v] + (if v.Accept? then Admit(bids[1..], node, Without(room, bids[0]), selected + {bids[0].terms.task})
             else Admit(bids[1..], node, room, selected))
  }

  // ---------- What the greedy choice amounts to ----------

  function AcceptedCount(verdicts: seq<Verdict>): nat {
    if verdicts == [] then 0
    else AcceptedCount(verdicts[..|verdicts| - 1]) + if verdicts[|verdicts| - 1].Accept? then 1 else 0
  }

  function AcceptedDemand(bids: seq<Bid>, verdicts: seq<Verdict>): Demand
    requires |bids| == |verdicts|
  {
    if bids == [] then NOTHING
    else
      var last := |bids| - 1;
      var before := AcceptedDemand(bids[..last], verdicts[..last]);
      if verdicts[last].Accept? then Plus(before, DemandFor(bids[last])) else before
  }

  predicate SelectedBefore(bids: seq<Bid>, verdicts: seq<Verdict>, i: nat)
    requires |bids| == |verdicts| && i < |bids|
  {
    exists j | 0 <= j < i :: verdicts[j].Accept? && bids[j].terms.task == bids[i].terms.task
  }

  /** What is left once the first `i` verdicts are carried out. */
  function RoomAfter(bids: seq<Bid>, verdicts: seq<Verdict>, room: Room, i: nat): Room
    requires |bids| == |verdicts| && i <= |bids|
  {
    var count := AcceptedCount(verdicts[..i]);
    Room(if room.slots.None? then None else Some(if room.slots.value >= count then room.slots.value - count else 0),
         Remaining(room.resources, AcceptedDemand(bids[..i], verdicts[..i])))
  }

  /** When the rules admit bid `i`, given what they admitted before it. */
  predicate Admissible(bids: seq<Bid>, verdicts: seq<Verdict>, node: Node, room: Room, i: nat)
    requires |bids| == |verdicts| && i < |bids|
  {
    && node.capable(bids[i])
    && Fits(node.capacity, RequestOf(bids[i]))
    && !SelectedBefore(bids, verdicts, i)
    && (room.slots.None? || AcceptedCount(verdicts[..i]) < room.slots.value)
    && AcceleratorMatches(room.resources, RequestOf(bids[i]))
    && Covers(room.resources, Plus(AcceptedDemand(bids[..i], verdicts[..i]), DemandFor(bids[i])))
  }

  /** The node could run the bid's task, and has not taken it in this round: only competing demand refused it. */
  predicate Competed(bids: seq<Bid>, verdicts: seq<Verdict>, node: Node, i: nat)
    requires |bids| == |verdicts| && i < |bids|
  {
    && !verdicts[i].Accept? && !SelectedBefore(bids, verdicts, i)
    && node.capable(bids[i]) && Fits(node.capacity, RequestOf(bids[i]))
  }

  ghost predicate GreedyChoice(bids: seq<Bid>, verdicts: seq<Verdict>, node: Node, room: Room) {
    && |verdicts| == |bids|
    && forall i | 0 <= i < |bids| :: verdicts[i].Accept? <==> Admissible(bids, verdicts, node, room, i)
  }

  /** The state in which the recursion meets bid `i`. */
  ghost predicate Reaches(bids: seq<Bid>, verdicts: seq<Verdict>, start: Room, i: nat, room: Room,
                          selected: set<TaskId>)
    requires |bids| == |verdicts| && i <= |bids|
  {
    && room == RoomAfter(bids, verdicts, start, i)
    && Covers(start.resources, AcceptedDemand(bids[..i], verdicts[..i]))
    && (start.slots.Some? ==> AcceptedCount(verdicts[..i]) <= start.slots.value)
    && (forall t :: t in selected <==> exists j | 0 <= j < i :: verdicts[j].Accept? && bids[j].terms.task == t)
  }

  lemma PrefixGrows(bids: seq<Bid>, verdicts: seq<Verdict>, i: nat)
    requires |bids| == |verdicts| && i < |bids|
    ensures AcceptedCount(verdicts[..i + 1]) == AcceptedCount(verdicts[..i]) + if verdicts[i].Accept? then 1 else 0
    ensures AcceptedDemand(bids[..i + 1], verdicts[..i + 1])
            == if verdicts[i].Accept?
               then Plus(AcceptedDemand(bids[..i], verdicts[..i]), DemandFor(bids[i]))
               else AcceptedDemand(bids[..i], verdicts[..i])
  {
    assert verdicts[..i + 1][..i] == verdicts[..i] && bids[..i + 1][..i] == bids[..i];
  }

  /** In a reached state, the verdict is an acceptance exactly when the rules admit the bid. */
  lemma JudgeIsAdmissible(bids: seq<Bid>, verdicts: seq<Verdict>, node: Node, start: Room, i: nat, room: Room,
                          selected: set<TaskId>)
    requires |bids| == |verdicts| && i < |bids| && Reaches(bids, verdicts, start, i, room, selected)
    ensures Judge(bids[i], node, room, selected).Accept? <==> Admissible(bids, verdicts, node, start, i)
  {
    RemainingIsExact(start.resources, AcceptedDemand(bids[..i], verdicts[..i]), DemandFor(bids[i]));
  }

  lemma ReachNext(bids: seq<Bid>, verdicts: seq<Verdict>, node: Node, start: Room, i: nat, room: Room,
                  selected: set<TaskId>)
    requires |bids| == |verdicts| && i < |bids| && Reaches(bids, verdicts, start, i, room, selected)
    requires verdicts[i] == Judge(bids[i], node, room, selected)
    ensures verdicts[i].Accept? ==>
              Reaches(bids, verdicts, start, i + 1, Without(room, bids[i]), selected + {bids[i].terms.task})
    ensures !verdicts[i].Accept? ==> Reaches(bids, verdicts, start, i + 1, room, selected)
  {
    hide AcceptedCount, AcceptedDemand, Fits, AcceleratorMatches, Covers, Remaining, Plus;
    PrefixGrows(bids, verdicts, i);
    if verdicts[i].Accept? {
      var taken, more := AcceptedDemand(bids[..i], verdicts[..i]), DemandFor(bids[i]);
      assert Covers(room.resources, more) by { FitsCovers(room.resources, RequestOf(bids[i])); }
      RemainingAdds(start.resources, taken, more);
    }
  }

  lemma FitsCovers(c: Capacity, r: Request)
    requires Fits(c, r)
    ensures Covers(c, DemandOf(r))
  {
  }

  lemma {:induction false} AdmitFrom(bids: seq<Bid>, verdicts: seq<Verdict>, node: Node, start: Room, i: nat,
                                     room: Room, selected: set<TaskId>)
    requires |bids| == |verdicts| && i <= |bids| && Reaches(bids, verdicts, start, i, room, selected)
    requires verdicts[i..] == Admit(bids[i..], node, room, selected)
    ensures forall k | i <= k < |bids| :: verdicts[k].Accept? <==> Admissible(bids, verdicts, node, start, k)
    ensures forall k | i <= k < |bids| :: LostToCompetition(verdicts[k]) <==> Competed(bids, verdicts, node, k)
    decreases |bids| - i
  {
    hide Reaches, Admissible, Without, Competed;
    if i < |bids| {
      assert verdicts[i] == verdicts[i..][0] == Judge(bids[i], node, room, selected);
      JudgeIsFair(bids, verdicts, node, start, i, room, selected);
      assert bids[i..][1..] == bids[i + 1..] && verdicts[i..][1..] == verdicts[i + 1..];
      JudgeIsAdmissible(bids, verdicts, node, start, i, room, selected);
      ReachNext(bids, verdicts, node, start, i, room, selected);
      if verdicts[i].Accept? {
        AdmitFrom(bids, verdicts, node, start, i + 1, Without(room, bids[i]), selected + {bids[i].terms.task});
      } else {
        AdmitFrom(bids, verdicts, node, start, i + 1, room, selected);
      }
    }
  }

  /** ... and a loss to competition exactly when nothing else stands against the bid. */
  lemma JudgeIsFair(bids: seq<Bid>, verdicts: seq<Verdict>, node: Node, start: Room, i: nat, room: Room,
                    selected: set<TaskId>)
    requires |bids| == |verdicts| && i < |bids| && Reaches(bids, verdicts, start, i, room, selected)
    requires verdicts[i] == Judge(bids[i], node, room, selected)
    ensures LostToCompetition(verdicts[i]) <==> Competed(bids, verdicts, node, i)
  {
    hide RoomAfter, AcceptedCount, AcceptedDemand, Fits, Covers;
  }

  lemma {:induction false} AdmitLength(bids: seq<Bid>, node: Node, room: Room, selected: set<TaskId>)
    ensures |Admit(bids, node, room, selected)| == |bids|
    decreases |bids|
  {
    hide Judge, Without;
    if bids != [] {
      var v := Judge(bids[0], node, room, selected);
      if v.Accept? {
        AdmitLength(bids[1..], node, Without(room, bids[0]), selected + {bids[0].terms.task});
      } else {
        AdmitLength(bids[1..], node, room, selected);
      }
    }
  }

  lemma StartReached(bids: seq<Bid>, verdicts: seq<Verdict>, room: Room)
    requires |bids| == |verdicts| && ValidRoom(room)
    ensures Reaches(bids, verdicts, room, 0, room, {})
  {
  }

  /** What is left over is never negative. */
  predicate ValidRoom(room: Room) {
    ValidLimit(room.resources.cpu) && ValidLimit(room.resources.memory) && ValidLimit(room.resources.gpu)
  }

  /** The round admits a bid exactly when the rules do, given everything admitted before it. */
  lemma AdmitIsGreedy(bids: seq<Bid>, node: Node, room: Room)
    requires ValidRoom(room)
    ensures GreedyChoice(bids, Admit(bids, node, room, {}), node, room)
  {
    hide Reaches, Admissible, Admit, ValidRoom, Competed;
    AdmitLength(bids, node, room, {});
    var verdicts := Admit(bids, node, room, {});
    StartReached(bids, verdicts, room);
    assert verdicts[0..] == verdicts && bids[0..] == bids;
    AdmitFrom(bids, verdicts, node, room, 0, room, {});
  }

  /** Exactly the bids that only competing demand refused count as lost to competition. */
  lemma LosersCompeted(bids: seq<Bid>, node: Node, room: Room)
    requires ValidRoom(room)
    ensures var verdicts := Admit(bids, node, room, {});
            && |verdicts| == |bids|
            && forall i | 0 <= i < |bids| :: LostToCompetition(verdicts[i]) <==> Competed(bids, verdicts, node, i)
  {
    hide Reaches, Admissible, Admit, ValidRoom, Competed, LostToCompetition;
    AdmitLength(bids, node, room, {});
    var verdicts := Admit(bids, node, room, {});
    StartReached(bids, verdicts, room);
    assert verdicts[0..] == verdicts && bids[0..] == bids;
    AdmitFrom(bids, verdicts, node, room, 0, room, {});
  }

  /** ... and the rules leave no choice: every assignment that follows them admits the same bids. */
  lemma {:induction false} GreedyChoiceIsUnique(bids: seq<Bid>, v: seq<Verdict>, w: seq<Verdict>, node: Node,
                                                room: Room, i: nat)
    requires GreedyChoice(bids, v, node, room) && GreedyChoice(bids, w, node, room) && i <= |bids|
    ensures forall k | 0 <= k < i :: v[k].Accept? <==> w[k].Accept?
    decreases i
  {
    hide Admissible;
    if i > 0 {
      GreedyChoiceIsUnique(bids, v, w, node, room, i - 1);
      SameVerdictsSameRules(bids, v, w, node, room, i - 1);
    }
  }

  lemma SameVerdictsSameRules(bids: seq<Bid>, v: seq<Verdict>, w: seq<Verdict>, node: Node, room: Room, i: nat)
    requires |v| == |w| == |bids| && i < |bids| && forall k | 0 <= k < i :: v[k].Accept? <==> w[k].Accept?
    ensures Admissible(bids, v, node, room, i) <==> Admissible(bids, w, node, room, i)
  {
    hide AcceptedCount, AcceptedDemand, Fits, AcceleratorMatches, Covers;
    SamePrefix(bids, v, w, i);
  }

  lemma {:induction false} SamePrefix(bids: seq<Bid>, v: seq<Verdict>, w: seq<Verdict>, i: nat)
    requires |v| == |w| == |bids| && i <= |bids| && forall k | 0 <= k < i :: v[k].Accept? <==> w[k].Accept?
    ensures AcceptedCount(v[..i]) == AcceptedCount(w[..i])
    ensures AcceptedDemand(bids[..i], v[..i]) == AcceptedDemand(bids[..i], w[..i])
    decreases i
  {
    hide AcceptedCount, AcceptedDemand;
    if i > 0 {
      SamePrefix(bids, v, w, i - 1);
      PrefixGrows(bids, v, i - 1);
      PrefixGrows(bids, w, i - 1);
    } else {
      assert v[..0] == w[..0];
    }
  }

  // ---------- The end of the round ----------

  /** Everything accepted fits together, in slots and in resources: the ledger's clamp at zero never acts. */
  lemma {:induction false} AcceptedFitTogether(bids: seq<Bid>, v: seq<Verdict>, node: Node, room: Room, i: nat)
    requires GreedyChoice(bids, v, node, room) && i <= |bids| && ValidRoom(room)
    ensures Covers(room.resources, AcceptedDemand(bids[..i], v[..i]))
    ensures room.slots.Some? ==> AcceptedCount(v[..i]) <= room.slots.value
    decreases i
  {
    hide AcceptedCount, AcceptedDemand, SelectedBefore;
    if i > 0 {
      AcceptedFitTogether(bids, v, node, room, i - 1);
      PrefixGrows(bids, v, i - 1);
    } else {
      assert AcceptedCount(v[..0]) == 0 && AcceptedDemand(bids[..0], v[..0]) == NOTHING by { NothingAccepted(bids, v); }
    }
  }

  lemma NothingAccepted(bids: seq<Bid>, v: seq<Verdict>)
    requires |bids| == |v|
    ensures AcceptedCount(v[..0]) == 0 && AcceptedDemand(bids[..0], v[..0]) == NOTHING
  {
  }

  predicate AtMostDemand(a: Demand, b: Demand) {
    a.cpu <= b.cpu && a.memory <= b.memory && a.gpu <= b.gpu
  }

  lemma {:induction false} AcceptedOnlyGrows(bids: seq<Bid>, v: seq<Verdict>, i: nat, j: nat)
    requires |bids| == |v| && i <= j <= |bids| && forall b | b in bids :: ValidRequest(RequestOf(b))
    ensures AcceptedCount(v[..i]) <= AcceptedCount(v[..j])
    ensures AtMostDemand(AcceptedDemand(bids[..i], v[..i]), AcceptedDemand(bids[..j], v[..j]))
    decreases j - i
  {
    hide AcceptedCount, AcceptedDemand;
    if i < j {
      AcceptedOnlyGrows(bids, v, i, j - 1);
      PrefixGrows(bids, v, j - 1);
    }
  }

  /** No bid refused for want of slots or resources would fit what remains at the end of the round. */
  lemma NoRefusalFitsTheRest(bids: seq<Bid>, node: Node, room: Room, i: nat)
    requires ValidRoom(room) && i < |bids| && |Admit(bids, node, room, {})| == |bids|
    requires forall b | b in bids :: ValidRequest(RequestOf(b))
    requires LostToCompetition(Admit(bids, node, room, {})[i])
    ensures var rest := RoomAfter(bids, Admit(bids, node, room, {}), room, |bids|);
            !(HasSlot(rest) && Fits(rest.resources, RequestOf(bids[i])))
  {
    hide Admit, AcceptedCount, AcceptedDemand, SelectedBefore, Reaches;
    var v := Admit(bids, node, room, {});
    AdmitIsGreedy(bids, node, room);
    StartReached(bids, v, room);
    assert v[0..] == v && bids[0..] == bids;
    AdmitFrom(bids, v, node, room, 0, room, {});
    assert !Admissible(bids, v, node, room, i);
    AcceptedOnlyGrows(bids, v, i, |bids|);
    AcceptedFitTogether(bids, v, node, room, |bids|);
    RemainingIsExact(room.resources, AcceptedDemand(bids[..|bids|], v[..|bids|]), DemandFor(bids[i]));
  }
}
