/** How a source learns what became of its request (magellan/migration/service.py). */
module OutcomeQuery {
  import opened Common
  import opened MigrationProtocol

  /** One status request: no answer, or the destination's record, if it has one. */
  datatype Poll = NoAnswer | Answer(record: Option<RecordStatus>)

  datatype Verdict = Finalize | RollBack | StayUncertain

  predicate Terminal(record: Option<RecordStatus>) {
    record == Some(Activated) || record == Some(RolledBack)
  }

  function RecordOf(p: Poll): Option<RecordStatus> {
    match p
    case NoAnswer => None
    case Answer(record) => record
  }

  /** The poll after which the query returns: the first terminal answer, or the last poll before the deadline. */
  function DecidingPoll(polls: seq<Poll>): (k: nat)
    requires polls != []
    ensures k < |polls|
    ensures forall i | 0 <= i < k :: !Terminal(RecordOf(polls[i]))
    ensures Terminal(RecordOf(polls[k])) || k == |polls| - 1
  {
    if Terminal(RecordOf(polls[0])) || |polls| == 1 then 0 else DecidingPoll(polls[1..]) + 1
  }

  /** The polling loop: a failed poll forgets the record but not that the destination was reached. */
  method QueryRemoteOutcome(polls: seq<Poll>) returns (last: Option<RecordStatus>, reached: bool)
    ensures polls == [] ==> last == None && !reached
    ensures polls != [] ==> last == RecordOf(polls[DecidingPoll(polls)])
    ensures polls != [] ==> (reached <==> exists i | 0 <= i <= DecidingPoll(polls) :: polls[i].Answer?)
  {
    last, reached := None, false;
    for i := 0 to |polls|
      invariant reached <==> exists j | 0 <= j < i :: polls[j].Answer?
      invariant last == if i == 0 then None else RecordOf(polls[i - 1])
      invariant forall j | 0 <= j < i :: !Terminal(RecordOf(polls[j]))
    {
      match polls[i] {
        case NoAnswer =>
          last := None;
        case Answer(record) =>
          last, reached := record, true;
      }
      if Terminal(last) {
        assert DecidingPoll(polls) == i;
        return;
      }
    }
  }

  /** What both callers do with the answer. */
  function Decide(last: Option<RecordStatus>, reached: bool): Verdict {
    if last == Some(Activated) then Finalize
    else if last == Some(RolledBack) || (reached && last.None?) then RollBack
    else StayUncertain
  }

  function VerdictOf(polls: seq<Poll>): Verdict {
    if polls == [] then StayUncertain
    else
      var k := DecidingPoll(polls);
      Decide(RecordOf(polls[k]), exists i | 0 <= i <= k :: polls[i].Answer?)
  }

  /** How both callers go on: they ask, and decide by the record and the flag. */
  method Resolve(polls: seq<Poll>) returns (v: Verdict)
    ensures v == VerdictOf(polls)
    ensures polls == [] ==> v == StayUncertain
    ensures polls != [] ==>
              var k := DecidingPoll(polls);
              && (v == Finalize <==> polls[k] == Answer(Some(Activated)))
              && (v == RollBack <==>
                  || polls[k] == Answer(Some(RolledBack)) || polls[k] == Answer(None)
                  || (polls[k] == NoAnswer && exists i | 0 <= i < k :: polls[i].Answer?))
  {
    var last, reached := QueryRemoteOutcome(polls);
    v := Decide(last, reached);
  }

  // ---------- What the verdict is worth ----------

  /** A destination's record of one migration only moves forward. */
  predicate Advances(a: Option<RecordStatus>, b: Option<RecordStatus>) {
    a == b || a.None? || (a == Some(Handover) && Terminal(b))
  }

  predicate DestinationStatus(a: Option<RecordStatus>) {
    a.None? || a == Some(Handover) || Terminal(a)
  }

  /**
   `truth[i]` is the record at poll `i`, and `fate` is what it comes to. The request arrives before the
   deciding poll or never, so a record that is absent then stays absent.
   */
  ghost predicate Consistent(polls: seq<Poll>, truth: seq<Option<RecordStatus>>, fate: Option<RecordStatus>)
    requires polls != []
  {
    var k := DecidingPoll(polls);
    && |truth| == k + 1
    && (forall i | 0 <= i <= k :: DestinationStatus(truth[i]))
    && (forall i, j | 0 <= i <= j <= k :: Advances(truth[i], truth[j]))
    && (forall i | 0 <= i <= k :: polls[i].Answer? ==> polls[i].record == truth[i])
    && DestinationStatus(fate) && Advances(truth[k], fate) && (truth[k].None? ==> fate.None?)
  }

  ghost predicate Possible(polls: seq<Poll>)
    requires polls != []
  {
    exists truth, fate :: Consistent(polls, truth, fate)
  }

  /** Whatever the destination did that fits the answers, it never activates. */
  ghost predicate NeverActivates(polls: seq<Poll>)
    requires polls != []
  {
    forall truth, fate :: Consistent(polls, truth, fate) ==> fate != Some(Activated)
  }

  /** Finalising is always right. */
  lemma FinalizeIsSound(polls: seq<Poll>, truth: seq<Option<RecordStatus>>, fate: Option<RecordStatus>)
    requires polls != [] && VerdictOf(polls) == Finalize && Consistent(polls, truth, fate)
    ensures fate == Some(Activated)
  {
  }

  lemma LastAnswer(polls: seq<Poll>, k: nat) returns (i: nat)
    requires k < |polls| && exists j | 0 <= j <= k :: polls[j].Answer?
    ensures i <= k && polls[i].Answer? && forall j | i < j <= k :: polls[j].NoAnswer?
    decreases k
  {
    if polls[k].Answer? {
      i := k;
    } else {
      i := LastAnswer(polls, k - 1);
    }
  }

  /** Rolling back is right exactly when the deciding poll itself got an answer. */
  lemma RollBackIsSoundIff(polls: seq<Poll>)
    requires polls != [] && Possible(polls) && VerdictOf(polls) == RollBack
    ensures NeverActivates(polls) <==> polls[DecidingPoll(polls)].Answer?
  {
    var k := DecidingPoll(polls);
    if polls[k].NoAnswer? {
      var truth, fate :| Consistent(polls, truth, fate);
      var last := LastAnswer(polls, k);
      assert !Terminal(RecordOf(polls[last]));
      var worse := truth[..last + 1] + seq(k - last, _ => Some(Handover));
      forall i, j | 0 <= i <= j <= k ensures Advances(worse[i], worse[j]) {
        if i <= last < j {
          assert Advances(truth[i], truth[last]);
        }
      }
      assert Consistent(polls, worse, Some(Activated));
    }
  }

  /** Two polls suffice to go wrong: the destination is seen activating, then cannot be reached. */
  lemma StaleReachedFlag()
    ensures var polls := [Answer(Some(Handover)), NoAnswer];
            && VerdictOf(polls) == RollBack
            && Consistent(polls, [Some(Handover), Some(Handover)], Some(Activated))
  {
    var polls := [Answer(Some(Handover)), NoAnswer];
    assert DecidingPoll(polls) == 1;
    assert polls[0].Answer?;
  }
}
