/** Task demands and a node's remaining capacity (magellan/bidding/resources.py). */
module Resources {
  import opened Common

  /** A task's declared demand. */
  datatype Request = Request(cpu: real, memory: nat, gpu: nat, accelerator: Option<nat>)

  datatype Demand = Demand(cpu: real, memory: nat, gpu: nat)

  /** A configured limit; an absent one is not enforced. */
  datatype Limit = Unlimited | Limited(amount: real)

  datatype Capacity = Capacity(cpu: Limit, memory: Limit, gpu: Limit, accelerators: set<nat>)

  datatype Refusal = NoGpu | WrongAccelerator | NoCpu | NoMemory | TooFewGpus

  const DEFAULT_REQUEST := Request(1.0, 0, 0, None)

  predicate ValidRequest(r: Request) {
    r.cpu > 0.0
  }

  predicate ValidLimit(l: Limit) {
    l.Limited? ==> l.amount >= 0.0
  }

  predicate ValidCapacity(c: Capacity) {
    && (c.cpu.Limited? ==> c.cpu.amount > 0.0) && (c.memory.Limited? ==> c.memory.amount > 0.0)
    && (c.gpu.Limited? ==> c.gpu.amount >= 0.0)
  }

  function Plus(a: Demand, b: Demand): Demand {
    Demand(a.cpu + b.cpu, a.memory + b.memory, a.gpu + b.gpu)
  }

  function DemandOf(r: Request): Demand {
    Demand(r.cpu, r.memory, r.gpu)
  }

  const NOTHING := Demand(0.0, 0, 0)

  function TotalDemand(requests: seq<Request>): Demand {
    if requests == [] then NOTHING
    else Plus(TotalDemand(requests[..|requests| - 1]), DemandOf(requests[|requests| - 1]))
  }

  method SumRequests(requests: seq<Request>) returns (total: Demand)
    ensures total == TotalDemand(requests)
  {
    total := NOTHING;
    for i := 0 to |requests|
      invariant total == TotalDemand(requests[..i])
    {
      total := Plus(total, DemandOf(requests[i]));
      assert requests[..i + 1][..i] == requests[..i];
    }
    assert requests[..|requests|] == requests;
  }

  predicate Within(amount: real, l: Limit) {
    l.Limited? ==> amount <= l.amount
  }

  /** The demand stays inside every enforced limit. */
  predicate Covers(c: Capacity, d: Demand) {
    Within(d.cpu, c.cpu) && Within(d.memory as real, c.memory) && Within(d.gpu as real, c.gpu)
  }

  predicate AcceleratorMatches(c: Capacity, r: Request) {
    r.gpu > 0 && r.accelerator.Some? && c.accelerators != {} ==> r.accelerator.value in c.accelerators
  }

  predicate Fits(c: Capacity, r: Request) {
    Covers(c, DemandOf(r)) && AcceleratorMatches(c, r)
  }

  /** `max(0, limit - amount)` */
  function Less(l: Limit, amount: real): Limit {
    if l.Unlimited? then Unlimited else Limited(MaxReal(0.0, l.amount - amount))
  }

  function Remaining(c: Capacity, d: Demand): Capacity {
    Capacity(Less(c.cpu, d.cpu), Less(c.memory, d.memory as real), Less(c.gpu, d.gpu as real), c.accelerators)
  }

  class ResourceLedger {
    var cpu: Limit
    var memory: Limit
    var gpu: Limit
    const accelerators: set<nat>

    function Contents(): Capacity
      reads this
    {
      Capacity(cpu, memory, gpu, accelerators)
    }

    constructor FromCapacity(capacity: Capacity, used: Demand)
      ensures Contents() == Remaining(capacity, used)
    {
      cpu := Less(capacity.cpu, used.cpu);
      memory := Less(capacity.memory, used.memory as real);
      gpu := Less(capacity.gpu, used.gpu as real);
      accelerators := capacity.accelerators;
    }

    /** Whether the request fits, and the first reason when it does not. */
    method Compatible(r: Request) returns (refusal: Option<Refusal>)
      ensures refusal.None? <==> Fits(Contents(), r)
      ensures refusal == Some(NoGpu) <==> r.gpu > 0 && gpu.Limited? && gpu.amount <= 0.0
      ensures refusal == Some(WrongAccelerator) ==> !AcceleratorMatches(Contents(), r)
      ensures refusal == Some(NoCpu) ==> AcceleratorMatches(Contents(), r) && cpu.Limited? && r.cpu > cpu.amount
      ensures refusal == Some(NoMemory) ==> Within(r.cpu, cpu) && memory.Limited? && r.memory as real > memory.amount
      ensures refusal == Some(TooFewGpus) ==>
                Within(r.cpu, cpu) && Within(r.memory as real, memory) && gpu.Limited? && r.gpu as real > gpu.amount
    {
      if r.gpu > 0 && gpu.Limited? && gpu.amount <= 0.0 {
        return Some(NoGpu);
      }
      if r.gpu > 0 && r.accelerator.Some? && accelerators != {} && r.accelerator.value !in accelerators {
        return Some(WrongAccelerator);
      }
      if cpu.Limited? && r.cpu > cpu.amount {
        return Some(NoCpu);
      }
      if memory.Limited? && r.memory as real > memory.amount {
        return Some(NoMemory);
      }
      if gpu.Limited? && r.gpu as real > gpu.amount {
        return Some(TooFewGpus);
      }
      return None;
    }

    method Consume(r: Request)
      modifies this
      ensures Contents() == Remaining(old(Contents()), DemandOf(r))
    {
      if cpu.Limited? {
        cpu := Limited(MaxReal(0.0, cpu.amount - r.cpu));
      }
      if memory.Limited? {
        memory := Limited(MaxReal(0.0, memory.amount - r.memory as real));
      }
      if gpu.Limited? {
        gpu := Limited(MaxReal(0.0, gpu.amount - r.gpu as real));
      }
    }
  }

  // ---------- What the ledger means ----------

  /** What still fits after a demand that fitted is what fitted together with it; the clamp at zero never acts. */
  lemma RemainingIsExact(c: Capacity, taken: Demand, more: Demand)
    requires Covers(c, taken)
    ensures Covers(Remaining(c, taken), more) <==> Covers(c, Plus(taken, more))
    ensures c.cpu.Limited? ==> Remaining(c, taken).cpu.amount == c.cpu.amount - taken.cpu
    ensures c.memory.Limited? ==> Remaining(c, taken).memory.amount == c.memory.amount - taken.memory as real
    ensures c.gpu.Limited? ==> Remaining(c, taken).gpu.amount == c.gpu.amount - taken.gpu as real
  {
  }

  /** Taking one demand after another is taking their sum. */
  lemma RemainingAdds(c: Capacity, taken: Demand, more: Demand)
    requires Covers(c, taken) && Covers(Remaining(c, taken), more)
    ensures Remaining(Remaining(c, taken), more) == Remaining(c, Plus(taken, more))
    ensures Covers(c, Plus(taken, more))
  {
  }

  /** Taking more never makes room. */
  lemma FitsShrinks(c: Capacity, taken: Demand, r: Request)
    requires taken.cpu >= 0.0 && ValidRequest(r) && Fits(Remaining(c, taken), r)
    requires ValidLimit(c.cpu) && ValidLimit(c.memory) && ValidLimit(c.gpu)
    ensures Fits(c, r)
  {
  }
}
