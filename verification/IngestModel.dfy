/** The bounded ingest queue as a state machine: one step per code section that runs without yielding. Which processing
    or spill settles next, and how, is a parameter of the step. */
module IngestModel {
  import opened Common

  datatype Limits = Limits(maxPendingEvents: nat, maxPendingBytes: nat, concurrency: nat)

  /** A limit in a reconfiguration: kept, or given; a given value that is not an integer is None. */
  datatype GivenLimit = Kept | Given(value: Option<int>)
  datatype GivenLimits = GivenLimits(maxPendingEvents: GivenLimit, maxPendingBytes: GivenLimit, concurrency: GivenLimit)

  datatype Item = Item(id: string, value: string, bytes: nat)

  /** A processing that started and holds its slot. Its item is being processed, is being spilled after a failure, or
      has been spilled while the slot is not yet returned. */
  datatype Stage = Processing | Spilling | SpillDone
  datatype Job = Job(item: Item, stage: Stage)

  /** The fields of the queue; then what runs on its behalf; then its history. */
  datatype State = State(
    limits: Limits, queued: seq<Item>, pendingIds: set<string>, waiters: set<nat>, active: int, pendingBytes: int,
    spilling: int, overflowSpilled: nat, duplicateSuppressed: nat, processFailures: nat,
    jobs: seq<Job>, overflow: seq<Item>, owed: nat,
    accepted: multiset<Item>, processed: multiset<Item>, spilled: multiset<Item>)

  datatype Result = Queued | Spilled | Duplicate

  datatype Step =
    | DoEnqueue(id: string, value: string, bytes: real)
    | DoConfigure(given: GivenLimits)
    | DoProcessed(job: nat, ok: bool)
    | DoSpilled(job: nat)
    | DoReturned(job: nat)
    | DoOverflowSpilled(spill: nat)
    | DoNotify
    | DoWait(waiter: nat)

  function Positive(value: Option<int>): nat {
    if value.Some? && value.value > 0 then value.value else 1
  }

  function Override(given: GivenLimit, present: nat): nat {
    match given
    case Kept => if present > 0 then present else 1
    case Given(value) => Positive(value)
  }

  function Normalize(given: GivenLimits, present: Limits): (r: Limits)
    ensures r.maxPendingEvents >= 1 && r.maxPendingBytes >= 1 && r.concurrency >= 1
  {
    Limits(Override(given.maxPendingEvents, present.maxPendingEvents),
           Override(given.maxPendingBytes, present.maxPendingBytes),
           Override(given.concurrency, present.concurrency))
  }

  /** Toward zero, then not below zero. */
  function WholeBytes(bytes: real): nat {
    if bytes < 0.0 then 0 else bytes.Floor
  }

  function Created(given: GivenLimits): State {
    State(Normalize(given, Limits(1, 1, 1)), [], {}, {}, 0, 0, 0, 0, 0, 0, [], [], 0, multiset{}, multiset{}, multiset{})
  }

  function Start(s: State): State
    requires s.queued != []
  {
    s.(queued := s.queued[1..], active := s.active + 1, jobs := s.jobs + [Job(s.queued[0], Processing)])
  }

  function Drain(s: State): State
    decreases |s.queued|
  {
    if s.active < s.limits.concurrency && s.queued != [] then Drain(Start(s)) else s
  }

  predicate IsIdle(s: State) {
    s.queued == [] && s.active == 0 && s.spilling == 0
  }

  function Notify(s: State): State {
    if IsIdle(s) then s.(waiters := {}) else s
  }

  predicate CanAccept(s: State, bytes: nat) {
    |s.queued| + s.active < s.limits.maxPendingEvents && s.pendingBytes + bytes <= s.limits.maxPendingBytes
  }

  function Answer(s: State, id: string, bytes: real): Result {
    if id in s.pendingIds then Duplicate else if !CanAccept(s, WholeBytes(bytes)) then Spilled else Queued
  }

  function Enqueue(s: State, id: string, value: string, bytes: real): State {
    var item := Item(id, value, WholeBytes(bytes));
    match Answer(s, id, bytes)
    case Duplicate => s.(duplicateSuppressed := s.duplicateSuppressed + 1)
    case Spilled =>
      s.(pendingIds := s.pendingIds + {id}, overflowSpilled := s.overflowSpilled + 1, spilling := s.spilling + 1,
         overflow := s.overflow + [item],
         accepted := s.accepted + multiset{item}, spilled := s.spilled + multiset{item})
    case Queued =>
      Drain(s.(pendingIds := s.pendingIds + {id}, queued := s.queued + [item], pendingBytes := s.pendingBytes + item.bytes,
               accepted := s.accepted + multiset{item}))
  }

  function Configure(s: State, given: GivenLimits): State {
    Drain(s.(limits := Normalize(given, s.limits)))
  }

  /** The `finally` of a processing: the slot and the bytes return, and the queue moves on. */
  function Return(s: State, k: nat): State
    requires k < |s.jobs|
  {
    Notify(Drain(s.(jobs := Without(s.jobs, k), active := Max(0, s.active - 1),
                    pendingBytes := Max(0, s.pendingBytes - s.jobs[k].item.bytes))))
  }

  function Processed(s: State, k: nat, ok: bool): State {
    if k >= |s.jobs| || !s.jobs[k].stage.Processing? then s
    else
      var item := s.jobs[k].item;
      if ok then
        Return(s.(pendingIds := s.pendingIds - {item.id}, processed := s.processed + multiset{item}), k)
      else
        s.(processFailures := s.processFailures + 1, spilling := s.spilling + 1,
           jobs := s.jobs[k := Job(item, Spilling)], spilled := s.spilled + multiset{item})
  }

  /** The spill of a failed item settled, either way. */
  function SpillSettled(s: State, k: nat): State {
    if k >= |s.jobs| || !s.jobs[k].stage.Spilling? then s
    else
      s.(spilling := Max(0, s.spilling - 1), pendingIds := s.pendingIds - {s.jobs[k].item.id},
         jobs := s.jobs[k := Job(s.jobs[k].item, SpillDone)])
  }

  function SlotReturned(s: State, k: nat): State {
    if k >= |s.jobs| || !s.jobs[k].stage.SpillDone? then s else Return(s, k)
  }

  /** The spill of an item that found no room settled; the waiters are notified in a later section. */
  function OverflowSettled(s: State, k: nat): State {
    if k >= |s.overflow| then s
    else
      s.(spilling := Max(0, s.spilling - 1), pendingIds := s.pendingIds - {s.overflow[k].id},
         overflow := Without(s.overflow, k), owed := s.owed + 1)
  }

  function Next(s: State, step: Step): State {
    match step
    case DoEnqueue(id, value, bytes) => Enqueue(s, id, value, bytes)
    case DoConfigure(given) => Configure(s, given)
    case DoProcessed(k, ok) => Processed(s, k, ok)
    case DoSpilled(k) => SpillSettled(s, k)
    case DoReturned(k) => SlotReturned(s, k)
    case DoOverflowSpilled(k) => OverflowSettled(s, k)
    case DoNotify => if s.owed > 0 then Notify(s.(owed := s.owed - 1)) else s
    case DoWait(waiter) => if IsIdle(s) then s else s.(waiters := s.waiters + {waiter})
  }

  function Run(s: State, steps: seq<Step>): State
    decreases |steps|
  {
    if steps == [] then s else Run(Next(s, steps[0]), steps[1..])
  }
}
