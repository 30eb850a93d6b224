/** The counters of the ingest queue are exact, nothing that was accepted is dropped, and no waiter is forgotten. */
module IngestAccounting {
  import opened Common
  import opened IngestModel

  /** One id and one item to count. */
  datatype Probe = Probe(id: string, item: Item)

  // What a list of jobs or items adds up to: bytes, holders of the probed id, spills, processings of the probed item.

  datatype Tally = Tally(bytes: nat, held: nat, spilling: nat, processing: nat)

  function Plus(a: Tally, b: Tally): Tally {
    Tally(a.bytes + b.bytes, a.held + b.held, a.spilling + b.spilling, a.processing + b.processing)
  }

  const NOTHING: Tally := Tally(0, 0, 0, 0)

  function If(condition: bool): nat {
    if condition then 1 else 0
  }

  /** A job holds its bytes while it holds its slot, and its id until it has been processed or spilled. */
  function OfJob(job: Job, p: Probe): Tally {
    match job.stage
    case Processing => Tally(job.item.bytes, If(job.item.id == p.id), 0, If(job.item == p.item))
    case Spilling => Tally(job.item.bytes, If(job.item.id == p.id), 1, 0)
    case SpillDone => Tally(job.item.bytes, 0, 0, 0)
  }

  function OfJobs(jobs: seq<Job>, p: Probe): Tally {
    if jobs == [] then NOTHING else Plus(OfJobs(jobs[..|jobs| - 1], p), OfJob(jobs[|jobs| - 1], p))
  }

  function OfItem(item: Item, p: Probe): Tally {
    Tally(item.bytes, If(item.id == p.id), 0, If(item == p.item))
  }

  function OfItems(items: seq<Item>, p: Probe): Tally {
    if items == [] then NOTHING else Plus(OfItems(items[..|items| - 1], p), OfItem(items[|items| - 1], p))
  }

  lemma JobsPush(jobs: seq<Job>, job: Job, p: Probe)
    ensures OfJobs(jobs + [job], p) == Plus(OfJobs(jobs, p), OfJob(job, p))
  {
    assert (jobs + [job])[..|jobs|] == jobs;
  }

  lemma ItemsPush(items: seq<Item>, item: Item, p: Probe)
    ensures OfItems(items + [item], p) == Plus(OfItems(items, p), OfItem(item, p))
  {
    assert (items + [item])[..|items|] == items;
  }

  lemma PlusSwaps(a: Tally, b: Tally, c: Tally)
    ensures Plus(Plus(a, b), c) == Plus(Plus(a, c), b)
  {
  }

  lemma {:induction false} JobsTake(jobs: seq<Job>, k: nat, p: Probe)
    requires k < |jobs|
    ensures OfJobs(jobs, p) == Plus(OfJobs(Without(jobs, k), p), OfJob(jobs[k], p))
  {
    var n := |jobs| - 1;
    if k == n {
      assert Without(jobs, k) == jobs[..n];
    } else {
      JobsTake(jobs[..n], k, p);
      var less := Without(jobs[..n], k);
      assert Without(jobs, k) == less + [jobs[n]];
      JobsPush(less, jobs[n], p);
      PlusSwaps(OfJobs(less, p), OfJob(jobs[k], p), OfJob(jobs[n], p));
    }
  }

  lemma {:induction false} ItemsTake(items: seq<Item>, k: nat, p: Probe)
    requires k < |items|
    ensures OfItems(items, p) == Plus(OfItems(Without(items, k), p), OfItem(items[k], p))
  {
    var n := |items| - 1;
    if k == n {
      assert Without(items, k) == items[..n];
    } else {
      ItemsTake(items[..n], k, p);
      var less := Without(items[..n], k);
      assert Without(items, k) == less + [items[n]];
      ItemsPush(less, items[n], p);
      PlusSwaps(OfItems(less, p), OfItem(items[k], p), OfItem(items[n], p));
    }
  }

  /** The same slot with another stage. */
  lemma JobsPut(jobs: seq<Job>, k: nat, job: Job, p: Probe)
    requires k < |jobs|
    ensures OfJobs(jobs[k := job], p) == Plus(OfJobs(Without(jobs, k), p), OfJob(job, p))
  {
    JobsTake(jobs[k := job], k, p);
    assert Without(jobs[k := job], k) == Without(jobs, k);
  }

  // The invariant, for any probe.

  /** How many of the queued items, the running jobs and the overflow spills hold the probed id. */
  function Holders(s: State, p: Probe): nat {
    OfItems(s.queued, p).held + OfJobs(s.jobs, p).held + OfItems(s.overflow, p).held
  }

  ghost predicate Exact(s: State, p: Probe) {
    && s.active == |s.jobs|
    && s.pendingBytes == OfItems(s.queued, p).bytes + OfJobs(s.jobs, p).bytes
    && s.spilling == OfJobs(s.jobs, p).spilling + |s.overflow|
    && Holders(s, p) == If(p.id in s.pendingIds)
  }

  /** The probed item, as often as it was accepted, is queued, being processed, processed, or handed to the spill. */
  ghost predicate Conserved(s: State, p: Probe) {
    s.accepted[p.item]
    == OfItems(s.queued, p).processing + OfJobs(s.jobs, p).processing + s.processed[p.item] + s.spilled[p.item]
  }

  predicate Busy(s: State) {
    s.queued != [] ==> s.active >= s.limits.concurrency
  }

  predicate Awaited(s: State) {
    s.waiters != {} && IsIdle(s) ==> s.owed > 0
  }

  ghost predicate Accounted(s: State, p: Probe) {
    Exact(s, p) && Conserved(s, p) && s.limits.concurrency >= 1
  }

  ghost predicate Good(s: State, p: Probe) {
    Accounted(s, p) && Busy(s) && Awaited(s)
  }

  lemma StartAccounts(s: State, p: Probe)
    requires Accounted(s, p) && s.queued != []
    ensures Accounted(Start(s), p)
  {
    var head := s.queued[0];
    ItemsTake(s.queued, 0, p);
    assert Without(s.queued, 0) == s.queued[1..];
    JobsPush(s.jobs, Job(head, Processing), p);
  }

  lemma {:induction false} DrainAccounts(s: State, p: Probe)
    requires Accounted(s, p)
    ensures Accounted(Drain(s), p) && Busy(Drain(s))
    ensures IsIdle(Drain(s)) <==> IsIdle(s)
    ensures Drain(s).waiters == s.waiters && Drain(s).owed == s.owed
    decreases |s.queued|
  {
    if s.active < s.limits.concurrency && s.queued != [] {
      StartAccounts(s, p);
      DrainAccounts(Start(s), p);
    }
  }

  function Starts(items: seq<Item>): (r: seq<Job>)
    ensures |r| == |items| && forall i :: 0 <= i < |r| ==> r[i] == Job(items[i], Processing)
  {
    seq(|items|, i requires 0 <= i < |items| => Job(items[i], Processing))
  }

  lemma OldestFirst(queued: seq<Item>, jobs: seq<Job>, n: nat)
    requires 1 <= n <= |queued|
    ensures queued[1..][n - 1..] == queued[n..]
    ensures jobs + [Job(queued[0], Processing)] + Starts(queued[1..][..n - 1]) == jobs + Starts(queued[..n])
  {
    assert queued[..n] == [queued[0]] + queued[1..][..n - 1];
    assert Starts(queued[..n]) == [Job(queued[0], Processing)] + Starts(queued[1..][..n - 1]);
  }

  /** Draining fills the free slots with the oldest items, in their order, and starts no more than that. */
  lemma {:induction false} DrainStartsTheOldest(s: State)
    ensures var free := Max(0, s.limits.concurrency - s.active);
            var n := Min(|s.queued|, free);
            && Drain(s).queued == s.queued[n..] && Drain(s).jobs == s.jobs + Starts(s.queued[..n])
            && Drain(s).active == s.active + n
    decreases |s.queued|
  {
    var n := Min(|s.queued|, Max(0, s.limits.concurrency - s.active));
    if s.active < s.limits.concurrency && s.queued != [] {
      DrainStartsTheOldest(Start(s));
      OldestFirst(s.queued, s.jobs, n);
    } else {
      assert Starts(s.queued[..0]) == [] && s.jobs + [] == s.jobs;
    }
  }

  /** An item joins the queue. */
  function Joined(s: State, item: Item): State {
    s.(pendingIds := s.pendingIds + {item.id}, queued := s.queued + [item], pendingBytes := s.pendingBytes + item.bytes,
       accepted := s.accepted + multiset{item})
  }

  lemma JoinedAccounts(s: State, item: Item, p: Probe)
    requires Accounted(s, p) && item.id !in s.pendingIds
    ensures Accounted(Joined(s, item), p)
  {
    ItemsPush(s.queued, item, p);
  }

  /** An item without room goes to its spill. */
  function Overflowed(s: State, item: Item): State {
    s.(pendingIds := s.pendingIds + {item.id}, overflowSpilled := s.overflowSpilled + 1, spilling := s.spilling + 1,
       overflow := s.overflow + [item],
       accepted := s.accepted + multiset{item}, spilled := s.spilled + multiset{item})
  }

  lemma OverflowGood(s: State, id: string, value: string, bytes: real, p: Probe)
    requires Good(s, p) && Answer(s, id, bytes) == Spilled
    ensures Good(Enqueue(s, id, value, bytes), p)
  {
    ItemsPush(s.overflow, Item(id, value, WholeBytes(bytes)), p);
  }

  lemma EnqueueGood(s: State, id: string, value: string, bytes: real, p: Probe)
    requires Good(s, p)
    ensures Good(Enqueue(s, id, value, bytes), p)
  {
    match Answer(s, id, bytes)
    case Duplicate =>
    case Spilled => OverflowGood(s, id, value, bytes, p);
    case Queued =>
      var item := Item(id, value, WholeBytes(bytes));
      JoinedAccounts(s, item, p);
      DrainAccounts(Joined(s, item), p);
      assert Enqueue(s, id, value, bytes) == Drain(Joined(s, item));
      assert !IsIdle(Joined(s, item));
  }

  lemma ConfigureGood(s: State, given: GivenLimits, p: Probe)
    requires Good(s, p)
    ensures Good(Configure(s, given), p)
  {
    DrainAccounts(s.(limits := Normalize(given, s.limits)), p);
  }

  /** Returning a slot whose id is already given back. */
  lemma ReturnGood(s: State, k: nat, p: Probe)
    requires k < |s.jobs| && s.limits.concurrency >= 1
    requires var rest := OfJobs(Without(s.jobs, k), p);
             && s.active == |s.jobs|
             && s.pendingBytes == OfItems(s.queued, p).bytes + rest.bytes + s.jobs[k].item.bytes
             && s.spilling == rest.spilling + |s.overflow|
             && If(p.id in s.pendingIds) == OfItems(s.queued, p).held + rest.held + OfItems(s.overflow, p).held
             && s.accepted[p.item]
                == OfItems(s.queued, p).processing + rest.processing + s.processed[p.item] + s.spilled[p.item]
    ensures Good(Return(s, k), p)
  {
    DrainAccounts(s.(jobs := Without(s.jobs, k), active := Max(0, s.active - 1),
                     pendingBytes := Max(0, s.pendingBytes - s.jobs[k].item.bytes)), p);
  }

  lemma ProcessedGood(s: State, k: nat, ok: bool, p: Probe)
    requires Good(s, p)
    ensures Good(Processed(s, k, ok), p)
  {
    if k < |s.jobs| && s.jobs[k].stage.Processing? {
      var item := s.jobs[k].item;
      JobsTake(s.jobs, k, p);
      if ok {
        ReturnGood(s.(pendingIds := s.pendingIds - {item.id}, processed := s.processed + multiset{item}), k, p);
      } else {
        JobsPut(s.jobs, k, Job(item, Spilling), p);
      }
    }
  }

  lemma SpillSettledGood(s: State, k: nat, p: Probe)
    requires Good(s, p)
    ensures Good(SpillSettled(s, k), p)
  {
    if k < |s.jobs| && s.jobs[k].stage.Spilling? {
      JobsTake(s.jobs, k, p);
      JobsPut(s.jobs, k, Job(s.jobs[k].item, SpillDone), p);
    }
  }

  lemma SlotReturnedGood(s: State, k: nat, p: Probe)
    requires Good(s, p)
    ensures Good(SlotReturned(s, k), p)
  {
    if k < |s.jobs| && s.jobs[k].stage.SpillDone? {
      JobsTake(s.jobs, k, p);
      ReturnGood(s, k, p);
    }
  }

  lemma OverflowSettledGood(s: State, k: nat, p: Probe)
    requires Good(s, p)
    ensures Good(OverflowSettled(s, k), p)
  {
    if k < |s.overflow| {
      ItemsTake(s.overflow, k, p);
    }
  }

  lemma NextGood(s: State, step: Step, p: Probe)
    requires Good(s, p)
    ensures Good(Next(s, step), p)
  {
    match step
    case DoEnqueue(id, value, bytes) => EnqueueGood(s, id, value, bytes, p);
    case DoConfigure(given) => ConfigureGood(s, given, p);
    case DoProcessed(k, ok) => ProcessedGood(s, k, ok, p);
    case DoSpilled(k) => SpillSettledGood(s, k, p);
    case DoReturned(k) => SlotReturnedGood(s, k, p);
    case DoOverflowSpilled(k) => OverflowSettledGood(s, k, p);
    case DoNotify =>
    case DoWait(_) =>
  }

  lemma {:induction false} RunGood(s: State, steps: seq<Step>, p: Probe)
    requires Good(s, p)
    ensures Good(Run(s, steps), p)
    decreases |steps|
  {
    if steps != [] {
      NextGood(s, steps[0], p);
      RunGood(Next(s, steps[0]), steps[1..], p);
    }
  }

  // The results.

  /** In every run: the pending ids are the disjoint union of those queued, being processed and being spilled; the
      bytes, the slots and the spills are counted exactly; and queued work means that every slot is taken. */
  lemma CountersAreExact(given: GivenLimits, steps: seq<Step>, p: Probe)
    ensures Exact(Run(Created(given), steps), p) && Busy(Run(Created(given), steps))
  {
    RunGood(Created(given), steps, p);
  }

  /** In every run each accepted item is queued, being processed, processed, or handed to the spill: once. When the
      queue is idle it is one of the last two. */
  lemma NothingIsDropped(given: GivenLimits, steps: seq<Step>, p: Probe)
    ensures var s := Run(Created(given), steps);
            && Conserved(s, p)
            && (IsIdle(s) ==> s.accepted[p.item] == s.processed[p.item] + s.spilled[p.item])
  {
    RunGood(Created(given), steps, p);
  }

  /** In every run: when the queue is idle and somebody waits, a notification is on its way, and it releases everybody
      unless work arrives before it. */
  lemma NoWaiterIsForgotten(given: GivenLimits, steps: seq<Step>, p: Probe)
    ensures var s := Run(Created(given), steps);
            s.waiters != {} && IsIdle(s) ==> s.owed > 0 && Next(s, DoNotify).waiters == {}
  {
    RunGood(Created(given), steps, p);
  }

  lemma JobIsCounted(s: State, k: nat, p: Probe)
    requires Exact(s, p) && k < |s.jobs|
    ensures s.active >= 1 && s.pendingBytes >= s.jobs[k].item.bytes
    ensures s.jobs[k].stage.Spilling? ==> s.spilling >= 1
  {
    JobsTake(s.jobs, k, p);
  }

  /** The clamps at zero never take effect, in no run. */
  lemma ClampsNeverBite(given: GivenLimits, steps: seq<Step>, k: nat, p: Probe)
    ensures var s := Run(Created(given), steps);
            && (k < |s.jobs| ==> s.active >= 1 && s.pendingBytes >= s.jobs[k].item.bytes)
            && (k < |s.jobs| && s.jobs[k].stage.Spilling? ==> s.spilling >= 1)
            && (k < |s.overflow| ==> s.spilling >= 1)
  {
    CountersAreExact(given, steps, p);
    var s := Run(Created(given), steps);
    if k < |s.jobs| {
      JobIsCounted(s, k, p);
    }
  }

  ghost predicate Within(s: State) {
    && |s.queued| + s.active <= s.limits.maxPendingEvents
    && s.pendingBytes <= s.limits.maxPendingBytes
    && s.active <= s.limits.concurrency
  }

  lemma {:induction false} DrainWithin(s: State)
    requires Within(s)
    ensures Within(Drain(s)) && Drain(s).limits == s.limits
    decreases |s.queued|
  {
    if s.active < s.limits.concurrency && s.queued != [] {
      DrainWithin(Start(s));
    }
  }

  lemma NextWithin(s: State, step: Step, p: Probe)
    requires Good(s, p) && Within(s) && !step.DoConfigure?
    ensures Within(Next(s, step)) && Next(s, step).limits == s.limits
  {
    match step
    case DoEnqueue(id, value, bytes) =>
      var item := Item(id, value, WholeBytes(bytes));
      if id !in s.pendingIds && CanAccept(s, item.bytes) {
        DrainWithin(Joined(s, item));
      }
    case DoProcessed(k, ok) =>
      if k < |s.jobs| && s.jobs[k].stage.Processing? && ok {
        var item := s.jobs[k].item;
        ReturnWithin(s.(pendingIds := s.pendingIds - {item.id}, processed := s.processed + multiset{item}), k);
      }
    case DoReturned(k) =>
      if k < |s.jobs| && s.jobs[k].stage.SpillDone? {
        ReturnWithin(s, k);
      }
    case _ =>
  }

  lemma ReturnWithin(s: State, k: nat)
    requires Within(s) && s.active == |s.jobs| && k < |s.jobs|
    ensures Within(Return(s, k)) && Return(s, k).limits == s.limits
  {
    DrainWithin(s.(jobs := Without(s.jobs, k), active := Max(0, s.active - 1),
                   pendingBytes := Max(0, s.pendingBytes - s.jobs[k].item.bytes)));
  }

  /** With fixed limits the events, the bytes and the slots in use stay within them. */
  lemma {:induction false} StaysWithinLimits(s: State, steps: seq<Step>, p: Probe)
    requires Good(s, p) && Within(s)
    requires forall i :: 0 <= i < |steps| ==> !steps[i].DoConfigure?
    ensures Within(Run(s, steps)) && Run(s, steps).limits == s.limits
    decreases |steps|
  {
    if steps != [] {
      NextWithin(s, steps[0], p);
      NextGood(s, steps[0], p);
      StaysWithinLimits(Next(s, steps[0]), steps[1..], p);
    }
  }
}
