/** What the ingest queue answers, and what an item becomes. */
module IngestAnswers {
  import opened Common
  import opened IngestModel
  import opened IngestAccounting

  function TotalOf(items: seq<Item>): nat {
    if items == [] then 0 else TotalOf(items[..|items| - 1]) + items[|items| - 1].bytes
  }

  function ItemsOf(jobs: seq<Job>): (r: seq<Item>)
    ensures |r| == |jobs| && forall i :: 0 <= i < |r| ==> r[i] == jobs[i].item
  {
    seq(|jobs|, i requires 0 <= i < |jobs| => jobs[i].item)
  }

  lemma {:induction false} ItemBytes(items: seq<Item>, p: Probe)
    ensures OfItems(items, p).bytes == TotalOf(items)
  {
    if items != [] {
      ItemBytes(items[..|items| - 1], p);
    }
  }

  lemma {:induction false} JobBytes(jobs: seq<Job>, p: Probe)
    ensures OfJobs(jobs, p).bytes == TotalOf(ItemsOf(jobs))
  {
    if jobs != [] {
      var n := |jobs| - 1;
      JobBytes(jobs[..n], p);
      assert ItemsOf(jobs)[..n] == ItemsOf(jobs[..n]);
    }
  }

  /** The items that hold the id: queued, being processed or spilled after a failure, or spilled at once. */
  ghost predicate Holds(s: State, id: string) {
    || (exists i :: 0 <= i < |s.queued| && s.queued[i].id == id)
    || (exists i :: 0 <= i < |s.jobs| && !s.jobs[i].stage.SpillDone? && s.jobs[i].item.id == id)
    || (exists i :: 0 <= i < |s.overflow| && s.overflow[i].id == id)
  }

  lemma {:induction false} ItemHeld(items: seq<Item>, p: Probe)
    ensures OfItems(items, p).held > 0 <==> exists i :: 0 <= i < |items| && items[i].id == p.id
  {
    if items != [] {
      var n := |items| - 1;
      ItemHeld(items[..n], p);
      if i :| 0 <= i < n && items[i].id == p.id {
        assert items[..n][i].id == p.id;
      }
    }
  }

  lemma {:induction false} JobHeld(jobs: seq<Job>, p: Probe)
    ensures OfJobs(jobs, p).held > 0
       <==> exists i :: 0 <= i < |jobs| && !jobs[i].stage.SpillDone? && jobs[i].item.id == p.id
  {
    if jobs != [] {
      var n := |jobs| - 1;
      JobHeld(jobs[..n], p);
      if i :| 0 <= i < n && !jobs[i].stage.SpillDone? && jobs[i].item.id == p.id {
        assert !jobs[..n][i].stage.SpillDone? && jobs[..n][i].item.id == p.id;
      }
    }
  }

  /** In every run: an item whose id is held by another one is a duplicate; any other is spilled exactly if the queued
      items and those that hold a slot are as many as may be pending, or its whole bytes do not fit beside theirs. */
  lemma AnswerExactly(given: GivenLimits, steps: seq<Step>, id: string, bytes: real)
    ensures var s := Run(Created(given), steps);
            var whole := if bytes < 0.0 then 0 else bytes.Floor;
            var room := |s.queued| + |s.jobs| < s.limits.maxPendingEvents
                        && TotalOf(s.queued) + TotalOf(ItemsOf(s.jobs)) + whole <= s.limits.maxPendingBytes;
            && (Answer(s, id, bytes) == Duplicate <==> Holds(s, id))
            && (Answer(s, id, bytes) == Spilled <==> !Holds(s, id) && !room)
            && (Answer(s, id, bytes) == Queued <==> !Holds(s, id) && room)
  {
    var s, p := Run(Created(given), steps), Probe(id, Item(id, "", 0));
    RunGood(Created(given), steps, p);
    ItemBytes(s.queued, p);
    JobBytes(s.jobs, p);
    ItemHeld(s.queued, p);
    JobHeld(s.jobs, p);
    ItemHeld(s.overflow, p);
  }

  /** What an accepted item becomes: the last one queued, or one more spill. */
  lemma AcceptedExactly(s: State, id: string, value: string, bytes: real)
    ensures var next, item := Enqueue(s, id, value, bytes), Item(id, value, if bytes < 0.0 then 0 else bytes.Floor);
            match Answer(s, id, bytes)
            case Duplicate => next == s.(duplicateSuppressed := s.duplicateSuppressed + 1)
            case Spilled =>
              && next.overflow == s.overflow + [item] && next.pendingIds == s.pendingIds + {id}
              && next.overflowSpilled == s.overflowSpilled + 1 && next.spilling == s.spilling + 1
              && next.queued == s.queued && next.jobs == s.jobs && next.pendingBytes == s.pendingBytes
            case Queued =>
              && |next.jobs| >= |s.jobs| && next.jobs[..|s.jobs|] == s.jobs
              && ItemsOf(next.jobs[|s.jobs|..]) + next.queued == s.queued + [item]
              && next.pendingIds == s.pendingIds + {id} && next.overflow == s.overflow
  {
    if Answer(s, id, bytes).Queued? {
      var joined := Joined(s, Item(id, value, WholeBytes(bytes)));
      DrainStartsTheOldest(joined);
      DrainRest(joined);
      var n := Min(|joined.queued|, Max(0, joined.limits.concurrency - joined.active));
      assert Drain(joined).jobs[|s.jobs|..] == Starts(joined.queued[..n]);
      assert ItemsOf(Starts(joined.queued[..n])) == joined.queued[..n];
    }
  }

  lemma {:induction false} DrainRest(s: State)
    ensures var next := Drain(s);
            && next.pendingIds == s.pendingIds && next.pendingBytes == s.pendingBytes && next.overflow == s.overflow
            && next.spilling == s.spilling && next.limits == s.limits
    decreases |s.queued|
  {
    if s.active < s.limits.concurrency && s.queued != [] {
      DrainRest(Start(s));
    }
  }

  /** A limit that is given is taken over if it is a positive integer and is 1 otherwise; one that is not given stays. */
  lemma LimitsExactly(given: GivenLimits, present: Limits, steps: seq<Step>, first: GivenLimits)
    requires present == Run(Created(first), steps).limits
    ensures var limits := Normalize(given, present);
            && limits.maxPendingEvents == Chosen(given.maxPendingEvents, present.maxPendingEvents)
            && limits.maxPendingBytes == Chosen(given.maxPendingBytes, present.maxPendingBytes)
            && limits.concurrency == Chosen(given.concurrency, present.concurrency)
    ensures Configure(Run(Created(first), steps), given).limits == Normalize(given, present)
  {
    RunPositive(Created(first), steps);
    DrainRest(Run(Created(first), steps).(limits := Normalize(given, present)));
  }

  function Chosen(given: GivenLimit, present: nat): nat {
    match given
    case Kept => present
    case Given(value) => if value.Some? && value.value >= 1 then value.value else 1
  }

  predicate PositiveLimits(l: Limits) {
    l.maxPendingEvents >= 1 && l.maxPendingBytes >= 1 && l.concurrency >= 1
  }

  lemma NextPositive(s: State, step: Step)
    requires PositiveLimits(s.limits)
    ensures PositiveLimits(Next(s, step).limits)
  {
    match step
    case DoEnqueue(id, value, bytes) => DrainRest(Joined(s, Item(id, value, WholeBytes(bytes))));
    case DoConfigure(given) => DrainRest(s.(limits := Normalize(given, s.limits)));
    case DoProcessed(k, ok) =>
      if k < |s.jobs| {
        ReturnLimits(s.(pendingIds := s.pendingIds - {s.jobs[k].item.id},
                        processed := s.processed + multiset{s.jobs[k].item}), k);
      }
    case DoReturned(k) =>
      if k < |s.jobs| {
        ReturnLimits(s, k);
      }
    case _ =>
  }

  lemma ReturnLimits(s: State, k: nat)
    requires k < |s.jobs|
    ensures Return(s, k).limits == s.limits
  {
    DrainRest(s.(jobs := Without(s.jobs, k), active := Max(0, s.active - 1),
                 pendingBytes := Max(0, s.pendingBytes - s.jobs[k].item.bytes)));
  }

  lemma {:induction false} RunPositive(s: State, steps: seq<Step>)
    requires PositiveLimits(s.limits)
    ensures PositiveLimits(Run(s, steps).limits)
    decreases |steps|
  {
    if steps != [] {
      NextPositive(s, steps[0]);
      RunPositive(Next(s, steps[0]), steps[1..]);
    }
  }

  /** A processing that fails keeps its slot and its id and begins a spill of its item. */
  lemma FailureExactly(s: State, k: nat)
    requires k < |s.jobs| && s.jobs[k].stage.Processing?
    ensures var next := Next(s, DoProcessed(k, false));
            && next.jobs == s.jobs[k := Job(s.jobs[k].item, Spilling)] && next.pendingIds == s.pendingIds
            && next.active == s.active && next.pendingBytes == s.pendingBytes && next.queued == s.queued
            && next.processFailures == s.processFailures + 1 && next.spilling == s.spilling + 1
            && next.spilled == s.spilled + multiset{s.jobs[k].item}
  {
  }

  lemma {:induction false} SpillsHeld(jobs: seq<Job>, p: Probe)
    ensures OfJobs(jobs, p).spilling <= |jobs|
  {
    if jobs != [] {
      SpillsHeld(jobs[..|jobs| - 1], p);
    }
  }

  lemma IdleMeans(s: State, p: Probe)
    requires Good(s, p)
    ensures IsIdle(s) <==> s.queued == [] && s.jobs == [] && s.overflow == []
  {
    SpillsHeld(s.jobs, p);
  }

  /** In every run: who waits is released by a notification exactly when nothing is queued, nothing holds a slot and
      nothing is being spilled, and nobody needs to wait then; and each notification is used up. */
  lemma NotifiedExactly(given: GivenLimits, steps: seq<Step>, waiter: nat)
    ensures var s := Run(Created(given), steps);
            var idle := s.queued == [] && s.jobs == [] && s.overflow == [];
            && Next(s, DoNotify) == (if s.owed == 0 then s
                                     else s.(owed := s.owed - 1, waiters := if idle then {} else s.waiters))
            && Next(s, DoWait(waiter)) == s.(waiters := if idle then s.waiters else s.waiters + {waiter})
  {
    hide Run, Good;
    var s, p := Run(Created(given), steps), Probe("", Item("", "", 0));
    RunGood(Created(given), steps, p);
    IdleMeans(s, p);
  }
}
