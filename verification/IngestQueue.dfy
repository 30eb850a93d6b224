/** The ingest queue as the program has it: one object whose methods are the code sections between awaits. `jobs` and
    `overflow` stand for the calls that run on its behalf, and `owed` for the notifications on their way. */
module IngestQueue {
  import opened Common
  import M = IngestModel
  import opened IngestAccounting

  class BoundedIngestQueue {
    var limits: M.Limits
    var queued: seq<M.Item>
    var pendingIds: set<string>
    var idleWaiters: set<nat>
    var active: int
    var pendingBytes: int
    var spilling: int
    var overflowSpilled: nat
    var duplicateSuppressed: nat
    var processFailures: nat
    var jobs: seq<M.Job>
    var overflow: seq<M.Item>
    var owed: nat
    ghost var accepted: multiset<M.Item>
    ghost var processed: multiset<M.Item>
    ghost var spilled: multiset<M.Item>

    ghost function State(): M.State
      reads this
    {
      M.State(limits, queued, pendingIds, idleWaiters, active, pendingBytes, spilling, overflowSpilled,
              duplicateSuppressed, processFailures, jobs, overflow, owed, accepted, processed, spilled)
    }

    constructor (given: M.GivenLimits)
      ensures State() == M.Created(given)
    {
      limits := M.Normalize(given, M.Limits(1, 1, 1));
      queued, pendingIds, idleWaiters, active, pendingBytes, spilling := [], {}, {}, 0, 0, 0;
      overflowSpilled, duplicateSuppressed, processFailures, jobs, overflow, owed := 0, 0, 0, [], [], 0;
      accepted, processed, spilled := multiset{}, multiset{}, multiset{};
    }

    method Drain()
      modifies this`queued, this`active, this`jobs
      ensures State() == M.Drain(old(State()))
    {
      while active < limits.concurrency && queued != []
        invariant M.Drain(State()) == M.Drain(old(State()))
        decreases |queued|
      {
        StartOldest();
      }
    }

    method StartOldest()
      requires queued != []
      modifies this`queued, this`active, this`jobs
      ensures State() == M.Start(old(State()))
    {
      var item := queued[0];
      queued := queued[1..];
      active := active + 1;
      jobs := jobs + [M.Job(item, M.Processing)];
    }

    method NotifyIdleWaiters()
      modifies this`idleWaiters
      ensures State() == M.Notify(old(State()))
    {
      if queued == [] && active == 0 && spilling == 0 {
        idleWaiters := {};
      }
    }

    method Configure(given: M.GivenLimits)
      modifies this
      ensures State() == M.Next(old(State()), M.DoConfigure(given))
    {
      limits := M.Normalize(given, limits);
      Drain();
    }

    method Enqueue(id: string, value: string, bytes: real) returns (result: M.Result)
      modifies this
      ensures State() == M.Next(old(State()), M.DoEnqueue(id, value, bytes))
      ensures result == M.Answer(old(State()), id, bytes)
    {
      if id in pendingIds {
        duplicateSuppressed := duplicateSuppressed + 1;
        return M.Duplicate;
      }
      var item := M.Item(id, value, M.WholeBytes(bytes));
      if |queued| + active >= limits.maxPendingEvents || pendingBytes + item.bytes > limits.maxPendingBytes {
        SpillOverflow(item);
        return M.Spilled;
      }
      Push(item);
      Drain();
      return M.Queued;
    }

    /** The id is taken, whatever becomes of the item. */
    method Accept(item: M.Item)
      modifies this`pendingIds, this`accepted
      ensures pendingIds == old(pendingIds) + {item.id} && accepted == old(accepted) + multiset{item}
    {
      pendingIds := pendingIds + {item.id};
      accepted := accepted + multiset{item};
    }

    method Push(item: M.Item)
      modifies this`pendingIds, this`queued, this`pendingBytes, this`accepted
      ensures State() == Joined(old(State()), item)
    {
      Accept(item);
      queued := queued + [item];
      pendingBytes := pendingBytes + item.bytes;
    }

    method SpillOverflow(item: M.Item)
      modifies this`pendingIds, this`overflowSpilled, this`spilling, this`overflow, this`accepted, this`spilled
      ensures State() == Overflowed(old(State()), item)
    {
      Accept(item);
      BeginOverflowSpill(item);
    }

    method BeginOverflowSpill(item: M.Item)
      modifies this`overflowSpilled, this`spilling, this`overflow, this`spilled
      ensures overflowSpilled == old(overflowSpilled) + 1 && spilling == old(spilling) + 1
      ensures overflow == old(overflow) + [item] && spilled == old(spilled) + multiset{item}
    {
      overflowSpilled := overflowSpilled + 1;
      spilling := spilling + 1;
      overflow := overflow + [item];
      spilled := spilled + multiset{item};
    }

    /** The slot and the bytes of job `k` return. */
    method Return(k: nat)
      requires k < |jobs|
      modifies this
      ensures State() == M.Return(old(State()), k)
    {
      GiveBack(k);
      Drain();
      NotifyIdleWaiters();
    }

    method GiveBack(k: nat)
      requires k < |jobs|
      modifies this`jobs, this`active, this`pendingBytes
      ensures var s := old(State());
              State() == s.(jobs := Without(s.jobs, k), active := Max(0, s.active - 1),
                            pendingBytes := Max(0, s.pendingBytes - s.jobs[k].item.bytes))
    {
      var item := jobs[k].item;
      jobs := Without(jobs, k);
      active := Max(0, active - 1);
      pendingBytes := Max(0, pendingBytes - item.bytes);
    }

    method ProcessSettled(k: nat, ok: bool)
      requires k < |jobs| && jobs[k].stage.Processing?
      modifies this
      ensures State() == M.Next(old(State()), M.DoProcessed(k, ok))
    {
      var item := jobs[k].item;
      if ok {
        pendingIds := pendingIds - {item.id};
        processed := processed + multiset{item};
        Return(k);
      } else {
        SpillFailed(k);
      }
    }

    /** The item of a failed processing is spilled; its slot is still held. */
    method SpillFailed(k: nat)
      requires k < |jobs|
      modifies this`processFailures, this`spilling, this`jobs, this`spilled
      ensures processFailures == old(processFailures) + 1 && spilling == old(spilling) + 1
      ensures jobs == old(jobs)[k := M.Job(old(jobs)[k].item, M.Spilling)]
      ensures spilled == old(spilled) + multiset{old(jobs)[k].item}
    {
      var item := jobs[k].item;
      processFailures := processFailures + 1;
      spilling := spilling + 1;
      jobs := jobs[k := M.Job(item, M.Spilling)];
      spilled := spilled + multiset{item};
    }

    method FailureSpillSettled(k: nat)
      requires k < |jobs| && jobs[k].stage.Spilling?
      modifies this
      ensures State() == M.Next(old(State()), M.DoSpilled(k))
    {
      spilling := Max(0, spilling - 1);
      pendingIds := pendingIds - {jobs[k].item.id};
      jobs := jobs[k := M.Job(jobs[k].item, M.SpillDone)];
    }

    method SlotReturned(k: nat)
      requires k < |jobs| && jobs[k].stage.SpillDone?
      modifies this
      ensures State() == M.Next(old(State()), M.DoReturned(k))
    {
      Return(k);
    }

    method OverflowSpillSettled(k: nat)
      requires k < |overflow|
      modifies this
      ensures State() == M.Next(old(State()), M.DoOverflowSpilled(k))
    {
      spilling := Max(0, spilling - 1);
      pendingIds := pendingIds - {overflow[k].id};
      overflow := Without(overflow, k);
      owed := owed + 1;
    }

    /** The notification that follows an overflow spill. */
    method Notified()
      requires owed > 0
      modifies this
      ensures State() == M.Next(old(State()), M.DoNotify)
    {
      owed := owed - 1;
      NotifyIdleWaiters();
    }

    /** Whether the caller has to wait. */
    method WaitForIdle(waiter: nat) returns (waits: bool)
      modifies this`idleWaiters
      ensures State() == M.Next(old(State()), M.DoWait(waiter)) && waits == !M.IsIdle(old(State()))
    {
      waits := !(queued == [] && active == 0 && spilling == 0);
      if waits {
        idleWaiters := idleWaiters + {waiter};
      }
    }
  }
}
