/** The batcher as the program has it: one object, its queue spliced in place, its timer, and the rebuild and retry
    loops of a flush. Each method takes the machine to the state that its specification names, or along a run. */
module IlpBatcher {
  import opened Common
  import M = BatcherModel
  import opened BatcherSettlement

  /** What rows and the sender answer, call by call. */
  datatype Sender = Sender(writeOk: nat -> bool, outcome: nat -> M.Outcome)

  /** The step is the next one of a flush, or of draining, and rows and sender answer it by their call of this number. */
  predicate IsNext(s: M.State, step: M.Step, sender: Sender, call: nat) {
    match step
    case DoReset => M.At(s, M.Resetting)
    case DoWrite(ok) => InWriting(s) && ok == sender.writeOk(call)
    case DoFlush(outcome) => M.At(s, M.Sending) && outcome == sender.outcome(call)
    case DoFinish => M.At(s, M.Over)
    case DoClose => s.closed && s.flight.None? && s.pending != []
    case _ => false
  }

  /** Only a row that is written uses up a call. */
  function CallsAfter(step: M.Step, call: nat): nat {
    if step.DoWrite? then call + 1 else call
  }

  /** The steps follow each other so, from call number `call` on, and leave the call number `used`. */
  predicate Obeys(s: M.State, steps: seq<M.Step>, sender: Sender, call: nat, used: nat)
    decreases |steps|
  {
    if steps == [] then used == call
    else IsNext(s, steps[0], sender, call) && Obeys(M.Next(s, steps[0]), steps[1..], sender, CallsAfter(steps[0], call), used)
  }

  lemma {:induction false} ObeysBoth(
    s: M.State, a: seq<M.Step>, b: seq<M.Step>, sender: Sender, call: nat, mid: nat, used: nat)
    requires Obeys(s, a, sender, call, mid) && Obeys(M.Run(s, a), b, sender, mid, used)
    ensures Obeys(s, a + b, sender, call, used) && M.Run(s, a + b) == M.Run(M.Run(s, a), b)
    decreases |a|
  {
    if a == [] {
      assert a + b == b;
    } else {
      assert (a + b)[1..] == a[1..] + b;
      ObeysBoth(M.Next(s, a[0]), a[1..], b, sender, CallsAfter(a[0], call), mid, used);
    }
  }

  lemma ObeysOne(s: M.State, a: seq<M.Step>, step: M.Step, sender: Sender, call: nat, mid: nat)
    requires Obeys(s, a, sender, call, mid) && IsNext(M.Run(s, a), step, sender, mid)
    ensures Obeys(s, a + [step], sender, call, CallsAfter(step, mid))
    ensures M.Run(s, a + [step]) == M.Next(M.Run(s, a), step)
  {
    assert [step][1..] == [];
    ObeysBoth(s, a, [step], sender, call, mid, CallsAfter(step, mid));
  }

  /** What the loops rest on: room for a row in every batch, and a flush that is where its rows are. */
  predicate Sound(s: M.State) {
    && s.config.maxRows >= 1
    && (s.flight.Some? && s.flight.value.stage.Writing? ==> s.flight.value.stage.next < |s.flight.value.rows|)
  }

  lemma ScheduleSound(s: M.State)
    requires Sound(s)
    ensures Sound(M.Schedule(s))
  {
  }

  class QuestDbIlpBatcher {
    var config: M.Config
    var pending: seq<M.Row>
    var timer: Option<real>
    var deadline: Option<real>
    var flight: Option<M.Flight>
    var flushingRows: nat
    var flushingSince: Option<real>
    var buffer: seq<M.Mark>
    var closed: bool
    var clock: real
    var admitted: nat
    var counters: M.Counters
    ghost var log: seq<M.Event>

    ghost function State(): M.State
      reads this
    {
      M.State(config, pending, timer, deadline, flight, flushingRows, flushingSince, buffer, closed, clock, admitted,
              counters, log)
    }

    ghost predicate Valid()
      reads this
    {
      Sound(State())
    }

    constructor (given: M.GivenConfig)
      ensures Valid() && State() == M.Created(given)
    {
      config := M.Resolve(given);
      pending, timer, deadline, flight := [], None, None, None;
      flushingRows, flushingSince, buffer := 0, None, [];
      closed, clock, admitted, counters, log := false, 0.0, 0, M.Counters(0, 0, 0, 0, 0, 0), [];
    }

    method ClearTimer()
      modifies this`timer
      ensures timer == None
    {
      timer := None;
    }

    /** The earliest deadline, by one pass over the rows. */
    static method EarliestDeadline(rows: seq<M.Row>) returns (earliest: Option<real>)
      ensures earliest == M.Earliest(rows)
    {
      earliest := None;
      for i := 0 to |rows|
        invariant earliest == M.Earliest(rows[..i])
      {
        assert rows[..i + 1][..i] == rows[..i];
        earliest := M.Sooner(earliest, rows[i].flushAt);
      }
      assert rows[..|rows|] == rows;
    }

    /** A flush of these rows begins. */
    method BeginFlush(batch: seq<M.Row>)
      modifies this`counters, this`flushingRows, this`flushingSince, this`flight, this`log
      ensures counters == old(counters).(waitedRows := old(counters).waitedRows + |batch|) && flushingRows == |batch|
      ensures flushingSince == if batch == [] then None else Some(batch[0].enqueuedAt)
      ensures flight == Some(M.Flight(batch, batch, 1, M.Resetting)) && log == old(log) + [M.Taken(M.Ids(batch))]
    {
      counters := counters.(waitedRows := counters.waitedRows + |batch|);
      flushingRows := |batch|;
      flushingSince := if batch == [] then None else Some(batch[0].enqueuedAt);
      flight := Some(M.Flight(batch, batch, 1, M.Resetting));
      log := log + [M.Taken(M.Ids(batch))];
    }

    method FlushPending()
      modifies this
      ensures State() == M.FlushPending(old(State()))
    {
      if flight.Some? || pending == [] {
        return;
      }
      ClearTimer();
      var n := Min(|pending|, config.maxRows);
      var batch, rest := pending[..n], pending[n..];
      pending := rest;
      deadline := EarliestDeadline(rest);
      BeginFlush(batch);
    }

    method ScheduleFlush()
      modifies this
      ensures State() == M.Schedule(old(State()))
    {
      if pending == [] {
        return;
      }
      if |pending| >= config.maxRows {
        FlushPending();
        return;
      }
      if timer.Some? && deadline.Some? && timer.value <= deadline.value {
        return;
      }
      ClearTimer();
      timer := deadline;
    }

    method Enqueue(hint: M.Hint) returns (reply: M.Reply)
      requires Valid()
      modifies this
      ensures Valid() && reply == M.Answer(old(State()), hint) && State() == M.Next(old(State()), M.DoEnqueue(hint))
    {
      if hint.NotFinite? || (hint.Wait? && hint.ms <= 0.0) {
        return M.InvalidHint;
      }
      if closed {
        return M.Closed;
      }
      if |pending| + flushingRows >= config.maxPendingRows {
        return M.Full(config.maxPendingRows);
      }
      reply := M.Admitted(admitted);
      Push(hint);
      ScheduleSound(State());
      ScheduleFlush();
    }

    /** The new row joins the queue. */
    method Push(hint: M.Hint)
      modifies this`pending, this`deadline, this`admitted
      ensures State() == Joined(old(State()), M.NewRow(old(State()), hint))
    {
      var interval := config.flushIntervalMs as real;
      var flushAt := clock + if hint.Wait? then M.Earlier(interval, hint.ms) else interval;
      pending := pending + [M.Row(admitted, clock, flushAt)];
      deadline := M.Sooner(deadline, flushAt);
      admitted := admitted + 1;
    }

    method ShortenDeadlines()
      modifies this`pending
      ensures pending == M.ShortenAll(old(pending), config)
    {
      var before := pending;
      for i := 0 to |pending|
        invariant |pending| == |before| && pending[i..] == before[i..]
        invariant forall k :: 0 <= k < i ==> pending[k] == M.Shorten(before[k], config)
      {
        assert pending[i] == pending[i..][0] == before[i];
        var row := pending[i];
        pending := pending[i := row.(flushAt := M.Earlier(row.flushAt, row.enqueuedAt + config.flushIntervalMs as real))];
        assert pending[i + 1..] == before[i..][1..];
      }
    }

    method Configure(given: M.GivenConfig)
      requires Valid()
      modifies this
      ensures Valid() && State() == M.Next(old(State()), M.DoConfigure(given))
    {
      config := M.Resolve(given);
      Rearm();
      ScheduleSound(State());
      ScheduleFlush();
    }

    /** Every deadline is shortened to the configuration, and the timer is off. */
    method Rearm()
      modifies this`timer, this`pending, this`deadline
      ensures var rows := M.ShortenAll(old(pending), config);
              State() == old(State()).(timer := None, pending := rows, deadline := M.Earliest(rows))
    {
      ClearTimer();
      ShortenDeadlines();
      deadline := EarliestDeadline(pending);
    }

    method TimerFires()
      requires Valid()
      modifies this
      ensures Valid() && State() == M.Next(old(State()), M.DoTimer)
    {
      if timer.Some? {
        timer := None;
        FlushPending();
      }
    }

    method Snapshot() returns (age: Option<real>)
      ensures age == M.OldestAge(State())
    {
      if pending == [] && flushingSince.None? {
        return None;
      }
      var oldest := if pending == [] then flushingSince.value
                    else if flushingSince.None? then pending[0].enqueuedAt
                    else M.Earlier(pending[0].enqueuedAt, flushingSince.value);
      age := Some(if clock - oldest >= 0.0 then clock - oldest else 0.0);
    }

    // A flush.

    /** Reset the buffer for the rows that are left. */
    method ResetBuffer()
      requires Valid() && M.At(State(), M.Resetting)
      modifies this
      ensures Valid() && State() == M.Next(old(State()), M.DoReset)
    {
      if flight.value.rows == [] {
        flight := Some(flight.value.(stage := M.Over));
      } else {
        buffer := [];
        flight := Some(flight.value.(stage := M.Writing(0)));
      }
    }

    /** One row writes itself into the buffer, or is rejected and taken out. */
    method WriteRow(ok: bool)
      requires Valid() && InWriting(State())
      modifies this
      ensures Valid() && State() == M.Next(old(State()), M.DoWrite(ok))
    {
      var f, k := flight.value, flight.value.stage.next;
      if ok {
        buffer := buffer + [M.Whole(f.rows[k].id)];
        flight := Some(f.(stage := if k + 1 == |f.rows| then M.Sending else M.Writing(k + 1)));
      } else {
        buffer := buffer + [M.Torn(f.rows[k].id)];
        counters := counters.(rejectedRows := counters.rejectedRows + 1);
        log := log + [M.Rejected(f.rows[k].id)];
        flight := Some(f.(rows := Without(f.rows, k), stage := M.Resetting));
      }
    }

    /** What is left of the current rebuild: number of rows, then writes. */
    ghost function WorkLeft(): (nat, nat)
      reads this
    {
      if flight.None? then (0, 0)
      else (|flight.value.rows|,
            match flight.value.stage
            case Resetting => |flight.value.rows| + 2
            case Writing(k) => if k <= |flight.value.rows| then |flight.value.rows| - k + 1 else 0
            case _ => 0)
    }

    /** One turn of the rebuild: the buffer is reset, or the next row written. */
    method Rebuild(sender: Sender, calls: nat) returns (used: nat, ghost step: M.Step)
      requires Valid() && flight.Some? && (flight.value.stage.Resetting? || flight.value.stage.Writing?)
      modifies this
      ensures Valid() && State() == M.Next(old(State()), step) && IsNext(old(State()), step, sender, calls)
      ensures used == CallsAfter(step, calls)
      ensures flight.Some? && flight.value.attempt == old(flight).value.attempt && pending == old(pending)
      ensures closed == old(closed) && admitted == old(admitted)
      ensures M.At(State(), M.Over) ==> flight.value.rows == []
      ensures WorkLeft().0 < old(WorkLeft()).0
              || (WorkLeft().0 == old(WorkLeft()).0 && WorkLeft().1 < old(WorkLeft()).1)
    {
      if flight.value.stage.Resetting? {
        used, step := calls, M.DoReset;
        ResetBuffer();
      } else {
        var ok := sender.writeOk(calls);
        used, step := calls + 1, M.DoWrite(ok);
        WriteRow(ok);
      }
    }

    /** The rebuild loop: whenever a row poisons the buffer, start over without it. It ends with every surviving row
        in the buffer, or without rows. */
    method AppendRows(sender: Sender, calls: nat) returns (used: nat, ghost steps: seq<M.Step>)
      requires Valid() && flight.Some? && (flight.value.stage.Resetting? || flight.value.stage.Writing?)
      modifies this
      ensures Valid() && State() == M.Run(old(State()), steps) && Obeys(old(State()), steps, sender, calls, used)
      ensures flight.Some? && flight.value.attempt == old(flight).value.attempt && pending == old(pending)
      ensures closed == old(closed) && admitted == old(admitted)
      ensures M.At(State(), M.Sending) || (M.At(State(), M.Over) && flight.value.rows == [])
    {
      used, steps := calls, [];
      while flight.value.stage.Resetting? || flight.value.stage.Writing?
        invariant Valid() && State() == M.Run(old(State()), steps) && Obeys(old(State()), steps, sender, calls, used)
        invariant flight.Some? && flight.value.attempt == old(flight).value.attempt && pending == old(pending)
        invariant closed == old(closed) && admitted == old(admitted)
        invariant M.At(State(), M.Over) ==> flight.value.rows == []
        decreases WorkLeft().0, WorkLeft().1
      {
        ghost var before, mid := steps, used;
        ghost var step;
        used, step := Rebuild(sender, used);
        ObeysOne(old(State()), before, step, sender, calls, mid);
        steps := before + [step];
      }
    }

    /** The flush itself and what its answer settles. */
    method SendBuffer(outcome: M.Outcome)
      requires Valid() && M.At(State(), M.Sending)
      modifies this
      ensures Valid() && State() == M.Next(old(State()), M.DoFlush(outcome))
    {
      var f := flight.value;
      log := log + [M.Flushed(buffer, outcome)];
      if outcome.Sent? {
        counters := counters.(successfulFlushes := counters.successfulFlushes + 1,
                              maxBatchRows := Max(counters.maxBatchRows, |f.rows|));
        log := log + M.Settlements(f.rows, true);
        flight := Some(f.(stage := M.Over));
      } else if f.attempt < M.ATTEMPTS && outcome.retryable {
        counters := counters.(retriedFlushes := counters.retriedFlushes + 1);
        flight := Some(f.(attempt := f.attempt + 1, stage := M.Resetting));
      } else {
        counters := counters.(failedFlushes := counters.failedFlushes + 1,
                              rejectedRows := counters.rejectedRows + |f.rows|);
        log := log + M.Settlements(f.rows, false);
        flight := Some(f.(stage := M.Over));
      }
    }

    /** Up to three attempts, each with a rebuilt buffer, from wherever the flush stands. */
    method FlushBatch(sender: Sender, calls: nat) returns (used: nat, ghost steps: seq<M.Step>)
      requires Valid() && flight.Some?
      modifies this
      ensures Valid() && State() == M.Run(old(State()), steps) && Obeys(old(State()), steps, sender, calls, used)
      ensures M.At(State(), M.Over) && pending == old(pending) && closed == old(closed) && admitted == old(admitted)
    {
      used, steps := calls, [];
      while !flight.value.stage.Over?
        invariant Valid() && State() == M.Run(old(State()), steps) && Obeys(old(State()), steps, sender, calls, used)
        invariant flight.Some? && pending == old(pending) && closed == old(closed) && admitted == old(admitted)
        decreases M.ATTEMPTS - flight.value.attempt,
                  if flight.value.stage.Over? then 0 else if flight.value.stage.Sending? then 1 else 2
      {
        if flight.value.stage.Sending? {
          var outcome := sender.outcome(used);
          ObeysOne(old(State()), steps, M.DoFlush(outcome), sender, calls, used);
          steps := steps + [M.DoFlush(outcome)];
          SendBuffer(outcome);
        } else {
          ghost var before, mid := steps, used;
          ghost var more;
          used, more := AppendRows(sender, used);
          ObeysBoth(old(State()), before, more, sender, calls, mid, used);
          steps := before + more;
        }
      }
    }

    method FinishFlush()
      requires Valid() && M.At(State(), M.Over)
      modifies this
      ensures Valid() && State() == M.Next(old(State()), M.DoFinish)
    {
      flight, flushingRows, flushingSince := None, 0, None;
      ScheduleFlush();
    }

    /** Draining: it ends, with no row waiting and no flush running, and admits no row afterwards. */
    method Close(sender: Sender) returns (used: nat, ghost steps: seq<M.Step>)
      requires Valid()
      modifies this
      ensures Valid() && State() == M.Run(M.Close(old(State())), steps)
      ensures Obeys(M.Close(old(State())), steps, sender, 0, used)
      ensures closed && pending == [] && flight == None && admitted == old(admitted)
    {
      StartDraining();
      used, steps := 0, [];
      ghost var start := State();
      while flight.Some? || pending != []
        invariant Valid() && State() == M.Run(start, steps) && Obeys(start, steps, sender, 0, used)
        invariant closed && admitted == old(admitted)
        decreases 2 * |pending| + if flight.Some? then 1 else 0
      {
        if flight.Some? {
          ghost var before, mid := steps, used;
          ghost var more;
          used, more := FlushToTheEnd(sender, used);
          ObeysBoth(start, before, more, sender, 0, mid, used);
          steps := before + more;
        } else {
          ObeysOne(start, steps, M.DoClose, sender, 0, used);
          StartDraining();
          steps := steps + [M.DoClose];
        }
      }
    }

    /** The running flush, and what its end starts. */
    method FlushToTheEnd(sender: Sender, calls: nat) returns (used: nat, ghost steps: seq<M.Step>)
      requires Valid() && flight.Some?
      modifies this
      ensures Valid() && State() == M.Run(old(State()), steps) && Obeys(old(State()), steps, sender, calls, used)
      ensures closed == old(closed) && admitted == old(admitted)
      ensures |pending| < |old(pending)| || (pending == old(pending) && flight == None)
    {
      used, steps := FlushBatch(sender, calls);
      ObeysOne(old(State()), steps, M.DoFinish, sender, calls, used);
      FinishFlush();
      steps := steps + [M.DoFinish];
    }

    /** Refuse new rows, and flush what waits if no flush is running. */
    method StartDraining()
      requires Valid()
      modifies this
      ensures Valid() && State() == M.Next(old(State()), M.DoClose)
    {
      closed := true;
      ClearTimer();
      FlushPending();
    }
  }
}
