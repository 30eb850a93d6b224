/** The batcher's diagnostics count what happened, and no batch is sent more than three times. */
module BatcherCounters {
  import opened Common
  import opened BatcherModel
  import opened BatcherSettlement

  function Successes(log: seq<Event>): nat {
    if log == [] then 0
    else Successes(log[..|log| - 1]) + if log[|log| - 1].Flushed? && log[|log| - 1].outcome.Sent? then 1 else 0
  }

  /** How often the latest batch was sent to the destination. */
  function Attempts(log: seq<Event>): nat {
    if log == [] || log[|log| - 1].Taken? then 0
    else Attempts(log[..|log| - 1]) + if log[|log| - 1].Flushed? then 1 else 0
  }

  /** The last event is a failed flush that is tried again: the failure may pass, and the batch was not yet sent as often
      as it may be. */
  predicate EndsInRetry(log: seq<Event>) {
    log != [] && log[|log| - 1].Flushed? && log[|log| - 1].outcome == Failed(true) && Attempts(log) < ATTEMPTS
  }

  function Retries(log: seq<Event>): nat {
    if log == [] then 0 else Retries(log[..|log| - 1]) + if EndsInRetry(log) then 1 else 0
  }

  /** Failed flushes that were not. */
  function Failures(log: seq<Event>): nat {
    if log == [] then 0
    else Failures(log[..|log| - 1])
         + if log[|log| - 1].Flushed? && log[|log| - 1].outcome.Failed? && !EndsInRetry(log) then 1 else 0
  }

  function LargestSent(log: seq<Event>): nat {
    if log == [] then 0
    else
      var e := log[|log| - 1];
      if e.Flushed? && e.outcome.Sent? then Max(LargestSent(log[..|log| - 1]), |e.buffer|) else LargestSent(log[..|log| - 1])
  }

  ghost predicate Tallied(s: State) {
    && s.counters.successfulFlushes == Successes(s.log)
    && s.counters.failedFlushes == Failures(s.log)
    && s.counters.retriedFlushes == Retries(s.log)
    && s.counters.waitedRows == |TakenIds(s.log)|
    && s.counters.maxBatchRows == LargestSent(s.log)
    && Attempts(s.log) <= ATTEMPTS
    && (s.flight.Some? && !s.flight.value.stage.Over? ==>
          Attempts(s.log) == s.flight.value.attempt - 1 && s.flight.value.attempt <= ATTEMPTS)
  }

  lemma AppendCounts(log: seq<Event>, e: Event)
    ensures Successes(log + [e]) == Successes(log) + if e.Flushed? && e.outcome.Sent? then 1 else 0
    ensures var again := e.Flushed? && e.outcome == Failed(true) && Attempts(log) + 1 < ATTEMPTS;
            && Retries(log + [e]) == Retries(log) + (if again then 1 else 0)
            && Failures(log + [e]) == Failures(log) + if e.Flushed? && e.outcome.Failed? && !again then 1 else 0
    ensures Attempts(log + [e]) == if e.Taken? then 0 else Attempts(log) + if e.Flushed? then 1 else 0
    ensures LargestSent(log + [e]) == if e.Flushed? && e.outcome.Sent? then Max(LargestSent(log), |e.buffer|) else LargestSent(log)
  {
    Split(log, e);
  }

  lemma {:induction false} SettlementsCountNothing(log: seq<Event>, rows: seq<Row>, ok: bool)
    ensures var next := log + Settlements(rows, ok);
            && Successes(next) == Successes(log) && Retries(next) == Retries(log) && Failures(next) == Failures(log)
            && Attempts(next) == Attempts(log) && LargestSent(next) == LargestSent(log)
  {
    if rows == [] {
      assert log + Settlements(rows, ok) == log;
    } else {
      var n := |rows| - 1;
      SettlementsCountNothing(log, rows[..n], ok);
      LastSettlement(log, rows, ok);
      AppendCounts(log + Settlements(rows[..n], ok), Settlement(rows[n], ok));
    }
  }

  lemma FlushPendingTallies(s: State)
    requires Tallied(s)
    ensures Tallied(FlushPending(s))
  {
    if s.flight.None? && s.pending != [] {
      var e := Taken(Ids(FlushPending(s).flight.value.batch));
      AppendCounts(s.log, e);
      AppendReads(s.log, e);
    }
  }

  lemma ScheduleTallies(s: State)
    requires Tallied(s)
    ensures Tallied(Schedule(s))
  {
    FlushPendingTallies(s);
  }

  lemma EnqueueTallies(s: State, hint: Hint)
    requires Tallied(s)
    ensures Tallied(Enqueue(s, hint))
  {
    ScheduleTallies(Joined(s, NewRow(s, hint)));
  }

  lemma ConfigureTallies(s: State, given: GivenConfig)
    requires Tallied(s)
    ensures Tallied(Configure(s, given))
  {
    var rows := ShortenAll(s.pending, Resolve(given));
    ScheduleTallies(s.(config := Resolve(given), timer := None, pending := rows, deadline := Earliest(rows)));
  }

  lemma WriteTallies(s: State, ok: bool)
    requires Tallied(s)
    ensures Tallied(Write(s, ok))
  {
    if InWriting(s) && !ok {
      var e := Rejected(s.flight.value.rows[s.flight.value.stage.next].id);
      AppendCounts(s.log, e);
      AppendReads(s.log, e);
    }
  }

  lemma FlushTallies(s: State, outcome: Outcome)
    requires Tallied(s) && Carried(s)
    ensures Tallied(Flush(s, outcome))
  {
    if At(s, Sending) {
      var rows, e := s.flight.value.rows, Flushed(s.buffer, outcome);
      AppendCounts(s.log, e);
      AppendReads(s.log, e);
      assert |s.buffer| == |rows|;
      SettlementsCountNothing(s.log + [e], rows, outcome.Sent?);
      SettlementsTakeNothing(s.log + [e], rows, outcome.Sent?);
    }
  }

  lemma NextTallies(s: State, step: Step)
    requires Tallied(s) && Carried(s)
    ensures Tallied(Next(s, step))
  {
    match step
    case DoEnqueue(hint) => EnqueueTallies(s, hint);
    case DoConfigure(given) => ConfigureTallies(s, given);
    case DoTimer => FlushPendingTallies(s.(timer := None));
    case DoReset =>
    case DoWrite(ok) => WriteTallies(s, ok);
    case DoFlush(outcome) => FlushTallies(s, outcome);
    case DoFinish => ScheduleTallies(s.(flight := None, flushingRows := 0, flushingSince := None));
    case DoClose => FlushPendingTallies(s.(closed := true, timer := None));
    case DoWait(_) =>
  }

  lemma {:induction false} RunTallies(s: State, steps: seq<Step>)
    requires Tallied(s) && Settling(s) && s.config.maxRows >= 1
    ensures Tallied(Run(s, steps))
    decreases |steps|
  {
    if steps != [] {
      NextTallies(s, steps[0]);
      NextSettles(s, steps[0]);
      NextConfig(s, steps[0]);
      RunTallies(Next(s, steps[0]), steps[1..]);
    }
  }

  /** In every run the counters agree with the history, and the latest batch was sent at most three times. */
  lemma DiagnosticsAreExact(given: GivenConfig, steps: seq<Step>)
    ensures var s := Run(Created(given), steps);
            && s.counters.successfulFlushes == Successes(s.log)
            && s.counters.failedFlushes == Failures(s.log)
            && s.counters.retriedFlushes == Retries(s.log)
            && s.counters.waitedRows == |TakenIds(s.log)|
            && s.counters.maxBatchRows == LargestSent(s.log)
            && Attempts(s.log) <= ATTEMPTS
  {
    CreatedSettles(given);
    RunTallies(Created(given), steps);
  }
}
