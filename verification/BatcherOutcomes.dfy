/** How the batcher decides: who is admitted, when a flush begins and with which rows, and what its outcome settles. */
module BatcherOutcomes {
  import opened Common
  import opened BatcherModel
  import opened BatcherSettlement
  import opened BatcherCounters

  // Outcomes.

  ghost predicate Reached(s: State) {
    Tallied(s) && Settling(s)
  }

  lemma RunReaches(given: GivenConfig, steps: seq<Step>)
    ensures Reached(Run(Created(given), steps))
  {
    CreatedSettles(given);
    RunSettles(Created(given), steps);
    RunTallies(Created(given), steps);
  }

  lemma SendingHolds(s: State, retryable: bool)
    requires Tallied(s) && Carried(s) && At(s, Sending)
    ensures s.buffer == Wholes(Ids(s.flight.value.rows))
    ensures Attempts(s.log + [Flushed(s.buffer, Failed(retryable))]) == s.flight.value.attempt <= 3
  {
    AppendCounts(s.log, Flushed(s.buffer, Failed(retryable)));
  }

  /** The rows are rejected, in their order, behind the log. */
  predicate RejectsAll(log: seq<Event>, next: seq<Event>, rows: seq<Row>) {
    && |next| == |log| + |rows| && next[..|log|] == log
    && forall k :: 0 <= k < |rows| ==> next[|log| + k] == Rejected(rows[k].id)
  }

  lemma LastFailure(s: State, retryable: bool)
    requires At(s, Sending) && (!retryable || s.flight.value.attempt >= 3)
    ensures var next, rows := Next(s, DoFlush(Failed(retryable))), s.flight.value.rows;
            && RejectsAll(s.log + [Flushed(s.buffer, Failed(retryable))], next.log, rows)
            && next == s.(flight := Some(s.flight.value.(stage := Over)), log := next.log,
                          counters := s.counters.(failedFlushes := s.counters.failedFlushes + 1,
                                                  rejectedRows := s.counters.rejectedRows + |rows|))
  {
    var log := s.log + [Flushed(s.buffer, Failed(retryable))];
    assert Next(s, DoFlush(Failed(retryable))).log == log + Settlements(s.flight.value.rows, false);
  }

  lemma PassingFailure(s: State)
    requires At(s, Sending) && s.flight.value.attempt < 3
    ensures var f := s.flight.value;
            Next(s, DoFlush(Failed(true)))
            == s.(flight := Some(Flight(f.batch, f.rows, f.attempt + 1, Resetting)),
                  log := s.log + [Flushed(s.buffer, Failed(true))],
                  counters := s.counters.(retriedFlushes := s.counters.retriedFlushes + 1))
  {
  }

  /** A flush that failed is the last one of its batch exactly if the failure is permanent or the batch was then sent
      three times. The last one rejects exactly the rows that it carried, in their order; any other settles nothing, and
      the same rows are sent again. */
  lemma FailedFlushExactly(given: GivenConfig, steps: seq<Step>, retryable: bool)
    requires At(Run(Created(given), steps), Sending)
    ensures var s := Run(Created(given), steps);
            var next, f := Next(s, DoFlush(Failed(retryable))), s.flight.value;
            var log := s.log + [Flushed(Wholes(Ids(f.rows)), Failed(retryable))];
            if !retryable || Attempts(log) == 3 then
              && RejectsAll(log, next.log, f.rows)
              && next == s.(flight := Some(f.(stage := Over)), log := next.log,
                            counters := s.counters.(failedFlushes := s.counters.failedFlushes + 1,
                                                    rejectedRows := s.counters.rejectedRows + |f.rows|))
            else
              && Attempts(log) < 3
              && next == s.(flight := Some(Flight(f.batch, f.rows, Attempts(log) + 1, Resetting)), log := log,
                            counters := s.counters.(retriedFlushes := s.counters.retriedFlushes + 1))
  {
    var s := Run(Created(given), steps);
    RunReaches(given, steps);
    SendingHolds(s, retryable);
    if !retryable || s.flight.value.attempt >= 3 {
      LastFailure(s, retryable);
    } else {
      PassingFailure(s);
    }
  }

  /** A flush that was sent resolves exactly the rows that it carried, in their order. */
  lemma SentFlushExactly(given: GivenConfig, steps: seq<Step>)
    requires At(Run(Created(given), steps), Sending)
    ensures var s := Run(Created(given), steps);
            var next, rows := Next(s, DoFlush(Sent)), s.flight.value.rows;
            var log := s.log + [Flushed(Wholes(Ids(rows)), Sent)];
            && |next.log| == |log| + |rows| && next.log[..|log|] == log
            && (forall k :: 0 <= k < |rows| ==> next.log[|log| + k] == Resolved(rows[k].id))
            && next.flight == Some(s.flight.value.(stage := Over))
            && next.counters == s.counters.(successfulFlushes := s.counters.successfulFlushes + 1,
                                            maxBatchRows := Max(s.counters.maxBatchRows, |rows|))
            && next.pending == s.pending && next.flushingRows == s.flushingRows
  {
    RunReaches(given, steps);
    SendingHolds(Run(Created(given), steps), false);
  }

  /** The write of a row settles nothing if it succeeds; if it fails it rejects that row and no other, and the buffer is
      built again from the rest. */
  lemma WriteExactly(s: State, ok: bool, k: nat)
    requires s.flight.Some? && s.flight.value.stage == Writing(k) && k < |s.flight.value.rows|
    ensures var next, f := Next(s, DoWrite(ok)), s.flight.value;
            && (ok ==> next == s.(buffer := s.buffer + [Whole(f.rows[k].id)],
                                  flight := Some(f.(stage := if k == |f.rows| - 1 then Sending else Writing(k + 1)))))
            && (!ok ==>
                  && next.log == s.log + [Rejected(f.rows[k].id)]
                  && next.buffer == s.buffer + [Torn(f.rows[k].id)]
                  && next.flight == Some(f.(rows := f.rows[..k] + f.rows[k + 1..], stage := Resetting))
                  && next.counters == s.counters.(rejectedRows := s.counters.rejectedRows + 1)
                  && next.pending == s.pending)
  {
  }

  // Admission.

  /** The slots that a flush holds are those of the rows it took. */
  ghost predicate Slotted(s: State) {
    && ValidConfig(s.config)
    && s.flushingRows == (if s.flight.Some? then |s.flight.value.batch| else 0)
    && (s.flight.None? ==> |s.pending| < s.config.maxRows)
  }

  lemma FlushPendingSlots(s: State)
    requires ValidConfig(s.config) && s.flushingRows == (if s.flight.Some? then |s.flight.value.batch| else 0)
    ensures Slotted(FlushPending(s))
  {
  }

  lemma ScheduleSlots(s: State)
    requires ValidConfig(s.config) && s.flushingRows == (if s.flight.Some? then |s.flight.value.batch| else 0)
    ensures Slotted(Schedule(s))
  {
    FlushPendingSlots(s);
  }

  lemma NextSlots(s: State, step: Step)
    requires Slotted(s)
    ensures Slotted(Next(s, step))
  {
    match step
    case DoEnqueue(hint) =>
      var row := NewRow(s, hint);
      ScheduleSlots(s.(pending := s.pending + [row], deadline := Sooner(s.deadline, row.flushAt), admitted := s.admitted + 1));
    case DoConfigure(given) =>
      var rows := ShortenAll(s.pending, Resolve(given));
      ScheduleSlots(s.(config := Resolve(given), timer := None, pending := rows, deadline := Earliest(rows)));
    case DoTimer => FlushPendingSlots(s.(timer := None));
    case DoFinish =>
      if At(s, Over) {
        ScheduleSlots(s.(flight := None, flushingRows := 0, flushingSince := None));
      }
    case DoClose => FlushPendingSlots(s.(closed := true, timer := None));
    case DoReset =>
    case DoWrite(_) =>
    case DoFlush(_) =>
    case DoWait(_) =>
  }

  lemma {:induction false} RunSlots(s: State, steps: seq<Step>)
    requires Slotted(s)
    ensures Slotted(Run(s, steps))
    decreases |steps|
  {
    if steps != [] {
      NextSlots(s, steps[0]);
      RunSlots(Next(s, steps[0]), steps[1..]);
    }
  }

  /** A full batch does not wait: in every run, while no flush is under way fewer rows wait than a batch may have. */
  lemma FullBatchesFly(given: GivenConfig, steps: seq<Step>)
    ensures var s := Run(Created(given), steps);
            s.flight.None? ==> |s.pending| < s.config.maxRows
  {
    RunSlots(Created(given), steps);
  }

  /** In every run a row is admitted exactly if its hint is absent or positive, the batcher is open, and the waiting rows
      and those of the running batch leave room; and what the other answers are. */
  lemma AnswerExactly(given: GivenConfig, steps: seq<Step>, hint: Hint)
    ensures var s := Run(Created(given), steps);
            var valid := hint.NoHint? || (hint.Wait? && hint.ms > 0.0);
            var held := |s.pending| + if s.flight.Some? then |s.flight.value.batch| else 0;
            && (Answer(s, hint) == InvalidHint <==> !valid)
            && (Answer(s, hint) == Closed <==> valid && s.closed)
            && (Answer(s, hint).Full? <==> valid && !s.closed && held >= s.config.maxPendingRows)
            && (Answer(s, hint).Admitted? <==> valid && !s.closed && held < s.config.maxPendingRows)
            && (Answer(s, hint).Admitted? ==> Answer(s, hint).id == s.admitted)
            && (Answer(s, hint).Full? ==> Answer(s, hint).capacity == s.config.maxPendingRows)
            && (!Answer(s, hint).Admitted? ==> Next(s, DoEnqueue(hint)) == s)
  {
    RunSlots(Created(given), steps);
  }

  /** A flush begins with the oldest rows, as many as a batch may have. */
  lemma BatchIsTheOldest(s: State)
    requires s.flight.None? && s.pending != [] && s.config.maxRows >= 1
    ensures var next := FlushPending(s);
            && next.flight.Some?
            && var f := next.flight.value;
               && f.batch + next.pending == s.pending && |f.batch| == Min(|s.pending|, s.config.maxRows)
               && f.rows == f.batch && f.attempt == 1 && f.stage == Resetting
               && next.flushingSince == Some(s.pending[0].enqueuedAt)
               && next.log == s.log + [Taken(Ids(f.batch))]
  {
  }

  /** The timer begins a flush of what waits, closing does so too, and neither beside a running one. */
  lemma TimerAndClose(s: State)
    ensures s.timer.Some? && s.flight.None? && s.pending != [] && s.config.maxRows >= 1 ==> Next(s, DoTimer).flight.Some?
    ensures s.flight.None? && s.pending != [] && s.config.maxRows >= 1 ==> Next(s, DoClose).flight.Some?
    ensures s.flight.Some? ==> Next(s, DoTimer).flight == s.flight && Next(s, DoClose).flight == s.flight
    ensures Next(s, DoClose).closed && Next(s, DoTimer).closed == s.closed
    ensures s.timer.None? ==> Next(s, DoTimer) == s
  {
  }

  /** A configuration is taken over value by value: a positive integer as it is, anything else as its default; and the
      queue has room for one batch. */
  lemma ConfigurationExactly(given: GivenConfig)
    ensures var c := Resolve(given);
            && c.flushIntervalMs == (if given.flushIntervalMs.Some? && given.flushIntervalMs.value > 0
                                     then given.flushIntervalMs.value else 1000)
            && c.maxRows == (if given.maxRows.Some? && given.maxRows.value > 0 then given.maxRows.value else 512)
            && c.maxPendingRows == Max(c.maxRows, if given.maxPendingRows.Some? && given.maxPendingRows.value > 0
                                                  then given.maxPendingRows.value else 2048)
  {
  }
}
