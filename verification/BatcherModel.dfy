/** The batcher in front of the one sender buffer, as a state machine. One step per code section that runs without
    yielding; what a row's write and a flush answer, and how much time passes, are parameters of the step. */
module BatcherModel {
  import opened Common

  datatype Config = Config(flushIntervalMs: nat, maxRows: nat, maxPendingRows: nat)

  /** A configuration as it was given; None stands for a value that is not an integer. */
  datatype GivenConfig = GivenConfig(flushIntervalMs: Option<int>, maxRows: Option<int>, maxPendingRows: Option<int>)

  const DEFAULT_CONFIG: Config := Config(1000, 512, 2048)
  const ATTEMPTS: nat := 3

  /** A row has no identity in the program beyond its object; the number counts the admitted rows. */
  datatype Row = Row(id: nat, enqueuedAt: real, flushAt: real)

  /** What one row left in the sender buffer. A write that fails may leave part of a row. */
  datatype Mark = Whole(id: nat) | Torn(id: nat)

  datatype Stage = Resetting | Writing(next: nat) | Sending | Over

  /** A running flush: the rows it took, those that it still carries, and where it is. */
  datatype Flight = Flight(batch: seq<Row>, rows: seq<Row>, attempt: nat, stage: Stage)

  datatype Event =
    | Taken(ids: seq<nat>)
    | Flushed(buffer: seq<Mark>, outcome: Outcome)
    | Resolved(id: nat)
    | Rejected(id: nat)

  datatype Counters = Counters(
    successfulFlushes: nat, failedFlushes: nat, retriedFlushes: nat, rejectedRows: nat, maxBatchRows: nat,
    waitedRows: nat)

  datatype State = State(
    config: Config, pending: seq<Row>, timer: Option<real>, deadline: Option<real>, flight: Option<Flight>,
    flushingRows: nat, flushingSince: Option<real>, buffer: seq<Mark>, closed: bool, clock: real, admitted: nat,
    counters: Counters, log: seq<Event>)

  datatype Hint = NoHint | NotFinite | Wait(ms: real)

  datatype Reply = InvalidHint | Closed | Full(capacity: nat) | Admitted(id: nat)

  type Duration = d: real | d >= 0.0

  datatype Outcome = Sent | Failed(retryable: bool)

  datatype Step =
    | DoEnqueue(hint: Hint)
    | DoConfigure(given: GivenConfig)
    | DoTimer
    | DoReset
    | DoWrite(ok: bool)
    | DoFlush(outcome: Outcome)
    | DoFinish
    | DoClose
    | DoWait(elapsed: Duration)

  // Configuration.

  function Positive(value: Option<int>, fallback: nat): nat {
    match value
    case Some(v) => if v > 0 then v else fallback
    case None => fallback
  }

  function Resolve(given: GivenConfig): (c: Config)
    ensures ValidConfig(c)
  {
    var maxRows := Positive(given.maxRows, DEFAULT_CONFIG.maxRows);
    Config(Positive(given.flushIntervalMs, DEFAULT_CONFIG.flushIntervalMs), maxRows,
           Max(maxRows, Positive(given.maxPendingRows, DEFAULT_CONFIG.maxPendingRows)))
  }

  predicate ValidConfig(c: Config) {
    1 <= c.flushIntervalMs && 1 <= c.maxRows <= c.maxPendingRows
  }

  function Created(given: GivenConfig): State {
    State(Resolve(given), [], None, None, None, 0, None, [], false, 0.0, 0, Counters(0, 0, 0, 0, 0, 0), [])
  }

  // Deadlines.

  function Earlier(a: real, b: real): real {
    if a <= b then a else b
  }

  function Sooner(deadline: Option<real>, at: real): Option<real> {
    Some(if deadline.Some? then Earlier(deadline.value, at) else at)
  }

  /** The earliest deadline of the rows; None is infinity. */
  function Earliest(rows: seq<Row>): Option<real> {
    if rows == [] then None else Sooner(Earliest(rows[..|rows| - 1]), rows[|rows| - 1].flushAt)
  }

  function Shorten(row: Row, config: Config): Row {
    row.(flushAt := Earlier(row.flushAt, row.enqueuedAt + config.flushIntervalMs as real))
  }

  function ShortenAll(rows: seq<Row>, config: Config): (r: seq<Row>)
    ensures |r| == |rows| && forall i :: 0 <= i < |r| ==> r[i] == Shorten(rows[i], config)
  {
    seq(|rows|, i requires 0 <= i < |rows| => Shorten(rows[i], config))
  }

  function Ids(rows: seq<Row>): (r: seq<nat>)
    ensures |r| == |rows| && forall i :: 0 <= i < |r| ==> r[i] == rows[i].id
  {
    seq(|rows|, i requires 0 <= i < |rows| => rows[i].id)
  }

  function Wholes(ids: seq<nat>): (r: seq<Mark>)
    ensures |r| == |ids| && forall i :: 0 <= i < |r| ==> r[i] == Whole(ids[i])
  {
    seq(|ids|, i requires 0 <= i < |ids| => Whole(ids[i]))
  }

  function Settlement(row: Row, ok: bool): Event {
    if ok then Resolved(row.id) else Rejected(row.id)
  }

  function Settlements(rows: seq<Row>, ok: bool): (r: seq<Event>)
    ensures |r| == |rows| && forall i :: 0 <= i < |r| ==> r[i] == Settlement(rows[i], ok)
  {
    seq(|rows|, i requires 0 <= i < |rows| => Settlement(rows[i], ok))
  }

  // Starting a flush.

  function FlushPending(s: State): State {
    if s.flight.Some? || s.pending == [] then s
    else
      var n := Min(|s.pending|, s.config.maxRows);
      var batch, rest := s.pending[..n], s.pending[n..];
      s.(timer := None, pending := rest, deadline := Earliest(rest),
         counters := s.counters.(waitedRows := s.counters.waitedRows + n),
         flushingRows := n, flushingSince := if batch == [] then None else Some(batch[0].enqueuedAt),
         flight := Some(Flight(batch, batch, 1, Resetting)),
         log := s.log + [Taken(Ids(batch))])
  }

  function Schedule(s: State): State {
    if s.pending == [] then s
    else if |s.pending| >= s.config.maxRows then FlushPending(s)
    else if s.timer.Some? && s.deadline.Some? && s.timer.value <= s.deadline.value then s
    else s.(timer := s.deadline)
  }

  // The public operations.

  function Answer(s: State, hint: Hint): Reply {
    if hint.NotFinite? || (hint.Wait? && hint.ms <= 0.0) then InvalidHint
    else if s.closed then Closed
    else if |s.pending| + s.flushingRows >= s.config.maxPendingRows then Full(s.config.maxPendingRows)
    else Admitted(s.admitted)
  }

  function NewRow(s: State, hint: Hint): Row {
    var interval := s.config.flushIntervalMs as real;
    Row(s.admitted, s.clock, s.clock + if hint.Wait? then Earlier(interval, hint.ms) else interval)
  }

  function Enqueue(s: State, hint: Hint): State {
    if !Answer(s, hint).Admitted? then s
    else
      var row := NewRow(s, hint);
      Schedule(s.(pending := s.pending + [row], deadline := Sooner(s.deadline, row.flushAt), admitted := s.admitted + 1))
  }

  function Configure(s: State, given: GivenConfig): State {
    var config := Resolve(given);
    var rows := ShortenAll(s.pending, config);
    Schedule(s.(config := config, timer := None, pending := rows, deadline := Earliest(rows)))
  }

  function TimerFires(s: State): State {
    if s.timer.Some? then FlushPending(s.(timer := None)) else s
  }

  function Close(s: State): State {
    FlushPending(s.(closed := true, timer := None))
  }

  // A running flush.

  function Fly(s: State, flight: Flight): State {
    s.(flight := Some(flight))
  }

  predicate At(s: State, stage: Stage) {
    s.flight.Some? && s.flight.value.stage == stage
  }

  /** The head of the rebuild loop: reset the buffer, or return without any row left. */
  function Reset(s: State): State {
    if !At(s, Resetting) then s
    else if s.flight.value.rows == [] then Fly(s, s.flight.value.(stage := Over))
    else Fly(s, s.flight.value.(stage := Writing(0))).(buffer := [])
  }

  function Write(s: State, ok: bool): State {
    if s.flight.None? || !s.flight.value.stage.Writing? || s.flight.value.stage.next >= |s.flight.value.rows| then s
    else
      var f, k := s.flight.value, s.flight.value.stage.next;
      var row := f.rows[k];
      if ok then
        Fly(s, f.(stage := if k + 1 == |f.rows| then Sending else Writing(k + 1)))
        .(buffer := s.buffer + [Whole(row.id)])
      else
        Fly(s, f.(rows := Without(f.rows, k), stage := Resetting))
        .(buffer := s.buffer + [Torn(row.id)],
          counters := s.counters.(rejectedRows := s.counters.rejectedRows + 1),
          log := s.log + [Rejected(row.id)])
  }

  function Flush(s: State, outcome: Outcome): State {
    if !At(s, Sending) then s
    else
      var f, c := s.flight.value, s.counters;
      var log := s.log + [Flushed(s.buffer, outcome)];
      match outcome
      case Sent =>
        Fly(s, f.(stage := Over))
        .(counters := c.(successfulFlushes := c.successfulFlushes + 1, maxBatchRows := Max(c.maxBatchRows, |f.rows|)),
          log := log + Settlements(f.rows, true))
      case Failed(retryable) =>
        if f.attempt < ATTEMPTS && retryable then
          Fly(s, f.(attempt := f.attempt + 1, stage := Resetting))
          .(counters := c.(retriedFlushes := c.retriedFlushes + 1), log := log)
        else
          Fly(s, f.(stage := Over))
          .(counters := c.(failedFlushes := c.failedFlushes + 1, rejectedRows := c.rejectedRows + |f.rows|),
            log := log + Settlements(f.rows, false))
  }

  /** The `finally` of a flush. */
  function Finish(s: State): State {
    if At(s, Over) then Schedule(s.(flight := None, flushingRows := 0, flushingSince := None)) else s
  }

  function Next(s: State, step: Step): State {
    match step
    case DoEnqueue(hint) => Enqueue(s, hint)
    case DoConfigure(given) => Configure(s, given)
    case DoTimer => TimerFires(s)
    case DoReset => Reset(s)
    case DoWrite(ok) => Write(s, ok)
    case DoFlush(outcome) => Flush(s, outcome)
    case DoFinish => Finish(s)
    case DoClose => Close(s)
    case DoWait(elapsed) => s.(clock := s.clock + elapsed)
  }

  function Run(s: State, steps: seq<Step>): State
    decreases |steps|
  {
    if steps == [] then s else Run(Next(s, steps[0]), steps[1..])
  }

  /** The age that diagnostics report. */
  function OldestAge(s: State): Option<real> {
    if s.pending == [] && s.flushingSince.None? then None
    else
      var oldest := if s.pending == [] then s.flushingSince.value
                    else if s.flushingSince.None? then s.pending[0].enqueuedAt
                    else Earlier(s.pending[0].enqueuedAt, s.flushingSince.value);
      Some(if s.clock - oldest >= 0.0 then s.clock - oldest else 0.0)
  }
}
