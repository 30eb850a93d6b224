/** A closed batcher drains, whatever is called while it does. */
module BatcherDraining {
  import opened Common
  import opened BatcherModel

  // A bound on the sections that are left to run.

  /** A sum of equal numbers. */
  function Times(k: nat, each: nat): nat {
    if k == 0 then 0 else each + Times(k - 1, each)
  }

  lemma {:induction false} TimesGrows(a: nat, b: nat, each: nat)
    requires a <= b
    ensures Times(a, each) <= Times(b, each)
    ensures a < b ==> Times(a, each) + each <= Times(b, each)
  {
    if a < b {
      TimesGrows(a, b - 1, each);
    }
  }

  /** The rows that the running flush still carries. */
  function Flown(s: State): seq<Row> {
    if s.flight.Some? then s.flight.value.rows else []
  }

  /** What one attempt can still need with so many rows: each rejection costs a rebuild of at most n rows. */
  function StageWork(stage: Stage, rows: nat, n: nat): int {
    match stage
    case Resetting => Times(rows, n + 3) + rows + 2
    case Writing(k) => Times(rows, n + 3) + rows - k + 1
    case Sending => 1
    case Over => 0
  }

  function AttemptBound(n: nat): nat {
    Times(n, n + 3) + n + 2
  }

  function FlightWork(f: Flight, n: nat): int
    requires f.attempt <= ATTEMPTS
  {
    1 + if f.stage.Over? then 0 else Times(ATTEMPTS - f.attempt, AttemptBound(n)) + StageWork(f.stage, |f.rows|, n)
  }

  function RowBound(n: nat): nat {
    2 + Times(ATTEMPTS, AttemptBound(n))
  }

  /** The sections left, if there are at most n rows. */
  function Work(s: State, n: nat): int
    requires Steady(s, n)
  {
    Times(|s.pending|, RowBound(n)) + if s.flight.Some? then FlightWork(s.flight.value, n) else 0
  }

  predicate Steady(s: State, n: nat) {
    && s.config.maxRows >= 1 && |s.pending| + |Flown(s)| <= n
    && (s.flight.Some? ==>
          && 1 <= s.flight.value.attempt <= ATTEMPTS
          && (s.flight.value.stage.Writing? ==> s.flight.value.stage.next < |s.flight.value.rows|))
  }

  /** The section that a flush, or the loop of close, runs next; what a row and the sender answer is open. */
  function Due(s: State, ok: bool, outcome: Outcome): Step {
    if s.flight.None? then DoClose
    else match s.flight.value.stage
      case Resetting => DoReset
      case Writing(_) => DoWrite(ok)
      case Sending => DoFlush(outcome)
      case Over => DoFinish
  }

  predicate Drained(s: State) {
    s.pending == [] && s.flight.None?
  }

  ghost predicate Advances(s: State, step: Step) {
    !Drained(s) && exists ok, outcome :: step == Due(s, ok, outcome)
  }

  /** How many of the steps are due when they are taken. */
  ghost function Advanced(s: State, steps: seq<Step>): nat
    decreases |steps|
  {
    if steps == [] then 0
    else (if Advances(s, steps[0]) then 1 else 0) + Advanced(Next(s, steps[0]), steps[1..])
  }

  // Steps.

  lemma BeginWork(rows: nat, n: nat)
    requires rows <= n
    ensures StageWork(Resetting, rows, n) <= AttemptBound(n)
    ensures 1 + Times(ATTEMPTS - 1, AttemptBound(n)) + StageWork(Resetting, rows, n) < RowBound(n)
  {
    TimesGrows(rows, n, n + 3);
    TimesGrows(ATTEMPTS - 1, ATTEMPTS, AttemptBound(n));
  }

  /** The rows that a flush takes are worth more than the flush. */
  lemma FlushPendingWork(s: State, n: nat)
    requires Steady(s, n)
    ensures Steady(FlushPending(s), n) && Work(FlushPending(s), n) <= Work(s, n)
    ensures s.flight.None? && s.pending != [] ==> Work(FlushPending(s), n) < Work(s, n)
  {
    if s.flight.None? && s.pending != [] {
      var next := FlushPending(s);
      BeginWork(|next.flight.value.rows|, n);
      TimesGrows(|next.pending|, |s.pending|, RowBound(n));
    }
  }

  lemma ScheduleWork(s: State, n: nat)
    requires Steady(s, n)
    ensures Steady(Schedule(s), n) && Work(Schedule(s), n) <= Work(s, n)
  {
    FlushPendingWork(s, n);
  }

  lemma ConfigureWork(s: State, given: GivenConfig, n: nat)
    requires Steady(s, n)
    ensures Steady(Configure(s, given), n) && Work(Configure(s, given), n) <= Work(s, n)
  {
    var rows := ShortenAll(s.pending, Resolve(given));
    ScheduleWork(s.(config := Resolve(given), timer := None, pending := rows, deadline := Earliest(rows)), n);
  }

  lemma WriteWork(s: State, ok: bool, n: nat)
    requires Steady(s, n) && s.flight.Some? && s.flight.value.stage.Writing?
    ensures Steady(Write(s, ok), n) && Work(Write(s, ok), n) < Work(s, n)
  {
    TimesGrows(|s.flight.value.rows| - 1, |s.flight.value.rows|, n + 3);
  }

  lemma FlushWork(s: State, outcome: Outcome, n: nat)
    requires Steady(s, n) && At(s, Sending)
    ensures Steady(Flush(s, outcome), n) && Work(Flush(s, outcome), n) < Work(s, n)
  {
    var a := s.flight.value.attempt;
    if a < ATTEMPTS {
      BeginWork(|s.flight.value.rows|, n);
      TimesGrows(ATTEMPTS - a - 1, ATTEMPTS - a, AttemptBound(n));
    }
  }

  lemma FinishWork(s: State, n: nat)
    requires Steady(s, n) && At(s, Over)
    ensures Steady(Finish(s), n) && Work(Finish(s), n) < Work(s, n)
  {
    var mid := s.(flight := None, flushingRows := 0, flushingSince := None);
    ScheduleWork(mid, n);
  }

  lemma DueWork(s: State, ok: bool, outcome: Outcome, n: nat)
    requires s.closed && Steady(s, n) && !Drained(s)
    ensures var next := Next(s, Due(s, ok, outcome));
            next.closed && Steady(next, n) && Work(next, n) < Work(s, n)
  {
    match Due(s, ok, outcome)
    case DoClose => FlushPendingWork(s.(closed := true, timer := None), n);
    case DoReset =>
    case DoWrite(_) => WriteWork(s, ok, n);
    case DoFlush(_) => FlushWork(s, outcome, n);
    case DoFinish => FinishWork(s, n);
  }

  /** A step that is not due takes nothing back. */
  lemma OtherWork(s: State, step: Step, n: nat)
    requires s.closed && Steady(s, n) && !Advances(s, step)
    ensures Next(s, step).closed && Steady(Next(s, step), n) && Work(Next(s, step), n) <= Work(s, n)
  {
    match step
    case DoConfigure(given) => ConfigureWork(s, given, n);
    case DoTimer => FlushPendingWork(s.(timer := None), n);
    case DoClose => FlushPendingWork(s.(closed := true, timer := None), n);
    case DoWrite(ok) => assert !Drained(s) ==> step != Due(s, ok, Sent);
    case DoFlush(outcome) => assert !Drained(s) ==> step != Due(s, true, outcome);
    case _ => assert !Drained(s) ==> step != Due(s, true, Sent);
  }

  lemma StepWork(s: State, step: Step, n: nat)
    requires s.closed && Steady(s, n)
    ensures Next(s, step).closed && Steady(Next(s, step), n)
    ensures Work(Next(s, step), n) + (if Advances(s, step) then 1 else 0) <= Work(s, n)
  {
    if Advances(s, step) {
      var ok, outcome :| step == Due(s, ok, outcome);
      DueWork(s, ok, outcome, n);
    } else {
      OtherWork(s, step, n);
    }
  }

  lemma {:induction false} RunWork(s: State, steps: seq<Step>, n: nat)
    requires s.closed && Steady(s, n)
    ensures Run(s, steps).closed && Steady(Run(s, steps), n)
    ensures Work(Run(s, steps), n) + Advanced(s, steps) <= Work(s, n)
    decreases |steps|
  {
    if steps != [] {
      StepWork(s, steps[0], n);
      RunWork(Next(s, steps[0]), steps[1..], n);
    }
  }

  // Reachable states.

  /** The rows that wait or are carried. */
  function Rows(s: State): nat {
    |s.pending| + |Flown(s)|
  }

  lemma StepSteady(s: State, step: Step)
    requires Steady(s, Rows(s))
    ensures Steady(Next(s, step), Rows(Next(s, step)))
  {
  }

  lemma {:induction false} RunSteady(s: State, steps: seq<Step>)
    requires Steady(s, Rows(s))
    ensures Steady(Run(s, steps), Rows(Run(s, steps)))
    decreases |steps|
  {
    if steps != [] {
      StepSteady(s, steps[0]);
      RunSteady(Next(s, steps[0]), steps[1..]);
    }
  }

  /** From any state in which close was called, whatever rows and sender answer and whatever calls fall between: no more
      than a fixed number of steps is ever due, as long as the batcher is not drained one always is, and when that
      number of them has been taken it is drained. */
  lemma DrainingEnds(given: GivenConfig, before: seq<Step>, steps: seq<Step>)
    requires Run(Created(given), before).closed
    ensures var s := Run(Created(given), before);
            var n, end := Rows(s), Run(s, steps);
            && Steady(s, n) && Advanced(s, steps) <= Work(s, n)
            && (Advanced(s, steps) == Work(s, n) ==> Drained(end))
            && (!Drained(end) ==> forall ok, outcome :: Advances(end, Due(end, ok, outcome)))
  {
    var s := Run(Created(given), before);
    RunSteady(Created(given), before);
    RunWork(s, steps, Rows(s));
    WorkLeft(Run(s, steps), Rows(s));
  }

  lemma WorkLeft(s: State, n: nat)
    requires s.closed && Steady(s, n)
    ensures Work(s, n) >= 0 && (Work(s, n) == 0 ==> Drained(s))
  {
    if s.pending != [] {
      TimesGrows(0, |s.pending|, RowBound(n));
    }
  }
}
