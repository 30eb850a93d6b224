/** The batcher never stalls, its deadlines only move forward, and its load and ages are what it says. */
module BatcherTiming {
  import opened Common
  import opened BatcherModel
  import opened BatcherSettlement

  // Deadlines.

  /** The early end of a list of rows. */
  lemma {:induction false} EarliestMeans(rows: seq<Row>)
    ensures rows == [] <==> Earliest(rows).None?
    ensures rows != [] ==> forall i :: 0 <= i < |rows| ==> Earliest(rows).value <= rows[i].flushAt
    ensures rows != [] ==> exists i :: 0 <= i < |rows| && rows[i].flushAt == Earliest(rows).value
  {
    if rows != [] {
      var n := |rows| - 1;
      EarliestMeans(rows[..n]);
      forall i | 0 <= i < |rows| ensures Earliest(rows).value <= rows[i].flushAt {
        if i < n {
          assert rows[i] == rows[..n][i];
        }
      }
      if rows[..n] != [] && Earliest(rows[..n]).value <= rows[n].flushAt {
        var i :| 0 <= i < |rows[..n]| && rows[..n][i].flushAt == Earliest(rows[..n]).value;
        assert rows[i].flushAt == Earliest(rows).value;
      } else {
        assert rows[n].flushAt == Earliest(rows).value;
      }
    }
  }

  predicate Sorted(rows: seq<Row>) {
    forall i, j :: 0 <= i < j < |rows| ==> rows[i].enqueuedAt <= rows[j].enqueuedAt
  }

  predicate Punctual(r: Row, config: Config) {
    r.enqueuedAt < r.flushAt <= r.enqueuedAt + config.flushIntervalMs as real
  }

  /** The rows that the running flush took, settled or not. */
  function Batch(s: State): seq<Row> {
    if s.flight.Some? then s.flight.value.batch else []
  }

  /** The rows that the running flush still carries. */
  function Carries(s: State): seq<Row> {
    if s.flight.Some? then s.flight.value.rows else []
  }

  // The invariant.

  ghost predicate Armed(s: State) {
    && s.deadline == Earliest(s.pending)
    && (s.timer.Some? ==> s.pending != [] && s.timer.value >= s.deadline.value)
    && (s.flight.None? && s.pending != [] ==> |s.pending| < s.config.maxRows && s.timer == s.deadline)
  }

  ghost predicate Sized(s: State) {
    && s.flushingRows == |Batch(s)|
    && (s.flight.Some? ==> Batch(s) != [] && s.flushingSince == Some(Batch(s)[0].enqueuedAt))
    && (s.flight.None? ==> s.flushingSince == None)
  }

  ghost predicate Ordered(s: State) {
    && Sorted(Batch(s) + s.pending) && Sorted(Carries(s) + s.pending)
    && (forall r :: r in Carries(s) ==> r in Batch(s))
    && (forall r :: r in Batch(s) + s.pending ==> r.enqueuedAt <= s.clock)
    && (forall i :: 0 <= i < |s.pending| ==> Punctual(s.pending[i], s.config))
  }

  ghost predicate Timed(s: State) {
    ValidConfig(s.config) && Armed(s) && Sized(s) && Ordered(s)
  }

  /** What holds before the timer is set again. */
  ghost predicate Rearming(s: State) {
    && s.deadline == Earliest(s.pending)
    && (s.timer.Some? ==> s.pending != [] && s.timer.value >= s.deadline.value)
  }

  lemma FlushPendingArms(s: State)
    requires ValidConfig(s.config) && s.deadline == Earliest(s.pending) && (s.flight.Some? ==> Armed(s))
    requires s.pending == [] ==> s.timer == None
    ensures Armed(FlushPending(s))
  {
  }

  lemma FlushPendingSized(s: State)
    requires ValidConfig(s.config) && Sized(s)
    ensures Sized(FlushPending(s))
  {
  }

  lemma FlushPendingOrdered(s: State)
    requires ValidConfig(s.config) && Ordered(s)
    ensures Ordered(FlushPending(s))
  {
    if s.flight.None? && s.pending != [] {
      var next := FlushPending(s);
      assert s.pending == Batch(s) + s.pending;
      assert Batch(next) == Carries(next) && Batch(next) + next.pending == s.pending;
      PunctualRest(s.pending, |Batch(next)|, s.config);
    }
  }

  lemma PunctualRest(rows: seq<Row>, n: nat, config: Config)
    requires n <= |rows| && forall i :: 0 <= i < |rows| ==> Punctual(rows[i], config)
    ensures forall i :: 0 <= i < |rows[n..]| ==> Punctual(rows[n..][i], config)
  {
    forall i | 0 <= i < |rows[n..]| ensures Punctual(rows[n..][i], config) {
      assert rows[n..][i] == rows[n + i];
    }
  }

  lemma ScheduleTimes(s: State)
    requires ValidConfig(s.config) && Rearming(s) && Sized(s) && Ordered(s)
    ensures Timed(Schedule(s)) && (Schedule(s).log == s.log ==> Schedule(s).flight == s.flight)
  {
    EarliestMeans(s.pending);
    if |s.pending| >= s.config.maxRows {
      FlushPendingArms(s);
      FlushPendingSized(s);
      FlushPendingOrdered(s);
    }
  }

  lemma EnqueueTimes(s: State, hint: Hint)
    requires Timed(s)
    ensures Timed(Enqueue(s, hint))
  {
    if Answer(s, hint).Admitted? {
      var row := NewRow(s, hint);
      var mid := Joined(s, row);
      assert mid.pending[..|s.pending|] == s.pending;
      EarliestMeans(s.pending);
      assert Batch(mid) + mid.pending == Batch(s) + s.pending + [row];
      assert Carries(mid) + mid.pending == Carries(s) + s.pending + [row];
      JoinedOrdered(s, row);
      ScheduleTimes(mid);
    }
  }

  lemma SortedAppend(rows: seq<Row>, row: Row)
    requires Sorted(rows) && forall r :: r in rows ==> r.enqueuedAt <= row.enqueuedAt
    ensures Sorted(rows + [row])
  {
    forall i, j | 0 <= i < j < |rows + [row]| ensures (rows + [row])[i].enqueuedAt <= (rows + [row])[j].enqueuedAt {
      assert (rows + [row])[i] == rows[i] && rows[i] in rows;
    }
  }

  lemma JoinedOrdered(s: State, row: Row)
    requires Ordered(s) && row.enqueuedAt == s.clock && Punctual(row, s.config)
    ensures Ordered(Joined(s, row))
  {
    var mid := Joined(s, row);
    assert Batch(mid) + mid.pending == Batch(s) + s.pending + [row];
    assert Carries(mid) + mid.pending == Carries(s) + s.pending + [row];
    SortedAppend(Batch(s) + s.pending, row);
    SortedAppend(Carries(s) + s.pending, row);
  }

  lemma ConfigureTimes(s: State, given: GivenConfig)
    requires Timed(s)
    ensures Timed(Configure(s, given))
  {
    var config := Resolve(given);
    var rows := ShortenAll(s.pending, config);
    var mid := s.(config := config, timer := None, pending := rows, deadline := Earliest(rows));
    ShortenedOrdered(s, config, mid);
    ScheduleTimes(mid);
  }

  lemma ShortenedOrdered(s: State, config: Config, mid: State)
    requires Ordered(s) && ValidConfig(config)
    requires mid.config == config && mid.pending == ShortenAll(s.pending, config)
    requires mid.flight == s.flight && mid.clock == s.clock
    ensures Ordered(mid)
  {
    SameTimes(Batch(s), s.pending, mid.pending);
    SameTimes(Carries(s), s.pending, mid.pending);
    forall r | r in Batch(mid) + mid.pending ensures r.enqueuedAt <= s.clock {
      var i :| 0 <= i < |Batch(mid) + mid.pending| && (Batch(mid) + mid.pending)[i] == r;
      assert (Batch(s) + s.pending)[i] in Batch(s) + s.pending;
      assert (Batch(s) + s.pending)[i].enqueuedAt == r.enqueuedAt;
    }
  }

  /** Rows that keep their times keep their order. */
  lemma SameTimes(front: seq<Row>, a: seq<Row>, b: seq<Row>)
    requires |a| == |b| && forall i :: 0 <= i < |a| ==> a[i].enqueuedAt == b[i].enqueuedAt
    requires Sorted(front + a)
    ensures Sorted(front + b)
    ensures forall i :: 0 <= i < |front + a| ==> (front + a)[i].enqueuedAt == (front + b)[i].enqueuedAt
  {
    assert forall i :: 0 <= i < |front + a| ==> (front + a)[i].enqueuedAt == (front + b)[i].enqueuedAt;
  }

  lemma WriteTimes(s: State, ok: bool)
    requires Timed(s)
    ensures Timed(Write(s, ok))
  {
    if InWriting(s) && !ok {
      var rows, k := s.flight.value.rows, s.flight.value.stage.next;
      var less := Without(rows, k);
      var a, b := rows + s.pending, less + s.pending;
      assert forall i :: 0 <= i < |b| ==> b[i] == a[if i < k then i else i + 1];
      forall r | r in less ensures r in Batch(s) {
        assert r in rows;
      }
    }
  }

  lemma FinishTimes(s: State)
    requires Timed(s)
    ensures Timed(Finish(s))
  {
    if At(s, Over) {
      var mid := s.(flight := None, flushingRows := 0, flushingSince := None);
      assert Batch(mid) + mid.pending == s.pending && Carries(mid) + mid.pending == s.pending;
      forall i, j | 0 <= i < j < |s.pending| ensures s.pending[i].enqueuedAt <= s.pending[j].enqueuedAt {
        assert (Batch(s) + s.pending)[|Batch(s)| + i] == s.pending[i];
        assert (Batch(s) + s.pending)[|Batch(s)| + j] == s.pending[j];
      }
      ScheduleTimes(mid);
    }
  }

  lemma FlushPendingTimes(s: State, mid: State)
    requires Timed(s) && (mid == s.(timer := None) || mid == s.(timer := None, closed := true))
    ensures Timed(FlushPending(mid))
  {
    FlushPendingArms(mid);
    FlushPendingSized(mid);
    FlushPendingOrdered(mid);
  }

  lemma SameTimed(s: State, next: State)
    requires Timed(s)
    requires next.config == s.config && next.pending == s.pending && next.deadline == s.deadline && next.timer == s.timer
    requires next.flushingRows == s.flushingRows && next.flushingSince == s.flushingSince && next.clock >= s.clock
    requires Batch(next) == Batch(s) && Carries(next) == Carries(s) && next.flight.Some? == s.flight.Some?
    ensures Timed(next)
  {
  }

  lemma FlightTimes(s: State, step: Step)
    requires Timed(s) && (step.DoReset? || step.DoFlush? || step.DoWait?)
    ensures Timed(Next(s, step))
  {
    SameTimed(s, Next(s, step));
  }

  lemma NextTimes(s: State, step: Step)
    requires Timed(s)
    ensures Timed(Next(s, step))
  {
    match step
    case DoEnqueue(hint) => EnqueueTimes(s, hint);
    case DoConfigure(given) => ConfigureTimes(s, given);
    case DoTimer => FlushPendingTimes(s, s.(timer := None));
    case DoWrite(ok) => WriteTimes(s, ok);
    case DoFinish => FinishTimes(s);
    case DoClose => FlushPendingTimes(s, s.(timer := None, closed := true));
    case _ => FlightTimes(s, step);
  }

  lemma {:induction false} RunTimes(s: State, steps: seq<Step>)
    requires Timed(s)
    ensures Timed(Run(s, steps))
    decreases |steps|
  {
    if steps != [] {
      NextTimes(s, steps[0]);
      RunTimes(Next(s, steps[0]), steps[1..]);
    }
  }

  // The results.

  /** In every run: while rows wait, a flush is running, or the timer is set to the earliest deadline of any of them. */
  lemma NeverStalls(given: GivenConfig, steps: seq<Step>)
    ensures var s := Run(Created(given), steps);
            s.pending != [] && s.flight.None? ==>
              && |s.pending| < s.config.maxRows
              && s.timer.Some?
              && (forall i :: 0 <= i < |s.pending| ==> s.timer.value <= s.pending[i].flushAt)
              && (exists i :: 0 <= i < |s.pending| && s.timer.value == s.pending[i].flushAt)
  {
    RunTimes(Created(given), steps);
    EarliestMeans(Run(Created(given), steps).pending);
  }

  /** No waiting row's deadline is later than its arrival plus the interval in force. */
  lemma DeadlinesAreBounded(given: GivenConfig, steps: seq<Step>, i: nat)
    requires i < |Run(Created(given), steps).pending|
    ensures var s := Run(Created(given), steps);
            s.pending[i].enqueuedAt < s.pending[i].flushAt
              <= s.pending[i].enqueuedAt + s.config.flushIntervalMs as real
  {
    RunTimes(Created(given), steps);
    assert Punctual(Run(Created(given), steps).pending[i], Run(Created(given), steps).config);
  }

  /** An admitted row is due after the interval in force, or after the hint when that is sooner. */
  lemma AdmittedRowIsDue(s: State, hint: Hint)
    requires Timed(s) && Answer(s, hint).Admitted?
    ensures var queue, last := Batch(Enqueue(s, hint)) + Enqueue(s, hint).pending, |Batch(s) + s.pending|;
            && |queue| == last + 1 && queue[last].id == s.admitted && queue[last].enqueuedAt == s.clock
            && queue[last].flushAt
               == s.clock + if hint.Wait? && hint.ms < s.config.flushIntervalMs as real then hint.ms
                            else s.config.flushIntervalMs as real
  {
    var mid := Joined(s, NewRow(s, hint));
    ScheduleKeepsRows(mid);
    assert Batch(mid) + mid.pending == Batch(s) + s.pending + [NewRow(s, hint)];
  }

  /** Row `r` still waits or was taken by the flush, and its deadline was not put off. */
  ghost predicate NotPutOff(s: State, r: Row) {
    exists k :: 0 <= k < |Batch(s) + s.pending|
      && var now := (Batch(s) + s.pending)[k];
         now.id == r.id && now.enqueuedAt == r.enqueuedAt && now.flushAt <= r.flushAt
  }

  lemma ScheduleKeepsRows(s: State)
    ensures s.flight.Some? || s.pending != [] || Schedule(s) == s
    ensures Batch(Schedule(s)) + Schedule(s).pending == Batch(s) + s.pending
  {
  }

  /** The queue of `s` lies at `at` in that of `next`, with deadlines that are no later. */
  lemma RowFound(next: State, r: Row, at: nat)
    requires at < |Batch(next) + next.pending|
    requires var now := (Batch(next) + next.pending)[at];
             now.id == r.id && now.enqueuedAt == r.enqueuedAt && now.flushAt <= r.flushAt
    ensures NotPutOff(next, r)
  {
  }

  lemma EnqueuePutsOffNone(s: State, hint: Hint, i: nat)
    requires i < |s.pending|
    ensures NotPutOff(Enqueue(s, hint), s.pending[i])
  {
    if Answer(s, hint).Admitted? {
      ScheduleKeepsRows(Joined(s, NewRow(s, hint)));
    }
    RowFound(Enqueue(s, hint), s.pending[i], |Batch(s)| + i);
  }

  lemma ConfigurePutsOffNone(s: State, given: GivenConfig, i: nat)
    requires i < |s.pending|
    ensures NotPutOff(Configure(s, given), s.pending[i])
  {
    var rows := ShortenAll(s.pending, Resolve(given));
    ScheduleKeepsRows(s.(config := Resolve(given), timer := None, pending := rows, deadline := Earliest(rows)));
    assert (Batch(s) + rows)[|Batch(s)| + i] == rows[i];
    RowFound(Configure(s, given), s.pending[i], |Batch(s)| + i);
  }

  lemma FinishPutsOffNone(s: State, i: nat)
    requires i < |s.pending|
    ensures NotPutOff(Finish(s), s.pending[i])
  {
    if At(s, Over) {
      ScheduleKeepsRows(s.(flight := None, flushingRows := 0, flushingSince := None));
      assert ([] + s.pending)[i] == s.pending[i];
      RowFound(Finish(s), s.pending[i], i);
    } else {
      RowFound(s, s.pending[i], |Batch(s)| + i);
    }
  }

  lemma FlushPendingPutsOffNone(s: State, mid: State, i: nat)
    requires i < |s.pending| && (mid == s.(timer := None) || mid == s.(timer := None, closed := true) || mid == s)
    ensures NotPutOff(FlushPending(mid), s.pending[i])
  {
    assert Batch(FlushPending(mid)) + FlushPending(mid).pending == Batch(s) + s.pending;
    RowFound(FlushPending(mid), s.pending[i], |Batch(s)| + i);
  }

  lemma SameQueue(s: State, next: State, i: nat)
    requires i < |s.pending| && next.pending == s.pending && Batch(next) == Batch(s)
    ensures NotPutOff(next, s.pending[i])
  {
    RowFound(next, s.pending[i], |Batch(s)| + i);
  }

  /** Neither a later row with a hint nor a new configuration puts off a row that already waits. */
  lemma DeadlinesOnlyShrink(s: State, step: Step, i: nat)
    requires i < |s.pending|
    ensures NotPutOff(Next(s, step), s.pending[i])
  {
    match step
    case DoEnqueue(hint) => EnqueuePutsOffNone(s, hint, i);
    case DoConfigure(given) => ConfigurePutsOffNone(s, given, i);
    case DoFinish => FinishPutsOffNone(s, i);
    case DoTimer => FlushPendingPutsOffNone(s, s.(timer := None), i); SameQueue(s, s, i);
    case DoClose => FlushPendingPutsOffNone(s, s.(timer := None, closed := true), i);
    case DoReset => SameQueue(s, Reset(s), i);
    case DoWrite(ok) => SameQueue(s, Write(s, ok), i);
    case DoFlush(outcome) => SameQueue(s, Flush(s, outcome), i);
    case DoWait(elapsed) => SameQueue(s, Next(s, step), i);
  }

  /** A running flush is replaced by no other until it has finished. */
  lemma OneFlushAtATime(s: State, step: Step)
    requires s.flight.Some? && !step.DoFinish?
    ensures Next(s, step).flight.Some? && Batch(Next(s, step)) == Batch(s)
  {
  }

  function Load(s: State): nat {
    |s.pending| + s.flushingRows
  }

  lemma ScheduleLoad(s: State)
    requires s.flushingRows == |Batch(s)|
    ensures Load(Schedule(s)) == Load(s) && Schedule(s).config == s.config
  {
  }

  lemma StepLoad(s: State, step: Step)
    requires Timed(s)
    ensures Load(Next(s, step)) <= Load(s) || Load(Next(s, step)) <= Next(s, step).config.maxPendingRows
    ensures !step.DoConfigure? ==> Next(s, step).config == s.config
  {
    match step
    case DoEnqueue(hint) => ScheduleLoad(Joined(s, NewRow(s, hint)));
    case DoConfigure(given) =>
      var rows := ShortenAll(s.pending, Resolve(given));
      ScheduleLoad(s.(config := Resolve(given), timer := None, pending := rows, deadline := Earliest(rows)));
    case DoFinish => ScheduleLoad(s.(flight := None, flushingRows := 0, flushingSince := None));
    case _ =>
  }

  /** With a fixed configuration the rows that wait or are being flushed stay within its bound. */
  lemma {:induction false} LoadIsBounded(s: State, steps: seq<Step>)
    requires Timed(s) && Load(s) <= s.config.maxPendingRows
    requires forall i :: 0 <= i < |steps| ==> !steps[i].DoConfigure?
    ensures Run(s, steps).config == s.config && Load(Run(s, steps)) <= s.config.maxPendingRows
    decreases |steps|
  {
    if steps != [] {
      StepLoad(s, steps[0]);
      NextTimes(s, steps[0]);
      LoadIsBounded(Next(s, steps[0]), steps[1..]);
    }
  }

  /** The reported age is that of the oldest row that waits or was taken by the running flush. */
  lemma AgeOfOldest(s: State)
    requires Timed(s)
    ensures OldestAge(s).None? <==> Batch(s) + s.pending == []
    ensures forall r :: r in Batch(s) + s.pending ==> s.clock - r.enqueuedAt <= OldestAge(s).value
    ensures Batch(s) + s.pending != [] ==> OldestAge(s) == Some(s.clock - (Batch(s) + s.pending)[0].enqueuedAt)
  {
    var q := Batch(s) + s.pending;
    if q != [] {
      assert q[0] in q;
      assert forall i :: 0 <= i < |q| ==> q[0].enqueuedAt <= q[i].enqueuedAt;
      if s.pending != [] {
        assert q[|Batch(s)|] == s.pending[0];
      }
    }
  }

  lemma UnsettledOrder(s: State)
    requires Ordered(s) && Unsettled(s) + s.pending != []
    ensures var u := Unsettled(s) + s.pending;
            u[0] in Batch(s) + s.pending && forall r :: r in u ==> u[0].enqueuedAt <= r.enqueuedAt
  {
    var u, q, c := Unsettled(s) + s.pending, Batch(s) + s.pending, Carries(s) + s.pending;
    var skipped := |c| - |u|;
    assert u == c[skipped..];
    forall r | r in u ensures u[0].enqueuedAt <= r.enqueuedAt {
      var i :| 0 <= i < |u| && u[i] == r;
      assert u[i] == c[skipped + i] && u[0] == c[skipped];
    }
  }

  lemma LatestIsTaken(log: seq<Event>, x: nat)
    requires x in LastTaken(log)
    ensures x in TakenIds(log)
  {
    var p := LastIsTaken(log);
    var k :| 0 <= k < |LastTaken(log)| && LastTaken(log)[k] == x;
    assert TakenIds(log)[p..p + |LastTaken(log)|][k] == TakenIds(log)[p + k];
  }

  /** What was taken and is not settled is carried. */
  lemma TakenIsCarried(log: seq<Event>, pending: seq<nat>, carried: seq<nat>, admitted: nat, x: nat)
    requires Books(log, pending, carried, admitted) && x in TakenIds(log) && x !in SettledIds(log)
    ensures x in carried
  {
    assert x in multiset(TakenIds(log));
    assert x in multiset(carried);
  }

  lemma SameIdSameRow(rows: seq<Row>, a: Row, b: Row)
    requires Ascending(Ids(rows)) && a in rows && b in rows && a.id == b.id
    ensures a == b
  {
    var i :| 0 <= i < |rows| && rows[i] == a;
    var j :| 0 <= j < |rows| && rows[j] == b;
    assert Ids(rows)[i] == Ids(rows)[j];
  }

  lemma IdIsIn(rows: seq<Row>, r: Row)
    requires r in rows
    ensures r.id in Ids(rows)
  {
    var k :| 0 <= k < |rows| && rows[k] == r;
    assert Ids(rows)[k] == r.id;
  }

  /** A row of the running batch that is not settled is one that the flush still carries. */
  lemma UnsettledIsCarried(s: State, r: Row)
    requires Ordered(s) && Accounted(s) && Carried(s) && r in Batch(s) && r.id !in SettledIds(s.log)
    ensures r in Unsettled(s)
  {
    var carried := Unsettled(s);
    LastAscends(s.log, Ids(s.pending), s.admitted);
    IdIsIn(Batch(s), r);
    LatestIsTaken(s.log, r.id);
    TakenIsCarried(s.log, Ids(s.pending), Ids(carried), s.admitted, r.id);
    var i :| 0 <= i < |carried| && carried[i].id == r.id;
    assert carried[i] in Carries(s);
    SameIdSameRow(Batch(s), r, carried[i]);
  }

  /** In every run the reported age is never less than that of the oldest row that still waits for its settlement, and
      equals it if and only if no row of the running batch that is already settled arrived before that row. */
  lemma AgeOfUnsettled(given: GivenConfig, steps: seq<Step>)
    requires var s := Run(Created(given), steps);
             Unsettled(s) + s.pending != []
    ensures var s := Run(Created(given), steps);
            var oldest := (Unsettled(s) + s.pending)[0];
            && (forall r :: r in Unsettled(s) + s.pending ==> oldest.enqueuedAt <= r.enqueuedAt)
            && OldestAge(s).Some? && OldestAge(s).value >= s.clock - oldest.enqueuedAt
            && (OldestAge(s).value == s.clock - oldest.enqueuedAt
                <==> forall r :: r in Batch(s) && r.id in SettledIds(s.log) ==> oldest.enqueuedAt <= r.enqueuedAt)
  {
    var s := Run(Created(given), steps);
    CreatedSettles(given);
    RunSettles(Created(given), steps);
    RunTimes(Created(given), steps);
    UnsettledOrder(s);
    AgeOfOldest(s);
    if Batch(s) == [] {
      assert Batch(s) + s.pending == s.pending;
    } else {
      BatchStarts(s);
      if Batch(s)[0].id !in SettledIds(s.log) {
        UnsettledIsCarried(s, Batch(s)[0]);
      }
    }
  }

  /** The batch is older than the queue, and its first row is its oldest. */
  lemma BatchStarts(s: State)
    requires Ordered(s) && Batch(s) != []
    ensures Batch(s)[0] == (Batch(s) + s.pending)[0] && Batch(s)[0] in Batch(s)
    ensures forall r :: r in Batch(s) + s.pending ==> Batch(s)[0].enqueuedAt <= r.enqueuedAt
    ensures forall r :: r in Batch(s) ==> r in Batch(s) + s.pending
  {
    var q := Batch(s) + s.pending;
    forall r | r in q ensures q[0].enqueuedAt <= r.enqueuedAt {
      var i :| 0 <= i < |q| && q[i] == r;
    }
  }

  const PAIRS: GivenConfig := GivenConfig(None, Some(2), None)

  /** Two rows, five milliseconds apart, fill a batch. */
  lemma TwoRows(s: State)
    requires s == Created(PAIRS)
    ensures var next := Next(Next(Next(s, DoEnqueue(NoHint)), DoWait(5.0)), DoEnqueue(NoHint));
            var batch := [Row(0, 0.0, 1000.0), Row(1, 5.0, 1005.0)];
            && next.flight == Some(Flight(batch, batch, 1, Resetting)) && next.pending == []
            && next.flushingSince == Some(0.0) && next.clock == 5.0
  {
    var s1 := Next(s, DoEnqueue(NoHint));
    assert s1.pending == [Row(0, 0.0, 1000.0)] && s1.flight == None;
    var s2 := Next(s1, DoWait(5.0));
    var row := NewRow(s2, NoHint);
    assert row == Row(1, 5.0, 1005.0) && Answer(s2, NoHint).Admitted?;
    var mid := Joined(s2, row);
    assert mid.pending == [Row(0, 0.0, 1000.0), Row(1, 5.0, 1005.0)];
    assert mid.pending[..2] == mid.pending && mid.pending[2..] == [];
    assert Next(s2, DoEnqueue(NoHint)) == Schedule(mid) == FlushPending(mid);
  }

  /** The first row of that batch is rejected, and diagnostics go on with its age. */
  lemma FirstRejected(s: State)
    requires s.flight == Some(Flight([Row(0, 0.0, 1000.0), Row(1, 5.0, 1005.0)],
                                     [Row(0, 0.0, 1000.0), Row(1, 5.0, 1005.0)], 1, Resetting))
    requires s.pending == [] && s.flushingSince == Some(0.0) && s.clock == 5.0
    ensures var next := Next(Next(s, DoReset), DoWrite(false));
            Unsettled(next) + next.pending == [Row(1, 5.0, 1005.0)] && next.clock == 5.0 && OldestAge(next) == Some(5.0)
  {
    var reset := Next(s, DoReset);
    assert reset.flight.value.stage == Writing(0);
    assert Without(reset.flight.value.rows, 0) == [Row(1, 5.0, 1005.0)];
  }

  /** The oldest unsettled row has just arrived, and the reported age is that of a row that was rejected. */
  lemma RejectedRowAges(s: State, steps: seq<Step>)
    requires s == Created(PAIRS) && steps == [DoEnqueue(NoHint), DoWait(5.0), DoEnqueue(NoHint), DoReset, DoWrite(false)]
    ensures var end := Run(s, steps);
            Unsettled(end) + end.pending == [Row(1, 5.0, 1005.0)] && end.clock == 5.0 && OldestAge(end) == Some(5.0)
  {
    TwoRows(s);
    FirstRejected(Next(Next(Next(s, DoEnqueue(NoHint)), DoWait(5.0)), DoEnqueue(NoHint)));
    RunFive(s, steps);
  }

  lemma RunFive(s: State, steps: seq<Step>)
    requires |steps| == 5
    ensures Run(s, steps) == Next(Next(Next(Next(Next(s, steps[0]), steps[1]), steps[2]), steps[3]), steps[4])
  {
    var rest := steps[1..][1..];
    RunTo(s, steps);
    RunTo(Next(s, steps[0]), steps[1..]);
    RunTo(Next(Next(s, steps[0]), steps[1]), rest);
    RunTo(Next(Next(Next(s, steps[0]), steps[1]), steps[2]), rest[1..]);
    RunTo(Next(Next(Next(Next(s, steps[0]), steps[1]), steps[2]), steps[3]), rest[1..][1..]);
  }

  lemma RunTo(s: State, steps: seq<Step>)
    requires steps != []
    ensures Run(s, steps) == Run(Next(s, steps[0]), steps[1..])
  {
  }
}
