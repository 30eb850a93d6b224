/** What the reported pause boundary says about the rows of the paused tables. */
module JournalBoundary {
  import opened Common
  import opened JournalRows
  import opened JournalModel
  import opened JournalInvariant
  import opened JournalPause
  import opened JournalReceipts

  /** A pending row marked as in write belongs to a write that is running. */
  ghost predicate MarksAreFlights(s: State) {
    forall r :: r in s.db.queue && !r.confirmed && r.inWrite ==> Flying(s.flights, r)
  }

  ghost predicate Flying(flights: seq<Flight>, r: Row) {
    exists i :: 0 <= i < |flights| && flights[i].phase.Writing? && Stored(flights[i]) == r
  }

  /** A step in which the outcome of a write could not be recorded. */
  predicate LosesOutcome(step: Step) {
    (step.DoSucceed? && !step.recordOk) || (step.DoFail? && !step.delayOk)
  }

  lemma {:induction false} CoveredFlightsMeans(policy: Policy, flights: seq<Flight>)
    ensures CoveredFlights(policy, flights) == 0 <==>
              forall i :: 0 <= i < |flights| ==> !IsPaused(policy, flights[i].row.target)
  {
    if flights != [] {
      CoveredFlightsMeans(policy, flights[1..]);
      assert flights == [flights[0]] + flights[1..];
    }
  }

  /** A row that was attempted is counted, so its paused table cannot look quiet. */
  lemma RetriesShow(db: Store, r: Row)
    requires Keyed(db) && LedgerAgrees(db)
    requires r in db.queue && !r.confirmed && r.attempts > 0 && IsPaused(db.policy, r.target)
    ensures CoveredRetry(db.policy, db.totals)
  {
    var k :| 0 <= k < |db.queue| && db.queue[k] == r;
    SumBounds(db.queue, k, Retrying(r.target));
    assert LedgerOf(db, r.target);
    LookupMember(db.totals, r.target);
    var i :| 0 <= i < |db.totals| && db.totals[i] == Lookup(db.totals, r.target);
  }

  ghost predicate CoveredPending(s: State, r: Row) {
    r in s.db.queue && !r.confirmed && IsPaused(s.db.policy, r.target)
  }

  /** The admission has a write that is installed or running. */
  ghost predicate Unsettled(flights: seq<Flight>, birth: nat) {
    exists i :: 0 <= i < |flights| && !flights[i].phase.Settled? && flights[i].row.birth == birth
  }

  /** No write of the row is under way and none was ever started. */
  ghost predicate Quiet(s: State, r: Row) {
    !Unsettled(s.flights, r.birth) && !WasHanded(s.log, r.birth)
  }

  /** "paused" tells the truth: every pending row of every paused table is quiet. */
  ghost predicate Truthful(s: State) {
    forall r :: CoveredPending(s, r) ==> Quiet(s, r)
  }

  ghost predicate NoMarks(s: State) {
    forall r :: CoveredPending(s, r) ==> !r.inWrite
  }

  lemma PausedRow(s: State, r: Row)
    requires Inv(s) && History(s) && BoundaryOf(s).phase == Paused && CoveredPending(s, r)
    ensures !Unsettled(s.flights, r.birth)
    ensures WasHanded(s.log, r.birth) <==> r.inWrite
  {
    CoveredFlightsMeans(s.db.policy, s.flights);
    if i :| 0 <= i < |s.flights| && !s.flights[i].phase.Settled? && s.flights[i].row.birth == r.birth {
      SameBirthSameRow(s.db.queue, r, Stored(s.flights[i]));
    }
    if r.attempts > 0 {
      RetriesShow(s.db, r);
    }
    assert RowHistory(r, s.log);
  }

  lemma SameBirthSameRow(q: seq<Row>, a: Row, b: Row)
    requires WellKeyed(q) && a in q && b in q && a.birth == b.birth
    ensures a == b
  {
    var i :| 0 <= i < |q| && q[i] == a;
    var j :| 0 <= j < |q| && q[j] == b;
    assert i == j;
  }

  /** In every reachable state whose boundary is "paused": it tells the truth exactly if no pending row of a paused
      table carries the in-write mark. */
  lemma BoundaryTruth(s: State)
    requires Inv(s) && History(s) && BoundaryOf(s).phase == Paused
    ensures Truthful(s) <==> NoMarks(s)
  {
    forall r | CoveredPending(s, r) ensures Quiet(s, r) <==> !r.inWrite {
      PausedRow(s, r);
    }
  }

  // Without lost outcomes every mark belongs to a running write.

  lemma MarkUpdate(s: State, i: nat, phase: Phase, k: nat, row: Row)
    requires Inv(s) && MarksAreFlights(s) && i < |s.flights| && !s.flights[i].phase.Settled?
    requires k < |s.db.queue| && s.db.queue[k] == Stored(s.flights[i])
    requires phase.Settled? ==> row.confirmed || !row.inWrite
    requires phase.Writing? ==> row == s.flights[i].row.(inWrite := true)
    requires !phase.Installed?
    ensures forall r :: r in s.db.queue[k := row] && !r.confirmed && r.inWrite ==>
              Flying(SetPhase(s.flights, i, phase), r)
  {
    var flights := SetPhase(s.flights, i, phase);
    forall r | r in s.db.queue[k := row] && !r.confirmed && r.inWrite ensures Flying(flights, r) {
      var n :| 0 <= n < |s.db.queue| && s.db.queue[k := row][n] == r;
      if n == k {
        assert flights[i].phase.Writing? && Stored(flights[i]) == r;
      } else {
        assert r in s.db.queue;
        var j :| 0 <= j < |s.flights| && s.flights[j].phase.Writing? && Stored(s.flights[j]) == r;
        assert r.key != s.db.queue[k].key;
        assert flights[j] == s.flights[j];
      }
    }
  }

  lemma BeginMarks(s: State, token: nat, sqliteOk: bool)
    requires Inv(s) && MarksAreFlights(s)
    ensures MarksAreFlights(Begin(s, token, sqliteOk))
  {
    var c := Current(s, token, Installed);
    if c.Some? {
      var k := StoredAt(s, c.value);
      if sqliteOk {
        MarkUpdate(s, c.value, Writing, k, s.flights[c.value].row.(inWrite := true));
      } else {
        InstalledUnmarked(s, c.value, k);
      }
    }
  }

  /** An installed flight that cannot be marked is not handed over and leaves no mark. */
  lemma InstalledUnmarked(s: State, i: nat, k: nat)
    requires Inv(s) && MarksAreFlights(s) && i < |s.flights| && s.flights[i].phase.Installed?
    requires k < |s.db.queue| && s.db.queue[k] == Stored(s.flights[i])
    ensures forall r :: r in s.db.queue && !r.confirmed && r.inWrite ==> Flying(SetPhase(s.flights, i, Settled), r)
  {
    var flights := SetPhase(s.flights, i, Settled);
    forall r | r in s.db.queue && !r.confirmed && r.inWrite ensures Flying(flights, r) {
      var j :| 0 <= j < |s.flights| && s.flights[j].phase.Writing? && Stored(s.flights[j]) == r;
      assert flights[j] == s.flights[j];
    }
  }

  lemma SucceedMarks(s: State, token: nat)
    requires Inv(s) && MarksAreFlights(s)
    ensures MarksAreFlights(Succeed(s, token, true))
  {
    var c := Current(s, token, Writing);
    if c.Some? {
      var k := StoredAt(s, c.value);
      MarkUpdate(s, c.value, Settled, k,
        s.db.queue[k].(confirmed := true, payload := "", bytes := 0, inWrite := false));
    }
  }

  lemma FailMarks(limits: Limits, s: State, token: nat, now: int)
    requires Inv(s) && MarksAreFlights(s)
    ensures MarksAreFlights(Fail(limits, s, token, now, true))
  {
    var c := Current(s, token, Writing);
    if c.Some? {
      var k := StoredAt(s, c.value);
      var row := s.db.queue[k].(attempts := s.db.queue[k].attempts + 1, inWrite := false,
                                retryAt := now + RetryDelay(limits, s.flights[c.value].row.attempts));
      MarkUpdate(s, c.value, Settled, k, row);
      assert Fail(limits, s, token, now, true).db.queue == s.db.queue[k := row];
    }
  }

  lemma FinishMarks(s: State, token: nat)
    requires MarksAreFlights(s)
    ensures MarksAreFlights(Finish(s, token))
  {
    var c := Current(s, token, Settled);
    if c.Some? {
      var rest := Finish(s, token).flights;
      forall r | r in s.db.queue && !r.confirmed && r.inWrite ensures Flying(rest, r) {
        var j :| 0 <= j < |s.flights| && s.flights[j].phase.Writing? && Stored(s.flights[j]) == r;
        assert j != c.value;
        assert rest[if j < c.value then j else j - 1] == s.flights[j];
      }
    }
  }

  lemma TryHeadMarks(limits: Limits, s: State, target: string, room: nat, now: int, canReplay: bool)
    requires MarksAreFlights(s)
    ensures MarksAreFlights(TryHead(limits, s, target, room, now, canReplay))
  {
    StartRowsFlights(limits, s, Window(s.db.queue, target), now, room);
    StartRowsDb(limits, s, Window(s.db.queue, target), now, room);
    var next := TryHead(limits, s, target, room, now, canReplay);
    forall r | r in s.db.queue && !r.confirmed && r.inWrite ensures Flying(next.flights, r) {
      var j :| 0 <= j < |s.flights| && s.flights[j].phase.Writing? && Stored(s.flights[j]) == r;
      assert next.flights[j] == s.flights[j];
    }
  }

  lemma AdmitMarks(limits: Limits, s: State, batch: seq<Submission>, sqliteOk: bool, mirrorOk: bool)
    requires MarksAreFlights(s)
    ensures MarksAreFlights(Admit(limits, s, batch, sqliteOk, mirrorOk))
  {
    var next := AdmitAll(limits, s.db, batch);
    if next.Some? {
      AdmitAllFresh(limits, s.db, batch);
      forall r | r in next.value.queue && !r.confirmed && r.inWrite ensures r in s.db.queue {
        var k :| 0 <= k < |next.value.queue| && next.value.queue[k] == r;
        assert r == next.value.queue[..|s.db.queue|][k];
      }
    }
  }

  lemma DropMarks(s: State, dropped: set<nat>)
    requires MarksAreFlights(s)
    ensures MarksAreFlights(Drop(s, dropped))
  {
    KeepMembers(s.db.queue, dropped);
  }

  lemma ReopenMarks(s: State, mirrorOk: bool)
    ensures MarksAreFlights(Reopen(s, mirrorOk))
  {
    var q := RecoverRows(s.db.queue);
    forall r | r in q && !r.confirmed ensures !r.inWrite {
      var k :| 0 <= k < |q| && q[k] == r;
    }
  }

  lemma FlightStepMarks(limits: Limits, s: State, step: Step)
    requires Inv(s) && MarksAreFlights(s) && !LosesOutcome(step) && WorksFlight(step)
    ensures MarksAreFlights(Next(limits, s, step))
  {
    match step
    case DoTryHead(target, room, now, canReplay) => TryHeadMarks(limits, s, target, room, now, canReplay);
    case DoBegin(token, markOk) => BeginMarks(s, token, markOk);
    case DoSucceed(token, _) => SucceedMarks(s, token);
    case DoFail(token, at, _) => FailMarks(limits, s, token, at);
  }

  lemma NextMarks(limits: Limits, s: State, step: Step)
    requires Inv(s) && MarksAreFlights(s) && !LosesOutcome(step)
    ensures MarksAreFlights(Next(limits, s, step))
  {
    if step.DoAdmit? {
      AdmitMarks(limits, s, step.batch, step.admitOk, step.mirrored);
    } else if DropsReceipts(step) {
      var dropped := DropStep(limits, s, step);
      DropMarks(s, dropped);
    } else if WorksFlight(step) {
      FlightStepMarks(limits, s, step);
    } else if step.DoFinish? {
      FinishMarks(s, step.token);
    } else if step.DoReopen? {
      ReopenMarks(s, step.mirrorOk);
    } else {
      RestFrame(limits, s, step);
    }
  }

  lemma {:induction false} RunMarks(limits: Limits, s: State, steps: seq<Step>)
    requires Inv(s) && MarksAreFlights(s)
    requires forall i :: 0 <= i < |steps| ==> !LosesOutcome(steps[i])
    ensures MarksAreFlights(Run(limits, s, steps))
    decreases |steps|
  {
    if steps != [] {
      NextKeepsInv(limits, s, steps[0]);
      NextMarks(limits, s, steps[0]);
      RunMarks(limits, Next(limits, s, steps[0]), steps[1..]);
    }
  }

  /** While every outcome of a write can be recorded, through any crash and reopen, a "paused" boundary is truthful. */
  lemma PausedIsTruthful(limits: Limits, portable: Option<Policy>, steps: seq<Step>)
    requires forall i :: 0 <= i < |steps| ==> !LosesOutcome(steps[i])
    requires BoundaryOf(Run(limits, Created(portable), steps)).phase == Paused
    ensures Truthful(Run(limits, Created(portable), steps))
  {
    var s := Run(limits, Created(portable), steps);
    RunKeepsInv(limits, Created(portable), steps);
    RunHistory(limits, Created(portable), steps);
    RunMarks(limits, Created(portable), steps);
    forall r | CoveredPending(s, r) ensures !r.inWrite {
      PausedRow(s, r);
      assert r.inWrite ==> Flying(s.flights, r) && Unsettled(s.flights, r.birth);
    }
    BoundaryTruth(s);
  }

  /** A row that a crash left marked forces the uncertain phase of the reopened journal when its table is paused. */
  lemma CrashShowsUncertain(s: State, r: Row, mirrorOk: bool)
    requires Inv(s) && CoveredPending(s, r) && r.inWrite
    ensures BoundaryOf(Reopen(s, mirrorOk)).phase == Uncertain
  {
    ReopenKeeps(s, mirrorOk);
    var next := Reopen(s, mirrorOk);
    var k :| 0 <= k < |s.db.queue| && s.db.queue[k] == r;
    assert next.db.queue[k] in next.db.queue && next.db.queue[k] == RecoverRow(r);
    RetriesShow(next.db, RecoverRow(r));
  }

  /** As long as such a row is pending and covered, the boundary never reads "paused". */
  lemma AttemptedNeverPaused(s: State, r: Row)
    requires Inv(s) && CoveredPending(s, r) && r.attempts > 0
    ensures BoundaryOf(s).phase != Paused
  {
    RetriesShow(s.db, r);
  }

  // A run that loses an outcome: the write of the only row fails, and so does the transaction that notes it.

  const LOST_ENTRY: Entry := Entry("e", "t", "x", "", None)
  const LOST_ROW: Row := Row(1, "e", "t", "x", "", None, false, 0, 513, 0, false, 0)
  const LOST_PAUSE: Request := Pause("p", 0, Tables({"t"}), "r")
  const LOST_RUN: seq<Step> := [
    DoAdmit([Submission(LOST_ENTRY, DEFAULT_LIMITS.reserveBytes + 1000)], true, true),
    DoTryHead("t", 1, 0, true),
    DoBegin(0, true),
    DoFail(0, 0, false),
    DoFinish(0),
    DoCommand(LOST_PAUSE, "a", CommandEnv(true, true, true))]

  ghost function Holding(q: seq<Row>, flights: seq<Flight>, bytes: int, error: bool, log: seq<Event>): State {
    State(Store(q, [Total("t", 1, 513, 0, 0)], {("x", "t")}, Policy(0, []), [], 1), None, flights, bytes,
          if log == [] && flights == [] then 0 else 1, "", error, false, false, false, log)
  }

  lemma LostAdmit()
    ensures Next(DEFAULT_LIMITS, Created(None), LOST_RUN[0]) == Holding([LOST_ROW], [], 0, false, [])
  {
    var db := Created(None).db;
    var batch := LOST_RUN[0].batch;
    assert EntryBytes(LOST_ENTRY) == 513 by {
      assert "x"[1..] == "";
    }
    assert ValidEnvelope(LOST_ENTRY) by {
      assert "t"[1..] == "" && "e"[1..] == "" && "x"[1..] == "";
    }
    var seen := db.(observations := {("x", "t")});
    assert Observe(db, "x", "t") == Some(seen) by {
      assert db.observations + {("x", "t")} == {("x", "t")};
    }
    assert !Exhausted(DEFAULT_LIMITS, seen, batch[0]);
    assert AdmitOne(DEFAULT_LIMITS, db, batch[0]) == Some(Insert(seen, LOST_ENTRY));
    assert Insert(seen, LOST_ENTRY).queue == [LOST_ROW];
    assert batch[1..] == [];
    var next := Insert(seen, LOST_ENTRY);
    assert AdmitAll(DEFAULT_LIMITS, db, batch) == AdmitAll(DEFAULT_LIMITS, next, []);
    assert AdmitAll(DEFAULT_LIMITS, next, []) == Some(next);
    assert next.totals == [Total("t", 1, 513, 0, 0)];
    assert next == Holding([LOST_ROW], [], 0, false, []).db;
  }

  lemma LostStart()
    ensures Next(DEFAULT_LIMITS, Holding([LOST_ROW], [], 0, false, []), LOST_RUN[1])
            == Holding([LOST_ROW], [Flight(0, LOST_ROW, Installed)], 513, false, [])
  {
    var s1 := Holding([LOST_ROW], [], 0, false, []);
    assert PendingRows([LOST_ROW], "t") == [LOST_ROW] + PendingRows([LOST_ROW][1..], "t");
    assert [LOST_ROW][1..] == [];
    assert Window([LOST_ROW], "t") == [LOST_ROW];
    assert MayWrite(s1, "t", true) && !MustWait(DEFAULT_LIMITS, s1, LOST_ROW, 0, 1);
    assert StartRows(DEFAULT_LIMITS, s1, [LOST_ROW], 0, 1)
        == StartRows(DEFAULT_LIMITS, Launch(s1, LOST_ROW), [LOST_ROW][1..], 0, 0);
    assert StartRows(DEFAULT_LIMITS, Launch(s1, LOST_ROW), [], 0, 0) == Launch(s1, LOST_ROW);
  }

  lemma LostWrite()
    ensures var s2 := Holding([LOST_ROW], [Flight(0, LOST_ROW, Installed)], 513, false, []);
            var handed := [Handed(0, 0, "e", "t")];
            var s3 := Next(DEFAULT_LIMITS, s2, LOST_RUN[2]);
            var s4 := Next(DEFAULT_LIMITS, s3, LOST_RUN[3]);
            var s5 := Next(DEFAULT_LIMITS, s4, LOST_RUN[4]);
            s5 == Holding([LOST_ROW.(inWrite := true)], [], 0, true, handed)
  {
    var s2 := Holding([LOST_ROW], [Flight(0, LOST_ROW, Installed)], 513, false, []);
    var marked, handed := LOST_ROW.(inWrite := true), [Handed(0, 0, "e", "t")];
    var s3 := Holding([marked], [Flight(0, LOST_ROW, Writing)], 513, false, handed);
    assert Next(DEFAULT_LIMITS, s2, LOST_RUN[2]) == s3;
    var s4 := Holding([marked], [Flight(0, LOST_ROW, Settled)], 513, true, handed);
    assert Next(DEFAULT_LIMITS, s3, LOST_RUN[3]) == s4;
  }

  lemma LostCommand()
    ensures var s := Next(DEFAULT_LIMITS,
                          Holding([LOST_ROW.(inWrite := true)], [], 0, true, [Handed(0, 0, "e", "t")]), LOST_RUN[5]);
            BoundaryOf(s).phase == Paused && !Truthful(s)
  {
    var marked, handed := LOST_ROW.(inWrite := true), [Handed(0, 0, "e", "t")];
    var s5 := Holding([marked], [], 0, true, handed);
    var probed := s5.(storageError := false);
    assert "a"[1..] == "";
    var rule := Rule("p", Tables({"t"}), "r", "a", {"t"});
    assert Decide(probed, LOST_PAUSE, "a") == Granted([rule]);
    var s := Next(DEFAULT_LIMITS, s5, LOST_RUN[5]);
    assert s.db.policy.rules == [rule] && s.db.queue == [marked] && s.log == handed;
    assert BoundaryOf(s).phase == Paused;
    MarkedMisleads(s, marked, rule);
  }

  lemma MarkedMisleads(s: State, marked: Row, rule: Rule)
    requires s.db.policy.rules == [rule] && marked.target in rule.tables && s.db.queue == [marked] && !marked.confirmed
    requires s.flights == [] && s.log == [Handed(0, marked.birth, marked.id, marked.target)] && marked.attempts == 0
    ensures !Truthful(s)
  {
    assert s.db.queue[0] == marked && marked.target in s.db.policy.rules[0].tables;
    assert CoveredPending(s, marked);
    assert s.log[0].Handed?;
    assert WasHanded(s.log, marked.birth);
  }

  /** With a lost outcome the boundary can say "paused" although a row was handed over and its outcome is unknown. */
  lemma PausedCanMislead()
    ensures var s := Run(DEFAULT_LIMITS, Created(None), LOST_RUN);
            BoundaryOf(s).phase == Paused && !Truthful(s)
  {
    LostAdmit();
    LostStart();
    LostWrite();
    LostCommand();
    RunOfSix(Created(None), LOST_RUN);
  }

  lemma RunOfSix(s: State, steps: seq<Step>)
    requires |steps| == 6
    ensures var l := DEFAULT_LIMITS;
            Run(l, s, steps)
            == Next(l, Next(l, Next(l, Next(l, Next(l, Next(l, s, steps[0]), steps[1]), steps[2]), steps[3]), steps[4]), steps[5])
  {
    var s2 := Next(DEFAULT_LIMITS, Next(DEFAULT_LIMITS, s, steps[0]), steps[1]);
    var s4 := Next(DEFAULT_LIMITS, Next(DEFAULT_LIMITS, s2, steps[2]), steps[3]);
    RunFirstTwo(s, steps);
    RunFirstTwo(s2, steps[2..]);
    RunFirstTwo(s4, steps[2..][2..]);
  }

  lemma RunFirstTwo(s: State, steps: seq<Step>)
    requires |steps| >= 2
    ensures var l := DEFAULT_LIMITS;
            Run(l, s, steps) == Run(l, Next(l, Next(l, s, steps[0]), steps[1]), steps[2..])
  {
    assert steps[1..][1..] == steps[2..];
  }
}
