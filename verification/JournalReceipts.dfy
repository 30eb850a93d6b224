/** Nothing accepted is lost, nothing confirmed is written again, and receipts stay until they are acknowledged. */
module JournalReceipts {
  import opened Common
  import opened JournalRows
  import opened JournalModel
  import opened JournalInvariant
  import opened JournalPause

  ghost predicate IsRecord(e: Event, birth: nat) {
    e.Delivered? && e.recorded && e.birth == birth
  }

  /** The destination accepted this admission and the journal recorded it. */
  ghost predicate Recorded(log: seq<Event>, birth: nat) {
    exists k :: 0 <= k < |log| && IsRecord(log[k], birth)
  }

  /** This admission was handed to the destination at least once. */
  ghost predicate WasHanded(log: seq<Event>, birth: nat) {
    exists k :: 0 <= k < |log| && log[k].Handed? && log[k].birth == birth
  }

  /** After a recorded delivery nothing more happens to that admission. */
  ghost predicate RecordsAreFinal(log: seq<Event>) {
    forall i, j :: 0 <= i < j < |log| && IsRecord(log[i], log[i].birth) ==> log[j].birth != log[i].birth
  }

  ghost predicate RowHistory(r: Row, log: seq<Event>) {
    && (r.confirmed <==> Recorded(log, r.birth))
    && (!r.confirmed ==> (r.attempts > 0 || r.inWrite <==> WasHanded(log, r.birth)))
  }

  ghost predicate History(s: State) {
    && (forall r :: r in s.db.queue ==> RowHistory(r, s.log))
    && (forall k :: 0 <= k < |s.log| ==> s.log[k].birth < s.db.births)
    && RecordsAreFinal(s.log)
  }

  // Preservation.

  lemma UnseenHistory(r: Row, log: seq<Event>, births: nat)
    requires !r.confirmed && r.attempts == 0 && !r.inWrite && r.birth >= births
    requires forall k :: 0 <= k < |log| ==> log[k].birth < births
    ensures RowHistory(r, log)
  {
  }

  lemma {:induction false} AdmitAllFresh(limits: Limits, db: Store, batch: seq<Submission>)
    ensures var next := AdmitAll(limits, db, batch);
            next.Some? ==>
              && db.births <= next.value.births
              && |db.queue| <= |next.value.queue| && db.queue == next.value.queue[..|db.queue|]
              && forall k :: |db.queue| <= k < |next.value.queue| ==>
                   var r := next.value.queue[k];
                   !r.confirmed && r.attempts == 0 && !r.inWrite && r.birth >= db.births
    decreases |batch|
  {
    if batch != [] {
      var one := AdmitOne(limits, db, batch[0]);
      if one.Some? {
        assert |db.queue| <= |one.value.queue| && db.queue == one.value.queue[..|db.queue|];
        AdmitAllFresh(limits, one.value, batch[1..]);
        var next := AdmitAll(limits, one.value, batch[1..]);
        if next.Some? {
          assert db.queue == next.value.queue[..|one.value.queue|][..|db.queue|];
          forall k | |db.queue| <= k < |one.value.queue|
            ensures next.value.queue[k] == one.value.queue[k]
          {
            assert next.value.queue[k] == next.value.queue[..|one.value.queue|][k];
          }
        }
      }
    }
  }

  lemma AdmitHistory(limits: Limits, s: State, batch: seq<Submission>, sqliteOk: bool, mirrorOk: bool)
    requires History(s)
    ensures History(Admit(limits, s, batch, sqliteOk, mirrorOk))
  {
    var next := AdmitAll(limits, s.db, batch);
    if next.Some? {
      AdmitAllFresh(limits, s.db, batch);
      forall r | r in next.value.queue ensures RowHistory(r, s.log) {
        var k :| 0 <= k < |next.value.queue| && next.value.queue[k] == r;
        if k < |s.db.queue| {
          assert r == next.value.queue[..|s.db.queue|][k];
        } else {
          UnseenHistory(r, s.log, s.db.births);
        }
      }
    }
  }

  /** An event about one admission leaves the history of every other one alone. */
  lemma AppendOther(r: Row, log: seq<Event>, e: Event)
    requires RowHistory(r, log) && r.birth != e.birth
    ensures RowHistory(r, log + [e])
  {
    var more := log + [e];
    if Recorded(log, r.birth) {
      var k :| 0 <= k < |log| && IsRecord(log[k], r.birth);
      assert IsRecord(more[k], r.birth);
    }
    if WasHanded(log, r.birth) {
      var k :| 0 <= k < |log| && log[k].Handed? && log[k].birth == r.birth;
      assert more[k].Handed? && more[k].birth == r.birth;
    }
  }

  /** The row of a flight changes and an event about it may be logged. */
  lemma FlightHistory(s: State, k: nat, row: Row, events: seq<Event>)
    requires Inv(s) && History(s)
    requires k < |s.db.queue| && !s.db.queue[k].confirmed && row.birth == s.db.queue[k].birth
    requires |events| <= 1 && forall e :: e in events ==> e.birth == row.birth
    requires RowHistory(row, s.log + events)
    ensures forall r :: r in s.db.queue[k := row] ==> RowHistory(r, s.log + events)
    ensures forall i :: 0 <= i < |s.log + events| ==> (s.log + events)[i].birth < s.db.births
    ensures RecordsAreFinal(s.log + events)
  {
    assert s.db.queue[k] in s.db.queue;
    forall r | r in s.db.queue[k := row] ensures RowHistory(r, s.log + events) {
      var n :| 0 <= n < |s.db.queue| && s.db.queue[k := row][n] == r;
      if n != k {
        assert r in s.db.queue;
        if events != [] {
          assert events[0] in events && events == [events[0]];
          AppendOther(r, s.log, events[0]);
        } else {
          assert s.log + events == s.log;
        }
      }
    }
    if events != [] {
      assert events[0] in events;
      RecordFinal(s.log, events[0]);
      assert events == [events[0]];
    } else {
      assert s.log + events == s.log;
    }
  }

  lemma RecordFinal(log: seq<Event>, e: Event)
    requires RecordsAreFinal(log) && !Recorded(log, e.birth)
    ensures RecordsAreFinal(log + [e])
  {
    forall i | 0 <= i < |log| && IsRecord(log[i], log[i].birth) ensures e.birth != log[i].birth {}
  }

  lemma AppendHanded(log: seq<Event>, e: Event)
    requires e.Handed?
    ensures WasHanded(log + [e], e.birth)
    ensures Recorded(log + [e], e.birth) <==> Recorded(log, e.birth)
  {
    var more := log + [e];
    assert more[|log|] == e;
    if Recorded(log, e.birth) {
      var k :| 0 <= k < |log| && IsRecord(log[k], e.birth);
      assert IsRecord(more[k], e.birth);
    }
  }

  lemma AppendDelivered(log: seq<Event>, e: Event)
    requires e.Delivered?
    ensures WasHanded(log + [e], e.birth) <==> WasHanded(log, e.birth)
    ensures Recorded(log + [e], e.birth) <==> Recorded(log, e.birth) || e.recorded
  {
    var more := log + [e];
    assert more[|log|] == e;
    if Recorded(log, e.birth) {
      var k :| 0 <= k < |log| && IsRecord(log[k], e.birth);
      assert IsRecord(more[k], e.birth);
    }
    if WasHanded(log, e.birth) {
      var k :| 0 <= k < |log| && log[k].Handed? && log[k].birth == e.birth;
      assert more[k].Handed? && more[k].birth == e.birth;
    }
    if e.recorded {
      assert IsRecord(more[|log|], e.birth);
    }
  }

  lemma BeginHistory(s: State, token: nat, sqliteOk: bool)
    requires Inv(s) && History(s)
    ensures History(Begin(s, token, sqliteOk))
  {
    var c := Current(s, token, Installed);
    if c.Some? && sqliteOk {
      var k := StoredAt(s, c.value);
      var row := s.db.queue[k].(inWrite := true);
      var e := Handed(token, row.birth, row.id, row.target);
      assert s.db.queue[k] in s.db.queue;
      AppendHanded(s.log, e);
      FlightHistory(s, k, row, [e]);
    }
  }

  lemma SucceedHistory(s: State, token: nat, sqliteOk: bool)
    requires Inv(s) && History(s)
    ensures History(Succeed(s, token, sqliteOk))
  {
    var c := Current(s, token, Writing);
    if c.Some? {
      var k := StoredAt(s, c.value);
      var was := s.db.queue[k];
      var row := if sqliteOk then was.(confirmed := true, payload := "", bytes := 0, inWrite := false) else was;
      var e := Delivered(row.birth, row.id, sqliteOk);
      assert was in s.db.queue;
      AppendDelivered(s.log, e);
      FlightHistory(s, k, row, [e]);
      assert s.db.queue[k := was] == s.db.queue;
    }
  }

  lemma FailHistory(limits: Limits, s: State, token: nat, now: int, sqliteOk: bool)
    requires Inv(s) && History(s)
    ensures History(Fail(limits, s, token, now, sqliteOk))
  {
    var c := Current(s, token, Writing);
    if c.Some? && sqliteOk {
      var k := StoredAt(s, c.value);
      var row := s.db.queue[k].(attempts := s.db.queue[k].attempts + 1, inWrite := false,
                                retryAt := now + RetryDelay(limits, s.flights[c.value].row.attempts));
      assert s.db.queue[k] in s.db.queue;
      assert s.log + [] == s.log;
      FlightHistory(s, k, row, []);
    }
  }

  lemma RecoverHistory(s: State)
    requires History(s)
    ensures forall r :: r in RecoverRows(s.db.queue) ==> RowHistory(r, s.log)
  {
    var q := RecoverRows(s.db.queue);
    forall r | r in q ensures RowHistory(r, s.log) {
      var k :| 0 <= k < |q| && q[k] == r;
      assert s.db.queue[k] in s.db.queue;
    }
  }

  lemma DropHistory(s: State, dropped: set<nat>)
    requires History(s)
    ensures History(Drop(s, dropped))
  {
    KeepMembers(s.db.queue, dropped);
  }

  lemma FlightStepHistory(limits: Limits, s: State, step: Step)
    requires Inv(s) && History(s) && WorksFlight(step)
    ensures History(Next(limits, s, step))
  {
    match step
    case DoTryHead(target, room, now, _) =>
      StartRowsFlights(limits, s, Window(s.db.queue, target), now, room);
      StartRowsDb(limits, s, Window(s.db.queue, target), now, room);
    case DoBegin(token, markOk) => BeginHistory(s, token, markOk);
    case DoSucceed(token, recordOk) => SucceedHistory(s, token, recordOk);
    case DoFail(token, at, delayOk) => FailHistory(limits, s, token, at, delayOk);
  }

  lemma SameHistory(s: State, next: State)
    requires History(s) && next.db.queue == s.db.queue && next.db.births == s.db.births && next.log == s.log
    ensures History(next)
  {
  }

  lemma NextHistory(limits: Limits, s: State, step: Step)
    requires Inv(s) && History(s)
    ensures History(Next(limits, s, step))
  {
    if step.DoAdmit? {
      AdmitHistory(limits, s, step.batch, step.admitOk, step.mirrored);
    } else if DropsReceipts(step) {
      var dropped := DropStep(limits, s, step);
      DropHistory(s, dropped);
    } else if WorksFlight(step) {
      FlightStepHistory(limits, s, step);
    } else if step.DoReopen? {
      RecoverHistory(s);
    } else {
      RestFrame(limits, s, step);
      SameHistory(s, Next(limits, s, step));
    }
  }

  /** In every run, each admission has at most one recorded delivery and is never handed over after it. */
  lemma {:induction false} RunHistory(limits: Limits, s: State, steps: seq<Step>)
    requires Inv(s) && History(s)
    ensures History(Run(limits, s, steps))
    decreases |steps|
  {
    if steps != [] {
      NextKeepsInv(limits, s, steps[0]);
      NextHistory(limits, s, steps[0]);
      RunHistory(limits, Next(limits, s, steps[0]), steps[1..]);
    }
  }

  // No loss.

  predicate SamePart(a: Row, b: Row) {
    && a.birth == b.birth && a.id == b.id && a.target == b.target && a.topic == b.topic && a.payload == b.payload
    && a.legacyKey == b.legacyKey
  }

  ghost predicate Awaits(q: seq<Row>, part: Row) {
    exists r :: r in q && !r.confirmed && SamePart(r, part)
  }

  /** The part is still to be written, or its delivery is recorded. */
  ghost predicate Kept(s: State, part: Row) {
    Awaits(s.db.queue, part) || Recorded(s.log, part.birth)
  }

  lemma QueueUpdateKeeps(q: seq<Row>, k: nat, row: Row, part: Row)
    requires k < |q| && (SamePart(q[k], part) && !q[k].confirmed ==> SamePart(row, part) && !row.confirmed)
    requires Awaits(q, part)
    ensures Awaits(q[k := row], part)
  {
    var r :| r in q && !r.confirmed && SamePart(r, part);
    var n :| 0 <= n < |q| && q[n] == r;
    assert q[k := row][n] in q[k := row];
  }

  lemma BeginLosesNothing(s: State, token: nat, sqliteOk: bool, part: Row)
    requires Inv(s) && Awaits(s.db.queue, part)
    ensures Kept(Begin(s, token, sqliteOk), part)
  {
    var c := Current(s, token, Installed);
    if c.Some? {
      var k := StoredAt(s, c.value);
      QueueUpdateKeeps(s.db.queue, k, s.db.queue[k].(inWrite := true), part);
    }
  }

  lemma SucceedLosesNothing(s: State, token: nat, sqliteOk: bool, part: Row)
    requires Inv(s) && Awaits(s.db.queue, part)
    ensures Kept(Succeed(s, token, sqliteOk), part)
  {
    var c := Current(s, token, Writing);
    if c.Some? {
      var k := StoredAt(s, c.value);
      AppendDelivered(s.log, Delivered(s.db.queue[k].birth, s.db.queue[k].id, sqliteOk));
      if !SamePart(s.db.queue[k], part) {
        QueueUpdateKeeps(s.db.queue, k,
          s.db.queue[k].(confirmed := true, payload := "", bytes := 0, inWrite := false), part);
      }
    }
  }

  lemma FailLosesNothing(limits: Limits, s: State, token: nat, now: int, sqliteOk: bool, part: Row)
    requires Inv(s) && Awaits(s.db.queue, part)
    ensures Kept(Fail(limits, s, token, now, sqliteOk), part)
  {
    var c := Current(s, token, Writing);
    if c.Some? {
      var k := StoredAt(s, c.value);
      QueueUpdateKeeps(s.db.queue, k, s.db.queue[k].(attempts := s.db.queue[k].attempts + 1, inWrite := false,
        retryAt := now + RetryDelay(limits, s.flights[c.value].row.attempts)), part);
    }
  }

  lemma DropLosesNothing(s: State, dropped: set<nat>, part: Row)
    requires OnlyConfirmed(s.db.queue, dropped)
    requires Awaits(s.db.queue, part)
    ensures Awaits(Keep(s.db.queue, dropped), part)
  {
    KeepMembers(s.db.queue, dropped);
    var r :| r in s.db.queue && !r.confirmed && SamePart(r, part);
    assert r in Keep(s.db.queue, dropped);
  }

  lemma NextLosesNothing(limits: Limits, s: State, step: Step, part: Row)
    requires Inv(s) && Kept(s, part)
    ensures Kept(Next(limits, s, step), part)
  {
    LogGrows(limits, s, step);
    if Recorded(s.log, part.birth) {
      RecordStays(s.log, Next(limits, s, step).log, part.birth);
    } else {
      PendingLosesNothing(limits, s, step, part);
    }
  }

  lemma PendingLosesNothing(limits: Limits, s: State, step: Step, part: Row)
    requires Inv(s) && Awaits(s.db.queue, part)
    ensures Kept(Next(limits, s, step), part)
  {
    if step.DoAdmit? {
      AdmitLosesNothing(limits, s, step, part);
    } else if DropsReceipts(step) {
      var dropped := DropStep(limits, s, step);
      DropLosesNothing(s, dropped, part);
    } else if WorksFlight(step) {
      FlightStepLosesNothing(limits, s, step, part);
    } else if step.DoReopen? {
      RecoverLosesNothing(s, part);
    } else {
      RestFrame(limits, s, step);
    }
  }

  lemma FlightStepLosesNothing(limits: Limits, s: State, step: Step, part: Row)
    requires Inv(s) && WorksFlight(step) && Awaits(s.db.queue, part)
    ensures Kept(Next(limits, s, step), part)
  {
    match step
    case DoTryHead(target, room, now, _) => StartRowsDb(limits, s, Window(s.db.queue, target), now, room);
    case DoBegin(token, markOk) => BeginLosesNothing(s, token, markOk, part);
    case DoSucceed(token, recordOk) => SucceedLosesNothing(s, token, recordOk, part);
    case DoFail(token, at, delayOk) => FailLosesNothing(limits, s, token, at, delayOk, part);
  }

  lemma AdmitLosesNothing(limits: Limits, s: State, step: Step, part: Row)
    requires step.DoAdmit? && Awaits(s.db.queue, part)
    ensures Kept(Next(limits, s, step), part)
  {
    AdmitAllExtends(limits, s.db, step.batch);
    var r :| r in s.db.queue && !r.confirmed && SamePart(r, part);
    var k :| 0 <= k < |s.db.queue| && s.db.queue[k] == r;
    var next := Next(limits, s, step).db.queue;
    assert next[..|s.db.queue|] == s.db.queue;
    assert next[k] == next[..|s.db.queue|][k] == r;
    assert r in next;
  }

  lemma RecoverLosesNothing(s: State, part: Row)
    requires Awaits(s.db.queue, part)
    ensures Awaits(RecoverRows(s.db.queue), part)
  {
    var r :| r in s.db.queue && !r.confirmed && SamePart(r, part);
    var k :| 0 <= k < |s.db.queue| && s.db.queue[k] == r;
    assert RecoverRows(s.db.queue)[k] in RecoverRows(s.db.queue);
  }

  lemma LogGrows(limits: Limits, s: State, step: Step)
    ensures s.log <= Next(limits, s, step).log
  {
    match step
    case DoTryHead(target, room, now, _) => StartRowsFlights(limits, s, Window(s.db.queue, target), now, room);
    case DoCommand(request, actor, env) => CommandFrame(s, request, actor, env);
    case _ =>
  }

  lemma RecordStays(log: seq<Event>, more: seq<Event>, birth: nat)
    requires log <= more && Recorded(log, birth)
    ensures Recorded(more, birth)
  {
    var k :| 0 <= k < |log| && IsRecord(log[k], birth);
    assert more[k] == log[k];
  }

  /** An accepted part stays pending, unchanged, until its own delivery is recorded, through every run. */
  lemma {:induction false} NothingLost(limits: Limits, s: State, steps: seq<Step>, part: Row)
    requires Inv(s) && Kept(s, part)
    ensures Kept(Run(limits, s, steps), part)
    decreases |steps|
  {
    if steps != [] {
      NextKeepsInv(limits, s, steps[0]);
      NextLosesNothing(limits, s, steps[0], part);
      NothingLost(limits, Next(limits, s, steps[0]), steps[1..], part);
    }
  }

  lemma AdmitOneHolds(limits: Limits, db: Store, s: Submission)
    ensures var next := AdmitOne(limits, db, s);
            next.Some? ==> HasId(next.value.queue, s.entry.id)
  {
    var seen := Observe(db, s.entry.topic, s.entry.table);
    if ValidEnvelope(s.entry) && seen.Some? && !HasId(seen.value.queue, s.entry.id)
       && !Exhausted(limits, seen.value, s) {
      var next := Insert(seen.value, s.entry);
      assert next.queue[|seen.value.queue|].id == s.entry.id;
    }
  }

  /** A pending row with the content of the entry. */
  predicate Carries(r: Row, e: Entry) {
    && !r.confirmed && r.id == e.id && r.target == e.table && r.topic == e.topic && r.payload == e.payload
    && r.legacyKey == e.legacyKey
  }

  /** The row that stands for an entry of an admitted batch: one that was stored before under its id, or a new one with
      the content of the first entry of the batch with that id. */
  ghost predicate HeldFor(db: Store, r: Row, batch: seq<Submission>, i: nat)
    requires i < |batch|
  {
    && r.id == batch[i].entry.id
    && (r in db.queue || (r.birth >= db.births && !HasId(db.queue, r.id) && NewFor(r, batch, i)))
  }

  ghost predicate NewFor(r: Row, batch: seq<Submission>, i: nat)
    requires i < |batch|
  {
    exists j :: 0 <= j <= i && Carries(r, batch[j].entry) && forall k :: 0 <= k < j ==> batch[k].entry.id != r.id
  }

  lemma AdmittedOne(limits: Limits, db: Store, s: Submission) returns (r: Row)
    requires AdmitOne(limits, db, s).Some?
    ensures r in AdmitOne(limits, db, s).value.queue && HeldFor(db, r, [s], 0)
  {
    AdmitOneHolds(limits, db, s);
    var next := AdmitOne(limits, db, s).value;
    var k :| 0 <= k < |next.queue| && next.queue[k].id == s.entry.id;
    r := next.queue[k];
    if r !in db.queue {
      assert [s][0] == s && Carries(r, [s][0].entry);
    }
  }

  /** Every entry of an admitted batch has such a row. */
  lemma {:induction false} AdmittedRow(limits: Limits, db: Store, batch: seq<Submission>, i: nat) returns (r: Row)
    requires AdmitAll(limits, db, batch).Some? && i < |batch|
    ensures r in AdmitAll(limits, db, batch).value.queue && HeldFor(db, r, batch, i)
    decreases |batch|
  {
    var one, next := AdmitOne(limits, db, batch[0]).value, AdmitAll(limits, db, batch).value;
    var first := AdmittedOne(limits, db, batch[0]);
    if i == 0 {
      r := first;
      AdmitAllExtends(limits, one, batch[1..]);
      var k :| 0 <= k < |one.queue| && one.queue[k] == r;
      assert next.queue[k] == next.queue[..|one.queue|][k];
      if r !in db.queue {
        assert Carries(r, batch[0].entry);
        assert NewFor(r, batch, i);
      }
    } else {
      r := AdmittedRow(limits, one, batch[1..], i - 1);
      HeldAcross(limits, db, batch, i, r);
    }
  }

  lemma PrefixHas(q: seq<Row>, next: seq<Row>, id: string)
    requires |q| <= |next| && q == next[..|q|]
    ensures HasId(q, id) ==> HasId(next, id)
  {
    if HasId(q, id) {
      var k :| 0 <= k < |q| && q[k].id == id;
      assert next[k] == next[..|q|][k];
    }
  }

  lemma HeldAcross(limits: Limits, db: Store, batch: seq<Submission>, i: nat, r: Row)
    requires batch != [] && AdmitOne(limits, db, batch[0]).Some? && 1 <= i < |batch|
    requires HeldFor(AdmitOne(limits, db, batch[0]).value, r, batch[1..], i - 1)
    ensures HeldFor(db, r, batch, i)
  {
    var one := AdmitOne(limits, db, batch[0]).value;
    AdmitOneHolds(limits, db, batch[0]);
    if r in one.queue {
      if r !in db.queue {
        assert Carries(r, batch[0].entry);
        assert NewFor(r, batch, i);
      }
    } else {
      var rest := batch[1..];
      var j :| 0 <= j <= i - 1 && Carries(r, rest[j].entry) && forall k :: 0 <= k < j ==> rest[k].entry.id != r.id;
      assert batch[j + 1] == rest[j] && r.id != batch[0].entry.id;
      assert forall k :: 1 <= k < j + 1 ==> batch[k] == rest[k - 1];
      assert Carries(r, batch[j + 1].entry);
      PrefixHas(db.queue, one.queue, r.id);
    }
  }

  /** After an accepted admission, in every later run: for each entry, the row that stands for it is pending with its
      content, or its own delivery is recorded. */
  lemma AcceptedPartsAreKept(
    limits: Limits, s: State, batch: seq<Submission>, mirrored: bool, steps: seq<Step>, i: nat) returns (r: Row)
    requires Inv(s) && History(s) && !s.closed && AdmitAll(limits, s.db, batch).Some? && i < |batch|
    ensures HeldFor(s.db, r, batch, i)
    ensures Kept(Run(limits, Next(limits, s, DoAdmit(batch, true, mirrored)), steps), r)
  {
    var step := DoAdmit(batch, true, mirrored);
    var next := Next(limits, s, step);
    r := AdmittedRow(limits, s.db, batch, i);
    NextKeepsInv(limits, s, step);
    if r.confirmed {
      assert r in s.db.queue && RowHistory(r, s.log);
    } else {
      assert r in next.db.queue && SamePart(r, r);
    }
    NothingLost(limits, next, steps, r);
  }

  /** Some admission under this id was accepted by the destination and recorded. */
  ghost predicate WasWritten(s: State, id: string) {
    exists r :: r in s.db.queue && r.id == id && Recorded(s.log, r.birth)
  }

  lemma ConfirmedWereWritten(s: State, id: string)
    requires History(s) && IsConfirmed(s.db.queue, id)
    ensures WasWritten(s, id)
  {
    var i :| 0 <= i < |s.db.queue| && s.db.queue[i].id == id && s.db.queue[i].confirmed;
    assert s.db.queue[i] in s.db.queue;
  }

  /** A part that submit reports as written was accepted by the destination and recorded. */
  lemma ReportedPartsWereWritten(limits: Limits, steps: seq<Step>, portable: Option<Policy>, id: string)
    requires IsConfirmed(Run(limits, Created(portable), steps).db.queue, id)
    ensures WasWritten(Run(limits, Created(portable), steps), id)
  {
    RunHistory(limits, Created(portable), steps);
    ConfirmedWereWritten(Run(limits, Created(portable), steps), id);
  }

  // Receipts.

  predicate AcknowledgesLegacy(step: Step, key: string) {
    step.DoAcknowledgeLegacy? && step.key == key
  }

  ghost predicate HasReceipt(q: seq<Row>, id: string, key: string) {
    exists r :: r in q && r.confirmed && r.id == id && r.legacyKey == Some(key)
  }

  lemma KeepsReceipt(q: seq<Row>, dropped: set<nat>, id: string, key: string)
    requires HasReceipt(q, id, key)
    requires forall r :: r in q && r.confirmed && r.legacyKey == Some(key) ==> r.key !in dropped
    ensures HasReceipt(Keep(q, dropped), id, key)
  {
    KeepMembers(q, dropped);
    var r :| r in q && r.confirmed && r.id == id && r.legacyKey == Some(key);
    assert r in Keep(q, dropped);
  }

  lemma UpdateKeepsReceipt(q: seq<Row>, k: nat, row: Row, id: string, key: string)
    requires HasReceipt(q, id, key) && k < |q| && !q[k].confirmed
    ensures HasReceipt(q[k := row], id, key)
  {
    var r :| r in q && r.confirmed && r.id == id && r.legacyKey == Some(key);
    var n :| 0 <= n < |q| && q[n] == r;
    assert q[k := row][n] in q[k := row];
  }

  lemma NotDropped(q: seq<Row>, ids: seq<string>, other: string, key: string)
    requires WellKeyed(q) && other != key
    ensures forall r :: r in q && r.confirmed && r.legacyKey == Some(key) ==>
              && r.key !in Acknowledged(q, ids) && r.key !in Expired(q) && r.key !in AcknowledgedLegacy(q, other)
  {
    forall r | r in q && r.confirmed && r.legacyKey == Some(key)
      ensures r.key !in Acknowledged(q, ids) && r.key !in Expired(q) && r.key !in AcknowledgedLegacy(q, other)
    {
      forall x | x in q && x.key == r.key ensures x == r {
        SameKeySameRow(q, x, r);
      }
    }
  }

  lemma FlightKeepsReceipt(limits: Limits, s: State, step: Step, id: string, key: string)
    requires Inv(s) && HasReceipt(s.db.queue, id, key)
    requires step.DoBegin? || step.DoSucceed? || step.DoFail?
    ensures HasReceipt(Next(limits, s, step).db.queue, id, key)
  {
    var c := Current(s, step.token, if step.DoBegin? then Installed else Writing);
    if c.Some? {
      var k := StoredAt(s, c.value);
      UpdateKeepsReceipt(s.db.queue, k, Next(limits, s, step).db.queue[k], id, key);
    }
  }

  lemma ExtensionKeepsReceipt(q: seq<Row>, next: seq<Row>, id: string, key: string)
    requires HasReceipt(q, id, key) && |q| <= |next| && next[..|q|] == q
    ensures HasReceipt(next, id, key)
  {
    var r :| r in q && r.confirmed && r.id == id && r.legacyKey == Some(key);
    var n :| 0 <= n < |q| && q[n] == r;
    assert next[n] == next[..|q|][n] == r;
    assert r in next;
  }

  lemma RecoverKeepsReceipt(q: seq<Row>, id: string, key: string)
    requires HasReceipt(q, id, key)
    ensures HasReceipt(RecoverRows(q), id, key)
  {
    var r :| r in q && r.confirmed && r.id == id && r.legacyKey == Some(key);
    var n :| 0 <= n < |q| && q[n] == r;
    assert RecoverRows(q)[n] in RecoverRows(q);
  }

  lemma DropStepKeepsReceipt(limits: Limits, s: State, step: Step, id: string, key: string)
    requires WellKeyed(s.db.queue) && HasReceipt(s.db.queue, id, key)
    requires DropsReceipts(step) && !AcknowledgesLegacy(step, key)
    ensures HasReceipt(Next(limits, s, step).db.queue, id, key)
  {
    var q := s.db.queue;
    match step
    case DoAcknowledge(ids) =>
      NotDropped(q, ids, key + "x", key);
      KeepsReceipt(q, Acknowledged(q, ids), id, key);
    case DoAcknowledgeLegacy(other) =>
      NotDropped(q, [], other, key);
      KeepsReceipt(q, AcknowledgedLegacy(q, other), id, key);
    case DoTrim =>
      NotDropped(q, [], key + "x", key);
      KeepsReceipt(q, Expired(q), id, key);
  }

  lemma NextKeepsReceipt(limits: Limits, s: State, step: Step, id: string, key: string)
    requires Inv(s) && HasReceipt(s.db.queue, id, key) && !AcknowledgesLegacy(step, key)
    ensures HasReceipt(Next(limits, s, step).db.queue, id, key)
  {
    if step.DoAdmit? {
      AdmitAllExtends(limits, s.db, step.batch);
      ExtensionKeepsReceipt(s.db.queue, Next(limits, s, step).db.queue, id, key);
    } else if DropsReceipts(step) {
      DropStepKeepsReceipt(limits, s, step, id, key);
    } else if step.DoTryHead? {
      StartRowsDb(limits, s, Window(s.db.queue, step.target), step.now, step.room);
    } else if WorksFlight(step) {
      FlightKeepsReceipt(limits, s, step, id, key);
    } else if step.DoReopen? {
      RecoverKeepsReceipt(s.db.queue, id, key);
    } else {
      RestFrame(limits, s, step);
    }
  }

  /** The receipt of an envelope survives trimming, live acknowledgement and restarts until acknowledgeLegacy names
      its key. */
  lemma {:induction false} LegacyReceiptStays(limits: Limits, s: State, steps: seq<Step>, id: string, key: string)
    requires Inv(s) && HasReceipt(s.db.queue, id, key)
    requires forall i :: 0 <= i < |steps| ==> !AcknowledgesLegacy(steps[i], key)
    ensures HasReceipt(Run(limits, s, steps).db.queue, id, key)
    decreases |steps|
  {
    if steps != [] {
      NextKeepsInv(limits, s, steps[0]);
      NextKeepsReceipt(limits, s, steps[0], id, key);
      LegacyReceiptStays(limits, Next(limits, s, steps[0]), steps[1..], id, key);
    }
  }
}
