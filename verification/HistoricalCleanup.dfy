/** A backfill leaves nothing in the journal: the receipts of a page are acknowledged before the next one is read. */
module HistoricalCleanup {
  import opened JournalRows
  import J = JournalModel
  import opened JournalInvariant
  import opened JournalParts
  import opened JournalTracking
  import opened HistoricalSource
  import opened HistoricalImport

  // Ids in the journal.

  lemma PartsHaveNoId(q: seq<Row>, next: seq<Row>, id: string)
    requires SameParts(q, next) && !HasId(q, id)
    ensures !HasId(next, id)
  {
    forall i | 0 <= i < |next| ensures next[i].id != id {
      assert Continues(q[i], next[i]);
    }
  }

  lemma DropHasNoId(q: seq<Row>, dropped: set<nat>, id: string)
    requires !HasId(q, id)
    ensures !HasId(Keep(q, dropped), id)
  {
    var rest := Keep(q, dropped);
    KeepMembers(q, dropped);
    forall i | 0 <= i < |rest| ensures rest[i].id != id {
      assert rest[i] in rest;
      var k :| 0 <= k < |q| && q[k] == rest[i];
    }
  }

  lemma AdmitHasNoId(limits: J.Limits, db: J.Store, batch: seq<J.Submission>, id: string)
    requires !HasId(db.queue, id) && forall i :: 0 <= i < |batch| ==> batch[i].entry.id != id
    ensures var next := J.AdmitAll(limits, db, batch);
            next.Some? ==> !HasId(next.value.queue, id)
  {
    var next := J.AdmitAll(limits, db, batch);
    AdmitAllRows(limits, db, batch, id);
    if next.Some? {
      forall k | 0 <= k < |next.value.queue| ensures next.value.queue[k].id != id {
        assert next.value.queue[k] in next.value.queue;
      }
    }
  }

  /** An id that the journal does not hold comes by an admission only. */
  lemma NextHasNoId(limits: J.Limits, s: J.State, step: J.Step, id: string)
    requires Inv(s) && !HasId(s.db.queue, id)
    requires step.DoAdmit? ==> forall i :: 0 <= i < |step.batch| ==> step.batch[i].entry.id != id
    ensures !HasId(J.Next(limits, s, step).db.queue, id)
  {
    if step.DoAdmit? {
      AdmitHasNoId(limits, s.db, step.batch, id);
    } else if DropsReceipts(step) {
      var dropped := DropStep(limits, s, step);
      DropHasNoId(s.db.queue, dropped, id);
    } else {
      if WorksFlight(step) {
        WriteParts(limits, s, step);
      } else {
        RestParts(limits, s, step);
      }
      PartsHaveNoId(s.db.queue, J.Next(limits, s, step).db.queue, id);
    }
  }

  /** Acknowledging its key removes a part that is done. */
  lemma AcknowledgedIsGone(limits: J.Limits, s: J.State, id: string, key: string)
    requires Inv(s) && Tracked(s, id, key, true)
    ensures !HasId(J.Next(limits, s, J.DoAcknowledgeLegacy(key)).db.queue, id)
  {
    var q, dropped := s.db.queue, J.AcknowledgedLegacy(s.db.queue, key);
    var rest := Keep(q, dropped);
    KeepMembers(q, dropped);
    forall i | 0 <= i < |rest| ensures rest[i].id != id {
      var r := rest[i];
      assert r in rest && r in q;
      assert r.id == id ==> RowTracked(r, key, Deliveries(s.log, id));
      assert r.id == id ==> r.key in dropped;
    }
  }

  // Runs of a job.

  /** The receipts that are still to be acknowledged. */
  function Remaining(w: World): seq<string> {
    match w.work
    case Idle(acknowledged) => if acknowledged <= |w.job.receipts| then w.job.receipts[acknowledged..] else []
    case Writing(_, _, _) => w.job.receipts
  }

  ghost predicate TidyRow(imp: Import, q: seq<Row>, remaining: seq<string>, row: SourceRow)
    requires Usable(imp, row)
  {
    HasId(q, PartId(imp, row)) ==> EventId(imp, row) in remaining
  }

  ghost predicate TidyRows(imp: Import, q: seq<Row>, n: nat, remaining: seq<string>) {
    forall i :: 0 <= i < n && i < |All(imp)| && Usable(imp, All(imp)[i]) ==> TidyRow(imp, q, remaining, All(imp)[i])
  }

  /** Below the cursor the journal holds nothing but what the remaining receipts name. */
  ghost predicate Tidy(imp: Import, w: World) {
    TidyRows(imp, w.journal.db.queue, Done(w), Remaining(w)) && (w.job.state == Completed ==> w.job.receipts == [])
  }

  /** The step submits none of the first `n` rows. */
  ghost predicate SubmitsNone(imp: Import, step: J.Step, n: nat) {
    forall i :: 0 <= i < n && i < |All(imp)| && Usable(imp, All(imp)[i]) ==> Avoids(step, PartId(imp, All(imp)[i]))
  }

  predicate Avoids(step: J.Step, id: string) {
    step.DoAdmit? ==> forall k :: 0 <= k < |step.batch| ==> step.batch[k].entry.id != id
  }

  lemma StepTidies(imp: Import, limits: J.Limits, s: J.State, step: J.Step, n: nat, remaining: seq<string>)
    requires Inv(s) && TidyRows(imp, s.db.queue, n, remaining) && SubmitsNone(imp, step, n)
    ensures TidyRows(imp, J.Next(limits, s, step).db.queue, n, remaining)
  {
    var next := J.Next(limits, s, step);
    forall i | 0 <= i < n && i < |All(imp)| && Usable(imp, All(imp)[i])
      ensures TidyRow(imp, next.db.queue, remaining, All(imp)[i])
    {
      if !HasId(s.db.queue, PartId(imp, All(imp)[i])) {
        NextHasNoId(limits, s, step, PartId(imp, All(imp)[i]));
      } else {
        assert TidyRow(imp, s.db.queue, remaining, All(imp)[i]);
      }
    }
  }

  lemma ForeignAvoids(imp: Import, step: J.Step, n: nat)
    requires Foreign(imp, step)
    ensures SubmitsNone(imp, step, n)
  {
    forall i | 0 <= i < n && i < |All(imp)| && Usable(imp, All(imp)[i]) ensures Avoids(step, PartId(imp, All(imp)[i])) {
      assert All(imp)[i] in All(imp);
      assert Unrelated(step, PartId(imp, All(imp)[i]), EventId(imp, All(imp)[i]), false);
    }
  }

  lemma OtherTidy(imp: Import, limits: J.Limits, w: World, step: J.Step)
    requires Inv(w.journal) && Tidy(imp, w) && Foreign(imp, step)
    ensures Tidy(imp, w.(journal := J.Next(limits, w.journal, step)))
  {
    ForeignAvoids(imp, step, Done(w));
    StepTidies(imp, limits, w.journal, step, Done(w), Remaining(w));
  }

  lemma AcknowledgedRow(
    imp: Import, limits: J.Limits, s: J.State, row: SourceRow, key: string, rest: seq<string>)
    requires Inv(s) && Usable(imp, row) && Tracked(s, PartId(imp, row), EventId(imp, row), true)
    requires TidyRow(imp, J.Next(limits, s, J.DoAcknowledgeLegacy(key)).db.queue, [key] + rest, row)
    ensures TidyRow(imp, J.Next(limits, s, J.DoAcknowledgeLegacy(key)).db.queue, rest, row)
  {
    if EventId(imp, row) == key {
      AcknowledgedIsGone(limits, s, PartId(imp, row), key);
    }
  }

  lemma AcknowledgedRows(imp: Import, limits: J.Limits, s: J.State, n: nat, key: string, rest: seq<string>)
    requires Inv(s) && Tracking(imp, s, n) && TidyRows(imp, s.db.queue, n, [key] + rest)
    ensures TidyRows(imp, J.Next(limits, s, J.DoAcknowledgeLegacy(key)).db.queue, n, rest)
  {
    var step := J.DoAcknowledgeLegacy(key);
    var next := J.Next(limits, s, step);
    assert SubmitsNone(imp, step, n);
    StepTidies(imp, limits, s, step, n, [key] + rest);
    forall i | 0 <= i < n && i < |All(imp)| && Usable(imp, All(imp)[i])
      ensures TidyRow(imp, next.db.queue, rest, All(imp)[i])
    {
      assert Tracked(s, PartId(imp, All(imp)[i]), EventId(imp, All(imp)[i]), i < n);
      assert TidyRow(imp, next.db.queue, [key] + rest, All(imp)[i]);
      AcknowledgedRow(imp, limits, s, All(imp)[i], key, rest);
    }
  }

  /** The parts of the invariant that concern the journal. */
  lemma JournalPart(imp: Import, w: World)
    requires WorldInv(imp, w)
    ensures Inv(w.journal) && Tracking(imp, w.journal, Done(w)) && (w.work.Writing? ==> w.job.receipts == [])
  {
  }

  lemma AcknowledgeTidy(imp: Import, limits: J.Limits, w: World)
    requires Inv(w.journal) && Tracking(imp, w.journal, Done(w)) && Tidy(imp, w)
    ensures Tidy(imp, AcknowledgeOne(limits, w))
  {
    if w.work.Idle? && w.work.acknowledged < |w.job.receipts| {
      var key, rest := w.job.receipts[w.work.acknowledged], w.job.receipts[w.work.acknowledged + 1..];
      assert Remaining(w) == [key] + rest;
      AcknowledgedRows(imp, limits, w.journal, Done(w), key, rest);
    }
  }

  lemma SubmitTidy(imp: Import, limits: J.Limits, w: World, i: nat, diskFree: nat, sqliteOk: bool, mirrorOk: bool)
    requires WorldInv(imp, w) && Tidy(imp, w)
    ensures Tidy(imp, Submit(imp, limits, w, i, diskFree, sqliteOk, mirrorOk))
  {
    if w.work.Writing? && i < |w.work.kept| && Usable(imp, w.work.kept[i]) {
      var step := J.DoAdmit([J.Submission(EntryFor(imp, w.work.kept[i]), diskFree)], sqliteOk, mirrorOk);
      SubmitAvoids(imp, w, i, step);
      StepTidies(imp, limits, w.journal, step, Done(w), Remaining(w));
    }
  }

  lemma SubmitAvoids(imp: Import, w: World, i: nat, step: J.Step)
    requires WorldInv(imp, w) && w.work.Writing? && i < |w.work.kept| && Usable(imp, w.work.kept[i])
    requires step.DoAdmit? && |step.batch| == 1 && step.batch[0].entry.id == PartId(imp, w.work.kept[i])
    ensures SubmitsNone(imp, step, Done(w))
  {
    var k := KeptRowPosition(imp, w, i);
    forall j | 0 <= j < Done(w) && j < |All(imp)| && Usable(imp, All(imp)[j]) ensures Avoids(step, PartId(imp, All(imp)[j])) {
      SubmittedElsewhere(imp, w, k, j);
    }
  }

  lemma PageReceipt(imp: Import, kept: seq<SourceRow>, row: SourceRow)
    requires UsableRows(imp, kept) && row in kept
    ensures EventId(imp, row) in ReceiptsOf(imp, kept)
  {
    var k :| 0 <= k < |kept| && kept[k] == row;
    assert ReceiptsOf(imp, kept)[k] == EventId(imp, row);
  }

  /** What a page covers newly has its receipts among those of the page. */
  lemma PageRowTidy(imp: Import, w: World, i: nat)
    requires PageInHand(imp, w) && w.work.Writing? && UsableRows(imp, w.work.kept)
    requires Done(w) <= i < Done(w) + |w.work.page| && i < |All(imp)| && Usable(imp, All(imp)[i])
    ensures EventId(imp, All(imp)[i]) in ReceiptsOf(imp, w.work.kept)
  {
    var page := w.work.page;
    MapRowsMeans(imp, page);
    assert page[i - Done(w)] == All(imp)[i] && All(imp)[i] in page;
    PageReceipt(imp, w.work.kept, All(imp)[i]);
  }

  lemma CheckpointTidy(imp: Import, w: World)
    requires PageInHand(imp, w) && Tidy(imp, w) && w.work.Writing? && UsableRows(imp, w.work.kept)
    ensures TidyRows(imp, w.journal.db.queue, Done(w) + |w.work.page|, ReceiptsOf(imp, w.work.kept))
  {
    var receipts := ReceiptsOf(imp, w.work.kept);
    forall i | 0 <= i < Done(w) + |w.work.page| && i < |All(imp)| && Usable(imp, All(imp)[i])
      ensures TidyRow(imp, w.journal.db.queue, receipts, All(imp)[i])
    {
      if i < Done(w) {
        assert TidyRow(imp, w.journal.db.queue, Remaining(w), All(imp)[i]);
      } else {
        PageRowTidy(imp, w, i);
      }
    }
  }

  lemma StoredTidy(imp: Import, w: World)
    requires WorldInv(imp, w) && Tidy(imp, w)
    ensures Tidy(imp, StoreCheckpoint(imp, w))
  {
    var next := StoreCheckpoint(imp, w);
    if next != w {
      CheckpointTidy(imp, w);
      assert Remaining(next) == ReceiptsOf(imp, w.work.kept) && Done(next) == Done(w) + |w.work.page|;
    }
  }

  lemma MoreRemaining(imp: Import, q: seq<Row>, n: nat, remaining: seq<string>, more: seq<string>)
    requires TidyRows(imp, q, n, remaining) && forall r :: r in remaining ==> r in more
    ensures TidyRows(imp, q, n, more)
  {
    forall i | 0 <= i < n && i < |All(imp)| && Usable(imp, All(imp)[i]) ensures TidyRow(imp, q, more, All(imp)[i]) {
      assert TidyRow(imp, q, remaining, All(imp)[i]);
    }
  }

  /** Acknowledging may start over. */
  lemma IdleTidy(imp: Import, w: World)
    requires Tidy(imp, w)
    ensures Tidy(imp, w.(work := Idle(0)))
  {
    assert w.job.receipts[0..] == w.job.receipts;
    MoreRemaining(imp, w.journal.db.queue, Done(w), Remaining(w), w.job.receipts);
  }

  lemma CrashTidy(imp: Import, limits: J.Limits, w: World, reopenOk: bool)
    requires Inv(w.journal) && Tidy(imp, w)
    ensures Tidy(imp, World(J.Reopen(w.journal, reopenOk), w.job, Idle(0)))
  {
    var idle, step := w.(work := Idle(0)), J.DoReopen(reopenOk);
    IdleTidy(imp, w);
    assert SubmitsNone(imp, step, Done(w));
    StepTidies(imp, limits, w.journal, step, Done(w), Remaining(idle));
    assert J.Next(limits, w.journal, step) == J.Reopen(w.journal, reopenOk);
  }

  lemma GiveUpTidy(imp: Import, w: World, permanent: bool)
    requires Tidy(imp, w)
    ensures Tidy(imp, Abandon(w, permanent))
  {
    IdleTidy(imp, w);
  }

  lemma ForgetTidy(imp: Import, w: World)
    requires Tidy(imp, w)
    ensures Tidy(imp, Forget(w))
  {
  }

  lemma PageTidy(imp: Import, w: World, verdict: Verdict, at: nat)
    requires Tidy(imp, w)
    ensures Tidy(imp, StartPage(imp, w)) && Tidy(imp, EndRange(imp, w, verdict)) && Tidy(imp, Report(imp, w, at))
  {
    assert Ready(w) ==> Remaining(w) == [];
  }

  lemma MoveTidy(imp: Import, limits: J.Limits, w: World, move: Move)
    requires WorldInv(imp, w) && Tidy(imp, w)
    requires move.Other? ==> Foreign(imp, move.step)
    ensures Tidy(imp, NextWorld(imp, limits, w, move))
  {
    JournalPart(imp, w);
    match move
    case Other(step) => OtherTidy(imp, limits, w, step);
    case AcknowledgeNext => AcknowledgeTidy(imp, limits, w);
    case ForgetReceipts => ForgetTidy(imp, w);
    case BeginPage => PageTidy(imp, w, Visible, 0);
    case FinishRange(verdict) => PageTidy(imp, w, verdict, 0);
    case SubmitRow(i, diskFree, sqliteOk, mirrorOk) => SubmitTidy(imp, limits, w, i, diskFree, sqliteOk, mirrorOk);
    case ReportRow(at) => PageTidy(imp, w, Visible, at);
    case Checkpoint => StoredTidy(imp, w);
    case GiveUp(permanent) => GiveUpTidy(imp, w, permanent);
    case Crash(reopenOk) => CrashTidy(imp, limits, w, reopenOk);
  }

  lemma {:induction false} RunTidy(imp: Import, limits: J.Limits, w: World, moves: seq<Move>)
    requires WorldInv(imp, w) && Tidy(imp, w) && Allowed(imp, moves)
    ensures Tidy(imp, RunWorld(imp, limits, w, moves)) && WorldInv(imp, RunWorld(imp, limits, w, moves))
    decreases |moves|
  {
    if moves != [] {
      MoveKeeps(imp, limits, w, moves[0]);
      MoveTidy(imp, limits, w, moves[0]);
      RunTidy(imp, limits, NextWorld(imp, limits, w, moves[0]), moves[1..]);
    }
  }

  /** In every run: of the rows at or below the stored cursor the journal holds only such as a stored receipt names; while
      a page is written, and in a completed job, there is no receipt and so none. */
  lemma NothingIsLeftBehind(imp: Import, limits: J.Limits, journal: J.State, moves: seq<Move>, i: nat)
    requires InOrder(imp.table) && Unused(imp, journal) && Allowed(imp, moves)
    requires i < |All(imp)| && Usable(imp, All(imp)[i])
    requires i < AtOrBelow(All(imp), RunWorld(imp, limits, NewWorld(journal), moves).job.cursor)
    ensures var w := RunWorld(imp, limits, NewWorld(journal), moves);
            && (HasId(w.journal.db.queue, PartId(imp, All(imp)[i])) ==> EventId(imp, All(imp)[i]) in w.job.receipts)
            && (w.work.Writing? || w.job.state == Completed ==> w.job.receipts == [])
  {
    hide RunWorld;
    var w := RunWorld(imp, limits, NewWorld(journal), moves);
    NewWorldInv(imp, journal);
    RunTidy(imp, limits, NewWorld(journal), moves);
    CoveredCount(imp.table, imp.from, imp.to, Done(w), w.job.cursor);
    assert TidyRow(imp, w.journal.db.queue, Remaining(w), All(imp)[i]);
    assert forall r :: r in Remaining(w) ==> r in w.job.receipts;
  }
}
