/** What a backfill writes: each row of the source under the table, the topic, the key and the payload of its mapping. */
module HistoricalRows {
  import opened Common
  import opened JournalRows
  import J = JournalModel
  import opened JournalInvariant
  import opened JournalParts
  import opened JournalPause
  import opened JournalTracking
  import opened HistoricalSource
  import opened HistoricalImport
  import opened JsonTexts

  // Mappings.

  /** The mapping at `k` is the first one of the series. */
  ghost predicate IsFirst(mappings: seq<Mapping>, series: string, k: nat) {
    && k < |mappings| && mappings[k].series == series
    && forall j :: 0 <= j < k ==> mappings[j].series != series
  }

  lemma {:induction false} MappingForFirst(mappings: seq<Mapping>, series: string, k: nat)
    requires IsFirst(mappings, series, k)
    ensures MappingFor(mappings, series) == Some(mappings[k])
  {
    if k > 0 {
      assert forall j :: 0 <= j < k - 1 ==> mappings[1..][j] == mappings[j + 1];
      MappingForFirst(mappings[1..], series, k - 1);
    }
  }

  lemma {:induction false} Unmapped(mappings: seq<Mapping>, series: string)
    ensures MappingFor(mappings, series).None? <==> forall k :: 0 <= k < |mappings| ==> mappings[k].series != series
  {
    if mappings != [] {
      Unmapped(mappings[1..], series);
      assert mappings == [mappings[0]] + mappings[1..];
      if k :| 0 <= k < |mappings| && mappings[k].series == series && k > 0 {
        assert mappings[1..][k - 1].series == series;
      }
      if k :| 0 <= k < |mappings[1..]| && mappings[1..][k].series == series {
        assert mappings[k + 1].series == series;
      }
    }
  }

  /** A row fails its page if its series is not mapped, and else is written exactly if it lies before the cutoff of the
      first mapping of it. */
  lemma KeptExactly(imp: Import, row: SourceRow)
    ensures (forall k: nat :: !IsFirst(imp.mappings, row.series, k)) ==> Unmappable(imp, row)
    ensures forall k: nat :: IsFirst(imp.mappings, row.series, k) ==>
              var m := imp.mappings[k];
              && (IsKept(imp, row) <==> (m.before.Some? ==> row.cursor.time < m.before.value))
              && (Unmappable(imp, row) <==> IsKept(imp, row) && !row.convertible)
  {
    forall k: nat | IsFirst(imp.mappings, row.series, k)
      ensures MappingFor(imp.mappings, row.series) == Some(imp.mappings[k])
    {
      MappingForFirst(imp.mappings, row.series, k);
    }
    if forall k: nat :: !IsFirst(imp.mappings, row.series, k) {
      NoFirst(imp.mappings, row.series, |imp.mappings|);
      Unmapped(imp.mappings, row.series);
    }
  }

  lemma {:induction false} NoFirst(mappings: seq<Mapping>, series: string, n: nat)
    requires n <= |mappings| && forall k: nat :: !IsFirst(mappings, series, k)
    ensures forall k :: 0 <= k < n ==> mappings[k].series != series
  {
    if n > 0 {
      NoFirst(mappings, series, n - 1);
      assert !IsFirst(mappings, series, n - 1);
    }
  }

  // Entries in the journal.

  predicate IsRowOf(r: Row, e: J.Entry) {
    && r.target == e.table && r.topic == e.topic && r.legacyKey == e.legacyKey
    && (!r.confirmed ==> r.payload == e.payload)
  }

  /** Whatever the journal holds or handed over under the id of the entry is the entry. */
  ghost predicate Placed(s: J.State, e: J.Entry) {
    && (forall r :: r in s.db.queue && r.id == e.id ==> IsRowOf(r, e))
    && (forall k :: 0 <= k < |s.log| && s.log[k].Handed? && s.log[k].id == e.id ==> s.log[k].target == e.table)
  }

  /** Whoever submits the id submits the entry. */
  predicate Consistent(step: J.Step, e: J.Entry) {
    step.DoAdmit? ==> forall i :: 0 <= i < |step.batch| && step.batch[i].entry.id == e.id ==> step.batch[i].entry == e
  }

  lemma {:induction false} AdmitAllPlaced(limits: J.Limits, db: J.Store, batch: seq<J.Submission>, e: J.Entry)
    requires forall r :: r in db.queue && r.id == e.id ==> IsRowOf(r, e)
    requires forall i :: 0 <= i < |batch| && batch[i].entry.id == e.id ==> batch[i].entry == e
    ensures var next := J.AdmitAll(limits, db, batch);
            next.Some? ==> forall r :: r in next.value.queue && r.id == e.id ==> IsRowOf(r, e)
    decreases |batch|
  {
    if batch != [] {
      var one := J.AdmitOne(limits, db, batch[0]);
      if one.Some? {
        assert forall i :: 0 <= i < |batch[1..]| ==> batch[1..][i] == batch[i + 1];
        AdmitAllPlaced(limits, one.value, batch[1..], e);
      }
    }
  }

  lemma PartsPlaced(q: seq<Row>, next: seq<Row>, e: J.Entry)
    requires SameParts(q, next) && forall r :: r in q && r.id == e.id ==> IsRowOf(r, e)
    ensures forall r :: r in next && r.id == e.id ==> IsRowOf(r, e)
  {
    forall r | r in next && r.id == e.id ensures IsRowOf(r, e) {
      var i :| 0 <= i < |next| && next[i] == r;
      assert q[i] in q && Continues(q[i], next[i]);
    }
  }

  lemma BeginPlaced(s: J.State, token: nat, markOk: bool, e: J.Entry)
    requires Inv(s) && Placed(s, e)
    ensures Placed(J.Begin(s, token, markOk), e)
  {
    BeginParts(s, token, markOk);
    PartsPlaced(s.db.queue, J.Begin(s, token, markOk).db.queue, e);
    var i := J.Current(s, token, J.Installed);
    if i.Some? {
      var k := StoredAt(s, i.value);
      assert s.db.queue[k] in s.db.queue;
    }
  }

  lemma FlightPlaced(limits: J.Limits, s: J.State, step: J.Step, e: J.Entry)
    requires Inv(s) && Placed(s, e) && WorksFlight(step)
    ensures Placed(J.Next(limits, s, step), e)
  {
    if step.DoBegin? {
      BeginPlaced(s, step.token, step.markOk, e);
    } else {
      WriteParts(limits, s, step);
      PartsPlaced(s.db.queue, J.Next(limits, s, step).db.queue, e);
      if step.DoTryHead? {
        StartRowsFlights(limits, s, J.Window(s.db.queue, step.target), step.now, step.room);
      }
    }
  }

  lemma RestPlaced(limits: J.Limits, s: J.State, step: J.Step, e: J.Entry)
    requires Placed(s, e) && !step.DoAdmit? && !DropsReceipts(step) && !WorksFlight(step)
    ensures Placed(J.Next(limits, s, step), e)
  {
    RestParts(limits, s, step);
    PartsPlaced(s.db.queue, J.Next(limits, s, step).db.queue, e);
    if !step.DoReopen? {
      RestFrame(limits, s, step);
    }
  }

  lemma NextPlaced(limits: J.Limits, s: J.State, step: J.Step, e: J.Entry)
    requires Inv(s) && Placed(s, e) && Consistent(step, e)
    ensures Placed(J.Next(limits, s, step), e)
  {
    if step.DoAdmit? {
      AdmitAllPlaced(limits, s.db, step.batch, e);
    } else if DropsReceipts(step) {
      var dropped := DropStep(limits, s, step);
      KeepMembers(s.db.queue, dropped);
    } else if WorksFlight(step) {
      FlightPlaced(limits, s, step, e);
    } else {
      RestPlaced(limits, s, step, e);
    }
  }

  // Runs of a job.

  ghost predicate AllPlaced(imp: Import, journal: J.State) {
    forall i :: 0 <= i < |All(imp)| && Usable(imp, All(imp)[i]) ==> Placed(journal, EntryFor(imp, All(imp)[i]))
  }

  ghost predicate AllConsistent(imp: Import, step: J.Step) {
    forall i :: 0 <= i < |All(imp)| && Usable(imp, All(imp)[i]) ==> Consistent(step, EntryFor(imp, All(imp)[i]))
  }

  lemma StepPlaces(imp: Import, limits: J.Limits, journal: J.State, step: J.Step)
    requires Inv(journal) && AllPlaced(imp, journal) && AllConsistent(imp, step)
    ensures AllPlaced(imp, J.Next(limits, journal, step))
  {
    forall i | 0 <= i < |All(imp)| && Usable(imp, All(imp)[i])
      ensures Placed(J.Next(limits, journal, step), EntryFor(imp, All(imp)[i]))
    {
      NextPlaced(limits, journal, step, EntryFor(imp, All(imp)[i]));
    }
  }

  lemma ForeignConsistent(imp: Import, step: J.Step)
    requires Foreign(imp, step)
    ensures AllConsistent(imp, step)
  {
    forall i | 0 <= i < |All(imp)| && Usable(imp, All(imp)[i]) ensures Consistent(step, EntryFor(imp, All(imp)[i])) {
      assert All(imp)[i] in All(imp);
      assert Unrelated(step, PartId(imp, All(imp)[i]), EventId(imp, All(imp)[i]), false);
    }
  }

  lemma SubmitConsistent(imp: Import, w: World, i: nat, diskFree: nat, sqliteOk: bool, mirrorOk: bool)
    requires WorldInv(imp, w) && w.work.Writing? && i < |w.work.kept| && Usable(imp, w.work.kept[i])
    ensures AllConsistent(imp, J.DoAdmit([J.Submission(EntryFor(imp, w.work.kept[i]), diskFree)], sqliteOk, mirrorOk))
  {
    var k := KeptRowPosition(imp, w, i);
    forall j | 0 <= j < |All(imp)| && Usable(imp, All(imp)[j])
      ensures PartId(imp, All(imp)[j]) == PartId(imp, w.work.kept[i]) ==> j == k
    {
      SubmittedElsewhere(imp, w, k, j);
    }
  }

  lemma SubmitPlaces(imp: Import, limits: J.Limits, w: World, i: nat, diskFree: nat, sqliteOk: bool, mirrorOk: bool)
    requires WorldInv(imp, w) && AllPlaced(imp, w.journal)
    ensures AllPlaced(imp, Submit(imp, limits, w, i, diskFree, sqliteOk, mirrorOk).journal)
  {
    if w.work.Writing? && i < |w.work.kept| && Usable(imp, w.work.kept[i]) {
      SubmitConsistent(imp, w, i, diskFree, sqliteOk, mirrorOk);
      StepPlaces(imp, limits, w.journal,
                 J.DoAdmit([J.Submission(EntryFor(imp, w.work.kept[i]), diskFree)], sqliteOk, mirrorOk));
    }
  }

  lemma AcknowledgePlaces(imp: Import, limits: J.Limits, w: World)
    requires Inv(w.journal) && AllPlaced(imp, w.journal)
    ensures AllPlaced(imp, AcknowledgeOne(limits, w).journal)
  {
    if w.work.Idle? && w.work.acknowledged < |w.job.receipts| {
      StepPlaces(imp, limits, w.journal, J.DoAcknowledgeLegacy(w.job.receipts[w.work.acknowledged]));
    }
  }

  lemma ReopenPlaces(imp: Import, limits: J.Limits, journal: J.State, reopenOk: bool)
    requires Inv(journal) && AllPlaced(imp, journal)
    ensures AllPlaced(imp, J.Reopen(journal, reopenOk))
  {
    var step := J.DoReopen(reopenOk);
    StepPlaces(imp, limits, journal, step);
    assert J.Next(limits, journal, step) == J.Reopen(journal, reopenOk);
  }

  lemma OtherPlaces(imp: Import, limits: J.Limits, journal: J.State, step: J.Step)
    requires Inv(journal) && AllPlaced(imp, journal) && Foreign(imp, step)
    ensures AllPlaced(imp, J.Next(limits, journal, step))
  {
    ForeignConsistent(imp, step);
    StepPlaces(imp, limits, journal, step);
  }

  lemma MovePlaces(imp: Import, limits: J.Limits, w: World, move: Move)
    requires WorldInv(imp, w) && AllPlaced(imp, w.journal)
    requires move.Other? ==> Foreign(imp, move.step)
    ensures AllPlaced(imp, NextWorld(imp, limits, w, move).journal)
  {
    hide J.Next;
    match move
    case Other(step) => OtherPlaces(imp, limits, w.journal, step);
    case AcknowledgeNext => AcknowledgePlaces(imp, limits, w);
    case SubmitRow(i, diskFree, sqliteOk, mirrorOk) => SubmitPlaces(imp, limits, w, i, diskFree, sqliteOk, mirrorOk);
    case Crash(reopenOk) => ReopenPlaces(imp, limits, w.journal, reopenOk);
    case _ => assert NextWorld(imp, limits, w, move).journal == w.journal;
  }

  lemma {:induction false} RunPlaces(imp: Import, limits: J.Limits, w: World, moves: seq<Move>)
    requires WorldInv(imp, w) && AllPlaced(imp, w.journal) && Allowed(imp, moves)
    ensures AllPlaced(imp, RunWorld(imp, limits, w, moves).journal)
    decreases |moves|
  {
    if moves != [] {
      MoveKeeps(imp, limits, w, moves[0]);
      MovePlaces(imp, limits, w, moves[0]);
      RunPlaces(imp, limits, NextWorld(imp, limits, w, moves[0]), moves[1..]);
    }
  }

  /** Nothing was handed over under the ids of the job yet. */
  ghost predicate Unheard(imp: Import, journal: J.State) {
    forall row, k :: row in All(imp) && Usable(imp, row) && 0 <= k < |journal.log| && journal.log[k].Handed? ==>
      journal.log[k].id != PartId(imp, row)
  }

  lemma UnusedPlaced(imp: Import, journal: J.State)
    requires Unused(imp, journal) && Unheard(imp, journal)
    ensures AllPlaced(imp, journal)
  {
    forall i | 0 <= i < |All(imp)| && Usable(imp, All(imp)[i]) ensures Placed(journal, EntryFor(imp, All(imp)[i])) {
      assert All(imp)[i] in All(imp);
      forall r | r in journal.db.queue ensures r.id != PartId(imp, All(imp)[i]) {
        var k :| 0 <= k < |journal.db.queue| && journal.db.queue[k] == r;
      }
    }
  }

  /** In every run of a job, with crashes at any point: what the journal holds under the id of a source row has the table
      and the topic of the first mapping of its series, the key of the row and, while it is to be written, its payload;
      and what is handed over under that id goes to that table. */
  lemma RowsGoWhereMapped(imp: Import, limits: J.Limits, journal: J.State, moves: seq<Move>, i: nat, k: nat)
    requires InOrder(imp.table) && Unused(imp, journal) && Unheard(imp, journal) && Allowed(imp, moves)
    requires i < |All(imp)| && Usable(imp, All(imp)[i]) && IsFirst(imp.mappings, All(imp)[i].series, k)
    ensures var w, row, m := RunWorld(imp, limits, NewWorld(journal), moves), All(imp)[i], imp.mappings[k];
            && (forall r :: r in w.journal.db.queue && r.id == PartId(imp, row) ==>
                  && r.target == m.target && r.topic == m.topic && r.legacyKey == Some(EventId(imp, row))
                  && (!r.confirmed ==> r.payload == row.payload))
            && (forall n :: 0 <= n < |w.journal.log| && w.journal.log[n].Handed? && w.journal.log[n].id == PartId(imp, row)
                  ==> w.journal.log[n].target == m.target)
  {
    NewWorldInv(imp, journal);
    UnusedPlaced(imp, journal);
    RunPlaces(imp, limits, NewWorld(journal), moves);
    MappingForFirst(imp.mappings, All(imp)[i].series, k);
    assert Placed(RunWorld(imp, limits, NewWorld(journal), moves).journal, EntryFor(imp, All(imp)[i]));
  }

  /** The ids of a row: what the event id digests, and the part of it. */
  lemma IdsOf(imp: Import, row: SourceRow, k: nat)
    requires IsKept(imp, row) && 0 <= row.cursor.time && IsFirst(imp.mappings, row.series, k)
    ensures var m := imp.mappings[k];
            && EventId(imp, row) == "history:" + imp.jobId + ":"
                 + ArrayText([imp.profileId, m.topic, m.kind, Decimal(row.cursor.time), row.cursor.key])
            && PartId(imp, row) == EventId(imp, row) + ":" + m.kind
  {
    MappingForFirst(imp.mappings, row.series, k);
  }
}
