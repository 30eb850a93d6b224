/** How the steps of a backfill end: which pages begin, and what blocks or completes the job. */
module HistoricalSteps {
  import opened Common
  import J = JournalModel
  import opened HistoricalSource
  import opened HistoricalImport

  ghost predicate AcceptableAt(imp: Import, i: nat)
    requires i < |All(imp)|
  {
    && ValidRow(All(imp)[i], imp.from, imp.to)
    && (i >= 1 ==> Precedes(All(imp)[i - 1].cursor, All(imp)[i].cursor))
  }

  /** Rows `n` up to `m` of the range are acceptable: each is valid and comes strictly after the one before it. */
  ghost predicate Acceptable(imp: Import, n: nat, m: nat) {
    forall i :: n <= i < m && i < |All(imp)| ==> AcceptableAt(imp, i)
  }

  /** How far a read looks: one row more than a page. */
  function Looked(imp: Import, n: nat): nat {
    Min(|All(imp)|, n + MAX_PAGE_ROWS + 1)
  }

  lemma FetchedRows(imp: Import, n: nat, after: Option<Cursor>)
    requires InOrder(imp.table) && Covered(imp.table, imp.from, imp.to, n, after)
    ensures n <= Looked(imp, n) <= |All(imp)|
    ensures Fetch(imp.table, Lower(imp.from, after), MAX_PAGE_ROWS) == All(imp)[n..Looked(imp, n)]
  {
    RestOfRange(imp.table, imp.from, imp.to, n, after);
  }

  lemma PassesAt(imp: Import, n: nat, after: Option<Cursor>, k: nat)
    requires Covered(imp.table, imp.from, imp.to, n, after) && n + k < Looked(imp, n)
    ensures Passes(All(imp)[n..Looked(imp, n)], k, imp.from, imp.to, after) <==> AcceptableAt(imp, n + k)
  {
    var rows := All(imp)[n..Looked(imp, n)];
    assert rows[k] == All(imp)[n + k];
    if k > 0 {
      assert rows[k - 1] == All(imp)[n + k - 1];
      CompareMeans(rows[k - 1].cursor, rows[k].cursor);
    } else if n > 0 {
      CompareMeans(All(imp)[n - 1].cursor, rows[0].cursor);
    }
  }

  lemma AcceptableReads(imp: Import, n: nat, after: Option<Cursor>)
    requires InOrder(imp.table) && Covered(imp.table, imp.from, imp.to, n, after)
    requires Acceptable(imp, n, n + MAX_PAGE_ROWS + 1)
    ensures Read(imp.table, imp.from, imp.to, after, MAX_PAGE_ROWS)
         == Rows(All(imp)[n..Min(|All(imp)|, n + MAX_PAGE_ROWS)])
  {
    var rows := All(imp)[n..Looked(imp, n)];
    FetchedRows(imp, n, after);
    forall k | 0 <= k < |rows| ensures Passes(rows, k, imp.from, imp.to, after) {
      PassesAt(imp, n, after, k);
    }
    CheckPrefix(rows, |rows|, imp.from, imp.to, after);
    assert |rows| > MAX_PAGE_ROWS ==> rows[..MAX_PAGE_ROWS] == All(imp)[n..n + MAX_PAGE_ROWS];
  }

  lemma OthersFail(imp: Import, n: nat, after: Option<Cursor>)
    requires InOrder(imp.table) && Covered(imp.table, imp.from, imp.to, n, after)
    requires !Acceptable(imp, n, n + MAX_PAGE_ROWS + 1)
    ensures !Read(imp.table, imp.from, imp.to, after, MAX_PAGE_ROWS).Rows?
  {
    var rows := All(imp)[n..Looked(imp, n)];
    FetchedRows(imp, n, after);
    var i :| n <= i < n + MAX_PAGE_ROWS + 1 && i < |All(imp)| && !AcceptableAt(imp, i);
    PassesAt(imp, n, after, i - n);
    var first := FirstFailure(rows, imp.from, imp.to, after, i - n);
    CheckPrefix(rows, first, imp.from, imp.to, after);
  }

  /** A page is read exactly if it and the row behind it are acceptable. */
  lemma ReadExactly(imp: Import, n: nat, after: Option<Cursor>)
    requires InOrder(imp.table) && Covered(imp.table, imp.from, imp.to, n, after)
    ensures var page := Read(imp.table, imp.from, imp.to, after, MAX_PAGE_ROWS);
            && (page.Rows? <==> Acceptable(imp, n, n + MAX_PAGE_ROWS + 1))
            && (page.Rows? ==> page.rows == All(imp)[n..Min(|All(imp)|, n + MAX_PAGE_ROWS)])
  {
    if Acceptable(imp, n, n + MAX_PAGE_ROWS + 1) {
      AcceptableReads(imp, n, after);
    } else {
      OthersFail(imp, n, after);
    }
  }

  lemma {:induction false} FirstFailure(rows: seq<SourceRow>, from: int, to: int, previous: Option<Cursor>, k: nat)
    returns (first: nat)
    requires k < |rows| && !Passes(rows, k, from, to, previous)
    ensures first <= k && !Passes(rows, first, from, to, previous)
    ensures forall i :: 0 <= i < first ==> Passes(rows, i, from, to, previous)
  {
    if i :| 0 <= i < k && !Passes(rows, i, from, to, previous) {
      first := FirstFailure(rows, from, to, previous, i);
    } else {
      first := k;
    }
  }

  /** The rows of the page that are written, in their order. */
  function Kept(imp: Import, rows: seq<SourceRow>): seq<SourceRow> {
    if rows == [] then []
    else (if IsKept(imp, rows[0]) then [rows[0]] else []) + Kept(imp, rows[1..])
  }

  lemma {:induction false} MappedAre(imp: Import, rows: seq<SourceRow>)
    ensures MapRows(imp, rows).Some? ==> MapRows(imp, rows).value == Kept(imp, rows)
  {
    if rows != [] {
      MappedAre(imp, rows[1..]);
    }
  }

  /** The next page begins exactly if there is one, it and the row behind it are acceptable, and each of its rows can be
      mapped; it writes the rows before their cutoff, in their order. Otherwise a page blocks the job. */
  lemma PageBeginsExactly(imp: Import, w: World)
    requires WorldInv(imp, w) && w.work.Idle? && w.job.state == Active && w.job.receipts == []
    ensures var n, all, next := Done(w), All(imp), StartPage(imp, w);
            var page := all[n..Min(|all|, n + MAX_PAGE_ROWS)];
            var good := Acceptable(imp, n, n + MAX_PAGE_ROWS + 1) && forall r :: r in page ==> !Unmappable(imp, r);
            && (n == |all| ==> next == w)
            && (n < |all| && good ==> next == w.(work := Writing(page, Kept(imp, page), {})))
            && (n < |all| && !good ==> next == w.(job := w.job.(state := Blocked)))
  {
    var n, all := Done(w), All(imp);
    var page := all[n..Min(|all|, n + MAX_PAGE_ROWS)];
    ReadExactly(imp, n, w.job.cursor);
    MapRowsFails(imp, page);
    MappedAre(imp, page);
    if r :| r in page && Unmappable(imp, r) {
      var i :| 0 <= i < |page| && page[i] == r;
    }
    assert forall i :: 0 <= i < |page| ==> page[i] in page;
  }

  /** At the end of the range what is visible decides: the job is completed, tries again, or is blocked. */
  lemma RangeEndsExactly(imp: Import, w: World, verdict: Verdict)
    requires WorldInv(imp, w) && w.work.Idle? && w.job.state == Active && w.job.receipts == []
    ensures var next := EndRange(imp, w, verdict);
            && (Done(w) < |All(imp)| || verdict.Unavailable? ==> next == w)
            && (Done(w) == |All(imp)| && verdict.Visible? ==> next == w.(job := w.job.(state := Completed)))
            && (Done(w) == |All(imp)| && verdict.Mismatch? ==> next == w.(job := w.job.(state := Blocked)))
  {
    ReadExactly(imp, Done(w), w.job.cursor);
    if Done(w) == |All(imp)| {
      assert Acceptable(imp, Done(w), Done(w) + MAX_PAGE_ROWS + 1);
      assert All(imp)[Done(w)..Min(|All(imp)|, Done(w) + MAX_PAGE_ROWS)] == [];
    }
  }

  /** Neither happens while a page is written, to a job that is not active, or before its receipts are acknowledged. */
  lemma NotBefore(imp: Import, w: World, verdict: Verdict)
    requires w.work.Writing? || w.job.state != Active || w.job.receipts != []
    ensures StartPage(imp, w) == w && EndRange(imp, w, verdict) == w
  {
  }

  /** The stored receipts are acknowledged one after the other, then forgotten. */
  lemma AcknowledgingExactly(imp: Import, limits: J.Limits, w: World, n: nat)
    requires w.work == Idle(n)
    ensures n < |w.job.receipts| ==>
              NextWorld(imp, limits, w, AcknowledgeNext)
              == w.(journal := J.Next(limits, w.journal, J.DoAcknowledgeLegacy(w.job.receipts[n])), work := Idle(n + 1))
              && NextWorld(imp, limits, w, ForgetReceipts) == w
    ensures n >= |w.job.receipts| ==>
              NextWorld(imp, limits, w, AcknowledgeNext) == w
              && NextWorld(imp, limits, w, ForgetReceipts) == w.(job := w.job.(receipts := []), work := Idle(0))
  {
  }

  /** An error drops the page and lets acknowledging start over; a permanent one blocks the job, and nothing else of what
      is stored changes. */
  lemma GiveUpExactly(imp: Import, limits: J.Limits, w: World, permanent: bool)
    ensures NextWorld(imp, limits, w, GiveUp(permanent))
         == if w.work.Writing? || w.job.state == Active
            then World(w.journal, w.job.(state := if permanent then Blocked else w.job.state), Idle(0))
            else w
  {
  }

  /** Nothing but these steps changes the state of a job, its cursor, or its counters. */
  lemma JobStays(imp: Import, limits: J.Limits, w: World, move: Move)
    requires !move.BeginPage? && !move.FinishRange? && !move.Checkpoint? && !(move.GiveUp? && move.permanent)
    ensures var job := NextWorld(imp, limits, w, move).job;
            job == w.job || (move.ForgetReceipts? && job == w.job.(receipts := []))
  {
  }

  /** A page is covered once all its writes are reported: the cursor moves to its last row, the counters by its rows. */
  lemma CheckpointExactly(imp: Import, w: World)
    requires WorldInv(imp, w) && w.work.Writing?
    ensures var next, kept, page := StoreCheckpoint(imp, w), w.work.kept, w.work.page;
            var whole := forall k :: 0 <= k < |kept| ==> k in w.work.reported;
            && (!whole ==> next == w)
            && (whole ==>
                  && next.work == Idle(0) && next.journal == w.journal
                  && next.job.cursor == Some(page[|page| - 1].cursor) && next.job.state == w.job.state
                  && next.job.written == w.job.written + |kept|
                  && next.job.skipped == w.job.skipped + |page| - |kept|
                  && |next.job.receipts| == |kept|
                  && forall k :: 0 <= k < |kept| && Usable(imp, kept[k]) ==> next.job.receipts[k] == EventId(imp, kept[k]))
  {
    MapRowsMeans(imp, w.work.page);
    forall k | 0 <= k < |w.work.kept| ensures Usable(imp, w.work.kept[k]) {
      var at := KeptRowPosition(imp, w, k);
    }
  }

  /** A write is reported exactly when the journal has its part confirmed. */
  lemma ReportExactly(imp: Import, w: World, i: nat)
    requires WorldInv(imp, w) && w.work.Writing? && i < |w.work.kept| && Usable(imp, w.work.kept[i])
    ensures var next := Report(imp, w, i);
            var confirmed := exists r :: r in w.journal.db.queue && r.confirmed && r.id == PartId(imp, w.work.kept[i]);
            next == w.(work := w.work.(reported := w.work.reported + if confirmed then {i} else {}))
  {
    var q, id := w.journal.db.queue, PartId(imp, w.work.kept[i]);
    if k :| 0 <= k < |q| && q[k].id == id && q[k].confirmed {
      assert q[k] in q;
    }
    if r :| r in q && r.confirmed && r.id == id {
      var k :| 0 <= k < |q| && q[k] == r;
    }
    assert w.work.reported + {} == w.work.reported;
  }

  /** What the range consists of: the rows behind its start and the empty key, each as often as the source has it and in
      its order. */
  lemma {:induction false} RangeExactly(table: seq<SourceRow>, from: int)
    ensures forall r :: r in InRange(table, from) <==>
              r in table && (r.cursor.time > from || (r.cursor.time == from && r.cursor.key != ""))
    ensures multiset(InRange(table, from)) <= multiset(table)
  {
    if table != [] {
      RangeExactly(table[1..], from);
      assert table == [table[0]] + table[1..];
    }
  }

  /** A row is acceptable by itself exactly if its instant is from 1970 on, before the year 33658 and in the range, its key
      is of 1 to 512 printable characters, and it names a series. */
  lemma ValidRowExactly(r: SourceRow, from: int, to: int)
    ensures ValidRow(r, from, to) <==>
              && r.cursor.time >= 0 && r.cursor.time < 1_000_000_000_000_000_000
              && r.cursor.time >= from && r.cursor.time < to
              && |r.cursor.key| >= 1 && |r.cursor.key| <= 512
              && (forall i :: 0 <= i < |r.cursor.key| ==> 33 <= r.cursor.key[i] as int <= 126)
              && r.series != ""
  {
    assert forall i :: 0 <= i < |r.cursor.key| ==> r.cursor.key[i] in r.cursor.key;
  }

  /** A page that is written holds such rows of the source only. */
  lemma PageRowsAreValid(imp: Import, w: World, r: SourceRow)
    requires WorldInv(imp, w) && w.work.Writing? && r in w.work.page
    ensures r in imp.table && ValidRow(r, imp.from, imp.to)
  {
    var i :| 0 <= i < |w.work.page| && w.work.page[i] == r;
    assert All(imp)[Done(w) + i] == r;
    RangeExactly(imp.table, imp.from);
    assert r in All(imp);
  }
}
