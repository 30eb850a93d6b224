/** The checkpointed backfill over the target journal: writes, then the checkpoint, then the receipts. A crash may fall
    between any two of these, and the journal keeps serving everybody else in between. */
module HistoricalImport {
  import opened Common
  import opened JournalRows
  import J = JournalModel
  import opened JournalInvariant
  import opened JournalReceipts
  import opened JournalTracking
  import opened HistoricalSource
  import opened JsonTexts
  import opened UtcInstants

  datatype Mapping = Mapping(series: string, topic: string, kind: string, target: string, before: Option<int>)

  /** What a job is fixed to by its contract and seal. */
  datatype Import = Import(
    jobId: string, profileId: string, table: seq<SourceRow>, from: int, to: int, mappings: seq<Mapping>)

  datatype JobState = Active | Blocked | Completed

  /** The stored job. */
  datatype Job = Job(state: JobState, cursor: Option<Cursor>, written: nat, skipped: nat, receipts: seq<string>)

  /** What the process holds in memory: how many receipts it has acknowledged, or the page it is writing. */
  datatype Work = Idle(acknowledged: nat) | Writing(page: seq<SourceRow>, kept: seq<SourceRow>, reported: set<nat>)

  datatype World = World(journal: J.State, job: Job, work: Work)

  // Rows and event ids.

  function MappingFor(mappings: seq<Mapping>, series: string): Option<Mapping> {
    if mappings == [] then None
    else if mappings[0].series == series then Some(mappings[0])
    else MappingFor(mappings[1..], series)
  }

  /** The row is mapped and lies before the cutoff of its mapping. */
  predicate IsKept(imp: Import, row: SourceRow) {
    match MappingFor(imp.mappings, row.series)
    case None => false
    case Some(m) => !(m.before.Some? && row.cursor.time >= m.before.value)
  }

  /** The rows of a page that are written; an unmapped series or a value that does not convert fails the page. */
  function MapRows(imp: Import, rows: seq<SourceRow>): Option<seq<SourceRow>> {
    if rows == [] then Some([])
    else if MappingFor(imp.mappings, rows[0].series).None? then None
    else if !IsKept(imp, rows[0]) then MapRows(imp, rows[1..])
    else if !rows[0].convertible then None
    else match MapRows(imp, rows[1..])
      case None => None
      case Some(rest) => Some([rows[0]] + rest)
  }

  function KeptCount(imp: Import, rows: seq<SourceRow>): nat {
    if rows == [] then 0 else (if IsKept(imp, rows[0]) then 1 else 0) + KeptCount(imp, rows[1..])
  }

  /** A number in decimal digits, without leading zeros. */
  function Decimal(n: nat): (s: string)
    ensures IsDigits(s)
  {
    if n < 10 then [Digit(n)] else Decimal(n / 10) + [Digit(n % 10)]
  }

  lemma {:induction false} DecimalValue(n: nat)
    ensures Value(Decimal(n)) == n
  {
    if n < 10 {
      assert Decimal(n)[..0] == "";
    } else {
      DecimalValue(n / 10);
      assert Decimal(n)[..|Decimal(n)| - 1] == Decimal(n / 10);
    }
  }

  /** What the id digests. */
  function Digested(imp: Import, row: SourceRow): seq<string>
    requires IsKept(imp, row) && 0 <= row.cursor.time
  {
    var m := MappingFor(imp.mappings, row.series).value;
    [imp.profileId, m.topic, m.kind, Decimal(row.cursor.time), row.cursor.key]
  }

  /** The digest in the id is injective, so the JSON text that it digests stands for it. */
  function EventId(imp: Import, row: SourceRow): string
    requires IsKept(imp, row) && 0 <= row.cursor.time
  {
    "history:" + imp.jobId + ":" + ArrayText(Digested(imp, row))
  }

  /** The journal id of the one part of a row. */
  function PartId(imp: Import, row: SourceRow): string
    requires IsKept(imp, row) && 0 <= row.cursor.time
  {
    EventId(imp, row) + ":" + MappingFor(imp.mappings, row.series).value.kind
  }

  function EntryFor(imp: Import, row: SourceRow): J.Entry
    requires IsKept(imp, row) && 0 <= row.cursor.time
  {
    var m := MappingFor(imp.mappings, row.series).value;
    J.Entry(PartId(imp, row), m.target, m.topic, row.payload, Some(EventId(imp, row)))
  }

  // Ids tell rows apart.

  predicate Usable(imp: Import, row: SourceRow) {
    IsKept(imp, row) && ValidRow(row, imp.from, imp.to)
  }

  /** Rows with the same id are at the same cursor, and so are rows whose parts have the same id. */
  lemma IdsDiffer(imp: Import, a: SourceRow, b: SourceRow)
    requires Usable(imp, a) && Usable(imp, b)
    ensures EventId(imp, a) == EventId(imp, b) ==> a.cursor == b.cursor
    ensures PartId(imp, a) == PartId(imp, b) ==> a.cursor == b.cursor
  {
    if EventId(imp, a) == EventId(imp, b) {
      DigestDecides(imp, a, b, "", "");
    }
    if PartId(imp, a) == PartId(imp, b) {
      PartText(imp, a);
      PartText(imp, b);
      DigestDecides(imp, a, b, ":" + MappingFor(imp.mappings, a.series).value.kind,
                    ":" + MappingFor(imp.mappings, b.series).value.kind);
    }
  }

  lemma PartText(imp: Import, row: SourceRow)
    requires IsKept(imp, row) && 0 <= row.cursor.time
    ensures PartId(imp, row) == EventId(imp, row) + (":" + MappingFor(imp.mappings, row.series).value.kind)
  {
    Group3(EventId(imp, row), ":", MappingFor(imp.mappings, row.series).value.kind);
  }

  lemma DigestDecides(imp: Import, a: SourceRow, b: SourceRow, x: string, y: string)
    requires Usable(imp, a) && Usable(imp, b) && EventId(imp, a) + x == EventId(imp, b) + y
    ensures a.cursor == b.cursor
  {
    var p, s, t := "history:" + imp.jobId + ":", Digested(imp, a), Digested(imp, b);
    Group3(p, ArrayText(s), x);
    Group3(p, ArrayText(t), y);
    SameFront(p, ArrayText(s) + x, ArrayText(t) + y);
    ArrayTextDecides(s, t, x, y);
    assert s[3] == t[3] && s[4] == t[4];
    DecimalValue(a.cursor.time);
    DecimalValue(b.cursor.time);
  }

  // The machine.

  datatype Verdict = Visible | Unavailable | Mismatch

  datatype Move =
    | Other(step: J.Step)
    | AcknowledgeNext
    | ForgetReceipts
    | BeginPage
    | FinishRange(verdict: Verdict)
    | SubmitRow(i: nat, diskFree: nat, sqliteOk: bool, mirrorOk: bool)
    | ReportRow(at: nat)
    | Checkpoint
    | GiveUp(permanent: bool)
    | Crash(reopenOk: bool)

  function All(imp: Import): seq<SourceRow> {
    InRange(imp.table, imp.from)
  }

  /** What other parts of the program do to the journal: they use other ids and keys, and do not restart it alone. */
  ghost predicate Foreign(imp: Import, step: J.Step) {
    && !step.DoReopen?
    && forall row :: row in All(imp) && Usable(imp, row) ==>
         Unrelated(step, PartId(imp, row), EventId(imp, row), false)
  }

  function AcknowledgeOne(limits: J.Limits, w: World): World {
    if w.work.Idle? && w.work.acknowledged < |w.job.receipts| then
      w.(journal := J.Next(limits, w.journal, J.DoAcknowledgeLegacy(w.job.receipts[w.work.acknowledged])),
         work := Idle(w.work.acknowledged + 1))
    else w
  }

  function Forget(w: World): World {
    if w.work.Idle? && w.work.acknowledged >= |w.job.receipts|
    then w.(job := w.job.(receipts := []), work := Idle(0))
    else w
  }

  predicate Ready(w: World) {
    w.work.Idle? && w.job.state == Active && w.job.receipts == []
  }

  /** Read and map the next page; every error here is permanent. */
  function StartPage(imp: Import, w: World): World {
    if !Ready(w) then w
    else match Read(imp.table, imp.from, imp.to, w.job.cursor, MAX_PAGE_ROWS)
      case Rows(rows) =>
        if rows == [] then w
        else (match MapRows(imp, rows)
          case None => w.(job := w.job.(state := Blocked))
          case Some(kept) => w.(work := Writing(rows, kept, {})))
      case _ => w.(job := w.job.(state := Blocked))
  }

  function EndRange(imp: Import, w: World, verdict: Verdict): World {
    if Ready(w) && Read(imp.table, imp.from, imp.to, w.job.cursor, MAX_PAGE_ROWS) == Rows([]) then
      match verdict
      case Visible => w.(job := w.job.(state := Completed))
      case Unavailable => w
      case Mismatch => w.(job := w.job.(state := Blocked))
    else w
  }

  predicate UsableRows(imp: Import, rows: seq<SourceRow>) {
    forall i :: 0 <= i < |rows| ==> Usable(imp, rows[i])
  }

  function Submit(imp: Import, limits: J.Limits, w: World, i: nat, diskFree: nat, sqliteOk: bool, mirrorOk: bool): World {
    if w.work.Writing? && i < |w.work.kept| && Usable(imp, w.work.kept[i]) then
      w.(journal := J.Admit(limits, w.journal, [J.Submission(EntryFor(imp, w.work.kept[i]), diskFree)],
                            sqliteOk, mirrorOk))
    else w
  }

  /** The write of a row resolves when submit finds its part confirmed. */
  function Report(imp: Import, w: World, i: nat): World {
    if w.work.Writing? && i < |w.work.kept| && Usable(imp, w.work.kept[i])
       && IsConfirmed(w.journal.db.queue, PartId(imp, w.work.kept[i]))
    then w.(work := w.work.(reported := w.work.reported + {i}))
    else w
  }

  function ReceiptsOf(imp: Import, rows: seq<SourceRow>): seq<string>
    requires UsableRows(imp, rows)
  {
    seq(|rows|, i requires 0 <= i < |rows| => EventId(imp, rows[i]))
  }

  predicate AllReported(kept: seq<SourceRow>, reported: set<nat>) {
    forall i :: 0 <= i < |kept| ==> i in reported
  }

  function StoreCheckpoint(imp: Import, w: World): World {
    if w.work.Writing? && w.work.page != [] && AllReported(w.work.kept, w.work.reported)
       && UsableRows(imp, w.work.kept) && |w.work.kept| <= |w.work.page|
    then
      var page, kept := w.work.page, w.work.kept;
      w.(job := w.job.(cursor := Some(page[|page| - 1].cursor), written := w.job.written + |kept|,
                       skipped := w.job.skipped + |page| - |kept|, receipts := ReceiptsOf(imp, kept)),
         work := Idle(0))
    else w
  }

  /** The `catch` of a step, wherever the error came from: the page is dropped, and acknowledging starts over. */
  function Abandon(w: World, permanent: bool): World {
    if w.work.Writing? || w.job.state == Active
    then w.(job := if permanent then w.job.(state := Blocked) else w.job, work := Idle(0))
    else w
  }

  function NextWorld(imp: Import, limits: J.Limits, w: World, move: Move): World {
    match move
    case Other(step) => w.(journal := J.Next(limits, w.journal, step))
    case AcknowledgeNext => AcknowledgeOne(limits, w)
    case ForgetReceipts => Forget(w)
    case BeginPage => StartPage(imp, w)
    case FinishRange(verdict) => EndRange(imp, w, verdict)
    case SubmitRow(i, diskFree, sqliteOk, mirrorOk) => Submit(imp, limits, w, i, diskFree, sqliteOk, mirrorOk)
    case ReportRow(at) => Report(imp, w, at)
    case Checkpoint => StoreCheckpoint(imp, w)
    case GiveUp(permanent) => Abandon(w, permanent)
    case Crash(reopenOk) => World(J.Reopen(w.journal, reopenOk), w.job, Idle(0))
  }

  function RunWorld(imp: Import, limits: J.Limits, w: World, moves: seq<Move>): World
    decreases |moves|
  {
    if moves == [] then w else RunWorld(imp, limits, NextWorld(imp, limits, w, moves[0]), moves[1..])
  }

  ghost predicate Allowed(imp: Import, moves: seq<Move>) {
    forall i :: 0 <= i < |moves| && moves[i].Other? ==> Foreign(imp, moves[i].step)
  }

  // The invariant.

  /** How far the stored job is. */
  function Done(w: World): nat {
    w.job.written + w.job.skipped
  }

  ghost predicate Tracking(imp: Import, journal: J.State, n: nat) {
    forall i :: 0 <= i < |All(imp)| && Usable(imp, All(imp)[i]) ==>
      Tracked(journal, PartId(imp, All(imp)[i]), EventId(imp, All(imp)[i]), i < n)
  }

  ghost predicate ReceiptsBehind(imp: Import, receipts: seq<string>, n: nat) {
    forall k :: 0 <= k < |receipts| ==> IsBehind(imp, receipts[k], n)
  }

  ghost predicate IsBehind(imp: Import, receipt: string, n: nat) {
    exists i :: 0 <= i < n && i < |All(imp)| && Usable(imp, All(imp)[i]) && receipt == EventId(imp, All(imp)[i])
  }

  ghost predicate PageInHand(imp: Import, w: World) {
    w.work.Writing? ==>
      var n, all, page, kept := Done(w), All(imp), w.work.page, w.work.kept;
      && page != [] && n + |page| <= |all| && page == all[n..n + |page|]
      && Covered(imp.table, imp.from, imp.to, n + |page|, Some(page[|page| - 1].cursor))
      && MapRows(imp, page) == Some(kept)
      && w.job.receipts == []
      && forall i :: 0 <= i < |kept| && i in w.work.reported && Usable(imp, kept[i]) ==>
           Deliveries(w.journal.log, PartId(imp, kept[i])) == 1
  }

  /** What the stored job and the journal say of each other. */
  ghost predicate Stored(imp: Import, journal: J.State, job: Job) {
    var n := job.written + job.skipped;
    && InOrder(imp.table)
    && Inv(journal)
    && Covered(imp.table, imp.from, imp.to, n, job.cursor)
    && job.written == KeptCount(imp, All(imp)[..n])
    && Tracking(imp, journal, n)
    && ReceiptsBehind(imp, job.receipts, n)
    && (job.state == Completed ==> n == |All(imp)|)
  }

  ghost predicate WorldInv(imp: Import, w: World) {
    && Stored(imp, w.journal, w.job)
    && PageInHand(imp, w)
    && (w.job.state == Completed ==> w.work.Idle?)
  }

  /** A page fails as a whole exactly for an unmapped series, or a row before its cutoff whose value does not convert. */
  predicate Unmappable(imp: Import, row: SourceRow) {
    MappingFor(imp.mappings, row.series).None? || (IsKept(imp, row) && !row.convertible)
  }

  lemma {:induction false} MapRowsFails(imp: Import, rows: seq<SourceRow>)
    ensures MapRows(imp, rows).None? <==> exists i :: 0 <= i < |rows| && Unmappable(imp, rows[i])
  {
    if rows != [] {
      var rest := rows[1..];
      MapRowsFails(imp, rest);
      if MapRows(imp, rest).None? {
        var i :| 0 <= i < |rest| && Unmappable(imp, rest[i]);
        assert Unmappable(imp, rows[i + 1]);
      } else {
        forall i | 0 <= i < |rows| ensures Unmappable(imp, rows[i]) ==> i == 0 {
          if i > 0 {
            assert !Unmappable(imp, rest[i - 1]);
          }
        }
      }
      assert Unmappable(imp, rows[0]) ==> MapRows(imp, rows).None?;
    }
  }

  lemma {:induction false} MapRowsMeans(imp: Import, rows: seq<SourceRow>)
    requires MapRows(imp, rows).Some?
    ensures var kept := MapRows(imp, rows).value;
            && |kept| == KeptCount(imp, rows) <= |rows|
            && (forall r :: r in kept ==> r in rows && IsKept(imp, r))
            && (forall r :: r in rows && IsKept(imp, r) ==> r in kept)
  {
    if rows != [] {
      if !IsKept(imp, rows[0]) {
        MapRowsMeans(imp, rows[1..]);
      } else if rows[0].convertible {
        MapRowsMeans(imp, rows[1..]);
      }
      assert rows == [rows[0]] + rows[1..];
    }
  }

  lemma {:induction false} KeptCountAppend(imp: Import, a: seq<SourceRow>, b: seq<SourceRow>)
    ensures KeptCount(imp, a + b) == KeptCount(imp, a) + KeptCount(imp, b)
  {
    if a == [] {
      assert a + b == b;
    } else {
      assert (a + b)[1..] == a[1..] + b;
      KeptCountAppend(imp, a[1..], b);
    }
  }

  /** The recorded deliveries of an id never become fewer. */
  lemma {:induction false} DeliveriesGrow(log: seq<J.Event>, more: seq<J.Event>, id: string)
    requires log <= more
    ensures Deliveries(log, id) <= Deliveries(more, id)
    decreases |more|
  {
    if |log| < |more| {
      var front := more[..|more| - 1];
      assert more == front + [more[|more| - 1]];
      DeliveriesAppend(front, more[|more| - 1], id);
      assert log <= front;
      DeliveriesGrow(log, front, id);
    } else {
      assert log == more;
    }
  }

  /** The step touches no row of the job behind its back. */
  ghost predicate Harmless(imp: Import, step: J.Step, n: nat) {
    forall i :: 0 <= i < |All(imp)| && Usable(imp, All(imp)[i]) ==>
      Unrelated(step, PartId(imp, All(imp)[i]), EventId(imp, All(imp)[i]), i < n)
  }

  /** Such steps of the journal keep the tracking of every row. */
  lemma StepTracks(imp: Import, limits: J.Limits, journal: J.State, step: J.Step, n: nat)
    requires Inv(journal) && Tracking(imp, journal, n) && Harmless(imp, step, n)
    ensures Tracking(imp, J.Next(limits, journal, step), n)
  {
    forall i | 0 <= i < |All(imp)| && Usable(imp, All(imp)[i])
      ensures Tracked(J.Next(limits, journal, step), PartId(imp, All(imp)[i]), EventId(imp, All(imp)[i]), i < n)
    {
      NextTracked(limits, journal, step, PartId(imp, All(imp)[i]), EventId(imp, All(imp)[i]), i < n);
    }
  }

  lemma StoredStays(imp: Import, w: World, next: J.State)
    requires Stored(imp, w.journal, w.job) && Inv(next) && Tracking(imp, next, Done(w))
    ensures Stored(imp, next, w.job)
  {
  }

  lemma JournalMoves(imp: Import, limits: J.Limits, w: World, step: J.Step)
    requires WorldInv(imp, w) && Harmless(imp, step, Done(w))
    ensures WorldInv(imp, w.(journal := J.Next(limits, w.journal, step)))
  {
    var next := J.Next(limits, w.journal, step);
    NextKeepsInv(limits, w.journal, step);
    LogGrows(limits, w.journal, step);
    StepTracks(imp, limits, w.journal, step, Done(w));
    ReportsStay(imp, w, next);
    StoredStays(imp, w, next);
  }

  lemma KeptIsInPage(imp: Import, w: World, i: nat) returns (p: nat)
    requires PageInHand(imp, w) && w.work.Writing? && i < |w.work.kept|
    ensures p < |w.work.page| && w.work.page[p] == w.work.kept[i] && Usable(imp, w.work.kept[i])
  {
    MapRowsMeans(imp, w.work.page);
    assert w.work.kept[i] in w.work.kept;
    p :| 0 <= p < |w.work.page| && w.work.page[p] == w.work.kept[i];
  }

  lemma KeptRowPosition(imp: Import, w: World, i: nat) returns (k: nat)
    requires WorldInv(imp, w) && w.work.Writing? && i < |w.work.kept|
    ensures Done(w) <= k < Done(w) + |w.work.page| && All(imp)[k] == w.work.kept[i] && Usable(imp, w.work.kept[i])
  {
    var p := KeptIsInPage(imp, w, i);
    k := Done(w) + p;
    assert w.work.page[p] == All(imp)[Done(w)..Done(w) + |w.work.page|][p];
  }

  lemma ReportsStay(imp: Import, w: World, next: J.State)
    requires WorldInv(imp, w) && w.journal.log <= next.log
    requires Tracking(imp, next, Done(w))
    ensures PageInHand(imp, w.(journal := next))
  {
    if w.work.Writing? {
      var kept := w.work.kept;
      forall i | 0 <= i < |kept| && i in w.work.reported && Usable(imp, kept[i])
        ensures Deliveries(next.log, PartId(imp, kept[i])) == 1
      {
        DeliveriesGrow(w.journal.log, next.log, PartId(imp, kept[i]));
        var k := KeptRowPosition(imp, w, i);
      }
    }
  }

  /** Acknowledging a receipt of the job touches only rows behind its cursor. */
  lemma ReceiptIsHarmless(imp: Import, w: World, receipt: string)
    requires WorldInv(imp, w) && IsBehind(imp, receipt, Done(w))
    ensures Harmless(imp, J.DoAcknowledgeLegacy(receipt), Done(w))
  {
    hide EventId, PartId, J.Next;
    var n, step := Done(w), J.DoAcknowledgeLegacy(receipt);
    var at :| 0 <= at < n && at < |All(imp)| && Usable(imp, All(imp)[at]) && receipt == EventId(imp, All(imp)[at]);
    forall i | 0 <= i < |All(imp)| && Usable(imp, All(imp)[i])
      ensures Unrelated(step, PartId(imp, All(imp)[i]), EventId(imp, All(imp)[i]), i < n)
    {
      if i >= n {
        IdsDiffer(imp, All(imp)[at], All(imp)[i]);
        CoveredBefore(imp, n, w.job.cursor, at, i);
      }
    }
  }

  lemma AcknowledgeMoves(imp: Import, limits: J.Limits, w: World)
    requires WorldInv(imp, w)
    ensures WorldInv(imp, AcknowledgeOne(limits, w))
  {
    if w.work.Idle? && w.work.acknowledged < |w.job.receipts| {
      var receipt := w.job.receipts[w.work.acknowledged];
      assert IsBehind(imp, receipt, Done(w));
      ReceiptIsHarmless(imp, w, receipt);
      JournalMoves(imp, limits, w, J.DoAcknowledgeLegacy(receipt));
      MemoryMayGo(imp, w.(journal := J.Next(limits, w.journal, J.DoAcknowledgeLegacy(receipt))),
                  w.work.acknowledged + 1);
    }
  }

  /** A covered row and a later one have different cursors. */
  lemma CoveredBefore(imp: Import, n: nat, after: Option<Cursor>, a: nat, b: nat)
    requires InOrder(imp.table) && Covered(imp.table, imp.from, imp.to, n, after)
    requires a < n <= b < |All(imp)|
    ensures All(imp)[a].cursor != All(imp)[b].cursor
  {
    var all := All(imp);
    SelectOrdered(imp.table, Cursor(imp.from, ""));
    Ascends(all, a, n);
    if b > n {
      CompareMeans(all[a].cursor, all[b].cursor);
      CompareMeans(all[n].cursor, all[b].cursor);
      assert !Precedes(all[b].cursor, all[n].cursor);
    }
    LessIrreflexive(all[a].cursor.key);
  }

  /** Submitting a row of the page keeps the tracking of every row of the job. */
  lemma SubmitTracks(imp: Import, limits: J.Limits, w: World, i: nat, diskFree: nat, sqliteOk: bool, mirrorOk: bool)
    requires WorldInv(imp, w) && w.work.Writing? && i < |w.work.kept| && Usable(imp, w.work.kept[i])
    ensures Tracking(imp, Submit(imp, limits, w, i, diskFree, sqliteOk, mirrorOk).journal, Done(w))
  {
    var n, batch := Done(w), [J.Submission(EntryFor(imp, w.work.kept[i]), diskFree)];
    var next := J.Admit(limits, w.journal, batch, sqliteOk, mirrorOk);
    var k := KeptRowPosition(imp, w, i);
    forall j | 0 <= j < |All(imp)| && Usable(imp, All(imp)[j])
      ensures Tracked(next, PartId(imp, All(imp)[j]), EventId(imp, All(imp)[j]), j < n)
    {
      SubmittedElsewhere(imp, w, k, j);
      AdmitTracked(limits, w.journal, batch, sqliteOk, mirrorOk, PartId(imp, All(imp)[j]),
                   EventId(imp, All(imp)[j]), j < n);
    }
  }

  lemma SubmitMoves(imp: Import, limits: J.Limits, w: World, i: nat, diskFree: nat, sqliteOk: bool, mirrorOk: bool)
    requires WorldInv(imp, w)
    ensures WorldInv(imp, Submit(imp, limits, w, i, diskFree, sqliteOk, mirrorOk))
  {
    if w.work.Writing? && i < |w.work.kept| && Usable(imp, w.work.kept[i]) {
      var step := J.DoAdmit([J.Submission(EntryFor(imp, w.work.kept[i]), diskFree)], sqliteOk, mirrorOk);
      var next := J.Next(limits, w.journal, step);
      NextKeepsInv(limits, w.journal, step);
      LogGrows(limits, w.journal, step);
      SubmitTracks(imp, limits, w, i, diskFree, sqliteOk, mirrorOk);
      ReportsStay(imp, w, next);
      StoredStays(imp, w, next);
    }
  }

  /** A row of the page shares its journal id with itself only. */
  lemma SubmittedElsewhere(imp: Import, w: World, k: nat, j: nat)
    requires WorldInv(imp, w) && w.work.Writing?
    requires Done(w) <= k < Done(w) + |w.work.page| && k < |All(imp)| && j < |All(imp)|
    requires Usable(imp, All(imp)[k]) && Usable(imp, All(imp)[j])
    ensures PartId(imp, All(imp)[j]) == PartId(imp, All(imp)[k]) ==> j == k
  {
    if PartId(imp, All(imp)[j]) == PartId(imp, All(imp)[k]) {
      IdsDiffer(imp, All(imp)[j], All(imp)[k]);
      OneRowAtCursor(imp, Done(w) + |w.work.page|, Some(w.work.page[|w.work.page| - 1].cursor), k, j);
    }
  }

  lemma OneRowAtCursor(imp: Import, m: nat, after: Option<Cursor>, k: nat, j: nat)
    requires InOrder(imp.table) && Covered(imp.table, imp.from, imp.to, m, after)
    requires k < m && k < |All(imp)| && j < |All(imp)| && All(imp)[j].cursor == All(imp)[k].cursor
    ensures j == k
  {
    if j < k {
      CoveredDistinct(imp, m, after, j, k);
    } else if k < j {
      CoveredDistinct(imp, m, after, k, j);
    }
  }

  lemma CoveredDistinct(imp: Import, n: nat, after: Option<Cursor>, a: nat, b: nat)
    requires InOrder(imp.table) && Covered(imp.table, imp.from, imp.to, n, after)
    requires a < n && a < b < |All(imp)|
    ensures All(imp)[a].cursor != All(imp)[b].cursor
  {
    if b < n {
      Ascends(All(imp), a, b);
      LessIrreflexive(All(imp)[a].cursor.key);
    } else {
      CoveredBefore(imp, n, after, a, b);
    }
  }

  /** A part of the page that is confirmed was delivered once. */
  lemma ConfirmedPart(imp: Import, w: World, i: nat)
    requires WorldInv(imp, w) && w.work.Writing? && i < |w.work.kept| && Usable(imp, w.work.kept[i])
    requires IsConfirmed(w.journal.db.queue, PartId(imp, w.work.kept[i]))
    ensures Deliveries(w.journal.log, PartId(imp, w.work.kept[i])) == 1
  {
    var k := KeptRowPosition(imp, w, i);
    assert Tracked(w.journal, PartId(imp, All(imp)[k]), EventId(imp, All(imp)[k]), k < Done(w));
    ConfirmedOnce(w.journal, PartId(imp, All(imp)[k]), EventId(imp, All(imp)[k]), k < Done(w));
  }

  lemma ReportMoves(imp: Import, w: World, i: nat)
    requires WorldInv(imp, w)
    ensures WorldInv(imp, Report(imp, w, i))
  {
    if w.work.Writing? && i < |w.work.kept| && Usable(imp, w.work.kept[i])
       && IsConfirmed(w.journal.db.queue, PartId(imp, w.work.kept[i])) {
      ConfirmedPart(imp, w, i);
      ReportedPage(imp, w, i);
    }
  }

  lemma ReportedPage(imp: Import, w: World, i: nat)
    requires PageInHand(imp, w) && w.work.Writing? && i < |w.work.kept| && Usable(imp, w.work.kept[i])
    requires Deliveries(w.journal.log, PartId(imp, w.work.kept[i])) == 1
    ensures PageInHand(imp, Report(imp, w, i))
  {
  }

  /** The receipts of a page stand for rows of the range up to its end. */
  lemma PageReceipts(imp: Import, w: World)
    requires WorldInv(imp, w) && w.work.Writing? && UsableRows(imp, w.work.kept)
    ensures ReceiptsBehind(imp, ReceiptsOf(imp, w.work.kept), Done(w) + |w.work.page|)
  {
    var receipts, m := ReceiptsOf(imp, w.work.kept), Done(w) + |w.work.page|;
    forall k | 0 <= k < |receipts| ensures IsBehind(imp, receipts[k], m) {
      var at := KeptRowPosition(imp, w, k);
      assert receipts[k] == EventId(imp, All(imp)[at]);
    }
  }

  /** The written rows of the covered range and of the page add up. */
  lemma PageCount(imp: Import, w: World)
    requires WorldInv(imp, w) && w.work.Writing?
    ensures w.job.written + |w.work.kept| == KeptCount(imp, All(imp)[..Done(w) + |w.work.page|])
  {
    var n, all, page := Done(w), All(imp), w.work.page;
    MapRowsMeans(imp, page);
    assert all[..n + |page|] == all[..n] + page;
    KeptCountAppend(imp, all[..n], page);
  }

  lemma CheckpointMoves(imp: Import, w: World)
    requires WorldInv(imp, w)
    ensures WorldInv(imp, StoreCheckpoint(imp, w))
  {
    hide KeptCount, Tracked, IsBehind;
    var next := StoreCheckpoint(imp, w);
    if next != w {
      PageCount(imp, w);
      PageTracked(imp, w);
      PageReceipts(imp, w);
      assert Done(next) == Done(w) + |w.work.page|;
    }
  }

  lemma ReportedOnce(imp: Import, w: World, row: SourceRow)
    requires WorldInv(imp, w) && w.work.Writing? && AllReported(w.work.kept, w.work.reported)
    requires row in w.work.page && Usable(imp, row)
    ensures Deliveries(w.journal.log, PartId(imp, row)) == 1
  {
    MapRowsMeans(imp, w.work.page);
    assert row in w.work.kept;
    var k :| 0 <= k < |w.work.kept| && w.work.kept[k] == row;
    assert Deliveries(w.journal.log, PartId(imp, w.work.kept[k])) == 1;
  }

  lemma PageRowTracked(imp: Import, w: World, i: nat)
    requires WorldInv(imp, w) && w.work.Writing? && AllReported(w.work.kept, w.work.reported)
    requires i < |All(imp)| && Usable(imp, All(imp)[i])
    ensures Tracked(w.journal, PartId(imp, All(imp)[i]), EventId(imp, All(imp)[i]), i < Done(w) + |w.work.page|)
  {
    var n, all, page := Done(w), All(imp), w.work.page;
    assert Tracked(w.journal, PartId(imp, all[i]), EventId(imp, all[i]), i < n);
    if n <= i < n + |page| {
      assert page[i - n] == all[n..n + |page|][i - n] == all[i];
      ReportedOnce(imp, w, all[i]);
    }
  }

  /** When every write of the page is reported, every kept row of it has its one delivery. */
  lemma PageTracked(imp: Import, w: World)
    requires WorldInv(imp, w) && w.work.Writing? && AllReported(w.work.kept, w.work.reported)
    ensures Tracking(imp, w.journal, Done(w) + |w.work.page|)
  {
    forall i | 0 <= i < |All(imp)| && Usable(imp, All(imp)[i])
      ensures Tracked(w.journal, PartId(imp, All(imp)[i]), EventId(imp, All(imp)[i]), i < Done(w) + |w.work.page|)
    {
      PageRowTracked(imp, w, i);
    }
  }

  lemma FreshPage(imp: Import, w: World, rows: seq<SourceRow>, kept: seq<SourceRow>)
    requires rows != [] && Done(w) + |rows| <= |All(imp)| && rows == All(imp)[Done(w)..Done(w) + |rows|]
    requires Covered(imp.table, imp.from, imp.to, Done(w) + |rows|, Some(rows[|rows| - 1].cursor))
    requires MapRows(imp, rows) == Some(kept) && w.job.receipts == []
    ensures PageInHand(imp, w.(work := Writing(rows, kept, {})))
  {
  }

  /** A page that is read and mapped continues the covered range. */
  lemma PageRead(imp: Import, w: World)
    requires WorldInv(imp, w) && Ready(w) && StartPage(imp, w).work.Writing?
    ensures PageInHand(imp, StartPage(imp, w))
  {
    var next := StartPage(imp, w).work;
    PageContinues(imp.table, imp.from, imp.to, Done(w), w.job.cursor, MAX_PAGE_ROWS);
    FreshPage(imp, w, next.page, next.kept);
  }

  lemma BeginMoves(imp: Import, w: World)
    requires WorldInv(imp, w)
    ensures WorldInv(imp, StartPage(imp, w))
  {
    var next := StartPage(imp, w);
    assert Ready(w) || next == w;
    if Ready(w) && next.work.Writing? {
      PageRead(imp, w);
      assert next.job == w.job && next.journal == w.journal;
    } else {
      StateMayBlock(imp, w);
    }
  }

  lemma StateMayBlock(imp: Import, w: World)
    requires WorldInv(imp, w)
    ensures Stored(imp, w.journal, w.job.(state := Blocked))
  {
  }

  lemma FinishMoves(imp: Import, w: World, verdict: Verdict)
    requires WorldInv(imp, w)
    ensures WorldInv(imp, EndRange(imp, w, verdict))
  {
    if Ready(w) && Read(imp.table, imp.from, imp.to, w.job.cursor, MAX_PAGE_ROWS) == Rows([]) {
      PageContinues(imp.table, imp.from, imp.to, Done(w), w.job.cursor, MAX_PAGE_ROWS);
    }
  }

  /** Nothing that the invariant says of the stored job rests on the page in memory. */
  lemma MemoryMayGo(imp: Import, w: World, acknowledged: nat)
    requires WorldInv(imp, w)
    ensures WorldInv(imp, w.(work := Idle(acknowledged)))
  {
  }

  lemma CrashMoves(imp: Import, limits: J.Limits, w: World, reopenOk: bool)
    requires WorldInv(imp, w)
    ensures WorldInv(imp, World(J.Reopen(w.journal, reopenOk), w.job, Idle(0)))
  {
    var idle, step := w.(work := Idle(0)), J.DoReopen(reopenOk);
    MemoryMayGo(imp, w, 0);
    ReopenIsHarmless(imp, reopenOk, Done(idle));
    JournalMoves(imp, limits, idle, step);
    assert J.Next(limits, w.journal, step) == J.Reopen(w.journal, reopenOk);
  }

  lemma ReopenIsHarmless(imp: Import, reopenOk: bool, n: nat)
    ensures Harmless(imp, J.DoReopen(reopenOk), n)
  {
  }

  lemma ForeignIsHarmless(imp: Import, step: J.Step, n: nat)
    requires Foreign(imp, step)
    ensures Harmless(imp, step, n)
  {
    forall i | 0 <= i < |All(imp)| && Usable(imp, All(imp)[i])
      ensures Unrelated(step, PartId(imp, All(imp)[i]), EventId(imp, All(imp)[i]), i < n)
    {
      assert All(imp)[i] in All(imp);
      assert Unrelated(step, PartId(imp, All(imp)[i]), EventId(imp, All(imp)[i]), false);
    }
  }

  lemma OtherMoves(imp: Import, limits: J.Limits, w: World, step: J.Step)
    requires WorldInv(imp, w) && Foreign(imp, step)
    ensures WorldInv(imp, NextWorld(imp, limits, w, Other(step)))
  {
    ForeignIsHarmless(imp, step, Done(w));
    JournalMoves(imp, limits, w, step);
  }

  lemma RestMoves(imp: Import, limits: J.Limits, w: World, move: Move)
    requires WorldInv(imp, w) && (move.ForgetReceipts? || move.GiveUp?)
    ensures WorldInv(imp, NextWorld(imp, limits, w, move))
  {
  }

  lemma MoveKeeps(imp: Import, limits: J.Limits, w: World, move: Move)
    requires WorldInv(imp, w)
    requires move.Other? ==> Foreign(imp, move.step)
    ensures WorldInv(imp, NextWorld(imp, limits, w, move))
  {
    match move
    case Other(step) => OtherMoves(imp, limits, w, step);
    case AcknowledgeNext => AcknowledgeMoves(imp, limits, w);
    case ForgetReceipts => RestMoves(imp, limits, w, move);
    case BeginPage => BeginMoves(imp, w);
    case FinishRange(verdict) => FinishMoves(imp, w, verdict);
    case SubmitRow(i, diskFree, sqliteOk, mirrorOk) => SubmitMoves(imp, limits, w, i, diskFree, sqliteOk, mirrorOk);
    case ReportRow(at) => ReportMoves(imp, w, at);
    case Checkpoint => CheckpointMoves(imp, w);
    case GiveUp(_) => RestMoves(imp, limits, w, move);
    case Crash(reopenOk) => CrashMoves(imp, limits, w, reopenOk);
  }

  lemma {:induction false} RunKeepsWorld(imp: Import, limits: J.Limits, w: World, moves: seq<Move>)
    requires WorldInv(imp, w) && Allowed(imp, moves)
    ensures WorldInv(imp, RunWorld(imp, limits, w, moves))
    decreases |moves|
  {
    if moves != [] {
      MoveKeeps(imp, limits, w, moves[0]);
      RunKeepsWorld(imp, limits, NextWorld(imp, limits, w, moves[0]), moves[1..]);
    }
  }

  // The results.

  /** A journal that knows nothing of the job's ids yet. */
  ghost predicate Unused(imp: Import, journal: J.State) {
    && Inv(journal)
    && forall row :: row in All(imp) && Usable(imp, row) ==>
         !HasId(journal.db.queue, PartId(imp, row)) && Deliveries(journal.log, PartId(imp, row)) == 0
  }

  function NewWorld(journal: J.State): World {
    World(journal, Job(Active, None, 0, 0, []), Idle(0))
  }

  lemma NewWorldInv(imp: Import, journal: J.State)
    requires InOrder(imp.table) && Unused(imp, journal)
    ensures WorldInv(imp, NewWorld(journal))
  {
    var all := All(imp);
    assert all[..0] == [];
    forall i | 0 <= i < |all| && Usable(imp, all[i])
      ensures Tracked(journal, PartId(imp, all[i]), EventId(imp, all[i]), false)
    {
      assert all[i] in all;
      forall r | r in journal.db.queue ensures r.id != PartId(imp, all[i]) {
        var k :| 0 <= k < |journal.db.queue| && journal.db.queue[k] == r;
      }
    }
  }

  /** In every run of a job, with crashes at any point: the counters count exactly the rows of the range at or below
      the stored cursor, written ones and rows behind a cutoff apart. */
  lemma CountsAreExact(imp: Import, limits: J.Limits, journal: J.State, moves: seq<Move>)
    requires InOrder(imp.table) && Unused(imp, journal) && Allowed(imp, moves)
    ensures var job, n := RunWorld(imp, limits, NewWorld(journal), moves).job,
                          AtOrBelow(All(imp), RunWorld(imp, limits, NewWorld(journal), moves).job.cursor);
            && job.written + job.skipped == n <= |All(imp)|
            && job.written == KeptCount(imp, All(imp)[..n])
  {
    NewWorldInv(imp, journal);
    RunKeepsWorld(imp, limits, NewWorld(journal), moves);
    var w := RunWorld(imp, limits, NewWorld(journal), moves);
    CoveredCount(imp.table, imp.from, imp.to, Done(w), w.job.cursor);
  }

  /** No row is recorded as delivered twice, and every kept row at or below the cursor exactly once. */
  lemma WrittenExactlyOnce(imp: Import, limits: J.Limits, journal: J.State, moves: seq<Move>, i: nat)
    requires InOrder(imp.table) && Unused(imp, journal) && Allowed(imp, moves)
    requires i < |All(imp)| && Usable(imp, All(imp)[i])
    ensures var w := RunWorld(imp, limits, NewWorld(journal), moves);
            var count := Deliveries(w.journal.log, PartId(imp, All(imp)[i]));
            count <= 1 && (i < AtOrBelow(All(imp), w.job.cursor) ==> count == 1)
  {
    NewWorldInv(imp, journal);
    RunKeepsWorld(imp, limits, NewWorld(journal), moves);
    var w := RunWorld(imp, limits, NewWorld(journal), moves);
    CoveredCount(imp.table, imp.from, imp.to, Done(w), w.job.cursor);
    assert Tracked(w.journal, PartId(imp, All(imp)[i]), EventId(imp, All(imp)[i]), i < Done(w));
  }

  /** A completed job has covered a range without invalid rows or shared cursors, and has written every kept row. */
  lemma CompletedCoversTheRange(imp: Import, limits: J.Limits, journal: J.State, moves: seq<Move>)
    requires InOrder(imp.table) && Unused(imp, journal) && Allowed(imp, moves)
    requires RunWorld(imp, limits, NewWorld(journal), moves).job.state == Completed
    ensures Clean(imp.table, imp.from, imp.to)
    ensures var w := RunWorld(imp, limits, NewWorld(journal), moves);
            && w.job.written + w.job.skipped == |All(imp)|
            && w.job.written == KeptCount(imp, All(imp))
            && forall i :: 0 <= i < |All(imp)| && IsKept(imp, All(imp)[i]) ==>
                 Usable(imp, All(imp)[i]) && Deliveries(w.journal.log, PartId(imp, All(imp)[i])) == 1
  {
    NewWorldInv(imp, journal);
    RunKeepsWorld(imp, limits, NewWorld(journal), moves);
    var w := RunWorld(imp, limits, NewWorld(journal), moves);
    CoveredToTheEnd(imp.table, imp.from, imp.to, w.job.cursor);
    var all := All(imp);
    assert all[..|all|] == all;
    forall i | 0 <= i < |all| && IsKept(imp, all[i])
      ensures Usable(imp, all[i]) && Deliveries(w.journal.log, PartId(imp, all[i])) == 1
    {
      assert Tracked(w.journal, PartId(imp, all[i]), EventId(imp, all[i]), i < Done(w));
    }
  }
}
