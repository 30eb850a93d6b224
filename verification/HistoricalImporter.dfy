/** The import step as the program has it: receipts are cleared one by one, a page is mapped row by row and written in
    groups of eight, and its cursor is stored when the last group has settled. */
module HistoricalImporter {
  import opened Common
  import opened JournalRows
  import J = JournalModel
  import opened TargetJournals
  import opened HistoricalSource
  import opened HistoricalImport

  const GROUP: nat := 8

  lemma {:induction false} WorldSnoc(imp: Import, limits: J.Limits, w: World, moves: seq<Move>, move: Move)
    ensures RunWorld(imp, limits, w, moves + [move]) == NextWorld(imp, limits, RunWorld(imp, limits, w, moves), move)
    decreases |moves|
  {
    if moves == [] {
      assert [] + [move] == [move] && [move][1..] == [];
    } else {
      assert (moves + [move])[1..] == moves[1..] + [move];
      WorldSnoc(imp, limits, NextWorld(imp, limits, w, moves[0]), moves[1..], move);
    }
  }

  lemma {:induction false} WorldRuns(imp: Import, limits: J.Limits, w: World, a: seq<Move>, b: seq<Move>)
    ensures RunWorld(imp, limits, w, a + b) == RunWorld(imp, limits, RunWorld(imp, limits, w, a), b)
    decreases |a|
  {
    if a == [] {
      assert a + b == b;
    } else {
      assert (a + b)[1..] == a[1..] + b;
      WorldRuns(imp, limits, NextWorld(imp, limits, w, a[0]), a[1..], b);
    }
  }

  /** Steps of the journal, as moves. */
  function Others(steps: seq<J.Step>): (moves: seq<Move>)
    ensures |moves| == |steps| && forall i :: 0 <= i < |steps| ==> moves[i] == Other(steps[i])
  {
    seq(|steps|, i requires 0 <= i < |steps| => Other(steps[i]))
  }

  lemma {:induction false} JournalRun(imp: Import, limits: J.Limits, w: World, steps: seq<J.Step>)
    ensures RunWorld(imp, limits, w, Others(steps)) == w.(journal := J.Run(limits, w.journal, steps))
    decreases |steps|
  {
    if steps != [] {
      assert Others(steps)[1..] == Others(steps[1..]);
      JournalRun(imp, limits, w.(journal := J.Next(limits, w.journal, steps[0])), steps[1..]);
    }
  }

  /** Starting rows touches no id. */
  lemma HeadsAreAllowed(imp: Import, steps: seq<J.Step>)
    requires forall i :: 0 <= i < |steps| ==> steps[i].DoTryHead?
    ensures Allowed(imp, Others(steps))
  {
  }

  /** One of the moves submits this row of the page. */
  ghost predicate SubmitsRow(moves: seq<Move>, row: nat) {
    exists k :: 0 <= k < |moves| && moves[k].SubmitRow? && moves[k].i == row
  }

  ghost predicate SubmitsRows(moves: seq<Move>, rows: seq<nat>) {
    forall i :: i in rows ==> SubmitsRow(moves, i)
  }

  lemma MoreSubmitted(before: seq<Move>, more: seq<Move>, order: seq<nat>, k: nat)
    requires k < |order| && SubmitsRows(before, order[..k]) && more != [] && more[0].SubmitRow? && more[0].i == order[k]
    ensures SubmitsRows(before + more, order[..k + 1])
  {
    var moves := before + more;
    assert moves[|before|] == more[0];
    forall i | i in order[..k + 1] ensures SubmitsRow(moves, i) {
      if i != order[k] {
        assert i in order[..k] && SubmitsRow(before, i);
        var m :| 0 <= m < |before| && before[m].SubmitRow? && before[m].i == i;
        assert moves[m] == before[m];
      }
    }
  }

  /** What a submission finds. */
  datatype SubmitEnv = SubmitEnv(diskFree: nat, sqliteOk: bool, mirrorOk: bool, now: int, canReplay: bool)

  function Behind(front: seq<SourceRow>, rest: Option<seq<SourceRow>>): Option<seq<SourceRow>> {
    match rest
    case None => None
    case Some(rows) => Some(front + rows)
  }

  lemma BehindStep(front: seq<SourceRow>, row: SourceRow, rest: Option<seq<SourceRow>>)
    ensures Behind([], rest) == rest
    ensures Behind(front + [row], rest) == Behind(front, Behind([row], rest))
  {
    if rest.Some? {
      assert [] + rest.value == rest.value;
      assert front + [row] + rest.value == front + ([row] + rest.value);
    }
  }

  lemma MapStep(imp: Import, rows: seq<SourceRow>)
    requires rows != [] && IsKept(imp, rows[0]) && rows[0].convertible
    ensures MapRows(imp, rows) == Behind([rows[0]], MapRows(imp, rows[1..]))
  {
  }

  /** The rows of a page that are written, row by row. */
  method MapPage(imp: Import, rows: seq<SourceRow>) returns (kept: Option<seq<SourceRow>>)
    ensures kept == MapRows(imp, rows)
  {
    var result: seq<SourceRow> := [];
    assert rows[0..] == rows && Behind([], MapRows(imp, rows)) == MapRows(imp, rows) by {
      if MapRows(imp, rows).Some? {
        assert [] + MapRows(imp, rows).value == MapRows(imp, rows).value;
      }
    }
    for i := 0 to |rows|
      invariant MapRows(imp, rows) == Behind(result, MapRows(imp, rows[i..]))
    {
      assert rows[i..][1..] == rows[i + 1..];
      if MappingFor(imp.mappings, rows[i].series).None? {
        return None;
      }
      if IsKept(imp, rows[i]) {
        if !rows[i].convertible {
          return None;
        }
        MapStep(imp, rows[i..]);
        BehindStep(result, rows[i], MapRows(imp, rows[i + 1..]));
        result := result + [rows[i]];
      }
    }
    assert rows[|rows|..] == [] && result + [] == result;
    return Some(result);
  }

  lemma SingleTable(batch: seq<J.Submission>)
    requires |batch| == 1
    ensures DistinctTables(batch, []) == [batch[0].entry.table]
  {
    assert batch[1..] == [];
    assert DistinctTables(batch[1..], [] + [batch[0].entry.table]) == [] + [batch[0].entry.table];
  }

  class ImportRun {
    const imp: Import
    const journal: TargetJournal
    var job: Job
    var work: Work
    /** Kept rows of the page before this one have settled. */
    var offset: nat

    ghost function State(): World
      reads this, journal
    {
      World(journal.State(), job, work)
    }

    ghost predicate Valid()
      reads this, journal
    {
      && journal.Valid()
      && (work.Writing? ==> forall i :: 0 <= i < offset && i < |work.kept| ==> i in work.reported)
    }

    constructor (imp: Import, journal: TargetJournal, job: Job)
      requires journal.Valid()
      ensures Valid() && State() == World(journal.State(), job, Idle(0))
      ensures this.imp == imp && this.journal == journal
    {
      this.imp, this.journal, this.job := imp, journal, job;
      work, offset := Idle(0), 0;
    }

    /** Acknowledge the receipts of the page before, then forget them. */
    method ClearReceipts() returns (ghost moves: seq<Move>)
      requires Valid() && work == Idle(0)
      modifies this, journal
      ensures Valid() && State() == RunWorld(imp, journal.limits, old(State()), moves)
      ensures job == old(job).(receipts := []) && work == Idle(0)
    {
      moves := [];
      for i := 0 to |job.receipts|
        invariant Valid() && work == Idle(i) && job == old(job)
        invariant State() == RunWorld(imp, journal.limits, old(State()), moves)
      {
        WorldSnoc(imp, journal.limits, old(State()), moves, AcknowledgeNext);
        moves := moves + [AcknowledgeNext];
        journal.AcknowledgeLegacy(job.receipts[i]);
        work := Idle(i + 1);
      }
      WorldSnoc(imp, journal.limits, old(State()), moves, ForgetReceipts);
      moves := moves + [ForgetReceipts];
      if job.receipts != [] {
        job := job.(receipts := []);
      }
      work := Idle(0);
    }

    /** Read and check the next page and map all of it before anything is submitted. */
    method BeginPage()
      requires Valid() && work.Idle? && job.state == Active && job.receipts == []
      modifies this
      ensures Valid() && State() == NextWorld(imp, journal.limits, old(State()), HistoricalImport.Move.BeginPage)
    {
      var page := ReadPage(imp.table, imp.from, imp.to, job.cursor, MAX_PAGE_ROWS);
      match page
      case Rows(rows) =>
        if rows == [] {
          return;
        }
        var kept := MapPage(imp, rows);
        if kept.None? {
          job := job.(state := Blocked);
        } else {
          work, offset := Writing(rows, kept.value, {}), 0;
        }
      case _ =>
        job := job.(state := Blocked);
    }

    /** Submit one row: it is admitted, and the head of its table is started. */
    method SubmitOne(i: nat, env: SubmitEnv) returns (ghost moves: seq<Move>)
      requires Valid() && work.Writing? && i < |work.kept| && Usable(imp, work.kept[i])
      modifies journal
      ensures Valid() && State() == RunWorld(imp, journal.limits, old(State()), moves) && Allowed(imp, moves)
      ensures moves != [] && moves[0].SubmitRow? && moves[0].i == i
      ensures var entry := EntryFor(imp, work.kept[i]);
              var head := Other(J.DoTryHead(entry.table, 1, env.now, env.canReplay));
              moves == [SubmitRow(i, env.diskFree, env.sqliteOk, env.mirrorOk)]
                       + if Accepted(journal.limits, old(journal.State()), [J.Submission(entry, env.diskFree)], env.sqliteOk,
                                     env.mirrorOk) then [head] else []
    {
      var batch := [J.Submission(EntryFor(imp, work.kept[i]), env.diskFree)];
      ghost var w := State();
      ghost var move := SubmitRow(i, env.diskFree, env.sqliteOk, env.mirrorOk);
      ghost var admitted := NextWorld(imp, journal.limits, w, move);
      var ok := journal.Submit(batch, env.sqliteOk, env.mirrorOk, env.now, env.canReplay);
      ghost var steps := [];
      if ok {
        steps := HeadsAreARun(journal.limits, admitted.journal, DistinctTables(batch, []), env.now, env.canReplay);
      }
      HeadsAreAllowed(imp, steps);
      JournalRun(imp, journal.limits, admitted, steps);
      SingleTable(batch);
      assert ok ==> Others(steps) == [Other(J.DoTryHead(batch[0].entry.table, 1, env.now, env.canReplay))];
      moves := [move] + Others(steps);
      assert moves[1..] == Others(steps);
    }

    /** Submit the rows of the next group, in the order in which the lookups before each of them end. */
    method SubmitGroup(order: seq<nat>, env: nat -> SubmitEnv) returns (ghost moves: seq<Move>)
      requires Valid() && work.Writing? && UsableRows(imp, work.kept)
      requires forall i :: i in order <==> offset <= i < GroupEnd()
      modifies journal
      ensures Valid() && State() == RunWorld(imp, journal.limits, old(State()), moves) && Allowed(imp, moves)
      ensures SubmitsRows(moves, order)
    {
      moves := [];
      for k := 0 to |order|
        invariant Valid() && State() == RunWorld(imp, journal.limits, old(State()), moves) && Allowed(imp, moves)
        invariant work == old(work) && job == old(job)
        invariant SubmitsRows(moves, order[..k])
      {
        assert order[k] in order && order[..k + 1] == order[..k] + [order[k]];
        ghost var more := SubmitOne(order[k], env(k));
        ghost var before := moves;
        WorldRuns(imp, journal.limits, old(State()), before, more);
        moves := before + more;
        MoreSubmitted(before, more, order, k);
      }
      assert order[..|order|] == order;
    }

    function GroupEnd(): nat
      reads this
      requires work.Writing?
    {
      if offset + GROUP <= |work.kept| then offset + GROUP else |work.kept|
    }

    /** The group has settled when every one of its parts is confirmed; only then does the page go on. */
    method ReportGroup() returns (settled: bool, ghost moves: seq<Move>)
      requires Valid() && work.Writing? && UsableRows(imp, work.kept)
      modifies this
      ensures Valid() && State() == RunWorld(imp, journal.limits, old(State()), moves)
      ensures offset == if settled then old(offset) + GROUP else old(offset)
      ensures settled <==> forall i :: old(offset) <= i < old(GroupEnd()) ==>
                             IsConfirmed(journal.db.queue, PartId(imp, old(work).kept[i]))
    {
      moves := [];
      var end := if offset + GROUP <= |work.kept| then offset + GROUP else |work.kept|;
      var i := offset;
      while i < end
        invariant Valid() && State() == RunWorld(imp, journal.limits, old(State()), moves)
        invariant work.Writing? && work.kept == old(work).kept && UsableRows(imp, work.kept) && offset == old(offset)
        invariant forall k :: offset <= k < i && k < end ==>
                    k in work.reported && IsConfirmed(journal.db.queue, PartId(imp, work.kept[k]))
        decreases end - i
      {
        if !IsConfirmed(journal.db.queue, PartId(imp, work.kept[i])) {
          return false, moves;
        }
        WorldSnoc(imp, journal.limits, old(State()), moves, ReportRow(i));
        moves := moves + [ReportRow(i)];
        work := work.(reported := work.reported + {i});
        i := i + 1;
      }
      offset := offset + GROUP;
      settled := true;
    }

    /** Behind the last group: cursor, counters and receipts are stored together. */
    method StoreCheckpoint()
      requires Valid() && work.Writing? && UsableRows(imp, work.kept)
      requires offset >= |work.kept| && work.page != [] && |work.kept| <= |work.page|
      modifies this
      ensures Valid() && State() == NextWorld(imp, journal.limits, old(State()), Checkpoint)
      ensures job.cursor == Some(old(work).page[|old(work).page| - 1].cursor) && work == Idle(0)
      ensures job.written + job.skipped == old(job).written + old(job).skipped + |old(work).page|
    {
      assert AllReported(work.kept, work.reported);
      var page, kept := work.page, work.kept;
      job := job.(cursor := Some(page[|page| - 1].cursor), written := job.written + |kept|,
                  skipped := job.skipped + |page| - |kept|, receipts := ReceiptsOf(imp, kept));
      work := Idle(0);
    }

    /** Nothing is left to read; what is visible in the destination decides. */
    method FinishRange(verdict: Verdict)
      requires Valid() && Ready(State()) && Read(imp.table, imp.from, imp.to, job.cursor, MAX_PAGE_ROWS) == Rows([])
      modifies this
      ensures Valid() && State() == NextWorld(imp, journal.limits, old(State()), HistoricalImport.Move.FinishRange(verdict))
    {
      match verdict
      case Visible => job := job.(state := Completed);
      case Unavailable =>
      case Mismatch => job := job.(state := Blocked);
    }

    /** An error anywhere in a step: the stored cursor and receipts stay, and a retry begins again. */
    method GiveUp(permanent: bool)
      requires Valid() && (work.Writing? || job.state == Active)
      modifies this
      ensures Valid() && State() == NextWorld(imp, journal.limits, old(State()), HistoricalImport.Move.GiveUp(permanent))
    {
      if permanent {
        job := job.(state := Blocked);
      }
      work := Idle(0);
    }
  }
}
