/** The steps that a pass of the legacy import takes, given what it meets: entry by entry, file by file and section by
    section. */
module LegacyPasses {
  import opened Common
  import M = LegacyModel
  import D = DirectoryScans

  /** The names that a sweep is handed in this pass, and whether the end of the directory comes behind them. */
  datatype Handed = Handed(names: seq<string>, ended: bool)

  /** What a pass meets, turn by turn: may it go on, are source, owner and policy still as they were, can an entry be
      examined, is a file moved, how does the import of a file end, which of so many writes ends first, and is a
      checkpoint or a release stored. */
  datatype Surroundings = Surroundings(
    mayAdmit: nat -> bool, valid: nat -> bool, fault: string -> bool, moved: string -> bool,
    result: string -> M.WriteResult, first: nat -> nat, stored: nat -> bool)

  lemma RunNone(limits: M.Limits, s: M.State)
    ensures M.Run(limits, s, []) == s
  {
  }

  lemma RunSnoc(limits: M.Limits, s: M.State, steps: seq<M.Step>, step: M.Step)
    ensures M.Run(limits, s, steps + [step]) == M.Next(limits, M.Run(limits, s, steps), step)
  {
    M.RunRun(limits, s, steps, [step]);
    M.RunOne(limits, M.Run(limits, s, steps), step);
  }

  /** The scan from its turn `i` on: entry by entry while it may go on, then the end of the directory or a stop. */
  function ScanSteps(limits: M.Limits, s: M.State, handed: Handed, around: Surroundings, i: nat): seq<M.Step>
    requires i <= |handed.names|
    decreases |handed.names| - i
  {
    if !s.work.Scanning? then []
    else if i < |handed.names| && around.mayAdmit(i) then
      var step := M.DoRead(handed.names[i], around.fault(handed.names[i]), around.moved(handed.names[i]));
      [step] + ScanSteps(limits, M.Next(limits, s, step), handed, around, i + 1)
    else if i == |handed.names| && handed.ended && around.mayAdmit(i) && M.MayEnd(s.disk, s.replay) then [M.DoEnd]
    else [M.DoStop]
  }

  lemma ScanOn(
    limits: M.Limits, start: M.State, before: seq<M.Step>, handed: Handed, around: Surroundings, i: nat, step: M.Step,
    whole: seq<M.Step>)
    requires i < |handed.names| && around.mayAdmit(i) && M.Run(limits, start, before).work.Scanning?
    requires step == M.DoRead(handed.names[i], around.fault(handed.names[i]), around.moved(handed.names[i]))
    requires before + ScanSteps(limits, M.Run(limits, start, before), handed, around, i) == whole
    ensures M.Run(limits, start, before + [step]) == M.Next(limits, M.Run(limits, start, before), step)
    ensures before + [step] + ScanSteps(limits, M.Run(limits, start, before + [step]), handed, around, i + 1) == whole
  {
    RunSnoc(limits, start, before, step);
    var rest := ScanSteps(limits, M.Run(limits, start, before + [step]), handed, around, i + 1);
    assert before + [step] + rest == before + ([step] + rest);
  }

  /** Of the next `n` files the first `done` whose writes end: each is asked for its own answer, or is skipped. */
  function WriteSteps(limits: M.Limits, s: M.State, n: nat, done: nat, around: Surroundings, skip: bool): seq<M.Step>
    requires done <= n
    decreases done
  {
    if done == 0 then []
    else
      var before := WriteSteps(limits, s, n, done - 1, around, skip);
      before + [WriteStep(M.Run(limits, s, before), n - done, around, skip)]
  }

  /** With `others` more writes under way, the one that ends first. */
  function WriteStep(s: M.State, others: nat, around: Surroundings, skip: bool): M.Step {
    var at := around.first(others + 1) % (others + 1);
    M.DoWrite(at, if skip || !s.work.Importing? || at >= |s.work.todo| then M.Skipped else around.result(s.work.todo[at]))
  }

  /** One turn of the import: the rest is skipped, the pass is abandoned, or a chunk is written. */
  function TurnSteps(limits: M.Limits, s: M.State, around: Surroundings, turn: nat): seq<M.Step> {
    var left := if s.work.Importing? then |s.work.todo| else 0;
    if !around.mayAdmit(turn) then WriteSteps(limits, s, left, left, around, true)
    else if !around.valid(turn) then [M.DoAbandon]
    else WriteSteps(limits, s, Min(limits.concurrency, left), Min(limits.concurrency, left), around, false)
  }

  /** So many turns of the import. */
  function ImportSteps(limits: M.Limits, s: M.State, around: Surroundings, turns: nat): seq<M.Step> {
    if turns == 0 then []
    else
      var before := ImportSteps(limits, s, around, turns - 1);
      before + TurnSteps(limits, M.Run(limits, s, before), around, turns - 1)
  }

  /** A sweep with so many turns of its import. */
  function SweepSteps(limits: M.Limits, s: M.State, handed: Handed, around: Surroundings, turns: nat): seq<M.Step> {
    var scanned := ScanSteps(limits, s, handed, around, 0);
    var t := M.Run(limits, s, scanned);
    var written := scanned + ImportSteps(limits, t, around, turns);
    written + if M.Run(limits, s, written).work.Importing? then [M.DoFinish] else []
  }

  lemma SweepOf(limits: M.Limits, s: M.State, handed: Handed, around: Surroundings, turns: nat, written: seq<M.Step>)
    requires var scanned := ScanSteps(limits, s, handed, around, 0);
             written == scanned + ImportSteps(limits, M.Run(limits, s, scanned), around, turns)
    ensures SweepSteps(limits, s, handed, around, turns)
            == if M.Run(limits, s, written).work.Importing? then written + [M.DoFinish] else written
  {
    assert written + [] == written;
  }

  /** A pass of the verification that saw these entries: each was inspected, then comes the end of the directory, with a
      look into quarantine if no obstacle was counted, or a stop, or an error. */
  function VerifySteps(limits: M.Limits, s: M.State, seen: seq<string>, outcome: D.Outcome, readable: bool): seq<M.Step>
    requires outcome.VisitorThrew? ==> seen != []
  {
    if outcome.VisitorThrew? then Reads(seen[..|seen| - 1]) + [M.DoRead(seen[|seen| - 1], true, false)]
    else Reads(seen) + AfterReads(M.Run(limits, s, Reads(seen)), outcome, readable)
  }

  function AfterReads(s: M.State, outcome: D.Outcome, readable: bool): seq<M.Step>
    requires !outcome.VisitorThrew?
  {
    match outcome
    case Passed(_, complete) =>
      if !complete then [M.DoStop]
      else if s.verificationRemaining == 0 then [M.DoEnd, M.DoReview(readable)]
      else [M.DoEnd]
    case _ => [M.DoReadFails]
  }

  function Reads(names: seq<string>): (steps: seq<M.Step>)
    ensures |steps| == |names| && forall i :: 0 <= i < |names| ==> steps[i] == M.DoRead(names[i], false, false)
  {
    seq(|names|, i requires 0 <= i < |names| => M.DoRead(names[i], false, false))
  }

  /** So many sections of the end of a pass: checkpoint, release of a completed source, and the checkpoint again of a job
      that an error on the way has blocked. */
  function FinishSteps(limits: M.Limits, s: M.State, stored: nat -> bool, turns: nat): seq<M.Step> {
    if turns == 0 then []
    else
      var before := FinishSteps(limits, s, stored, turns - 1);
      before + [FinishOf(M.Run(limits, s, before).work, stored(turns - 1))]
  }

  function FinishOf(work: M.Work, ok: bool): M.Step {
    match work
    case Saving(_) => M.DoStored(ok)
    case Releasing => M.DoReleased(ok)
    case _ => M.DoSnapshot(ok)
  }

  // One more step of each.

  lemma WriteOn(limits: M.Limits, s: M.State, n: nat, done: nat, around: Surroundings, skip: bool)
    requires done < n
    ensures var t := M.Run(limits, s, WriteSteps(limits, s, n, done, around, skip));
            M.Run(limits, s, WriteSteps(limits, s, n, done + 1, around, skip))
            == M.Next(limits, t, WriteStep(t, n - done - 1, around, skip))
  {
    var before := WriteSteps(limits, s, n, done, around, skip);
    RunSnoc(limits, s, before, WriteStep(M.Run(limits, s, before), n - done - 1, around, skip));
  }

  lemma ImportOn(limits: M.Limits, s: M.State, around: Surroundings, turns: nat)
    ensures var t := M.Run(limits, s, ImportSteps(limits, s, around, turns));
            M.Run(limits, s, ImportSteps(limits, s, around, turns + 1))
            == M.Run(limits, t, TurnSteps(limits, t, around, turns))
  {
    var before := ImportSteps(limits, s, around, turns);
    M.RunRun(limits, s, before, TurnSteps(limits, M.Run(limits, s, before), around, turns));
  }

  lemma ReadOn(limits: M.Limits, s: M.State, seen: seq<string>, i: nat)
    requires i < |seen|
    ensures M.Run(limits, s, Reads(seen[..i + 1]))
            == M.Next(limits, M.Run(limits, s, Reads(seen[..i])), M.DoRead(seen[i], false, false))
  {
    var step := M.DoRead(seen[i], false, false);
    assert Reads(seen[..i + 1]) == Reads(seen[..i]) + [step];
    RunSnoc(limits, s, Reads(seen[..i]), step);
  }

  lemma FinishOn(limits: M.Limits, s: M.State, stored: nat -> bool, turns: nat)
    ensures var t := M.Run(limits, s, FinishSteps(limits, s, stored, turns));
            M.Run(limits, s, FinishSteps(limits, s, stored, turns + 1))
            == M.Next(limits, t, FinishOf(t.work, stored(turns)))
  {
    var before := FinishSteps(limits, s, stored, turns);
    RunSnoc(limits, s, before, FinishOf(M.Run(limits, s, before).work, stored(turns)));
  }
}
