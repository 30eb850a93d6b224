/** What one pass holds in memory is bounded, and the counters never claim more than happened. */
module LegacyBounds {
  import opened Common
  import opened LegacyModel
  import opened LegacyCompletion
  import opened LegacyOutcomes

  // Memory.

  function SizeOf(initial: Directory, name: string): nat {
    if name in initial && initial[name].File? then initial[name].size else 0
  }

  function Total(initial: Directory, names: seq<string>): nat {
    if names == [] then 0 else Total(initial, names[..|names| - 1]) + SizeOf(initial, names[|names| - 1])
  }

  lemma {:induction false} TotalWithout(initial: Directory, names: seq<string>, k: nat)
    requires k < |names|
    ensures Total(initial, Without(names, k)) + SizeOf(initial, names[k]) == Total(initial, names)
  {
    var n := |names| - 1;
    var less := Without(names, k);
    if k == n {
      assert less == names[..n];
    } else {
      TotalWithout(initial, names[..n], k);
      assert less[..|less| - 1] == Without(names[..n], k);
    }
  }

  /** The selected files respect both limits; while the pass still selects, one more file of any size has room. */
  ghost predicate Fits(limits: Limits, initial: Directory, work: Work) {
    match work
    case Scanning(selected, bytes) =>
      && bytes == Total(initial, selected)
      && |selected| < limits.batchSize && bytes + limits.maxFileBytes <= limits.maxBatchBytes
    case Importing(todo, _) => |todo| <= limits.batchSize && Total(initial, todo) <= limits.maxBatchBytes
    case _ => true
  }

  lemma SelectFits(limits: Limits, initial: Directory, work: Work, name: string)
    requires ValidLimits(limits) && work.Scanning? && Fits(limits, initial, work)
    requires name in initial && initial[name].File? && initial[name].size <= limits.maxFileBytes
    ensures var selected, bytes := work.selected + [name], work.bytes + initial[name].size;
            bytes == Total(initial, selected) && |selected| <= limits.batchSize && bytes <= limits.maxBatchBytes
  {
    assert (work.selected + [name])[..|work.selected|] == work.selected;
  }

  lemma VisitFileFits(limits: Limits, initial: Directory, s: State, name: string, moved: bool)
    requires ValidLimits(limits) && s.work.Scanning? && Fits(limits, initial, s.work)
    requires name in s.disk.dir && s.disk.dir[name].File? && name in initial && initial[name] == s.disk.dir[name]
    ensures Fits(limits, initial, VisitFile(limits, s, name, moved).work)
  {
    if s.disk.dir[name].event && s.disk.dir[name].size <= limits.maxFileBytes {
      SelectFits(limits, initial, s.work, name);
    }
  }

  lemma VisitFits(limits: Limits, initial: Directory, s: State, name: string, fault: bool, moved: bool)
    requires ValidLimits(limits) && s.work.Scanning? && Fits(limits, initial, s.work)
    requires Partition(initial, s.disk)
    ensures Fits(limits, initial, Visit(limits, s, name, fault, moved).work)
  {
    if name in Opened(s.disk, s.replay).unseen && !fault && name in s.disk.dir && s.disk.dir[name].File? {
      VisitFileFits(limits, initial, s.(replay := Some(Pass(s.disk, s.replay, name))), name, moved);
    }
  }

  lemma SettleWork(s: State, name: string, job: Job, result: WriteResult)
    requires name in s.disk.dir && s.job == Some(job)
    ensures Settle(s, name, job, result).work == s.work
  {
  }

  lemma WriteFits(limits: Limits, initial: Directory, s: State, k: nat, result: WriteResult)
    requires Fits(limits, initial, s.work)
    ensures Fits(limits, initial, WriteFile(s, k, result).work)
  {
    if s.work.Importing? && k < |s.work.todo| && s.job.Some? {
      TotalWithout(initial, s.work.todo, k);
      if IsEvent(s.disk.dir, s.work.todo[k]) {
        SettleWork(Begun(s, k), s.work.todo[k], s.job.value, result);
      }
    }
  }

  lemma PassFits(limits: Limits, initial: Directory, s: State, step: Step)
    requires ValidLimits(limits) && Fits(limits, initial, s.work)
    requires step.DoTick? || step.DoReadFails? || step.DoStop? || step.DoEnd? || step.DoAbandon? || step.DoFinish?
    ensures Fits(limits, initial, Next(limits, s, step).work)
  {
  }

  /** These steps hold no files. */
  lemma OthersFit(limits: Limits, initial: Directory, s: State, step: Step)
    requires Fits(limits, initial, s.work)
    requires step.DoReview? || step.DoSnapshot? || step.DoStored? || step.DoReleased? || step.DoRestart?
    ensures Fits(limits, initial, Next(limits, s, step).work)
  {
  }

  lemma CommandsWork(limits: Limits, s: State, step: Step)
    requires step.DoCommand? || step.DoGuard? || step.DoClaim? || step.DoCommit? || step.DoRecord? || step.DoRecorded?
             || step.DoLetGo?
    ensures Next(limits, s, step).work == s.work
  {
  }

  lemma NextFits(limits: Limits, initial: Directory, s: State, step: Step)
    requires ValidLimits(limits) && Partition(initial, s.disk) && Fits(limits, initial, s.work)
    ensures Fits(limits, initial, Next(limits, s, step).work)
  {
    if step.DoRead? {
      if s.work.Scanning? {
        VisitFits(limits, initial, s, step.name, step.fault, step.moved);
      }
    } else if step.DoWrite? {
      WriteFits(limits, initial, s, step.at, step.result);
    } else if step.DoTick? || step.DoReadFails? || step.DoStop? || step.DoEnd? || step.DoAbandon? || step.DoFinish? {
      PassFits(limits, initial, s, step);
    } else if step.DoReview? || step.DoSnapshot? || step.DoStored? || step.DoReleased? || step.DoRestart? {
      OthersFit(limits, initial, s, step);
    } else {
      CommandsWork(limits, s, step);
    }
  }

  lemma {:induction false} RunFits(limits: Limits, initial: Directory, s: State, steps: seq<Step>)
    requires ValidLimits(limits) && Sound(initial, s) && Fits(limits, initial, s.work)
    ensures Fits(limits, initial, Run(limits, s, steps).work)
    decreases |steps|
  {
    if steps != [] {
      NextFits(limits, initial, s, steps[0]);
      NextSound(limits, initial, s, steps[0]);
      RunFits(limits, initial, Next(limits, s, steps[0]), steps[1..]);
    }
  }

  /** In every run a pass holds at most a batch of files, and at most the bytes allowed for one. */
  lemma BatchIsBounded(limits: Limits, initial: Directory, stray: nat, steps: seq<Step>)
    requires ValidLimits(limits)
    ensures var work := Run(limits, Initial(initial, stray), steps).work;
            && (work.Scanning? ==> |work.selected| <= limits.batchSize
                                   && Total(initial, work.selected) <= limits.maxBatchBytes)
            && (work.Importing? ==> |work.todo| <= limits.batchSize && Total(initial, work.todo) <= limits.maxBatchBytes)
  {
    RunFits(limits, initial, Initial(initial, stray), steps);
  }

  // Counters.

  /** The job claims no more files than these. */
  predicate Modest(job: Option<Job>, answered: nat, moved: nat) {
    job.Some? ==> job.value.written + job.value.duplicate <= answered && job.value.quarantined <= moved
  }

  /** Neither the job in memory nor a checkpoint, written or being written, claims more than has happened. */
  predicate Counted(s: State, answered: nat, moved: nat) {
    && Modest(s.job, answered, moved) && Modest(s.saved, answered, moved)
    && Modest(PassText(s.work), answered, moved) && Modest(CommandText(s.pending), answered, moved)
  }

  lemma AnsweredGrows(disk: Disk, name: string)
    requires name in disk.dir && name !in disk.acknowledged
    ensures |Answered(disk, name).acknowledged| == |disk.acknowledged| + 1
  {
  }

  lemma MovedGrows(disk: Disk, name: string)
    requires name in disk.dir && name !in disk.quarantine
    ensures |Moved(disk, name).quarantine| == |disk.quarantine| + 1
  {
  }

  // No step but a visit or a write counts a file.

  lemma FaultCounts(s: State, answered: nat, moved: nat)
    requires Counted(s, answered, moved)
    ensures Counted(Fault(s), answered, moved)
  {
  }

  lemma BeginCounts(s: State, valid: bool, answered: nat, moved: nat)
    requires Counted(s, answered, moved)
    ensures Counted(Tick(s, valid), answered, moved) && Counted(ReadFails(s), answered, moved)
  {
    FaultCounts(s, answered, moved);
    FaultCounts(s.(replay := None), answered, moved);
    FaultCounts(s.(verification := None), answered, moved);
  }

  lemma EndCounts(s: State, answered: nat, moved: nat)
    requires Counted(s, answered, moved)
    ensures Counted(StopReading(s), answered, moved) && Counted(EndOfDirectory(s), answered, moved)
  {
  }

  lemma FinishCounts(s: State, readable: bool, answered: nat, moved: nat)
    requires Counted(s, answered, moved)
    ensures Counted(FinishImport(s), answered, moved) && Counted(Review(s, readable), answered, moved)
  {
    FaultCounts(s, answered, moved);
  }

  lemma PassCounts(limits: Limits, s: State, step: Step, answered: nat, moved: nat)
    requires Counted(s, answered, moved)
    requires step.DoTick? || step.DoReadFails? || step.DoStop? || step.DoEnd? || step.DoAbandon? || step.DoFinish?
             || step.DoReview?
    ensures Counted(Next(limits, s, step), answered, moved)
  {
    match step
    case DoTick(valid) => BeginCounts(s, valid, answered, moved);
    case DoReadFails => BeginCounts(s, true, answered, moved);
    case DoStop => EndCounts(s, answered, moved);
    case DoEnd => EndCounts(s, answered, moved);
    case DoAbandon => FaultCounts(s, answered, moved);
    case DoFinish => FinishCounts(s, true, answered, moved);
    case DoReview(readable) => FinishCounts(s, readable, answered, moved);
  }

  lemma SnapshotCounts(limits: Limits, s: State, ok: bool, answered: nat, moved: nat)
    requires Counted(s, answered, moved)
    ensures Counted(Next(limits, s, DoSnapshot(ok)), answered, moved)
  {
  }

  lemma CheckpointCounts(limits: Limits, s: State, step: Step, answered: nat, moved: nat)
    requires Counted(s, answered, moved)
    requires step.DoStored? || step.DoReleased?
    ensures Counted(Next(limits, s, step), answered, moved)
  {
  }

  lemma RestartCounts(s: State, graceful: bool, answered: nat, moved: nat)
    requires Counted(s, answered, moved)
    ensures Counted(Restart(s, graceful), answered, moved)
  {
  }

  lemma GuardCounts(limits: Limits, s: State, step: Step, answered: nat, moved: nat)
    requires Counted(s, answered, moved)
    requires step.DoCommand? || step.DoGuard? || step.DoClaim? || step.DoCommit?
    ensures Counted(Next(limits, s, step), answered, moved)
  {
  }

  lemma RecordCounts(limits: Limits, s: State, step: Step, answered: nat, moved: nat)
    requires Counted(s, answered, moved)
    requires step.DoRecord? || step.DoRecorded? || step.DoLetGo?
    ensures Counted(Next(limits, s, step), answered, moved)
  {
  }

  lemma InspectCounts(s: State, name: string, fault: bool, answered: nat, moved: nat)
    requires Counted(s, answered, moved)
    ensures Counted(Inspect(s, name, fault), answered, moved)
  {
  }

  /** Either the file of the visit was moved and at most that is counted, or nothing is. */
  predicate VisitCounted(before: Disk, next: State, name: string, answered: nat, moved: nat) {
    || (name in before.dir && next.disk == Moved(before, name) && Counted(next, answered, moved + 1))
    || (next.disk.quarantine == before.quarantine && next.disk.acknowledged == before.acknowledged
        && Counted(next, answered, moved))
  }

  lemma VisitFileCounts(limits: Limits, s: State, name: string, went: bool, answered: nat, moved: nat)
    requires Counted(s, answered, moved) && s.work.Scanning? && name in s.disk.dir && s.disk.dir[name].File?
    ensures VisitCounted(s.disk, VisitFile(limits, s, name, went), name, answered, moved)
  {
  }

  lemma VisitCounts(limits: Limits, s: State, name: string, fault: bool, went: bool, answered: nat, moved: nat)
    requires Counted(s, answered, moved) && s.work.Scanning?
    ensures VisitCounted(s.disk, Visit(limits, s, name, fault, went), name, answered, moved)
  {
    if name in Opened(s.disk, s.replay).unseen && !fault && name in s.disk.dir && s.disk.dir[name].File? {
      VisitFileCounts(limits, s.(replay := Some(Pass(s.disk, s.replay, name))), name, went, answered, moved);
    }
  }

  lemma SettleCounts(s: State, name: string, job: Job, result: WriteResult, answered: nat, moved: nat)
    requires Counted(s, answered, moved) && name in s.disk.dir && s.job == Some(job)
    ensures var next := Settle(s, name, job, result);
            match result
            case Written => Counted(next, answered + 1, moved)
            case Duplicate => Counted(next, answered + 1, moved)
            case Quarantined(went) => if went then Counted(next, answered, moved + 1) else Counted(next, answered, moved)
            case _ => Counted(next, answered, moved)
  {
  }

  lemma Fewer(s: State, answered: nat, moved: nat, more: nat, most: nat)
    requires Counted(s, answered, moved) && answered <= more && moved <= most
    ensures Counted(s, more, most)
  {
  }

  /** Against what is on the disk. */
  predicate Truthful(s: State) {
    Counted(s, |s.disk.acknowledged|, |s.disk.quarantine|)
  }

  lemma VisitTruthful(limits: Limits, initial: Directory, s: State, name: string, fault: bool, went: bool)
    requires Truthful(s) && Partition(initial, s.disk) && s.work.Scanning?
    ensures Truthful(Visit(limits, s, name, fault, went))
  {
    VisitCounts(limits, s, name, fault, went, |s.disk.acknowledged|, |s.disk.quarantine|);
    if name in s.disk.dir {
      MovedGrows(s.disk, name);
    }
  }

  lemma SettleTruthful(initial: Directory, s: State, name: string, job: Job, result: WriteResult)
    requires Truthful(s) && Partition(initial, s.disk) && name in s.disk.dir && s.job == Some(job)
    ensures Truthful(Settle(s, name, job, result))
  {
    var a, q := |s.disk.acknowledged|, |s.disk.quarantine|;
    var next := Settle(s, name, job, result);
    SettleCounts(s, name, job, result, a, q);
    AnsweredGrows(s.disk, name);
    MovedGrows(s.disk, name);
    if result.Unacknowledged? {
      Fewer(next, a, q, a + 1, q);
    }
  }

  lemma WriteTruthful(initial: Directory, s: State, k: nat, result: WriteResult)
    requires Truthful(s) && Partition(initial, s.disk)
    ensures Truthful(WriteFile(s, k, result))
  {
    if s.work.Importing? && k < |s.work.todo| && s.job.Some? && IsEvent(s.disk.dir, s.work.todo[k]) {
      SettleTruthful(initial, Begun(s, k), s.work.todo[k], s.job.value, result);
    }
  }

  lemma NextTruthful(limits: Limits, initial: Directory, s: State, step: Step)
    requires Truthful(s) && Partition(initial, s.disk)
    ensures Truthful(Next(limits, s, step))
  {
    var a, q := |s.disk.acknowledged|, |s.disk.quarantine|;
    if step.DoRead? {
      if s.work.Scanning? {
        VisitTruthful(limits, initial, s, step.name, step.fault, step.moved);
      } else {
        InspectCounts(s, step.name, step.fault, a, q);
      }
    } else if step.DoWrite? {
      WriteTruthful(initial, s, step.at, step.result);
    } else if step.DoRestart? {
      RestartCounts(s, step.graceful, a, q);
    } else if step.DoSnapshot? || step.DoStored? || step.DoReleased? {
      if step.DoSnapshot? {
        SnapshotCounts(limits, s, step.ok, a, q);
      } else {
        CheckpointCounts(limits, s, step, a, q);
      }
      CheckpointLeavesDisk(limits, s, step);
    } else if step.DoTick? || step.DoReadFails? || step.DoStop? || step.DoEnd? || step.DoAbandon? || step.DoFinish?
              || step.DoReview? {
      PassCounts(limits, s, step, a, q);
      PassLeavesDisk(limits, s, step);
    } else {
      if step.DoRecord? || step.DoRecorded? || step.DoLetGo? {
        RecordCounts(limits, s, step, a, q);
      } else {
        GuardCounts(limits, s, step, a, q);
      }
      CommandLeavesDisk(limits, s, step);
    }
  }

  lemma {:induction false} RunTruthful(limits: Limits, initial: Directory, s: State, steps: seq<Step>)
    requires Truthful(s) && Sound(initial, s)
    ensures Truthful(Run(limits, s, steps))
    decreases |steps|
  {
    if steps != [] {
      NextTruthful(limits, initial, s, steps[0]);
      NextSound(limits, initial, s, steps[0]);
      RunTruthful(limits, initial, Next(limits, s, steps[0]), steps[1..]);
    }
  }

  /** In every run, with restarts from any older checkpoint, no job, in memory or stored, reports more files than were
      answered for or quarantined. */
  lemma CountersNeverOverstate(limits: Limits, initial: Directory, stray: nat, steps: seq<Step>)
    ensures var s := Run(limits, Initial(initial, stray), steps);
            Modest(s.job, |s.disk.acknowledged|, |s.disk.quarantine|)
            && Modest(s.saved, |s.disk.acknowledged|, |s.disk.quarantine|)
  {
    RunTruthful(limits, initial, Initial(initial, stray), steps);
  }
}
