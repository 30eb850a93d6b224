/** What keeps an import from completing, how files leave the source, and that a clean source can be completed. */
module LegacyOutcomes {
  import opened Common
  import opened LegacyModel
  import opened LegacyCompletion
  import opened LegacyCommands

  // How files leave.

  lemma PassLeavesDisk(limits: Limits, s: State, step: Step)
    requires step.DoTick? || step.DoReadFails? || step.DoStop? || step.DoEnd? || step.DoAbandon? || step.DoFinish?
             || step.DoReview?
    ensures Next(limits, s, step).disk == s.disk
  {
  }

  lemma CheckpointLeavesDisk(limits: Limits, s: State, step: Step)
    requires step.DoSnapshot? || step.DoStored? || step.DoReleased? || step.DoRestart?
    ensures Next(limits, s, step).disk == s.disk
  {
  }

  lemma CommandLeavesDisk(limits: Limits, s: State, step: Step)
    requires step.DoCommand? || step.DoGuard? || step.DoClaim? || step.DoCommit? || step.DoRecord? || step.DoRecorded?
             || step.DoLetGo?
    ensures Next(limits, s, step).disk == s.disk
  {
  }

  lemma DiskStays(limits: Limits, s: State, step: Step)
    requires !step.DoRead? && !step.DoWrite?
    ensures Next(limits, s, step).disk == s.disk
  {
    if step.DoSnapshot? || step.DoStored? || step.DoReleased? || step.DoRestart? {
      CheckpointLeavesDisk(limits, s, step);
    } else if step.DoTick? || step.DoReadFails? || step.DoStop? || step.DoEnd? || step.DoAbandon? || step.DoFinish?
              || step.DoReview? {
      PassLeavesDisk(limits, s, step);
    } else {
      CommandLeavesDisk(limits, s, step);
    }
  }

  lemma VisitDisk(limits: Limits, s: State, name: string, fault: bool, moved: bool)
    ensures var after := ReadEntry(limits, s, name, fault, moved).disk;
            || after == s.disk || after == Noted(s.disk)
            || (name in s.disk.dir && s.disk.dir[name].File? && after == Moved(s.disk, name))
  {
  }

  lemma WriteDisk(s: State, k: nat, result: WriteResult)
    ensures var after := WriteFile(s, k, result).disk;
            || after == s.disk || after == Noted(s.disk)
            || (s.work.Importing? && k < |s.work.todo|
                && var name := s.work.todo[k];
                   IsEvent(s.disk.dir, name)
                   && (after == Moved(s.disk, name)
                       || (after == Answered(s.disk, name)
                           && (result.Written? || result.Duplicate? || result.Unacknowledged?))))
  {
    if s.work.Importing? && k < |s.work.todo| && s.job.Some? && IsEvent(s.disk.dir, s.work.todo[k]) {
      SettleDisk(Begun(s, k), s.work.todo[k], s.job.value, result);
    }
  }

  lemma SettleDisk(s: State, name: string, job: Job, result: WriteResult)
    requires name in s.disk.dir && s.job == Some(job)
    ensures var after := Settle(s, name, job, result).disk;
            || after == s.disk || after == Noted(s.disk) || after == Moved(s.disk, name)
            || (after == Answered(s.disk, name) && (result.Written? || result.Duplicate? || result.Unacknowledged?))
  {
  }

  /** The writer has answered for the file in this step. */
  predicate AnswerStep(step: Step) {
    step.DoWrite? && (step.result.Written? || step.result.Duplicate? || step.result.Unacknowledged?)
  }

  /** A file leaves the source only in the step in which the writer has answered for it, or into quarantine. */
  lemma LeavesOnlyWithAnAnswer(limits: Limits, s: State, step: Step, name: string)
    requires name in s.disk.dir && name !in Next(limits, s, step).disk.dir
    ensures var after := Next(limits, s, step).disk;
            && s.disk.dir[name].File?
            && ((after == Answered(s.disk, name) && AnswerStep(step)) || after == Moved(s.disk, name))
  {
    match step
    case DoRead(visited, fault, moved) => VisitDisk(limits, s, visited, fault, moved);
    case DoWrite(at, result) => WriteDisk(s, at, result);
    case _ => DiskStays(limits, s, step);
  }

  lemma NextStray(limits: Limits, s: State, step: Step)
    ensures Next(limits, s, step).disk.stray >= s.disk.stray
    ensures forall n :: n in s.disk.quarantine ==> n in Next(limits, s, step).disk.quarantine
  {
    match step
    case DoRead(visited, fault, moved) => VisitDisk(limits, s, visited, fault, moved);
    case DoWrite(at, result) => WriteDisk(s, at, result);
    case _ => DiskStays(limits, s, step);
  }

  /** Nothing is taken out of quarantine. */
  lemma {:induction false} QuarantineStays(limits: Limits, s: State, steps: seq<Step>)
    ensures Run(limits, s, steps).disk.stray >= s.disk.stray
    ensures forall n :: n in s.disk.quarantine ==> n in Run(limits, s, steps).disk.quarantine
    decreases |steps|
  {
    if steps != [] {
      NextStray(limits, s, steps[0]);
      QuarantineStays(limits, Next(limits, s, steps[0]), steps[1..]);
    }
  }

  /** A source with an entry that is no event file, or anything in quarantine, is never completed. */
  lemma ObstaclesPreventCompletion(limits: Limits, initial: Directory, stray: nat, steps: seq<Step>, name: string)
    requires stray > 0 || (name in initial && !Harmless(initial[name]) && !IsEvent(initial, name))
    ensures var s := Run(limits, Initial(initial, stray), steps); !IsCompleted(s.job) && !IsCompleted(s.saved)
  {
    var s := Run(limits, Initial(initial, stray), steps);
    if IsCompleted(s.job) || IsCompleted(s.saved) {
      CompletedMeansImported(limits, initial, stray, steps);
      QuarantineStays(limits, Initial(initial, stray), steps);
    }
  }

  // Completing a clean source.

  /** Nothing keeps a pass over a clean source from completing the job. */
  ghost predicate Unhindered(s: State) {
    && Emptied(s.disk) && IsRunning(s) && s.job.value.quarantined == 0 && s.pending == NoCommand
    && s.sweepRemaining == 0 && s.verificationRemaining == 0
  }

  /** A traversal of a clean source can always be brought to its end, with everything else as it was. */
  lemma {:induction false} SweepToTheEnd(limits: Limits, s: State) returns (steps: seq<Step>)
    requires Unhindered(s) && s.work.Scanning?
    ensures Run(limits, s, steps) == s.(work := Importing(s.work.selected, true), replay := None)
    decreases |Opened(s.disk, s.replay).unseen|
  {
    if MayEnd(s.disk, s.replay) {
      steps := [DoEnd];
      RunOne(limits, s, DoEnd);
    } else {
      var name :| name in Opened(s.disk, s.replay).unseen && name in s.disk.dir;
      var step, next := DoRead(name, false, false), s.(replay := Some(Pass(s.disk, s.replay, name)));
      assert Next(limits, s, step) == next;
      var rest := SweepToTheEnd(limits, next);
      steps := [step] + rest;
      assert steps[1..] == rest;
    }
  }

  lemma {:induction false} VerifyToTheEnd(limits: Limits, s: State) returns (steps: seq<Step>)
    requires Unhindered(s) && s.work.Verifying?
    ensures Run(limits, s, steps) == s.(work := Reviewing, verifying := false, verification := None)
    decreases |Opened(s.disk, s.verification).unseen|
  {
    if MayEnd(s.disk, s.verification) {
      steps := [DoEnd];
      RunOne(limits, s, DoEnd);
    } else {
      var name :| name in Opened(s.disk, s.verification).unseen && name in s.disk.dir;
      var step, next := DoRead(name, false, false), s.(verification := Some(Pass(s.disk, s.verification, name)));
      assert Next(limits, s, step) == next;
      var rest := VerifyToTheEnd(limits, next);
      steps := [step] + rest;
      assert steps[1..] == rest;
    }
  }

  /** A running job over such a source can be completed by one pass. */
  lemma CleanSourceCompletes(limits: Limits, s: State) returns (steps: seq<Step>)
    requires Unhindered(s) && s.work.Idle? && !s.verifying
    ensures IsCompleted(Run(limits, s, steps).job) && Run(limits, s, steps).disk == s.disk
  {
    var s1 := s.(work := Scanning([], 0));
    var sweep := SweepToTheEnd(limits, s1);
    var s2 := s1.(work := Importing([], true), replay := None);
    var s3 := s2.(work := Verifying, verifying := true, verification := None);
    var verify := VerifyToTheEnd(limits, s3);
    var s4 := s3.(work := Reviewing, verifying := false, verification := None);
    RunOne(limits, s, DoTick(true));
    RunOne(limits, s2, DoFinish);
    RunOne(limits, s4, DoReview(true));
    RunRun(limits, s, [DoTick(true)], sweep);
    RunRun(limits, s, [DoTick(true)] + sweep, [DoFinish]);
    RunRun(limits, s, [DoTick(true)] + sweep + [DoFinish], verify);
    RunRun(limits, s, [DoTick(true)] + sweep + [DoFinish] + verify, [DoReview(true)]);
    steps := [DoTick(true)] + sweep + [DoFinish] + verify + [DoReview(true)];
  }

  // Importing the files first.

  predicate Importable(limits: Limits, e: Entry) {
    e.File? && e.event && e.size <= limits.maxFileBytes
  }

  ghost predicate Files(limits: Limits, dir: Directory) {
    forall n :: n in dir ==> Harmless(dir[n]) || Importable(limits, dir[n])
  }

  /** A job that runs between two passes over event files, none of which its traversal has missed. */
  ghost predicate Progressing(limits: Limits, s: State) {
    && Files(limits, s.disk.dir) && s.disk.quarantine == map[] && s.disk.stray == 0
    && IsRunning(s) && s.job.value.quarantined == 0 && s.pending == NoCommand && s.owned
    && s.sweepRemaining == 0 && s.verificationRemaining == 0 && !s.verifying && s.work.Idle?
    && forall n :: n in s.disk.dir && !Harmless(s.disk.dir[n]) ==> n in Opened(s.disk, s.replay).unseen
  }

  /** A pass that selects one file. */
  function Selecting(limits: Limits, s: State, name: string): State
    requires name in s.disk.dir && s.disk.dir[name].File?
  {
    s.(work := Importing([name], false), replay := Some(Pass(s.disk, s.replay, name)))
  }

  lemma ReadOne(limits: Limits, s: State, name: string)
    requires Progressing(limits, s) && name in s.disk.dir && !Harmless(s.disk.dir[name])
    ensures var next := Next(limits, s.(work := Scanning([], 0)), DoRead(name, false, false));
            next == Selecting(limits, s, name)
            || (next.work.Scanning? && Next(limits, next, DoStop) == Selecting(limits, s, name))
  {
    assert [] + [name] == [name];
  }

  lemma SelectOne(limits: Limits, s: State, name: string) returns (steps: seq<Step>)
    requires Progressing(limits, s) && name in s.disk.dir && !Harmless(s.disk.dir[name])
    ensures Run(limits, s, steps) == Selecting(limits, s, name)
  {
    var s1, read := s.(work := Scanning([], 0)), DoRead(name, false, false);
    var s2 := Next(limits, s1, read);
    ReadOne(limits, s, name);
    RunOne(limits, s, DoTick(true));
    RunOne(limits, s1, read);
    RunRun(limits, s, [DoTick(true)], [read]);
    steps := [DoTick(true)] + [read];
    if s2 != Selecting(limits, s, name) {
      RunOne(limits, s2, DoStop);
      RunRun(limits, s, steps, [DoStop]);
      steps := steps + [DoStop];
    }
  }

  /** The state after that file was written and the pass has ended. */
  function Imported(s: State, name: string): State
    requires s.job.Some? && name in s.disk.dir
  {
    var job := s.job.value.(written := s.job.value.written + 1);
    Change(s.(replay := Some(Pass(s.disk, s.replay, name))), Answered(s.disk, name))
    .(work := Idle, job := Some(job), saved := Some(job))
  }

  lemma EndOne(limits: Limits, s: State) returns (steps: seq<Step>)
    requires s.work == Importing([], false) && s.job.Some? && s.owned && s.pending == NoCommand && !IsCompleted(s.job)
    ensures Run(limits, s, steps) == s.(work := Idle, saved := s.job)
  {
    var s1, s2 := s.(work := Closing), s.(work := Saving(s.job.value));
    RunOne(limits, s, DoFinish);
    RunOne(limits, s1, DoSnapshot(true));
    RunOne(limits, s2, DoStored(true));
    RunRun(limits, s, [DoFinish], [DoSnapshot(true)]);
    RunRun(limits, s, [DoFinish] + [DoSnapshot(true)], [DoStored(true)]);
    steps := [DoFinish] + [DoSnapshot(true)] + [DoStored(true)];
  }

  lemma WriteOne(limits: Limits, s: State, name: string) returns (steps: seq<Step>)
    requires Progressing(limits, s) && name in s.disk.dir && !Harmless(s.disk.dir[name])
    ensures Run(limits, Selecting(limits, s, name), steps) == Imported(s, name)
  {
    var s0 := Selecting(limits, s, name);
    assert Without(s0.work.todo, 0) == [];
    RunOne(limits, s0, DoWrite(0, Written));
    var last := EndOne(limits, Next(limits, s0, DoWrite(0, Written)));
    RunRun(limits, s0, [DoWrite(0, Written)], last);
    steps := [DoWrite(0, Written)] + last;
  }

  lemma ImportedProgresses(limits: Limits, s: State, name: string)
    requires Progressing(limits, s) && name in s.disk.dir && !Harmless(s.disk.dir[name])
    ensures Progressing(limits, Imported(s, name)) && Imported(s, name).disk == Answered(s.disk, name)
  {
  }

  ghost function Waiting(dir: Directory): set<string> {
    set n | n in dir && !Harmless(dir[n])
  }

  lemma {:induction false} ImportAll(limits: Limits, s: State) returns (steps: seq<Step>)
    requires Progressing(limits, s)
    ensures var end := Run(limits, s, steps);
            && Unhindered(end) && end.work.Idle? && !end.verifying
            && (forall n :: n in s.disk.acknowledged || n in Waiting(s.disk.dir) ==> n in end.disk.acknowledged)
    decreases |Waiting(s.disk.dir)|
  {
    if Waiting(s.disk.dir) == {} {
      steps := [];
      assert forall n :: n in s.disk.dir && !Harmless(s.disk.dir[n]) ==> n in Waiting(s.disk.dir);
    } else {
      var name :| name in Waiting(s.disk.dir);
      var next := Imported(s, name);
      var select := SelectOne(limits, s, name);
      var write := WriteOne(limits, s, name);
      ImportedProgresses(limits, s, name);
      assert Waiting(next.disk.dir) == Waiting(s.disk.dir) - {name};
      var rest := ImportAll(limits, next);
      RunRun(limits, s, select, write);
      RunRun(limits, s, select + write, rest);
      steps := select + write + rest;
    }
  }

  /** A running job over a source of event files can be completed, with every one of them answered for. */
  lemma EventSourceCompletes(limits: Limits, s: State) returns (steps: seq<Step>)
    requires Progressing(limits, s)
    ensures var end := Run(limits, s, steps);
            IsCompleted(end.job) && forall n :: n in s.disk.dir && !Harmless(s.disk.dir[n]) ==> n in end.disk.acknowledged
  {
    var files := ImportAll(limits, s);
    var mid := Run(limits, s, files);
    var last := CleanSourceCompletes(limits, mid);
    RunRun(limits, s, files, last);
    steps := files + last;
    assert forall n :: n in s.disk.dir && !Harmless(s.disk.dir[n]) ==> n in Waiting(s.disk.dir);
  }

  lemma StartOverFiles(limits: Limits, initial: Directory)
    requires Files(limits, initial)
    ensures Progressing(limits, Run(limits, Initial(initial, 0), Sections(START, ALL_WELL)))
    ensures Run(limits, Initial(initial, 0), Sections(START, ALL_WELL)).disk == Initial(initial, 0).disk
  {
    StartOver(limits, initial);
  }

  /** A source of nothing but event files can be started and completed, with every one of them answered for. */
  lemma EventsCanBeImported(limits: Limits, initial: Directory) returns (steps: seq<Step>)
    requires Files(limits, initial)
    ensures var end := Run(limits, Initial(initial, 0), steps);
            IsCompleted(end.job) && forall n :: n in initial && !Harmless(initial[n]) ==> n in end.disk.acknowledged
  {
    var start := Sections(START, ALL_WELL);
    StartOverFiles(limits, initial);
    var rest := EventSourceCompletes(limits, Run(limits, Initial(initial, 0), start));
    RunRun(limits, Initial(initial, 0), start, rest);
    steps := start + rest;
  }
}
