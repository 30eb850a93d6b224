/** A completed import has emptied its source: the writer answered for every file of it, and none is in quarantine. */
module LegacyCompletion {
  import opened Common
  import opened LegacyModel

  ghost predicate Clean(dir: Directory) {
    forall n :: n in dir ==> Harmless(dir[n])
  }

  // The files.

  /** Every initial entry is in exactly one place, unchanged. */
  ghost predicate Partition(initial: Directory, disk: Disk) {
    && (forall n :: n in initial <==> n in disk.dir || n in disk.quarantine || n in disk.acknowledged)
    && (forall n :: n in disk.dir ==> n !in disk.quarantine && n !in disk.acknowledged && initial[n] == disk.dir[n])
    && (forall n :: n in disk.quarantine ==> n !in disk.acknowledged && initial[n] == disk.quarantine[n])
    && (forall n :: n in disk.acknowledged ==> initial[n] == disk.acknowledged[n])
  }

  ghost predicate Placed(initial: Directory, disk: Disk) {
    && Partition(initial, disk)
    && (forall n :: n in disk.acknowledged ==> IsEvent(disk.acknowledged, n))
    && (forall n :: n in disk.quarantine ==> disk.quarantine[n].File?)
  }

  /** Nothing is left to import, and nothing was refused. */
  ghost predicate Emptied(disk: Disk) {
    Clean(disk.dir) && disk.quarantine == map[] && disk.stray == 0
  }

  // The invariant.

  /** What "completed" promises, wherever a job says so. */
  ghost predicate Honest(job: Option<Job>, disk: Disk) {
    IsCompleted(job) ==> Emptied(disk) && job.value.quarantined == 0
  }

  /** The checkpoint that a pass is writing. */
  function PassText(work: Work): Option<Job> {
    match work
    case Saving(job) => Some(job)
    case _ => None
  }

  /** The checkpoint that a command is writing. */
  function CommandText(pending: Pending): Option<Job> {
    match pending
    case Recording(_, job) => Some(job)
    case _ => None
  }

  /** A verification has counted every obstacle that it has passed, and nothing was removed behind it. */
  ghost predicate Watched(dir: Directory, cursor: Option<Cursor>, remaining: nat) {
    cursor.Some? ==>
      && !cursor.value.disturbed
      && (remaining == 0 ==> forall n :: n in dir && n !in cursor.value.unseen ==> Harmless(dir[n]))
  }

  ghost predicate Staged(s: State) {
    && Watched(s.disk.dir, s.verification, s.verificationRemaining)
    && (s.verification.Some? ==> s.verifying)
    && (s.work.Verifying? ==> s.verifying)
    && (s.work.Scanning? || s.work.Importing? ==> !s.verifying)
    && (s.work.Reviewing? ==> Clean(s.disk.dir))
  }

  ghost predicate Told(s: State) {
    && Honest(s.job, s.disk) && Honest(s.saved, s.disk)
    && Honest(PassText(s.work), s.disk) && Honest(CommandText(s.pending), s.disk)
  }

  ghost predicate Sound(initial: Directory, s: State) {
    Placed(initial, s.disk) && Told(s) && Staged(s)
  }

  // Steps that move no file.

  /** Every job that `next` has was one before, or is not completed. */
  predicate Inherits(job: Option<Job>, s: State) {
    !IsCompleted(job) || (exists old0 :: old0 in {s.job, s.saved, PassText(s.work), CommandText(s.pending)}
                            && IsCompleted(old0) && old0.value.quarantined == job.value.quarantined)
  }

  lemma InheritsHonestly(job: Option<Job>, s: State)
    requires Told(s) && Inherits(job, s)
    ensures Honest(job, s.disk)
  {
  }

  lemma StillTold(s: State, next: State)
    requires Told(s) && next.disk == s.disk
    requires Inherits(next.job, s) && Inherits(next.saved, s)
    requires Inherits(PassText(next.work), s) && Inherits(CommandText(next.pending), s)
    ensures Told(next)
  {
    InheritsHonestly(next.job, s);
    InheritsHonestly(next.saved, s);
    InheritsHonestly(PassText(next.work), s);
    InheritsHonestly(CommandText(next.pending), s);
  }

  /** Nobody says "completed". */
  predicate Silent(s: State) {
    !IsCompleted(s.job) && !IsCompleted(s.saved) && !IsCompleted(PassText(s.work)) && !IsCompleted(CommandText(s.pending))
  }

  /** While a file is left, nobody does. */
  lemma FileLeft(s: State, name: string)
    requires Told(s) && name in s.disk.dir && !Harmless(s.disk.dir[name])
    ensures Silent(s)
  {
  }

  lemma SilentTold(s: State)
    requires Silent(s)
    ensures Told(s)
  {
  }

  /** The files stay, and nobody says "completed" who could not have said so before. */
  predicate Quiet(s: State, next: State) {
    && next.disk == s.disk
    && Inherits(next.job, s) && Inherits(next.saved, s)
    && Inherits(PassText(next.work), s) && Inherits(CommandText(next.pending), s)
  }

  lemma FaultQuiet(s: State)
    ensures Quiet(s, Fault(s))
    ensures Staged(s) ==> Staged(Fault(s))
  {
  }

  lemma TickKeeps(s: State, valid: bool)
    requires Staged(s)
    ensures Quiet(s, Tick(s, valid)) && Staged(Tick(s, valid))
  {
    FaultQuiet(s);
  }

  lemma InspectKeeps(s: State, name: string, fault: bool)
    requires Staged(s) && s.work.Verifying?
    ensures Quiet(s, Inspect(s, name, fault)) && Staged(Inspect(s, name, fault))
  {
    FaultQuiet(s.(verification := None));
  }

  lemma ReadFailsKeeps(s: State)
    requires Staged(s)
    ensures Quiet(s, ReadFails(s)) && Staged(ReadFails(s))
  {
    FaultQuiet(s.(verification := None));
    FaultQuiet(s.(replay := None));
  }

  lemma StopKeeps(s: State)
    requires Staged(s)
    ensures Quiet(s, StopReading(s)) && Staged(StopReading(s))
  {
  }

  lemma EndKeeps(s: State)
    requires Staged(s)
    ensures Quiet(s, EndOfDirectory(s)) && Staged(EndOfDirectory(s))
  {
    if s.work.Verifying? && MayEnd(s.disk, s.verification) && s.verificationRemaining == 0 {
      VerifiedClean(s.disk, s.verification);
    }
  }

  lemma VerifiedClean(disk: Disk, cursor: Option<Cursor>)
    requires Watched(disk.dir, cursor, 0) && MayEnd(disk, cursor)
    ensures Clean(disk.dir)
  {
    if cursor.None? {
      assert disk.dir.Keys !! disk.dir.Keys;
      assert forall n :: n in disk.dir ==> n in disk.dir.Keys;
    }
  }

  lemma FinishKeeps(s: State)
    requires Staged(s)
    ensures Quiet(s, FinishImport(s)) && Staged(FinishImport(s))
  {
  }

  lemma CheckpointKeeps(s: State, ok: bool)
    requires Staged(s)
    ensures Quiet(s, Snapshot(s, ok)) && Staged(Snapshot(s, ok))
    ensures Quiet(s, Stored(s, ok)) && Staged(Stored(s, ok))
    ensures Quiet(s, Released(s, ok)) && Staged(Released(s, ok))
  {
    FaultQuiet(s);
  }

  lemma BeginKeeps(s: State, command: Command)
    requires Staged(s)
    ensures Quiet(s, Begin(s, command)) && Staged(Begin(s, command))
  {
  }

  lemma GuardKeeps(s: State, ok: bool)
    requires Staged(s)
    ensures Quiet(s, Guard(s, ok)) && Staged(Guard(s, ok))
    ensures Quiet(s, Claim(s, ok)) && Staged(Claim(s, ok))
  {
  }

  lemma CommitKeeps(s: State, accepting: bool, policySame: bool)
    requires Staged(s)
    ensures Quiet(s, Commit(s, accepting, policySame)) && Staged(Commit(s, accepting, policySame))
  {
  }

  lemma RecordKeeps(s: State, ok: bool)
    requires Staged(s)
    ensures Quiet(s, Record(s, ok)) && Staged(Record(s, ok))
    ensures Quiet(s, Recorded(s, ok)) && Staged(Recorded(s, ok))
    ensures Quiet(s, LetGo(s, ok)) && Staged(LetGo(s, ok))
  {
  }

  lemma RestartKeeps(s: State, graceful: bool)
    ensures Quiet(s, Restart(s, graceful)) && Staged(Restart(s, graceful))
  {
  }

  lemma ReviewKeeps(s: State, readable: bool)
    requires Told(s) && Staged(s)
    ensures Told(Review(s, readable)) && Staged(Review(s, readable)) && Review(s, readable).disk == s.disk
  {
    if s.work.Reviewing? && s.job.Some? {
      if readable {
        assert !Dirty(s.disk, s.job.value) ==> Emptied(s.disk) && s.job.value.quarantined == 0;
      } else {
        FaultQuiet(s);
        StillTold(s, Fault(s));
      }
    }
  }

  // Steps that move a file.

  lemma AnsweredPlaced(initial: Directory, disk: Disk, name: string)
    requires Placed(initial, disk) && IsEvent(disk.dir, name)
    ensures Placed(initial, Answered(disk, name))
  {
  }

  lemma MovedPlaced(initial: Directory, disk: Disk, name: string)
    requires Placed(initial, disk) && name in disk.dir && disk.dir[name].File?
    ensures Placed(initial, Moved(disk, name)) && Placed(initial, Noted(disk))
  {
  }

  /** A step of a sweep or an import that touches a file: nobody has said "completed", and no verification is open. */
  predicate Touches(s: State, next: State) {
    && (IsCompleted(next.job) ==> IsCompleted(s.job)) && next.saved == s.saved
    && (PassText(next.work) == PassText(s.work) || PassText(next.work) == None) && next.pending == s.pending
    && next.verification == None && next.verifying == s.verifying
    && (next.work.Scanning? || next.work.Importing? || next.work.Idle? || next.work.Closing?)
  }

  lemma TouchKeeps(s: State, next: State, name: string)
    requires Told(s) && Staged(s) && Touches(s, next) && (s.work.Scanning? || s.work.Importing?)
    requires name in s.disk.dir && !Harmless(s.disk.dir[name])
    ensures Told(next) && Staged(next)
  {
    FileLeft(s, name);
    SilentTold(next);
  }

  lemma VisitFileTouches(limits: Limits, s: State, name: string, moved: bool)
    requires Staged(s) && s.work.Scanning? && name in s.disk.dir && s.disk.dir[name].File?
    ensures Touches(s, VisitFile(limits, s, name, moved))
  {
    assert s.verification == None;
  }

  lemma VisitFilePlaced(limits: Limits, initial: Directory, s: State, name: string, moved: bool)
    requires Placed(initial, s.disk) && s.work.Scanning? && name in s.disk.dir && s.disk.dir[name].File?
    ensures Placed(initial, VisitFile(limits, s, name, moved).disk)
  {
    MovedPlaced(initial, s.disk, name);
  }

  lemma SweepMoves(initial: Directory, s: State, cursor: Option<Cursor>)
    requires Sound(initial, s)
    ensures Sound(initial, s.(replay := cursor))
  {
  }

  lemma VisitSound(limits: Limits, initial: Directory, s: State, name: string, fault: bool, moved: bool)
    requires Sound(initial, s) && s.work.Scanning?
    ensures Sound(initial, Visit(limits, s, name, fault, moved))
  {
    if name in Opened(s.disk, s.replay).unseen {
      if fault {
        SweepMoves(initial, s, None);
        FaultQuiet(s.(replay := None));
        StillTold(s.(replay := None), Fault(s.(replay := None)));
      } else {
        var t := s.(replay := Some(Pass(s.disk, s.replay, name)));
        SweepMoves(initial, s, t.replay);
        if name in s.disk.dir && !Harmless(s.disk.dir[name]) {
          if s.disk.dir[name].File? {
            VisitFileTouches(limits, t, name, moved);
            VisitFilePlaced(limits, initial, t, name, moved);
            TouchKeeps(t, VisitFile(limits, t, name, moved), name);
          } else {
            TouchKeeps(t, Annotate(Keep(t), NonRegular), name);
          }
        }
      }
    }
  }

  lemma SettleTouches(s: State, name: string, job: Job, result: WriteResult)
    requires Staged(s) && s.work.Importing? && name in s.disk.dir && s.job == Some(job)
    ensures Touches(s, Settle(s, name, job, result))
  {
    assert s.verification == None;
  }

  lemma SettlePlaced(initial: Directory, s: State, name: string, job: Job, result: WriteResult)
    requires Placed(initial, s.disk) && IsEvent(s.disk.dir, name) && s.job == Some(job)
    ensures Placed(initial, Settle(s, name, job, result).disk)
  {
    AnsweredPlaced(initial, s.disk, name);
    MovedPlaced(initial, s.disk, name);
  }

  lemma KeepQuiet(s: State, note: Note)
    ensures Quiet(s, Keep(s)) && Quiet(s, Annotate(Keep(s), note))
    ensures Staged(s) ==> Staged(Keep(s)) && Staged(Annotate(Keep(s), note))
  {
  }

  lemma WriteSound(initial: Directory, s: State, k: nat, result: WriteResult)
    requires Sound(initial, s)
    ensures Sound(initial, WriteFile(s, k, result))
  {
    if s.work.Importing? && k < |s.work.todo| && s.job.Some? {
      var name, t := s.work.todo[k], Begun(s, k);
      BegunSound(initial, s, k);
      if !result.Skipped? && IsEvent(s.disk.dir, name) {
        SettleTouches(t, name, s.job.value, result);
        SettlePlaced(initial, t, name, s.job.value, result);
        TouchKeeps(t, Settle(t, name, s.job.value, result), name);
      } else {
        KeepQuiet(t, OtherNote);
        StillTold(t, WriteFile(s, k, result));
      }
    }
  }

  lemma BegunSound(initial: Directory, s: State, k: nat)
    requires Sound(initial, s) && s.work.Importing? && k < |s.work.todo|
    ensures Sound(initial, Begun(s, k))
  {
  }

  // Runs.

  lemma QuietSound(initial: Directory, s: State, next: State)
    requires Sound(initial, s) && Quiet(s, next) && Staged(next)
    ensures Sound(initial, next)
  {
    StillTold(s, next);
  }

  lemma ReadSound(limits: Limits, initial: Directory, s: State, name: string, fault: bool, moved: bool)
    requires Sound(initial, s)
    ensures Sound(initial, ReadEntry(limits, s, name, fault, moved))
  {
    match s.work
    case Scanning(_, _) => VisitSound(limits, initial, s, name, fault, moved);
    case Verifying =>
      InspectKeeps(s, name, fault);
      QuietSound(initial, s, Inspect(s, name, fault));
    case _ =>
  }

  lemma PassSound(limits: Limits, initial: Directory, s: State, step: Step)
    requires Sound(initial, s)
    requires step.DoTick? || step.DoReadFails? || step.DoStop? || step.DoEnd? || step.DoAbandon? || step.DoFinish?
    ensures Sound(initial, Next(limits, s, step))
  {
    match step {
      case DoTick(valid) => TickKeeps(s, valid);
      case DoReadFails => ReadFailsKeeps(s);
      case DoStop => StopKeeps(s);
      case DoEnd => EndKeeps(s);
      case DoAbandon => FaultQuiet(s);
      case DoFinish => FinishKeeps(s);
    }
    QuietSound(initial, s, Next(limits, s, step));
  }

  lemma AssignmentSound(limits: Limits, initial: Directory, s: State, step: Step)
    requires Sound(initial, s) && (step.DoCommand? || step.DoGuard? || step.DoClaim? || step.DoCommit?)
    ensures Sound(initial, Next(limits, s, step))
  {
    match step {
      case DoCommand(command) => BeginKeeps(s, command);
      case DoGuard(accepting) => GuardKeeps(s, accepting);
      case DoClaim(ok) => GuardKeeps(s, ok);
      case DoCommit(accepts, policySame) => CommitKeeps(s, accepts, policySame);
    }
    QuietSound(initial, s, Next(limits, s, step));
  }

  lemma RecordSound(limits: Limits, initial: Directory, s: State, step: Step)
    requires Sound(initial, s) && (step.DoRecord? || step.DoRecorded? || step.DoLetGo?)
    ensures Sound(initial, Next(limits, s, step))
  {
    match step {
      case DoRecord(ok) => RecordKeeps(s, ok);
      case DoRecorded(ok) => RecordKeeps(s, ok);
      case DoLetGo(ok) => RecordKeeps(s, ok);
    }
    QuietSound(initial, s, Next(limits, s, step));
  }

  lemma CheckpointSound(limits: Limits, initial: Directory, s: State, step: Step)
    requires Sound(initial, s)
    requires step.DoSnapshot? || step.DoStored? || step.DoReleased? || step.DoRestart?
    ensures Sound(initial, Next(limits, s, step))
  {
    match step {
      case DoSnapshot(ok) => CheckpointKeeps(s, ok);
      case DoStored(ok) => CheckpointKeeps(s, ok);
      case DoReleased(ok) => CheckpointKeeps(s, ok);
      case DoRestart(graceful) => RestartKeeps(s, graceful);
    }
    QuietSound(initial, s, Next(limits, s, step));
  }

  lemma NextSound(limits: Limits, initial: Directory, s: State, step: Step)
    requires Sound(initial, s)
    ensures Sound(initial, Next(limits, s, step))
  {
    match step
    case DoRead(name, fault, moved) => ReadSound(limits, initial, s, name, fault, moved);
    case DoWrite(at, result) => WriteSound(initial, s, at, result);
    case DoReview(readable) => ReviewKeeps(s, readable);
    case DoTick(_) => PassSound(limits, initial, s, step);
    case DoReadFails => PassSound(limits, initial, s, step);
    case DoStop => PassSound(limits, initial, s, step);
    case DoEnd => PassSound(limits, initial, s, step);
    case DoAbandon => PassSound(limits, initial, s, step);
    case DoFinish => PassSound(limits, initial, s, step);
    case DoSnapshot(_) => CheckpointSound(limits, initial, s, step);
    case DoStored(_) => CheckpointSound(limits, initial, s, step);
    case DoReleased(_) => CheckpointSound(limits, initial, s, step);
    case DoRestart(_) => CheckpointSound(limits, initial, s, step);
    case DoRecord(_) => RecordSound(limits, initial, s, step);
    case DoRecorded(_) => RecordSound(limits, initial, s, step);
    case DoLetGo(_) => RecordSound(limits, initial, s, step);
    case _ => AssignmentSound(limits, initial, s, step);
  }

  lemma {:induction false} RunSound(limits: Limits, initial: Directory, s: State, steps: seq<Step>)
    requires Sound(initial, s)
    ensures Sound(initial, Run(limits, s, steps))
    decreases |steps|
  {
    if steps != [] {
      NextSound(limits, initial, s, steps[0]);
      RunSound(limits, initial, Next(limits, s, steps[0]), steps[1..]);
    }
  }

  // The results.

  /** In every run, with commands, errors and restarts between any two sections of a pass: a job is completed only when
      the source holds nothing but the importer's directory and the empty directory of the old archiver, quarantine is
      empty, and the writer has answered for every other entry, each an event file. It holds of the stored job, too. */
  lemma CompletedMeansImported(limits: Limits, initial: Directory, stray: nat, steps: seq<Step>)
    requires var s := Run(limits, Initial(initial, stray), steps); IsCompleted(s.job) || IsCompleted(s.saved)
    ensures var disk := Run(limits, Initial(initial, stray), steps).disk;
            && Clean(disk.dir) && disk.quarantine == map[] && disk.stray == 0
            && forall n :: n in initial && !Harmless(initial[n]) ==> n in disk.acknowledged && IsEvent(initial, n)
  {
    RunSound(limits, initial, Initial(initial, stray), steps);
    var disk := Run(limits, Initial(initial, stray), steps).disk;
    assert Emptied(disk);
    forall n | n in initial && !Harmless(initial[n]) ensures n in disk.acknowledged && IsEvent(initial, n) {
      assert n in disk.dir || n in disk.quarantine || n in disk.acknowledged;
    }
  }

  /** No file is lost in any run: what is no longer in the source was answered for by the writer or lies in quarantine. */
  lemma NothingIsLost(limits: Limits, initial: Directory, stray: nat, steps: seq<Step>)
    ensures Partition(initial, Run(limits, Initial(initial, stray), steps).disk)
  {
    RunSound(limits, initial, Initial(initial, stray), steps);
  }
}
