/** What an import does with each entry that it meets and with each answer of the writer. */
module LegacyVisits {
  import opened Common
  import opened LegacyModel
  import opened LegacyCompletion

  // Selected files.

  /** An event file of the source, small enough. */
  predicate Admissible(limits: Limits, initial: Directory, name: string) {
    name in initial && initial[name].File? && initial[name].event && initial[name].size <= limits.maxFileBytes
  }

  ghost predicate HoldsEvents(limits: Limits, initial: Directory, work: Work) {
    match work
    case Scanning(selected, _) => forall k :: 0 <= k < |selected| ==> Admissible(limits, initial, selected[k])
    case Importing(todo, _) => forall k :: 0 <= k < |todo| ==> Admissible(limits, initial, todo[k])
    case _ => true
  }

  lemma VisitHoldsEvents(limits: Limits, initial: Directory, s: State, name: string, fault: bool, moved: bool)
    requires s.work.Scanning? && HoldsEvents(limits, initial, s.work) && Partition(initial, s.disk)
    ensures HoldsEvents(limits, initial, Visit(limits, s, name, fault, moved).work)
  {
  }

  lemma WriteHoldsEvents(limits: Limits, initial: Directory, s: State, k: nat, result: WriteResult)
    requires HoldsEvents(limits, initial, s.work)
    ensures HoldsEvents(limits, initial, WriteFile(s, k, result).work)
  {
    if s.work.Importing? && k < |s.work.todo| && s.job.Some? {
      var rest := Without(s.work.todo, k);
      assert forall j :: 0 <= j < |rest| ==> rest[j] == s.work.todo[if j < k then j else j + 1];
      if IsEvent(s.disk.dir, s.work.todo[k]) {
        SettledWork(Begun(s, k), s.work.todo[k], s.job.value, result);
      }
    }
  }

  lemma SettledWork(s: State, name: string, job: Job, result: WriteResult)
    requires name in s.disk.dir && s.job == Some(job)
    ensures Settle(s, name, job, result).work == s.work
  {
  }

  lemma PassHoldsEvents(limits: Limits, initial: Directory, s: State, step: Step)
    requires HoldsEvents(limits, initial, s.work) && !step.DoRead? && !step.DoWrite?
    requires step.DoTick? || step.DoReadFails? || step.DoStop? || step.DoEnd? || step.DoAbandon? || step.DoFinish?
             || step.DoReview?
    ensures HoldsEvents(limits, initial, Next(limits, s, step).work)
  {
  }

  lemma RestHoldsEvents(limits: Limits, initial: Directory, s: State, step: Step)
    requires HoldsEvents(limits, initial, s.work)
    requires step.DoSnapshot? || step.DoStored? || step.DoReleased? || step.DoRestart? || step.DoCommand?
             || step.DoGuard? || step.DoClaim? || step.DoCommit? || step.DoRecord? || step.DoRecorded? || step.DoLetGo?
    ensures HoldsEvents(limits, initial, Next(limits, s, step).work)
  {
  }

  lemma NextHoldsEvents(limits: Limits, initial: Directory, s: State, step: Step)
    requires HoldsEvents(limits, initial, s.work) && Partition(initial, s.disk)
    ensures HoldsEvents(limits, initial, Next(limits, s, step).work)
  {
    match step
    case DoRead(name, fault, moved) =>
      if s.work.Scanning? {
        VisitHoldsEvents(limits, initial, s, name, fault, moved);
      }
    case DoWrite(at, result) => WriteHoldsEvents(limits, initial, s, at, result);
    case _ =>
      if step.DoTick? || step.DoReadFails? || step.DoStop? || step.DoEnd? || step.DoAbandon? || step.DoFinish?
         || step.DoReview? {
        PassHoldsEvents(limits, initial, s, step);
      } else {
        RestHoldsEvents(limits, initial, s, step);
      }
  }

  lemma {:induction false} RunHoldsEvents(limits: Limits, initial: Directory, s: State, steps: seq<Step>)
    requires Sound(initial, s) && HoldsEvents(limits, initial, s.work)
    ensures HoldsEvents(limits, initial, Run(limits, s, steps).work)
    decreases |steps|
  {
    if steps != [] {
      NextHoldsEvents(limits, initial, s, steps[0]);
      NextSound(limits, initial, s, steps[0]);
      RunHoldsEvents(limits, initial, Next(limits, s, steps[0]), steps[1..]);
    }
  }

  /** In every run a pass selects and imports nothing but event files of the source of at most maxFileBytes. */
  lemma OnlyEventsAreImported(limits: Limits, initial: Directory, stray: nat, steps: seq<Step>)
    ensures HoldsEvents(limits, initial, Run(limits, Initial(initial, stray), steps).work)
  {
    RunHoldsEvents(limits, initial, Initial(initial, stray), steps);
  }

  // Visits.

  /** The sweep meets an entry that it has not met before, and can read it. */
  predicate Meets(s: State, name: string) {
    s.work.Scanning? && name in Opened(s.disk, s.replay).unseen && name in s.disk.dir
  }

  /** The sweep goes on behind the entry. */
  predicate GoesOn(s: State, next: State, name: string) {
    && next.work == s.work
    && next.replay.Some? && next.replay.value.unseen == Opened(s.disk, s.replay).unseen - {name}
  }

  /** The files have changed behind open traversals, which may miss entries from now on. */
  predicate Disturbed(was: Option<Cursor>, cursor: Option<Cursor>) {
    (was.None? ==> cursor.None?) && (was.Some? ==> cursor == Some(was.value.(disturbed := true)))
  }

  /** A plain file that is no event or too large goes into quarantine, unchanged, and is counted, and the sweep goes on;
      if it cannot be moved it stays, and the pass is over. */
  lemma RefusedFileExactly(limits: Limits, s: State, name: string, moved: bool)
    requires Meets(s, name) && s.job.Some? && s.disk.dir[name].File?
    requires !s.disk.dir[name].event || s.disk.dir[name].size > limits.maxFileBytes
    ensures var next, job := Next(limits, s, DoRead(name, false, moved)), s.job.value;
            && (moved ==>
                  && next.disk.dir == s.disk.dir - {name}
                  && next.disk.quarantine == s.disk.quarantine[name := s.disk.dir[name]]
                  && next.disk.acknowledged == s.disk.acknowledged
                  && next.job == Some(job.(quarantined := job.quarantined + 1))
                  && GoesOn(s, next, name) && next.replay.value.disturbed
                  && Disturbed(s.verification, next.verification) && next.disk.stray == s.disk.stray + 1)
            && (!moved ==>
                  && next.disk.dir == s.disk.dir && next.disk.quarantine == s.disk.quarantine
                  && next.disk.acknowledged == s.disk.acknowledged && next.disk.stray == s.disk.stray + 1
                  && !next.work.Scanning? && !next.work.Importing? && next.replay == None
                  && next.job == Some(if job.state == Running then job.(state := Blocked, note := OtherNote) else job))
  {
  }

  /** An event file that is small enough is selected; with it the pass goes on exactly while there is room for one more
      file of any size, in number and in bytes. */
  lemma EventFileExactly(limits: Limits, s: State, name: string, moved: bool)
    requires Meets(s, name) && IsEvent(s.disk.dir, name) && s.disk.dir[name].size <= limits.maxFileBytes
    ensures var next, selected := Next(limits, s, DoRead(name, false, moved)), s.work.selected + [name];
            var bytes := s.work.bytes + s.disk.dir[name].size;
            && next.disk == s.disk && next.job == s.job
            && next.work == (if |selected| < limits.batchSize && bytes + limits.maxFileBytes <= limits.maxBatchBytes
                             then Scanning(selected, bytes) else Importing(selected, false))
            && next.replay.Some? && next.replay.value.unseen == Opened(s.disk, s.replay).unseen - {name}
  {
  }

  /** Its own directory and the empty one of the old archiver are passed over; any other entry that is no plain file
      stays, is noted, and makes the sweep unclean. */
  lemma OtherEntryExactly(limits: Limits, s: State, name: string, moved: bool)
    requires Meets(s, name) && s.job.Some? && !s.disk.dir[name].File?
    ensures var next := Next(limits, s, DoRead(name, false, moved));
            && next.disk == s.disk && GoesOn(s, next, name)
            && (s.disk.dir[name].Irregular? ==>
                  next.sweepRemaining == s.sweepRemaining + 1 && next.job == Some(s.job.value.(note := NonRegular)))
            && (!s.disk.dir[name].Irregular? ==> next.sweepRemaining == s.sweepRemaining && next.job == s.job)
  {
  }

  /** An entry that the verification meets is counted unless it is one of those two directories, and is left alone. */
  lemma VerifiedEntryExactly(limits: Limits, s: State, name: string, moved: bool)
    requires s.work.Verifying? && name in Opened(s.disk, s.verification).unseen
    ensures var next := Next(limits, s, DoRead(name, false, moved));
            && next.disk == s.disk && next.work == s.work && next.job == s.job
            && next.verificationRemaining
               == s.verificationRemaining
                  + (if name in s.disk.dir && (s.disk.dir[name].StateDirectory? || s.disk.dir[name].EmptyFailed?) then 0 else 1)
            && next.verification.Some?
            && next.verification.value.unseen == Opened(s.disk, s.verification).unseen - {name}
  {
  }

  /** An entry that cannot be read ends the pass, closes its traversal, and blocks a running job. */
  lemma FaultExactly(limits: Limits, s: State, name: string, moved: bool)
    requires (s.work.Scanning? && name in Opened(s.disk, s.replay).unseen)
          || (s.work.Verifying? && name in Opened(s.disk, s.verification).unseen)
    ensures var next := Next(limits, s, DoRead(name, true, moved));
            && next.disk == s.disk && !next.work.Scanning? && !next.work.Verifying?
            && (s.work.Scanning? ==> next.replay == None) && (s.work.Verifying? ==> next.verification == None)
            && (IsRunning(s) ==> next.job == Some(s.job.value.(state := Blocked, note := OtherNote)))
            && (!IsRunning(s) ==> next.job == s.job)
  {
  }

  // Answers.

  /** A selected file whose writer has an answer. */
  predicate Asked(s: State, k: nat) {
    s.work.Importing? && k < |s.work.todo| && s.job.Some? && IsEvent(s.disk.dir, s.work.todo[k])
  }

  /** The file stays where it is, and the sweep is not clean. */
  predicate LeftBehind(s: State, next: State) {
    && next.disk.dir == s.disk.dir && next.disk.quarantine == s.disk.quarantine
    && next.disk.acknowledged == s.disk.acknowledged && next.sweepRemaining == s.sweepRemaining + 1
  }

  /** A file that was written, or had been before, leaves the source as answered and is counted, each in its own way. */
  lemma AnsweredExactly(limits: Limits, s: State, k: nat, duplicate: bool)
    requires Asked(s, k)
    ensures var next, job := Next(limits, s, DoWrite(k, if duplicate then Duplicate else Written)), s.job.value;
            var name := s.work.todo[k];
            && next.disk.dir == s.disk.dir - {name}
            && next.disk.acknowledged == s.disk.acknowledged[name := s.disk.dir[name]]
            && next.disk.quarantine == s.disk.quarantine && next.sweepRemaining == s.sweepRemaining
            && next.disk.stray == s.disk.stray
            && Disturbed(s.replay, next.replay) && Disturbed(s.verification, next.verification)
            && next.job == Some(if duplicate then job.(duplicate := job.duplicate + 1) else job.(written := job.written + 1))
  {
  }

  /** A file that the writer refuses goes into quarantine and is counted, or stays if it cannot be moved. */
  lemma QuarantinedExactly(limits: Limits, s: State, k: nat, moved: bool)
    requires Asked(s, k)
    ensures var next, job := Next(limits, s, DoWrite(k, Quarantined(moved))), s.job.value;
            var name := s.work.todo[k];
            && (moved ==>
                  && next.disk.dir == s.disk.dir - {name}
                  && next.disk.quarantine == s.disk.quarantine[name := s.disk.dir[name]]
                  && next.disk.acknowledged == s.disk.acknowledged && next.sweepRemaining == s.sweepRemaining
                  && next.disk.stray == s.disk.stray + 1
                  && Disturbed(s.replay, next.replay) && Disturbed(s.verification, next.verification)
                  && next.job == Some(job.(quarantined := job.quarantined + 1)))
            && (!moved ==> LeftBehind(s, next) && next.disk.stray == s.disk.stray + 1
                           && next.job == Some(job.(note := OtherNote)))
  {
  }

  /** A file that is put off, was not tried, or failed stays; one that vanished although acknowledging it failed does not,
      but the sweep is unclean all the same. */
  lemma UnansweredExactly(limits: Limits, s: State, k: nat, result: WriteResult)
    requires Asked(s, k) && (result.Deferred? || result.Skipped? || result.Failed? || result.Unacknowledged?)
    ensures var next, job := Next(limits, s, DoWrite(k, result)), s.job.value;
            && (!result.Unacknowledged? ==> LeftBehind(s, next))
            && (result.Unacknowledged? ==>
                  next.disk.dir == s.disk.dir - {s.work.todo[k]} && next.sweepRemaining == s.sweepRemaining + 1)
            && (result.Deferred? ==> next.job == Some(job.(deferred := job.deferred + 1, note := OtherNote)))
            && (result.Skipped? ==> next.job == Some(job))
            && (result.Failed? || result.Unacknowledged? ==> next.job == Some(job.(note := OtherNote)))
  {
  }

  // The end of a sweep and of a verification.

  /** A sweep that has read everything, left nothing and was not disturbed by a command is verified; one that left
      something is not, and blocks the job if it met an entry that is no plain file. */
  lemma SweepEndsExactly(limits: Limits, s: State)
    requires s.work.Importing? && s.work.todo == []
    ensures var next := Next(limits, s, DoFinish);
            var whole := s.work.scanned && s.job.Some? && s.job.value.state == Running && s.pending == NoCommand;
            && (next.work.Verifying? <==> whole && s.sweepRemaining == 0)
            && (!next.work.Verifying? ==> next.work.Closing?)
            && (whole && s.sweepRemaining > 0 ==> next.sweepRemaining == 0)
            && (whole && s.sweepRemaining > 0 && s.job.value.note == NonRegular ==>
                  next.job == Some(s.job.value.(state := Blocked)))
            && (!(whole && s.sweepRemaining > 0 && s.job.value.note == NonRegular) ==> next.job == s.job)
            && next.disk == s.disk
  {
  }

  /** A verification that met no obstacle is reviewed: the job is completed exactly if quarantine is empty and the job has
      moved nothing there, and is blocked otherwise. */
  lemma ReviewExactly(limits: Limits, s: State)
    requires s.work.Reviewing? && s.job.Some?
    ensures var next, job := Next(limits, s, DoReview(true)), s.job.value;
            var empty := (forall n :: n !in s.disk.quarantine) && s.disk.stray == 0 && job.quarantined == 0;
            && next.job == Some(if empty then job.(state := Completed, note := NoNote)
                                else job.(state := Blocked, note := OtherNote))
            && next.work.Closing? && next.disk == s.disk && next.verificationRemaining == 0
  {
    if s.disk.quarantine != map[] {
      var n :| n in s.disk.quarantine;
    }
  }

  /** The traversal of a verification that ends is reviewed exactly if it counted nothing; else a new sweep will follow. */
  lemma VerificationEndsExactly(limits: Limits, s: State)
    requires s.work.Verifying? && MayEnd(s.disk, s.verification)
    ensures var next := Next(limits, s, DoEnd);
            && (next.work.Reviewing? <==> s.verificationRemaining == 0)
            && (s.verificationRemaining > 0 ==> next.work.Closing? && next.replay == None && next.verificationRemaining == 0)
            && !next.verifying && next.verification == None && next.disk == s.disk && next.job == s.job
  {
  }

  // Passes and checkpoints.

  /** A pass begins exactly when none runs, no command is under way and the job runs: it verifies if a sweep was clean,
      else it sweeps; a source that is no longer valid blocks the job. */
  lemma PassBeginsExactly(limits: Limits, s: State, valid: bool)
    ensures var next := Next(limits, s, DoTick(valid));
            var due := s.work.Idle? && s.pending == NoCommand && s.job.Some? && s.job.value.state == Running;
            && (!due ==> next == s)
            && (due && valid ==> next == s.(work := if s.verifying then Verifying else Scanning([], 0)))
            && (due && !valid ==> next == s.(work := Closing, job := Some(s.job.value.(state := Blocked, note := OtherNote))))
  {
  }

  /** The checkpoint at the end of a pass: what is stored is the job as it was when its text was written, and a job that
      is completed by then has its source released; a checkpoint that fails blocks a running job. */
  lemma CheckpointExactly(limits: Limits, s: State, ok: bool)
    ensures s.work.Closing? && !s.pending.Recording? ==>
              Next(limits, s, DoSnapshot(ok))
              == if ok && s.owned && s.job.Some? then s.(work := Saving(s.job.value)) else Fault(s)
    ensures s.work.Saving? ==>
              Next(limits, s, DoStored(ok))
              == if ok then s.(saved := Some(s.work.snapshot),
                               work := if s.job.Some? && s.job.value.state == Completed then Releasing else Idle)
                 else Fault(s)
    ensures s.work.Releasing? ==>
              Next(limits, s, DoReleased(ok)) == if ok then s.(owned := false, work := Idle) else Fault(s)
  {
  }

  /** A restart keeps the files and the stored job, or the present one after an orderly stop; a running one comes back
      paused, and nothing is under way. */
  lemma RestartExactly(limits: Limits, s: State, graceful: bool)
    ensures var next := Next(limits, s, DoRestart(graceful));
            var kept := if graceful && s.owned && s.work.Idle? && s.pending == NoCommand then s.job else s.saved;
            && next.disk == s.disk && !next.owned && next.work == Idle && next.pending == NoCommand
            && next.replay == None && next.verification == None && !next.verifying
            && (kept.None? <==> next.job.None?)
            && (kept.Some? ==> next.job.value == if kept.value.state == Running
                                                 then kept.value.(state := Paused, note := OtherNote) else kept.value)
  {
  }
}
