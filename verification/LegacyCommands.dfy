/** Commands of the legacy import: when they take effect, and how one of them can take a completion back. */
module LegacyCommands {
  import opened Common
  import opened LegacyModel
  import opened LegacyCompletion

  // One command after the other.

  /** What the sections of a command are told. */
  datatype Answers = Answers(
    guardAccepts: bool, claimed: bool, commitAccepts: bool, policySame: bool, recorded: bool, released: bool)

  /** The sections of one command, without any of a pass between them. */
  function Sections(command: Command, a: Answers): seq<Step> {
    [DoCommand(command)] + ([DoGuard(a.guardAccepts)] + ([DoClaim(a.claimed)] + ([DoCommit(a.commitAccepts, a.policySame)]
    + ([DoRecord(a.recorded)] + ([DoRecorded(a.recorded)] + [DoLetGo(a.released)])))))
  }

  /** The job that a command finds behind the lock. */
  function Found(s: State): Option<Job> {
    if s.owned then s.job else Loaded(s.saved)
  }

  /** The guards of a command, from its first check to the last before its assignment. */
  predicate Accepted(s: State, command: Command, a: Answers) {
    && a.guardAccepts && Admissible(s.job, command)
    && a.claimed
    && a.commitAccepts && Confirmed(Found(s), command, a.policySame)
  }

  function AfterClaim(s: State, command: Command, a: Answers): State {
    Claim(Guard(Begin(s, command), a.guardAccepts), a.claimed)
  }

  function AfterCommit(s: State, command: Command, a: Answers): State {
    Commit(AfterClaim(s, command, a), a.commitAccepts, a.policySame)
  }

  function AfterRecord(s: State, a: Answers): State {
    LetGo(Recorded(Record(s, a.recorded), a.recorded), a.released)
  }

  lemma RecordRuns(limits: Limits, s: State, a: Answers)
    ensures Run(limits, s, [DoRecord(a.recorded)] + ([DoRecorded(a.recorded)] + [DoLetGo(a.released)])) == AfterRecord(s, a)
  {
    var s1 := Record(s, a.recorded);
    FirstOf(limits, s, DoRecord(a.recorded), [DoRecorded(a.recorded)] + [DoLetGo(a.released)]);
    FirstOf(limits, s1, DoRecorded(a.recorded), [DoLetGo(a.released)]);
    RunOne(limits, Recorded(s1, a.recorded), DoLetGo(a.released));
  }

  lemma ClaimRuns(limits: Limits, s: State, command: Command, a: Answers, rest: seq<Step>)
    ensures Run(limits, s, [DoCommand(command)] + ([DoGuard(a.guardAccepts)] + ([DoClaim(a.claimed)] + rest)))
         == Run(limits, AfterClaim(s, command, a), rest)
  {
    var s1 := Begin(s, command);
    FirstOf(limits, s, DoCommand(command), [DoGuard(a.guardAccepts)] + ([DoClaim(a.claimed)] + rest));
    FirstOf(limits, s1, DoGuard(a.guardAccepts), [DoClaim(a.claimed)] + rest);
    FirstOf(limits, Guard(s1, a.guardAccepts), DoClaim(a.claimed), rest);
  }

  lemma SectionsRun(limits: Limits, s: State, command: Command, a: Answers)
    ensures Run(limits, s, Sections(command, a)) == AfterRecord(AfterCommit(s, command, a), a)
  {
    var ends := [DoRecord(a.recorded)] + ([DoRecorded(a.recorded)] + [DoLetGo(a.released)]);
    ClaimRuns(limits, s, command, a, [DoCommit(a.commitAccepts, a.policySame)] + ends);
    FirstOf(limits, AfterClaim(s, command, a), DoCommit(a.commitAccepts, a.policySame), ends);
    RecordRuns(limits, AfterCommit(s, command, a), a);
  }

  lemma FirstOf(limits: Limits, s: State, step: Step, rest: seq<Step>)
    ensures Run(limits, s, [step] + rest) == Run(limits, Next(limits, s, step), rest)
  {
    assert ([step] + rest)[1..] == rest;
  }

  lemma ClaimedJob(s: State, command: Command, a: Answers)
    requires s.pending == NoCommand && (command.action.Pause? || s.work.Idle?)
    ensures var next := AfterClaim(s, command, a);
            if a.guardAccepts && Admissible(s.job, command) && a.claimed
            then next.pending == Claimed(command) && next.job == Found(s)
            else next.pending == NoCommand && next.job == s.job
  {
  }

  lemma RecordingKeepsJob(s: State, a: Answers)
    ensures AfterRecord(s, a).job == s.job
  {
  }

  /** Whatever state the source is in: an undisturbed command takes effect exactly when it passes its guards, and then
      the job that it found behind the lock has its new state, the next revision, and the command to remember.
      Otherwise, as for every retry, the job stays, or is the stored one if the lock was taken for the command. */
  lemma CommandsAreCounted(limits: Limits, s: State, command: Command, a: Answers)
    requires s.pending == NoCommand && (command.action.Pause? || s.work.Idle?)
    ensures var next := Run(limits, s, Sections(command, a));
            && (Accepted(s, command, a) ==>
                  && next.job.Some?
                  && next.job.value.state == Target(command.action)
                  && Revision(next.job) == Revision(Found(s)) + 1 == command.expectedRevision + 1
                  && next.job.value.lastCommand == Some(command)
                  && (Found(s).Some? ==>
                        next.job.value.(state := Found(s).value.state, revision := Found(s).value.revision,
                                        lastCommand := Found(s).value.lastCommand, note := Found(s).value.note)
                        == Found(s).value))
            && (!Accepted(s, command, a) ==> next.job == s.job || next.job == Found(s))
            && (IsRetry(s.job, command) ==> next.job == s.job)
  {
    SectionsRun(limits, s, command, a);
    ClaimedJob(s, command, a);
    RecordingKeepsJob(AfterCommit(s, command, a), a);
  }

  /** What a command leaves that passed its guards while no checkpoint of a pass was being written: the job, stored if its
      checkpoint was, and the source, released after a cancellation. */
  lemma AcceptedExactly(limits: Limits, s: State, command: Command, a: Answers)
    requires s.pending == NoCommand && (command.action.Pause? || s.work.Idle?) && !s.work.Saving?
    requires Accepted(s, command, a)
    ensures var next, found := Run(limits, s, Sections(command, a)), Found(s);
            var was := if found.Some? then found.value else Job(Running, 0, 0, 0, 0, 0, NoNote, None);
            var cancelled := command.action.Cancel?;
            && next.job == Some(was.(state := if cancelled then Cancelled else if command.action.Pause? then Paused else Running,
                                     revision := was.revision + 1, lastCommand := Some(command),
                                     note := if cancelled || command.action.Pause? then was.note else NoNote))
            && next.saved == (if a.recorded then next.job else s.saved)
            && (next.owned <==> !(cancelled && a.recorded && a.released))
            && next.pending == NoCommand && next.disk == s.disk && next.work == s.work
  {
    hide Run, Sections;
    SectionsRun(limits, s, command, a);
  }

  /** The guards, said of the jobs in memory and behind the lock: the service accepts commands both times, the request is no
      retry, both jobs are of the revision that it names, and the job in memory is such as the action needs; starting and
      resuming must be confirmed, and the policy must be that of the job. */
  lemma GuardsExactly(s: State, command: Command, a: Answers)
    ensures var retry := s.job.Some? && s.job.value.lastCommand.Some?
                         && s.job.value.lastCommand.value.requestId == command.requestId;
            var revision := if s.job.Some? then s.job.value.revision else 0;
            var found := if s.owned then s.job else Loaded(s.saved);
            var foundRevision := if found.Some? then found.value.revision else 0;
            var halted := s.job.Some? && (s.job.value.state == Paused || s.job.value.state == Blocked
                                          || s.job.value.state == Cancelled);
            Accepted(s, command, a) <==>
              && a.guardAccepts && a.claimed && a.commitAccepts && !retry
              && revision == command.expectedRevision && foundRevision == command.expectedRevision
              && match command.action
                 case Start => command.confirmed && (s.job.None? || halted) && (found.None? || a.policySame)
                 case Resume => command.confirmed && halted && (found.None? || a.policySame)
                 case _ => s.job.Some? && s.job.value.state != Completed && found.Some?
  {
  }

  // Taking a completion back.

  /** A checkpoint that says "completed" is of the job as it is, or of an earlier revision. */
  predicate Earlier(text: Option<Job>, job: Option<Job>) {
    text.Some? ==>
      && job.Some? && text.value.revision <= job.value.revision
      && (IsCompleted(text) ==> IsCompleted(job) || text.value.revision < job.value.revision)
  }

  predicate Dated(s: State) {
    Earlier(s.saved, s.job) && Earlier(PassText(s.work), s.job) && Earlier(CommandText(s.pending), s.job)
  }

  predicate Cancelling(pending: Pending) {
    match pending
    case Committed(c) => c.action.Cancel?
    case Recording(c, _) => c.action.Cancel?
    case LettingGo => true
    case _ => false
  }

  /** A pass belongs to an owned source, all commands but a pause are alone, and so is a checkpoint. */
  predicate Separate(s: State) {
    && (!s.work.Idle? || IsRunning(s) ==> s.owned)
    && (s.work.Releasing? ==> !IsRunning(s))
    && (s.pending.Claimed? && !s.pending.command.action.Pause? ==> s.owned)
    && (s.pending.Guarded? || s.pending.Claimed? ==> s.pending.command.action.Pause? || s.work.Idle?)
    && (Cancelling(s.pending) ==> s.work.Idle? && s.job.Some? && s.job.value.state == Cancelled)
    && !(s.work.Saving? && s.pending.Recording?)
  }

  /** A completed job is at the end of its pass, and once the source is being released its checkpoint is stored. */
  predicate Concluded(s: State) {
    IsCompleted(s.job) ==>
      && (s.work.Idle? || s.work.Closing? || s.work.Saving? || s.work.Releasing?)
      && (s.work.Saving? ==> IsCompleted(PassText(s.work)))
      && (s.work.Releasing? || !s.owned ==>
            IsCompleted(s.saved) && (s.pending.Recording? ==> IsCompleted(CommandText(s.pending))))
  }

  /** Behind its guard a command other than a pause has no completed job of its own revision. */
  predicate Gated(s: State) {
    (s.pending.Guarded? || s.pending.Claimed?) && !s.pending.command.action.Pause? && IsCompleted(s.job) ==>
      s.pending.Claimed? && Revision(s.job) < s.pending.command.expectedRevision
  }

  predicate Expected(s: State) {
    s.pending.Guarded? && !s.pending.command.action.Pause? ==> Revision(s.job) == s.pending.command.expectedRevision
  }

  predicate Ordered(s: State) {
    Dated(s) && Separate(s) && Concluded(s) && Gated(s) && Expected(s)
  }

  lemma FaultOrdered(s: State)
    requires Ordered(s) && !s.work.Idle?
    ensures Ordered(Fault(s))
  {
  }

  lemma TickOrdered(s: State, valid: bool)
    requires Ordered(s)
    ensures Ordered(Tick(s, valid))
  {
  }

  /** What a section of a pass may change short of its end. */
  predicate Within(s: State, next: State) {
    && next.saved == s.saved && next.owned == s.owned && next.pending == s.pending
    && !s.work.Idle? && !s.work.Closing? && !s.work.Saving? && !s.work.Releasing?
    && !next.work.Saving? && !next.work.Releasing?
    && (s.job.None? ==> next.job.None?)
    && (s.job.Some? ==> next.job.Some? && next.job.value.revision == s.job.value.revision)
    && (IsCompleted(next.job) ==> next.work.Closing?)
    && (IsRunning(next) ==> IsRunning(s) || next.owned)
  }

  lemma WithinOrdered(s: State, next: State)
    requires Ordered(s) && Within(s, next)
    ensures Ordered(next)
  {
  }

  lemma VisitWithin(limits: Limits, s: State, name: string, fault: bool, moved: bool)
    requires Ordered(s) && s.work.Scanning?
    ensures Within(s, Visit(limits, s, name, fault, moved))
  {
  }

  lemma InspectWithin(s: State, name: string, fault: bool)
    requires Ordered(s) && s.work.Verifying?
    ensures Within(s, Inspect(s, name, fault))
  {
  }

  lemma SettleWithin(s: State, name: string, job: Job, result: WriteResult)
    requires Ordered(s) && s.work.Importing? && name in s.disk.dir && s.job == Some(job)
    ensures Within(s, Settle(s, name, job, result))
  {
  }

  lemma WriteOrdered(s: State, k: nat, result: WriteResult)
    requires Ordered(s)
    ensures Ordered(WriteFile(s, k, result))
  {
    if s.work.Importing? && k < |s.work.todo| && s.job.Some? {
      var t := Begun(s, k);
      WithinOrdered(s, t);
      if IsEvent(s.disk.dir, s.work.todo[k]) {
        SettleWithin(t, s.work.todo[k], s.job.value, result);
        WithinOrdered(t, Settle(t, s.work.todo[k], s.job.value, result));
      }
      WithinOrdered(t, Keep(t));
      WithinOrdered(t, Annotate(Keep(t), OtherNote));
    }
  }

  lemma ReadOrdered(limits: Limits, s: State, name: string, fault: bool, moved: bool)
    requires Ordered(s)
    ensures Ordered(ReadEntry(limits, s, name, fault, moved))
  {
    if s.work.Scanning? {
      VisitWithin(limits, s, name, fault, moved);
      WithinOrdered(s, Visit(limits, s, name, fault, moved));
    } else if s.work.Verifying? {
      InspectWithin(s, name, fault);
      WithinOrdered(s, Inspect(s, name, fault));
    }
  }

  lemma StopOrdered(limits: Limits, s: State, step: Step)
    requires Ordered(s)
    requires step.DoReadFails? || step.DoStop? || step.DoAbandon?
    ensures Ordered(Next(limits, s, step))
  {
    if Next(limits, s, step) != s {
      WithinOrdered(s, Next(limits, s, step));
    }
  }

  lemma EndOrdered(limits: Limits, s: State, step: Step)
    requires Ordered(s)
    requires step.DoEnd? || step.DoFinish? || step.DoReview?
    ensures Ordered(Next(limits, s, step))
  {
    if Next(limits, s, step) != s {
      WithinOrdered(s, Next(limits, s, step));
    }
  }

  lemma SnapshotOrdered(s: State, ok: bool)
    requires Ordered(s)
    ensures Ordered(Snapshot(s, ok))
  {
    if s.work.Closing? {
      FaultOrdered(s);
    }
  }

  lemma StoredOrdered(s: State, ok: bool)
    requires Ordered(s)
    ensures Ordered(Stored(s, ok))
  {
    if s.work.Saving? {
      FaultOrdered(s);
    }
  }

  lemma ReleasedOrdered(s: State, ok: bool)
    requires Ordered(s)
    ensures Ordered(Released(s, ok))
  {
    if s.work.Releasing? {
      FaultOrdered(s);
    }
  }

  lemma BeginOrdered(s: State, command: Command)
    requires Ordered(s)
    ensures Ordered(Begin(s, command))
  {
  }

  lemma GuardOrdered(s: State, accepting: bool)
    requires Ordered(s)
    ensures Ordered(Guard(s, accepting))
  {
  }

  lemma ClaimOrdered(s: State, ok: bool)
    requires Ordered(s)
    ensures Ordered(Claim(s, ok))
  {
  }

  lemma CommitOrdered(s: State, accepting: bool, policySame: bool)
    requires Ordered(s)
    ensures Ordered(Commit(s, accepting, policySame))
  {
  }

  lemma RecordOrdered(s: State, ok: bool)
    requires Ordered(s)
    ensures Ordered(Record(s, ok)) && Ordered(Recorded(s, ok)) && Ordered(LetGo(s, ok))
  {
  }

  lemma RestartOrdered(s: State, graceful: bool)
    ensures Ordered(Restart(s, graceful))
  {
  }

  lemma NextOrdered(limits: Limits, s: State, step: Step)
    requires Ordered(s)
    ensures Ordered(Next(limits, s, step))
  {
    match step
    case DoTick(valid) => TickOrdered(s, valid);
    case DoRead(name, fault, moved) => ReadOrdered(limits, s, name, fault, moved);
    case DoWrite(at, result) => WriteOrdered(s, at, result);
    case DoSnapshot(ok) => SnapshotOrdered(s, ok);
    case DoStored(ok) => StoredOrdered(s, ok);
    case DoReleased(ok) => ReleasedOrdered(s, ok);
    case DoCommand(command) => BeginOrdered(s, command);
    case DoGuard(accepting) => GuardOrdered(s, accepting);
    case DoClaim(ok) => ClaimOrdered(s, ok);
    case DoCommit(accepts, policySame) => CommitOrdered(s, accepts, policySame);
    case DoRecord(ok) => RecordOrdered(s, ok);
    case DoRecorded(ok) => RecordOrdered(s, ok);
    case DoLetGo(ok) => RecordOrdered(s, ok);
    case DoRestart(graceful) => RestartOrdered(s, graceful);
    case DoEnd => EndOrdered(limits, s, step);
    case DoFinish => EndOrdered(limits, s, step);
    case DoReview(_) => EndOrdered(limits, s, step);
    case _ => StopOrdered(limits, s, step);
  }

  lemma {:induction false} RunOrdered(limits: Limits, s: State, steps: seq<Step>)
    requires Ordered(s)
    ensures Ordered(Run(limits, s, steps))
    decreases |steps|
  {
    if steps != [] {
      NextOrdered(limits, s, steps[0]);
      RunOrdered(limits, Next(limits, s, steps[0]), steps[1..]);
    }
  }

  /** The two steps that take a completion back: the later sections of a pause that had passed its guard before, and a
      restart from a checkpoint that does not have it. */
  predicate TakesBack(s: State, step: Step) {
    match step
    case DoCommit(accepts, _) =>
      s.pending.Claimed? && s.pending.command.action.Pause? && accepts
      && Revision(s.job) == s.pending.command.expectedRevision
    case DoRestart(graceful) =>
      !IsCompleted(s.saved) && !(graceful && s.owned && s.work.Idle? && s.pending == NoCommand)
    case _ => false
  }

  lemma OtherStepsKeep(limits: Limits, s: State, step: Step)
    requires Ordered(s) && IsCompleted(s.job) && !step.DoCommit? && !step.DoRestart?
    ensures IsCompleted(Next(limits, s, step).job)
  {
  }

  /** In every reachable state: a completion is lost in a step if and only if the step is one of those two. */
  lemma CompletionIsLost(limits: Limits, initial: Directory, stray: nat, steps: seq<Step>, step: Step)
    requires IsCompleted(Run(limits, Initial(initial, stray), steps).job)
    ensures var s := Run(limits, Initial(initial, stray), steps);
            !IsCompleted(Next(limits, s, step).job) <==> TakesBack(s, step)
  {
    RunOrdered(limits, Initial(initial, stray), steps);
    var s := Run(limits, Initial(initial, stray), steps);
    if !step.DoCommit? && !step.DoRestart? {
      OtherStepsKeep(limits, s, step);
    }
  }

  /** Unless a command had passed its guard before, or the process ends, a completed job stays as it is: the guard lets
      none through. */
  lemma {:induction false} CompletedStays(limits: Limits, s: State, steps: seq<Step>)
    requires Ordered(s) && IsCompleted(s.job) && !s.pending.Guarded? && !s.pending.Claimed?
    requires forall i :: 0 <= i < |steps| ==> !steps[i].DoRestart?
    ensures Run(limits, s, steps).job == s.job
    decreases |steps|
  {
    if steps != [] {
      QuietStep(limits, s, steps[0]);
      NextOrdered(limits, s, steps[0]);
      CompletedStays(limits, Next(limits, s, steps[0]), steps[1..]);
    }
  }

  lemma QuietStep(limits: Limits, s: State, step: Step)
    requires Ordered(s) && IsCompleted(s.job) && !s.pending.Guarded? && !s.pending.Claimed? && !step.DoRestart?
    ensures var next := Next(limits, s, step); next.job == s.job && !next.pending.Guarded? && !next.pending.Claimed?
  {
  }

  // A run in which a pause overtakes the completion.

  const START: Command := Command("a", Start, 0, true)
  const PAUSE: Command := Command("b", Pause, 1, true)

  const STARTED: Job := Job(Running, 1, 0, 0, 0, 0, NoNote, Some(START))
  const FINISHED: Job := Job(Completed, 1, 0, 0, 0, 0, NoNote, Some(START))
  const OVERTAKEN: Job := Job(Paused, 2, 0, 0, 0, 0, NoNote, Some(PAUSE))

  const ALL_WELL: Answers := Answers(true, true, true, true, true, true)

  /** One pass over an empty source, a pause whose first sections fall before the review of quarantine and whose later
      ones fall behind it. The completed job is stored in between. */
  function Overtaking(): seq<Step> {
    Sections(START, ALL_WELL)
    + ([DoTick(true), DoEnd, DoFinish, DoEnd]
       + ([DoCommand(PAUSE), DoGuard(true), DoClaim(true)]
          + ([DoReview(true), DoSnapshot(true), DoStored(true)] + [DoCommit(true, true)])))
  }

  function At(job: Job, saved: Job, work: Work, verifying: bool, pending: Pending): State {
    State(Disk(map[], map[], 0, map[]), Some(saved), Some(job), true, None, None, 0, verifying, 0, work, pending)
  }

  lemma RunThree(limits: Limits, s: State, a: Step, b: Step, c: Step)
    ensures Run(limits, s, [a, b, c]) == Next(limits, Next(limits, Next(limits, s, a), b), c)
  {
    assert [a, b, c][1..] == [b, c] && [b, c][1..] == [c];
    RunOne(limits, Next(limits, Next(limits, s, a), b), c);
  }

  lemma PassOverNothing(limits: Limits)
    ensures Run(limits, At(STARTED, STARTED, Idle, false, NoCommand), [DoTick(true), DoEnd, DoFinish, DoEnd])
         == At(STARTED, STARTED, Reviewing, false, NoCommand)
  {
    var s := At(STARTED, STARTED, Idle, false, NoCommand);
    var rest := [DoTick(true), DoEnd, DoFinish, DoEnd];
    assert rest == [DoTick(true)] + [DoEnd, DoFinish, DoEnd];
    FirstOf(limits, s, DoTick(true), [DoEnd, DoFinish, DoEnd]);
    RunThree(limits, Tick(s, true), DoEnd, DoFinish, DoEnd);
  }

  lemma StartAssigned(dir: Directory)
    ensures AfterCommit(Initial(dir, 0), START, ALL_WELL)
         == Initial(dir, 0).(pending := Committed(START), owned := true, job := Some(STARTED))
  {
  }

  /** The first command over a source without a job. */
  lemma StartOver(limits: Limits, dir: Directory)
    ensures Run(limits, Initial(dir, 0), Sections(START, ALL_WELL))
         == Initial(dir, 0).(owned := true, job := Some(STARTED), saved := Some(STARTED))
  {
    SectionsRun(limits, Initial(dir, 0), START, ALL_WELL);
    StartAssigned(dir);
  }

  lemma PauseClaims(limits: Limits)
    ensures Run(limits, At(STARTED, STARTED, Reviewing, false, NoCommand),
                [DoCommand(PAUSE), DoGuard(true), DoClaim(true)])
         == At(STARTED, STARTED, Reviewing, false, Claimed(PAUSE))
  {
    RunThree(limits, At(STARTED, STARTED, Reviewing, false, NoCommand), DoCommand(PAUSE), DoGuard(true), DoClaim(true));
  }

  lemma PassCompletes(limits: Limits)
    ensures Run(limits, At(STARTED, STARTED, Reviewing, false, Claimed(PAUSE)),
                [DoReview(true), DoSnapshot(true), DoStored(true)])
         == At(FINISHED, FINISHED, Releasing, false, Claimed(PAUSE))
  {
    RunThree(limits, At(STARTED, STARTED, Reviewing, false, Claimed(PAUSE)), DoReview(true), DoSnapshot(true),
             DoStored(true));
  }

  lemma PauseCommits(limits: Limits)
    ensures Run(limits, At(FINISHED, FINISHED, Releasing, false, Claimed(PAUSE)), [DoCommit(true, true)])
         == At(OVERTAKEN, FINISHED, Releasing, false, Committed(PAUSE))
  {
    RunOne(limits, At(FINISHED, FINISHED, Releasing, false, Claimed(PAUSE)), DoCommit(true, true));
  }

  lemma Chain(limits: Limits, s: State, a: seq<Step>, mid: State, b: seq<Step>, end: State)
    requires Run(limits, s, a) == mid && Run(limits, mid, b) == end
    ensures Run(limits, s, a + b) == end
  {
    RunRun(limits, s, a, b);
  }

  /** In that run the job was completed and stored as completed, and is paused in the end. */
  lemma PauseOvertakesCompletion(limits: Limits)
    ensures Run(limits, Initial(map[], 0), Overtaking()) == At(OVERTAKEN, FINISHED, Releasing, false, Committed(PAUSE))
  {
    var started, reviewing := At(STARTED, STARTED, Idle, false, NoCommand), At(STARTED, STARTED, Reviewing, false, NoCommand);
    var claimed := At(STARTED, STARTED, Reviewing, false, Claimed(PAUSE));
    var finished := At(FINISHED, FINISHED, Releasing, false, Claimed(PAUSE));
    var paused := At(OVERTAKEN, FINISHED, Releasing, false, Committed(PAUSE));
    var commit := [DoCommit(true, true)];
    var late := [DoReview(true), DoSnapshot(true), DoStored(true)] + commit;
    var pause := [DoCommand(PAUSE), DoGuard(true), DoClaim(true)] + late;
    PauseCommits(limits);
    PassCompletes(limits);
    Chain(limits, claimed, [DoReview(true), DoSnapshot(true), DoStored(true)], finished, commit, paused);
    PauseClaims(limits);
    Chain(limits, reviewing, [DoCommand(PAUSE), DoGuard(true), DoClaim(true)], claimed, late, paused);
    PassOverNothing(limits);
    Chain(limits, started, [DoTick(true), DoEnd, DoFinish, DoEnd], reviewing, pause, paused);
    StartOver(limits, map[]);
    Chain(limits, Initial(map[], 0), Sections(START, ALL_WELL), started,
          [DoTick(true), DoEnd, DoFinish, DoEnd] + pause, paused);
  }
}
