/** The legacy import of one source directory as a state machine: one step per code section that runs without yielding.
    Nobody else adds files. What the file system, the owner check, the policy and the writer answer is a parameter of
    the step. A command is as many steps as it has sections, and steps of a running pass may fall between them. */
module LegacyModel {
  import opened Common

  datatype Limits = Limits(batchSize: nat, maxFileBytes: nat, maxBatchBytes: nat, concurrency: nat)

  predicate ValidLimits(limits: Limits) {
    limits.batchSize >= 1 && limits.maxBatchBytes >= limits.maxFileBytes >= 1 && limits.concurrency >= 1
  }

  /** An entry of the source: the importer's own directory, the empty directory that the old archiver leaves, a plain
      file with one link, or anything else. */
  datatype Entry = StateDirectory | EmptyFailed | Irregular | File(event: bool, size: nat)

  type Directory = map<string, Entry>

  predicate Harmless(e: Entry) {
    e.StateDirectory? || e.EmptyFailed?
  }

  /** An open traversal. It hands out every name that it has not handed out yet and that is still there; once files
      have been removed behind it, it may also end early. */
  datatype Cursor = Cursor(unseen: set<string>, disturbed: bool)

  datatype JobState = Running | Paused | Completed | Blocked | Cancelled

  datatype Note = NoNote | NonRegular | OtherNote

  datatype Action = Start | Resume | Pause | Cancel

  datatype Command = Command(requestId: string, action: Action, expectedRevision: nat, confirmed: bool)

  datatype Job = Job(
    state: JobState, revision: nat, written: nat, duplicate: nat, quarantined: nat, deferred: nat, note: Note,
    lastCommand: Option<Command>)

  /** The section that the running pass is in, up to the checkpoint at its end and the release of a completed source.
      A checkpoint carries the job as it was when its text was written. */
  datatype Work =
    | Idle
    | Scanning(selected: seq<string>, bytes: nat)
    | Importing(todo: seq<string>, scanned: bool)
    | Verifying
    | Reviewing
    | Closing
    | Saving(snapshot: Job)
    | Releasing

  /** The section that the one command is in. While there is one, no pass begins. */
  datatype Pending =
    | NoCommand
    | Waiting(command: Command)
    | Guarded(command: Command)
    | Claimed(command: Command)
    | Committed(command: Command)
    | Recording(command: Command, text: Job)
    | LettingGo

  /** The files. `stray` counts what lies in quarantine besides those that were moved there. */
  datatype Disk = Disk(dir: Directory, quarantine: Directory, stray: nat, acknowledged: Directory)

  datatype State = State(
    disk: Disk, saved: Option<Job>, job: Option<Job>, owned: bool, replay: Option<Cursor>, verification: Option<Cursor>,
    sweepRemaining: nat, verifying: bool, verificationRemaining: nat, work: Work, pending: Pending)

  /** How the import of one file ends. Unacknowledged is a file that is gone although acknowledging it failed. */
  datatype WriteResult =
    | Skipped | Failed | Written | Duplicate | Unacknowledged | Quarantined(moved: bool) | Deferred

  datatype Step =
    | DoTick(valid: bool)
    | DoRead(name: string, fault: bool, moved: bool)
    | DoReadFails
    | DoStop
    | DoEnd
    | DoWrite(at: nat, result: WriteResult)
    | DoAbandon
    | DoFinish
    | DoReview(readable: bool)
    | DoSnapshot(ok: bool)
    | DoStored(ok: bool)
    | DoReleased(ok: bool)
    | DoCommand(command: Command)
    | DoGuard(accepting: bool)
    | DoClaim(ok: bool)
    | DoCommit(accepts: bool, policySame: bool)
    | DoRecord(ok: bool)
    | DoRecorded(ok: bool)
    | DoLetGo(ok: bool)
    | DoRestart(graceful: bool)

  // Jobs.

  /** A stored job as a new process takes it over. */
  function Loaded(saved: Option<Job>): Option<Job> {
    match saved
    case Some(job) => Some(if job.state == Running then job.(state := Paused, note := OtherNote) else job)
    case None => None
  }

  predicate IsRunning(s: State) {
    s.job.Some? && s.job.value.state == Running
  }

  /** An error of a pass: a running job is blocked, which is checkpointed, and the pass is over. */
  function Fault(s: State): State {
    if IsRunning(s)
    then s.(work := Closing, job := Some(s.job.value.(state := Blocked, note := OtherNote)))
    else s.(work := Idle)
  }

  function Annotate(s: State, note: Note): State {
    s.(job := if s.job.Some? then Some(s.job.value.(note := note)) else None)
  }

  // The directory.

  function Opened(disk: Disk, cursor: Option<Cursor>): Cursor {
    if cursor.Some? then cursor.value else Cursor(disk.dir.Keys, false)
  }

  function Disturb(cursor: Option<Cursor>): Option<Cursor> {
    match cursor
    case Some(c) => Some(c.(disturbed := true))
    case None => None
  }

  /** The cursor behind an entry that it hands out. */
  function Pass(disk: Disk, cursor: Option<Cursor>, name: string): Cursor {
    var c := Opened(disk, cursor);
    c.(unseen := c.unseen - {name})
  }

  /** The traversal may end: everything that is left was handed out, or files were removed behind it. */
  predicate MayEnd(disk: Disk, cursor: Option<Cursor>) {
    var c := Opened(disk, cursor);
    c.disturbed || c.unseen !! disk.dir.Keys
  }

  /** The files change, and open traversals may miss entries from now on. */
  function Change(s: State, disk: Disk): State {
    s.(disk := disk, replay := Disturb(s.replay), verification := Disturb(s.verification))
  }

  function Answered(disk: Disk, name: string): Disk
    requires name in disk.dir
  {
    disk.(dir := disk.dir - {name}, acknowledged := disk.acknowledged[name := disk.dir[name]])
  }

  function Moved(disk: Disk, name: string): Disk
    requires name in disk.dir
  {
    disk.(dir := disk.dir - {name}, quarantine := disk.quarantine[name := disk.dir[name]], stray := disk.stray + 1)
  }

  /** The note is in quarantine and the file is not. */
  function Noted(disk: Disk): Disk {
    disk.(stray := disk.stray + 1)
  }

  function CountQuarantined(s: State): State {
    s.(job := if s.job.Some? then Some(s.job.value.(quarantined := s.job.value.quarantined + 1)) else None)
  }

  // A pass.

  function Tick(s: State, valid: bool): State {
    if !s.work.Idle? || s.pending != NoCommand || !IsRunning(s) then s
    else if !valid then Fault(s)
    else if s.verifying then s.(work := Verifying)
    else s.(work := Scanning([], 0))
  }

  /** A plain file of the sweep: selected for import, or into quarantine when it is no event or too large. */
  function VisitFile(limits: Limits, s: State, name: string, moved: bool): State
    requires s.work.Scanning? && name in s.disk.dir && s.disk.dir[name].File?
  {
    var file := s.disk.dir[name];
    if !file.event || file.size > limits.maxFileBytes then
      if moved then CountQuarantined(Change(s, Moved(s.disk, name)))
      else Fault(s.(disk := Noted(s.disk), replay := None))
    else
      var selected, bytes := s.work.selected + [name], s.work.bytes + file.size;
      if |selected| < limits.batchSize && bytes + limits.maxFileBytes <= limits.maxBatchBytes
      then s.(work := Scanning(selected, bytes))
      else s.(work := Importing(selected, false))
  }

  /** One entry of the sweep. A fault closes the traversal. */
  function Visit(limits: Limits, s: State, name: string, fault: bool, moved: bool): State
    requires s.work.Scanning?
  {
    if name !in Opened(s.disk, s.replay).unseen then s
    else if fault then Fault(s.(replay := None))
    else
      var t := s.(replay := Some(Pass(s.disk, s.replay, name)));
      if name !in s.disk.dir || Harmless(s.disk.dir[name]) then t
      else if s.disk.dir[name].File? then VisitFile(limits, t, name, moved)
      else Annotate(Keep(t), NonRegular)
  }

  /** One entry of the verification, which changes nothing in the source. */
  function Inspect(s: State, name: string, fault: bool): State {
    if name !in Opened(s.disk, s.verification).unseen then s
    else if fault then Fault(s.(verification := None))
    else
      var t := s.(verification := Some(Pass(s.disk, s.verification, name)));
      if name in s.disk.dir && Harmless(s.disk.dir[name]) then t
      else t.(verificationRemaining := t.verificationRemaining + 1)
  }

  function ReadEntry(limits: Limits, s: State, name: string, fault: bool, moved: bool): State {
    match s.work
    case Scanning(_, _) => Visit(limits, s, name, fault, moved)
    case Verifying => Inspect(s, name, fault)
    case _ => s
  }

  /** Opening or reading the directory fails, which closes the traversal. */
  function ReadFails(s: State): State {
    match s.work
    case Scanning(_, _) => Fault(s.(replay := None))
    case Verifying => Fault(s.(verification := None))
    case _ => s
  }

  /** The pass has used its share, or a command asks for its turn. */
  function StopReading(s: State): State {
    match s.work
    case Scanning(selected, _) => s.(work := Importing(selected, false))
    case Verifying => s.(work := Closing)
    case _ => s
  }

  function EndOfVerification(s: State): State {
    var t := s.(verifying := false, verification := None);
    if t.verificationRemaining == 0 then t.(work := Reviewing)
    else t.(work := Closing, replay := None, verificationRemaining := 0)
  }

  function EndOfDirectory(s: State): State {
    match s.work
    case Scanning(selected, _) =>
      if MayEnd(s.disk, s.replay) then s.(work := Importing(selected, true), replay := None) else s
    case Verifying => if MayEnd(s.disk, s.verification) then EndOfVerification(s) else s
    case _ => s
  }

  /** The file stays, and the sweep does not count as clean. */
  function Keep(s: State): State {
    s.(sweepRemaining := s.sweepRemaining + 1)
  }

  /** What the writer's answer for an event file does. */
  function Settle(s: State, name: string, job: Job, result: WriteResult): State
    requires name in s.disk.dir && s.job == Some(job)
  {
    match result
    case Written => Change(s, Answered(s.disk, name)).(job := Some(job.(written := job.written + 1)))
    case Duplicate => Change(s, Answered(s.disk, name)).(job := Some(job.(duplicate := job.duplicate + 1)))
    case Unacknowledged => Annotate(Keep(Change(s, Answered(s.disk, name))), OtherNote)
    case Quarantined(moved) =>
      if moved then CountQuarantined(Change(s, Moved(s.disk, name)))
      else Annotate(Keep(s.(disk := Noted(s.disk))), OtherNote)
    case Deferred => Keep(s).(job := Some(job.(deferred := job.deferred + 1, note := OtherNote)))
    case Skipped => Keep(s)
    case Failed => Annotate(Keep(s), OtherNote)
  }

  predicate IsEvent(dir: Directory, name: string) {
    name in dir && dir[name].File? && dir[name].event
  }

  /** The pass without its file `k`. */
  function Begun(s: State, k: nat): State
    requires s.work.Importing? && k < |s.work.todo|
  {
    s.(work := s.work.(todo := Without(s.work.todo, k)))
  }

  /** One selected file. Only an answer of the writer takes it out of the source, or a refusal into quarantine. */
  function WriteFile(s: State, k: nat, result: WriteResult): State {
    if !s.work.Importing? || k >= |s.work.todo| || s.job.None? then s
    else
      var name, t := s.work.todo[k], Begun(s, k);
      if result.Skipped? then Keep(t)
      else if !IsEvent(s.disk.dir, name) then Annotate(Keep(t), OtherNote)
      else Settle(t, name, s.job.value, result)
  }

  /** The end of a sweep: when it met no obstacle, a verification follows. */
  function FinishImport(s: State): State {
    if !s.work.Importing? || s.work.todo != [] then s
    else if !s.work.scanned || !IsRunning(s) || s.pending != NoCommand then s.(work := Closing)
    else if s.sweepRemaining == 0 then s.(work := Verifying, verifying := true, verification := None)
    else
      s.(work := Closing, sweepRemaining := 0,
         job := if s.job.value.note == NonRegular then Some(s.job.value.(state := Blocked)) else s.job)
  }

  predicate Dirty(disk: Disk, job: Job) {
    disk.quarantine != map[] || disk.stray > 0 || job.quarantined > 0
  }

  /** The source was found clean; what quarantine holds decides, whatever state the job is in by now. */
  function Review(s: State, readable: bool): State {
    if !s.work.Reviewing? || s.job.None? then s
    else if !readable then Fault(s)
    else
      var dirty := Dirty(s.disk, s.job.value);
      s.(work := Closing, verificationRemaining := 0,
         job := Some(s.job.value.(state := if dirty then Blocked else Completed,
                                  note := if dirty then OtherNote else NoNote)))
  }

  // The end of a pass.

  /** The text of the checkpoint is written. Checkpoints are written one after the other. */
  function Snapshot(s: State, ok: bool): State {
    if !s.work.Closing? || s.pending.Recording? then s
    else if ok && s.owned && s.job.Some? then s.(work := Saving(s.job.value))
    else Fault(s)
  }

  predicate IsCompleted(job: Option<Job>) {
    job.Some? && job.value.state == Completed
  }

  /** The checkpoint is in place; a completed source is released. */
  function Stored(s: State, ok: bool): State {
    if !s.work.Saving? then s
    else if !ok then Fault(s)
    else s.(saved := Some(s.work.snapshot), work := if IsCompleted(s.job) then Releasing else Idle)
  }

  function Released(s: State, ok: bool): State {
    if !s.work.Releasing? then s else if ok then s.(owned := false, work := Idle) else Fault(s)
  }

  // Commands.

  function Revision(job: Option<Job>): nat {
    if job.Some? then job.value.revision else 0
  }

  function NewJob(): Job {
    Job(Running, 0, 0, 0, 0, 0, NoNote, None)
  }

  predicate IsRetry(job: Option<Job>, command: Command) {
    job.Some? && job.value.lastCommand.Some? && job.value.lastCommand.value.requestId == command.requestId
  }

  /** The checks before the lock is taken. */
  predicate Admissible(job: Option<Job>, command: Command) {
    && !IsRetry(job, command)
    && Revision(job) == command.expectedRevision
    && match command.action
       case Start => command.confirmed && !(job.Some? && job.value.state in {Completed, Running})
       case Resume => command.confirmed && job.Some? && job.value.state !in {Completed, Running}
       case _ => job.Some? && job.value.state != Completed
  }

  /** The checks behind it. None of them asks for the state again. */
  predicate Confirmed(job: Option<Job>, command: Command, policySame: bool) {
    && Revision(job) == command.expectedRevision
    && (command.action.Pause? || command.action.Cancel? ==> job.Some?)
    && (command.action.Start? || command.action.Resume? ==> job.None? || policySame)
  }

  function Target(action: Action): JobState {
    match action
    case Pause => Paused
    case Cancel => Cancelled
    case _ => Running
  }

  function Applied(job: Job, command: Command): Job {
    var state := Target(command.action);
    job.(state := state, revision := job.revision + 1, lastCommand := Some(command),
         note := if state == Running then NoNote else job.note)
  }

  /** A command begins; the others wait. */
  function Begin(s: State, command: Command): State {
    if s.pending == NoCommand then s.(pending := Waiting(command)) else s
  }

  /** The first checks. All but a pause wait for the running pass. */
  function Guard(s: State, accepting: bool): State {
    if !s.pending.Waiting? || (!s.pending.command.action.Pause? && !s.work.Idle?) then s
    else if accepting && Admissible(s.job, s.pending.command) then s.(pending := Guarded(s.pending.command))
    else s.(pending := NoCommand)
  }

  /** The lock. Taking it anew takes over the stored job. */
  function Claim(s: State, ok: bool): State {
    if !s.pending.Guarded? then s
    else if !ok then s.(pending := NoCommand)
    else s.(pending := Claimed(s.pending.command), owned := true, job := if s.owned then s.job else Loaded(s.saved))
  }

  predicate Accepts(s: State, accepting: bool, policySame: bool) {
    s.pending.Claimed? && accepting && Confirmed(s.job, s.pending.command, policySame)
  }

  /** The later checks and the assignment. */
  function Commit(s: State, accepting: bool, policySame: bool): State {
    if !s.pending.Claimed? then s
    else if !Accepts(s, accepting, policySame) then s.(pending := NoCommand)
    else
      s.(pending := Committed(s.pending.command),
         job := Some(Applied(if s.job.Some? then s.job.value else NewJob(), s.pending.command)))
  }

  /** The checkpoint of the command. */
  function Record(s: State, ok: bool): State {
    if !s.pending.Committed? || s.work.Saving? then s
    else if ok && s.owned && s.job.Some? then s.(pending := Recording(s.pending.command, s.job.value))
    else s.(pending := NoCommand)
  }

  function Recorded(s: State, ok: bool): State {
    if !s.pending.Recording? then s
    else if !ok then s.(pending := NoCommand)
    else
      s.(saved := Some(s.pending.text), pending := if s.pending.command.action.Cancel? then LettingGo else NoCommand)
  }

  /** A cancelled source is released. */
  function LetGo(s: State, ok: bool): State {
    if !s.pending.LettingGo? then s else s.(pending := NoCommand, owned := s.owned && !ok)
  }

  // The process.

  /** A new process. An orderly stop waits for pass and command and stores the job first. */
  function Restart(s: State, graceful: bool): State {
    var orderly := graceful && s.owned && s.work.Idle? && s.pending == NoCommand;
    var saved := if orderly then Loaded(s.job) else s.saved;
    State(s.disk, saved, Loaded(saved), false, None, None, 0, false, 0, Idle, NoCommand)
  }

  function Next(limits: Limits, s: State, step: Step): State {
    match step
    case DoTick(valid) => Tick(s, valid)
    case DoRead(name, fault, moved) => ReadEntry(limits, s, name, fault, moved)
    case DoReadFails => ReadFails(s)
    case DoStop => StopReading(s)
    case DoEnd => EndOfDirectory(s)
    case DoWrite(at, result) => WriteFile(s, at, result)
    case DoAbandon => if s.work.Importing? then Fault(s) else s
    case DoFinish => FinishImport(s)
    case DoReview(readable) => Review(s, readable)
    case DoSnapshot(ok) => Snapshot(s, ok)
    case DoStored(ok) => Stored(s, ok)
    case DoReleased(ok) => Released(s, ok)
    case DoCommand(command) => Begin(s, command)
    case DoGuard(accepting) => Guard(s, accepting)
    case DoClaim(ok) => Claim(s, ok)
    case DoCommit(accepts, policySame) => Commit(s, accepts, policySame)
    case DoRecord(ok) => Record(s, ok)
    case DoRecorded(ok) => Recorded(s, ok)
    case DoLetGo(ok) => LetGo(s, ok)
    case DoRestart(graceful) => Restart(s, graceful)
  }

  function Run(limits: Limits, s: State, steps: seq<Step>): State
    decreases |steps|
  {
    if steps == [] then s else Run(limits, Next(limits, s, steps[0]), steps[1..])
  }

  lemma RunOne(limits: Limits, s: State, step: Step)
    ensures Run(limits, s, [step]) == Next(limits, s, step)
  {
    assert [step][1..] == [];
  }

  lemma {:induction false} RunRun(limits: Limits, s: State, a: seq<Step>, b: seq<Step>)
    ensures Run(limits, s, a + b) == Run(limits, Run(limits, s, a), b)
    decreases |a|
  {
    if a == [] {
      assert a + b == b;
    } else {
      assert (a + b)[1..] == a[1..] + b;
      RunRun(limits, Next(limits, s, a[0]), a[1..], b);
    }
  }

  /** A source with what lies in its quarantine from before. */
  function Initial(dir: Directory, stray: nat): State {
    State(Disk(dir, map[], stray, map[]), None, None, false, None, None, 0, false, 0, Idle, NoCommand)
  }
}
