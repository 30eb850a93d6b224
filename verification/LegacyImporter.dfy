/** One source of the legacy import as the program has it: fields that passes and commands change in place, and the loops
    of a pass. Each loop is proved to be a run of the machine; no command falls into it here, which the results about
    runs allow at every step. */
module LegacyImporter {
  import opened Common
  import opened LegacyPasses
  import M = LegacyModel
  import C = LegacyCommands
  import D = DirectoryScans

  lemma WithoutFront(all: seq<string>, at: nat, n: nat)
    requires at < n <= |all|
    ensures Without(all, at)[n - 1..] == all[n..]
  {
  }

  lemma FrontOfSlice(listing: seq<string>, p: nat, seen: seq<string>, visited: seq<string>)
    requires p + |seen| <= |listing| && seen == listing[p..p + |seen|] && visited <= seen
    ensures visited == listing[p..p + |visited|]
  {
  }

  // The names behind a position of a listing.

  function Behind(listing: seq<string>, p: nat): set<string>
    requires p <= |listing|
  {
    set i | p <= i < |listing| :: listing[i]
  }

  ghost predicate Apart(listing: seq<string>) {
    forall i, j :: 0 <= i < j < |listing| ==> listing[i] != listing[j]
  }

  ghost predicate Lists(listing: seq<string>, dir: M.Directory) {
    Apart(listing) && dir.Keys == Behind(listing, 0)
  }

  lemma OneMore(listing: seq<string>, name: string)
    requires Apart(listing) && name !in Behind(listing, 0)
    ensures Apart(listing + [name]) && Behind(listing + [name], 0) == Behind(listing, 0) + {name}
  {
    var more := listing + [name];
    assert more[|listing|] == name;
    forall i | 0 <= i < |listing| ensures more[i] == listing[i] && more[i] in Behind(listing, 0) {
    }
  }

  /** The traversal of the machine stands where the scan does. */
  ghost predicate Follows(cursor: Option<M.Cursor>, listing: seq<string>, position: Option<nat>) {
    match position
    case None => cursor == None
    case Some(p) => p <= |listing| && (cursor == Some(M.Cursor(Behind(listing, p), false)) || (p == 0 && cursor == None))
  }

  lemma OneName(listing: seq<string>, dir: M.Directory, p: nat)
    requires Lists(listing, dir) && p < |listing|
    ensures listing[p] in Behind(listing, p) && Behind(listing, p + 1) == Behind(listing, p) - {listing[p]}
  {
  }

  lemma NoName(listing: seq<string>)
    ensures Behind(listing, |listing|) == {}
  {
  }

  class SourceRuntime {
    const limits: M.Limits
    var disk: M.Disk
    var saved: Option<M.Job>
    var job: Option<M.Job>
    var owned: bool
    var replay: Option<M.Cursor>
    var verification: Option<M.Cursor>
    var sweepRemaining: nat
    var verifying: bool
    var verificationRemaining: nat
    var work: M.Work
    var pending: M.Pending

    ghost function State(): M.State
      reads this
    {
      M.State(disk, saved, job, owned, replay, verification, sweepRemaining, verifying, verificationRemaining, work,
              pending)
    }

    constructor (limits: M.Limits, dir: M.Directory, stray: nat)
      ensures State() == M.Initial(dir, stray) && this.limits == limits
    {
      this.limits := limits;
      disk, saved, job, owned := M.Disk(dir, map[], stray, map[]), None, None, false;
      replay, verification, sweepRemaining, verifying, verificationRemaining := None, None, 0, false, 0;
      work, pending := M.Idle, M.NoCommand;
    }

    /** A pass ends with an error. */
    method Fail()
      modifies this`job, this`work
      ensures State() == M.Fault(old(State()))
    {
      if job.Some? && job.value.state == M.Running {
        job := Some(job.value.(state := M.Blocked, note := M.OtherNote));
        work := M.Closing;
      } else {
        work := M.Idle;
      }
    }

    method Annotate(note: M.Note)
      modifies this`job
      ensures State() == M.Annotate(old(State()), note)
    {
      if job.Some? {
        job := Some(job.value.(note := note));
      }
    }

    /** The files change behind open traversals. */
    method Change(next: M.Disk)
      modifies this`disk, this`replay, this`verification
      ensures State() == M.Change(old(State()), next)
    {
      disk := next;
      replay := M.Disturb(replay);
      verification := M.Disturb(verification);
    }

    method CountQuarantined()
      modifies this`job
      ensures State() == M.CountQuarantined(old(State()))
    {
      if job.Some? {
        job := Some(job.value.(quarantined := job.value.quarantined + 1));
      }
    }

    // The sweep.

    /** The visitor of the sweep, for a plain file. */
    method VisitFile(name: string, moved: bool)
      requires work.Scanning? && name in disk.dir && disk.dir[name].File?
      modifies this`disk, this`replay, this`verification, this`job, this`work, this`sweepRemaining
      ensures State() == M.VisitFile(limits, old(State()), name, moved)
    {
      var file := disk.dir[name];
      if !file.event || file.size > limits.maxFileBytes {
        if moved {
          Change(M.Moved(disk, name));
          CountQuarantined();
        } else {
          disk := M.Noted(disk);
          replay := None;
          Fail();
        }
        return;
      }
      var selected, bytes := work.selected + [name], work.bytes + file.size;
      if |selected| < limits.batchSize && bytes + limits.maxFileBytes <= limits.maxBatchBytes {
        work := M.Scanning(selected, bytes);
      } else {
        work := M.Importing(selected, false);
      }
    }

    /** The visitor of the sweep. */
    method Visit(name: string, fault: bool, moved: bool)
      requires work.Scanning?
      modifies this`disk, this`replay, this`verification, this`job, this`work, this`sweepRemaining
      ensures State() == M.Visit(limits, old(State()), name, fault, moved)
    {
      if name !in M.Opened(disk, replay).unseen {
        return;
      }
      if fault {
        replay := None;
        Fail();
        return;
      }
      replay := Some(M.Pass(disk, replay, name));
      if name in disk.dir && !M.Harmless(disk.dir[name]) {
        if disk.dir[name].File? {
          VisitFile(name, moved);
        } else {
          sweepRemaining := sweepRemaining + 1;
          Annotate(M.NonRegular);
        }
      }
    }

    method VisitNext(name: string, fault: bool, moved: bool)
      requires work.Scanning? && job.Some?
      modifies this`disk, this`replay, this`verification, this`job, this`work, this`sweepRemaining
      ensures State() == M.Next(limits, old(State()), M.DoRead(name, fault, moved))
      ensures (work.Scanning? || work.Importing? || work.Closing? || work.Idle?) && job.Some?
    {
      Visit(name, fault, moved);
    }

    /** The scan of a pass: it visits what it is handed until a batch is full, an entry fails or the pass has to stop. */
    method Scan(handed: Handed, around: Surroundings) returns (ghost steps: seq<M.Step>)
      requires work.Scanning? && job.Some?
      modifies this`disk, this`replay, this`verification, this`job, this`work, this`sweepRemaining
      ensures State() == M.Run(limits, old(State()), steps)
      ensures steps == ScanSteps(limits, old(State()), handed, around, 0)
      ensures (work.Importing? || work.Closing? || work.Idle?) && job.Some?
    {
      steps := [];
      var i := 0;
      while i < |handed.names| && work.Scanning? && around.mayAdmit(i)
        invariant i <= |handed.names| && State() == M.Run(limits, old(State()), steps)
        invariant steps + ScanSteps(limits, State(), handed, around, i)
                  == ScanSteps(limits, old(State()), handed, around, 0)
        invariant (work.Scanning? || work.Importing? || work.Closing? || work.Idle?) && job.Some?
      {
        var name := handed.names[i];
        var fault, moved := around.fault(name), around.moved(name);
        ghost var step := M.DoRead(name, fault, moved);
        ScanOn(limits, old(State()), steps, handed, around, i, step, ScanSteps(limits, old(State()), handed, around, 0));
        steps := steps + [step];
        VisitNext(name, fault, moved);
        i := i + 1;
      }
      if work.Scanning? {
        ghost var before := steps;
        ghost var step := EndScan(i == |handed.names| && handed.ended && around.mayAdmit(i));
        RunSnoc(limits, old(State()), before, step);
        steps := before + [step];
      }
    }

    /** The scan has reached the end of the directory, or stops before it. */
    method EndScan(ended: bool) returns (ghost step: M.Step)
      requires work.Scanning?
      modifies this`work, this`replay
      ensures State() == M.Next(limits, old(State()), step) && work.Importing?
      ensures step == if ended && old(M.MayEnd(disk, replay)) then M.DoEnd else M.DoStop
    {
      if ended && M.MayEnd(disk, replay) {
        step := M.DoEnd;
        work, replay := M.Importing(work.selected, true), None;
      } else {
        step := M.DoStop;
        work := M.Importing(work.selected, false);
      }
    }

    // The import of the selected files.

    /** What the writer answered for an event file that is still the selected one. */
    method Settle(name: string, result: M.WriteResult)
      requires name in disk.dir && job.Some?
      modifies this`disk, this`replay, this`verification, this`job, this`sweepRemaining
      ensures State() == M.Settle(old(State()), name, old(job).value, result)
    {
      match result
      case Written =>
        Change(M.Answered(disk, name));
        job := Some(job.value.(written := job.value.written + 1));
      case Duplicate =>
        Change(M.Answered(disk, name));
        job := Some(job.value.(duplicate := job.value.duplicate + 1));
      case Unacknowledged =>
        Change(M.Answered(disk, name));
        sweepRemaining := sweepRemaining + 1;
        Annotate(M.OtherNote);
      case Quarantined(moved) =>
        if moved {
          Change(M.Moved(disk, name));
          CountQuarantined();
        } else {
          disk := M.Noted(disk);
          sweepRemaining := sweepRemaining + 1;
          Annotate(M.OtherNote);
        }
      case Deferred =>
        sweepRemaining := sweepRemaining + 1;
        job := Some(job.value.(deferred := job.value.deferred + 1, note := M.OtherNote));
      case Skipped =>
        sweepRemaining := sweepRemaining + 1;
      case Failed =>
        sweepRemaining := sweepRemaining + 1;
        Annotate(M.OtherNote);
    }

    /** A selected file of the pass. */
    method WritePrepared(at: nat, result: M.WriteResult)
      requires work.Importing? && at < |work.todo| && job.Some?
      modifies this`disk, this`replay, this`verification, this`job, this`work, this`sweepRemaining
      ensures State() == M.WriteFile(old(State()), at, result)
      ensures work == M.Importing(Without(old(work).todo, at), old(work).scanned) && job.Some?
    {
      var name := work.todo[at];
      work := work.(todo := Without(work.todo, at));
      if result.Skipped? {
        sweepRemaining := sweepRemaining + 1;
      } else if !M.IsEvent(disk.dir, name) {
        sweepRemaining := sweepRemaining + 1;
        Annotate(M.OtherNote);
      } else {
        Settle(name, result);
      }
    }

    /** The one of `others + 1` writes that ends first. */
    method WriteNext(others: nat, around: Surroundings, skip: bool)
      requires work.Importing? && others < |work.todo| && job.Some?
      modifies this`disk, this`replay, this`verification, this`job, this`work, this`sweepRemaining
      ensures State() == M.Next(limits, old(State()), WriteStep(old(State()), others, around, skip))
      ensures work.Importing? && work.scanned == old(work).scanned && job.Some?
      ensures |work.todo| == |old(work).todo| - 1 && work.todo[others..] == old(work).todo[others + 1..]
    {
      var at := around.first(others + 1) % (others + 1);
      WithoutFront(work.todo, at, others + 1);
      WritePrepared(at, if skip then M.Skipped else around.result(work.todo[at]));
    }

    /** The next `n` files at a time, each with its own answer and in the order in which they end, or all skipped. */
    method WriteSome(n: nat, around: Surroundings, skip: bool) returns (ghost steps: seq<M.Step>)
      requires work.Importing? && n <= |work.todo| && job.Some?
      modifies this`disk, this`replay, this`verification, this`job, this`work, this`sweepRemaining
      ensures State() == M.Run(limits, old(State()), steps)
      ensures steps == WriteSteps(limits, old(State()), n, n, around, skip) 
      ensures work == M.Importing(old(work).todo[n..], old(work).scanned) && job.Some?
    {
      hide M.Run, M.Next;
      RunNone(limits, State());
      for left := n downto 0
        invariant State() == M.Run(limits, old(State()), WriteSteps(limits, old(State()), n, n - left, around, skip))
        invariant work.Importing? && left <= |work.todo| && work.todo[left..] == old(work).todo[n..]
        invariant work.scanned == old(work).scanned && job.Some?
      {
        WriteOn(limits, old(State()), n, n - left - 1, around, skip);
        WriteNext(left, around, skip);
      }
      steps := WriteSteps(limits, old(State()), n, n, around, skip);
    }

    /** Source, owner or policy changed. */
    method Abandon()
      requires work.Importing? && job.Some?
      modifies this`job, this`work
      ensures State() == M.Next(limits, old(State()), M.DoAbandon)
      ensures (work.Closing? || work.Idle?) && job.Some?
    {
      Fail();
    }

    /** The files of a batch in chunks. Before each chunk the pass may have to stop, which keeps the rest and spoils the
        sweep, or finds the source changed, which ends it. */
    method Import(around: Surroundings) returns (ghost steps: seq<M.Step>)
      requires work.Importing? && job.Some? && limits.concurrency >= 1
      modifies this`disk, this`replay, this`verification, this`job, this`work, this`sweepRemaining
      ensures State() == M.Run(limits, old(State()), steps)
      ensures exists turns: nat :: steps == ImportSteps(limits, old(State()), around, turns)
      ensures (work.Importing? && work.todo == [] && work.scanned == old(work).scanned) || work.Closing? || work.Idle?
      ensures job.Some?
    {
      hide M.Run, M.Next;
      RunNone(limits, State());
      var turn := 0;
      while work.Importing? && work.todo != []
        invariant State() == M.Run(limits, old(State()), ImportSteps(limits, old(State()), around, turn))
        invariant (work.Importing? && work.scanned == old(work).scanned) || work.Closing? || work.Idle?
        invariant job.Some?
        decreases if work.Importing? then 1 + |work.todo| else 0
      {
        ImportOn(limits, old(State()), around, turn);
        if !around.mayAdmit(turn) {
          ghost var _ := WriteSome(|work.todo|, around, true);
        } else if !around.valid(turn) {
          M.RunOne(limits, State(), M.DoAbandon);
          Abandon();
        } else {
          ghost var _ := WriteSome(Min(limits.concurrency, |work.todo|), around, false);
        }
        turn := turn + 1;
      }
      steps := ImportSteps(limits, old(State()), around, turn);
    }

    /** The end of a sweep. */
    method FinishSweep()
      requires work.Importing? && work.todo == [] && job.Some?
      modifies this
      ensures State() == M.Next(limits, old(State()), M.DoFinish)
      ensures (work.Closing? && verifying == old(verifying)) || (work.Verifying? && verifying && verification == None)
      ensures job.Some? && pending == old(pending)
    {
      if !work.scanned || job.value.state != M.Running || pending != M.NoCommand {
        work := M.Closing;
      } else if sweepRemaining == 0 {
        verifying, verification := true, None;
        work := M.Verifying;
      } else {
        if job.value.note == M.NonRegular {
          job := Some(job.value.(state := M.Blocked));
        }
        sweepRemaining := 0;
        work := M.Closing;
      }
    }

    // The verification.

    /** The visitor of the verification: it counts and changes nothing in the source. */
    method Inspect(name: string, fault: bool)
      requires work.Verifying?
      modifies this`job, this`work, this`verification, this`verificationRemaining
      ensures State() == M.Inspect(old(State()), name, fault)
    {
      if name !in M.Opened(disk, verification).unseen {
        return;
      }
      if fault {
        verification := None;
        Fail();
        return;
      }
      verification := Some(M.Pass(disk, verification, name));
      if name !in disk.dir || !M.Harmless(disk.dir[name]) {
        verificationRemaining := verificationRemaining + 1;
      }
    }

    /** The verification found nothing; a look into quarantine decides. */
    method ReviewQuarantine(readable: bool)
      requires work.Reviewing? && job.Some?
      modifies this`job, this`work, this`verificationRemaining
      ensures State() == M.Review(old(State()), readable)
    {
      if !readable {
        Fail();
        return;
      }
      var dirty := disk.quarantine != map[] || disk.stray > 0 || job.value.quarantined > 0;
      job := Some(job.value.(state := if dirty then M.Blocked else M.Completed,
                             note := if dirty then M.OtherNote else M.NoNote));
      verificationRemaining := 0;
      work := M.Closing;
    }

    /** The next entry of the traversal. */
    method InspectNext(listing: seq<string>, p: nat)
      requires work.Verifying? && p < |listing| && Lists(listing, disk.dir) && Follows(verification, listing, Some(p))
      modifies this`job, this`work, this`verification, this`verificationRemaining
      ensures State() == M.Next(limits, old(State()), M.DoRead(listing[p], false, false))
      ensures work == old(work) && job == old(job) && verification == Some(M.Cursor(Behind(listing, p + 1), false))
    {
      OneName(listing, disk.dir, p);
      Inspect(listing[p], false);
    }

    /** The visits of one pass over the entries that follow the traversal. */
    method InspectAll(listing: seq<string>, p: nat, seen: seq<string>) returns (ghost steps: seq<M.Step>)
      requires work.Verifying? && Lists(listing, disk.dir) && p + |seen| <= |listing| && seen == listing[p..p + |seen|]
      requires Follows(verification, listing, Some(p))
      modifies this`job, this`work, this`verification, this`verificationRemaining
      ensures State() == M.Run(limits, old(State()), steps)
      ensures steps == Reads(seen)
      ensures work == old(work) && job == old(job) && Follows(verification, listing, Some(p + |seen|))
      ensures seen == [] ==> verification == old(verification)
    {
      hide M.Run, M.Next;
      RunNone(limits, State());
      for i := 0 to |seen|
        invariant State() == M.Run(limits, old(State()), Reads(seen[..i])) && work == old(work) && job == old(job)
        invariant Follows(verification, listing, Some(p + i)) && (i == 0 ==> verification == old(verification))
      {
        assert seen[i] == listing[p + i];
        ReadOn(limits, old(State()), seen, i);
        InspectNext(listing, p + i);
      }
      assert seen[..|seen|] == seen;
      steps := Reads(seen);
    }

    /** One more entry, which cannot be examined. */
    method InspectFault(name: string) returns (ghost steps: seq<M.Step>)
      requires work.Verifying? && job.Some? && name in M.Opened(disk, verification).unseen
      modifies this`job, this`work, this`verification, this`verificationRemaining
      ensures State() == M.Run(limits, old(State()), steps)
      ensures steps == [M.DoRead(name, true, false)]
      ensures (work.Closing? || work.Idle?) && job.Some? && verification == None
    {
      steps := [M.DoRead(name, true, false)];
      M.RunOne(limits, State(), M.DoRead(name, true, false));
      Inspect(name, true);
    }

    /** The directory was read to its end. */
    method EndVerification(readable: bool) returns (ghost steps: seq<M.Step>)
      requires work.Verifying? && job.Some? && M.MayEnd(disk, verification)
      modifies this`job, this`work, this`verification, this`verificationRemaining, this`verifying, this`replay
      ensures State() == M.Run(limits, old(State()), steps)
      ensures (work.Closing? || work.Idle?) && job.Some? && verification == None
      ensures steps == if old(verificationRemaining) == 0 then [M.DoEnd, M.DoReview(readable)] else [M.DoEnd]
      ensures M.IsCompleted(job) ==> old(verificationRemaining) == 0 || M.IsCompleted(old(job))
    {
      M.RunOne(limits, State(), M.DoEnd);
      steps := [M.DoEnd];
      verifying, verification := false, None;
      if verificationRemaining == 0 {
        work := M.Reviewing;
        RunSnoc(limits, old(State()), steps, M.DoReview(readable));
        steps := steps + [M.DoReview(readable)];
        ReviewQuarantine(readable);
      } else {
        work, replay, verificationRemaining := M.Closing, None, 0;
      }
    }

    /** A pass of the verification that does not reach the end of the directory. */
    method BreakVerification(failed: bool) returns (ghost steps: seq<M.Step>)
      requires work.Verifying? && job.Some?
      modifies this`job, this`work, this`verification
      ensures State() == M.Run(limits, old(State()), steps)
      ensures (work.Closing? || work.Idle?) && job.Some?
      ensures steps == if failed then [M.DoReadFails] else [M.DoStop]
      ensures verification == if failed then None else old(verification)
    {
      if failed {
        steps := [M.DoReadFails];
        M.RunOne(limits, State(), M.DoReadFails);
        verification := None;
        Fail();
      } else {
        steps := [M.DoStop];
        M.RunOne(limits, State(), M.DoStop);
        work := M.Closing;
      }
    }

    /** What the visits of a pass lead to. */
    method ConcludeVerification(listing: seq<string>, p: nat, outcome: D.Outcome, readable: bool)
      returns (ghost steps: seq<M.Step>)
      requires work.Verifying? && job.Some? && Lists(listing, disk.dir) && !outcome.InvalidLimits?
      requires p <= |listing| && Follows(verification, listing, Some(p))
      requires outcome.VisitorThrew? ==> p < |listing|
      requires outcome.Passed? && outcome.complete ==> p == |listing|
      modifies this`job, this`work, this`verification, this`verificationRemaining, this`verifying, this`replay
      ensures State() == M.Run(limits, old(State()), steps)
      ensures (work.Closing? || work.Idle?) && job.Some?
      ensures steps == if outcome.VisitorThrew? then [M.DoRead(listing[p], true, false)]
                       else AfterReads(old(State()), outcome, readable)
      ensures verification == if outcome.Passed? && !outcome.complete then old(verification) else None
    {
      match outcome
      case VisitorThrew =>
        OneName(listing, disk.dir, p);
        steps := InspectFault(listing[p]);
      case ReadFailed => steps := BreakVerification(true);
      case Passed(_, complete) =>
        if complete {
          NoName(listing);
          steps := EndVerification(readable);
        } else {
          steps := BreakVerification(false);
        }
    }

    /** The visits of a pass and what they lead to. */
    method Examine(listing: seq<string>, p: nat, seen: seq<string>, outcome: D.Outcome, readable: bool)
      returns (ghost steps: seq<M.Step>)
      requires work.Verifying? && job.Some? && Lists(listing, disk.dir) && Follows(verification, listing, Some(p))
      requires !outcome.InvalidLimits? && (outcome.VisitorThrew? ==> seen != [])
      requires p + |seen| <= |listing| && seen == listing[p..p + |seen|]
      requires outcome.Passed? && outcome.complete ==> p + |seen| == |listing|
      modifies this`job, this`work, this`verification, this`verificationRemaining, this`verifying, this`replay
      ensures State() == M.Run(limits, old(State()), steps)
      ensures (work.Closing? || work.Idle?) && job.Some?
      ensures !(outcome.Passed? && !outcome.complete) ==> verification == None
      ensures outcome.Passed? && !outcome.complete ==>
                Follows(verification, listing, Some(p + |seen|)) && (seen == [] ==> verification == old(verification))
      ensures steps == VerifySteps(limits, old(State()), seen, outcome, readable)
    {
      hide M.Run, M.Next;
      var visited := if outcome.VisitorThrew? then seen[..|seen| - 1] else seen;
      FrontOfSlice(listing, p, seen, visited);
      ghost var before := InspectAll(listing, p, visited);
      ghost var more := ConcludeVerification(listing, p + |visited|, outcome, readable);
      M.RunRun(limits, old(State()), before, more);
      steps := before + more;
    }

    /** One pass of the verification over the retained scan of an unchanged directory: the traversal of the machine stays
        with the scan, so the passes together inspect each entry once before one of them ends the verification. */
    method VerifyEmptyPass(scan: D.BoundedDirectoryScan, scanLimits: D.ScanLimits, around: D.Surroundings, readable: bool)
      returns (outcome: D.Outcome, seen: seq<string>, ghost steps: seq<M.Step>)
      requires work.Verifying? && job.Some?
      requires scan.Valid() && !scan.closed && D.ValidLimits(scanLimits) && Lists(scan.listing, disk.dir)
      requires Follows(verification, scan.listing, scan.cursor)
      requires forall name :: around.visit(name) != D.Break
      modifies this`job, this`work, this`verification, this`verificationRemaining, this`verifying, this`replay,
               scan
      ensures State() == M.Run(limits, old(State()), steps)
      ensures (work.Closing? || work.Idle?) && job.Some?
      ensures scan.Valid() && !scan.closed && Follows(verification, scan.listing, scan.cursor)
      ensures old(scan.Position()) + |seen| <= |scan.listing|
      ensures seen == scan.listing[old(scan.Position())..old(scan.Position()) + |seen|]
      ensures outcome.VisitorThrew? ==> seen != []
      ensures steps == VerifySteps(limits, old(State()), seen, outcome, readable)
    {
      hide M.Run, M.Next;
      var p := scan.Position();
      outcome, seen := scan.Pass(scanLimits, around);
      steps := Examine(scan.listing, p, seen, outcome, readable);
    }

    // The end of a pass, and the whole of it.

    /** The next section of the end of a pass. */
    method FinishStep(ok: bool)
      requires (work.Closing? || work.Saving? || work.Releasing?) && job.Some? && pending == M.NoCommand
      modifies this`job, this`work, this`saved, this`owned
      ensures State() == M.Next(limits, old(State()), FinishOf(old(work), ok))
      ensures job.Some? && (job == old(job) || (old(job).value.state == M.Running && job.value.state == M.Blocked))
      ensures match work
              case Closing => job != old(job)
              case Saving(_) => old(work).Closing? && job == old(job)
              case Releasing => old(work).Saving? && job == old(job)
              case Idle => true
              case _ => false
    {
      match work
      case Closing =>
        if ok && owned {
          work := M.Saving(job.value);
        } else {
          Fail();
        }
      case Saving(snapshot) =>
        if ok {
          saved := Some(snapshot);
          work := if job.value.state == M.Completed then M.Releasing else M.Idle;
        } else {
          Fail();
        }
      case Releasing =>
        if ok {
          owned, work := false, M.Idle;
        } else {
          Fail();
        }
    }

    /** The checkpoint of the pass and the release of a completed source; an error on the way blocks a running job, which
        is checkpointed in turn. It ends. */
    method FinishPass(stored: nat -> bool) returns (ghost steps: seq<M.Step>)
      requires (work.Closing? || work.Idle?) && job.Some? && pending == M.NoCommand
      modifies this`job, this`work, this`saved, this`owned
      ensures State() == M.Run(limits, old(State()), steps)
      ensures exists turns: nat :: steps == FinishSteps(limits, old(State()), stored, turns)
      ensures work.Idle? && job.Some? && M.IsCompleted(job) == M.IsCompleted(old(job))
    {
      hide M.Run, M.Next;
      RunNone(limits, State());
      var turn := 0;
      while !work.Idle?
        invariant State() == M.Run(limits, old(State()), FinishSteps(limits, old(State()), stored, turn))
        invariant work.Closing? || work.Saving? || work.Releasing? || work.Idle?
        invariant job.Some? && M.IsCompleted(job) == M.IsCompleted(old(job))
        decreases job.Some? && job.value.state == M.Running,
                  if work.Closing? then 3 else if work.Saving? then 2 else if work.Releasing? then 1 else 0
      {
        FinishOn(limits, old(State()), stored, turn);
        FinishStep(stored(turn));
        turn := turn + 1;
      }
      steps := FinishSteps(limits, old(State()), stored, turn);
    }

    /** A pass: the sweep, the import of what it selected, and its end. When it met no obstacle it goes on with the
        first pass of a verification over `scan`, which is opened over the files as they are then. */
    method Sweep(handed: Handed, around: Surroundings) returns (ghost steps: seq<M.Step>)
      requires work.Scanning? && job.Some? && limits.concurrency >= 1
      modifies this
      ensures State() == M.Run(limits, old(State()), steps)
      ensures exists turns: nat :: steps == SweepSteps(limits, old(State()), handed, around, turns)
      ensures (work.Verifying? && verifying && verification == None)
              || ((work.Closing? || work.Idle?) && verifying == old(verifying))
      ensures job.Some? && pending == old(pending)
    {
      hide M.Run, M.Next, ScanSteps, SweepSteps;
      ghost var turns: nat := 0;
      steps := Scan(handed, around);
      ghost var before, scanned := steps, State();
      if work.Importing? {
        ghost var more := Import(around);
        turns :| more == ImportSteps(limits, scanned, around, turns);
        M.RunRun(limits, old(State()), before, more);
        steps := before + more;
      } else {
        assert before + ImportSteps(limits, scanned, around, 0) == before;
      }
      SweepOf(limits, old(State()), handed, around, turns, steps);
      if work.Importing? {
        RunSnoc(limits, old(State()), steps, M.DoFinish);
        steps := steps + [M.DoFinish];
        FinishSweep();
      }
    }

    /** Begin a pass, or find that there is none to run. */
    method Tick(valid: bool)
      modifies this`job, this`work
      ensures State() == M.Next(limits, old(State()), M.DoTick(valid))
    {
      if !work.Idle? || pending != M.NoCommand || job.None? || job.value.state != M.Running {
        return;
      }
      if !valid {
        Fail();
      } else if verifying {
        work := M.Verifying;
      } else {
        work := M.Scanning([], 0);
      }
    }

    /** A traversal of the files as they are now. */
    method OpenScan() returns (scan: D.BoundedDirectoryScan)
      ensures fresh(scan) && scan.Valid() && !scan.closed && scan.cursor == None && Lists(scan.listing, disk.dir)
    {
      var left, listing: seq<string> := disk.dir.Keys, [];
      while left != {}
        invariant Apart(listing) && left !! Behind(listing, 0) && left + Behind(listing, 0) == disk.dir.Keys
        decreases |left|
      {
        var name :| name in left;
        OneMore(listing, name);
        left, listing := left - {name}, listing + [name];
      }
      scan := new D.BoundedDirectoryScan(listing);
    }

    /** While a verification is open, its scan is one of the files as they are, and the traversal stands where it does. */
    ghost predicate Attached(scan: D.BoundedDirectoryScan?)
      reads this, scan
    {
      verifying ==>
        && scan != null && scan.Valid() && !scan.closed
        && Lists(scan.listing, disk.dir) && Follows(verification, scan.listing, scan.cursor)
    }

    /** A whole pass without a command in it: a pass of the open verification, or a sweep that may open one. It ends with
        the pass over, and it is a run of the machine. */
    method ReplayPass(
      scan: D.BoundedDirectoryScan?, valid: bool, handed: Handed, around: Surroundings, scanLimits: D.ScanLimits,
      looks: D.Surroundings, readable: bool)
      returns (next: D.BoundedDirectoryScan?, ghost steps: seq<M.Step>)
      requires work.Idle? && job.Some? && pending == M.NoCommand && limits.concurrency >= 1
      requires Attached(scan) && D.ValidLimits(scanLimits) && forall name :: looks.visit(name) != D.Break
      modifies this, if scan == null then {} else {scan}
      ensures State() == M.Run(limits, old(State()), steps)
      ensures work.Idle? && job.Some? && pending == M.NoCommand
      ensures Attached(next)
    {
      hide M.Run;
      M.RunOne(limits, State(), M.DoTick(valid));
      steps, next := [M.DoTick(valid)], scan;
      Tick(valid);
      ghost var before, more := steps, [];
      if work.Scanning? {
        more := Sweep(handed, around);
        M.RunRun(limits, old(State()), before, more);
        steps := before + more;
        if work.Verifying? {
          next := OpenScan();
        }
      }
      if work.Verifying? {
        before := steps;
        var _, _, verified := VerifyEmptyPass(next, scanLimits, looks, readable);
        more := verified;
        M.RunRun(limits, old(State()), before, more);
        steps := before + more;
      }
      before := steps;
      more := FinishPass(around.stored);
      M.RunRun(limits, old(State()), before, more);
      steps := before + more;
    }

    // A command without a section of a pass in it.

    /** The first checks, in their order. */
    method IsAdmissible(command: M.Command) returns (admissible: bool)
      ensures admissible == M.Admissible(job, command)
    {
      if job.Some? && job.value.lastCommand.Some? && job.value.lastCommand.value.requestId == command.requestId {
        return false;
      }
      if M.Revision(job) != command.expectedRevision {
        return false;
      }
      if command.action.Start? || command.action.Resume? {
        return command.confirmed
               && !(job.Some? && (job.value.state == M.Completed || job.value.state == M.Running))
               && (command.action.Start? || job.Some?);
      }
      return job.Some? && job.value.state != M.Completed;
    }

    /** The first checks and the lock. */
    method GuardAndClaim(command: M.Command, a: C.Answers) returns (claimed: bool)
      requires pending == M.NoCommand && (command.action.Pause? || work.Idle?)
      modifies this`pending, this`owned, this`job
      ensures State() == C.AfterClaim(old(State()), command, a)
      ensures claimed == pending.Claimed? && (claimed ==> pending == M.Claimed(command))
      ensures !claimed ==> pending == M.NoCommand
    {
      var admissible := IsAdmissible(command);
      claimed := a.guardAccepts && admissible && a.claimed;
      if claimed {
        if !owned {
          owned, job := true, M.Loaded(saved);
        }
        pending := M.Claimed(command);
      }
    }

    /** The later checks and the assignment. */
    method Assign(accepting: bool, policySame: bool) returns (committed: bool)
      requires pending.Claimed?
      modifies this`pending, this`job
      ensures State() == M.Commit(old(State()), accepting, policySame)
      ensures committed == pending.Committed? && (!committed ==> pending == M.NoCommand)
    {
      var command := pending.command;
      pending := M.NoCommand;
      if !accepting || M.Revision(job) != command.expectedRevision {
        return false;
      }
      if command.action.Start? || command.action.Resume? {
        if job.Some? && !policySame {
          return false;
        }
        var known := if job.Some? then job.value else M.NewJob();
        job := Some(known.(state := M.Running, note := M.NoNote));
      } else {
        if job.None? {
          return false;
        }
        job := Some(job.value.(state := if command.action.Pause? then M.Paused else M.Cancelled));
      }
      job := Some(job.value.(revision := job.value.revision + 1, lastCommand := Some(command)));
      pending := M.Committed(command);
      return true;
    }

    /** The checkpoint of the command, and the release of a cancelled source. */
    method RecordCommand(a: C.Answers)
      requires pending.Committed? && job.Some? && !work.Saving?
      modifies this`pending, this`saved, this`owned
      ensures State() == C.AfterRecord(old(State()), a)
    {
      if a.recorded && owned {
        saved := job;
        if pending.command.action.Cancel? && a.released {
          owned := false;
        }
      }
      pending := M.NoCommand;
    }

    method ApplyCommand(command: M.Command, a: C.Answers)
      requires pending == M.NoCommand && (command.action.Pause? || work.Idle?) && !work.Saving?
      modifies this
      ensures State() == M.Run(limits, old(State()), C.Sections(command, a))
    {
      C.SectionsRun(limits, State(), command, a);
      var claimed := GuardAndClaim(command, a);
      if !claimed {
        return;
      }
      var committed := Assign(a.commitAccepts, a.policySame);
      if committed {
        RecordCommand(a);
      }
    }
  }
}
