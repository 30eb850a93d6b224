/** The stored import jobs: at most one is open, and the ranges of one profile never overlap, although the test for it
    compares texts. */
module HistoricalJobs {
  import opened Common
  import opened UtcInstants

  datatype JobState = Running | Blocked | Completed

  datatype StartRequest = StartRequest(id: string, profileId: string, from: string, to: string, previewDigest: string)

  /** A stored job; the hash of its request and actor is injective, so these stand for it. */
  datatype StoredJob = StoredJob(request: StartRequest, actor: string, from: string, to: string, state: JobState)

  /** A start between its first section and the end of its review. */
  datatype Review = Review(request: StartRequest, actor: string, from: nat, to: nat)

  datatype State = State(jobs: seq<StoredJob>, pending: Option<Review>, stopped: bool, faulted: bool)

  datatype Reply = Status(job: StoredJob) | IdConflict | NotReady | Refused(status: nat) | Reviewing | Stale
    | ContractChanged | RangeOverlap

  datatype BeginEnv = BeginEnv(canWrite: bool, previewBusy: bool, profileKnown: bool, nowMs: int)

  datatype FinishEnv = FinishEnv(reviewed: bool, previewSame: bool, canWrite: bool, contractSame: bool)

  datatype Step =
    | DoBegin(request: StartRequest, actor: string, env: BeginEnv)
    | DoFinish(outcome: FinishEnv)
    | DoSettle(state: JobState)
    | DoFault
    | DoStop
    | DoRestart

  const MAX_RANGE: nat := 31 * 86400 * 1000000

  function ReadJob(jobs: seq<StoredJob>, id: string): Option<StoredJob> {
    if jobs == [] then None
    else if jobs[0].request.id == id then Some(jobs[0])
    else ReadJob(jobs[1..], id)
  }

  /** The oldest job that is not completed, or the length. */
  function ActiveAt(jobs: seq<StoredJob>): (i: nat)
    ensures i <= |jobs| && (i < |jobs| ==> jobs[i].state != Completed)
    ensures forall k :: 0 <= k < i ==> jobs[k].state == Completed
  {
    if jobs == [] then 0 else if jobs[0].state != Completed then 0 else 1 + ActiveAt(jobs[1..])
  }

  /** An insert that replaces a job with the same id. */
  function Store(jobs: seq<StoredJob>, job: StoredJob): seq<StoredJob> {
    if jobs == [] then [job]
    else if jobs[0].request.id == job.request.id then [job] + jobs[1..]
    else [jobs[0]] + Store(jobs[1..], job)
  }

  predicate ValidRange(from: int, to: int, nowMs: int) {
    0 <= from < to && to - from <= MAX_RANGE && to <= nowMs * 1000
  }

  /** The first section of a start, up to the review. */
  function Begin(s: State, request: StartRequest, actor: string, env: BeginEnv): (State, Reply) {
    var previous := ReadJob(s.jobs, request.id);
    if s.stopped then (s, NotReady)
    else if previous.Some? then
      (s, if previous.value.request == request && previous.value.actor == actor then Status(previous.value) else IdConflict)
    else if s.faulted || s.pending.Some? || ActiveAt(s.jobs) < |s.jobs| || !env.canWrite then (s, NotReady)
    else if env.previewBusy then (s, Refused(409))
    else if !env.profileKnown then (s, Refused(404))
    else
      var from, to := UtcMicros(request.from), UtcMicros(request.to);
      if from.None? || to.None? || !ValidRange(from.value, to.value, env.nowMs) then (s, Refused(400))
      else (s.(pending := Some(Review(request, actor, from.value, to.value))), Reviewing)
  }

  /** The test of the query: both comparisons are comparisons of texts. */
  predicate TextOverlaps(job: StoredJob, profileId: string, from: string, to: string) {
    job.request.profileId == profileId && Less(job.from, to) && Less(from, job.to)
  }

  predicate AnyOverlap(jobs: seq<StoredJob>, profileId: string, from: string, to: string) {
    exists i :: 0 <= i < |jobs| && TextOverlaps(jobs[i], profileId, from, to)
  }

  /** The section after the review. */
  function Finish(s: State, env: FinishEnv): (State, Reply)
    requires s.pending.Some? ==> s.pending.value.from < YEAR_10000 && s.pending.value.to < YEAR_10000
  {
    if s.pending.None? then (s, NotReady)
    else
      var review, t := s.pending.value, s.(pending := None);
      var from, to := IsoMicros(review.from), IsoMicros(review.to);
      if !env.reviewed then (t, Refused(503))
      else if !env.previewSame then (t, Stale)
      else if s.stopped || !env.canWrite then (t, NotReady)
      else if !env.contractSame then (t, ContractChanged)
      else if AnyOverlap(s.jobs, review.request.profileId, from, to) then (t, RangeOverlap)
      else
        var job := StoredJob(review.request, review.actor, from, to, Running);
        (t.(jobs := Store(s.jobs, job)), Status(job))
  }

  /** The running job is stored with a new state. */
  function Settle(s: State, state: JobState): State {
    var i := ActiveAt(s.jobs);
    if i < |s.jobs| && s.jobs[i].state == Running
    then s.(jobs := Store(s.jobs, s.jobs[i].(state := state)))
    else s
  }

  function Next(s: State, step: Step): State
    requires s.pending.Some? ==> s.pending.value.from < YEAR_10000 && s.pending.value.to < YEAR_10000
  {
    match step
    case DoBegin(request, actor, env) => Begin(s, request, actor, env).0
    case DoFinish(env) => Finish(s, env).0
    case DoSettle(state) => Settle(s, state)
    case DoFault => s.(faulted := true)
    case DoStop => s.(stopped := true)
    case DoRestart => s.(pending := None, stopped := false, faulted := false)
  }

  // The invariant.

  /** The job's texts are those of its instants. */
  ghost predicate Spans(job: StoredJob, from: nat, to: nat) {
    from < to < YEAR_10000 && job.from == IsoMicros(from) && job.to == IsoMicros(to)
  }

  ghost predicate Dated(job: StoredJob) {
    exists from: nat, to: nat :: Spans(job, from, to)
  }

  /** The instant lies in the stored range, as the texts read. */
  ghost predicate Covers(job: StoredJob, t: int) {
    && UtcMicros(job.from).Some? && UtcMicros(job.to).Some?
    && UtcMicros(job.from).value <= t < UtcMicros(job.to).value
  }

  ghost predicate Disjoint(a: StoredJob, b: StoredJob) {
    a.request.profileId == b.request.profileId ==> forall t: int :: !(Covers(a, t) && Covers(b, t))
  }

  ghost predicate UniqueIds(jobs: seq<StoredJob>) {
    forall i, j :: 0 <= i < j < |jobs| ==> jobs[i].request.id != jobs[j].request.id
  }

  ghost predicate Apart(jobs: seq<StoredJob>) {
    && (forall i :: 0 <= i < |jobs| ==> Dated(jobs[i]))
    && (forall i, j :: 0 <= i < j < |jobs| ==> Disjoint(jobs[i], jobs[j]))
  }

  ghost predicate OneOpen(jobs: seq<StoredJob>) {
    forall i, j :: 0 <= i < j < |jobs| ==> jobs[i].state == Completed || jobs[j].state == Completed
  }

  ghost predicate Reviewable(s: State) {
    s.pending.Some? ==>
      var review := s.pending.value;
      && review.from < review.to < YEAR_10000
      && ReadJob(s.jobs, review.request.id).None?
      && ActiveAt(s.jobs) == |s.jobs|
  }

  ghost predicate Ranged(s: State) {
    UniqueIds(s.jobs) && Apart(s.jobs) && OneOpen(s.jobs) && Reviewable(s)
  }

  lemma {:induction false} ReadJobMeans(jobs: seq<StoredJob>, id: string)
    ensures ReadJob(jobs, id).None? <==> forall i :: 0 <= i < |jobs| ==> jobs[i].request.id != id
    ensures ReadJob(jobs, id).Some? ==>
              ReadJob(jobs, id).value in jobs && ReadJob(jobs, id).value.request.id == id
  {
    if jobs != [] && jobs[0].request.id != id {
      ReadJobMeans(jobs[1..], id);
      assert forall i :: 1 <= i < |jobs| ==> jobs[i] == jobs[1..][i - 1];
      if ReadJob(jobs, id).None? {
        forall i | 0 <= i < |jobs| ensures jobs[i].request.id != id {
          if i > 0 {
            assert jobs[i] == jobs[1..][i - 1];
          }
        }
      }
    }
  }

  lemma {:induction false} StoreNew(jobs: seq<StoredJob>, job: StoredJob)
    requires ReadJob(jobs, job.request.id).None?
    ensures Store(jobs, job) == jobs + [job]
  {
    if jobs != [] {
      StoreNew(jobs[1..], job);
    }
  }

  lemma {:induction false} StoreKnown(jobs: seq<StoredJob>, job: StoredJob, i: nat)
    requires UniqueIds(jobs) && i < |jobs| && jobs[i].request.id == job.request.id
    ensures Store(jobs, job) == jobs[i := job]
  {
    if i > 0 {
      assert forall k :: 0 <= k < |jobs| - 1 ==> jobs[1..][k] == jobs[k + 1];
      assert UniqueIds(jobs[1..]);
      StoreKnown(jobs[1..], job, i - 1);
    }
  }

  lemma SpanTest(job: StoredJob, c: nat, d: nat, from: nat, to: nat)
    requires Spans(job, c, d) && from < to < YEAR_10000
    ensures TextOverlaps(job, job.request.profileId, IsoMicros(from), IsoMicros(to)) <==> c < to && from < d
  {
    IsoKeepsOrder(c, to);
    IsoKeepsOrder(from, d);
  }

  lemma SpanCovers(job: StoredJob, c: nat, d: nat, t: int)
    requires Spans(job, c, d)
    ensures Covers(job, t) <==> c <= t < d
  {
    ReadPrinted(c);
    ReadPrinted(d);
  }

  lemma SpansMeet(job: StoredJob, c: nat, d: nat, from: nat, to: nat)
    requires Spans(job, c, d) && from < to
    ensures c < to && from < d <==> exists t: int :: from <= t < to && Covers(job, t)
  {
    if c < to && from < d {
      SpanCovers(job, c, d, Max(from, c));
    }
    if t: int :| from <= t < to && Covers(job, t) {
      SpanCovers(job, c, d, t);
    }
  }

  /** The texts compare as the instants do, so the query finds exactly the jobs that share an instant with the range. */
  lemma TextTestIsExact(job: StoredJob, profileId: string, from: nat, to: nat)
    requires Dated(job) && from < to < YEAR_10000 && job.request.profileId == profileId
    ensures TextOverlaps(job, profileId, IsoMicros(from), IsoMicros(to))
            <==> exists t: int :: from <= t < to && Covers(job, t)
  {
    var c: nat, d: nat :| Spans(job, c, d);
    SpanTest(job, c, d, from, to);
    SpansMeet(job, c, d, from, to);
  }

  lemma NewIsDisjoint(old0: StoredJob, job: StoredJob, from: nat, to: nat)
    requires Dated(old0) && Spans(job, from, to)
    requires !TextOverlaps(old0, job.request.profileId, job.from, job.to)
    ensures Disjoint(old0, job)
  {
    if old0.request.profileId == job.request.profileId {
      TextTestIsExact(old0, job.request.profileId, from, to);
      forall t: int ensures !(Covers(old0, t) && Covers(job, t)) {
        SpanCovers(job, from, to, t);
      }
    }
  }

  lemma NewIsApart(jobs: seq<StoredJob>, job: StoredJob)
    requires Apart(jobs) && Dated(job)
    requires forall i :: 0 <= i < |jobs| ==> Disjoint(jobs[i], job)
    ensures Apart(jobs + [job])
  {
    AllAppend(jobs, job, one => Dated(one));
    PairsAppend(jobs, job, (one, other) => Disjoint(one, other));
  }

  lemma AllAppend<T(!new)>(all: seq<T>, x: T, p: T -> bool)
    requires (forall i :: 0 <= i < |all| ==> p(all[i])) && p(x)
    ensures forall i :: 0 <= i < |all + [x]| ==> p((all + [x])[i])
  {
  }

  lemma PairsAppend<T(!new)>(all: seq<T>, x: T, p: (T, T) -> bool)
    requires forall i, j :: 0 <= i < j < |all| ==> p(all[i], all[j])
    requires forall i :: 0 <= i < |all| ==> p(all[i], x)
    ensures forall i, j :: 0 <= i < j < |all + [x]| ==> p((all + [x])[i], (all + [x])[j])
  {
  }

  lemma BeginRanged(s: State, request: StartRequest, actor: string, env: BeginEnv)
    requires Ranged(s)
    ensures Ranged(Begin(s, request, actor, env).0)
  {
    var from, to := UtcMicros(request.from), UtcMicros(request.to);
    if to.Some? {
      AcceptedBelow(request.to);
    }
  }

  lemma NoOverlap(jobs: seq<StoredJob>, job: StoredJob, from: nat, to: nat)
    requires Apart(jobs) && Spans(job, from, to)
    requires !AnyOverlap(jobs, job.request.profileId, job.from, job.to)
    ensures Apart(jobs + [job])
  {
    forall i | 0 <= i < |jobs| ensures Disjoint(jobs[i], job) {
      assert !TextOverlaps(jobs[i], job.request.profileId, job.from, job.to);
      NewIsDisjoint(jobs[i], job, from, to);
    }
    NewIsApart(jobs, job);
  }

  lemma NewIsUnique(jobs: seq<StoredJob>, job: StoredJob)
    requires UniqueIds(jobs) && ReadJob(jobs, job.request.id).None?
    requires OneOpen(jobs) && ActiveAt(jobs) == |jobs|
    ensures UniqueIds(jobs + [job]) && OneOpen(jobs + [job])
  {
    ReadJobMeans(jobs, job.request.id);
  }

  lemma FinishRanged(s: State, env: FinishEnv)
    requires Ranged(s)
    ensures Ranged(Finish(s, env).0)
  {
    if s.pending.Some? {
      var review := s.pending.value;
      var job := StoredJob(review.request, review.actor, IsoMicros(review.from), IsoMicros(review.to), Running);
      if Finish(s, env).1 == Status(job) {
        StoreNew(s.jobs, job);
        NewIsUnique(s.jobs, job);
        NoOverlap(s.jobs, job, review.from, review.to);
      }
    }
  }

  lemma SettleRanged(s: State, state: JobState)
    requires Ranged(s)
    ensures Ranged(Settle(s, state))
  {
    var i := ActiveAt(s.jobs);
    if i < |s.jobs| && s.jobs[i].state == Running {
      var job := s.jobs[i].(state := state);
      StoreKnown(s.jobs, job, i);
      SettledApart(s.jobs, i, job);
      SettledUnique(s.jobs, i, job);
      assert s.pending.None?;
    }
  }

  lemma SettledUnique(jobs: seq<StoredJob>, i: nat, job: StoredJob)
    requires UniqueIds(jobs) && OneOpen(jobs) && i < |jobs| && jobs[i].state == Running
    requires job == jobs[i].(state := job.state)
    ensures UniqueIds(jobs[i := job]) && OneOpen(jobs[i := job])
  {
  }

  /** Only the texts of the ranges decide what is disjoint. */
  lemma SameTexts(a: StoredJob, b: StoredJob, c: StoredJob, d: StoredJob)
    requires Disjoint(a, b) && c == a.(state := c.state) && d == b.(state := d.state)
    ensures Disjoint(c, d)
  {
    if c.request.profileId == d.request.profileId {
      forall t: int ensures !(Covers(c, t) && Covers(d, t)) {
        assert !(Covers(a, t) && Covers(b, t));
      }
    }
  }

  lemma SettledDated(was: StoredJob, job: StoredJob)
    requires Dated(was) && job == was.(state := job.state)
    ensures Dated(job)
  {
    var c: nat, d: nat :| Spans(was, c, d);
    assert Spans(job, c, d);
  }

  lemma SettledApart(jobs: seq<StoredJob>, i: nat, job: StoredJob)
    requires Apart(jobs) && i < |jobs| && job == jobs[i].(state := job.state)
    ensures Apart(jobs[i := job])
  {
    var next := jobs[i := job];
    forall k | 0 <= k < |next| ensures Dated(next[k]) {
      SettledDated(jobs[k], next[k]);
    }
    SettledPairs(jobs, next);
  }

  lemma SettledPairs(jobs: seq<StoredJob>, next: seq<StoredJob>)
    requires forall k, l :: 0 <= k < l < |jobs| ==> Disjoint(jobs[k], jobs[l])
    requires |next| == |jobs| && forall k :: 0 <= k < |jobs| ==> next[k] == jobs[k].(state := next[k].state)
    ensures forall k, l :: 0 <= k < l < |next| ==> Disjoint(next[k], next[l])
  {
    forall k, l | 0 <= k < l < |next| ensures Disjoint(next[k], next[l]) {
      SameTexts(jobs[k], jobs[l], next[k], next[l]);
    }
  }

  lemma NextRanged(s: State, step: Step)
    requires Ranged(s)
    ensures Ranged(Next(s, step))
  {
    match step
    case DoBegin(request, actor, env) => BeginRanged(s, request, actor, env);
    case DoFinish(env) => FinishRanged(s, env);
    case DoSettle(state) => SettleRanged(s, state);
    case _ =>
  }

  ghost function Run(s: State, steps: seq<Step>): State
    requires Ranged(s)
    decreases |steps|
  {
    if steps == [] then s
    else
      NextRanged(s, steps[0]);
      Run(Next(s, steps[0]), steps[1..])
  }

  lemma {:induction false} RunRanged(s: State, steps: seq<Step>)
    requires Ranged(s)
    ensures Ranged(Run(s, steps))
    decreases |steps|
  {
    if steps != [] {
      NextRanged(s, steps[0]);
      RunRanged(Next(s, steps[0]), steps[1..]);
    }
  }

  const EMPTY: State := State([], None, false, false)

  /** In every run at most one stored job is open, and two jobs of one profile share no instant. */
  lemma RangesAreDisjoint(steps: seq<Step>, i: nat, j: nat)
    requires i < j < |Run(EMPTY, steps).jobs|
    ensures var jobs := Run(EMPTY, steps).jobs;
            && (jobs[i].state == Completed || jobs[j].state == Completed)
            && jobs[i].request.id != jobs[j].request.id
            && (jobs[i].request.profileId == jobs[j].request.profileId ==>
                  forall t: int :: !(Covers(jobs[i], t) && Covers(jobs[j], t)))
  {
    RunRanged(EMPTY, steps);
    var jobs := Run(EMPTY, steps).jobs;
    assert Disjoint(jobs[i], jobs[j]);
  }

  /** A stored job of the profile shares an instant with the range. */
  ghost predicate Shares(jobs: seq<StoredJob>, profileId: string, from: nat, to: nat) {
    exists i, t: int :: 0 <= i < |jobs| && jobs[i].request.profileId == profileId && from <= t < to && Covers(jobs[i], t)
  }

  lemma QueryIsExact(jobs: seq<StoredJob>, profileId: string, from: nat, to: nat)
    requires Apart(jobs) && from < to < YEAR_10000
    ensures AnyOverlap(jobs, profileId, IsoMicros(from), IsoMicros(to)) <==> Shares(jobs, profileId, from, to)
  {
    var a, b := IsoMicros(from), IsoMicros(to);
    if AnyOverlap(jobs, profileId, a, b) {
      var i :| 0 <= i < |jobs| && TextOverlaps(jobs[i], profileId, a, b);
      TextTestIsExact(jobs[i], profileId, from, to);
      FoundShares(jobs, profileId, from, to, i);
    }
    if Shares(jobs, profileId, from, to) {
      var i := SharedAt(jobs, profileId, from, to);
      TextTestIsExact(jobs[i], profileId, from, to);
    }
  }

  lemma FoundShares(jobs: seq<StoredJob>, profileId: string, from: nat, to: nat, i: nat)
    requires i < |jobs| && jobs[i].request.profileId == profileId
    requires exists t: int :: from <= t < to && Covers(jobs[i], t)
    ensures Shares(jobs, profileId, from, to)
  {
    var t: int :| from <= t < to && Covers(jobs[i], t);
  }

  lemma SharedAt(jobs: seq<StoredJob>, profileId: string, from: nat, to: nat) returns (i: nat)
    requires Shares(jobs, profileId, from, to)
    ensures i < |jobs| && jobs[i].request.profileId == profileId
    ensures exists t: int :: from <= t < to && Covers(jobs[i], t)
  {
    var j, t: int :| 0 <= j < |jobs| && jobs[j].request.profileId == profileId && from <= t < to && Covers(jobs[j], t);
    i := j;
  }

  /** Starting a reviewed range is refused for an overlap exactly when a stored job of the profile shares an instant. */
  lemma OverlapIsRefused(s: State, env: FinishEnv)
    requires Ranged(s) && s.pending.Some? && !s.stopped
    requires env.reviewed && env.previewSame && env.canWrite && env.contractSame
    ensures var review := s.pending.value;
            Finish(s, env).1 == RangeOverlap <==> Shares(s.jobs, review.request.profileId, review.from, review.to)
  {
    var review := s.pending.value;
    QueryIsExact(s.jobs, review.request.profileId, review.from, review.to);
  }

  lemma {:induction false} JobFound(jobs: seq<StoredJob>, job: StoredJob)
    requires UniqueIds(jobs) && job in jobs
    ensures ReadJob(jobs, job.request.id) == Some(job)
  {
    if jobs[0] != job {
      var k :| 0 <= k < |jobs| && jobs[k] == job;
      assert jobs[1..][k - 1] == job;
      assert forall i :: 0 <= i < |jobs| - 1 ==> jobs[1..][i] == jobs[i + 1];
      JobFound(jobs[1..], job);
    }
  }

  /** A start that is repeated as it was finds its job and changes nothing; with another body it is refused. */
  lemma RetriedStart(s: State, job: StoredJob, request: StartRequest, actor: string, env: BeginEnv)
    requires Ranged(s) && job in s.jobs && job.request.id == request.id && !s.stopped
    ensures Begin(s, request, actor, env)
         == (s, if job.request == request && job.actor == actor then Status(job) else IdConflict)
  {
    JobFound(s.jobs, job);
  }

  /** The job store and the guard of a start that is under review. */
  class ImportStore {
    var jobs: seq<StoredJob>
    var pending: Option<Review>
    var stopped: bool
    var faulted: bool

    ghost function AsState(): State
      reads this
    {
      State(jobs, pending, stopped, faulted)
    }

    /** Construction over the rows that an earlier process left. */
    constructor (jobs: seq<StoredJob>)
      ensures AsState() == State(jobs, None, false, false)
    {
      this.jobs, pending, stopped, faulted := jobs, None, false, false;
    }

    /** start up to its review. */
    method BeginStart(request: StartRequest, actor: string, env: BeginEnv) returns (reply: Reply)
      modifies this`pending
      ensures (AsState(), reply) == Begin(old(AsState()), request, actor, env)
    {
      if stopped {
        return NotReady;
      }
      var previous := ReadJob(jobs, request.id);
      if previous.Some? {
        if previous.value.request != request || previous.value.actor != actor {
          return IdConflict;
        }
        return Status(previous.value);
      }
      if faulted || pending.Some? || ActiveAt(jobs) < |jobs| || !env.canWrite {
        return NotReady;
      }
      if env.previewBusy {
        return Refused(409);
      }
      if !env.profileKnown {
        return Refused(404);
      }
      var from, to := UtcMicros(request.from), UtcMicros(request.to);
      if from.None? || to.None? || !ValidRange(from.value, to.value, env.nowMs) {
        return Refused(400);
      }
      pending := Some(Review(request, actor, from.value, to.value));
      return Reviewing;
    }

    /** The query for an overlapping job, row by row. */
    method FindOverlap(profileId: string, from: string, to: string) returns (found: bool)
      ensures found == AnyOverlap(jobs, profileId, from, to)
    {
      for i := 0 to |jobs|
        invariant !AnyOverlap(jobs[..i], profileId, from, to)
      {
        if TextOverlaps(jobs[i], profileId, from, to) {
          return true;
        }
        assert jobs[..i + 1] == jobs[..i] + [jobs[i]];
      }
      assert jobs[..|jobs|] == jobs;
      return false;
    }

    /** The rest of start. */
    method FinishStart(env: FinishEnv) returns (reply: Reply)
      requires pending.Some? && pending.value.from < YEAR_10000 && pending.value.to < YEAR_10000
      modifies this
      ensures (AsState(), reply) == Finish(old(AsState()), env)
    {
      var review := pending.value;
      pending := None;
      if !env.reviewed {
        return Refused(503);
      }
      if !env.previewSame {
        return Stale;
      }
      if stopped || !env.canWrite {
        return NotReady;
      }
      if !env.contractSame {
        return ContractChanged;
      }
      var from, to := IsoMicros(review.from), IsoMicros(review.to);
      var overlapping := FindOverlap(review.request.profileId, from, to);
      if overlapping {
        return RangeOverlap;
      }
      var job := StoredJob(review.request, review.actor, from, to, Running);
      jobs := Store(jobs, job);
      return Status(job);
    }
  }
}
