/** When an import may start: the guards of both sections of a start, said of stored jobs and instants. */
module HistoricalStarts {
  import opened Common
  import opened UtcInstants
  import opened HistoricalJobs

  ghost predicate IsKnown(jobs: seq<StoredJob>, id: string) {
    exists i :: 0 <= i < |jobs| && jobs[i].request.id == id
  }

  ghost predicate AllCompleted(jobs: seq<StoredJob>) {
    forall i :: 0 <= i < |jobs| ==> jobs[i].state == Completed
  }

  /** Both instants are written as such, the range is not empty, no longer than 31 days, and does not reach beyond now. */
  predicate Acceptable(request: StartRequest, nowMs: int) {
    var from, to := UtcMicros(request.from), UtcMicros(request.to);
    && from.Some? && to.Some? && 0 <= from.value < to.value && to.value - from.value <= 2_678_400_000_000
    && to.value <= nowMs * 1000
  }

  /** A start that is not on record is reviewed exactly if nothing keeps the service from it and its range is acceptable;
      and the status of each refusal. */
  lemma BeginExactly(s: State, request: StartRequest, actor: string, env: BeginEnv)
    requires !IsKnown(s.jobs, request.id)
    ensures var (next, reply) := Begin(s, request, actor, env);
            var ready := !s.stopped && !s.faulted && s.pending.None? && AllCompleted(s.jobs) && env.canWrite;
            && (reply == NotReady <==> !ready)
            && (reply == Refused(409) <==> ready && env.previewBusy)
            && (reply == Refused(404) <==> ready && !env.previewBusy && !env.profileKnown)
            && (reply == Refused(400) <==>
                  ready && !env.previewBusy && env.profileKnown && !Acceptable(request, env.nowMs))
            && (reply == Reviewing <==> ready && !env.previewBusy && env.profileKnown && Acceptable(request, env.nowMs))
            && (reply != Reviewing ==> next == s)
            && (reply == Reviewing ==>
                  next == s.(pending := Some(Review(request, actor, UtcMicros(request.from).value,
                                                    UtcMicros(request.to).value))))
  {
    ReadJobMeans(s.jobs, request.id);
  }

  /** A reviewed start is stored, as the last job and running, exactly if the review agreed, the preview and the contract
      are the same, the service may still write, and no stored job of the profile shares an instant with the range; and
      what each refusal is. Whatever the answer, the review is over. */
  lemma FinishExactly(s: State, env: FinishEnv)
    requires Ranged(s) && s.pending.Some?
    ensures var (next, reply) := Finish(s, env);
            var review := s.pending.value;
            var open := !s.stopped && env.canWrite;
            var shared := Shares(s.jobs, review.request.profileId, review.from, review.to);
            var job := StoredJob(review.request, review.actor, IsoMicros(review.from), IsoMicros(review.to), Running);
            && (reply == Refused(503) <==> !env.reviewed)
            && (reply == Stale <==> env.reviewed && !env.previewSame)
            && (reply == NotReady <==> env.reviewed && env.previewSame && !open)
            && (reply == ContractChanged <==> env.reviewed && env.previewSame && open && !env.contractSame)
            && (reply == RangeOverlap <==> env.reviewed && env.previewSame && open && env.contractSame && shared)
            && (reply == Status(job) <==> env.reviewed && env.previewSame && open && env.contractSame && !shared)
            && next == s.(pending := None, jobs := if reply == Status(job) then s.jobs + [job] else s.jobs)
  {
    var review := s.pending.value;
    QueryIsExact(s.jobs, review.request.profileId, review.from, review.to);
    StoreNew(s.jobs, StoredJob(review.request, review.actor, IsoMicros(review.from), IsoMicros(review.to), Running));
  }

  lemma OthersCompleted(jobs: seq<StoredJob>, at: nat)
    requires OneOpen(jobs) && at < |jobs| && jobs[at].state != Completed
    ensures forall i :: 0 <= i < |jobs| && i != at ==> jobs[i].state == Completed
  {
  }

  /** The running job takes the state that its import reports; a blocked or completed one keeps its own. */
  lemma SettleExactly(s: State, state: JobState)
    requires UniqueIds(s.jobs) && OneOpen(s.jobs)
    ensures var next := Settle(s, state);
            && |next.jobs| == |s.jobs| && next == s.(jobs := next.jobs)
            && forall i :: 0 <= i < |s.jobs| ==>
                 next.jobs[i] == if s.jobs[i].state == Running then s.jobs[i].(state := state) else s.jobs[i]
  {
    var jobs, at := s.jobs, ActiveAt(s.jobs);
    if at < |jobs| {
      OthersCompleted(jobs, at);
      if jobs[at].state == Running {
        StoreKnown(jobs, jobs[at].(state := state), at);
      }
    }
  }

  /** A restart keeps the jobs and ends a review, a stop and a fault; each of these is set by its own step alone. */
  lemma ServiceExactly(s: State)
    requires Ranged(s)
    ensures Next(s, DoRestart) == State(s.jobs, None, false, false)
    ensures Next(s, DoStop) == s.(stopped := true) && Next(s, DoFault) == s.(faulted := true)
  {
  }
}
