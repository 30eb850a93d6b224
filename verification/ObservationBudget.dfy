/** The journal has observed whatever it holds, and observes a limited number of pairs: so many tables can wait at most. */
module ObservationBudget {
  import opened Common
  import opened JournalRows
  import opened JournalModel
  import opened JournalInvariant
  import opened JournalParts
  import opened ReplayFairness

  ghost predicate HoldsObserved(db: Store) {
    && |db.observations| <= OBSERVATION_BUDGET
    && forall r :: r in db.queue ==> (r.topic, r.target) in db.observations
  }

  lemma ObserveHolds(db: Store, topic: string, target: string)
    requires HoldsObserved(db)
    ensures var next := Observe(db, topic, target);
            next.Some? ==> HoldsObserved(next.value) && (topic, target) in next.value.observations
                           && next.value.queue == db.queue
  {
  }

  lemma AdmitOneHolds(limits: Limits, db: Store, s: Submission)
    requires HoldsObserved(db)
    ensures var next := AdmitOne(limits, db, s);
            next.Some? ==> HoldsObserved(next.value)
  {
    ObserveHolds(db, s.entry.topic, s.entry.table);
  }

  lemma {:induction false} AdmitAllHolds(limits: Limits, db: Store, batch: seq<Submission>)
    requires HoldsObserved(db)
    ensures var next := AdmitAll(limits, db, batch);
            next.Some? ==> HoldsObserved(next.value)
    decreases |batch|
  {
    if batch != [] {
      AdmitOneHolds(limits, db, batch[0]);
      var next := AdmitOne(limits, db, batch[0]);
      if next.Some? {
        AdmitAllHolds(limits, next.value, batch[1..]);
      }
    }
  }

  lemma SamePartsHold(db: Store, next: Store)
    requires HoldsObserved(db) && SameParts(db.queue, next.queue) && next.observations == db.observations
    ensures HoldsObserved(next)
  {
    forall r | r in next.queue ensures (r.topic, r.target) in next.observations {
      var i :| 0 <= i < |next.queue| && next.queue[i] == r;
      assert db.queue[i] in db.queue;
    }
  }

  lemma DropHolds(s: State, dropped: set<nat>)
    requires HoldsObserved(s.db)
    ensures HoldsObserved(Drop(s, dropped).db)
  {
    KeepMembers(s.db.queue, dropped);
  }

  lemma NextHolds(limits: Limits, s: State, step: Step)
    requires HoldsObserved(s.db)
    ensures HoldsObserved(Next(limits, s, step).db)
  {
    if step.DoAdmit? {
      AdmitAllHolds(limits, s.db, step.batch);
    } else if DropsReceipts(step) {
      match step
      case DoAcknowledge(ids) => DropHolds(s, Acknowledged(s.db.queue, ids));
      case DoAcknowledgeLegacy(key) => DropHolds(s, AcknowledgedLegacy(s.db.queue, key));
      case DoTrim => DropHolds(s, Expired(s.db.queue));
    } else {
      if WorksFlight(step) {
        WriteParts(limits, s, step);
      } else {
        RestParts(limits, s, step);
      }
      SamePartsHold(s.db, Next(limits, s, step).db);
    }
  }

  lemma {:induction false} RunHolds(limits: Limits, s: State, steps: seq<Step>)
    requires HoldsObserved(s.db)
    ensures HoldsObserved(Run(limits, s, steps).db)
    decreases |steps|
  {
    if steps != [] {
      NextHolds(limits, s, steps[0]);
      RunHolds(limits, Next(limits, s, steps[0]), steps[1..]);
    }
  }

  lemma {:induction false} PairsBound(targets: seq<string>, pairs: set<(string, string)>)
    requires Ascending(targets) && forall t :: t in targets ==> exists p :: p in pairs && p.1 == t
    ensures |targets| <= |pairs|
  {
    if targets != [] {
      var n := |targets| - 1;
      assert targets[n] in targets;
      var p :| p in pairs && p.1 == targets[n];
      forall t | t in targets[..n] ensures exists q :: q in pairs - {p} && q.1 == t {
        var i :| 0 <= i < n && targets[i] == t;
        LessIrreflexive(t);
        assert t in targets;
        var q :| q in pairs && q.1 == t;
        assert q in pairs - {p};
      }
      PairsBound(targets[..n], pairs - {p});
    }
  }

  /** So in every run at most so many targets wait. */
  lemma WaitingWithinBudget(s: State, targets: seq<string>)
    requires HoldsObserved(s.db) && Ascending(targets) && forall t :: t in targets ==> Waits(s, t)
    ensures |targets| <= OBSERVATION_BUDGET
  {
    forall t | t in targets ensures exists p :: p in s.db.observations && p.1 == t {
      var r :| r in s.db.queue && !r.confirmed && r.target == t;
      assert (r.topic, r.target) in s.db.observations;
    }
    PairsBound(targets, s.db.observations);
  }
}
