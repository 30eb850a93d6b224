/** Bounded passes over one directory with a cursor that is kept between them. */
module DirectoryScans {
  import opened Common

  datatype Answer = Continue | Break | Throw

  /** Limits as they are given: None is no safe integer, or no finite number. */
  datatype ScanLimits = ScanLimits(maxEntries: Option<int>, maxDurationMs: Option<real>)

  datatype Outcome = Passed(entriesVisited: nat, complete: bool) | InvalidLimits | VisitorThrew | ReadFailed

  predicate ValidLimits(limits: ScanLimits) {
    && limits.maxEntries.Some? && limits.maxEntries.value > 0
    && limits.maxDurationMs.Some? && limits.maxDurationMs.value > 0.0
  }

  /** What a pass meets besides the names: whether the directory opens, the visitor, and at each turn whether the next
      entry can be read, the time that has passed, and whether the pass is asked to stop. */
  datatype Surroundings = Surroundings(
    opens: bool, readable: nat -> bool, visit: string -> Answer, elapsed: nat -> real, stop: nat -> bool)

  /** Whether a pass that has visited `n` entries goes on to the next: it is not asked to stop and within its limits. */
  predicate GoesOn(limits: ScanLimits, around: Surroundings, n: nat) {
    ValidLimits(limits) && !around.stop(n) && n < limits.maxEntries.value && around.elapsed(n) < limits.maxDurationMs.value
  }

  class BoundedDirectoryScan {
    /** The names that a traversal yields, in its order, as long as nobody changes the directory. */
    const listing: seq<string>
    var cursor: Option<nat>
    var closed: bool

    ghost predicate Valid()
      reads this
    {
      cursor.Some? ==> cursor.value <= |listing|
    }

    /** Where the next entry is read. */
    function Position(): nat
      reads this
    {
      if cursor.Some? then cursor.value else 0
    }

    constructor (listing: seq<string>)
      ensures Valid() && this.listing == listing && cursor == None && !closed
    {
      this.listing, cursor, closed := listing, None, false;
    }

    /** One pass: it visits the entries that follow the cursor, within its limits, and leaves the cursor behind them;
        complete means that the listing is exhausted. An error closes the cursor. */
    method Pass(limits: ScanLimits, around: Surroundings) returns (outcome: Outcome, seen: seq<string>)
      requires Valid()
      modifies this`cursor
      ensures Valid()
      ensures closed ==> outcome == Passed(0, false) && cursor == old(cursor)
      ensures !closed ==> (outcome == InvalidLimits <==> !ValidLimits(limits))
      ensures outcome.InvalidLimits? ==> cursor == old(cursor) && seen == []
      ensures old(Position()) + |seen| <= |listing| && seen == listing[old(Position())..old(Position()) + |seen|]
      ensures outcome.Passed? ==>
                && outcome.entriesVisited == |seen|
                && (outcome.complete ==> old(Position()) + |seen| == |listing| && cursor == None)
                && (!outcome.complete ==>
                      cursor == Some(old(Position()) + |seen|) || (seen == [] && cursor == old(cursor)))
      ensures outcome.Passed? && !closed ==> |seen| <= limits.maxEntries.value
      ensures outcome.VisitorThrew? ==> seen != [] && around.visit(seen[|seen| - 1]) == Throw && cursor == None
      ensures outcome.ReadFailed? ==> cursor == None
      ensures forall i :: 0 <= i < |seen| - 1 ==> around.visit(seen[i]) == Continue
      ensures !outcome.VisitorThrew? && seen != [] ==> around.visit(seen[|seen| - 1]) != Throw
      ensures forall i :: 0 <= i < |seen| ==> GoesOn(limits, around, i) && around.readable(i)
      ensures outcome.ReadFailed? ==>
                (old(cursor).None? && !around.opens && seen == [])
                || (GoesOn(limits, around, |seen|) && !around.readable(|seen|))
      ensures outcome.Passed? && !closed && !outcome.complete ==>
                !GoesOn(limits, around, |seen|) || (seen != [] && around.visit(seen[|seen| - 1]) == Break)
    {
      seen := [];
      if closed {
        return Passed(0, false), seen;
      }
      if !ValidLimits(limits) {
        return InvalidLimits, seen;
      }
      if around.stop(0) {
        return Passed(0, false), seen;
      }
      ghost var start := Position();
      if cursor.None? {
        if !around.opens {
          return ReadFailed, seen;
        }
        cursor := Some(0);
      }
      while !around.stop(|seen|) && |seen| < limits.maxEntries.value && around.elapsed(|seen|) < limits.maxDurationMs.value
        invariant Valid() && cursor == Some(start + |seen|)
        invariant seen == listing[start..start + |seen|] && |seen| <= limits.maxEntries.value
        invariant forall i :: 0 <= i < |seen| ==> around.visit(seen[i]) == Continue
        invariant forall i :: 0 <= i < |seen| ==> GoesOn(limits, around, i) && around.readable(i)
        decreases |listing| - Position()
      {
        if !around.readable(|seen|) {
          cursor := None;
          return ReadFailed, seen;
        }
        if cursor.value == |listing| {
          cursor := None;
          return Passed(|seen|, true), seen;
        }
        var entry := listing[cursor.value];
        assert listing[start..start + |seen| + 1] == listing[start..start + |seen|] + [entry];
        seen := seen + [entry];
        cursor := Some(cursor.value + 1);
        match around.visit(entry)
        case Throw =>
          cursor := None;
          return VisitorThrew, seen;
        case Break => break;
        case Continue =>
      }
      outcome := Passed(|seen|, false);
    }

    /** Any number of passes, each with its own limits and surroundings: together they have visited, each once and in
        order, the entries up to the cursor; when one of them completes, the whole listing. */
    method Passes(turns: seq<(ScanLimits, Surroundings)>) returns (complete: bool, seen: seq<string>, failed: bool)
      requires cursor == None
      modifies this`cursor
      ensures Valid()
      ensures seen <= listing
      ensures complete ==> seen == listing && cursor == None
      ensures !complete && !failed ==> Position() == |seen|
      ensures failed ==> cursor == None
    {
      complete, seen, failed := false, [], false;
      for i := 0 to |turns|
        invariant Valid() && seen <= listing && !complete && !failed && Position() == |seen|
      {
        var outcome, more := Pass(turns[i].0, turns[i].1);
        var position := |seen|;
        assert seen + more == listing[..position + |more|];
        seen := seen + more;
        if outcome.VisitorThrew? || outcome.ReadFailed? {
          return false, seen, true;
        }
        if outcome.Passed? && outcome.complete {
          return true, seen, false;
        }
      }
    }

    method Close()
      modifies this
      ensures closed && cursor == None
    {
      closed, cursor := true, None;
    }
  }
}
