/** The two tables of the target journal that hold events: `queue`, kept in key order, and `totals`, the cached
    counters of each destination table, kept in target order. */
module JournalRows {
  import opened Common

  /** One journal part. `birth` numbers admissions and is never reused; `key` (the column seq) may be, after a receipt is deleted. */
  datatype Row = Row(
    key: nat, id: string, target: string, topic: string, payload: string, legacyKey: Option<string>,
    confirmed: bool, attempts: nat, bytes: nat, retryAt: int, inWrite: bool, birth: nat)

  datatype Total = Total(target: string, pending: int, bytes: int, failures: nat, retrying: int)

  /** What a row contributes to a counter. */
  datatype Measure =
    | Pending(target: string)
    | Bytes(target: string)
    | Retrying(target: string)
    | Interrupted(target: string)
    | AllBytes
    | NewerReceipts(key: nat)

  predicate IsReceipt(r: Row) {
    r.confirmed && r.legacyKey.None?
  }

  function Weight(m: Measure, r: Row): nat {
    match m
    case Pending(t) => if !r.confirmed && r.target == t then 1 else 0
    case Bytes(t) => if !r.confirmed && r.target == t then r.bytes else 0
    case Retrying(t) => if !r.confirmed && r.target == t && r.attempts > 0 then 1 else 0
    case Interrupted(t) => if !r.confirmed && r.target == t && r.attempts == 0 && r.inWrite then 1 else 0
    case AllBytes => if !r.confirmed then r.bytes else 0
    case NewerReceipts(n) => if IsReceipt(r) && r.key > n then 1 else 0
  }

  function Sum(q: seq<Row>, m: Measure): nat {
    if q == [] then 0 else Weight(m, q[0]) + Sum(q[1..], m)
  }

  /** Primary key order and the UNIQUE constraints on id and admission number. */
  ghost predicate WellKeyed(q: seq<Row>) {
    && (forall i, j :: 0 <= i < j < |q| ==> q[i].key < q[j].key)
    && (forall i, j :: 0 <= i < j < |q| ==> q[i].id != q[j].id)
    && (forall i, j :: 0 <= i < j < |q| ==> q[i].birth != q[j].birth)
  }

  /** SQLite gives a new row the largest key plus one. */
  function NextSeq(q: seq<Row>): nat {
    if q == [] then 1 else q[|q| - 1].key + 1
  }

  predicate HasId(q: seq<Row>, id: string) {
    exists i :: 0 <= i < |q| && q[i].id == id
  }

  predicate IsConfirmed(q: seq<Row>, id: string) {
    exists i :: 0 <= i < |q| && q[i].id == id && q[i].confirmed
  }

  /** The position of the row with this key. */
  function Find(q: seq<Row>, key: nat): (i: Option<nat>)
    ensures i.Some? ==> i.value < |q| && q[i.value].key == key
    ensures i.None? ==> forall k :: 0 <= k < |q| ==> q[k].key != key
  {
    if q == [] then None
    else if q[0].key == key then Some(0)
    else match Find(q[1..], key)
      case None => None
      case Some(k) => Some(k + 1)
  }

  /** UPDATE ... WHERE seq = row.key. */
  function Replace(q: seq<Row>, row: Row): (r: seq<Row>)
    ensures |r| == |q|
  {
    match Find(q, row.key)
    case None => q
    case Some(i) => q[i := row]
  }

  /** DELETE of every row whose key is in `dropped`. */
  function Keep(q: seq<Row>, dropped: set<nat>): (r: seq<Row>)
    ensures |r| <= |q|
  {
    if q == [] then []
    else if q[0].key in dropped then Keep(q[1..], dropped)
    else [q[0]] + Keep(q[1..], dropped)
  }

  lemma {:induction false} SumAppend(a: seq<Row>, b: seq<Row>, m: Measure)
    ensures Sum(a + b, m) == Sum(a, m) + Sum(b, m)
  {
    if a == [] {
      assert a + b == b;
    } else {
      assert (a + b)[1..] == a[1..] + b;
      SumAppend(a[1..], b, m);
    }
  }

  lemma {:induction false} SumUpdate(q: seq<Row>, i: nat, r: Row, m: Measure)
    requires i < |q|
    ensures Sum(q[i := r], m) == Sum(q, m) - Weight(m, q[i]) + Weight(m, r)
  {
    if i == 0 {
      assert q[0 := r][1..] == q[1..];
    } else {
      assert q[i := r][1..] == q[1..][i - 1 := r];
      SumUpdate(q[1..], i - 1, r, m);
    }
  }

  /** Rows that weigh nothing can be deleted without changing a counter. */
  lemma {:induction false} SumKeep(q: seq<Row>, dropped: set<nat>, m: Measure)
    requires forall r :: r in q && r.key in dropped ==> Weight(m, r) == 0
    ensures Sum(Keep(q, dropped), m) == Sum(q, m)
  {
    if q != [] {
      forall r | r in q[1..] && r.key in dropped ensures Weight(m, r) == 0 {}
      SumKeep(q[1..], dropped, m);
      if q[0].key !in dropped {
        assert ([q[0]] + Keep(q[1..], dropped))[1..] == Keep(q[1..], dropped);
      } else {
        assert q[0] in q;
      }
    }
  }

  lemma {:induction false} SumBounds(q: seq<Row>, i: nat, m: Measure)
    requires i < |q|
    ensures Weight(m, q[i]) <= Sum(q, m)
  {
    if i > 0 {
      SumBounds(q[1..], i - 1, m);
    }
  }

  /** A counter that is positive counts some row. */
  lemma {:induction false} SumWitness(q: seq<Row>, m: Measure) returns (i: nat)
    requires Sum(q, m) > 0
    ensures i < |q| && Weight(m, q[i]) > 0
  {
    if Weight(m, q[0]) > 0 {
      i := 0;
    } else {
      var j := SumWitness(q[1..], m);
      i := j + 1;
    }
  }

  lemma {:induction false} SumDominated(q: seq<Row>, a: Measure, b: Measure)
    requires forall r :: r in q ==> Weight(a, r) <= Weight(b, r)
    ensures Sum(q, a) <= Sum(q, b)
  {
    if q != [] {
      assert q[0] in q;
      forall r | r in q[1..] ensures Weight(a, r) <= Weight(b, r) {}
      SumDominated(q[1..], a, b);
    }
  }

  lemma {:induction false} KeepMembers(q: seq<Row>, dropped: set<nat>)
    ensures forall r :: r in Keep(q, dropped) <==> r in q && r.key !in dropped
  {
    if q != [] {
      KeepMembers(q[1..], dropped);
      assert q == [q[0]] + q[1..];
    }
  }

  lemma {:induction false} KeepWellKeyed(q: seq<Row>, dropped: set<nat>)
    requires WellKeyed(q)
    ensures WellKeyed(Keep(q, dropped))
  {
    if q != [] {
      TailWellKeyed(q);
      KeepWellKeyed(q[1..], dropped);
      KeepMembers(q[1..], dropped);
      if q[0].key !in dropped {
        ConsWellKeyed(q[0], Keep(q[1..], dropped));
      }
    }
  }

  lemma TailWellKeyed(q: seq<Row>)
    requires WellKeyed(q) && q != []
    ensures WellKeyed(q[1..])
    ensures forall r :: r in q[1..] ==> q[0].key < r.key && q[0].id != r.id && q[0].birth != r.birth
  {
    var t := q[1..];
    assert forall i :: 0 <= i < |t| ==> t[i] == q[i + 1];
  }

  lemma ConsWellKeyed(head: Row, tail: seq<Row>)
    requires WellKeyed(tail)
    requires forall r :: r in tail ==> head.key < r.key && head.id != r.id && head.birth != r.birth
    ensures WellKeyed([head] + tail)
  {
    var q := [head] + tail;
    assert forall i :: 0 < i < |q| ==> q[i] == tail[i - 1] && q[i] in tail;
  }

  lemma AppendWellKeyed(q: seq<Row>, r: Row)
    requires WellKeyed(q)
    requires r.key == NextSeq(q) && !HasId(q, r.id)
    requires forall k :: 0 <= k < |q| ==> q[k].birth < r.birth
    ensures WellKeyed(q + [r])
  {
  }

  lemma UpdateWellKeyed(q: seq<Row>, i: nat, r: Row)
    requires WellKeyed(q) && i < |q|
    requires r.key == q[i].key && r.id == q[i].id && r.birth == q[i].birth
    ensures WellKeyed(q[i := r])
  {
    var u := q[i := r];
    assert forall k :: 0 <= k < |q| ==> u[k].key == q[k].key && u[k].id == q[k].id && u[k].birth == q[k].birth;
  }

  /** In a well keyed queue an update touches exactly one position. */
  lemma ReplaceAt(q: seq<Row>, i: nat, row: Row)
    requires WellKeyed(q) && i < |q| && q[i].key == row.key
    ensures Find(q, row.key) == Some(i)
    ensures Replace(q, row) == q[i := row]
  {
  }

  // Totals.

  ghost predicate Ordered(ts: seq<Total>) {
    forall i, j :: 0 <= i < j < |ts| ==> Less(ts[i].target, ts[j].target)
  }

  /** The row of a target, or zero counters when it has none. */
  function Lookup(ts: seq<Total>, target: string): (t: Total)
    ensures t.target == target
  {
    if ts == [] then Total(target, 0, 0, 0, 0)
    else if ts[0].target == target then ts[0]
    else Lookup(ts[1..], target)
  }

  /** INSERT ... ON CONFLICT(target) DO UPDATE, keeping primary key order. */
  function Put(ts: seq<Total>, t: Total): (r: seq<Total>) {
    if ts == [] then [t]
    else if ts[0].target == t.target then [t] + ts[1..]
    else if Less(t.target, ts[0].target) then [t] + ts
    else [ts[0]] + Put(ts[1..], t)
  }

  function TotalBytes(ts: seq<Total>): int {
    if ts == [] then 0 else ts[0].bytes + TotalBytes(ts[1..])
  }

  predicate Listed(ts: seq<Total>, target: string) {
    exists i :: 0 <= i < |ts| && ts[i].target == target
  }

  lemma {:induction false} PutOrdered(ts: seq<Total>, t: Total)
    requires Ordered(ts)
    ensures Ordered(Put(ts, t))
    ensures forall x :: x in Put(ts, t) ==> x == t || x in ts
  {
    if ts == [] {
    } else if ts[0].target == t.target {
    } else if Less(t.target, ts[0].target) {
      forall k | 0 <= k < |ts| ensures Less(t.target, ts[k].target) {
        if k > 0 { LessTransitive(t.target, ts[0].target, ts[k].target); }
      }
    } else {
      LessTotal(t.target, ts[0].target);
      PutOrdered(ts[1..], t);
      var rest := Put(ts[1..], t);
      forall k | 0 <= k < |rest| ensures Less(ts[0].target, rest[k].target) {
        assert rest[k] in rest;
        if rest[k] != t {
          var n :| 0 <= n < |ts[1..]| && ts[1..][n] == rest[k];
          assert ts[n + 1] == rest[k];
        }
      }
    }
  }

  lemma {:induction false} PutLookup(ts: seq<Total>, t: Total, target: string)
    requires Ordered(ts)
    ensures Lookup(Put(ts, t), target) == if target == t.target then t else Lookup(ts, target)
    ensures TotalBytes(Put(ts, t)) == TotalBytes(ts) - Lookup(ts, t.target).bytes + t.bytes
  {
    if ts == [] {
    } else if ts[0].target == t.target {
    } else if Less(t.target, ts[0].target) {
      assert Put(ts, t)[1..] == ts;
      LookupBelow(ts, t.target);
    } else {
      PutLookup(ts[1..], t, target);
      assert Put(ts, t)[1..] == Put(ts[1..], t);
    }
  }

  lemma {:induction false} LookupBelow(ts: seq<Total>, target: string)
    requires Ordered(ts)
    requires ts != [] ==> Less(target, ts[0].target)
    ensures Lookup(ts, target) == Total(target, 0, 0, 0, 0)
  {
    if ts != [] {
      LessIrreflexive(target);
      if |ts| > 1 {
        LessTransitive(target, ts[0].target, ts[1].target);
      }
      LookupBelow(ts[1..], target);
    }
  }

  lemma {:induction false} LookupMember(ts: seq<Total>, target: string)
    ensures Lookup(ts, target) in ts || Lookup(ts, target) == Total(target, 0, 0, 0, 0)
  {
    if ts != [] && ts[0].target != target {
      LookupMember(ts[1..], target);
    }
  }
}
