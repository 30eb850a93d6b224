/** Reading a sealed source in pages behind a cursor: nothing is skipped or repeated, and a cursor that two rows share
    is found even when they fall on different pages. */
module HistoricalSource {
  import opened Common

  const MAX_PAGE_ROWS: nat := 128

  datatype Cursor = Cursor(time: int, key: string)

  /** A row of the reviewed query. A key or series that is not text is empty here; neither is accepted. */
  datatype SourceRow = SourceRow(cursor: Cursor, series: string, payload: string, convertible: bool)

  datatype Page = Rows(rows: seq<SourceRow>) | InvalidRow | NonUniqueCursor

  function Compare(a: Cursor, b: Cursor): int {
    var delta := a.time - b.time;
    if delta != 0 then (if delta < 0 then -1 else 1)
    else if Less(a.key, b.key) then -1
    else if Less(b.key, a.key) then 1
    else 0
  }

  predicate Precedes(a: Cursor, b: Cursor) {
    a.time < b.time || (a.time == b.time && Less(a.key, b.key))
  }

  lemma CompareMeans(a: Cursor, b: Cursor)
    ensures Compare(a, b) < 0 <==> Precedes(a, b)
    ensures Compare(a, b) == 0 <==> a == b
    ensures Compare(a, b) > 0 <==> Precedes(b, a)
  {
    LessTotal(a.key, b.key);
    LessIrreflexive(a.key);
    if Less(a.key, b.key) {
      LessAsymmetric(a.key, b.key);
    }
  }

  lemma PrecedesTransitive(a: Cursor, b: Cursor, c: Cursor)
    requires Precedes(a, b) && Precedes(b, c)
    ensures Precedes(a, c)
  {
    if a.time == b.time == c.time {
      LessTransitive(a.key, b.key, c.key);
    }
  }

  predicate StableKey(key: string) {
    1 <= |key| <= 512 && forall c :: c in key ==> '!' <= c <= '~'
  }

  predicate ValidRow(r: SourceRow, from: int, to: int) {
    && 0 <= r.cursor.time < 1_000_000_000_000_000_000
    && StableKey(r.cursor.key) && r.series != ""
    && from <= r.cursor.time < to
  }

  /** The WHERE clause. */
  predicate Behind(r: SourceRow, lower: Cursor) {
    r.cursor.time > lower.time || (r.cursor.time == lower.time && Less(lower.key, r.cursor.key))
  }

  function Select(table: seq<SourceRow>, lower: Cursor): seq<SourceRow> {
    if table == [] then []
    else if Behind(table[0], lower) then [table[0]] + Select(table[1..], lower)
    else Select(table[1..], lower)
  }

  /** Where a read starts: behind the cursor, or behind the start of the range with the empty key. */
  function Lower(from: int, after: Option<Cursor>): Cursor {
    if after.Some? then after.value else Cursor(from, "")
  }

  function Fetch(table: seq<SourceRow>, lower: Cursor, limit: nat): seq<SourceRow> {
    var found, n := Select(table, lower), Min(limit + 1, MAX_PAGE_ROWS + 1);
    if |found| <= n then found else found[..n]
  }

  function Check(rows: seq<SourceRow>, from: int, to: int, previous: Option<Cursor>): Page {
    if rows == [] then Rows([])
    else if !ValidRow(rows[0], from, to) then InvalidRow
    else if previous.Some? && Compare(previous.value, rows[0].cursor) >= 0 then NonUniqueCursor
    else match Check(rows[1..], from, to, Some(rows[0].cursor))
      case Rows(rest) => Rows([rows[0]] + rest)
      case error => error
  }

  function Read(table: seq<SourceRow>, from: int, to: int, after: Option<Cursor>, limit: nat): Page {
    match Check(Fetch(table, Lower(from, after), limit), from, to, after)
    case Rows(rows) => Rows(if |rows| <= limit then rows else rows[..limit])
    case error => error
  }

  /** Row `i` passes the check. */
  predicate Passes(rows: seq<SourceRow>, i: nat, from: int, to: int, previous: Option<Cursor>)
    requires i < |rows|
  {
    && ValidRow(rows[i], from, to)
    && (if i > 0 then Compare(rows[i - 1].cursor, rows[i].cursor) < 0
        else previous.Some? ==> Compare(previous.value, rows[0].cursor) < 0)
  }

  /** Rows that pass do not decide the check, the next one does. */
  lemma {:induction false} CheckPrefix(rows: seq<SourceRow>, i: nat, from: int, to: int, previous: Option<Cursor>)
    requires i <= |rows| && forall k :: 0 <= k < i ==> Passes(rows, k, from, to, previous)
    ensures i == |rows| ==> Check(rows, from, to, previous) == Rows(rows)
    ensures i < |rows| && !ValidRow(rows[i], from, to) ==> Check(rows, from, to, previous) == InvalidRow
    ensures i < |rows| && ValidRow(rows[i], from, to) && !Passes(rows, i, from, to, previous) ==>
              Check(rows, from, to, previous) == NonUniqueCursor
  {
    if i > 0 {
      var rest := rows[1..];
      assert Passes(rows, 0, from, to, previous);
      forall k | 0 <= k < |rest| && Passes(rows, k + 1, from, to, previous)
        ensures Passes(rest, k, from, to, Some(rows[0].cursor))
      {
      }
      CheckPrefix(rest, i - 1, from, to, Some(rows[0].cursor));
      assert rows == [rows[0]] + rest;
    }
  }

  /** The checking loop of the reader. */
  method ReadPage(table: seq<SourceRow>, from: int, to: int, after: Option<Cursor>, limit: nat) returns (page: Page)
    ensures page == Read(table, from, to, after, limit)
  {
    hide Check, Fetch, Less;
    var rows := Fetch(table, Lower(from, after), limit);
    var result: seq<SourceRow> := [];
    for i := 0 to |rows|
      invariant result == rows[..i] && forall k :: 0 <= k < i ==> Passes(rows, k, from, to, after)
    {
      var row := rows[i];
      CheckPrefix(rows, i, from, to, after);
      if !ValidRow(row, from, to) {
        return InvalidRow;
      }
      var previous := if |result| > 0 then Some(result[|result| - 1].cursor) else after;
      if previous.Some? && Compare(previous.value, row.cursor) >= 0 {
        return NonUniqueCursor;
      }
      result := result + [row];
    }
    CheckPrefix(rows, |rows|, from, to, after);
    return Rows(if |result| <= limit then result else result[..limit]);
  }

  // The whole range.

  /** ORDER BY archive_time, archive_key. */
  ghost predicate InOrder(table: seq<SourceRow>) {
    forall i, j :: 0 <= i < j < |table| ==> !Precedes(table[j].cursor, table[i].cursor)
  }

  function InRange(table: seq<SourceRow>, from: int): seq<SourceRow> {
    Select(table, Cursor(from, ""))
  }

  lemma {:induction false} SelectAll(table: seq<SourceRow>, lower: Cursor)
    requires forall i :: 0 <= i < |table| ==> Behind(table[i], lower)
    ensures Select(table, lower) == table
  {
    if table != [] {
      SelectAll(table[1..], lower);
    }
  }

  lemma {:induction false} SelectOrdered(table: seq<SourceRow>, lower: Cursor)
    requires InOrder(table)
    ensures InOrder(Select(table, lower))
    ensures forall r :: r in Select(table, lower) ==> r in table && Behind(r, lower)
  {
    if table != [] {
      SelectOrdered(table[1..], lower);
      var rest := Select(table[1..], lower);
      forall j | 0 <= j < |rest| ensures !Precedes(rest[j].cursor, table[0].cursor) {
        assert rest[j] in table[1..];
        var k :| 0 <= k < |table[1..]| && table[1..][k] == rest[j];
        assert table[k + 1] == rest[j];
      }
    }
  }

  /** Selecting behind a later cursor is selecting from what is behind the earlier one. */
  lemma {:induction false} SelectTwice(table: seq<SourceRow>, lower: Cursor, later: Cursor)
    requires lower == later || Precedes(lower, later)
    ensures Select(Select(table, lower), later) == Select(table, later)
  {
    if table != [] {
      SelectTwice(table[1..], lower, later);
      if Behind(table[0], later) && lower != later {
        PrecedesTransitive(lower, later, table[0].cursor);
      }
      if Behind(table[0], lower) {
        assert ([table[0]] + Select(table[1..], lower))[1..] == Select(table[1..], lower);
      }
    }
  }

  /** In an ordered list, what is behind the cursor of row n - 1 starts at n, if row n comes strictly later. */
  lemma {:induction false} SelectSuffix(rows: seq<SourceRow>, n: nat)
    requires InOrder(rows) && 1 <= n <= |rows|
    requires n < |rows| ==> Precedes(rows[n - 1].cursor, rows[n].cursor)
    ensures Select(rows, rows[n - 1].cursor) == rows[n..]
  {
    var lower := rows[n - 1].cursor;
    SelectAppend(rows[..n], rows[n..], lower);
    assert rows == rows[..n] + rows[n..];
    forall i | n <= i < |rows| ensures Behind(rows[i], lower) {
      LaterStays(rows, n, i);
    }
    SelectAll(rows[n..], lower);
    forall i | 0 <= i < n ensures !Behind(rows[i], lower) {
      LessIrreflexive(lower.key);
      if i < n - 1 {
        assert !Precedes(rows[n - 1].cursor, rows[i].cursor);
      }
    }
    SelectNone(rows[..n], lower);
  }

  lemma LaterStays(rows: seq<SourceRow>, n: nat, i: nat)
    requires InOrder(rows) && 1 <= n <= i < |rows| && Precedes(rows[n - 1].cursor, rows[n].cursor)
    ensures Precedes(rows[n - 1].cursor, rows[i].cursor)
  {
    CompareMeans(rows[n].cursor, rows[i].cursor);
    if i > n && Precedes(rows[n].cursor, rows[i].cursor) {
      PrecedesTransitive(rows[n - 1].cursor, rows[n].cursor, rows[i].cursor);
    }
  }

  lemma {:induction false} SelectAppend(a: seq<SourceRow>, b: seq<SourceRow>, lower: Cursor)
    ensures Select(a + b, lower) == Select(a, lower) + Select(b, lower)
  {
    if a == [] {
      assert a + b == b;
    } else {
      assert (a + b)[1..] == a[1..] + b;
      SelectAppend(a[1..], b, lower);
    }
  }

  lemma {:induction false} SelectNone(rows: seq<SourceRow>, lower: Cursor)
    requires forall i :: 0 <= i < |rows| ==> !Behind(rows[i], lower)
    ensures Select(rows, lower) == []
  {
    if rows != [] {
      SelectNone(rows[1..], lower);
    }
  }

  /** The first `n` rows of the range were read and accepted, and the cursor is that of the last one. The row that
      follows them has been compared as well. */
  ghost predicate Covered(table: seq<SourceRow>, from: int, to: int, n: nat, after: Option<Cursor>) {
    var all := InRange(table, from);
    && n <= |all|
    && (if n == 0 then after.None? else after == Some(all[n - 1].cursor))
    && (forall i :: 0 <= i < n ==> ValidRow(all[i], from, to))
    && (forall i :: 1 <= i <= n && i < |all| ==> Precedes(all[i - 1].cursor, all[i].cursor))
  }

  lemma {:induction false} CheckMeans(rows: seq<SourceRow>, from: int, to: int, previous: Option<Cursor>)
    requires Check(rows, from, to, previous).Rows?
    ensures Check(rows, from, to, previous).rows == rows
    ensures forall i :: 0 <= i < |rows| ==> ValidRow(rows[i], from, to)
    ensures forall i :: 1 <= i < |rows| ==> Precedes(rows[i - 1].cursor, rows[i].cursor)
    ensures rows != [] && previous.Some? ==> Precedes(previous.value, rows[0].cursor)
  {
    if rows != [] {
      CheckMeans(rows[1..], from, to, Some(rows[0].cursor));
      assert forall i :: 1 <= i < |rows| ==> rows[i] == rows[1..][i - 1];
      if previous.Some? {
        CompareMeans(previous.value, rows[0].cursor);
      }
    }
  }

  lemma RestOfRange(table: seq<SourceRow>, from: int, to: int, n: nat, after: Option<Cursor>)
    requires InOrder(table) && Covered(table, from, to, n, after)
    ensures Select(table, Lower(from, after)) == InRange(table, from)[n..]
  {
    var all := InRange(table, from);
    SelectOrdered(table, Cursor(from, ""));
    if n > 0 {
      assert all[n - 1] in all;
      SelectTwice(table, Cursor(from, ""), all[n - 1].cursor);
      SelectSuffix(all, n);
    }
  }

  /** Checked rows behind a covered prefix extend it. */
  lemma RowsJoin(all: seq<SourceRow>, n: nat, rows: seq<SourceRow>, from: int, to: int)
    requires n + |rows| <= |all| && rows == all[n..n + |rows|]
    requires forall i :: 0 <= i < n ==> ValidRow(all[i], from, to)
    requires forall i :: 0 <= i < |rows| ==> ValidRow(rows[i], from, to)
    requires forall i :: 1 <= i <= n && i < |all| ==> Precedes(all[i - 1].cursor, all[i].cursor)
    requires forall i :: 1 <= i < |rows| ==> Precedes(rows[i - 1].cursor, rows[i].cursor)
    ensures forall i :: 0 <= i < n + |rows| ==> ValidRow(all[i], from, to)
    ensures forall i :: 1 <= i < n + |rows| ==> Precedes(all[i - 1].cursor, all[i].cursor)
  {
    assert forall i :: n <= i < n + |rows| ==> all[i] == rows[i - n];
    forall i | 1 <= i < n + |rows| ensures Precedes(all[i - 1].cursor, all[i].cursor) {
      if i > n {
        assert all[i - 1] == rows[i - n - 1] && all[i] == rows[i - n];
      }
    }
  }

  /** A page is exactly the next rows of the range, as many as fit, and after it the larger prefix is covered. */
  lemma PageContinues(table: seq<SourceRow>, from: int, to: int, n: nat, after: Option<Cursor>, limit: nat)
    requires InOrder(table) && Covered(table, from, to, n, after)
    requires 1 <= limit <= MAX_PAGE_ROWS && Read(table, from, to, after, limit).Rows?
    ensures var all, page := InRange(table, from), Read(table, from, to, after, limit).rows;
            && |page| == Min(limit, |all| - n)
            && page == all[n..n + |page|]
            && Covered(table, from, to, n + |page|, if page == [] then after else Some(page[|page| - 1].cursor))
  {
    var all := InRange(table, from);
    RestOfRange(table, from, to, n, after);
    var fetched := Fetch(table, Lower(from, after), limit);
    CheckMeans(fetched, from, to, after);
    assert fetched == all[n..n + |fetched|];
    RowsJoin(all, n, fetched, from, to);
  }

  /** Every row of the range is acceptable and no two share a cursor. */
  ghost predicate Clean(table: seq<SourceRow>, from: int, to: int) {
    var all := InRange(table, from);
    && (forall i :: 0 <= i < |all| ==> ValidRow(all[i], from, to))
    && (forall i, j :: 0 <= i < j < |all| ==> Precedes(all[i].cursor, all[j].cursor))
  }

  /** Only a clean range is read to its end. */
  lemma CoveredToTheEnd(table: seq<SourceRow>, from: int, to: int, after: Option<Cursor>)
    requires Covered(table, from, to, |InRange(table, from)|, after)
    ensures Clean(table, from, to)
  {
    var all := InRange(table, from);
    forall i, j | 0 <= i < j < |all| ensures Precedes(all[i].cursor, all[j].cursor) {
      Ascends(all, i, j);
    }
  }

  /** And no read of a clean range fails. */
  lemma CleanReads(table: seq<SourceRow>, from: int, to: int, n: nat, after: Option<Cursor>, limit: nat)
    requires InOrder(table) && Clean(table, from, to) && Covered(table, from, to, n, after)
    ensures Read(table, from, to, after, limit).Rows?
  {
    var all := InRange(table, from);
    RestOfRange(table, from, to, n, after);
    var fetched := Fetch(table, Lower(from, after), limit);
    forall k | 0 <= k < |fetched| ensures Passes(fetched, k, from, to, after) {
      assert fetched[k] == all[n + k];
      if k > 0 {
        assert fetched[k - 1] == all[n + k - 1];
        CompareMeans(fetched[k - 1].cursor, fetched[k].cursor);
      } else if n > 0 {
        CompareMeans(all[n - 1].cursor, fetched[0].cursor);
      }
    }
    CheckPrefix(fetched, |fetched|, from, to, after);
  }

  lemma {:induction false} Ascends(rows: seq<SourceRow>, i: nat, j: nat)
    requires i < j < |rows| && forall k :: 1 <= k <= j ==> Precedes(rows[k - 1].cursor, rows[k].cursor)
    ensures Precedes(rows[i].cursor, rows[j].cursor)
    decreases j - i
  {
    if i + 1 < j {
      Ascends(rows, i, j - 1);
      PrecedesTransitive(rows[i].cursor, rows[j - 1].cursor, rows[j].cursor);
    }
  }

  /** Two rows with one cursor stop the reading at the first of them or before. */
  lemma DuplicateStopsReading(table: seq<SourceRow>, from: int, to: int, n: nat, after: Option<Cursor>, i: nat)
    requires Covered(table, from, to, n, after)
    requires i + 1 < |InRange(table, from)|
    requires InRange(table, from)[i].cursor == InRange(table, from)[i + 1].cursor
    ensures n <= i
  {
    LessIrreflexive(InRange(table, from)[i].cursor.key);
  }

  /** Rows of the range at or below a cursor. */
  function AtOrBelow(rows: seq<SourceRow>, after: Option<Cursor>): nat {
    if rows == [] || after.None? then 0
    else (if Precedes(after.value, rows[0].cursor) then 0 else 1) + AtOrBelow(rows[1..], after)
  }

  lemma {:induction false} AtOrBelowPrefix(rows: seq<SourceRow>, n: nat, after: Option<Cursor>)
    requires n <= |rows| && after.Some?
    requires forall i :: 0 <= i < n ==> !Precedes(after.value, rows[i].cursor)
    requires forall i :: n <= i < |rows| ==> Precedes(after.value, rows[i].cursor)
    ensures AtOrBelow(rows, after) == n
  {
    if rows != [] {
      AtOrBelowPrefix(rows[1..], if n == 0 then 0 else n - 1, after);
    }
  }

  /** What is covered is what lies at or below the cursor. */
  lemma CoveredCount(table: seq<SourceRow>, from: int, to: int, n: nat, after: Option<Cursor>)
    requires InOrder(table) && Covered(table, from, to, n, after)
    ensures AtOrBelow(InRange(table, from), after) == n
  {
    var all := InRange(table, from);
    SelectOrdered(table, Cursor(from, ""));
    if n > 0 {
      forall i | 0 <= i < n ensures !Precedes(all[n - 1].cursor, all[i].cursor) {
        if i == n - 1 {
          LessIrreflexive(all[i].cursor.key);
        }
      }
      forall i | n <= i < |all| ensures Precedes(all[n - 1].cursor, all[i].cursor) {
        LaterStays(all, n, i);
      }
      AtOrBelowPrefix(all, n, after);
    }
  }
}
