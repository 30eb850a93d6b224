/** UTC instants in microseconds and their text (sections 5.6 and 5.7 of RFC 3339; the calendar is the one of
    ECMA-262). Printing keeps the order, and reading a printed instant gives it back. */
module UtcInstants {
  import opened Common

  // Fixed-width decimal numbers.

  function Pow10(w: nat): (p: nat)
    ensures p >= 1
  {
    if w == 0 then 1 else 10 * Pow10(w - 1)
  }

  function Digit(n: nat): (c: char)
    requires n < 10
    ensures '0' <= c <= '9'
  {
    (n + '0' as int) as char
  }

  predicate IsDigits(s: string) {
    forall i :: 0 <= i < |s| ==> '0' <= s[i] <= '9'
  }

  function Pad(n: nat, w: nat): (s: string)
    requires n < Pow10(w)
    ensures |s| == w && IsDigits(s)
  {
    if w == 0 then "" else Pad(n / 10, w - 1) + [Digit(n % 10)]
  }

  function Value(s: string): nat
    requires IsDigits(s)
  {
    if s == "" then 0 else 10 * Value(s[..|s| - 1]) + (s[|s| - 1] as int - '0' as int)
  }

  lemma {:induction false} ValuePad(n: nat, w: nat)
    requires n < Pow10(w)
    ensures Value(Pad(n, w)) == n
  {
    if w > 0 {
      ValuePad(n / 10, w - 1);
      assert Pad(n, w)[..w - 1] == Pad(n / 10, w - 1);
    }
  }

  lemma {:induction false} PadValue(s: string)
    requires IsDigits(s)
    ensures Value(s) < Pow10(|s|) && Pad(Value(s), |s|) == s
  {
    if s != "" {
      var front := s[..|s| - 1];
      PadValue(front);
      assert Value(s) / 10 == Value(front);
      assert s == front + [s[|s| - 1]];
    }
  }

  /** On texts of equal length a common front decides first. */
  lemma {:induction false} LessConcat(a: string, b: string, x: string, y: string)
    requires |a| == |b|
    ensures Less(a + x, b + y) <==> Less(a, b) || (a == b && Less(x, y))
  {
    if a == "" {
      assert a + x == x && b + y == y;
    } else {
      assert (a + x)[1..] == a[1..] + x && (b + y)[1..] == b[1..] + y;
      LessConcat(a[1..], b[1..], x, y);
      assert a == [a[0]] + a[1..] && b == [b[0]] + b[1..];
    }
  }

  lemma DigitOrder(x: nat, y: nat)
    requires x < 10 && y < 10
    ensures Less([Digit(x)], [Digit(y)]) <==> x < y
    ensures [Digit(x)] == [Digit(y)] <==> x == y
  {
    assert [Digit(x)][1..] == "" && [Digit(y)][1..] == "";
    assert [Digit(x)][0] == Digit(x) && [Digit(y)][0] == Digit(y);
  }

  lemma TensFirst(n: nat, m: nat)
    ensures n < m <==> n / 10 < m / 10 || (n / 10 == m / 10 && n % 10 < m % 10)
  {
  }

  lemma {:induction false} PadOrder(n: nat, m: nat, w: nat)
    requires n < Pow10(w) && m < Pow10(w)
    ensures Less(Pad(n, w), Pad(m, w)) <==> n < m
  {
    if w > 0 {
      PadOrder(n / 10, m / 10, w - 1);
      PadInjective(n / 10, m / 10, w - 1);
      LessConcat(Pad(n / 10, w - 1), Pad(m / 10, w - 1), [Digit(n % 10)], [Digit(m % 10)]);
      DigitOrder(n % 10, m % 10);
      TensFirst(n, m);
    }
  }

  lemma PadInjective(n: nat, m: nat, w: nat)
    requires n < Pow10(w) && m < Pow10(w)
    ensures Pad(n, w) == Pad(m, w) <==> n == m
  {
    ValuePad(n, w);
    ValuePad(m, w);
  }

  // The calendar.

  predicate Leap(year: int) {
    year % 4 == 0 && (year % 100 != 0 || year % 400 == 0)
  }

  function DayFromYear(year: int): int {
    365 * (year - 1970) + (year - 1969) / 4 - (year - 1901) / 100 + (year - 1601) / 400
  }

  lemma NextYear(year: int)
    ensures DayFromYear(year + 1) == DayFromYear(year) + if Leap(year) then 366 else 365
  {
    FourYears(year);
    Century(year);
    FourCenturies(year);
  }

  lemma FourYears(year: int)
    ensures (year - 1968) / 4 == (year - 1969) / 4 + if year % 4 == 0 then 1 else 0
    ensures year % 100 == 0 ==> year % 4 == 0
  {
  }

  lemma Century(year: int)
    ensures (year - 1900) / 100 == (year - 1901) / 100 + if year % 100 == 0 then 1 else 0
    ensures year % 400 == 0 ==> year % 100 == 0
  {
  }

  lemma FourCenturies(year: int)
    ensures (year - 1600) / 400 == (year - 1601) / 400 + if year % 400 == 0 then 1 else 0
  {
  }

  lemma {:induction false} YearsAscend(a: int, b: int)
    requires a <= b
    ensures DayFromYear(a) + 365 * (b - a) <= DayFromYear(b)
    decreases b - a
  {
    if a < b {
      YearsAscend(a, b - 1);
      NextYear(b - 1);
    }
  }

  /** The year of a day, searched upwards. */
  function YearOf(day: int, from: int): (year: int)
    requires DayFromYear(from) <= day
    ensures DayFromYear(year) <= day < DayFromYear(year + 1) && year >= from
    decreases day - DayFromYear(from)
  {
    NextYear(from);
    if DayFromYear(from + 1) <= day then YearOf(day, from + 1) else from
  }

  function MonthStart(leap: bool, month: nat): nat
    requires 1 <= month <= 13
  {
    [0, 31, 59, 90, 120, 151, 181, 212, 243, 273, 304, 334, 365][month - 1] + if leap && month > 2 then 1 else 0
  }

  function MonthOf(leap: bool, dayOfYear: nat, from: nat): (month: nat)
    requires 1 <= from <= 12 && MonthStart(leap, from) <= dayOfYear < MonthStart(leap, 13)
    ensures from <= month <= 12
    ensures MonthStart(leap, month) <= dayOfYear < MonthStart(leap, month + 1)
    decreases 12 - from
  {
    if from < 12 && MonthStart(leap, from + 1) <= dayOfYear then MonthOf(leap, dayOfYear, from + 1) else from
  }

  predicate ValidDate(year: int, month: nat, day: nat) {
    && 1 <= month <= 12
    && 1 <= day <= MonthStart(Leap(year), month + 1) - MonthStart(Leap(year), month)
  }

  function DayNumber(year: int, month: nat, day: nat): int
    requires ValidDate(year, month, day)
  {
    DayFromYear(year) + MonthStart(Leap(year), month) + day - 1
  }

  datatype Civil = Civil(year: int, month: nat, day: nat)

  function CivilOf(day: nat): (c: Civil)
    ensures c.year >= 1970 && ValidDate(c.year, c.month, c.day) && DayNumber(c.year, c.month, c.day) == day
  {
    var year := YearOf(day, 1970);
    NextYear(year);
    var dayOfYear := day - DayFromYear(year);
    var month := MonthOf(Leap(year), dayOfYear, 1);
    Civil(year, month, dayOfYear - MonthStart(Leap(year), month) + 1)
  }

  predicate DateBefore(a: Civil, b: Civil) {
    a.year < b.year || (a.year == b.year && (a.month < b.month || (a.month == b.month && a.day < b.day)))
  }

  lemma MonthsAscend(leap: bool, a: nat, b: nat)
    requires 1 <= a < b <= 13
    ensures MonthStart(leap, a + 1) <= MonthStart(leap, b)
  {
  }

  /** Dates are ordered as their day numbers. */
  lemma DateOrder(a: Civil, b: Civil)
    requires ValidDate(a.year, a.month, a.day) && ValidDate(b.year, b.month, b.day)
    requires DateBefore(a, b)
    ensures DayNumber(a.year, a.month, a.day) < DayNumber(b.year, b.month, b.day)
  {
    if a.year < b.year {
      NextYear(a.year);
      YearsAscend(a.year + 1, b.year);
      if a.month < 12 {
        MonthsAscend(Leap(a.year), a.month, 13);
      }
    } else if a.month < b.month {
      MonthsAscend(Leap(a.year), a.month, b.month);
    }
  }

  lemma CivilUnique(c: Civil)
    requires ValidDate(c.year, c.month, c.day) && DayNumber(c.year, c.month, c.day) >= 0
    ensures CivilOf(DayNumber(c.year, c.month, c.day)) == c
  {
    var other := CivilOf(DayNumber(c.year, c.month, c.day));
    if DateBefore(c, other) {
      DateOrder(c, other);
    }
    if DateBefore(other, c) {
      DateOrder(other, c);
    }
  }

  // Printing and reading fields of fixed width.

  datatype Piece = Piece(width: nat, separator: string)

  predicate Printable(fields: seq<nat>, format: seq<Piece>) {
    |fields| == |format| && forall i :: 0 <= i < |fields| ==> fields[i] < Pow10(format[i].width)
  }

  function Print(fields: seq<nat>, format: seq<Piece>, tail: string): string
    requires Printable(fields, format)
  {
    if fields == [] then tail
    else Pad(fields[0], format[0].width) + format[0].separator + Print(fields[1..], format[1..], tail)
  }

  predicate Before(a: seq<nat>, b: seq<nat>)
    requires |a| == |b|
  {
    a != [] && (a[0] < b[0] || (a[0] == b[0] && Before(a[1..], b[1..])))
  }

  lemma FieldFirst(p: string, q: string, sep: string, x: string, y: string)
    requires |p| == |q|
    ensures Less(p + sep + x, q + sep + y) <==> Less(p, q) || (p == q && Less(x, y))
  {
    assert p + sep + x == p + (sep + x) && q + sep + y == q + (sep + y);
    LessConcat(p, q, sep + x, sep + y);
    LessConcat(sep, sep, x, y);
    LessIrreflexive(sep);
  }

  lemma NumberFirst(n: nat, m: nat, w: nat, sep: string, x: string, y: string)
    requires n < Pow10(w) && m < Pow10(w)
    ensures Less(Pad(n, w) + sep + x, Pad(m, w) + sep + y) <==> n < m || (n == m && Less(x, y))
  {
    PadOrder(n, m, w);
    PadInjective(n, m, w);
    FieldFirst(Pad(n, w), Pad(m, w), sep, x, y);
  }

  lemma SameHeads(a: seq<nat>, b: seq<nat>)
    requires |a| == |b| && a != []
    ensures a == b <==> a[0] == b[0] && a[1..] == b[1..]
  {
    assert a == [a[0]] + a[1..] && b == [b[0]] + b[1..];
  }

  lemma {:induction false} PrintOrder(a: seq<nat>, b: seq<nat>, format: seq<Piece>, x: string, y: string)
    requires Printable(a, format) && Printable(b, format)
    ensures Less(Print(a, format, x), Print(b, format, y)) <==> Before(a, b) || (a == b && Less(x, y))
  {
    if a != [] {
      PrintOrder(a[1..], b[1..], format[1..], x, y);
      NumberFirst(a[0], b[0], format[0].width, format[0].separator,
                  Print(a[1..], format[1..], x), Print(b[1..], format[1..], y));
      SameHeads(a, b);
    }
  }

  /** Digits of a given number followed by a separator, and what is left. */
  function ReadField(s: string, w: nat, sep: string): (r: Option<(nat, string)>) {
    if |s| < w + |sep| || !IsDigits(s[..w]) || s[w..w + |sep|] != sep then None
    else Some((Value(s[..w]), s[w + |sep|..]))
  }

  function ReadFields(s: string, format: seq<Piece>): (r: Option<(seq<nat>, string)>)
    ensures r.Some? ==> |r.value.0| == |format|
  {
    if format == [] then Some(([], s))
    else
      match ReadField(s, format[0].width, format[0].separator)
      case None => None
      case Some((n, rest)) =>
        match ReadFields(rest, format[1..])
        case None => None
        case Some((fields, tail)) => Some(([n] + fields, tail))
  }

  lemma ReadPadded(n: nat, w: nat, sep: string, rest: string)
    requires n < Pow10(w)
    ensures ReadField(Pad(n, w) + sep + rest, w, sep) == Some((n, rest))
  {
    ValuePad(n, w);
    var s := Pad(n, w) + sep + rest;
    assert s[..w] == Pad(n, w) && s[w..w + |sep|] == sep && s[w + |sep|..] == rest;
  }

  lemma {:induction false} ReadPrintedFields(fields: seq<nat>, format: seq<Piece>, tail: string)
    requires Printable(fields, format)
    ensures ReadFields(Print(fields, format, tail), format) == Some((fields, tail))
  {
    if fields != [] {
      ReadPrintedFields(fields[1..], format[1..], tail);
      ReadPadded(fields[0], format[0].width, format[0].separator, Print(fields[1..], format[1..], tail));
      assert fields == [fields[0]] + fields[1..];
    }
  }

  // Instants.

  /** Year, month, day, hour, minute, second. */
  const FORMAT: seq<Piece> :=
    [Piece(4, "-"), Piece(2, "-"), Piece(2, "T"), Piece(2, ":"), Piece(2, ":"), Piece(2, "")]

  /** Milliseconds and the remaining microseconds, `w` digits each. */
  function PrintFraction(high: nat, low: nat, w: nat): string
    requires high < Pow10(w) && low < Pow10(w)
  {
    "." + (Pad(high, w) + (Pad(low, w) + "Z"))
  }

  lemma FractionOrder(a: nat, b: nat, c: nat, d: nat, w: nat)
    requires a < Pow10(w) && b < Pow10(w) && c < Pow10(w) && d < Pow10(w)
    ensures Less(PrintFraction(a, b, w), PrintFraction(c, d, w)) <==> a < c || (a == c && b < d)
  {
    LessConcat(".", ".", Pad(a, w) + (Pad(b, w) + "Z"), Pad(c, w) + (Pad(d, w) + "Z"));
    LessIrreflexive(".");
    LessConcat(Pad(a, w), Pad(c, w), Pad(b, w) + "Z", Pad(d, w) + "Z");
    LessConcat(Pad(b, w), Pad(d, w), "Z", "Z");
    LessIrreflexive("Z");
    PadOrder(a, c, w);
    PadInjective(a, c, w);
    PadOrder(b, d, w);
    PadInjective(b, d, w);
  }

  /** The first instant of the year 10000. */
  const YEAR_10000: nat := 253402300800 * 1000000

  predicate DateTime(format: seq<Piece>) {
    |format| == 6 && format[0].width == 4 && forall i :: 1 <= i < 6 ==> format[i].width == 2
  }

  function Fields(seconds: nat): (f: seq<nat>)
    requires seconds < 253402300800
    ensures |f| == 6 && f[0] < Pow10(4) && forall i :: 1 <= i < 6 ==> f[i] < Pow10(2)
  {
    var c := CivilOf(seconds / 86400);
    var s := seconds % 86400;
    DateBounds(seconds / 86400);
    PowersOfTen();
    [c.year, c.month, c.day, s / 3600, s / 60 % 60, s % 60]
  }

  function PrintInstant(seconds: nat, high: nat, low: nat, format: seq<Piece>, w: nat): string
    requires seconds < 253402300800 && high < 1000 && low < 1000 && DateTime(format) && Pow10(w) == 1000
  {
    Print(Fields(seconds), format, PrintFraction(high, low, w))
  }

  /** isoMicros. */
  function IsoMicros(micros: nat): string
    requires micros < YEAR_10000
  {
    PowersOfTen();
    PrintInstant(micros / 1000000, micros / 1000 % 1000, micros % 1000, FORMAT, 3)
  }

  lemma PowersOfTen()
    ensures Pow10(2) == 100 && Pow10(3) == 1000 && Pow10(4) == 10000
  {
    assert Pow10(1) == 10 * Pow10(0);
    assert Pow10(2) == 10 * Pow10(1);
    assert Pow10(3) == 10 * Pow10(2);
    assert Pow10(4) == 10 * Pow10(3);
  }

  lemma DateBounds(day: nat)
    requires day < 2932897
    ensures CivilOf(day).year < 10000 && CivilOf(day).month <= 12 && CivilOf(day).day <= 31
  {
    var c := CivilOf(day);
    assert MonthStart(Leap(c.year), c.month + 1) - MonthStart(Leap(c.year), c.month) <= 31;
    var year := YearOf(day, 1970);
    if year >= 10000 {
      YearsAscend(10000, year);
    }
  }

  lemma TimeOfDayOrder(a: nat, b: nat)
    requires a < 86400 && b < 86400
    ensures a < b <==>
              || a / 3600 < b / 3600
              || (a / 3600 == b / 3600 && (a / 60 % 60 < b / 60 % 60
                                           || (a / 60 % 60 == b / 60 % 60 && a % 60 < b % 60)))
  {
    assert a == 3600 * (a / 3600) + 60 * (a / 60 % 60) + a % 60;
    assert b == 3600 * (b / 3600) + 60 * (b / 60 % 60) + b % 60;
  }

  lemma SubsecondOrder(a: nat, b: nat)
    ensures a % 1000000 < b % 1000000 <==>
              a / 1000 % 1000 < b / 1000 % 1000 || (a / 1000 % 1000 == b / 1000 % 1000 && a % 1000 < b % 1000)
  {
    assert a % 1000000 == 1000 * (a / 1000 % 1000) + a % 1000;
    assert b % 1000000 == 1000 * (b / 1000 % 1000) + b % 1000;
  }

  lemma DatesAscend(a: nat, b: nat)
    requires a < b
    ensures DateBefore(CivilOf(a), CivilOf(b))
  {
    var c, d := CivilOf(a), CivilOf(b);
    if DateBefore(d, c) {
      DateOrder(d, c);
    }
    assert c != d;
  }

  lemma BeforeByDate(f: seq<nat>, g: seq<nat>)
    requires |f| == |g| == 6
    requires f[0] < g[0] || (f[0] == g[0] && (f[1] < g[1] || (f[1] == g[1] && f[2] < g[2])))
    ensures Before(f, g)
  {
    BeforeFrom(f, g, 2);
    BeforeFrom(f, g, 1);
    BeforeFrom(f, g, 0);
    assert f[0..] == f && g[0..] == g;
  }

  lemma BeforeByTime(f: seq<nat>, g: seq<nat>)
    requires |f| == |g| == 6 && f[0] == g[0] && f[1] == g[1] && f[2] == g[2]
    requires f[3] < g[3] || (f[3] == g[3] && (f[4] < g[4] || (f[4] == g[4] && f[5] < g[5])))
    ensures Before(f, g)
  {
    BeforeFrom(f, g, 5);
    BeforeFrom(f, g, 4);
    BeforeFrom(f, g, 3);
    BeforeFrom(f, g, 2);
    BeforeFrom(f, g, 1);
    BeforeFrom(f, g, 0);
    assert f[0..] == f && g[0..] == g;
  }

  lemma BeforeFrom(f: seq<nat>, g: seq<nat>, at: nat)
    requires |f| == |g| && at < |f|
    ensures Before(f[at..], g[at..]) <==> f[at] < g[at] || (f[at] == g[at] && Before(f[at + 1..], g[at + 1..]))
  {
    assert f[at..][1..] == f[at + 1..] && g[at..][1..] == g[at + 1..];
  }

  lemma SecondsAscend(a: nat, b: nat)
    requires a < b < 253402300800
    ensures Before(Fields(a), Fields(b))
  {
    DayOrder(a, b);
    if a / 86400 < b / 86400 {
      DatesAscend(a / 86400, b / 86400);
      BeforeByDate(Fields(a), Fields(b));
    } else {
      TimeOfDayOrder(a % 86400, b % 86400);
      BeforeByTime(Fields(a), Fields(b));
    }
  }

  lemma DayOrder(a: nat, b: nat)
    requires a < b
    ensures a / 86400 < b / 86400 || (a / 86400 == b / 86400 && a % 86400 < b % 86400)
  {
  }

  lemma PartsAscend(f: seq<nat>, g: seq<nat>, format: seq<Piece>, a: nat, b: nat, c: nat, d: nat, w: nat)
    requires Printable(f, format) && Printable(g, format)
    requires a < Pow10(w) && b < Pow10(w) && c < Pow10(w) && d < Pow10(w)
    requires Before(f, g) || (f == g && (a < c || (a == c && b < d)))
    ensures Less(Print(f, format, PrintFraction(a, b, w)), Print(g, format, PrintFraction(c, d, w)))
  {
    PrintOrder(f, g, format, PrintFraction(a, b, w), PrintFraction(c, d, w));
    FractionOrder(a, b, c, d, w);
  }

  lemma InstantsAscend(s: nat, a: nat, b: nat, t: nat, c: nat, d: nat, format: seq<Piece>, w: nat)
    requires s < 253402300800 && t < 253402300800 && a < 1000 && b < 1000 && c < 1000 && d < 1000
    requires DateTime(format) && Pow10(w) == 1000
    requires s < t || (s == t && (a < c || (a == c && b < d)))
    ensures Less(PrintInstant(s, a, b, format, w), PrintInstant(t, c, d, format, w))
  {
    if s < t {
      SecondsAscend(s, t);
    }
    PartsAscend(Fields(s), Fields(t), format, a, b, c, d, w);
  }

  lemma IsoAscends(a: nat, b: nat)
    requires a < b < YEAR_10000
    ensures Less(IsoMicros(a), IsoMicros(b))
  {
    PowersOfTen();
    SubsecondOrder(a, b);
    InstantsAscend(a / 1000000, a / 1000 % 1000, a % 1000, b / 1000000, b / 1000 % 1000, b % 1000, FORMAT, 3);
  }

  lemma IsoNotBefore(a: nat, b: nat)
    requires b < a < YEAR_10000
    ensures !Less(IsoMicros(a), IsoMicros(b))
  {
    IsoAscends(b, a);
    LessAsymmetric(IsoMicros(b), IsoMicros(a));
  }

  /** Text comparison of printed instants is comparison of the instants. */
  lemma IsoKeepsOrder(a: nat, b: nat)
    requires a < YEAR_10000 && b < YEAR_10000
    ensures Less(IsoMicros(a), IsoMicros(b)) <==> a < b
  {
    if a < b {
      IsoAscends(a, b);
    } else if b < a {
      IsoNotBefore(a, b);
    } else {
      LessIrreflexive(IsoMicros(a));
    }
  }

  // Reading instants.

  function ReadFraction(s: string): (r: Option<nat>) {
    if s == "Z" then Some(0)
    else if |s| < 3 || |s| > 8 || s[0] != '.' || s[|s| - 1] != 'Z' || !IsDigits(s[1..|s| - 1]) then None
    else Some(Value(s[1..|s| - 1]) * Pow10(8 - |s|))
  }

  predicate ValidFields(f: seq<nat>)
    requires |f| == 6
  {
    ValidDate(f[0], f[1], f[2]) && f[3] < 24 && f[4] < 60 && f[5] < 60
  }

  function Seconds(f: seq<nat>): int
    requires |f| == 6 && ValidFields(f)
  {
    DayNumber(f[0], f[1], f[2]) * 86400 + f[3] * 3600 + f[4] * 60 + f[5]
  }

  /** utcMicros: the pattern of the text, then a date and time of the calendar. */
  function UtcMicros(s: string): (r: Option<int>) {
    ReadInstant(s, FORMAT)
  }

  function ReadInstant(s: string, format: seq<Piece>): (r: Option<int>)
    requires DateTime(format)
  {
    match ReadFields(s, format)
    case None => None
    case Some((f, tail)) =>
      match ReadFraction(tail)
      case None => None
      case Some(fraction) => if ValidFields(f) then Some(Seconds(f) * 1000000 + fraction) else None
  }

  lemma {:induction false} ValueAppend(a: string, b: string)
    requires IsDigits(a) && IsDigits(b)
    ensures IsDigits(a + b) && Value(a + b) == Value(a) * Pow10(|b|) + Value(b)
  {
    if b == "" {
      assert a + b == a;
    } else {
      var front, n := b[..|b| - 1], |b| - 1;
      ValueAppend(a, front);
      LastDigit(a, b);
      TimesTen(Value(a), Pow10(n), Value(front));
    }
  }

  lemma LastDigit(a: string, b: string)
    requires IsDigits(a) && IsDigits(b) && b != ""
    ensures IsDigits(a + b) && IsDigits(a + b[..|b| - 1])
    ensures Value(a + b) == 10 * Value(a + b[..|b| - 1]) + (b[|b| - 1] as int - '0' as int)
  {
    assert (a + b)[..|a + b| - 1] == a + b[..|b| - 1];
  }

  lemma TimesTen(a: nat, p: nat, v: nat)
    ensures 10 * (a * p + v) == a * (10 * p) + 10 * v
  {
  }

  lemma ReadPrintedFraction(high: nat, low: nat, w: nat)
    requires Pow10(w) == 1000 && high < Pow10(w) && low < Pow10(w)
    ensures ReadFraction(PrintFraction(high, low, w)) == Some(high * 1000 + low)
  {
    var a, b, s := Pad(high, w), Pad(low, w), PrintFraction(high, low, w);
    PowerIsThree(w);
    assert s[1..|s| - 1] == a + b;
    ValueAppend(a, b);
    ValuePad(high, w);
    ValuePad(low, w);
  }

  lemma PowerIsThree(w: nat)
    requires Pow10(w) == 1000
    ensures w == 3 && Pow10(0) == 1
  {
    PowersOfTen();
    if w > 4 {
      PowersAscend(4, w);
    }
  }

  lemma {:induction false} PowersAscend(a: nat, b: nat)
    requires a <= b
    ensures Pow10(a) <= Pow10(b)
  {
    if a < b {
      PowersAscend(a, b - 1);
    }
  }

  lemma FieldsBack(seconds: nat)
    requires seconds < 253402300800
    ensures ValidFields(Fields(seconds)) && Seconds(Fields(seconds)) == seconds
  {
    var s := seconds % 86400;
    assert s == 3600 * (s / 3600) + 60 * (s / 60 % 60) + s % 60;
  }

  lemma ReadPrintedParts(
    s: string, f: seq<nat>, high: nat, low: nat, format: seq<Piece>, w: nat, seconds: int, micros: int)
    requires DateTime(format) && Pow10(w) == 1000 && high < 1000 && low < 1000
    requires Printable(f, format) && ValidFields(f) && Seconds(f) == seconds
    requires s == Print(f, format, PrintFraction(high, low, w))
    requires micros == seconds * 1000000 + (high * 1000 + low)
    ensures ReadInstant(s, format) == Some(micros)
  {
    ReadPrintedFields(f, format, PrintFraction(high, low, w));
    ReadPrintedFraction(high, low, w);
  }

  lemma ReadPrintedInstant(
    s: string, seconds: nat, high: nat, low: nat, format: seq<Piece>, w: nat, micros: int)
    requires seconds < 253402300800 && high < 1000 && low < 1000 && DateTime(format) && Pow10(w) == 1000
    requires s == PrintInstant(seconds, high, low, format, w)
    requires micros == seconds * 1000000 + (high * 1000 + low)
    ensures ReadInstant(s, format) == Some(micros)
  {
    FieldsBack(seconds);
    ReadPrintedParts(s, Fields(seconds), high, low, format, w, seconds, micros);
  }

  lemma MicrosParts(micros: nat)
    ensures micros == micros / 1000000 * 1000000 + (micros / 1000 % 1000 * 1000 + micros % 1000)
  {
    assert micros % 1000000 == 1000 * (micros / 1000 % 1000) + micros % 1000;
  }

  /** A printed instant reads back as itself. */
  lemma ReadPrinted(micros: nat)
    requires micros < YEAR_10000
    ensures UtcMicros(IsoMicros(micros)) == Some(micros)
  {
    PowersOfTen();
    MicrosParts(micros);
    var s := IsoMicros(micros);
    ReadPrintedInstant(s, micros / 1000000, micros / 1000 % 1000, micros % 1000, FORMAT, 3, micros);
  }

  // Accepted texts.

  lemma {:induction false} PrintRead(s: string, format: seq<Piece>)
    requires ReadFields(s, format).Some?
    ensures var (fields, tail) := ReadFields(s, format).value;
            Printable(fields, format) && Print(fields, format, tail) == s
  {
    if format != [] {
      var w, sep := format[0].width, format[0].separator;
      var rest := s[w + |sep|..];
      PrintRead(rest, format[1..]);
      PadValue(s[..w]);
      var (fields, tail) := ReadFields(s, format).value;
      assert fields[1..] == ReadFields(rest, format[1..]).value.0;
      assert s == s[..w] + s[w..w + |sep|] + rest;
    }
  }

  lemma {:induction false} PowerProduct(a: nat, b: nat)
    ensures Pow10(a) * Pow10(b) == Pow10(a + b)
  {
    if a > 0 {
      PowerProduct(a - 1, b);
      TimesTen(Pow10(b), Pow10(a - 1), 0);
    }
  }

  lemma FractionBelow(s: string)
    requires ReadFraction(s).Some?
    ensures ReadFraction(s).value < 1000000
  {
    PowersOfTen();
    PowerProduct(3, 3);
    if s != "Z" {
      ScaledBelow(s[1..|s| - 1], 6, 8 - |s|);
    }
  }

  lemma ScaledBelow(digits: string, width: nat, rest: nat)
    requires IsDigits(digits) && |digits| + rest == width
    ensures Value(digits) * Pow10(rest) < Pow10(width)
  {
    PadValue(digits);
    PowerProduct(|digits|, rest);
    TimesBelow(Value(digits), Pow10(|digits|), Pow10(rest));
  }

  lemma TimesBelow(a: nat, b: nat, c: nat)
    requires a < b && c >= 1
    ensures a * c < b * c
  {
  }

  /** The seconds of the years 0 to 9999. */
  predicate FourDigitYear(seconds: int) {
    -62167219200 <= seconds < 253402300800
  }

  /** The Gregorian calendar repeats after 400 years, hence after 2000. */
  const CYCLE: nat := 730485 * 86400

  /** Date and time of any second of a year of four digits. */
  function FieldsOf(seconds: int): (f: seq<nat>)
    requires FourDigitYear(seconds)
    ensures |f| == 6 && f[0] < Pow10(4) && forall i :: 1 <= i < 6 ==> f[i] < Pow10(2)
  {
    if seconds >= 0 then Fields(seconds) else EarlyFields(seconds)
  }

  function EarlyFields(seconds: int): (f: seq<nat>)
    requires -62167219200 <= seconds < 0
    ensures |f| == 6 && f[0] < Pow10(4) && forall i :: 1 <= i < 6 ==> f[i] < Pow10(2)
  {
    LateYear(seconds + CYCLE);
    CycleBefore(Fields(seconds + CYCLE))
  }

  function CycleBefore(f: seq<nat>): (g: seq<nat>)
    requires |f| == 6 && f[0] >= 2000
    ensures |g| == 6 && g[0] == f[0] - 2000 && forall i :: 1 <= i < 6 ==> g[i] == f[i]
  {
    f[0 := f[0] - 2000]
  }

  lemma LateYear(seconds: nat)
    requires 946684800 <= seconds < 253402300800
    ensures Fields(seconds)[0] >= 2000
  {
    FieldsBack(seconds);
    if Fields(seconds)[0] < 2000 {
      EarlyYear(Fields(seconds));
    }
  }

  lemma EarlyYear(f: seq<nat>)
    requires |f| == 6 && ValidFields(f) && f[0] < 2000
    ensures Seconds(f) < 946684800
  {
    NextYear(f[0]);
    YearsAscend(f[0] + 1, 2000);
    if f[1] < 12 {
      MonthsAscend(Leap(f[0]), f[1], 13);
    }
  }

  lemma CalendarRepeats(year: int)
    ensures Leap(year + 2000) == Leap(year) && DayFromYear(year + 2000) == DayFromYear(year) + 730485
  {
    Repeats(year - 1969, 4, 500);
    Repeats(year - 1901, 100, 20);
    Repeats(year - 1601, 400, 5);
    Repeats(year, 4, 500);
    Repeats(year, 100, 20);
    Repeats(year, 400, 5);
    assert year + 2000 - 1969 == year - 1969 + 2000 && year + 2000 - 1901 == year - 1901 + 2000;
    assert year + 2000 - 1601 == year - 1601 + 2000;
  }

  lemma Repeats(n: int, period: nat, times: nat)
    requires period * times == 2000 && period in {4, 100, 400}
    ensures (n + 2000) / period == n / period + times && (n + 2000) % period == n % period
  {
    if period == 4 {
      assert (n + 2000) / 4 == n / 4 + 500;
    } else if period == 100 {
      assert (n + 2000) / 100 == n / 100 + 20;
    } else {
      assert (n + 2000) / 400 == n / 400 + 5;
    }
  }

  lemma FieldsRepeat(f: seq<nat>, g: seq<nat>)
    requires |f| == |g| == 6 && g[0] == f[0] + 2000 && forall i :: 1 <= i < 6 ==> g[i] == f[i]
    requires ValidFields(f) || ValidFields(g)
    ensures ValidFields(f) && ValidFields(g) && Seconds(g) == Seconds(f) + CYCLE
  {
    CalendarRepeats(f[0]);
  }

  /** They are those of that second. */
  lemma FieldsOfBack(seconds: int)
    requires FourDigitYear(seconds)
    ensures ValidFields(FieldsOf(seconds)) && Seconds(FieldsOf(seconds)) == seconds
  {
    if seconds >= 0 {
      FieldsBack(seconds);
    } else {
      var g, f := Fields(seconds + CYCLE), FieldsOf(seconds);
      LateYear(seconds + CYCLE);
      FieldsBack(seconds + CYCLE);
      FieldsRepeat(f, g);
    }
  }

  lemma FieldsOfAre(f: seq<nat>)
    requires |f| == 6 && ValidFields(f) && f[0] < 10000
    ensures FourDigitYear(Seconds(f)) && FieldsOf(Seconds(f)) == f
  {
    SecondsBounds(f);
    if Seconds(f) >= 0 {
      FieldsOfSeconds(f);
    } else {
      var g := f[0 := f[0] + 2000];
      FieldsRepeat(f, g);
      FieldsOfSeconds(g);
      EarlyFieldsOf(Seconds(f), f, g);
    }
  }

  lemma EarlyFieldsOf(seconds: int, f: seq<nat>, g: seq<nat>)
    requires -62167219200 <= seconds < 0 && |f| == 6 && g == f[0 := f[0] + 2000] && Fields(seconds + CYCLE) == g
    ensures FieldsOf(seconds) == f
  {
    assert CycleBefore(g) == f;
  }

  /** Valid fields of a year of four digits, with this instant. */
  predicate IsDateTime(f: seq<nat>, seconds: int) {
    |f| == 6 && ValidFields(f) && f[0] < 10000 && Seconds(f) == seconds
  }

  /** Each second of those years has exactly one date and time, and no other second has one. */
  lemma OneDateTime(f: seq<nat>, seconds: int)
    ensures IsDateTime(f, seconds) <==> FourDigitYear(seconds) && f == FieldsOf(seconds)
  {
    if IsDateTime(f, seconds) {
      FieldsOfAre(f);
    } else if FourDigitYear(seconds) {
      PowersOfTen();
      FieldsOfBack(seconds);
    }
  }

  /** The text prints these fields, and behind them a tail with this fraction. */
  predicate PrintsWith(s: string, f: seq<nat>, fraction: nat, format: seq<Piece>, tail: string) {
    Printable(f, format) && ReadFraction(tail) == Some(fraction) && s == Print(f, format, tail)
  }

  lemma PrintedIsRead(s: string, f: seq<nat>, fraction: nat, format: seq<Piece>, tail: string)
    requires DateTime(format) && PrintsWith(s, f, fraction, format, tail) && ValidFields(f)
    ensures ReadInstant(s, format) == Some(Seconds(f) * 1000000 + fraction)
  {
    ReadPrintedFields(f, format, tail);
  }

  lemma ReadIsPrinted(s: string, format: seq<Piece>) returns (f: seq<nat>, fraction: nat, tail: string)
    requires DateTime(format) && ReadInstant(s, format).Some?
    ensures PrintsWith(s, f, fraction, format, tail) && ValidFields(f) && f[0] < 10000 && fraction < 1000000
    ensures ReadInstant(s, format) == Some(Seconds(f) * 1000000 + fraction)
  {
    PrintRead(s, format);
    f, tail := ReadFields(s, format).value.0, ReadFields(s, format).value.1;
    FractionBelow(tail);
    fraction := ReadFraction(tail).value;
    PowersOfTen();
  }

  /** The text is that of this second, with a fraction. */
  ghost predicate Shows(s: string, seconds: int, fraction: nat, format: seq<Piece>) {
    exists f, tail :: IsDateTime(f, seconds) && PrintsWith(s, f, fraction, format, tail)
  }

  /** Exactly the texts are accepted that print the date and time of their instant: this is the round-trip check of
      utcMicros. No impossible date passes, and every other one does. */
  lemma AcceptedIsCanonical(s: string, seconds: int, fraction: nat, format: seq<Piece>)
    requires fraction < 1000000 && format == FORMAT
    ensures UtcMicros(s) == Some(seconds * 1000000 + fraction) <==> Shows(s, seconds, fraction, format)
  {
    ReadExactly(s, seconds, fraction, format);
  }

  lemma ReadExactly(s: string, seconds: int, fraction: nat, format: seq<Piece>)
    requires fraction < 1000000 && DateTime(format)
    ensures ReadInstant(s, format) == Some(seconds * 1000000 + fraction) <==> Shows(s, seconds, fraction, format)
  {
    if Shows(s, seconds, fraction, format) {
      var f, tail :| IsDateTime(f, seconds) && PrintsWith(s, f, fraction, format, tail);
      PrintedIsRead(s, f, fraction, format, tail);
    }
    if ReadInstant(s, format) == Some(seconds * 1000000 + fraction) {
      var f, part, tail := ReadIsPrinted(s, format);
      assert IsDateTime(f, seconds) && part == fraction;
    }
  }

  lemma AcceptedBelow(s: string)
    requires UtcMicros(s).Some?
    ensures UtcMicros(s).value < YEAR_10000
  {
    var f, fraction, _ := ReadIsPrinted(s, FORMAT);
    SecondsBounds(f);
  }

  lemma SecondsBounds(f: seq<nat>)
    requires |f| == 6 && ValidFields(f) && f[0] < 10000
    ensures FourDigitYear(Seconds(f))
  {
    NextYear(f[0]);
    YearsAscend(0, f[0]);
    YearsAscend(f[0] + 1, 10000);
    if f[1] < 12 {
      MonthsAscend(Leap(f[0]), f[1], 13);
    }
  }

  lemma FieldsOfSeconds(f: seq<nat>)
    requires |f| == 6 && ValidFields(f) && 0 <= Seconds(f) < 253402300800
    ensures Fields(Seconds(f)) == f
  {
    DatePart(f);
    TimePart(f);
    Assemble(Seconds(f), f);
  }

  lemma Assemble(seconds: nat, f: seq<nat>)
    requires seconds < 253402300800 && |f| == 6 && CivilOf(seconds / 86400) == Civil(f[0], f[1], f[2])
    requires var s := seconds % 86400;
             s / 3600 == f[3] && s / 60 % 60 == f[4] && s % 60 == f[5]
    ensures Fields(seconds) == f
  {
  }

  lemma DatePart(f: seq<nat>)
    requires |f| == 6 && ValidFields(f) && 0 <= Seconds(f)
    ensures CivilOf(Seconds(f) / 86400) == Civil(f[0], f[1], f[2])
  {
    PartsOfSeconds(f);
    CivilUnique(Civil(f[0], f[1], f[2]));
  }

  lemma TimePart(f: seq<nat>)
    requires |f| == 6 && ValidFields(f)
    ensures var s := Seconds(f) % 86400;
            s / 3600 == f[3] && s / 60 % 60 == f[4] && s % 60 == f[5]
  {
    PartsOfSeconds(f);
    TimeParts(f[3], f[4], f[5]);
  }

  lemma PartsOfSeconds(f: seq<nat>)
    requires |f| == 6 && ValidFields(f)
    ensures Seconds(f) / 86400 == DayNumber(f[0], f[1], f[2])
    ensures Seconds(f) % 86400 == f[3] * 3600 + f[4] * 60 + f[5]
  {
    DayAndTime(DayNumber(f[0], f[1], f[2]), f[3] * 3600 + f[4] * 60 + f[5]);
  }

  lemma DayAndTime(day: int, s: nat)
    requires s < 86400
    ensures (day * 86400 + s) / 86400 == day && (day * 86400 + s) % 86400 == s
  {
  }

  lemma TimeParts(h: nat, m: nat, s: nat)
    requires m < 60 && s < 60
    ensures var t := h * 3600 + m * 60 + s; t / 3600 == h && t / 60 % 60 == m && t % 60 == s
  {
    assert (h * 3600 + m * 60 + s) / 60 == h * 60 + m;
  }
}
