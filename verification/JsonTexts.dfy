/** Arrays of strings as JSON text (sections 5 and 7 of RFC 8259), with the escapes that JSON.stringify writes. Different
    arrays have different texts, whatever follows them. */
module JsonTexts {

  function HexDigit(n: nat): char
    requires n < 16
  {
    "0123456789abcdef"[n]
  }

  function Escape(c: char): string {
    if c == '"' then "\\\""
    else if c == '\\' then "\\\\"
    else if c == '\U{8}' then "\\b"
    else if c == '\t' then "\\t"
    else if c == '\n' then "\\n"
    else if c == '\U{c}' then "\\f"
    else if c == '\r' then "\\r"
    else if c as int < 0x20 then ['\\', 'u', '0', '0', HexDigit(c as int / 16), HexDigit(c as int % 16)]
    else [c]
  }

  function Escaped(s: string): string {
    if s == "" then "" else Escape(s[0]) + Escaped(s[1..])
  }

  function Quoted(s: string): string {
    "\"" + Escaped(s) + "\""
  }

  /** The items and the closing bracket. */
  function Items(items: seq<string>): string
    requires items != []
  {
    if |items| == 1 then Quoted(items[0]) + "]" else Quoted(items[0]) + "," + Items(items[1..])
  }

  function ArrayText(items: seq<string>): string
    requires items != []
  {
    "[" + Items(items)
  }

  predicate Plain(c: char) {
    c != '"' && c != '\\' && c as int >= 0x20
  }

  lemma EscapeStarts(c: char)
    ensures |Escape(c)| > 0 && Escape(c)[0] == if Plain(c) then c else '\\'
    ensures Plain(c) ==> Escape(c) == [c]
    ensures !Plain(c) ==> |Escape(c)| >= 2
  {
  }

  lemma HexOrder(a: nat, b: nat)
    requires a < 32 && b < 32
    ensures HexDigit(a / 16) == HexDigit(b / 16) && HexDigit(a % 16) == HexDigit(b % 16) ==> a == b
  {
    SameDigit(a / 16, b / 16);
    SameDigit(a % 16, b % 16);
  }

  lemma SameDigit(m: nat, n: nat)
    requires m < 16 && n < 16
    ensures HexDigit(m) == HexDigit(n) ==> m == n
  {
  }

  /** Two escapes at the same place are the same escape. */
  lemma EscapeDecides(c: char, d: char, s: string)
    requires Escape(c) <= s && Escape(d) <= s
    ensures c == d
  {
    EscapeStarts(c);
    EscapeStarts(d);
    assert Escape(c)[0] == s[0] == Escape(d)[0];
    if !Plain(c) {
      assert Escape(c)[1] == s[1] == Escape(d)[1];
      if Escape(c)[1] == 'u' {
        assert Escape(c)[4] == s[4] == Escape(d)[4] && Escape(c)[5] == s[5] == Escape(d)[5];
        HexOrder(c as int, d as int);
      }
    }
  }

  // Regrouping texts.

  lemma SameFront(a: string, x: string, y: string)
    requires a + x == a + y
    ensures x == y
  {
    assert (a + x)[|a|..] == x && (a + y)[|a|..] == y;
  }

  lemma Group3(a: string, b: string, c: string)
    ensures (a + b) + c == a + (b + c)
  {
  }

  lemma Group4(a: string, b: string, c: string, d: string)
    ensures ((a + b) + c) + d == a + (b + (c + d))
  {
    Group3(a + b, c, d);
    Group3(a, b, c + d);
  }

  // Texts decide.

  lemma EscapedUnfolds(s: string, tail: string)
    requires s != ""
    ensures Escaped(s) + tail == Escape(s[0]) + (Escaped(s[1..]) + tail)
    ensures Escape(s[0]) <= Escaped(s) + tail
  {
    Group3(Escape(s[0]), Escaped(s[1..]), tail);
  }

  /** The closing quote ends the string. */
  lemma {:induction false} EscapedDecides(a: string, b: string, x: string, y: string)
    requires Escaped(a) + ("\"" + x) == Escaped(b) + ("\"" + y)
    ensures a == b && x == y
  {
    if a != "" && b != "" {
      EscapedUnfolds(a, "\"" + x);
      EscapedUnfolds(b, "\"" + y);
      EscapeDecides(a[0], b[0], Escaped(a) + ("\"" + x));
      SameFront(Escape(a[0]), Escaped(a[1..]) + ("\"" + x), Escaped(b[1..]) + ("\"" + y));
      EscapedDecides(a[1..], b[1..], x, y);
      assert a == [a[0]] + a[1..] && b == [b[0]] + b[1..];
    } else if a != "" {
      QuoteStartsNone(a, "\"" + x);
    } else if b != "" {
      QuoteStartsNone(b, "\"" + y);
    } else {
      assert Escaped(a) + ("\"" + x) == "\"" + x && Escaped(b) + ("\"" + y) == "\"" + y;
      SameFront("\"", x, y);
    }
  }

  lemma QuoteStartsNone(s: string, tail: string)
    requires s != ""
    ensures (Escaped(s) + tail)[0] != '"'
  {
    EscapeStarts(s[0]);
  }

  lemma QuotedDecides(a: string, b: string, x: string, y: string)
    requires Quoted(a) + x == Quoted(b) + y
    ensures a == b && x == y
  {
    Group4("\"", Escaped(a), "\"", x);
    Group4("\"", Escaped(b), "\"", y);
    SameFront("\"", Escaped(a) + ("\"" + x), Escaped(b) + ("\"" + y));
    EscapedDecides(a, b, x, y);
  }

  lemma {:induction false} ItemsDecide(a: seq<string>, b: seq<string>, x: string, y: string)
    requires |a| == |b| && a != [] && Items(a) + x == Items(b) + y
    ensures a == b && x == y
  {
    if |a| == 1 {
      LastDecides(a[0], b[0], x, y);
    } else {
      FirstDecides(a[0], b[0], Items(a[1..]), Items(b[1..]), x, y);
      ItemsDecide(a[1..], b[1..], x, y);
      assert a == [a[0]] + a[1..] && b == [b[0]] + b[1..];
    }
  }

  lemma LastDecides(a: string, b: string, x: string, y: string)
    requires Quoted(a) + "]" + x == Quoted(b) + "]" + y
    ensures a == b && x == y
  {
    Group3(Quoted(a), "]", x);
    Group3(Quoted(b), "]", y);
    QuotedDecides(a, b, "]" + x, "]" + y);
    SameFront("]", x, y);
  }

  lemma FirstDecides(a: string, b: string, p: string, q: string, x: string, y: string)
    requires Quoted(a) + "," + p + x == Quoted(b) + "," + q + y
    ensures a == b && p + x == q + y
  {
    Group4(Quoted(a), ",", p, x);
    Group4(Quoted(b), ",", q, y);
    QuotedDecides(a, b, "," + (p + x), "," + (q + y));
    SameFront(",", p + x, q + y);
  }

  /** The text determines the array, whatever follows. */
  lemma ArrayTextDecides(a: seq<string>, b: seq<string>, x: string, y: string)
    requires |a| == |b| && a != [] && ArrayText(a) + x == ArrayText(b) + y
    ensures a == b && x == y
  {
    Group3("[", Items(a), x);
    Group3("[", Items(b), y);
    SameFront("[", Items(a) + x, Items(b) + y);
    ItemsDecide(a, b, x, y);
  }
}
