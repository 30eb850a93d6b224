/** Two orders on texts. SQLite orders by code points, as `Less` does; JavaScript compares UTF-16 code units. They differ
    where a character from U+E000 to U+FFFF meets one beyond U+FFFF. */
module TextOrders {
  import opened Common

  /** The UTF-16 code units of a character (section 2.1 of RFC 2781). */
  function UnitsOf(c: char): seq<nat> {
    var n := c as int;
    if n < 0x1_0000 then [n] else [0xD800 + (n - 0x1_0000) / 0x400, 0xDC00 + (n - 0x1_0000) % 0x400]
  }

  function Units(s: string): seq<nat> {
    if s == "" then [] else UnitsOf(s[0]) + Units(s[1..])
  }

  predicate UnitsLess(a: seq<nat>, b: seq<nat>) {
    if b == [] then false
    else if a == [] then true
    else if a[0] != b[0] then a[0] < b[0]
    else UnitsLess(a[1..], b[1..])
  }

  /** The `<` of JavaScript on strings. */
  predicate Less16(a: string, b: string) {
    UnitsLess(Units(a), Units(b))
  }

  /** The place of a character among the others in that order. */
  function Rank(c: char): nat {
    var n := c as int;
    if 0xE000 <= n < 0x1_0000 then 0x11_0000 + n else n
  }

  lemma CharactersByRank(c: char, d: char, x: seq<nat>, y: seq<nat>)
    ensures c == d ==> UnitsLess(UnitsOf(c) + x, UnitsOf(d) + y) == UnitsLess(x, y)
    ensures c != d ==> UnitsLess(UnitsOf(c) + x, UnitsOf(d) + y) == (Rank(c) < Rank(d))
    ensures Rank(c) == Rank(d) ==> c == d
  {
    var a, b := UnitsOf(c) + x, UnitsOf(d) + y;
    assert a[0] == UnitsOf(c)[0] && b[0] == UnitsOf(d)[0];
    assert |UnitsOf(c)| == 1 ==> a[1..] == x;
    assert |UnitsOf(d)| == 1 ==> b[1..] == y;
    if |UnitsOf(c)| == 2 && |UnitsOf(d)| == 2 {
      assert a[1] == UnitsOf(c)[1] && b[1] == UnitsOf(d)[1] && a[1..][1..] == x && b[1..][1..] == y;
      assert a[0] == b[0] ==> UnitsLess(a, b) == UnitsLess(a[1..], b[1..]);
    }
  }

  /** Two texts are in this order as their first different characters are by rank. */
  lemma Less16ByRank(a: string, b: string)
    ensures b == "" ==> !Less16(a, b)
    ensures a == "" && b != "" ==> Less16(a, b)
    ensures a != "" && b != "" ==>
              Less16(a, b) == if a[0] == b[0] then Less16(a[1..], b[1..]) else Rank(a[0]) < Rank(b[0])
  {
    if a != "" && b != "" {
      CharactersByRank(a[0], b[0], Units(a[1..]), Units(b[1..]));
    }
  }

  lemma {:induction false} Less16Irreflexive(a: string)
    ensures !Less16(a, a)
  {
    Less16ByRank(a, a);
    if a != "" {
      Less16Irreflexive(a[1..]);
    }
  }

  lemma {:induction false} Less16Transitive(a: string, b: string, c: string)
    requires Less16(a, b) && Less16(b, c)
    ensures Less16(a, c)
  {
    Less16ByRank(a, b);
    Less16ByRank(b, c);
    Less16ByRank(a, c);
    if a != "" && a[0] == b[0] == c[0] {
      Less16Transitive(a[1..], b[1..], c[1..]);
    }
  }

  lemma {:induction false} Less16Total(a: string, b: string)
    ensures Less16(a, b) || Less16(b, a) || a == b
  {
    Less16ByRank(a, b);
    Less16ByRank(b, a);
    if a != "" && b != "" {
      CharactersByRank(a[0], b[0], [], []);
      if a[0] == b[0] {
        Less16Total(a[1..], b[1..]);
        assert a == [a[0]] + a[1..] && b == [b[0]] + b[1..];
      }
    }
  }

  lemma Less16Asymmetric(a: string, b: string)
    requires Less16(a, b)
    ensures !Less16(b, a) && a != b
  {
    Less16Irreflexive(a);
    if Less16(b, a) {
      Less16Transitive(a, b, a);
    }
  }

  /** Where they first differ, `a` has a character from U+E000 to U+FFFF and `b` one beyond. */
  predicate Swapped(a: string, b: string) {
    a != "" && b != "" && if a[0] == b[0] then Swapped(a[1..], b[1..]) else 0xE000 <= a[0] as int < 0x1_0000 <= b[0] as int
  }

  /** Exactly these pairs are ordered differently. */
  lemma {:induction false} OrdersDiffer(a: string, b: string)
    ensures Less(a, b) && Less16(b, a) <==> Swapped(a, b)
  {
    Less16ByRank(b, a);
    if a != "" && b != "" && a[0] == b[0] {
      OrdersDiffer(a[1..], b[1..]);
    }
  }

  /** The two orders are the same on these names. */
  ghost predicate OrdersAgree(names: set<string>) {
    forall a, b :: a in names && b in names && Less(a, b) ==> Less16(a, b)
  }

  lemma OrdersAgreeExactly(names: set<string>)
    ensures OrdersAgree(names) <==> forall a, b :: a in names && b in names ==> !Swapped(a, b)
  {
    forall a, b | a in names && b in names ensures (Less(a, b) ==> Less16(a, b)) <==> !Swapped(a, b) {
      OrdersDiffer(a, b);
      Less16Total(a, b);
      if Less(a, b) {
        LessIrreflexive(a);
        if Less16(a, b) {
          Less16Asymmetric(a, b);
        }
      }
    }
  }

  predicate IsBasic(s: string) {
    forall i :: 0 <= i < |s| ==> s[i] as int < 0x1_0000
  }

  lemma {:induction false} BasicIsNotSwapped(a: string, b: string)
    requires IsBasic(b)
    ensures !Swapped(a, b)
  {
    if a != "" && b != "" && a[0] == b[0] {
      BasicIsNotSwapped(a[1..], b[1..]);
    }
  }

  /** They are the same on names without a character beyond U+FFFF. */
  lemma BasicNamesAgree(names: set<string>)
    requires forall n :: n in names ==> IsBasic(n)
    ensures OrdersAgree(names)
  {
    OrdersAgreeExactly(names);
    forall a, b | a in names && b in names ensures !Swapped(a, b) {
      BasicIsNotSwapped(a, b);
    }
  }

  // UTF-8.

  /** The octets of a character (section 3 of RFC 3629). */
  function Utf8Of(c: char): seq<nat> {
    var n := c as int;
    if n < 0x80 then [n]
    else if n < 0x800 then [0xC0 + n / 64, 0x80 + n % 64]
    else if n < 0x1_0000 then [0xE0 + n / 4096, 0x80 + n / 64 % 64, 0x80 + n % 64]
    else [0xF0 + n / 262144, 0x80 + n / 4096 % 64, 0x80 + n / 64 % 64, 0x80 + n % 64]
  }

  function Utf8(s: string): seq<nat> {
    if s == "" then [] else Utf8Of(s[0]) + Utf8(s[1..])
  }

  lemma Sextets(n: nat)
    ensures n == n / 64 * 64 + n % 64
    ensures n / 4096 == n / 64 / 64 && n / 262144 == n / 4096 / 64
  {
  }

  lemma ThreeSextets(n: nat)
    ensures n == n / 4096 * 4096 + n / 64 % 64 * 64 + n % 64
  {
    Sextets(n);
    Sextets(n / 64);
  }

  lemma FourSextets(n: nat)
    ensures n == n / 262144 * 262144 + n / 4096 % 64 * 4096 + n / 64 % 64 * 64 + n % 64
  {
    ThreeSextets(n);
    Sextets(n);
    Sextets(n / 4096);
  }

  /** What the octets stand for: the first one tells how many there are. */
  function Read(b: seq<int>): int
    requires 1 <= |b| <= 4
  {
    if |b| == 1 then b[0]
    else if |b| == 2 then (b[0] - 0xC0) * 64 + (b[1] - 0x80)
    else if |b| == 3 then (b[0] - 0xE0) * 4096 + (b[1] - 0x80) * 64 + (b[2] - 0x80)
    else (b[0] - 0xF0) * 262144 + (b[1] - 0x80) * 4096 + (b[2] - 0x80) * 64 + (b[3] - 0x80)
  }

  /** Reading them back gives the character, and no character has more octets than it needs. */
  lemma Utf8Reads(c: char)
    ensures var b, n := Utf8Of(c), c as int;
            && 1 <= |b| <= 4 && Read(b) == n
            && (|b| == 1 <==> n < 128) && (|b| <= 2 <==> n < 2048) && (|b| <= 3 <==> n < 65536)
  {
    var n := c as int;
    Sextets(n);
    ThreeSextets(n);
    FourSextets(n);
  }
}
