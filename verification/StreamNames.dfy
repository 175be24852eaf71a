/**
The names of streams: three parts escaped as URI components and joined with colons. The last part
of a reservation's or a counter's name is itself joined from smaller ones, without escaping.
*/
module StreamNames {

  // ----- Escaping -------------------------------------------------------------------------

  /** The characters `encodeURIComponent` leaves alone, but for the full stop, which is escaped as well. */
  predicate IsPlain(c: char) {
    || 'A' <= c <= 'Z' || 'a' <= c <= 'z' || '0' <= c <= '9'
    || c == '-' || c == '_' || c == '!' || c == '~' || c == '*' || c == '\'' || c == '(' || c == ')'
  }

  type Byte = n: int | 0 <= n < 0x100

  /** The UTF-8 bytes of a character. */
  function Bytes(c: char): (bytes: seq<Byte>)
    ensures 1 <= |bytes| <= 4
  {
    var n := c as int;
    if n < 0x80 then [n]
    else if n < 0x800 then [0xC0 + n / 0x40, 0x80 + n % 0x40]
    else if n < 0x10000 then [0xE0 + n / 0x1000, 0x80 + n / 0x40 % 0x40, 0x80 + n % 0x40]
    else [0xF0 + n / 0x40000, 0x80 + n / 0x1000 % 0x40, 0x80 + n / 0x40 % 0x40, 0x80 + n % 0x40]
  }

  function HexDigit(n: nat): (c: char)
    requires n < 16
    ensures c != ':' && c != '%'
  {
    "0123456789ABCDEF"[n]
  }

  function Percent(byte: Byte): string {
    ['%', HexDigit(byte / 16), HexDigit(byte % 16)]
  }

  function Percents(bytes: seq<Byte>): (text: string)
    ensures |text| == 3 * |bytes|
  {
    if bytes == [] then "" else Percent(bytes[0]) + Percents(bytes[1..])
  }

  function EscapeChar(c: char): string {
    if IsPlain(c) then [c] else Percents(Bytes(c))
  }

  function EscapePart(text: string): string {
    if text == "" then "" else EscapeChar(text[0]) + EscapePart(text[1..])
  }

  lemma HexDigitIsInjective(m: nat, n: nat)
    requires m < 16 && n < 16 && HexDigit(m) == HexDigit(n)
    ensures m == n
  {
    var digits := "0123456789ABCDEF";
    assert forall i | 0 <= i < 16 :: digits[i] as int == if i < 10 then '0' as int + i else 'A' as int + i - 10;
  }

  lemma {:induction false} PercentIsInjective(a: Byte, b: Byte)
    requires Percent(a) == Percent(b)
    ensures a == b
  {
    assert Percent(a)[1] == Percent(b)[1] && Percent(a)[2] == Percent(b)[2];
    HexDigitIsInjective(a / 16, b / 16);
    HexDigitIsInjective(a % 16, b % 16);
  }

  lemma {:induction false} PercentsAreInjective(a: seq<Byte>, b: seq<Byte>)
    requires |a| == |b| && Percents(a) == Percents(b)
    ensures a == b
  {
    if a != [] {
      assert Percents(a)[..3] == Percent(a[0]) && Percents(b)[..3] == Percent(b[0]);
      assert Percents(a)[3..] == Percents(a[1..]) && Percents(b)[3..] == Percents(b[1..]);
      PercentIsInjective(a[0], b[0]);
      PercentsAreInjective(a[1..], b[1..]);
      assert a == [a[0]] + a[1..] && b == [b[0]] + b[1..];
    }
  }

  /** The first byte tells how many follow. */
  lemma FirstByteDecides(c: char, d: char)
    requires Bytes(c)[0] == Bytes(d)[0]
    ensures |Bytes(c)| == |Bytes(d)|
  {
  }

  /** The number a character's bytes stand for. */
  function Code(bytes: seq<int>): int
    requires 1 <= |bytes| <= 4
  {
    if |bytes| == 1 then bytes[0]
    else if |bytes| == 2 then (bytes[0] - 0xC0) * 0x40 + (bytes[1] - 0x80)
    else if |bytes| == 3 then (bytes[0] - 0xE0) * 0x1000 + (bytes[1] - 0x80) * 0x40 + (bytes[2] - 0x80)
    else (bytes[0] - 0xF0) * 0x40000 + (bytes[1] - 0x80) * 0x1000 + (bytes[2] - 0x80) * 0x40 + (bytes[3] - 0x80)
  }

  lemma Sixties(n: nat)
    ensures n == n / 0x40 * 0x40 + n % 0x40
    ensures n / 0x1000 == n / 0x40 / 0x40 && n / 0x40000 == n / 0x1000 / 0x40
  {
  }

  lemma {:induction false} BytesGiveCode(c: char)
    ensures Code(Bytes(c)) == c as int
  {
    var n := c as int;
    Sixties(n);
    Sixties(n / 0x40);
    Sixties(n / 0x1000);
  }

  lemma {:induction false} EscapedIsPlain(text: string)
    ensures ':' !in EscapePart(text)
  {
    if text != "" {
      EscapedIsPlain(text[1..]);
      if !IsPlain(text[0]) {
        PercentsArePlain(Bytes(text[0]));
      }
    }
  }

  lemma {:induction false} PercentsArePlain(bytes: seq<Byte>)
    ensures ':' !in Percents(bytes)
  {
    if bytes != [] {
      PercentsArePlain(bytes[1..]);
    }
  }

  /** The escape of a character, read off the front of a text, gives the character. */
  lemma {:induction false} FrontIsInjective(c: char, a: string, d: char, b: string)
    requires EscapeChar(c) + a == EscapeChar(d) + b
    ensures c == d && a == b
  {
    var text := EscapeChar(c) + a;
    assert text[0] == EscapeChar(c)[0] == EscapeChar(d)[0];
    if !IsPlain(c) && !IsPlain(d) {
      var m, n := Bytes(c), Bytes(d);
      assert text[..3] == Percents(m)[..3] == Percent(m[0]);
      assert text[..3] == Percents(n)[..3] == Percent(n[0]);
      PercentIsInjective(m[0], n[0]);
      FirstByteDecides(c, d);
      assert text[..3 * |m|] == Percents(m) == Percents(n);
      PercentsAreInjective(m, n);
      BytesGiveCode(c);
      BytesGiveCode(d);
    }
    assert a == text[|EscapeChar(c)|..] && b == text[|EscapeChar(d)|..];
  }

  lemma {:induction false} EscapePartIsInjective(a: string, b: string)
    requires EscapePart(a) == EscapePart(b)
    ensures a == b
  {
    if a != "" && b != "" {
      FrontIsInjective(a[0], EscapePart(a[1..]), b[0], EscapePart(b[1..]));
      EscapePartIsInjective(a[1..], b[1..]);
      assert a == [a[0]] + a[1..] && b == [b[0]] + b[1..];
    } else {
      EscapeIsSomething(a);
      EscapeIsSomething(b);
    }
  }

  lemma EscapeIsSomething(text: string)
    ensures EscapePart(text) == "" <==> text == ""
  {
    if text != "" {
      assert |EscapeChar(text[0])| >= 1;
    }
  }

  // ----- Joining --------------------------------------------------------------------------

  lemma {:induction false} NoColonBefore(a: string, x: string, i: nat)
    requires ':' !in a && i < |a + ":" + x|
    ensures i < |a| ==> (a + ":" + x)[i] != ':'
  {
    if i < |a| {
      assert (a + ":" + x)[i] == a[i];
    }
  }

  lemma {:induction false} SplitAtColon(a: string, x: string, b: string, y: string)
    requires ':' !in a && ':' !in b && a + ":" + x == b + ":" + y
    ensures a == b && x == y
  {
    var text := a + ":" + x;
    assert text[|a|] == ':' && text[|b|] == ':';
    NoColonBefore(a, x, |b|);
    NoColonBefore(b, y, |a|);
    assert a == text[..|a|] && b == text[..|b|] && x == text[|a| + 1..] && y == text[|b| + 1..];
  }

  function DocumentStreamName(tenant: string, docType: string, name: string): string {
    EscapePart(tenant) + ":" + (EscapePart(docType) + ":" + EscapePart(name))
  }

  /** Different documents have different streams, whatever characters their names hold. */
  lemma {:induction false} DocumentStreamNameIsInjective(t: string, d: string, n: string, u: string, e: string, m: string)
    requires DocumentStreamName(t, d, n) == DocumentStreamName(u, e, m)
    ensures t == u && d == e && n == m
  {
    EscapedIsPlain(t);
    EscapedIsPlain(u);
    SplitAtColon(EscapePart(t), EscapePart(d) + ":" + EscapePart(n), EscapePart(u), EscapePart(e) + ":" + EscapePart(m));
    EscapedIsPlain(d);
    EscapedIsPlain(e);
    SplitAtColon(EscapePart(d), EscapePart(n), EscapePart(e), EscapePart(m));
    EscapePartIsInjective(t, u);
    EscapePartIsInjective(d, e);
    EscapePartIsInjective(n, m);
  }

  function UniqueValueName(docType: string, field: string, key: string): string {
    docType + ":" + (field + ":" + key)
  }

  /** Names of DocTypes and fields hold no colon, so a reservation's name gives back all it was built from. */
  lemma {:induction false} UniqueValueNameIsInjective(d: string, f: string, k: string, e: string, g: string, l: string)
    requires ':' !in d && ':' !in f && ':' !in e && ':' !in g
    requires UniqueValueName(d, f, k) == UniqueValueName(e, g, l)
    ensures d == e && f == g && k == l
  {
    SplitAtColon(d, f + ":" + k, e, g + ":" + l);
    SplitAtColon(f, k, g, l);
  }

  function CounterName(counter: string, scope: string): string {
    if scope == "" then counter else counter + ":" + scope
  }

  function NamingSeriesName(docType: string, counter: string, scope: string): string {
    docType + ":" + CounterName(counter, scope)
  }

  /** The longer counter is the shorter one with the front of its scope. */
  predicate IsCutElsewhere(counter: string, scope: string, longer: string, rest: string) {
    && |counter| < |longer| && longer[..|counter|] == counter && longer[|counter|] == ':'
    && scope == CounterName(longer[|counter| + 1..], rest) && scope != ""
  }

  lemma {:induction false} CounterNamesAgree(c: string, s: string, d: string, r: string)
    requires |c| <= |d|
    ensures CounterName(c, s) == CounterName(d, r) <==> (c == d && s == r) || IsCutElsewhere(c, s, d, r)
  {
    var a, b := CounterName(c, s), CounterName(d, r);
    assert a[..|c|] == c && b[..|d|] == d;
    assert s != "" ==> a[|c|] == ':' && a[|c| + 1..] == s;
    assert r != "" ==> b[|d|] == ':' && b[|d| + 1..] == r;
    if |c| < |d| {
      var tail := d[|c| + 1..];
      assert d == d[..|c|] + [d[|c|]] + tail;
      assert b[|c| + 1..] == CounterName(tail, r);
      assert b[..|c|] == d[..|c|] && b[|c|] == d[|c|];
      if IsCutElsewhere(c, s, d, r) {
        assert b == b[..|c|] + [b[|c|]] + b[|c| + 1..];
        assert a == c + ":" + s;
      }
    }
  }

  /**
  Two counters share a stream exactly when they are the same, or one of them has a colon in it and
  is the other with the front of the other's scope.
  */
  lemma {:induction false} NamingSeriesNamesAgree(t: string, c: string, s: string, u: string, d: string, r: string)
    requires ':' !in t && ':' !in u
    ensures NamingSeriesName(t, c, s) == NamingSeriesName(u, d, r) <==>
            t == u && ((c == d && s == r) || IsCutElsewhere(c, s, d, r) || IsCutElsewhere(d, r, c, s))
  {
    if NamingSeriesName(t, c, s) == NamingSeriesName(u, d, r) {
      SplitAtColon(t, CounterName(c, s), u, CounterName(d, r));
    }
    if |c| <= |d| {
      CounterNamesAgree(c, s, d, r);
    } else {
      CounterNamesAgree(d, r, c, s);
    }
  }

  /** Two patterns used as their own counters: one starts anew each year, the other has a colon and that year in it. */
  lemma {:induction false} CountersCanShare()
    ensures NamingSeriesName("Bill", "B{YYYY}-##:date=2024", "") == NamingSeriesName("Bill", "B{YYYY}-##", "date=2024")
  {
    assert "B{YYYY}-##:date=2024" == "B{YYYY}-##" + ":" + "date=2024";
  }
}
