/** Quoted scalars: the ASCII form `json.dumps` gives a string, and a reader for it. */
module JsonText {
  import opened Text

  // ---------------------------------------------------------------- four hexadecimal digits

  function HexChar(d: nat): char
    requires d < 16
  {
    if d < 10 then ('0' as int + d) as char else ('a' as int + (d - 10)) as char
  }

  predicate IsHex(c: char) {
    '0' <= c <= '9' || 'a' <= c <= 'f'
  }

  function HexValue(c: char): (d: nat)
    requires IsHex(c)
    ensures d < 16
  {
    if c <= '9' then c as int - '0' as int else c as int - 'a' as int + 10
  }

  function Hex4(n: nat): (s: string)
    requires n < 0x10000
    ensures |s| == 4 && forall i :: 0 <= i < 4 ==> IsHex(s[i])
  {
    [HexChar(n / 0x1000), HexChar(n / 0x100 % 0x10), HexChar(n / 0x10 % 0x10), HexChar(n % 0x10)]
  }

  predicate IsHex4(s: string) {
    |s| >= 4 && IsHex(s[0]) && IsHex(s[1]) && IsHex(s[2]) && IsHex(s[3])
  }

  function ParseHex4(s: string): (n: nat)
    requires IsHex4(s)
    ensures n < 0x10000
  {
    0x1000 * HexValue(s[0]) + 0x100 * HexValue(s[1]) + 0x10 * HexValue(s[2]) + HexValue(s[3])
  }

  lemma HexDigits(n: nat)
    requires n < 0x10000
    ensures 0x1000 * (n / 0x1000) + 0x100 * (n / 0x100 % 0x10) + 0x10 * (n / 0x10 % 0x10) + n % 0x10 == n
  {
    var a, b := n / 0x10, n / 0x100;
    assert b == a / 0x10 && n / 0x1000 == b / 0x10;
  }

  lemma ParseHex4OfHex4(n: nat, rest: string)
    requires n < 0x10000
    ensures IsHex4(Hex4(n) + rest) && ParseHex4(Hex4(n) + rest) == n
  {
    var a, b, c, d := n / 0x1000, n / 0x100 % 0x10, n / 0x10 % 0x10, n % 0x10;
    HexDigits(n);
    var s := Hex4(n) + rest;
    assert s[0] == HexChar(a) && s[1] == HexChar(b) && s[2] == HexChar(c) && s[3] == HexChar(d);
  }

  // ---------------------------------------------------------------- printing

  const HIGH_SURROGATE := 0xD800
  const LOW_SURROGATE := 0xDC00
  const SURROGATE_END := 0xE000

  /** Characters with a two-character escape. */
  function ShortEscape(c: char): Option<char> {
    var n := c as int;
    if n == 0x22 then Some('"')
    else if n == 0x5C then Some('\\')
    else if n == 0x0A then Some('n')
    else if n == 0x0D then Some('r')
    else if n == 0x09 then Some('t')
    else if n == 0x0C then Some('f')
    else if n == 0x08 then Some('b')
    else None
  }

  function ShortUnescape(c: char): Option<char> {
    if c == '"' then Some('"')
    else if c == '\\' then Some('\\')
    else if c == '/' then Some('/')
    else if c == 'n' then Some(0x0A as char)
    else if c == 'r' then Some(0x0D as char)
    else if c == 't' then Some(0x09 as char)
    else if c == 'f' then Some(0x0C as char)
    else if c == 'b' then Some(0x08 as char)
    else None
  }

  function UnicodeEscape(n: nat): (s: string)
    requires n < 0x10000
    ensures |s| == 6
  {
    "\\u" + Hex4(n)
  }

  function EscapeChar(c: char): string {
    var n := c as int;
    if ShortEscape(c).Some? then ['\\', ShortEscape(c).value]
    else if 0x20 <= n <= 0x7E then [c]
    else if n < 0x10000 then UnicodeEscape(n)
    else
      var v := n - 0x10000;
      UnicodeEscape(HIGH_SURROGATE + v / 0x400) + UnicodeEscape(LOW_SURROGATE + v % 0x400)
  }

  function EscapeAll(s: string): string {
    if s == "" then "" else EscapeChar(s[0]) + EscapeAll(s[1..])
  }

  function JsonDumps(s: string): string {
    "\"" + EscapeAll(s) + "\""
  }

  // ---------------------------------------------------------------- reading

  function Prepend(c: char, s: Option<string>): Option<string> {
    if s.Some? then Some([c] + s.value) else None
  }

  /** Reads the characters up to a closing quote, which must end the text. */
  function Unescape(s: string): (r: Option<string>)
    ensures r.Some? ==> |r.value| < |s|
    decreases |s|
  {
    if s == "" then None
    else if s[0] == '"' then (if |s| == 1 then Some("") else None)
    else if s[0] != '\\' then Prepend(s[0], Unescape(s[1..]))
    else if |s| < 2 then None
    else if s[1] != 'u' then
      (if ShortUnescape(s[1]).Some? then Prepend(ShortUnescape(s[1]).value, Unescape(s[2..])) else None)
    else if !IsHex4(s[2..]) then None
    else
      var n := ParseHex4(s[2..]);
      if n < HIGH_SURROGATE || SURROGATE_END <= n then Prepend(n as char, Unescape(s[6..]))
      else if LOW_SURROGATE <= n || |s| < 8 || s[6] != '\\' || s[7] != 'u' || !IsHex4(s[8..]) then None
      else
        var low := ParseHex4(s[8..]);
        if low < LOW_SURROGATE || SURROGATE_END <= low then None
        else Prepend((0x10000 + (n - HIGH_SURROGATE) * 0x400 + (low - LOW_SURROGATE)) as char, Unescape(s[12..]))
  }

  function JsonLoads(s: string): (r: Option<string>)
    ensures r.Some? ==> |r.value| < |s|
  {
    if s != "" && s[0] == '"' then Unescape(s[1..]) else None
  }

  // ---------------------------------------------------------------- every string survives quoting

  lemma UnescapeUnicode(n: nat, rest: string)
    requires n < HIGH_SURROGATE || SURROGATE_END <= n < 0x10000
    ensures Unescape(UnicodeEscape(n) + rest) == Prepend(n as char, Unescape(rest))
  {
    var s := UnicodeEscape(n) + rest;
    assert s[2..] == Hex4(n) + rest;
    assert s[6..] == rest;
    ParseHex4OfHex4(n, rest);
  }

  lemma UnescapePair(high: nat, low: nat, rest: string)
    requires HIGH_SURROGATE <= high < LOW_SURROGATE <= low < SURROGATE_END
    ensures Unescape(UnicodeEscape(high) + UnicodeEscape(low) + rest) ==
            Prepend((0x10000 + (high - HIGH_SURROGATE) * 0x400 + (low - LOW_SURROGATE)) as char, Unescape(rest))
  {
    var s := UnicodeEscape(high) + UnicodeEscape(low) + rest;
    assert s[2..] == Hex4(high) + (UnicodeEscape(low) + rest);
    ParseHex4OfHex4(high, UnicodeEscape(low) + rest);
    assert s[8..] == Hex4(low) + rest;
    ParseHex4OfHex4(low, rest);
    assert s[12..] == rest;
    assert s[6] == '\\' && s[7] == 'u';
  }

  lemma UnescapeShort(c: char, rest: string)
    requires ShortEscape(c).Some?
    ensures Unescape(['\\', ShortEscape(c).value] + rest) == Prepend(c, Unescape(rest))
  {
    var e := ShortEscape(c).value;
    var s := ['\\', e] + rest;
    assert s[0] == '\\' && s[1] == e && s[2..] == rest;
    assert e != 'u' && ShortUnescape(e) == Some(c);
  }

  lemma UnescapePrintable(c: char, rest: string)
    requires c != '"' && c != '\\'
    ensures Unescape([c] + rest) == Prepend(c, Unescape(rest))
  {
    assert ([c] + rest)[1..] == rest;
  }

  predicate PairOf(high: nat, low: nat, c: char) {
    && HIGH_SURROGATE <= high < LOW_SURROGATE <= low < SURROGATE_END
    && 0x10000 + (high - HIGH_SURROGATE) * 0x400 + (low - LOW_SURROGATE) == c as int
  }

  /** A character beyond the first plane is escaped as its two surrogates. */
  lemma AstralEscape(c: char) returns (high: nat, low: nat)
    requires 0x10000 <= c as int
    ensures PairOf(high, low, c) && EscapeChar(c) == UnicodeEscape(high) + UnicodeEscape(low)
  {
    var v := c as int - 0x10000;
    high, low := HIGH_SURROGATE + v / 0x400, LOW_SURROGATE + v % 0x400;
    assert ShortEscape(c).None?;
  }

  lemma UnescapePairOf(escape: string, high: nat, low: nat, c: char, rest: string)
    requires PairOf(high, low, c) && escape == UnicodeEscape(high) + UnicodeEscape(low)
    ensures Unescape(escape + rest) == Prepend(c, Unescape(rest))
  {
    UnescapePair(high, low, rest);
  }

  lemma UnescapeAstral(c: char, rest: string)
    requires 0x10000 <= c as int
    ensures Unescape(EscapeChar(c) + rest) == Prepend(c, Unescape(rest))
  {
    var high, low := AstralEscape(c);
    UnescapePairOf(EscapeChar(c), high, low, c, rest);
  }

  lemma UnescapeEscapeChar(c: char, rest: string)
    ensures Unescape(EscapeChar(c) + rest) == Prepend(c, Unescape(rest))
  {
    var n := c as int;
    if ShortEscape(c).Some? {
      UnescapeShort(c, rest);
    } else if 0x20 <= n <= 0x7E {
      UnescapePrintable(c, rest);
    } else if n < 0x10000 {
      UnescapeUnicode(n, rest);
    } else {
      UnescapeAstral(c, rest);
    }
  }

  lemma {:induction false} UnescapeEscapeAll(s: string)
    ensures Unescape(EscapeAll(s) + "\"") == Some(s)
  {
    if s == "" {
      assert EscapeAll(s) + "\"" == "\"";
    } else {
      UnescapeEscapeChar(s[0], EscapeAll(s[1..]) + "\"");
      assert EscapeAll(s) + "\"" == EscapeChar(s[0]) + (EscapeAll(s[1..]) + "\"");
      UnescapeEscapeAll(s[1..]);
      assert s == [s[0]] + s[1..];
    }
  }

  lemma JsonRoundTrip(s: string)
    ensures JsonLoads(JsonDumps(s)) == Some(s)
  {
    UnescapeEscapeAll(s);
    assert JsonDumps(s)[1..] == EscapeAll(s) + "\"";
  }

  lemma {:induction false} EscapeAllOneLine(s: string)
    ensures NoNewline(EscapeAll(s))
  {
    if s != "" {
      EscapeAllOneLine(s[1..]);
      assert NoNewline(EscapeChar(s[0]));
    }
  }

  /** A quoted scalar stays on one line and starts with a quote. */
  lemma JsonOneLine(s: string)
    ensures NoNewline(JsonDumps(s)) && JsonDumps(s)[0] == '"'
  {
    EscapeAllOneLine(s);
  }

  // ---------------------------------------------------------------- what quoted text looks like

  predicate PrintableAscii(c: char) {
    0x20 <= c as int <= 0x7E
  }

  lemma EscapeCharAscii(c: char)
    ensures forall d :: d in EscapeChar(c) ==> PrintableAscii(d)
  {
  }

  lemma {:induction false} EscapeAllAscii(s: string)
    ensures forall d :: d in EscapeAll(s) ==> PrintableAscii(d)
  {
    if s != "" {
      EscapeCharAscii(s[0]);
      EscapeAllAscii(s[1..]);
    }
  }

  /** Quoted text is printable ASCII, whatever the string holds. */
  lemma JsonAscii(s: string)
    ensures forall d :: d in JsonDumps(s) ==> PrintableAscii(d)
  {
    EscapeAllAscii(s);
  }

  predicate PlainAscii(c: char) {
    PrintableAscii(c) && c != '"' && c != '\\'
  }

  lemma PlainCharKept(c: char)
    requires PlainAscii(c)
    ensures EscapeChar(c) == [c]
  {
  }

  /** Printable ASCII without quotes and backslashes is quoted as it is. */
  lemma {:induction false} PlainKept(s: string)
    requires forall c :: c in s ==> PlainAscii(c)
    ensures EscapeAll(s) == s
  {
    if s != "" {
      PlainCharKept(s[0]);
      PlainKept(s[1..]);
    }
  }

  /** Quotes, backslashes and five control characters have two-character escapes, all others six or twelve. */
  lemma ShortEscapes(c: char)
    ensures EscapeChar('"') == "\\\"" && EscapeChar('\\') == "\\\\" && EscapeChar('\n') == "\\n"
    ensures EscapeChar('\r') == "\\r" && EscapeChar('\t') == "\\t"
    ensures EscapeChar(0x0C as char) == "\\f" && EscapeChar(0x08 as char) == "\\b"
    ensures !PrintableAscii(c) && c as int !in {0x08, 0x09, 0x0A, 0x0C, 0x0D} ==>
              |EscapeChar(c)| == if c as int < 0x10000 then 6 else 12
  {
  }
}
