/** Text shared by the printers of the program: decimal numerals, prefixes and lines. */
module Text {

  datatype Option<+T> = None | Some(value: T)

  // ---------------------------------------------------------------- decimal numerals

  function DigitChar(d: nat): char
    requires d < 10
  {
    ('0' as int + d) as char
  }

  predicate IsDigit(c: char) {
    '0' <= c <= '9'
  }

  predicate AllDigits(s: string) {
    forall i :: 0 <= i < |s| ==> IsDigit(s[i])
  }

  /** The decimal numeral of a natural number, as `str` prints it. */
  function NatText(n: nat): (s: string)
    ensures |s| > 0 && AllDigits(s)
  {
    if n < 10 then [DigitChar(n)] else NatText(n / 10) + [DigitChar(n % 10)]
  }

  function IntText(n: int): string {
    if n < 0 then "-" + NatText(-n) else NatText(n)
  }

  /** The number a string of digits denotes, as `int` reads it. */
  function ParseNat(s: string): nat
    requires AllDigits(s)
  {
    if s == "" then 0 else 10 * ParseNat(s[..|s| - 1]) + (s[|s| - 1] as int - '0' as int)
  }

  lemma {:induction false} ParseNatText(n: nat)
    ensures ParseNat(NatText(n)) == n
  {
    if n < 10 {
      assert NatText(n)[..0] == "";
    } else {
      ParseNatText(n / 10);
      assert NatText(n)[..|NatText(n)| - 1] == NatText(n / 10);
    }
  }

  // ---------------------------------------------------------------- prefixes and searching

  predicate StartsWith(s: string, p: string) {
    p <= s
  }

  /** The first position of `c` in `s`, or `|s|` when there is none. */
  function IndexOf(s: string, c: char): (i: nat)
    ensures i <= |s|
    ensures i < |s| ==> s[i] == c
    ensures forall j :: 0 <= j < i ==> s[j] != c
  {
    if s == "" || s[0] == c then 0 else 1 + IndexOf(s[1..], c)
  }

  /** A text is cut at its first colon in one way only. */
  lemma ColonSplit(a: string, x: string, b: string, y: string)
    requires ':' !in a && ':' !in b
    requires a + ":" + x == b + ":" + y
    ensures a == b && x == y
  {
    var s := a + ":" + x;
    assert s[|a|] == ':' && s == b + ":" + y;
    assert (b + ":" + y)[|b|] == ':';
    assert forall i :: 0 <= i < |a| ==> s[i] == a[i] && a[i] in a;
    assert forall i :: 0 <= i < |b| ==> s[i] == b[i] && b[i] in b;
    assert |a| == |b|;
    assert a == s[..|a|] == b;
    assert x == s[|a| + 1..] == y;
  }

  // ---------------------------------------------------------------- lines

  predicate NoNewline(s: string) {
    '\n' !in s
  }

  function SplitLines(s: string): (ls: seq<string>)
    ensures |ls| > 0
    ensures forall i :: 0 <= i < |ls| ==> NoNewline(ls[i])
  {
    if s == "" then [""]
    else if s[0] == '\n' then [""] + SplitLines(s[1..])
    else
      var rest := SplitLines(s[1..]);
      [[s[0]] + rest[0]] + rest[1..]
  }

  function Join(sep: string, parts: seq<string>): string {
    if |parts| == 0 then ""
    else if |parts| == 1 then parts[0]
    else parts[0] + sep + Join(sep, parts[1..])
  }

  lemma SplitUnfold(c: char, s: string)
    ensures SplitLines([c] + s) ==
            if c == '\n' then [""] + SplitLines(s)
            else [[c] + SplitLines(s)[0]] + SplitLines(s)[1..]
  {
    assert ([c] + s)[1..] == s;
  }

  lemma {:induction false} SplitAtNewline(a: string, b: string)
    ensures SplitLines(a + "\n" + b) == SplitLines(a) + SplitLines(b)
  {
    if a == "" {
      SplitUnfold('\n', b);
      assert a + "\n" + b == ['\n'] + b;
    } else {
      SplitAtNewline(a[1..], b);
      PrependChar(a[0], a[1..], a[1..] + "\n" + b, SplitLines(b));
      assert a + "\n" + b == [a[0]] + (a[1..] + "\n" + b) && a == [a[0]] + a[1..];
    }
  }

  lemma PrependChar(c: char, s: string, t: string, more: seq<string>)
    requires SplitLines(t) == SplitLines(s) + more
    ensures SplitLines([c] + t) == SplitLines([c] + s) + more
  {
    SplitUnfold(c, s);
    SplitUnfold(c, t);
    HeadUpdate(SplitLines(s), more, [c]);
  }

  lemma HeadUpdate(xs: seq<string>, more: seq<string>, p: string)
    requires |xs| > 0
    ensures [p + (xs + more)[0]] + (xs + more)[1..] == ([p + xs[0]] + xs[1..]) + more
    ensures [""] + (xs + more) == ([""] + xs) + more
  {
  }

  /** A line-free prefix stays in front of the first line. */
  lemma {:induction false} SplitWithPrefix(a: string, b: string)
    requires NoNewline(a)
    ensures SplitLines(a + b) == [a + SplitLines(b)[0]] + SplitLines(b)[1..]
  {
    if a == "" {
      assert a + b == b && a + SplitLines(b)[0] == SplitLines(b)[0];
    } else {
      assert NoNewline(a[1..]);
      SplitWithPrefix(a[1..], b);
      assert (a + b)[1..] == a[1..] + b;
      assert (a + b)[0] == a[0] != '\n' by {
        assert a[0] in a;
      }
      assert [a[0]] + (a[1..] + SplitLines(b)[0]) == a + SplitLines(b)[0];
    }
  }

  lemma SplitOneLine(s: string)
    requires NoNewline(s)
    ensures SplitLines(s) == [s]
  {
    SplitWithPrefix(s, "");
    assert s + "" == s;
  }

  /** The first line is what precedes the first newline; it is the whole text exactly when there is none. */
  lemma {:induction false} FirstLine(s: string)
    ensures SplitLines(s)[0] <= s
    ensures NoNewline(s) <==> SplitLines(s) == [s]
    ensures SplitLines(s)[0] == s <==> NoNewline(s)
  {
    if s != "" && s[0] != '\n' {
      FirstLine(s[1..]);
      assert s == [s[0]] + s[1..];
    } else if s != "" {
      assert s[0] in s;
    }
  }

  function Flatten<T>(xss: seq<seq<T>>): seq<T> {
    if xss == [] then [] else xss[0] + Flatten(xss[1..])
  }

  lemma {:induction false} FlattenAppend<T>(a: seq<seq<T>>, b: seq<seq<T>>)
    ensures Flatten(a + b) == Flatten(a) + Flatten(b)
  {
    if a == [] {
      assert a + b == b;
    } else {
      FlattenAppend(a[1..], b);
      assert (a + b)[1..] == a[1..] + b;
      AppendAssociative(a[0], Flatten(a[1..]), Flatten(b));
    }
  }

  lemma AppendAssociative<T>(a: seq<T>, b: seq<T>, c: seq<T>)
    ensures a + b + c == a + (b + c)
  {
  }

  // ---------------------------------------------------------------- comparing text

  /** Character by character, a prefix first. */
  predicate LexLeq(a: string, b: string) {
    a == "" || (b != "" && (a[0] < b[0] || (a[0] == b[0] && LexLeq(a[1..], b[1..]))))
  }

  lemma {:induction false} LexTotal(a: string, b: string)
    ensures LexLeq(a, b) || LexLeq(b, a)
  {
    if a != "" && b != "" && a[0] == b[0] {
      LexTotal(a[1..], b[1..]);
    }
  }

  lemma {:induction false} LexTransitive(a: string, b: string, c: string)
    requires LexLeq(a, b) && LexLeq(b, c)
    ensures LexLeq(a, c)
  {
    if a != "" && a[0] == b[0] == c[0] {
      LexTransitive(a[1..], b[1..], c[1..]);
    }
  }

  lemma {:induction false} LexAntisymmetric(a: string, b: string)
    requires LexLeq(a, b) && LexLeq(b, a)
    ensures a == b
  {
    if a != "" {
      LexAntisymmetric(a[1..], b[1..]);
      assert a == [a[0]] + a[1..] && b == [b[0]] + b[1..];
    }
  }
}
