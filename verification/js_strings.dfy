/** The JavaScript string operations the worker relies on, over `seq<char>`:
    `split` with a one-character separator, `split(/\r?\n/)`, `trim()` emptiness,
    `padStart(2, "0")`, `includes`, and the decimal rendering of a number. */
module JsStrings {

  /** A character matched by `\s` and removed by `trim()`: the ECMAScript
      WhiteSpace and LineTerminator characters. */
  predicate IsWhitespace(c: char)
  {
    || c == '\t' || c == '\n' || c == '\U{000B}' || c == '\U{000C}' || c == '\r'
    || c == ' ' || c == '\U{00A0}' || c == '\U{1680}' || ('\U{2000}' <= c <= '\U{200A}')
    || c == '\U{2028}' || c == '\U{2029}' || c == '\U{202F}' || c == '\U{205F}'
    || c == '\U{3000}' || c == '\U{FEFF}'
  }

  /** A character matched by `\d` (no `u` flag): an ASCII digit. */
  predicate IsDigit(c: char)
  {
    '0' <= c <= '9'
  }

  /** `line.trim().length === 0`. */
  predicate IsBlank(s: string)
  {
    forall i | 0 <= i < |s| :: IsWhitespace(s[i])
  }

  /** The inverse of `Split`: the parts glued back with the separator. */
  function JoinWith(parts: seq<string>, sep: char): string
    requires |parts| >= 1
  {
    if |parts| == 1 then parts[0] else parts[0] + [sep] + JoinWith(parts[1..], sep)
  }

  /** `s.split(sep)` for a one-character string separator. */
  function Split(s: string, sep: char): (parts: seq<string>)
    ensures |parts| >= 1
  {
    if s == [] then [""]
    else if s[0] == sep then [""] + Split(s[1..], sep)
    else
      var rest := Split(s[1..], sep);
      [[s[0]] + rest[0]] + rest[1..]
  }

  /** Splitting loses nothing: the parts hold no separator, and joining them with
      the separator gives back the text. */
  lemma {:induction false} SplitJoin(s: string, sep: char)
    ensures forall k | 0 <= k < |Split(s, sep)| :: sep !in Split(s, sep)[k]
    ensures JoinWith(Split(s, sep), sep) == s
  {
    if s != [] {
      var rest := Split(s[1..], sep);
      SplitJoin(s[1..], sep);
      if s[0] == sep {
        assert Split(s, sep) == [""] + rest;
        assert ([""] + rest)[1..] == rest;
      } else {
        var parts := [[s[0]] + rest[0]] + rest[1..];
        assert Split(s, sep) == parts;
        assert parts[1..] == rest[1..];
        assert JoinWith(parts, sep) == [s[0]] + JoinWith(rest, sep) by {
          if |rest| > 1 {
            assert JoinWith(rest, sep) == rest[0] + [sep] + JoinWith(rest[1..], sep);
          }
        }
      }
      assert s == [s[0]] + s[1..];
    }
  }

  /** Splitting a text whose first `|a|` characters hold no separator glues `a`
      onto the first part. */
  lemma {:induction false} SplitPrefix(a: string, b: string, sep: char)
    requires sep !in a
    ensures Split(a + b, sep) == [a + Split(b, sep)[0]] + Split(b, sep)[1..]
  {
    var parts := Split(b, sep);
    if a == [] {
      assert a + b == b;
      assert a + parts[0] == parts[0];
      assert [parts[0]] + parts[1..] == parts;
    } else {
      assert (a + b)[0] == a[0];
      assert (a + b)[1..] == a[1..] + b;
      SplitPrefix(a[1..], b, sep);
      assert [a[0]] + (a[1..] + Split(b, sep)[0]) == a + Split(b, sep)[0];
    }
  }

  lemma SplitNoSeparator(s: string, sep: char)
    requires sep !in s
    ensures Split(s, sep) == [s]
  {
    SplitPrefix(s, [], sep);
    assert s + [] == s;
  }

  lemma SplitAtSeparator(a: string, b: string, sep: char)
    requires sep !in a
    ensures Split(a + [sep] + b, sep) == [a] + Split(b, sep)
  {
    var b' := [sep] + b;
    assert a + [sep] + b == a + b';
    assert b'[0] == sep && b'[1..] == b;
    assert Split(b', sep) == [""] + Split(b, sep);
    SplitPrefix(a, b', sep);
    assert a + "" == a;
  }

  /** A text made of three separator-free pieces splits back into them. */
  lemma SplitThree(a: string, b: string, c: string, sep: char)
    requires sep !in a && sep !in b && sep !in c
    ensures Split(a + [sep] + b + [sep] + c, sep) == [a, b, c]
  {
    assert a + [sep] + b + [sep] + c == a + [sep] + (b + [sep] + c);
    SplitNoSeparator(c, sep);
    SplitAtSeparator(b, c, sep);
    SplitAtSeparator(a, b + [sep] + c, sep);
  }

  /** `s.split(/\r?\n/)`: a separator is a `\n`, together with the `\r` just
      before it when there is one. */
  function SplitLines(s: string): (lines: seq<string>)
    ensures |lines| >= 1
    ensures forall k | 0 <= k < |lines| :: '\n' !in lines[k]
  {
    if s == [] then [""]
    else if s[0] == '\n' then [""] + SplitLines(s[1..])
    else if |s| >= 2 && s[0] == '\r' && s[1] == '\n' then [""] + SplitLines(s[2..])
    else
      var rest := SplitLines(s[1..]);
      [[s[0]] + rest[0]] + rest[1..]
  }

  /** Text with no line break ahead of the rest is glued onto the first line, unless
      it ends in a `\r` that the rest's leading `\n` would take as a `\r\n`. */
  lemma {:induction false} SplitLinesPrefix(a: string, b: string)
    requires '\n' !in a
    requires a == [] || a[|a| - 1] != '\r' || b == [] || b[0] != '\n'
    ensures SplitLines(a + b) == [a + SplitLines(b)[0]] + SplitLines(b)[1..]
  {
    var rest := SplitLines(b);
    if a == [] {
      assert a + b == b;
      assert a + rest[0] == rest[0];
      assert [rest[0]] + rest[1..] == rest;
    } else {
      assert (a + b)[0] == a[0];
      assert (a + b)[1..] == a[1..] + b;
      SplitLinesPrefix(a[1..], b);
      assert [a[0]] + (a[1..] + rest[0]) == a + rest[0];
    }
  }

  /** Text without a `\n` is a single line. */
  lemma SplitLinesNoBreak(s: string)
    requires '\n' !in s
    ensures SplitLines(s) == [s]
  {
    SplitLinesPrefix(s, []);
    assert s + [] == s;
  }

  /** A `\n` not preceded by `\r` ends a line. */
  lemma SplitLinesAtLf(a: string, b: string)
    requires '\n' !in a && (a == [] || a[|a| - 1] != '\r')
    ensures SplitLines(a + "\n" + b) == [a] + SplitLines(b)
  {
    assert a + "\n" + b == a + ("\n" + b);
    SplitLinesPrefix(a, "\n" + b);
    assert ("\n" + b)[1..] == b;
    assert a + "" == a;
  }

  /** A `\r\n` ends a line and neither character stays in it. */
  lemma SplitLinesAtCrLf(a: string, b: string)
    requires '\n' !in a
    ensures SplitLines(a + "\r\n" + b) == [a] + SplitLines(b)
  {
    assert a + "\r\n" + b == a + ("\r\n" + b);
    SplitLinesPrefix(a, "\r\n" + b);
    assert ("\r\n" + b)[2..] == b;
    assert a + "" == a;
  }

  /** `lines.filter(line => line.trim().length > 0)`. */
  function NonBlank(lines: seq<string>): (kept: seq<string>)
    ensures |kept| <= |lines|
    ensures forall k | 0 <= k < |kept| :: !IsBlank(kept[k]) && kept[k] in lines
    ensures forall k | 0 <= k < |lines| :: !IsBlank(lines[k]) ==> lines[k] in kept
  {
    if lines == [] then []
    else if IsBlank(lines[0]) then NonBlank(lines[1..])
    else [lines[0]] + NonBlank(lines[1..])
  }

  /** The filter keeps order and multiplicity: it works line by line. */
  lemma {:induction false} NonBlankAppend(a: seq<string>, b: seq<string>)
    ensures NonBlank(a + b) == NonBlank(a) + NonBlank(b)
  {
    if a == [] {
      assert a + b == b;
    } else {
      assert (a + b)[0] == a[0];
      assert (a + b)[1..] == a[1..] + b;
      NonBlankAppend(a[1..], b);
    }
  }

  /** A single line is kept exactly when it is not blank. */
  lemma NonBlankOne(line: string)
    ensures NonBlank([line]) == if IsBlank(line) then [] else [line]
  {
    assert [line][1..] == [];
  }

  /** `s.padStart(2, "0")`. */
  function PadStart2(s: string): (r: string)
    ensures |r| >= 2
    ensures |s| >= 2 ==> r == s
    ensures r[|r| - |s|..] == s
    ensures |s| < 2 ==> |r| == 2 && forall k | 0 <= k < 2 - |s| :: r[k] == '0'
  {
    if |s| >= 2 then s else if |s| == 1 then "0" + s else "00"
  }

  function DigitChar(d: nat): (c: char)
    requires d < 10
    ensures IsDigit(c)
  {
    "0123456789"[d]
  }

  function DigitValue(c: char): nat
    requires IsDigit(c)
  {
    (c as int) - ('0' as int)
  }

  /** The decimal text JavaScript gives a non-negative integer. */
  function NatToDecimal(n: nat): (r: string)
    ensures |r| >= 1
    ensures forall k | 0 <= k < |r| :: IsDigit(r[k])
    ensures r[0] == '0' ==> n == 0
    ensures n == 0 ==> r == "0"
    ensures |r| == 1 || r[0] != '0'
  {
    if n < 10 then [DigitChar(n)] else NatToDecimal(n / 10) + [DigitChar(n % 10)]
  }

  /** The decimal text JavaScript gives an integer. */
  function IntToDecimal(i: int): (r: string)
    ensures |r| >= 1 && (r[0] == '-' <==> i < 0)
    ensures var digits := if i < 0 then r[1..] else r;
            && |digits| >= 1
            && (forall k | 0 <= k < |digits| :: IsDigit(digits[k]))
            && DecimalValue(digits) == if i < 0 then -i else i
  {
    if i < 0 then
      DecimalRoundTrip(-i);
      var r := "-" + NatToDecimal(-i);
      assert r[1..] == NatToDecimal(-i);
      r
    else
      DecimalRoundTrip(i);
      NatToDecimal(i)
  }

  /** Reads a string of digits back as a number. */
  function DecimalValue(s: string): nat
    requires forall k | 0 <= k < |s| :: IsDigit(s[k])
  {
    if s == [] then 0 else 10 * DecimalValue(s[..|s| - 1]) + DigitValue(s[|s| - 1])
  }

  lemma {:induction false} DecimalRoundTrip(n: nat)
    ensures DecimalValue(NatToDecimal(n)) == n
  {
    var r := NatToDecimal(n);
    if n >= 10 {
      DecimalRoundTrip(n / 10);
      assert r[..|r| - 1] == NatToDecimal(n / 10);
    }
  }

  /** `s` is a non-empty run of decimal digits reading `n`. */
  predicate IsNumeral(s: string, n: int)
  {
    && |s| >= 1
    && (forall k | 0 <= k < |s| :: IsDigit(s[k]))
    && DecimalValue(s) == n
  }

  /** A non-negative integer renders as its digits alone. */
  lemma NonNegativeDecimal(i: int)
    requires i >= 0
    ensures IntToDecimal(i) == NatToDecimal(i) && IsNumeral(IntToDecimal(i), i)
  {
    DecimalRoundTrip(i);
  }

  /** A two-digit number renders as its tens digit and its units digit. */
  lemma TwoDigitDecimal(n: nat)
    requires 10 <= n < 100
    ensures IntToDecimal(n) == NatToDecimal(n) == [DigitChar(n / 10), DigitChar(n % 10)]
  {
    NonNegativeDecimal(n);
    assert NatToDecimal(n) == NatToDecimal(n / 10) + [DigitChar(n % 10)];
  }

  /** `String(m).padStart(2, "0")` for a number below 100 is two digits reading `m`. */
  lemma TwoDigits(m: nat)
    requires m < 100
    ensures var r := PadStart2(NatToDecimal(m));
            && |r| == 2 && IsDigit(r[0]) && IsDigit(r[1])
            && DecimalValue(r) == m
  {
    var d := NatToDecimal(m);
    DecimalRoundTrip(m);
    if m < 10 {
      var r := PadStart2(d);
      assert r == "0" + d;
      assert r[..1] == "0";
      assert DecimalValue("0") == 10 * DecimalValue([]) + DigitValue('0');
    } else {
      assert d == NatToDecimal(m / 10) + [DigitChar(m % 10)];
    }
  }

  /** Different numbers have different decimal texts. */
  lemma DecimalInjective(i: nat, j: nat)
    requires NatToDecimal(i) == NatToDecimal(j)
    ensures i == j
  {
    DecimalRoundTrip(i);
    DecimalRoundTrip(j);
  }

  predicate OccursAt(s: string, sub: string, i: nat)
  {
    i + |sub| <= |s| && s[i..i + |sub|] == sub
  }

  /** `s.includes(sub)`. */
  predicate Contains(s: string, sub: string)
  {
    exists i: nat | i <= |s| :: OccursAt(s, sub, i)
  }

  lemma ContainsMiddle(a: string, sub: string, b: string)
    ensures Contains(a + (sub + b), sub)
  {
    assert (a + (sub + b))[|a|..|a| + |sub|] == sub;
    assert OccursAt(a + (sub + b), sub, |a|);
  }

  /** How many times `c` occurs in `s`. */
  function Count(s: string, c: char): (n: nat)
    ensures n == 0 <==> c !in s
    ensures n <= |s|
  {
    if s == [] then 0 else (if s[0] == c then 1 else 0) + Count(s[1..], c)
  }

  /** The position of the first `c` in `s`. */
  function IndexOf(s: string, c: char): (p: nat)
    requires c in s
    ensures p < |s| && s[p] == c && c !in s[..p]
  {
    if s[0] == c then 0
    else
      var p := IndexOf(s[1..], c);
      assert s[..p + 1] == [s[0]] + s[1..][..p];
      p + 1
  }

  /** Cutting `s` at its first `c`: one occurrence fewer after the cut. */
  lemma IndexOfSplits(s: string, c: char)
    requires c in s
    ensures var p := IndexOf(s, c);
            && s == s[..p] + [c] + s[p + 1..]
            && Count(s, c) == 1 + Count(s[p + 1..], c)
  {
    var p := IndexOf(s, c);
    assert s == s[..p] + [c] + s[p + 1..];
    CountAfterFirst(s, c);
  }

  lemma {:induction false} CountAfterFirst(s: string, c: char)
    requires c in s
    ensures Count(s, c) == 1 + Count(s[IndexOf(s, c) + 1..], c)
  {
    if s[0] != c {
      assert s == [s[0]] + s[1..];
      assert c in s[1..];
      var q := IndexOf(s[1..], c);
      assert IndexOf(s, c) == q + 1;
      CountAfterFirst(s[1..], c);
      assert s[1..][q + 1..] == s[q + 2..];
    }
  }
}
