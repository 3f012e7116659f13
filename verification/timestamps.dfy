/** `extractTimestampFromContent`: find the first backtick-quoted
    `DD/MM/YYYY<whitespace>HH:MM:SS` token and rewrite it as `YYYY-MM-DD HH:MM:SS`.
    The regular expression search is an explicit scanner; the rewriting follows the
    JavaScript code's `split(" ")`, `split("/")`, `split(":")` and `padStart`. */
module Timestamps {
  import opened Results
  import opened JsStrings

  /** `null`, the rewritten text, or the TypeError thrown when a destructured part is
      `undefined` (`reading` names the property the code tried to read on it). */
  datatype Extracted = NoTimestamp | Timestamp(value: string) | Thrown(reading: string)

  /** Length of the run of `\s` characters that starts at `j`. */
  function WsRun(s: string, j: nat): (n: nat)
    requires j <= |s|
    ensures j + n <= |s|
    ensures forall k | j <= k < j + n :: IsWhitespace(s[k])
    ensures j + n < |s| ==> !IsWhitespace(s[j + n])
    decreases |s| - j
  {
    if j < |s| && IsWhitespace(s[j]) then 1 + WsRun(s, j + 1) else 0
  }

  predicate DigitsAt(s: string, i: nat, n: nat)
  {
    i + n <= |s| && forall k | i <= k < i + n :: IsDigit(s[k])
  }

  /** The regular expression `` `(\d{2}\/\d{2}\/\d{4}\s+\d{2}:\d{2}:\d{2})` `` matches at
      position `i`. `\s+` must take the whole whitespace run, since a digit has to
      follow it. */
  predicate MatchAt(s: string, i: nat)
  {
    && i + 11 <= |s|
    && s[i] == '`' && DigitsAt(s, i + 1, 2) && s[i + 3] == '/' && DigitsAt(s, i + 4, 2)
    && s[i + 6] == '/' && DigitsAt(s, i + 7, 4)
    && WsRun(s, i + 11) >= 1
    && var k := i + 11 + WsRun(s, i + 11);
       && k + 9 <= |s|
       && DigitsAt(s, k, 2) && s[k + 2] == ':' && DigitsAt(s, k + 3, 2) && s[k + 5] == ':'
       && DigitsAt(s, k + 6, 2) && s[k + 8] == '`'
  }

  /** Where the time of day starts in the match at `i`. */
  function TimeStart(s: string, i: nat): (k: nat)
    requires MatchAt(s, i)
    ensures i + 12 <= k && k + 9 <= |s|
  {
    i + 11 + WsRun(s, i + 11)
  }

  /** The whitespace between date and time in the match at `i`. */
  function Gap(s: string, i: nat): (w: string)
    requires MatchAt(s, i)
    ensures |w| >= 1 && forall k | 0 <= k < |w| :: IsWhitespace(w[k])
  {
    s[i + 11..TimeStart(s, i)]
  }

  /** The leftmost match at or after `from`, as `String.prototype.match` finds it. */
  function FirstMatch(s: string, from: nat): (r: Option<nat>)
    ensures r.None? ==> forall i: nat | from <= i :: !MatchAt(s, i)
    ensures r.Some? ==> from <= r.value && MatchAt(s, r.value)
    ensures r.Some? ==> forall i: nat | from <= i < r.value :: !MatchAt(s, i)
    decreases |s| - from
  {
    if from + 11 > |s| then None
    else if MatchAt(s, from) then Some(from)
    else FirstMatch(s, from + 1)
  }

  /** The properties the conversion may read on an `undefined` part: `split` on a
      missing `timePart`, `padStart` on a missing field. */
  predicate ThrownReading(reading: string)
  {
    reading == "split" || reading == "padStart"
  }

  /** Lines 16-23 of the source on the captured group. */
  function ConvertToken(token: string): (r: Extracted)
    ensures !r.NoTimestamp?
    ensures r.Thrown? ==> ThrownReading(r.reading)
  {
    var parts := Split(token, ' ');
    if |parts| < 2 then Thrown("split")
    else
      var date := Split(parts[0], '/');
      var time := Split(parts[1], ':');
      if |date| < 2 || |time| < 3 then Thrown("padStart")
      else
        var year := if |date| >= 3 then date[2] else "undefined";
        Timestamp(year + "-" + PadStart2(date[1]) + "-" + PadStart2(date[0]) + " "
                  + PadStart2(time[0]) + ":" + PadStart2(time[1]) + ":" + PadStart2(time[2]))
  }

  predicate DateShape(d: string)
  {
    && |d| == 10
    && IsDigit(d[0]) && IsDigit(d[1]) && d[2] == '/' && IsDigit(d[3]) && IsDigit(d[4]) && d[5] == '/'
    && IsDigit(d[6]) && IsDigit(d[7]) && IsDigit(d[8]) && IsDigit(d[9])
  }

  predicate TimeShape(t: string)
  {
    && |t| == 8
    && IsDigit(t[0]) && IsDigit(t[1]) && t[2] == ':' && IsDigit(t[3]) && IsDigit(t[4]) && t[5] == ':'
    && IsDigit(t[6]) && IsDigit(t[7])
  }

  /** `YYYY-MM-DD HH:MM:SS` from `DD/MM/YYYY` and `HH:MM:SS`. */
  function Canonical(d: string, t: string): string
    requires |d| == 10 && |t| == 8
  {
    d[6..10] + "-" + d[3..5] + "-" + d[0..2] + " " + t[0..2] + ":" + t[3..5] + ":" + t[6..8]
  }

  lemma DatePieces(d: string, w1: string)
    requires DateShape(d)
    requires forall k | 0 <= k < |w1| :: IsWhitespace(w1[k])
    ensures '/' !in d[0..2] && '/' !in d[3..5] && '/' !in d[6..10] + w1
    ensures d + w1 == d[0..2] + ['/'] + d[3..5] + ['/'] + (d[6..10] + w1)
  {
    var y := d[6..10] + w1;
    forall k | 0 <= k < |y| ensures y[k] != '/' {
      if k < 4 { assert y[k] == d[6 + k]; } else { assert y[k] == w1[k - 4]; }
    }
  }

  /** `DD/MM/YYYY` followed by whitespace splits on '/' into day, month and the year
      with that whitespace still attached. */
  lemma SplitDate(d: string, w1: string)
    requires DateShape(d)
    requires forall k | 0 <= k < |w1| :: IsWhitespace(w1[k])
    ensures Split(d + w1, '/') == [d[0..2], d[3..5], d[6..10] + w1]
  {
    DatePieces(d, w1);
    SplitThree(d[0..2], d[3..5], d[6..10] + w1, '/');
  }

  lemma TimePieces(w2: string, t: string)
    requires TimeShape(t)
    requires forall k | 0 <= k < |w2| :: IsWhitespace(w2[k])
    ensures ':' !in w2 + t[0..2] && ':' !in t[3..5] && ':' !in t[6..8]
    ensures w2 + t == (w2 + t[0..2]) + [':'] + t[3..5] + [':'] + t[6..8]
  {
    var h := w2 + t[0..2];
    forall k | 0 <= k < |h| ensures h[k] != ':' {
      if k < |w2| { assert h[k] == w2[k]; } else { assert h[k] == t[k - |w2|]; }
    }
  }

  /** Whitespace followed by `HH:MM:SS` splits on ':' into the hour with that
      whitespace in front, the minute and the second. */
  lemma SplitTime(w2: string, t: string)
    requires TimeShape(t)
    requires forall k | 0 <= k < |w2| :: IsWhitespace(w2[k])
    ensures Split(w2 + t, ':') == [w2 + t[0..2], t[3..5], t[6..8]]
  {
    TimePieces(w2, t);
    SplitThree(w2 + t[0..2], t[3..5], t[6..8], ':');
  }

  lemma NoSpaceInDate(d: string, w1: string)
    requires DateShape(d)
    requires ' ' !in w1
    ensures ' ' !in d + w1
  {
    forall k | 0 <= k < |d + w1| ensures (d + w1)[k] != ' ' {
      if k < 10 { assert (d + w1)[k] == d[k]; } else { assert (d + w1)[k] == w1[k - 10]; }
    }
  }

  lemma NoSpaceInTime(w2: string, t: string)
    requires TimeShape(t)
    requires ' ' !in w2
    ensures ' ' !in w2 + t
  {
    forall k | 0 <= k < |w2 + t| ensures (w2 + t)[k] != ' ' {
      if k < |w2| { assert (w2 + t)[k] == w2[k]; } else { assert (w2 + t)[k] == t[k - |w2|]; }
    }
  }

  /** Without a space between date and time, `timePart` is `undefined` and
      `timePart.split` throws. */
  lemma ConvertWithoutSpace(d: string, w: string, t: string)
    requires DateShape(d) && TimeShape(t)
    requires ' ' !in w
    ensures ConvertToken(d + w + t) == Thrown("split")
  {
    NoSpaceInDate(d, w);
    NoSpaceInTime([], t);
    assert [] + t == t;
    SplitPrefix(d + w, t, ' ');
    SplitNoSeparator(t, ' ');
    assert d + w + t == (d + w) + t;
  }

  /** `ConvertToken` once the three splits are known and every field already has two
      characters or more, so that `padStart` leaves it alone. */
  lemma ConvertOfParts(token: string, date: string, time: string,
                       day: string, month: string, year: string,
                       hour: string, minute: string, second: string)
    requires Split(token, ' ') == [date, time]
    requires Split(date, '/') == [day, month, year]
    requires Split(time, ':') == [hour, minute, second]
    requires |day| >= 2 && |month| >= 2 && |hour| >= 2 && |minute| >= 2 && |second| >= 2
    ensures ConvertToken(token)
            == Timestamp(year + "-" + month + "-" + day + " " + hour + ":" + minute + ":" + second)
  {
  }

  /** The token splits on ' ' around its one space. */
  lemma SplitTokenAtSpace(d: string, w1: string, w2: string, t: string)
    requires DateShape(d) && TimeShape(t)
    requires ' ' !in w1 && ' ' !in w2
    ensures Split(d + (w1 + [' '] + w2) + t, ' ') == [d + w1, w2 + t]
  {
    assert d + (w1 + [' '] + w2) + t == (d + w1) + [' '] + (w2 + t);
    NoSpaceInDate(d, w1);
    NoSpaceInTime(w2, t);
    SplitAtSeparator(d + w1, w2 + t, ' ');
    SplitNoSeparator(w2 + t, ' ');
  }

  /** With one space, the code succeeds: the whitespace before the space stays on the
      year and the whitespace after it goes before the hour. */
  lemma ConvertWithOneSpace(d: string, w1: string, w2: string, t: string)
    requires DateShape(d) && TimeShape(t)
    requires forall k | 0 <= k < |w1| :: IsWhitespace(w1[k])
    requires forall k | 0 <= k < |w2| :: IsWhitespace(w2[k])
    requires ' ' !in w1 && ' ' !in w2
    ensures ConvertToken(d + (w1 + [' '] + w2) + t)
            == Timestamp(d[6..10] + w1 + "-" + d[3..5] + "-" + d[0..2] + " "
                         + (w2 + t[0..2]) + ":" + t[3..5] + ":" + t[6..8])
  {
    SplitTokenAtSpace(d, w1, w2, t);
    SplitDate(d, w1);
    SplitTime(w2, t);
    ConvertOfParts(d + (w1 + [' '] + w2) + t, d + w1, w2 + t,
                   d[0..2], d[3..5], d[6..10] + w1, w2 + t[0..2], t[3..5], t[6..8]);
  }

  /** With two spaces or more, `timePart` is the whitespace between the first two
      spaces, so `minute` is `undefined` and `minute.padStart` throws. */
  lemma ConvertWithManySpaces(d: string, w1: string, w3: string, w4: string, t: string)
    requires DateShape(d) && TimeShape(t)
    requires ' ' !in w1 && ' ' !in w3 && ':' !in w3
    ensures ConvertToken(d + (w1 + [' '] + (w3 + [' '] + w4)) + t) == Thrown("padStart")
  {
    var token := d + (w1 + [' '] + (w3 + [' '] + w4)) + t;
    assert token == (d + w1) + [' '] + (w3 + [' '] + (w4 + t));
    NoSpaceInDate(d, w1);
    SplitAtSeparator(d + w1, w3 + [' '] + (w4 + t), ' ');
    SplitAtSeparator(w3, w4 + t, ' ');
    assert Split(token, ' ')[1] == w3;
    SplitNoSeparator(w3, ':');
  }

  lemma ConvertGapWithOneSpace(d: string, w: string, t: string)
    requires DateShape(d) && TimeShape(t)
    requires forall k | 0 <= k < |w| :: IsWhitespace(w[k])
    requires Count(w, ' ') == 1
    ensures var p := IndexOf(w, ' ');
            ConvertToken(d + w + t)
            == Timestamp(d[6..10] + w[..p] + "-" + d[3..5] + "-" + d[0..2] + " "
                         + (w[p + 1..] + t[0..2]) + ":" + t[3..5] + ":" + t[6..8])
  {
    var p := IndexOf(w, ' ');
    IndexOfSplits(w, ' ');
    ConvertWithOneSpace(d, w[..p], w[p + 1..], t);
  }

  lemma WhitespaceHasNoColon(w: string)
    requires forall k | 0 <= k < |w| :: IsWhitespace(w[k])
    ensures ':' !in w
  {
  }

  /** A whitespace gap with two spaces or more: what comes before the first space,
      between the first two, and after the second. */
  lemma TwoSpaces(w: string) returns (w1: string, w3: string, w4: string)
    requires forall k | 0 <= k < |w| :: IsWhitespace(w[k])
    requires Count(w, ' ') >= 2
    ensures ' ' !in w1 && ' ' !in w3 && ':' !in w3
    ensures w == w1 + [' '] + (w3 + [' '] + w4)
  {
    var p := IndexOf(w, ' ');
    IndexOfSplits(w, ' ');
    var w2 := w[p + 1..];
    var q := IndexOf(w2, ' ');
    IndexOfSplits(w2, ' ');
    w1, w3, w4 := w[..p], w2[..q], w2[q + 1..];
    WhitespaceHasNoColon(w);
    assert ':' !in w3 by {
      assert w == w1 + [' '] + (w3 + [' '] + w4);
    }
  }

  lemma ConvertGapWithManySpaces(d: string, w: string, t: string)
    requires DateShape(d) && TimeShape(t)
    requires forall k | 0 <= k < |w| :: IsWhitespace(w[k])
    requires Count(w, ' ') >= 2
    ensures ConvertToken(d + w + t) == Thrown("padStart")
  {
    var w1, w3, w4 := TwoSpaces(w);
    ConvertWithManySpaces(d, w1, w3, w4, t);
  }

  /** What the code makes of date `d`, whitespace `w` and time `t`: it splits on the
      single character ' ' only, so it succeeds exactly when `w` holds one space. */
  lemma ConvertShape(d: string, w: string, t: string)
    requires DateShape(d) && TimeShape(t)
    requires forall k | 0 <= k < |w| :: IsWhitespace(w[k])
    ensures Count(w, ' ') == 0 ==> ConvertToken(d + w + t) == Thrown("split")
    ensures Count(w, ' ') >= 2 ==> ConvertToken(d + w + t) == Thrown("padStart")
    ensures Count(w, ' ') == 1 ==>
              var p := IndexOf(w, ' ');
              ConvertToken(d + w + t)
              == Timestamp(d[6..10] + w[..p] + "-" + d[3..5] + "-" + d[0..2] + " "
                           + (w[p + 1..] + t[0..2]) + ":" + t[3..5] + ":" + t[6..8])
  {
    if Count(w, ' ') == 0 {
      ConvertWithoutSpace(d, w, t);
    } else if Count(w, ' ') == 1 {
      ConvertGapWithOneSpace(d, w, t);
    } else {
      ConvertGapWithManySpaces(d, w, t);
    }
  }

  /** The captured group of the match at `i`: date, whitespace and time. */
  function Token(s: string, i: nat): (token: string)
    requires MatchAt(s, i)
    ensures token == s[i + 1..i + 11] + Gap(s, i) + s[TimeStart(s, i)..TimeStart(s, i) + 8]
  {
    s[i + 1..TimeStart(s, i) + 8]
  }

  lemma MatchShape(s: string, i: nat)
    requires MatchAt(s, i)
    ensures DateShape(s[i + 1..i + 11])
    ensures TimeShape(s[TimeStart(s, i)..TimeStart(s, i) + 8])
  {
  }

  /** A gap of one plain space gives the canonical 19-character text. */
  lemma ConvertSingleSpace(d: string, t: string)
    requires DateShape(d) && TimeShape(t)
    ensures ConvertToken(d + " " + t) == Timestamp(Canonical(d, t))
    ensures |Canonical(d, t)| == 19
  {
    DatePieces(d, []);
    assert d[6..10] + [] == d[6..10];
    SplitThree(d[0..2], d[3..5], d[6..10], '/');
    assert d == d[0..2] + ['/'] + d[3..5] + ['/'] + d[6..10];
    TimePieces([], t);
    assert [] + t[0..2] == t[0..2];
    SplitThree(t[0..2], t[3..5], t[6..8], ':');
    assert t == t[0..2] + [':'] + t[3..5] + [':'] + t[6..8];
    NoSpaceInDate(d, []);
    NoSpaceInTime([], t);
    assert d + [] == d && [] + t == t;
    SplitAtSeparator(d, t, ' ');
    SplitNoSeparator(t, ' ');
    ConvertOfParts(d + " " + t, d, t, d[0..2], d[3..5], d[6..10], t[0..2], t[3..5], t[6..8]);
  }

  /** The conversion of the match at `i` fails exactly when its gap does not hold
      one space, and a gap of one plain space gives the canonical text. */
  lemma ConvertMatch(s: string, i: nat)
    requires MatchAt(s, i)
    ensures ConvertToken(Token(s, i)).Thrown? <==> Count(Gap(s, i), ' ') != 1
    ensures Gap(s, i) == " " ==>
              && ConvertToken(Token(s, i)) == Timestamp(Canonical(s[i + 1..i + 11], s[i + 12..i + 20]))
              && |Canonical(s[i + 1..i + 11], s[i + 12..i + 20])| == 19
  {
    var k := TimeStart(s, i);
    var d, w, t := s[i + 1..i + 11], Gap(s, i), s[k..k + 8];
    MatchShape(s, i);
    if Count(w, ' ') == 0 {
      ConvertWithoutSpace(d, w, t);
    } else if Count(w, ' ') == 1 {
      ConvertGapWithOneSpace(d, w, t);
    } else {
      ConvertGapWithManySpaces(d, w, t);
    }
    if w == " " {
      assert k == i + 12;
      ConvertSingleSpace(d, t);
    }
  }

  /** `extractTimestampFromContent(content)`. */
  function ExtractTimestamp(content: string): Extracted
  {
    match FirstMatch(content, 0)
    case None => NoTimestamp
    case Some(i) => ConvertToken(Token(content, i))
  }

  /** The result is `null` exactly when no token matches; otherwise the first match
      is converted, which fails exactly when its gap does not hold one space, and a
      gap of one plain space gives the 19-character `YYYY-MM-DD HH:MM:SS` built from
      the matched fields. */
  lemma ExtractTimestampSpec(content: string)
    ensures ExtractTimestamp(content).NoTimestamp? <==> forall i: nat :: !MatchAt(content, i)
    ensures FirstMatch(content, 0).Some? ==>
              var i := FirstMatch(content, 0).value;
              var w := Gap(content, i);
              var r := ExtractTimestamp(content);
              && (r.Thrown? <==> Count(w, ' ') != 1)
              && (w == " " ==>
                    && r == Timestamp(Canonical(content[i + 1..i + 11], content[i + 12..i + 20]))
                    && |r.value| == 19)
  {
    match FirstMatch(content, 0)
    case None =>
    case Some(i) =>
      assert ExtractTimestamp(content) == ConvertToken(Token(content, i));
      ConvertMatch(content, i);
  }

  /** The only errors extraction throws read `split` or `padStart`. */
  lemma ExtractTimestampReading(content: string)
    ensures ExtractTimestamp(content).Thrown? ==> ThrownReading(ExtractTimestamp(content).reading)
  {
    match FirstMatch(content, 0)
    case None =>
    case Some(i) =>
      assert ExtractTimestamp(content) == ConvertToken(Token(content, i));
  }
}
