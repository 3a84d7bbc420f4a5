/** `Lrc`: lyric lines rendered in the LRC text format, one
    `[MM:SS.mmm] words` line per lyric line. */
module Lrc {
  import opened Wrappers
  import opened Decimal
  import opened LyricLines

  /** `Lrc::new` keeps the lines it is given. */
  datatype Lrc = Lrc(lines: seq<LyricLine>)

  /** `calc_readable_time`: an offset in milliseconds as whole minutes, the
      seconds within the minute and the milliseconds within the second. */
  function CalcReadableTime(ms: u64): (r: (u64, u64, u64))
    ensures r.1 < 60 && r.2 < 1000
    ensures r.0 as int * 60000 + r.1 as int * 1000 + r.2 as int == ms as int
  {
    var millis := ms % 1000;
    var sec := ms / 1000 % 60;
    var min := ms / 60000;
    DivModSplit(ms as int);
    (min, sec, millis)
  }

  lemma DivModSplit(ms: nat)
    ensures ms / 60000 == ms / 1000 / 60
    ensures ms == (ms / 60000) * 60000 + (ms / 1000 % 60) * 1000 + ms % 1000
  {
    var q := ms / 1000;
    assert ms == q * 1000 + ms % 1000;
    assert q == (q / 60) * 60 + q % 60;
    var m := q / 60;
    assert ms == m * 60000 + (q % 60) * 1000 + ms % 1000;
    assert 0 <= (q % 60) * 1000 + ms % 1000 < 60000;
    assert ms / 60000 == m;
  }

  /** The decomposition is the only one with seconds below 60 and
      milliseconds below 1000: any such split of `ms` is the one
      `CalcReadableTime` returns. */
  lemma CalcReadableTimeUnique(ms: u64, min: nat, sec: nat, millis: nat)
    requires sec < 60 && millis < 1000
    requires min * 60000 + sec * 1000 + millis == ms as int
    ensures CalcReadableTime(ms) == (min as u64, sec as u64, millis as u64)
  {
    DivModUnique(ms as int, 1000, min * 60 + sec, millis);
    DivModUnique(min * 60 + sec, 60, min, sec);
    DivModUnique(ms as int, 60000, min, sec * 1000 + millis);
  }

  /** Euclidean division is determined by its remainder bound. */
  lemma DivModUnique(a: int, b: int, q: int, r: int)
    requires 0 < b && 0 <= r < b && a == q * b + r
    ensures a / b == q && a % b == r
  {
    var d := q - a / b;
    assert d * b == a % b - r;
    MulSmall(d, b);
  }

  lemma MulSmall(d: int, b: int)
    requires 0 < b && -b < d * b < b
    ensures d == 0
  {
    if d > 0 {
      MulAtLeast(d, b);
      assert false;
    } else if d < 0 {
      MulAtLeast(-d, b);
      assert false;
    }
  }

  lemma {:induction false} MulAtLeast(d: int, b: int)
    requires d >= 1 && b >= 1
    ensures d * b >= b
  {
    if d > 1 {
      MulAtLeast(d - 1, b);
      assert d * b == (d - 1) * b + b;
    }
  }

  /** The bracketed time tag: minutes zero-padded to at least two digits,
      seconds to two and milliseconds to three. It is at least 11
      characters long, `[` to `]`. */
  function Timestamp(ms: u64): (r: string)
    ensures |r| >= 11 && r[0] == '[' && r[|r| - 1] == ']'
  {
    var t := CalcReadableTime(ms);
    "[" + ZeroPad(t.0 as nat, 2) + TagTail(t.1, t.2)
  }

  /** The part of the tag after the minutes: `:SS.mmm]`. */
  function TagTail(sec: u64, millis: u64): string
  {
    ":" + ZeroPad(sec as nat, 2) + "." + ZeroPad(millis as nat, 3) + "]"
  }

  /** One output line: the time tag, a space, the words, a newline. It
      starts with the tag's `[`, ends with the newline, and is longer than
      the words by the tag and two characters. */
  function LrcLine(l: LyricLine): (r: string)
    ensures |r| == |Timestamp(l.startTime)| + |l.words| + 2
    ensures r[0] == '[' && r[|r| - 1] == '\n'
  {
    Timestamp(l.startTime) + " " + l.words + "\n"
  }

  /** `Display for Lrc`: the lines of every lyric line, in order. Each
      lyric line adds at least 13 characters, and a non-empty text starts
      with a time tag and ends with a newline. */
  function Render(ls: seq<LyricLine>): (r: string)
    ensures |r| >= 13 * |ls|
    ensures ls != [] ==> r[0] == '[' && r[|r| - 1] == '\n'
  {
    if ls == [] then "" else Render(ls[..|ls| - 1]) + LrcLine(ls[|ls| - 1])
  }

  /** The loop of `fmt`: one `writeln!` per lyric line. */
  method Fmt(lrc: Lrc) returns (text: string)
    ensures text == Render(lrc.lines)
  {
    text := "";
    var i := 0;
    while i < |lrc.lines|
      invariant 0 <= i <= |lrc.lines|
      invariant text == Render(lrc.lines[..i])
    {
      var line := lrc.lines[i];
      var t := CalcReadableTime(line.startTime);
      var written := "[" + ZeroPad(t.0 as nat, 2) + ":" + ZeroPad(t.1 as nat, 2) + "."
        + ZeroPad(t.2 as nat, 3) + "] " + line.words + "\n";
      assert written == LrcLine(line);
      text := text + written;
      assert lrc.lines[..i + 1][..i] == lrc.lines[..i];
      i := i + 1;
    }
    assert lrc.lines[..i] == lrc.lines;
  }

  /** No lines render as the empty text. */
  lemma RenderEmpty()
    ensures Render([]) == ""
  {
  }

  /** Rendering is line by line and keeps the order: the text of two runs of
      lines is the text of the first followed by the text of the second. */
  lemma {:induction false} RenderAppend(a: seq<LyricLine>, b: seq<LyricLine>)
    ensures Render(a + b) == Render(a) + Render(b)
  {
    if b != [] {
      var b' := b[..|b| - 1];
      assert (a + b)[..|a + b| - 1] == a + b';
      assert (a + b)[|a + b| - 1] == b[|b| - 1];
      RenderAppend(a, b');
    } else {
      assert a + b == a;
    }
  }

  /** A single lyric line renders as exactly its own line. */
  lemma RenderOne(l: LyricLine)
    ensures Render([l]) == LrcLine(l)
  {
    assert [l][..0] == [];
  }

  /** Minutes are padded, never cut: a minute count of 100 or more is printed
      with all its digits, and the tag is one character longer per extra
      minute digit. */
  lemma MinutesNotTruncated(ms: u64)
    requires ms as int >= 100 * 60000
    ensures ZeroPad(CalcReadableTime(ms).0 as nat, 2) == Digits(CalcReadableTime(ms).0 as nat)
    ensures |Digits(CalcReadableTime(ms).0 as nat)| >= 3
  {
    var min := CalcReadableTime(ms).0 as nat;
    assert min >= 100;
    assert Pow10(2) == 100;
    DigitsLength(min, 2);
    ZeroPadValue(min, 2);
  }

  /** How an LRC reader reads a time tag `[M:SS.mmm]` back to milliseconds:
      at least one minute digit, then the fixed-width tail `:SS.mmm]`. */
  function ParseTimestamp(s: string): Option<nat>
  {
    if |s| < 10 || s[0] != '[' then None
    else
      var minutes, tail := s[1..|s| - 8], s[|s| - 8..];
      if AllDigits(minutes) && IsTail(tail) then Some(Value(minutes) * 60000 + TailValue(tail))
      else None
  }

  /** `:SS.mmm]`. */
  predicate IsTail(t: string)
  {
    |t| == 8 && t[0] == ':' && IsDigit(t[1]) && IsDigit(t[2]) && t[3] == '.' &&
    IsDigit(t[4]) && IsDigit(t[5]) && IsDigit(t[6]) && t[7] == ']'
  }

  function TailValue(t: string): nat
    requires IsTail(t)
  {
    (DigitValue(t[1]) * 10 + DigitValue(t[2])) * 1000 +
    DigitValue(t[4]) * 100 + DigitValue(t[5]) * 10 + DigitValue(t[6])
  }

  /** The time tag is lossless: reading it back gives the offset. */
  lemma ParseTimestampRoundTrip(ms: u64)
    ensures ParseTimestamp(Timestamp(ms)) == Some(ms as nat)
  {
    var t := CalcReadableTime(ms);
    var M := ZeroPad(t.0 as nat, 2);
    ZeroPadValue(t.0 as nat, 2);
    TagTailValue(t.1, t.2);
    ParseTag(M, TagTail(t.1, t.2));
  }

  /** The tail of a tag has its fixed width and reads back as the seconds
      and milliseconds it was made from. */
  lemma TagTailValue(sec: u64, millis: u64)
    requires sec < 60 && millis < 1000
    ensures IsTail(TagTail(sec, millis))
    ensures TailValue(TagTail(sec, millis)) == sec as nat * 1000 + millis as nat
  {
    var S, X := ZeroPad(sec as nat, 2), ZeroPad(millis as nat, 3);
    assert Pow10(2) == 100 && Pow10(3) == 1000;
    DigitsLength(sec as nat, 2);
    DigitsLength(millis as nat, 3);
    ZeroPadValue(sec as nat, 2);
    ZeroPadValue(millis as nat, 3);
    var tail := TagTail(sec, millis);
    assert tail[1] == S[0] && tail[2] == S[1] && tail[4] == X[0] && tail[5] == X[1] && tail[6] == X[2];
    TwoDigits(S);
    ThreeDigits(X);
  }

  lemma ParseTag(M: string, tail: string)
    requires AllDigits(M) && |M| >= 1 && IsTail(tail)
    ensures ParseTimestamp("[" + M + tail) == Some(Value(M) * 60000 + TailValue(tail))
  {
    var s := "[" + M + tail;
    var m, t := s[1..|s| - 8], s[|s| - 8..];
    assert m == M;
    assert t == tail;
    assert ParseTimestamp(s) == Some(Value(m) * 60000 + TailValue(t));
  }

  lemma TwoDigits(S: string)
    requires |S| == 2 && AllDigits(S)
    ensures Value(S) == DigitValue(S[0]) * 10 + DigitValue(S[1])
  {
    var first := S[..1];
    assert first[..0] == [];
    assert Value(first) == DigitValue(S[0]);
    assert S[..|S| - 1] == first;
  }

  lemma ThreeDigits(X: string)
    requires |X| == 3 && AllDigits(X)
    ensures Value(X) == DigitValue(X[0]) * 100 + DigitValue(X[1]) * 10 + DigitValue(X[2])
  {
    TwoDigits(X[..2]);
  }

  /** The number of occurrences of `c` in `s`. */
  function Count(s: string, c: char): nat
  {
    if s == [] then 0 else Count(s[..|s| - 1], c) + (if s[|s| - 1] == c then 1 else 0)
  }

  lemma {:induction false} CountAppend(a: string, b: string, c: char)
    ensures Count(a + b, c) == Count(a, c) + Count(b, c)
  {
    if b != [] {
      assert (a + b)[..|a + b| - 1] == a + b[..|b| - 1];
      CountAppend(a, b[..|b| - 1], c);
    } else {
      assert a + b == a;
    }
  }

  lemma {:induction false} CountAbsent(s: string, c: char)
    requires forall i :: 0 <= i < |s| ==> s[i] != c
    ensures Count(s, c) == 0
  {
    if s != [] {
      CountAbsent(s[..|s| - 1], c);
    }
  }

  lemma DigitsNoNewline(s: string)
    requires AllDigits(s)
    ensures Count(s, '\n') == 0
  {
    CountAbsent(s, '\n');
  }

  /** A time tag holds no line break. */
  lemma TimestampNoNewline(ms: u64)
    ensures Count(Timestamp(ms), '\n') == 0
  {
    var t := CalcReadableTime(ms);
    var M, S, X := ZeroPad(t.0 as nat, 2), ZeroPad(t.1 as nat, 2), ZeroPad(t.2 as nat, 3);
    DigitsNoNewline(M);
    DigitsNoNewline(S);
    DigitsNoNewline(X);
    CountAppend(":", S, '\n');
    CountAppend(":" + S, ".", '\n');
    CountAppend(":" + S + ".", X, '\n');
    CountAppend(":" + S + "." + X, "]", '\n');
    CountAppend("[", M, '\n');
    CountAppend("[" + M, TagTail(t.1, t.2), '\n');
  }

  /** A line of output holds the line breaks of its words and one more. */
  lemma LrcLineCount(l: LyricLine)
    ensures Count(LrcLine(l), '\n') == Count(l.words, '\n') + 1
  {
    var ts := Timestamp(l.startTime);
    TimestampNoNewline(l.startTime);
    CountAppend(ts, " ", '\n');
    CountAppend(ts + " ", l.words, '\n');
    CountAppend(ts + " " + l.words, "\n", '\n');
    assert "\n"[..0] == [];
  }

  /** One output line per lyric line: when no words contain a line break,
      the rendered text holds exactly one newline per lyric line. */
  lemma {:induction false} RenderLineCount(ls: seq<LyricLine>)
    requires forall i :: 0 <= i < |ls| ==> Count(ls[i].words, '\n') == 0
    ensures Count(Render(ls), '\n') == |ls|
  {
    if ls != [] {
      var init := ls[..|ls| - 1];
      RenderLineCount(init);
      LrcLineCount(ls[|ls| - 1]);
      CountAppend(Render(init), LrcLine(ls[|ls| - 1]), '\n');
    }
  }

  /** Worked example: 125050 ms is `[02:05.050]`. */
  lemma TimestampExample()
    ensures Timestamp(125050) == "[02:05.050]"
  {
    CalcReadableTimeUnique(125050, 2, 5, 50);
    assert Digits(2) == "2" && Digits(5) == "5";
    assert Digits(50) == Digits(5) + "0";
    assert ZeroPad(2, 2) == "02" && ZeroPad(5, 2) == "05";
    assert ZeroPad(50, 3) == Zeros(1) + "50" == "050";
  }

  /** Worked example: one hour is `[60:00.000]`. */
  lemma TimestampHourExample()
    ensures Timestamp(3600000) == "[60:00.000]"
  {
    CalcReadableTimeUnique(3600000, 60, 0, 0);
    assert Digits(0) == "0" && Digits(6) == "6";
    assert Digits(60) == Digits(6) + "0";
    assert ZeroPad(60, 2) == "60" && ZeroPad(0, 2) == "00";
    assert ZeroPad(0, 3) == Zeros(2) + "0" == "000";
  }
}
