/** Unsigned decimal text as Rust writes and reads it: `Display` for `u64`
    (shortest digits), the zero-padded `{:0w}` form, and `str::parse::<u64>`. */
module Decimal {
  import opened Wrappers

  const U64_LIMIT: int := 0x1_0000_0000_0000_0000

  /** Rust's `u64`. */
  newtype u64 = x: int | 0 <= x < 0x1_0000_0000_0000_0000

  /** Rust's `u16`, the width of an HTTP status code. */
  newtype u16 = x: int | 0 <= x < 0x1_0000

  predicate IsDigit(c: char) { '0' <= c <= '9' }

  predicate AllDigits(s: string) { forall i :: 0 <= i < |s| ==> IsDigit(s[i]) }

  function DigitValue(c: char): nat
    requires IsDigit(c)
  {
    c as int - '0' as int
  }

  function DigitChar(d: nat): (c: char)
    requires d < 10
    ensures IsDigit(c) && DigitValue(c) == d
  {
    ('0' as int + d) as char
  }

  function Pow10(k: nat): (p: nat)
    ensures p >= 1
  {
    if k == 0 then 1 else 10 * Pow10(k - 1)
  }

  /** `k` zero characters. */
  function Zeros(k: nat): (s: string)
    ensures |s| == k && AllDigits(s)
  {
    if k == 0 then [] else ['0'] + Zeros(k - 1)
  }

  /** `Display` for an unsigned integer: the shortest decimal text, no sign. */
  function Digits(n: nat): (s: string)
    ensures s != [] && AllDigits(s)
    ensures |s| > 1 ==> s[0] != '0'
  {
    if n < 10 then [DigitChar(n)] else Digits(n / 10) + [DigitChar(n % 10)]
  }

  /** The number a digit string denotes; leading zeros do not count. */
  function Value(s: string): nat
    requires AllDigits(s)
  {
    if s == [] then 0 else Value(s[..|s| - 1]) * 10 + DigitValue(s[|s| - 1])
  }

  /** The text of `n` is read back as `n`. */
  lemma {:induction false} ValueOfDigits(n: nat)
    ensures Value(Digits(n)) == n
  {
    if n >= 10 {
      var s := Digits(n);
      assert s[..|s| - 1] == Digits(n / 10);
      ValueOfDigits(n / 10);
    }
  }

  /** A digit string without a redundant leading zero denotes a positive
      number unless it is the single digit `0`. */
  lemma {:induction false} ValuePositive(s: string)
    requires s != [] && AllDigits(s) && s[0] != '0'
    ensures Value(s) > 0
  {
    if |s| > 1 {
      ValuePositive(s[..|s| - 1]);
    }
  }

  /** Conversely, the shortest text of the number a canonical digit string
      denotes is that string itself. */
  lemma {:induction false} DigitsOfValue(s: string)
    requires s != [] && AllDigits(s)
    requires |s| > 1 ==> s[0] != '0'
    ensures Digits(Value(s)) == s
  {
    if |s| > 1 {
      var p := s[..|s| - 1];
      ValuePositive(p);
      DigitsOfValue(p);
      assert Value(s) / 10 == Value(p);
      assert Value(s) % 10 == DigitValue(s[|s| - 1]);
      assert DigitChar(DigitValue(s[|s| - 1])) == s[|s| - 1];
    } else {
      assert Value(s) == DigitValue(s[0]);
      assert [DigitChar(DigitValue(s[0]))] == s;
    }
  }

  /** Leading zeros do not change the number a digit string denotes. */
  lemma {:induction false} ValueLeadingZeros(k: nat, s: string)
    requires AllDigits(s)
    ensures AllDigits(Zeros(k) + s) && Value(Zeros(k) + s) == Value(s)
  {
    if s == [] {
      assert Zeros(k) + s == Zeros(k);
      ValueOfZeros(k);
    } else {
      var t := Zeros(k) + s;
      assert t[..|t| - 1] == Zeros(k) + s[..|s| - 1];
      ValueLeadingZeros(k, s[..|s| - 1]);
    }
  }

  lemma {:induction false} ValueOfZeros(k: nat)
    ensures Value(Zeros(k)) == 0
  {
    if k > 0 {
      assert Zeros(k) == Zeros(k - 1) + ['0'] by { ZerosSnoc(k - 1); }
      assert Zeros(k)[..k - 1] == Zeros(k - 1);
      ValueOfZeros(k - 1);
    }
  }

  lemma {:induction false} ZerosSnoc(k: nat)
    ensures Zeros(k + 1) == Zeros(k) + ['0']
  {
    if k > 0 {
      ZerosSnoc(k - 1);
    }
  }

  /** Every digit string is some run of zeros followed by the shortest text
      of its value. */
  lemma {:induction false} CanonicalForm(s: string) returns (k: nat)
    requires s != [] && AllDigits(s)
    ensures k < |s| && s == Zeros(k) + Digits(Value(s))
  {
    if |s| > 1 && s[0] == '0' {
      var t := s[1..];
      var j := CanonicalForm(t);
      ValueLeadingZeros(1, t);
      assert Zeros(1) + t == s;
      k := j + 1;
      calc {
        Zeros(k) + Digits(Value(s));
        ['0'] + Zeros(j) + Digits(Value(t));
        { assert Zeros(j) + Digits(Value(t)) == t; }
        ['0'] + t;
        s;
      }
    } else {
      DigitsOfValue(s);
      k := 0;
      assert Zeros(0) + Digits(Value(s)) == Digits(Value(s));
    }
  }

  /** The shortest text of `n` has at most `k` digits when `n < 10^k` and at
      least `k + 1` digits when `n >= 10^k`. */
  lemma {:induction false} DigitsLength(n: nat, k: nat)
    ensures n < Pow10(k) && k > 0 ==> |Digits(n)| <= k
    ensures n >= Pow10(k) ==> |Digits(n)| > k
  {
    if n >= 10 && k > 0 {
      DigitsLength(n / 10, k - 1);
    }
  }

  /** `{:0w}` for an unsigned integer: the shortest text, left-padded with
      zeros up to `width` characters; a wider number is never cut. */
  function ZeroPad(n: nat, width: nat): (s: string)
    ensures AllDigits(s)
    ensures |s| == if |Digits(n)| >= width then |Digits(n)| else width
  {
    if |Digits(n)| >= width then Digits(n) else Zeros(width - |Digits(n)|) + Digits(n)
  }

  /** Padding loses nothing: the padded text still denotes `n`, and it is
      the shortest text itself once that is at least `width` long. */
  lemma ZeroPadValue(n: nat, width: nat)
    ensures Value(ZeroPad(n, width)) == n
    ensures |Digits(n)| >= width ==> ZeroPad(n, width) == Digits(n)
  {
    ValueOfDigits(n);
    if |Digits(n)| < width {
      ValueLeadingZeros(width - |Digits(n)|, Digits(n));
    }
  }

  /** The sign part of an accepted integer text. */
  function Sign(plus: bool): string
  {
    if plus then "+" else ""
  }

  /** An optional `+`, `k` zeros and the shortest text of `n`: the texts that
      `str::parse::<u64>` reads as `n`. */
  function Padded(plus: bool, k: nat, n: u64): string
  {
    Sign(plus) + Zeros(k) + Digits(n as nat)
  }

  /** `str::parse::<u64>`: an optional `+` followed by at least one ASCII
      digit, whose value must fit in 64 bits. Anything else, `-` included, is
      an error. An accepted text holds at least one digit and nothing but
      digits after its optional leading `+`. */
  function ParseU64(s: string): (r: Option<u64>)
    ensures r.Some? ==> s != [] && s != "+"
    ensures r.Some? ==> forall i :: 0 <= i < |s| ==> IsDigit(s[i]) || (i == 0 && s[i] == '+')
  {
    var body := if |s| > 0 && s[0] == '+' then s[1..] else s;
    if body != [] && AllDigits(body) && Value(body) < U64_LIMIT then Some(Value(body) as u64)
    else None
  }

  /** Every text of the form sign, zeros, shortest digits of a 64-bit value
      parses to that value. */
  lemma ParsePadded(plus: bool, k: nat, n: u64)
    ensures ParseU64(Padded(plus, k, n)) == Some(n)
  {
    var s := Padded(plus, k, n);
    var body := Zeros(k) + Digits(n as nat);
    assert s == Sign(plus) + body;
    assert (if |s| > 0 && s[0] == '+' then s[1..] else s) == body;
    ValueLeadingZeros(k, Digits(n as nat));
    ValueOfDigits(n as nat);
  }

  /** And nothing else parses: an accepted text is a sign, zeros and the
      shortest digits of the result. */
  lemma ParseSound(s: string, n: u64)
    requires ParseU64(s) == Some(n)
    ensures exists plus: bool, k: nat :: s == Padded(plus, k, n)
  {
    var plus := |s| > 0 && s[0] == '+';
    var body := if plus then s[1..] else s;
    assert body != [] && AllDigits(body) && Value(body) == n as nat;
    PaddedBody(s, plus, body, n);
  }

  /** A sign followed by a digit string of value `n` is a padded text of
      `n`. */
  lemma PaddedBody(s: string, plus: bool, body: string, n: u64)
    requires plus ==> |s| > 0 && s[0] == '+'
    requires body == if plus then s[1..] else s
    requires body != [] && AllDigits(body) && Value(body) == n as nat
    ensures exists plus: bool, k: nat :: s == Padded(plus, k, n)
  {
    var k := CanonicalForm(body);
    var sign := Sign(plus);
    assert s == sign + body by {
      if plus { assert s == [s[0]] + s[1..]; }
    }
    PaddedIs(plus, k, n, body);
  }

  lemma PaddedIs(plus: bool, k: nat, n: u64, body: string)
    requires body == Zeros(k) + Digits(n as nat)
    ensures Padded(plus, k, n) == Sign(plus) + body
  {
  }

  /** The shortest text of a 64-bit value parses back to it. */
  lemma ParseDigits(n: u64)
    ensures ParseU64(Digits(n as nat)) == Some(n)
  {
    ParsePadded(false, 0, n);
    assert Padded(false, 0, n) == Digits(n as nat);
  }

  /** The error cases: an empty text, a lone sign, a character other than a
      digit after the optional `+` (a `-` sign included), and a value of 2^64
      or more. */
  lemma ParseRejects(s: string)
    ensures s == [] || s == "+" ==> ParseU64(s) == None
    ensures (exists i :: 0 <= i < |s| && !IsDigit(s[i]) && !(i == 0 && s[i] == '+')) ==> ParseU64(s) == None
    ensures s != [] && AllDigits(s) && Value(s) >= U64_LIMIT ==> ParseU64(s) == None
  {
    if exists i :: 0 <= i < |s| && !IsDigit(s[i]) && !(i == 0 && s[i] == '+') {
      var i :| 0 <= i < |s| && !IsDigit(s[i]) && !(i == 0 && s[i] == '+');
      if |s| > 0 && s[0] == '+' {
        assert !IsDigit(s[1..][i - 1]);
      }
    }
  }
}
