/** Decimal text of integers, as Go's strconv reads and writes it in base 10. */
module Decimal {

  import opened Wrappers
  import Exact

  predicate IsDigit(c: char) { '0' <= c <= '9' }

  predicate AllDigits(s: string) { forall i :: 0 <= i < |s| ==> IsDigit(s[i]) }

  function DigitOf(c: char): (d: int)
    requires IsDigit(c)
    ensures 0 <= d <= 9
  {
    c as int - '0' as int
  }

  function CharOf(d: int): (c: char)
    requires 0 <= d <= 9
    ensures IsDigit(c) && DigitOf(c) == d
  {
    ('0' as int + d) as char
  }

  function Value(s: string): nat
    requires AllDigits(s)
  {
    if s == "" then 0 else 10 * Value(s[..|s| - 1]) + DigitOf(s[|s| - 1])
  }

  function Digits(n: nat): (s: string)
    ensures s != "" && AllDigits(s)
  {
    if n < 10 then [CharOf(n)] else Digits(n / 10) + [CharOf(n % 10)]
  }

  /** strconv.FormatInt. */
  function Format(v: int): string { if v < 0 then "-" + Digits(-v) else Digits(v) }

  predicate Fits(v: int, bits: nat)
    requires bits == 32 || bits == 64
  {
    if bits == 32 then -0x8000_0000 <= v <= 0x7fff_ffff else -0x8000_0000_0000_0000 <= v <= 0x7fff_ffff_ffff_ffff
  }

  /** strconv.ParseInt: an optional sign, at least one digit, nothing else, in range. */
  function ParseInt(s: string, bits: nat): Option<int>
    requires bits == 32 || bits == 64
  {
    var signed := s != "" && (s[0] == '+' || s[0] == '-');
    var body := if signed then s[1..] else s;
    if body == "" || !AllDigits(body) then None
    else
      var v: int := if signed && s[0] == '-' then -(Value(body) as int) else Value(body);
      if Fits(v, bits) then Some(v) else None
  }

  /** No leading zero. */
  predicate Tidy(s: string) { s != "" && AllDigits(s) && (|s| > 1 ==> s[0] != '0') }

  /** The text of exactly one integer: zero, or a nonzero number without leading zeros and at most a minus. */
  predicate Canonical(s: string) { Tidy(s) || (|s| > 1 && s[0] == '-' && Tidy(s[1..]) && s[1..] != "0") }

  lemma {:induction false} DigitsRoundTrip(n: nat)
    ensures Value(Digits(n)) == n && Tidy(Digits(n)) && (n > 0 ==> Digits(n)[0] != '0')
  {
    if n >= 10 {
      DigitsRoundTrip(n / 10);
      assert Digits(n)[..|Digits(n)| - 1] == Digits(n / 10);
    } else {
      assert [CharOf(n)][..0] == "";
    }
  }

  lemma {:induction false} TidyRoundTrip(s: string)
    requires Tidy(s)
    ensures Digits(Value(s)) == s && (Value(s) == 0 <==> s == "0")
    decreases |s|
  {
    var front, last := s[..|s| - 1], s[|s| - 1];
    if front == "" {
      assert s == [last] && Value(front) == 0;
    } else {
      TidyRoundTrip(front);
      assert s == front + [last];
      assert Value(s) / 10 == Value(front) && Value(s) % 10 == DigitOf(last);
    }
  }

  lemma ParseSigned(body: string, bits: nat)
    requires (bits == 32 || bits == 64) && body != "" && AllDigits(body)
    ensures ParseInt("-" + body, bits) == if Fits(-(Value(body) as int), bits) then Some(-(Value(body) as int)) else None
  {
    assert ("-" + body)[1..] == body;
  }

  lemma ParseUnsigned(body: string, bits: nat)
    requires (bits == 32 || bits == 64) && body != "" && AllDigits(body)
    ensures ParseInt(body, bits) == if Fits(Value(body), bits) then Some(Value(body)) else None
  {
    assert IsDigit(body[0]);
  }

  lemma NegativeRoundTrip(n: nat, bits: nat)
    requires (bits == 32 || bits == 64) && Fits(-(n as int), bits)
    ensures ParseInt("-" + Digits(n), bits) == Some(-(n as int))
  {
    DigitsRoundTrip(n);
    ParseSigned(Digits(n), bits);
  }

  /** Every integer in range is read back from its text. */
  lemma FormatRoundTrip(v: int, bits: nat)
    requires (bits == 32 || bits == 64) && Fits(v, bits)
    ensures ParseInt(Format(v), bits) == Some(v)
  {
    if v < 0 {
      NegativeRoundTrip(-v, bits);
    } else {
      DigitsRoundTrip(v);
      ParseUnsigned(Digits(v), bits);
    }
  }

  lemma FormatIsCanonical(v: int)
    ensures Canonical(Format(v))
  {
    if v < 0 {
      DigitsRoundTrip(-v);
      assert Format(v)[1..] == Digits(-v);
    } else {
      DigitsRoundTrip(v);
    }
  }

  lemma CanonicalReformats(s: string, bits: nat)
    requires (bits == 32 || bits == 64) && ParseInt(s, bits).Some? && Canonical(s)
    ensures Format(ParseInt(s, bits).value) == s
  {
    if s[0] == '-' {
      var body := s[1..];
      TidyRoundTrip(body);
      ParseSigned(body, bits);
      assert s == "-" + body;
    } else {
      TidyRoundTrip(s);
      ParseUnsigned(s, bits);
    }
  }

  /** A text is its own reformatting exactly when it is canonical. */
  lemma CanonicalIffReformats(s: string, bits: nat)
    requires (bits == 32 || bits == 64) && ParseInt(s, bits).Some?
    ensures Format(ParseInt(s, bits).value) == s <==> Canonical(s)
  {
    FormatIsCanonical(ParseInt(s, bits).value);
    if Canonical(s) {
      CanonicalReformats(s, bits);
    }
  }

  /* ---------------------------------------------------------------- what a numeral stands for */

  /** Each digit times the power of ten of its place. */
  function PlaceValue(s: string): int
    requires AllDigits(s)
  {
    if s == "" then 0 else (s[0] as int - 48) * Exact.Pow10(|s| - 1) + PlaceValue(s[1..])
  }

  lemma ShiftPlaces(d: int, p: int, rest: int, last: int)
    ensures d * (10 * p) + (10 * rest + last) == 10 * (d * p + rest) + last
  {
  }

  lemma {:induction false} AppendDigit(s: string, c: char)
    requires AllDigits(s) && IsDigit(c)
    ensures PlaceValue(s + [c]) == 10 * PlaceValue(s) + (c as int - 48)
  {
    if s == "" {
      assert s + [c] == [c] && [c][1..] == "";
    } else {
      AppendDigit(s[1..], c);
      assert (s + [c])[1..] == s[1..] + [c];
      ShiftPlaces(s[0] as int - 48, Exact.Pow10(|s| - 1), PlaceValue(s[1..]), c as int - 48);
    }
  }

  lemma {:induction false} ValueIsPlaceValue(s: string)
    requires AllDigits(s)
    ensures Value(s) == PlaceValue(s)
    decreases |s|
  {
    if s != "" {
      var front := s[..|s| - 1];
      ValueIsPlaceValue(front);
      AppendDigit(front, s[|s| - 1]);
      assert s == front + [s[|s| - 1]];
    }
  }

  /** The integer a text stands for: digits by their places, with at most one sign before them. */
  predicate StandsFor(s: string, v: int) {
    || (s != "" && AllDigits(s) && v == PlaceValue(s))
    || (|s| > 1 && s[0] == '+' && AllDigits(s[1..]) && v == PlaceValue(s[1..]))
    || (|s| > 1 && s[0] == '-' && AllDigits(s[1..]) && v == -PlaceValue(s[1..]))
  }

  /** The text of an integer stands for it, in or out of range. */
  lemma FormatStandsFor(v: int)
    ensures StandsFor(Format(v), v)
  {
    var n := if v < 0 then -v else v;
    DigitsRoundTrip(n);
    ValueIsPlaceValue(Digits(n));
    assert v < 0 ==> Format(v)[1..] == Digits(n);
  }

  /** ParseInt accepts exactly the numerals of the integers of its width. */
  lemma ParseIntIff(s: string, bits: nat, v: int)
    requires bits == 32 || bits == 64
    ensures ParseInt(s, bits) == Some(v) <==>
            StandsFor(s, v) && (if bits == 32 then -2147483648 <= v < 2147483648 else -9223372036854775808 <= v < 9223372036854775808)
  {
    if s != "" && AllDigits(s) {
      ValueIsPlaceValue(s);
      assert IsDigit(s[0]);
    }
    if s != "" && AllDigits(s[1..]) {
      ValueIsPlaceValue(s[1..]);
    }
  }
}
