/** Decimal printing and parsing of 64-bit integers, with the values Go's strconv returns
beside its errors: callers in the repository ignore the error and keep the value. */
module Decimal {

  const MAX_INT64: int := 0x7FFF_FFFF_FFFF_FFFF
  const MIN_INT64: int := -0x8000_0000_0000_0000
  const MAX_UINT64: int := 0xFFFF_FFFF_FFFF_FFFF

  datatype ParseError = NoError | SyntaxError | RangeError

  datatype Parsed = Parsed(value: int, error: ParseError)

  /** Two's-complement wrap-around of a product or sum that left the 64-bit range. */
  function Wrap64(n: int): (w: int)
    ensures MIN_INT64 <= w <= MAX_INT64
    ensures MIN_INT64 <= n <= MAX_INT64 ==> w == n
  {
    (n - MIN_INT64) % 0x1_0000_0000_0000_0000 + MIN_INT64
  }

  predicate IsDigit(c: char) {
    '0' <= c <= '9'
  }

  function DigitChar(d: nat): (c: char)
    requires d < 10
    ensures IsDigit(c) && DigitValue(c) == d
  {
    '0' + d as char
  }

  function DigitValue(c: char): (d: nat)
    requires IsDigit(c)
    ensures d < 10
  {
    (c - '0') as int
  }

  function FormatNat(n: nat): (s: string)
    ensures |s| > 0 && forall c | c in s :: IsDigit(c)
  {
    if n < 10 then [DigitChar(n)] else FormatNat(n / 10) + [DigitChar(n % 10)]
  }

  /** strconv.FormatInt(n, 10). */
  function FormatInt(n: int): (s: string) {
    if n < 0 then "-" + FormatNat(-n) else FormatNat(n)
  }

  /** The digit loop of strconv.ParseUint: left to right, so an overflow is reported before
  a bad character further on. */
  function ParseDigits(s: string, n: nat): (r: Parsed)
    requires n <= MAX_UINT64
    ensures 0 <= r.value <= MAX_UINT64
    ensures r.error.SyntaxError? ==> r.value == 0
  {
    if s == "" then Parsed(n, NoError)
    else if !IsDigit(s[0]) then Parsed(0, SyntaxError)
    else
      var next := 10 * n + DigitValue(s[0]);
      if next > MAX_UINT64 then Parsed(MAX_UINT64, RangeError) else ParseDigits(s[1..], next)
  }

  /** strconv.ParseInt(s, 10, 64), and strconv.Atoi on a 64-bit build. */
  function ParseInt(s: string): (r: Parsed)
    ensures MIN_INT64 <= r.value <= MAX_INT64
    ensures r.error.SyntaxError? ==> r.value == 0
  {
    if s == "" then Parsed(0, SyntaxError)
    else
      var negative := s[0] == '-';
      var digits := if s[0] == '-' || s[0] == '+' then s[1..] else s;
      if digits == "" then Parsed(0, SyntaxError)
      else
        var u := ParseDigits(digits, 0);
        if u.error.SyntaxError? then Parsed(0, SyntaxError)
        else if !negative && u.value > MAX_INT64 then Parsed(MAX_INT64, RangeError)
        else if negative && -u.value < MIN_INT64 then Parsed(MIN_INT64, RangeError)
        else Parsed(if negative then -u.value else u.value, NoError)
  }

  lemma {:induction false} ParseDigitsAppend(s: string, n: nat, c: char)
    requires n <= MAX_UINT64 && IsDigit(c)
    requires ParseDigits(s, n).error.NoError?
    requires 10 * ParseDigits(s, n).value + DigitValue(c) <= MAX_UINT64
    ensures ParseDigits(s + [c], n) == Parsed(10 * ParseDigits(s, n).value + DigitValue(c), NoError)
  {
    if s == "" {
      assert (s + [c])[1..] == "";
    } else {
      assert (s + [c])[1..] == s[1..] + [c];
      ParseDigitsAppend(s[1..], 10 * n + DigitValue(s[0]), c);
    }
  }

  lemma {:induction false} ParseFormattedNat(n: nat)
    requires n <= MAX_UINT64
    ensures ParseDigits(FormatNat(n), 0) == Parsed(n, NoError)
  {
    if n >= 10 {
      ParseFormattedNat(n / 10);
      ParseDigitsAppend(FormatNat(n / 10), 0, DigitChar(n % 10));
    } else {
      assert FormatNat(n)[1..] == "";
    }
  }

  /** A sign is printed for negative numbers alone. */
  lemma SignMeansNegative(n: int)
    ensures FormatInt(n) != "" && (FormatInt(n)[0] == '-' <==> n < 0)
  {
    if n >= 0 {
      assert FormatNat(n)[0] in FormatNat(n);
    }
  }

  /** Printing then parsing is the identity on every 64-bit integer, both ends included. */
  lemma ParseFormatRoundTrip(n: int)
    requires MIN_INT64 <= n <= MAX_INT64
    ensures ParseInt(FormatInt(n)) == Parsed(n, NoError)
  {
    if n < 0 {
      ParseFormattedNat(-n);
      assert FormatInt(n)[1..] == FormatNat(-n);
    } else {
      ParseFormattedNat(n);
      assert IsDigit(FormatNat(n)[0]) by { assert FormatNat(n)[0] in FormatNat(n); }
    }
  }

  /** A number that does not fit is still read in full, and saturates. */
  lemma {:induction false} FormattedDigits(n: nat)
    ensures ParseDigits(FormatNat(n), 0) ==
            if n <= MAX_UINT64 then Parsed(n, NoError) else Parsed(MAX_UINT64, RangeError)
  {
    if n <= MAX_UINT64 {
      ParseFormattedNat(n);
    } else {
      FormattedDigits(n / 10);
      TooManyDigits(FormatNat(n / 10), 0, DigitChar(n % 10));
    }
  }

  lemma {:induction false} TooManyDigits(s: string, n: nat, c: char)
    requires n <= MAX_UINT64 && IsDigit(c) && !ParseDigits(s, n).error.SyntaxError?
    requires ParseDigits(s, n).error.NoError? ==> 10 * ParseDigits(s, n).value + DigitValue(c) > MAX_UINT64
    ensures ParseDigits(s + [c], n) == Parsed(MAX_UINT64, RangeError)
  {
    if s == "" {
      assert (s + [c])[1..] == "";
    } else {
      assert (s + [c])[1..] == s[1..] + [c];
      if 10 * n + DigitValue(s[0]) <= MAX_UINT64 {
        TooManyDigits(s[1..], 10 * n + DigitValue(s[0]), c);
      }
    }
  }

  /** Every natural number, signed or not, comes back as itself or as the nearest end of the range,
  with a range error exactly in that case. */
  lemma ParsedInRange(n: nat)
    ensures ParseInt(FormatNat(n)) == if n <= MAX_INT64 then Parsed(n, NoError) else Parsed(MAX_INT64, RangeError)
    ensures ParseInt("+" + FormatNat(n)) == ParseInt(FormatNat(n))
    ensures var m: int := n;
            ParseInt("-" + FormatNat(n)) ==
              if -m >= MIN_INT64 then Parsed(-m, NoError) else Parsed(MIN_INT64, RangeError)
  {
    FormattedDigits(n);
    assert IsDigit(FormatNat(n)[0]) by { assert FormatNat(n)[0] in FormatNat(n); }
    assert ("+" + FormatNat(n))[1..] == FormatNat(n);
    assert ("-" + FormatNat(n))[1..] == FormatNat(n);
  }

  /** What is not a number at all is read as 0, with a syntax error: nothing, a sign alone, or a
  character that is no digit after digits that fit. */
  lemma {:induction false} NotANumber(digits: string, c: char, rest: string)
    requires !IsDigit(c) && (digits == "" ==> c != '-' && c != '+')
    requires forall d | d in digits :: IsDigit(d)
    requires ParseDigits(digits, 0).error.NoError?
    ensures ParseInt("") == ParseInt("-") == ParseInt("+") == Parsed(0, SyntaxError)
    ensures ParseInt(digits + [c] + rest) == Parsed(0, SyntaxError)
  {
    BadCharacter(digits, 0, c, rest);
    if digits != "" {
      assert digits[0] in digits;
    }
  }

  lemma {:induction false} BadCharacter(digits: string, n: nat, c: char, rest: string)
    requires n <= MAX_UINT64 && !IsDigit(c) && ParseDigits(digits, n).error.NoError?
    ensures ParseDigits(digits + [c] + rest, n) == Parsed(0, SyntaxError)
  {
    if digits != "" {
      assert (digits + [c] + rest)[1..] == digits[1..] + [c] + rest;
      BadCharacter(digits[1..], 10 * n + DigitValue(digits[0]), c, rest);
    }
  }
}
