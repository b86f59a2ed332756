/** The two string/number conversions the merge step relies on:
    `std::stoi`, used to read fragment counts and indices, and
    `std::to_string`, used to write the fragment count of a merged unit. */
module Stoi {
  import opened Wrappers

  const INT_MIN: int := -0x8000_0000
  const INT_MAX: int := 0x7FFF_FFFF

  /** The characters `isspace` accepts in the "C" locale; `strtol` skips them. */
  predicate IsSpace(c: char) {
    c == ' ' || c == '\t' || c == '\n' || c == '\U{0B}' || c == '\U{0C}' || c == '\r'
  }

  predicate IsDigit(c: char) {
    '0' <= c <= '9'
  }

  function DigitValue(c: char): int {
    c as int - '0' as int
  }

  function DigitChar(d: nat): (c: char)
    requires d < 10
    ensures IsDigit(c) && DigitValue(c) == d
  {
    ('0' as int + d) as char
  }

  /** `s` without its leading white space. */
  function SkipSpace(s: string): string {
    if s != [] && IsSpace(s[0]) then SkipSpace(s[1..]) else s
  }

  /** The longest prefix of `s` made of decimal digits. */
  function DigitPrefix(s: string): string {
    if s != [] && IsDigit(s[0]) then [s[0]] + DigitPrefix(s[1..]) else []
  }

  /** The number a string of decimal digits denotes, most significant digit first. */
  function DecimalValue(d: string): int {
    if d == [] then 0 else 10 * DecimalValue(d[..|d| - 1]) + DigitValue(d[|d| - 1])
  }

  /** `std::stoi(s)` (base 10), with the exception it may throw as `None`:
      leading white space is skipped, one optional sign is accepted, at least
      one digit must follow, anything after the digits is ignored, and a value
      outside the range of a 32-bit `int` is an out-of-range error. */
  function ParseInt(s: string): (r: Option<int>)
    ensures r.Some? ==> INT_MIN <= r.value <= INT_MAX
  {
    var t := SkipSpace(s);
    var negative := t != [] && t[0] == '-';
    var u := if t != [] && (t[0] == '-' || t[0] == '+') then t[1..] else t;
    var digits := DigitPrefix(u);
    if digits == [] then None
    else
      var magnitude := DecimalValue(digits);
      var v: int := if negative then -magnitude else magnitude;
      if INT_MIN <= v <= INT_MAX then Some(v) else None
  }

  /** `std::to_string(n)` for a non-negative `n`: its decimal digits, no sign, no leading zero. */
  function ToDecimal(n: nat): (r: string)
    ensures r != [] && forall i :: 0 <= i < |r| ==> IsDigit(r[i])
    ensures |r| > 1 ==> r[0] != '0'
  {
    if n < 10 then [DigitChar(n)] else ToDecimal(n / 10) + [DigitChar(n % 10)]
  }

  /** The digits `std::to_string` writes denote the number written. */
  lemma {:induction false} DecimalValueOfToDecimal(n: nat)
    ensures DecimalValue(ToDecimal(n)) == n
  {
    if n >= 10 {
      var r := ToDecimal(n);
      assert r[..|r| - 1] == ToDecimal(n / 10);
      DecimalValueOfToDecimal(n / 10);
    }
  }

  /** A string of digits is its own longest digit prefix. */
  lemma {:induction false} DigitPrefixOfDigits(s: string)
    requires forall i :: 0 <= i < |s| ==> IsDigit(s[i])
    ensures DigitPrefix(s) == s
  {
    if s != [] {
      DigitPrefixOfDigits(s[1..]);
    }
  }

  /** Round trip: `std::stoi(std::to_string(n)) == n` for every count an `int` can hold. */
  lemma ParseToDecimal(n: nat)
    requires n <= INT_MAX
    ensures ParseInt(ToDecimal(n)) == Some(n)
  {
    var r := ToDecimal(n);
    assert !IsSpace(r[0]) && r[0] != '-' && r[0] != '+';
    assert SkipSpace(r) == r;
    DigitPrefixOfDigits(r);
    DecimalValueOfToDecimal(n);
  }

  lemma {:induction false} SkipSpaceOfSpaces(w: string, t: string)
    requires forall i :: 0 <= i < |w| ==> IsSpace(w[i])
    ensures SkipSpace(w + t) == SkipSpace(t)
    decreases |w|
  {
    if w != [] {
      assert (w + t)[0] == w[0];
      assert (w + t)[1..] == w[1..] + t;
      SkipSpaceOfSpaces(w[1..], t);
    } else {
      assert w + t == t;
    }
  }

  /** The lenient parse: any white space before the number is skipped. */
  lemma ParseIntSkipsSpace(w: string, t: string)
    requires forall i :: 0 <= i < |w| ==> IsSpace(w[i])
    ensures ParseInt(w + t) == ParseInt(t)
  {
    SkipSpaceOfSpaces(w, t);
  }

  lemma {:induction false} DigitPrefixStopsAtNonDigit(d: string, t: string)
    requires forall i :: 0 <= i < |d| ==> IsDigit(d[i])
    requires t == [] || !IsDigit(t[0])
    ensures DigitPrefix(d + t) == d
    decreases |d|
  {
    if d == [] {
      assert d + t == t;
    } else {
      assert (d + t)[0] == d[0];
      assert (d + t)[1..] == d[1..] + t;
      DigitPrefixStopsAtNonDigit(d[1..], t);
    }
  }

  /** The lenient parse: whatever follows a run of digits is ignored. */
  lemma ParseIntIgnoresTrailing(d: string, t: string)
    requires d != [] && forall i :: 0 <= i < |d| ==> IsDigit(d[i])
    requires t == [] || !IsDigit(t[0])
    ensures ParseInt(d + t) == ParseInt(d)
  {
    assert (d + t)[0] == d[0];
    assert SkipSpace(d + t) == d + t;
    assert SkipSpace(d) == d;
    DigitPrefixStopsAtNonDigit(d, t);
    DigitPrefixOfDigits(d);
  }

  /** A string with no digit after its white space and optional sign is an
      invalid argument. */
  lemma ParseIntRejects(s: string)
    requires var t := SkipSpace(s);
      var u := if t != [] && (t[0] == '-' || t[0] == '+') then t[1..] else t;
      u == [] || !IsDigit(u[0])
    ensures ParseInt(s) == None
  {
  }

  lemma {:induction false} DecimalValueNonNeg(d: string)
    requires forall i :: 0 <= i < |d| ==> IsDigit(d[i])
    ensures DecimalValue(d) >= 0
    decreases |d|
  {
    if d != [] {
      DecimalValueNonNeg(d[..|d| - 1]);
    }
  }

  /** The lenient parse: a leading `+` changes nothing, and a leading `-`
      negates the digits' value whenever the result fits an `int`. */
  lemma ParseIntSign(d: string)
    requires d != [] && forall i :: 0 <= i < |d| ==> IsDigit(d[i])
    ensures ParseInt("+" + d) == ParseInt(d)
    ensures DecimalValue(d) <= -INT_MIN ==> ParseInt("-" + d) == Some(-DecimalValue(d))
  {
    DigitPrefixOfDigits(d);
    DecimalValueNonNeg(d);
    assert SkipSpace(d) == d;
    assert SkipSpace("+" + d) == "+" + d;
    assert SkipSpace("-" + d) == "-" + d;
    assert ("+" + d)[1..] == d;
    assert ("-" + d)[1..] == d;
  }
}
