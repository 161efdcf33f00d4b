/**
 * Go's `strconv.Atoi` on a 64-bit platform, and its inverse `strconv.Itoa`.
 * Atoi accepts an optional `+` or `-` followed by one or more ASCII decimal
 * digits (no spaces, no underscores, leading zeros allowed), and fails with
 * a range error when the value does not fit in a signed 64-bit integer.
 * The digits are scanned left to right and the unsigned accumulator is
 * checked at every digit, so a leading run of digits worth more than
 * 2^64 - 1 is a range error even when a non-digit follows it.
 */
module Strconv {
  import opened Wrappers

  const MinInt64: int := -0x8000_0000_0000_0000
  const MaxInt64: int := 0x7fff_ffff_ffff_ffff
  const MaxUint64: int := 0xffff_ffff_ffff_ffff

  /** The two failures of `strconv.Atoi`: `ErrSyntax` and `ErrRange`. */
  datatype NumError = ErrSyntax | ErrRange

  predicate IsDigit(c: char) { '0' <= c <= '9' }

  predicate AllDigits(s: string)
  {
    forall k :: 0 <= k < |s| ==> IsDigit(s[k])
  }

  /** The value of a string of decimal digits, most significant first. */
  function DigitsValue(s: string): (n: nat)
    requires AllDigits(s)
  {
    if s == [] then 0
    else DigitsValue(s[..|s| - 1]) * 10 + (s[|s| - 1] as int - '0' as int)
  }

  /** The sign Atoi strips, if any, and the digits that follow it. */
  function SignOf(s: string): (neg: bool)
  {
    |s| > 0 && s[0] == '-'
  }

  function Unsigned(s: string): (u: string)
    ensures |u| <= |s|
  {
    if |s| > 0 && (s[0] == '+' || s[0] == '-') then s[1..] else s
  }

  /** The longest run of digits that `u` starts with: what the scan reads before it can fail on a non-digit. */
  function LeadingDigits(u: string): (run: string)
    ensures AllDigits(run) && run <= u
    ensures |run| < |u| ==> !IsDigit(u[|run|])
    ensures run == u <==> AllDigits(u)
  {
    if u == [] || !IsDigit(u[0]) then []
    else [u[0]] + LeadingDigits(u[1..])
  }

  /** The shape Atoi accepts: optional sign, then at least one digit. */
  predicate WellFormed(s: string)
  {
    |Unsigned(s)| > 0 && AllDigits(Unsigned(s))
  }

  /** The mathematical value of a well-formed string, before the range check. */
  function SignedValue(s: string): int
    requires WellFormed(s)
  {
    if SignOf(s) then -(DigitsValue(Unsigned(s)) as int) else DigitsValue(Unsigned(s))
  }

  predicate InInt64(n: int) { MinInt64 <= n <= MaxInt64 }

  /** The scan overflows the unsigned 64-bit accumulator before it meets a non-digit. */
  predicate ScanOverflows(s: string)
  {
    DigitsValue(LeadingDigits(Unsigned(s))) > MaxUint64
  }

  /** `strconv.Atoi(s)`. */
  function Atoi(s: string): (r: Result<int, NumError>)
    ensures r.Success? <==> WellFormed(s) && InInt64(SignedValue(s))
    ensures r == Failure(ErrSyntax) <==> !WellFormed(s) && !ScanOverflows(s)
    ensures r == Failure(ErrRange) <==> ScanOverflows(s) || (WellFormed(s) && !InInt64(SignedValue(s)))
    ensures r.Success? ==> InInt64(r.value) && r.value == SignedValue(s)
  {
    var digits := Unsigned(s);
    if ScanOverflows(s) then Failure(ErrRange)
    else if |digits| == 0 || !AllDigits(digits) then Failure(ErrSyntax)
    else
      var v: int := if SignOf(s) then -(DigitsValue(digits) as int) else DigitsValue(digits);
      if v < MinInt64 || v > MaxInt64 then Failure(ErrRange) else Success(v)
  }

  /** The decimal digits of `n`, without leading zeros ("0" for zero). */
  function NatDigits(n: nat): (s: string)
    ensures |s| > 0 && AllDigits(s)
    ensures DigitsValue(s) == n
  {
    var last := [(('0' as int) + n % 10) as char];
    if n < 10 then
      assert last[..0] == [];
      last
    else
      var front := NatDigits(n / 10);
      var s := front + last;
      assert s[..|s| - 1] == front;
      s
  }

  /** `strconv.Itoa(n)`: a `-` for negative numbers, then the digits of the magnitude. */
  function Itoa(n: int): (s: string)
  {
    if n < 0 then "-" + NatDigits(-n) else NatDigits(n)
  }

  /** Itoa never produces a dot, a slash or a plus: it is safe inside a version string. */
  lemma ItoaChars(n: int)
    ensures forall k :: 0 <= k < |Itoa(n)| ==> Itoa(n)[k] == '-' || IsDigit(Itoa(n)[k])
  {
  }

  /** Atoi reads back every 64-bit integer Itoa writes. */
  lemma AtoiItoa(n: int)
    requires InInt64(n)
    ensures Atoi(Itoa(n)) == Success(n)
  {
    var s := Itoa(n);
    if n < 0 {
      assert Unsigned(s) == NatDigits(-n);
    } else {
      assert Unsigned(s) == NatDigits(n);
    }
  }

  /** The sign alone, and the empty string, are syntax errors. */
  lemma AtoiRejectsBareSign()
    ensures Atoi("") == Failure(ErrSyntax)
    ensures Atoi("+") == Failure(ErrSyntax)
    ensures Atoi("-") == Failure(ErrSyntax)
  {
  }

  /**
   * A run of digits too large for 64 bits is a range error even when a
   * non-digit follows it: the scan fails on the overflow first.
   */
  lemma AtoiRangeBeforeSyntax(digits: string, rest: string)
    requires |digits| > 0 && digits[0] != '+' && digits[0] != '-'
    requires AllDigits(digits) && DigitsValue(digits) > MaxUint64
    requires rest == [] || !IsDigit(rest[0])
    ensures Atoi(digits + rest) == Failure(ErrRange)
    ensures rest != [] ==> !WellFormed(digits + rest)
  {
    LeadingDigitsOf(digits, rest);
    assert Unsigned(digits + rest) == digits + rest;
    if rest != [] {
      assert (digits + rest)[|digits|] == rest[0];
    }
  }

  lemma {:induction false} LeadingDigitsOf(digits: string, rest: string)
    requires AllDigits(digits)
    requires rest == [] || !IsDigit(rest[0])
    ensures LeadingDigits(digits + rest) == digits
  {
    if digits != [] {
      assert (digits + rest)[1..] == digits[1..] + rest;
      LeadingDigitsOf(digits[1..], rest);
    }
  }

  function Pow10(k: nat): nat
  {
    if k == 0 then 1 else 10 * Pow10(k - 1)
  }

  lemma {:induction false} Pow10Add(a: nat, b: nat)
    ensures Pow10(a + b) == Pow10(a) * Pow10(b)
  {
    if a > 0 {
      Pow10Add(a - 1, b);
    }
  }

  /** A run of `k` nines is worth 10^k - 1. */
  lemma {:induction false} NinesValue(s: string)
    requires forall k :: 0 <= k < |s| ==> s[k] == '9'
    ensures AllDigits(s) && DigitsValue(s) + 1 == Pow10(|s|)
  {
    if s != [] {
      NinesValue(s[..|s| - 1]);
    }
  }

  /**
   * Twenty nines followed by `x` is a range error, not a syntax error.
   * The text is a parameter pinned by `requires` rather than a literal in
   * the body: the verifier unfolds functions of literal arguments without
   * bound, and a parameter keeps that in check.
   */
  lemma AtoiTwentyNinesThenLetter(nines: string)
    requires nines == "99999999999999999999"
    ensures Atoi(nines + "x") == Failure(ErrRange)
  {
    NinesValue(nines);
    assert Pow10(5) == 100_000;
    Pow10Add(5, 5);
    Pow10Add(10, 10);
    AtoiRangeBeforeSyntax(nines, "x");
  }

  /** One past the largest 64-bit integer is a range error, not a syntax error. */
  lemma AtoiOverflow()
    ensures Atoi(Itoa(MaxInt64 + 1)) == Failure(ErrRange)
  {
    var s := Itoa(MaxInt64 + 1);
    assert Unsigned(s) == s;
  }
}
