/**
  Decimal digit strings: the zero-padded rendering Go's time formatter uses,
  the fixed-width reading its parser uses, and `strconv.Atoi` on a 64-bit
  platform.
 */
module Decimal {
  import opened Wrappers

  predicate IsDigit(c: char) {
    '0' <= c <= '9'
  }

  predicate AllDigits(s: string) {
    forall i :: 0 <= i < |s| ==> IsDigit(s[i])
  }

  function DigitValue(c: char): (d: nat)
    requires IsDigit(c)
    ensures d < 10
  {
    c as int - '0' as int
  }

  function DigitChar(d: nat): (c: char)
    requires d < 10
    ensures IsDigit(c) && DigitValue(c) == d
  {
    ('0' as int + d) as char
  }

  function Pow10(n: nat): (p: nat)
    ensures p >= 1
  {
    if n == 0 then 1 else 10 * Pow10(n - 1)
  }

  /** The number a string of decimal digits denotes, most significant first. */
  function Value(s: string): nat
    requires AllDigits(s)
  {
    if |s| == 0 then 0 else Value(s[..|s| - 1]) * 10 + DigitValue(s[|s| - 1])
  }

  /**
    The decimal rendering of `n`, left-padded with zeros to at least `width`
    digits (Go's internal `appendInt(b, n, width)` for a non-negative `n`).
   */
  function Pad(n: nat, width: nat): (s: string)
    ensures AllDigits(s)
    ensures |s| >= 1 && |s| >= width
    decreases n, width
  {
    if n < 10 && width <= 1 then [DigitChar(n)]
    else Pad(n / 10, if width > 0 then width - 1 else 0) + [DigitChar(n % 10)]
  }

  /** The plain decimal rendering (`strconv.Itoa`). */
  function Itoa(n: int): (s: string)
    ensures |s| >= 1
  {
    if n < 0 then "-" + Pad(-n, 1) else Pad(n, 1)
  }

  lemma {:induction false} ValuePrefix(s: string, c: char)
    requires AllDigits(s) && IsDigit(c)
    ensures AllDigits(s + [c]) && Value(s + [c]) == Value(s) * 10 + DigitValue(c)
  {
    assert (s + [c])[..|s + [c]| - 1] == s;
  }

  /** Reading back a padded rendering gives the number. */
  lemma {:induction false} ValueOfPad(n: nat, width: nat)
    ensures Value(Pad(n, width)) == n
    decreases n, width
  {
    if n < 10 && width <= 1 {
      assert Pad(n, width)[..0] == [];
    } else {
      var w := if width > 0 then width - 1 else 0;
      ValueOfPad(n / 10, w);
      ValuePrefix(Pad(n / 10, w), DigitChar(n % 10));
    }
  }

  /** A number below `10^width` is rendered in exactly `width` digits. */
  lemma {:induction false} PadLength(n: nat, width: nat)
    requires width >= 1 && n < Pow10(width)
    ensures |Pad(n, width)| == width
    decreases width
  {
    if n < 10 && width <= 1 {
    } else {
      assert width >= 2 || n >= 10;
      assert width >= 2;
      PadLength(n / 10, width - 1);
    }
  }

  /** A digit string is exactly the padded rendering of its own value. */
  lemma {:induction false} PadOfValue(s: string)
    requires AllDigits(s) && |s| >= 1
    ensures Pad(Value(s), |s|) == s
    decreases |s|
  {
    var init := s[..|s| - 1];
    var last := s[|s| - 1];
    var n := Value(s);
    assert n / 10 == Value(init) && n % 10 == DigitValue(last);
    if |s| == 1 {
      assert Value(init) == 0;
      assert DigitChar(n) == last;
    } else {
      PadOfValue(init);
      assert s == init + [last];
    }
  }

  /** Values of `k` digits stay below `10^k`. */
  lemma {:induction false} ValueBound(s: string)
    requires AllDigits(s)
    ensures Value(s) < Pow10(|s|)
    decreases |s|
  {
    if |s| > 0 {
      ValueBound(s[..|s| - 1]);
    }
  }

  const MinInt64: int := -0x8000_0000_0000_0000
  const MaxInt64: int := 0x7FFF_FFFF_FFFF_FFFF
  const MaxUint64: int := 0xFFFF_FFFF_FFFF_FFFF

  /** ParseUint's base-10 cutoff: the smallest `n` for which `n * 10` exceeds `MaxUint64`. */
  const Cutoff10: int := MaxUint64 / 10 + 1

  datatype AtoiError = SyntaxError | RangeError

  /** Whether the text starts with a minus sign. */
  predicate Negative(s: string) {
    |s| > 0 && s[0] == '-'
  }

  /** The text without its leading sign, if it has one. */
  function Unsigned(s: string): string {
    if |s| > 0 && (s[0] == '-' || s[0] == '+') then s[1..] else s
  }

  /** The length of the leading run of digits: the index of the first non-digit, or `|t|`. */
  function FirstNonDigit(t: string): (k: nat)
    ensures k <= |t| && AllDigits(t[..k])
    ensures k < |t| ==> !IsDigit(t[k])
  {
    NonDigitFrom(t, 0)
  }

  function NonDigitFrom(t: string, i: nat): (k: nat)
    requires i <= |t| && AllDigits(t[..i])
    ensures i <= k <= |t| && AllDigits(t[..k])
    ensures k < |t| ==> !IsDigit(t[k])
    decreases |t| - i
  {
    if i == |t| || !IsDigit(t[i]) then i
    else
      assert t[..i + 1] == t[..i] + [t[i]];
      NonDigitFrom(t, i + 1)
  }

  /**
    The int64 with magnitude `v` and the given sign (ParseInt's final check
    against 1 << 63), or a range error.
   */
  function Signed(negative: bool, v: nat): (r: Result<int, AtoiError>)
    ensures r.Success? ==> MinInt64 <= r.value <= MaxInt64
  {
    if negative then (if v > -MinInt64 then Failure(RangeError) else Success(-(v as int)))
    else if v > MaxInt64 then Failure(RangeError) else Success(v)
  }

  /**
    ParseUint's loop from index `i` on, `n` being the value so far: left to
    right, a non-digit is a syntax error and a digit that takes the value
    past 2^64 − 1 is a range error, whichever comes first.
   */
  function ScanUint(s: string, i: nat, n: nat): Result<nat, AtoiError>
    requires i <= |s|
    decreases |s| - i
  {
    if i == |s| then Success(n)
    else if !IsDigit(s[i]) then Failure(SyntaxError)
    else if n >= Cutoff10 then Failure(RangeError)
    else
      var n1 := n * 10 + DigitValue(s[i]);
      if n1 > MaxUint64 then Failure(RangeError) else ScanUint(s, i + 1, n1)
  }

  /**
    `strconv.ParseInt(s, 10, 64)`: a sign, then ParseUint on the rest; an
    overflow of the unsigned scan is a range error like an overflow of the
    signed range.
   */
  function ParseInt(s: string): (r: Result<int, AtoiError>)
    ensures |Unsigned(s)| == 0 ==> r == Failure(SyntaxError)
    ensures |Unsigned(s)| > 0 && AllDigits(Unsigned(s)) ==> r == Signed(Negative(s), Value(Unsigned(s)))
    ensures var u := Unsigned(s); var k := FirstNonDigit(u);
      k < |u| ==> r == Failure(if Value(u[..k]) <= MaxUint64 then SyntaxError else RangeError)
  {
    var u := Unsigned(s);
    if |u| == 0 then Failure(SyntaxError)
    else
      ScanFacts(u);
      match ScanUint(u, 0, 0)
      case Failure(e) => Failure(e)
      case Success(v) => Signed(Negative(s), v)
  }

  /** The scan of a whole non-empty text, in terms of its digit run. */
  lemma ScanFacts(u: string)
    requires |u| > 0
    ensures AllDigits(u) ==>
      ScanUint(u, 0, 0) == if Value(u) <= MaxUint64 then Success(Value(u)) else Failure(RangeError)
    ensures var k := FirstNonDigit(u);
      k < |u| ==> ScanUint(u, 0, 0) == Failure(if Value(u[..k]) <= MaxUint64 then SyntaxError else RangeError)
  {
    assert u[..0] == [];
    var k := FirstNonDigit(u);
    if k < |u| {
      ScanToNonDigit(u, 0, k);
    } else {
      assert u[..k] == u;
      ScanDigits(u, 0);
    }
  }

  lemma PrefixStep(s: string, i: nat)
    requires i < |s| && AllDigits(s[..i + 1])
    ensures AllDigits(s[..i]) && Value(s[..i + 1]) == Value(s[..i]) * 10 + DigitValue(s[i])
  {
    assert s[..i + 1][..i] == s[..i];
  }

  /** A longer digit prefix is worth at least as much. */
  lemma {:induction false} PrefixMono(s: string, i: nat, j: nat)
    requires i <= j <= |s| && AllDigits(s[..j])
    ensures AllDigits(s[..i]) && Value(s[..i]) <= Value(s[..j])
    decreases j - i
  {
    if i < j {
      PrefixStep(s, j - 1);
      PrefixMono(s, i, j - 1);
    }
  }

  /** On an all-digit text the scan yields the value, or a range error when it exceeds 2^64 − 1. */
  lemma {:induction false} ScanDigits(s: string, i: nat)
    requires i <= |s| && AllDigits(s) && AllDigits(s[..i]) && Value(s[..i]) <= MaxUint64
    ensures ScanUint(s, i, Value(s[..i])) == if Value(s) <= MaxUint64 then Success(Value(s)) else Failure(RangeError)
    decreases |s| - i
  {
    if i == |s| {
      assert s[..i] == s;
    } else {
      assert s[..i + 1] == s[..i] + [s[i]];
      PrefixStep(s, i);
      if Value(s[..i + 1]) > MaxUint64 {
        assert s[..|s|] == s;
        PrefixMono(s, i + 1, |s|);
      } else {
        ScanDigits(s, i + 1);
      }
    }
  }

  /**
    With a non-digit at `k`, the scan stops there with a syntax error,
    unless the digits before it already exceed 2^64 − 1, which is a range error.
   */
  lemma {:induction false} ScanToNonDigit(s: string, i: nat, k: nat)
    requires i <= k < |s| && AllDigits(s[..k]) && !IsDigit(s[k])
    requires AllDigits(s[..i]) && Value(s[..i]) <= MaxUint64
    ensures ScanUint(s, i, Value(s[..i])) == Failure(if Value(s[..k]) <= MaxUint64 then SyntaxError else RangeError)
    decreases k - i
  {
    if i < k {
      assert s[..i + 1] == s[..k][..i + 1];
      PrefixStep(s, i);
      if Value(s[..i + 1]) > MaxUint64 {
        PrefixMono(s, i + 1, k);
      } else {
        ScanToNonDigit(s, i + 1, k);
      }
    }
  }

  /**
    Atoi's fast path for texts of 1 to 18 characters: a sign, then digits
    only; no overflow is possible at that length.
   */
  function FastAtoi(s: string): (r: Result<int, AtoiError>)
    requires 0 < |s| < 19
    ensures |Unsigned(s)| == 0 ==> r == Failure(SyntaxError)
    ensures |Unsigned(s)| > 0 && AllDigits(Unsigned(s)) ==> r == Signed(Negative(s), Value(Unsigned(s)))
    ensures var u := Unsigned(s); var k := FirstNonDigit(u);
      k < |u| ==> r == Failure(if Value(u[..k]) <= MaxUint64 then SyntaxError else RangeError)
  {
    var u := Unsigned(s);
    if |u| == 0 || !AllDigits(u) then
      ShortPrefixFits(u, FirstNonDigit(u));
      Failure(SyntaxError)
    else
      ShortPrefixFits(u, |u|);
      assert u[..|u|] == u;
      Success(if Negative(s) then -(Value(u) as int) else Value(u))
  }

  /** At most 18 digits stay below 10^18, inside both the int64 and the uint64 range. */
  lemma ShortPrefixFits(u: string, k: nat)
    requires k <= |u| <= 18 && AllDigits(u[..k])
    ensures Value(u[..k]) < 1_000_000_000_000_000_000
  {
    ValueBound(u[..k]);
    Pow10Mono(k, 18);
    Pow10Add(9, 9);
    assert Pow10(9) == 1_000_000_000;
  }

  lemma {:induction false} Pow10Add(a: nat, b: nat)
    ensures Pow10(a + b) == Pow10(a) * Pow10(b)
    decreases a
  {
    if a > 0 {
      Pow10Add(a - 1, b);
    }
  }

  lemma {:induction false} Pow10Mono(i: nat, j: nat)
    requires i <= j
    ensures Pow10(i) <= Pow10(j)
    decreases j
  {
    if i < j {
      Pow10Mono(i, j - 1);
    }
  }

  /**
    `strconv.Atoi` on a platform whose `int` is 64 bits: the fast path for
    texts shorter than 19 characters, ParseInt otherwise. Empty text or a
    bare sign is a syntax error; digits read as their signed value, or a
    range error outside int64; a non-digit is a syntax error unless the
    digits before it already overflowed 64 bits.
   */
  function Atoi(s: string): (r: Result<int, AtoiError>)
    ensures r.Success? ==> MinInt64 <= r.value <= MaxInt64
    ensures |Unsigned(s)| == 0 ==> r == Failure(SyntaxError)
    ensures |Unsigned(s)| > 0 && AllDigits(Unsigned(s)) ==> r == Signed(Negative(s), Value(Unsigned(s)))
    ensures var u := Unsigned(s); var k := FirstNonDigit(u);
      k < |u| ==> r == Failure(if Value(u[..k]) <= MaxUint64 then SyntaxError else RangeError)
  {
    if 0 < |s| < 19 then FastAtoi(s) else ParseInt(s)
  }

  /** Both paths give the same answer wherever the fast one applies. */
  lemma FastPathAgrees(s: string)
    requires 0 < |s| < 19
    ensures FastAtoi(s) == ParseInt(s)
  {
    var u := Unsigned(s);
    if |u| > 0 && !AllDigits(u) {
      assert FirstNonDigit(u) < |u|;
    }
  }

  /**
    Twenty digits worth at least 2 * 10^19 overflow before a trailing
    non-digit is reached ("20000000000000000000x"): a range error, not a
    syntax error.
   */
  lemma OverflowBeforeGarbage(digits: string, c: char)
    requires |digits| == 20 && AllDigits(digits) && DigitValue(digits[0]) >= 2 && !IsDigit(c)
    ensures Atoi(digits + [c]) == Failure(RangeError)
  {
    var u := digits + [c];
    assert u[0] == digits[0];
    assert Unsigned(u) == u;
    assert u[..20] == digits;
    var k := FirstNonDigit(u);
    assert k >= 20 by {
      assert forall i :: 0 <= i < 20 ==> IsDigit(u[i]);
    }
    assert k <= 20 by {
      assert !IsDigit(u[20]);
    }
    LeadingDigit(digits);
    Pow10Add(10, 9);
    assert Pow10(9) == 1_000_000_000 && Pow10(10) == 10_000_000_000;
  }

  /** A digit string is worth at least its leading digit times the place value of that digit. */
  lemma {:induction false} LeadingDigit(t: string)
    requires |t| > 0 && AllDigits(t)
    ensures Value(t) >= DigitValue(t[0]) * Pow10(|t| - 1)
    decreases |t|
  {
    if |t| > 1 {
      var init := t[..|t| - 1];
      assert init[0] == t[0];
      LeadingDigit(init);
      assert Pow10(|t| - 1) == 10 * Pow10(|t| - 2);
    }
  }

  /** `Atoi` reads back every int64 that `Itoa` renders. */
  lemma AtoiOfItoa(n: int)
    requires MinInt64 <= n <= MaxInt64
    ensures Atoi(Itoa(n)) == Success(n)
  {
    var s := Itoa(n);
    if n < 0 {
      var digits := Pad(-n, 1);
      ValueOfPad(-n, 1);
      assert s == "-" + digits && s[1..] == digits && s[0] == '-';
      assert Negative(s) && Unsigned(s) == digits;
      assert Signed(true, Value(digits)) == Success(n);
    } else {
      var digits := Pad(n, 1);
      ValueOfPad(n, 1);
      assert s == digits && |digits| > 0 && AllDigits(digits);
      assert !Negative(s) && Unsigned(s) == digits;
      assert Signed(false, Value(digits)) == Success(n);
    }
  }
}
