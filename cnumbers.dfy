/**
 * Integer conversions of the C library as the relay uses them: printf's
 * "%lld", scanf's "%lld" (which reads like strtoll), and strtoul with base 0.
 */
module CNumbers {
  import opened Wrappers
  import opened CText

  const Int64Min: int := -0x8000_0000_0000_0000
  const Int64Max: int := 0x7FFF_FFFF_FFFF_FFFF
  /** ULONG_MAX on a platform with 64-bit long. */
  const ULongMax: int := 0xFFFF_FFFF_FFFF_FFFF

  predicate IsInt64(n: int) {
    Int64Min <= n <= Int64Max
  }

  // ---------------------------------------------------------------- printing

  function DigitChar(d: nat): (c: char)
    requires d < 10
    ensures IsDigit(c)
  {
    ('0' as int + d) as char
  }

  /** Decimal digits of `n`, most significant first, without leading zeros. */
  function Digits(n: nat): (s: string)
    decreases n
  {
    if n < 10 then [DigitChar(n)] else Digits(n / 10) + [DigitChar(n % 10)]
  }

  /** printf("%lld", n). */
  function FormatLL(n: int): string {
    if n < 0 then "-" + Digits(-n) else Digits(n)
  }

  lemma {:induction false} DigitsAreDigits(n: nat)
    ensures |Digits(n)| >= 1
    ensures forall k | 0 <= k < |Digits(n)| :: IsDigit(Digits(n)[k])
    decreases n
  {
    if n >= 10 {
      DigitsAreDigits(n / 10);
    }
  }

  /** Only zero is printed with a leading '0' (strtoul would read it as octal otherwise). */
  lemma {:induction false} DigitsNoLeadingZero(n: nat)
    requires n >= 1
    ensures |Digits(n)| >= 1 && Digits(n)[0] != '0'
    decreases n
  {
    if n >= 10 {
      DigitsNoLeadingZero(n / 10);
    }
  }

  /** A signed 64-bit value prints in at most 20 characters. */
  lemma {:induction false} FormatLLLength(n: int)
    requires IsInt64(n)
    ensures 1 <= |FormatLL(n)| <= 20
  {
    var m: nat := if n < 0 then -n else n;
    Pow10Nineteen();
    DigitsLength(m, 19);
  }

  lemma Pow10Nineteen()
    ensures Pow10(19) == 10_000_000_000_000_000_000
  {
    assert Pow10(4) == 10_000;
    assert Pow10(8) == 100_000_000;
    assert Pow10(12) == 1_000_000_000_000;
    assert Pow10(16) == 10_000_000_000_000_000;
  }

  lemma {:induction false} DigitsLength(n: nat, k: nat)
    requires n < Pow10(k)
    ensures |Digits(n)| <= if k == 0 then 1 else k
    decreases n
  {
    if n >= 10 {
      DigitsLength(n / 10, k - 1);
    }
  }

  function Pow10(k: nat): (p: nat)
    ensures p >= 1
  {
    if k == 0 then 1 else 10 * Pow10(k - 1)
  }

  // ---------------------------------------------------------------- scanning

  predicate IsDigitIn(c: char, base: nat) {
    match base
    case 8 => '0' <= c <= '7'
    case 10 => IsDigit(c)
    case 16 => IsDigit(c) || 'a' <= c <= 'f' || 'A' <= c <= 'F'
    case _ => false
  }

  function DigitValue(c: char): (v: nat)
    ensures IsDigit(c) ==> v == c as int - '0' as int
  {
    if IsDigit(c) then c as int - '0' as int
    else if 'a' <= c <= 'f' then c as int - 'a' as int + 10
    else if 'A' <= c <= 'F' then c as int - 'A' as int + 10
    else 0
  }

  /** First index at or after `i` that is not white space. */
  function SkipSpaces(s: string, i: nat): (j: nat)
    requires i <= |s|
    ensures i <= j <= |s|
    ensures forall k | i <= k < j :: IsSpace(s[k])
    ensures j < |s| ==> !IsSpace(s[j])
    decreases |s| - i
  {
    if i < |s| && IsSpace(s[i]) then SkipSpaces(s, i + 1) else i
  }

  /** First index at or after `i` that is not a digit of `base`. */
  function RunEnd(s: string, i: nat, base: nat): (j: nat)
    requires i <= |s|
    ensures i <= j <= |s|
    ensures forall k | i <= k < j :: IsDigitIn(s[k], base)
    ensures j < |s| ==> !IsDigitIn(s[j], base)
    decreases |s| - i
  {
    if i < |s| && IsDigitIn(s[i], base) then RunEnd(s, i + 1, base) else i
  }

  /** The value of the digits s[k..e] in `base`. */
  function RunValue(s: string, k: nat, e: nat, base: nat): nat
    requires k <= e <= |s|
    decreases e - k
  {
    if e == k then 0 else RunValue(s, k, e - 1, base) * base + DigitValue(s[e - 1])
  }

  /** glibc's strtoll saturates an out-of-range value. */
  function Clamp64(v: int): (r: int)
    ensures IsInt64(r)
    ensures IsInt64(v) ==> r == v
  {
    if v < Int64Min then Int64Min else if v > Int64Max then Int64Max else v
  }

  /**
   * scanf's "%lld" conversion starting at index i: white space is skipped,
   * then an optional sign and at least one decimal digit. Gives the value
   * and the index after the last digit, or None for a matching failure.
   */
  function ScanLL(s: string, i: nat): (r: Option<(int, nat)>)
    requires i <= |s|
    ensures r.Some? ==> IsInt64(r.value.0) && i < r.value.1 <= |s|
  {
    var j := SkipSpaces(s, i);
    var neg := j < |s| && s[j] == '-';
    var k := if j < |s| && (s[j] == '-' || s[j] == '+') then j + 1 else j;
    var e := RunEnd(s, k, 10);
    if e == k then None
    else
      var v: int := RunValue(s, k, e, 10);
      Some((Clamp64(if neg then -v else v), e))
  }

  lemma {:induction false} RunValueOfDigits(pre: string, n: nat, rest: string)
    ensures var s := pre + Digits(n) + rest;
      |pre| + |Digits(n)| <= |s| &&
      RunValue(s, |pre|, |pre| + |Digits(n)|, 10) == n
    decreases n
  {
    var s := pre + Digits(n) + rest;
    var e := |pre| + |Digits(n)|;
    if n < 10 {
      assert s[e - 1] == DigitChar(n);
    } else {
      var d := DigitChar(n % 10);
      assert s == pre + Digits(n / 10) + ([d] + rest);
      RunValueOfDigits(pre, n / 10, [d] + rest);
      assert s[e - 1] == d;
    }
  }

  lemma {:induction false} RunEndAt(s: string, i: nat, j: nat, base: nat)
    requires i <= j <= |s|
    requires forall k | i <= k < j :: IsDigitIn(s[k], base)
    requires j < |s| ==> !IsDigitIn(s[j], base)
    ensures RunEnd(s, i, base) == j
    decreases j - i
  {
    if i < j {
      RunEndAt(s, i + 1, j, base);
    }
  }

  lemma {:induction false} SkipSpacesAt(s: string, i: nat, j: nat)
    requires i <= j <= |s|
    requires forall k | i <= k < j :: IsSpace(s[k])
    requires j < |s| ==> !IsSpace(s[j])
    ensures SkipSpaces(s, i) == j
    decreases j - i
  {
    if i < j {
      SkipSpacesAt(s, i + 1, j);
    }
  }

  /** The decimal digits of `m` standing at index j, not followed by a digit, read back as `m`. */
  lemma {:induction false} ReadDigitsAt(s: string, j: nat, m: nat)
    requires j + |Digits(m)| <= |s|
    requires s[j..j + |Digits(m)|] == Digits(m)
    requires j + |Digits(m)| < |s| ==> !IsDigit(s[j + |Digits(m)|])
    ensures RunEnd(s, j, 10) == j + |Digits(m)|
    ensures RunValue(s, j, j + |Digits(m)|, 10) == m
  {
    var e := j + |Digits(m)|;
    DigitsAreDigits(m);
    forall k | j <= k < e
      ensures IsDigitIn(s[k], 10)
    {
      assert s[k] == s[j..e][k - j];
    }
    RunEndAt(s, j, e, 10);
    assert s == s[..j] + Digits(m) + s[e..];
    RunValueOfDigits(s[..j], m, s[e..]);
  }

  /**
   * What "%lld" prints, "%lld" reads back: the conversion starting in the
   * white space before a printed 64-bit value ends right after it, with the
   * value printed, provided no digit follows.
   */
  lemma {:induction false} ScanFormatLL(s: string, i: nat, j: nat, n: int)
    requires IsInt64(n)
    requires i <= j && j + |FormatLL(n)| <= |s|
    requires forall k | i <= k < j :: IsSpace(s[k])
    requires s[j..j + |FormatLL(n)|] == FormatLL(n)
    requires j + |FormatLL(n)| < |s| ==> !IsDigit(s[j + |FormatLL(n)|])
    ensures ScanLL(s, i) == Some((n, j + |FormatLL(n)|))
  {
    if n < 0 {
      ScanFormatNegative(s, i, j, n);
    } else {
      ScanFormatNonNegative(s, i, j, n);
    }
  }

  lemma ScanFormatNonNegative(s: string, i: nat, j: nat, n: int)
    requires IsInt64(n) && n >= 0
    requires i <= j && j + |FormatLL(n)| <= |s|
    requires forall k | i <= k < j :: IsSpace(s[k])
    requires s[j..j + |FormatLL(n)|] == FormatLL(n)
    requires j + |FormatLL(n)| < |s| ==> !IsDigit(s[j + |FormatLL(n)|])
    ensures ScanLL(s, i) == Some((n, j + |FormatLL(n)|))
  {
    var m: nat := n;
    var d := Digits(m);
    assert FormatLL(n) == d;
    assert s[j..j + |d|] == d;
    DigitsAreDigits(m);
    assert s[j] == d[0];
    SkipSpacesAt(s, i, j);
    ReadDigitsAt(s, j, m);
    ScanSignedRun(s, i, j, j, j + |Digits(m)|, m);
  }

  lemma ScanFormatNegative(s: string, i: nat, j: nat, n: int)
    requires IsInt64(n) && n < 0
    requires i <= j && j + |FormatLL(n)| <= |s|
    requires forall k | i <= k < j :: IsSpace(s[k])
    requires s[j..j + |FormatLL(n)|] == FormatLL(n)
    requires j + |FormatLL(n)| < |s| ==> !IsDigit(s[j + |FormatLL(n)|])
    ensures ScanLL(s, i) == Some((n, j + |FormatLL(n)|))
  {
    var m: nat := -n;
    var e := j + |FormatLL(n)|;
    assert s[j] == '-' && e == j + 1 + |Digits(m)| && s[j + 1..e] == Digits(m) by {
      NegativeLayout(s, j, m);
    }
    assert SkipSpaces(s, i) == j by {
      SkipSpacesAt(s, i, j);
    }
    ScanNegativeRun(s, i, j, m, e);
  }

  /** The sign at j after the white space, then the digits of m up to index e, where a non-digit follows. */
  lemma ScanNegativeRun(s: string, i: nat, j: nat, m: nat, e: nat)
    requires i <= j && e == j + 1 + |Digits(m)| && e <= |s| && m > 0 && IsInt64(-(m as int))
    requires SkipSpaces(s, i) == j && s[j] == '-'
    requires s[j + 1..e] == Digits(m)
    requires e < |s| ==> !IsDigit(s[e])
    ensures ScanLL(s, i) == Some((-(m as int), e))
  {
    assert RunEnd(s, j + 1, 10) == e && RunValue(s, j + 1, e, 10) == m by {
      ReadDigitsAt(s, j + 1, m);
    }
    ScanSignedRun(s, i, j, j + 1, e, m);
  }

  /** Where the sign and the digits of a printed negative value stand. */
  lemma NegativeLayout(s: string, j: nat, m: nat)
    requires m > 0 && j + |FormatLL(-(m as int))| <= |s|
    requires s[j..j + |FormatLL(-(m as int))|] == FormatLL(-(m as int))
    ensures |FormatLL(-(m as int))| == 1 + |Digits(m)|
    ensures s[j] == '-' && s[j + 1..j + 1 + |Digits(m)|] == Digits(m)
  {
    var d := Digits(m);
    var e := j + 1 + |d|;
    assert FormatLL(-(m as int)) == "-" + d;
    assert s[j] == s[j..e][0];
    assert s[j + 1..e] == s[j..e][1..];
  }

  /** One step of ScanLL: the digits after the optional sign at j run to e and read as m. */
  lemma ScanSignedRun(s: string, i: nat, j: nat, k: nat, e: nat, m: nat)
    requires i <= j && (k == j || k == j + 1) && k < e <= |s|
    requires SkipSpaces(s, i) == j
    requires k == j + 1 <==> s[j] == '-'
    requires k == j ==> s[j] != '+'
    requires RunEnd(s, k, 10) == e && RunValue(s, k, e, 10) == m
    requires IsInt64(if k == j + 1 then -(m as int) else m)
    ensures ScanLL(s, i) == Some((if k == j + 1 then -(m as int) else m, e))
  {
    var v: int := if k == j + 1 then -(m as int) else m;
    assert Clamp64(v) == v;
  }

  // ------------------------------------------------------- strtoul, base 0

  /**
   * strtoul(s, &tail, 0): white space, an optional sign, then a number whose
   * base follows from its prefix ("0x"/"0X" hexadecimal, "0" octal, otherwise
   * decimal). Gives the value and the index `tail` points at. With no digits
   * the value is 0 and `tail` is the start of `s`; a value above ULONG_MAX
   * saturates; a negative value is negated modulo 2^64.
   */
  function StrToUL(s: string): (r: (nat, nat))
    ensures r.0 <= ULongMax && r.1 <= |s|
  {
    var j := SkipSpaces(s, 0);
    var neg := j < |s| && s[j] == '-';
    var k := if j < |s| && (s[j] == '-' || s[j] == '+') then j + 1 else j;
    var hex := k + 2 < |s| && s[k] == '0' && (s[k + 1] == 'x' || s[k + 1] == 'X') && IsDigitIn(s[k + 2], 16);
    var base := if hex then 16 else if k < |s| && s[k] == '0' then 8 else 10;
    var start := if hex then k + 2 else k;
    var e := RunEnd(s, start, base);
    if e == start then (0, 0)
    else
      var v := RunValue(s, start, e, base);
      (if v > ULongMax then ULongMax else if neg then (ULongMax + 1 - v) % (ULongMax + 1) else v, e)
  }

  /** strtoul reads a printed non-negative value back and consumes all of it. */
  lemma StrToULOfDigits(n: nat)
    requires n <= ULongMax
    ensures StrToUL(Digits(n)) == (n, |Digits(n)|)
  {
    var s := Digits(n);
    DigitsAreDigits(n);
    SkipSpacesAt(s, 0, 0);
    if n == 0 {
      assert s == "0";
      RunEndAt(s, 0, 1, 8);
    } else {
      DigitsNoLeadingZero(n);
      assert s[0..|s|] == s;
      ReadDigitsAt(s, 0, n);
    }
  }

  /** strtoul stops reading a printed value at the first character after it that is not a digit. */
  lemma StrToULStopsAfterDigits(n: nat, rest: string)
    requires rest != [] && !IsDigit(rest[0])
    requires n == 0 ==> rest[0] != 'x' && rest[0] != 'X'
    ensures StrToUL(Digits(n) + rest).1 == |Digits(n)|
  {
    var s := Digits(n) + rest;
    DigitsAreDigits(n);
    assert s[0] == Digits(n)[0];
    SkipSpacesAt(s, 0, 0);
    assert s[..|Digits(n)|] == Digits(n);
    assert s[|Digits(n)|] == rest[0];
    if n == 0 {
      RunEndAt(s, 0, 1, 8);
    } else {
      DigitsNoLeadingZero(n);
      ReadDigitsAt(s, 0, n);
    }
  }

  /** The conversion of an unsigned value to `unsigned int` and then to `int` (two's complement). */
  function ToInt32(v: nat): (r: int)
    ensures -0x8000_0000 <= r < 0x8000_0000
  {
    var u := v % 0x1_0000_0000;
    if u < 0x8000_0000 then u else u - 0x1_0000_0000
  }

  /** A value below 2^31 survives the cast to a 32-bit int unchanged. */
  lemma ToInt32Small(v: nat)
    requires v < 0x8000_0000
    ensures ToInt32(v) == v
  {
    assert v % 0x1_0000_0000 == v;
  }

  /** The cast drops a multiple of 2^32. */
  lemma ToInt32Wraps(v: nat)
    requires v < 0x8000_0000
    ensures ToInt32(v + 0x1_0000_0000) == v
  {
    assert (v + 0x1_0000_0000) % 0x1_0000_0000 == v;
  }
}
