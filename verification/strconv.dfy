/**
 * Base-10 integer conversion as performed by Go's `strconv.Atoi` on a 64-bit
 * platform: an optional `+` or `-` sign followed by one or more ASCII digits,
 * whose value must lie in the int64 range. `FormatInt` is the canonical
 * decimal rendering (`strconv.Itoa`), the inverse that `Atoi` is proved against.
 */
module Strconv {
  import opened Wrappers

  const MinInt64: int := -0x8000_0000_0000_0000
  const MaxInt64: int := 0x7FFF_FFFF_FFFF_FFFF

  predicate IsDigit(c: char) {
    '0' <= c <= '9'
  }

  predicate AllDigits(s: string) {
    forall i :: 0 <= i < |s| ==> IsDigit(s[i])
  }

  function DigitValue(c: char): (d: nat)
    requires IsDigit(c)
    ensures d < 10
  {
    (c as int) - ('0' as int)
  }

  function DigitChar(d: nat): (c: char)
    requires d < 10
    ensures IsDigit(c) && DigitValue(c) == d
  {
    (('0' as int) + d) as char
  }

  /** The value of a digit string, accumulated left to right (`n = n*10 + digit`). */
  function DigitsValue(s: string): nat
    requires AllDigits(s)
    decreases |s|
  {
    if |s| == 0 then 0
    else 10 * DigitsValue(s[..|s| - 1]) + DigitValue(s[|s| - 1])
  }

  /**
   * The digit loop of `strconv.Atoi`: from position `i` on, every character
   * must be a digit, and each one is folded in as `n = n*10 + digit`.
   */
  function Accumulate(s: string, i: nat, n: nat): Option<nat>
    requires i <= |s|
    decreases |s| - i
  {
    if i == |s| then Some(n)
    else if !IsDigit(s[i]) then None
    else Accumulate(s, i + 1, 10 * n + DigitValue(s[i]))
  }

  /** `strconv.Atoi`: `None` is the syntax or range error the caller panics on. */
  function Atoi(s: string): (r: Option<int>)
    ensures r.Some? ==> MinInt64 <= r.value <= MaxInt64
    ensures r.Some? ==> |s| > 0 && (r.value < 0 ==> s[0] == '-') && (s[0] == '-' ==> r.value <= 0)
  {
    if |s| == 0 then None
    else
      var start := if s[0] == '-' || s[0] == '+' then 1 else 0;
      if start == |s| then None
      else
        match Accumulate(s, start, 0)
        case None => None
        case Some(magnitude) =>
          var n: int := if s[0] == '-' then -(magnitude as int) else magnitude;
          if n < MinInt64 || MaxInt64 < n then None else Some(n)
  }

  /** The text after an optional leading sign. */
  function Unsigned(s: string): string {
    if |s| > 0 && (s[0] == '-' || s[0] == '+') then s[1..] else s
  }

  /** The decimal syntax `Atoi` accepts: an optional sign, then one or more digits. */
  predicate DecimalSyntax(s: string) {
    |Unsigned(s)| > 0 && AllDigits(Unsigned(s))
  }

  /** The value a text in decimal syntax denotes. */
  function DecimalValue(s: string): int
    requires DecimalSyntax(s)
  {
    if s[0] == '-' then -(DigitsValue(Unsigned(s)) as int) else DigitsValue(Unsigned(s))
  }

  /** The digit loop computes the left-to-right value of the digits it scans. */
  lemma {:induction false} AccumulateDigits(s: string, i: nat)
    requires i <= |s| && AllDigits(s)
    ensures Accumulate(s, i, DigitsValue(s[..i])) == Some(DigitsValue(s))
    decreases |s| - i
  {
    if i < |s| {
      assert s[..i + 1][..i] == s[..i];
      AccumulateDigits(s, i + 1);
    } else {
      assert s[..i] == s;
    }
  }

  /** The digit loop fails as soon as a non-digit lies ahead. */
  lemma {:induction false} AccumulateRejects(s: string, i: nat, n: nat, j: nat)
    requires i <= j < |s| && !IsDigit(s[j])
    ensures Accumulate(s, i, n).None?
    decreases |s| - i
  {
    if i < j && IsDigit(s[i]) {
      AccumulateRejects(s, i + 1, 10 * n + DigitValue(s[i]), j);
    }
  }

  /**
   * `Atoi` against the grammar: it succeeds exactly on decimal syntax whose
   * value fits in an int64, and then returns that value.
   */
  lemma AtoiSpec(s: string)
    ensures Atoi(s).Some? <==> DecimalSyntax(s) && MinInt64 <= DecimalValue(s) <= MaxInt64
    ensures Atoi(s).Some? ==> Atoi(s).value == DecimalValue(s)
  {
    if |s| > 0 {
      var start := if s[0] == '-' || s[0] == '+' then 1 else 0;
      var d := Unsigned(s);
      assert d == s[start..];
      if AllDigits(d) {
        AccumulateDigits(d, 0);
        assert d[..0] == "";
        AccumulateShift(s, start);
      } else {
        var k :| 0 <= k < |d| && !IsDigit(d[k]);
        AccumulateRejects(s, start, 0, start + k);
      }
    }
  }

  /** Scanning a suffix on its own is the same as scanning it in place. */
  lemma {:induction false} AccumulateShift(s: string, start: nat)
    requires start <= |s|
    ensures Accumulate(s, start, 0) == Accumulate(s[start..], 0, 0)
  {
    AccumulateShiftFrom(s, start, 0, 0);
  }

  lemma {:induction false} AccumulateShiftFrom(s: string, start: nat, i: nat, n: nat)
    requires start + i <= |s|
    ensures Accumulate(s, start + i, n) == Accumulate(s[start..], i, n)
    decreases |s| - start - i
  {
    if start + i < |s| {
      assert s[start..][i] == s[start + i];
      if IsDigit(s[start + i]) {
        AccumulateShiftFrom(s, start, i + 1, 10 * n + DigitValue(s[start + i]));
      }
    }
  }

  /** The shortest digit string of a natural number. */
  function NatDigits(n: nat): (s: string)
    ensures |s| > 0 && AllDigits(s)
    ensures s[0] == '0' ==> n == 0 && |s| == 1
    decreases n
  {
    if n < 10 then [DigitChar(n)]
    else NatDigits(n / 10) + [DigitChar(n % 10)]
  }

  /** Canonical decimal rendering of an integer (`strconv.Itoa`). */
  function FormatInt(n: int): string {
    if n < 0 then "-" + NatDigits(-n) else NatDigits(n)
  }

  /** A digit string without superfluous leading zeros. */
  predicate CanonicalDigits(d: string) {
    |d| > 0 && AllDigits(d) && (d[0] == '0' ==> |d| == 1)
  }

  /** The texts `FormatInt` produces: no `+`, no leading zeros, no `-0`. */
  predicate Canonical(s: string) {
    CanonicalDigits(s) || (|s| > 1 && s[0] == '-' && CanonicalDigits(s[1..]) && s[1..] != "0")
  }

  lemma {:induction false} DigitsValueOfNatDigits(n: nat)
    ensures DigitsValue(NatDigits(n)) == n
    decreases n
  {
    if n >= 10 {
      var s := NatDigits(n);
      assert s[..|s| - 1] == NatDigits(n / 10);
      DigitsValueOfNatDigits(n / 10);
    }
  }

  /** A canonical digit string with a non-zero first digit has a positive value. */
  lemma {:induction false} DigitsValueLeading(d: string)
    requires |d| > 0 && AllDigits(d)
    ensures DigitsValue(d) >= DigitValue(d[0])
    decreases |d|
  {
    if |d| > 1 {
      var p := d[..|d| - 1];
      assert p[0] == d[0];
      DigitsValueLeading(p);
    }
  }

  lemma {:induction false} NatDigitsOfDigitsValue(d: string)
    requires CanonicalDigits(d)
    ensures NatDigits(DigitsValue(d)) == d
    decreases |d|
  {
    if |d| > 1 {
      var p := d[..|d| - 1];
      assert p[0] == d[0];
      DigitsValueLeading(p);
      NatDigitsOfDigitsValue(p);
      var n := DigitsValue(d);
      assert n / 10 == DigitsValue(p) && n % 10 == DigitValue(d[|d| - 1]);
      assert d == p + [d[|d| - 1]];
    }
  }

  /** `Atoi` reads back every int64 rendered by `FormatInt`, and the rendering is canonical. */
  lemma AtoiFormatInt(n: int)
    requires MinInt64 <= n <= MaxInt64
    ensures Canonical(FormatInt(n))
    ensures Atoi(FormatInt(n)) == Some(n)
  {
    var s := FormatInt(n);
    AtoiSpec(s);
    if n < 0 {
      var d := NatDigits(-n);
      assert s == "-" + d && s[1..] == d;
      DigitsValueOfNatDigits(-n);
      assert d != "0";
      assert Unsigned(s) == d;
    } else {
      var d := NatDigits(n);
      DigitsValueOfNatDigits(n);
      assert s == d && IsDigit(s[0]);
      assert Unsigned(s) == d;
    }
  }

  /** Conversely, a canonical text that `Atoi` accepts is exactly `FormatInt` of its value. */
  lemma FormatIntAtoi(s: string)
    requires Canonical(s) && Atoi(s).Some?
    ensures FormatInt(Atoi(s).value) == s
  {
    AtoiSpec(s);
    if s[0] == '-' {
      var d := s[1..];
      NatDigitsOfDigitsValue(d);
      DigitsValueLeading(d);
      assert s == "-" + d;
    } else {
      NatDigitsOfDigitsValue(s);
    }
  }

  /** A leading `+` is accepted and changes nothing. */
  lemma AtoiPlusSign(d: string)
    requires |d| > 0 && AllDigits(d)
    ensures Atoi("+" + d) == Atoi(d)
  {
    AtoiSpec("+" + d);
    AtoiSpec(d);
    assert Unsigned("+" + d) == d;
  }
}
