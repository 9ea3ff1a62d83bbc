/**
 * `strconv.ParseInt(s, 0, 32)` read as decimal (base 0 with no base prefix), and its inverse
 * `strconv.Itoa`, on ASCII strings.
 */
module Decimal {
  import opened Wrappers

  const MinInt32: int := -0x8000_0000
  const MaxInt32: int := 0x7fff_ffff

  predicate IsDecDigit(c: char) {
    '0' <= c <= '9'
  }

  predicate AllDecDigits(s: string) {
    forall i :: 0 <= i < |s| ==> IsDecDigit(s[i])
  }

  /** The number a string of decimal digits denotes, most significant digit first. */
  function DecValue(s: string): nat
    requires AllDecDigits(s)
  {
    if s == [] then 0 else DecValue(s[..|s| - 1]) * 10 + (s[|s| - 1] as int - '0' as int)
  }

  /** The digit string after an optional leading `+` or `-`. */
  function Magnitude(s: string): string {
    if |s| > 0 && (s[0] == '+' || s[0] == '-') then s[1..] else s
  }

  predicate IsNegative(s: string) {
    |s| > 0 && s[0] == '-'
  }

  /** The signed number an optional sign and a digit string denote. */
  function SignedValue(s: string): int
    requires AllDecDigits(Magnitude(s))
  {
    var v: int := DecValue(Magnitude(s));
    if IsNegative(s) then -v else v
  }

  /**
   * Accepts an optional sign followed by at least one decimal digit; fails on anything
   * else and on a value outside the signed 32-bit range.
   */
  function ParseInt32(s: string): (r: Option<int>)
    ensures r.Some? ==> MinInt32 <= r.value <= MaxInt32
    ensures r.Some? ==> |Magnitude(s)| > 0 && AllDecDigits(Magnitude(s))
    ensures r.Some? ==> r.value == SignedValue(s)
    ensures r.None? ==> |Magnitude(s)| == 0 || !AllDecDigits(Magnitude(s)) || !(MinInt32 <= SignedValue(s) <= MaxInt32)
  {
    var m := Magnitude(s);
    if |m| == 0 || !AllDecDigits(m) then None
    else
      var v := SignedValue(s);
      if MinInt32 <= v <= MaxInt32 then Some(v) else None
  }

  function DecDigit(d: nat): (c: char)
    requires d < 10
    ensures IsDecDigit(c) && c as int - '0' as int == d
  {
    ('0' as int + d) as char
  }

  /** `strconv.Itoa` on a natural number: its shortest decimal rendering. */
  function FormatNat(n: nat): (s: string)
    ensures |s| > 0 && AllDecDigits(s)
  {
    if n < 10 then [DecDigit(n)] else FormatNat(n / 10) + [DecDigit(n % 10)]
  }

  /** `strconv.Itoa`: a `-` before the rendering of the magnitude of a negative number. */
  function FormatInt(n: int): string {
    if n < 0 then "-" + FormatNat(-n) else FormatNat(n)
  }

  lemma {:induction false} DecValueOfFormatNat(n: nat)
    ensures DecValue(FormatNat(n)) == n
  {
    if n >= 10 {
      DecValueOfFormatNat(n / 10);
      var s := FormatNat(n);
      assert s[..|s| - 1] == FormatNat(n / 10);
    }
  }

  /** Every 32-bit integer survives rendering and parsing back. */
  lemma ParseFormatInt32(n: int)
    requires MinInt32 <= n <= MaxInt32
    ensures ParseInt32(FormatInt(n)) == Some(n)
  {
    DecValueOfFormatNat(if n < 0 then -n else n);
    if n < 0 {
      assert Magnitude(FormatInt(n)) == FormatNat(-n);
    } else {
      assert FormatNat(n)[0] != '+' && FormatNat(n)[0] != '-' by {
        assert IsDecDigit(FormatNat(n)[0]);
      }
    }
  }

  /** Every integer outside the signed 32-bit range is rejected with a range error. */
  lemma ParseRejectsOverflow(n: int)
    requires n > MaxInt32 || n < MinInt32
    ensures ParseInt32(FormatInt(n)).None?
  {
    var m: nat := if n < 0 then -n else n;
    DecValueOfFormatNat(m);
    assert IsDecDigit(FormatNat(m)[0]);
    if n < 0 {
      assert Magnitude(FormatInt(n)) == FormatNat(m);
    }
  }
}
