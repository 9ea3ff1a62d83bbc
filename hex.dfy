/**
 * Hexadecimal digits as Go's `fmt` (`%0Nx`, `%x` on a byte slice), `encoding/hex`
 * and `strconv.ParseUint(s, 16, bitSize)` use them.
 */
module Hex {
  import opened Wrappers
  import opened Ascii

  type Byte = x: int | 0 <= x < 0x100

  predicate IsDigit(c: char) {
    '0' <= c <= '9' || 'a' <= c <= 'f' || 'A' <= c <= 'F'
  }

  predicate IsLowerDigit(c: char) {
    '0' <= c <= '9' || 'a' <= c <= 'f'
  }

  predicate AllDigits(s: string) {
    forall i :: 0 <= i < |s| ==> IsDigit(s[i])
  }

  predicate AllLowerDigits(s: string) {
    forall i :: 0 <= i < |s| ==> IsLowerDigit(s[i])
  }

  function DigitValue(c: char): (v: nat)
    requires IsDigit(c)
    ensures v < 16
  {
    if '0' <= c <= '9' then c as int - '0' as int
    else if 'a' <= c <= 'f' then c as int - 'a' as int + 10
    else c as int - 'A' as int + 10
  }

  /** The lower-case digit of a value below 16: the digit whose value it is. */
  function DigitChar(v: nat): (c: char)
    requires v < 16
    ensures IsLowerDigit(c) && DigitValue(c) == v
  {
    if v < 10 then ('0' as int + v) as char else ('a' as int + v - 10) as char
  }

  /** Re-rendering a parsed digit gives the digit in lower case. */
  lemma DigitCharOfValue(c: char)
    requires IsDigit(c)
    ensures DigitChar(DigitValue(c)) == LowerChar(c)
  {
  }

  function Pow16(n: nat): (p: nat)
    ensures p > 0
  {
    if n == 0 then 1 else 16 * Pow16(n - 1)
  }

  function Pow2(n: nat): (p: nat)
    ensures p > 0
  {
    if n == 0 then 1 else 2 * Pow2(n - 1)
  }

  /**
   * `%0<width>x` for a value below `16^width`: its `width` hex digits, most significant first,
   * in lower case. For a larger value only the `width` low-order digits are kept, where Go
   * prints them all; no caller passes such a value.
   */
  function Format(x: nat, width: nat): (s: string)
    ensures |s| == width
    ensures AllLowerDigits(s)
  {
    if width == 0 then "" else Format(x / 16, width - 1) + [DigitChar(x % 16)]
  }

  /** The number a string of hex digits denotes, most significant digit first; either case. */
  function Value(s: string): (v: nat)
    requires AllDigits(s)
    ensures v < Pow16(|s|)
  {
    if s == [] then 0 else Value(s[..|s| - 1]) * 16 + DigitValue(s[|s| - 1])
  }

  /** Formatting a number that fits in `width` digits and reading it back gives the number. */
  lemma {:induction false} ValueOfFormat(x: nat, width: nat)
    requires x < Pow16(width)
    ensures AllDigits(Format(x, width)) && Value(Format(x, width)) == x
  {
    if width > 0 {
      ValueOfFormat(x / 16, width - 1);
      var s := Format(x, width);
      assert s[..|s| - 1] == Format(x / 16, width - 1);
    }
  }

  /** Reading a digit string and formatting it at its own width gives the string in lower case. */
  lemma {:induction false} FormatOfValue(s: string)
    requires AllDigits(s)
    ensures Format(Value(s), |s|) == Lower(s)
  {
    if s != [] {
      var p, c := s[..|s| - 1], s[|s| - 1];
      FormatOfValue(p);
      DigitCharOfValue(c);
      var v := Value(p) * 16 + DigitValue(c);
      assert v / 16 == Value(p) && v % 16 == DigitValue(c);
      assert s == p + [c];
      LowerConcat(p, [c]);
    }
  }

  /**
   * `strconv.ParseUint(s, 16, bitSize)`: fails on the empty string, on any character that is
   * not a hex digit, and on a value that does not fit in `bitSize` bits.
   */
  function ParseUint(s: string, bitSize: nat): (r: Option<nat>)
    ensures r.Some? ==> AllDigits(s) && r.value == Value(s) && r.value < Pow2(bitSize)
    ensures r.None? ==> |s| == 0 || !AllDigits(s) || Value(s) >= Pow2(bitSize)
  {
    if |s| == 0 || !AllDigits(s) then None
    else if Value(s) >= Pow2(bitSize) then None
    else Some(Value(s))
  }

  lemma {:induction false} Pow2OfPow16(n: nat)
    ensures Pow2(4 * n) == Pow16(n)
  {
    if n > 0 {
      Pow2OfPow16(n - 1);
      var m := 4 * (n - 1);
      assert Pow2(m + 4) == 2 * Pow2(m + 3) == 4 * Pow2(m + 2) == 8 * Pow2(m + 1) == 16 * Pow2(m);
    }
  }

  /**
   * A group of `n` digits always fits `4 * n` bits, so for such a group `ParseUint` fails
   * exactly when the group is empty or holds a character that is not a hex digit.
   */
  lemma ParseUintFits(s: string, bitSize: nat)
    requires bitSize == 4 * |s|
    ensures ParseUint(s, bitSize).Some? <==> |s| > 0 && AllDigits(s)
  {
    if |s| > 0 && AllDigits(s) {
      Pow2OfPow16(|s|);
    }
  }

  /** Parsing the `%0Nx` rendering of a value that fits in `N` digits, with `4N` bits, gives the value. */
  lemma ParseUintOfFormat(x: nat, n: nat)
    requires 0 < n && x < Pow16(n)
    ensures ParseUint(Format(x, n), 4 * n) == Some(x)
  {
    ValueOfFormat(x, n);
    Pow2OfPow16(n);
  }

  /** `%x` applied to a byte slice: two lower-case digits per byte, in byte order. */
  function FormatBytes(bs: seq<Byte>): (s: string)
    ensures |s| == 2 * |bs|
    ensures AllLowerDigits(s)
  {
    seq(2 * |bs|, i requires 0 <= i < 2 * |bs| => Format(bs[i / 2], 2)[i % 2])
  }

  /** The characters at `2 * k` and `2 * k + 1` render byte `k`. */
  lemma FormatBytesPair(bs: seq<Byte>, k: nat)
    requires k < |bs|
    ensures FormatBytes(bs)[2 * k..2 * k + 2] == Format(bs[k], 2)
  {
    var f := FormatBytes(bs);
    assert f[2 * k] == Format(bs[k], 2)[0];
    assert f[2 * k + 1] == Format(bs[k], 2)[1];
  }
}
