/**
 * The 128-bit GUID of the directory backend: its two 16-byte layouts (big-endian and the
 * Windows little-endian order), its canonical `8-4-4-4-12` text, and the parser of that text.
 */
module Guid {
  import opened Wrappers
  import opened Ascii
  import opened Hex

  type Uint16 = x: int | 0 <= x < 0x1_0000
  type Uint32 = x: int | 0 <= x < 0x1_0000_0000
  type Bytes8 = s: seq<Byte> | |s| == 8 witness [0, 0, 0, 0, 0, 0, 0, 0]
  type Bytes16 = s: seq<Byte> | |s| == 16 witness [0, 0, 0, 0, 0, 0, 0, 0, 0, 0, 0, 0, 0, 0, 0, 0]

  datatype GUID = GUID(data1: Uint32, data2: Uint16, data3: Uint16, data4: Bytes8)

  /** `GUID{}`, the value every failed parse returns. */
  const Zero: GUID := GUID(0, 0, 0, [0, 0, 0, 0, 0, 0, 0, 0])

  /** `binary.BigEndian` and `binary.LittleEndian`. */
  datatype ByteOrder = BigEndian | LittleEndian

  // ---------------------------------------------------------------- byte orders

  /** The two bytes `PutUint16` writes for `x`. */
  function Uint16Bytes(x: Uint16, order: ByteOrder): seq<Byte> {
    match order
    case BigEndian => [x / 0x100, x % 0x100]
    case LittleEndian => [x % 0x100, x / 0x100]
  }

  /** The four bytes `PutUint32` writes for `x`. */
  function Uint32Bytes(x: Uint32, order: ByteOrder): seq<Byte> {
    var hi, lo := x / 0x1_0000, x % 0x1_0000;
    match order
    case BigEndian => Uint16Bytes(hi, BigEndian) + Uint16Bytes(lo, BigEndian)
    case LittleEndian => Uint16Bytes(lo, LittleEndian) + Uint16Bytes(hi, LittleEndian)
  }

  /** `order.Uint16(b)`. */
  function ReadUint16(b: seq<Byte>, order: ByteOrder): Uint16
    requires |b| == 2
  {
    match order
    case BigEndian => b[0] as int * 0x100 + b[1]
    case LittleEndian => b[1] as int * 0x100 + b[0]
  }

  /** `order.Uint32(b)`. */
  function ReadUint32(b: seq<Byte>, order: ByteOrder): Uint32
    requires |b| == 4
  {
    match order
    case BigEndian => ReadUint16(b[0..2], BigEndian) as int * 0x1_0000 + ReadUint16(b[2..4], BigEndian)
    case LittleEndian => ReadUint16(b[2..4], LittleEndian) as int * 0x1_0000 + ReadUint16(b[0..2], LittleEndian)
  }

  lemma Uint16RoundTrip(x: Uint16, b: seq<Byte>, order: ByteOrder)
    requires |b| == 2
    ensures ReadUint16(Uint16Bytes(x, order), order) == x
    ensures Uint16Bytes(ReadUint16(b, order), order) == b
  {
  }

  lemma Uint32RoundTrip(x: Uint32, b: seq<Byte>, order: ByteOrder)
    requires |b| == 4
    ensures ReadUint32(Uint32Bytes(x, order), order) == x
    ensures Uint32Bytes(ReadUint32(b, order), order) == b
  {
    var hi, lo := x / 0x1_0000, x % 0x1_0000;
    assert x == hi * 0x1_0000 + lo;
    Uint16RoundTrip(hi, b[0..2], order);
    Uint16RoundTrip(lo, b[2..4], order);
    var e := Uint32Bytes(x, order);
    var y := ReadUint32(b, order);
    assert b == b[0..2] + b[2..4];
    match order
    case BigEndian =>
      assert e[0..2] == Uint16Bytes(hi, order) && e[2..4] == Uint16Bytes(lo, order);
      var h, l := ReadUint16(b[0..2], order), ReadUint16(b[2..4], order);
      assert y == h as int * 0x1_0000 + l;
      assert y / 0x1_0000 == h && y % 0x1_0000 == l;
    case LittleEndian =>
      assert e[0..2] == Uint16Bytes(lo, order) && e[2..4] == Uint16Bytes(hi, order);
      var h, l := ReadUint16(b[2..4], order), ReadUint16(b[0..2], order);
      assert y == h as int * 0x1_0000 + l;
      assert y / 0x1_0000 == h && y % 0x1_0000 == l;
  }

  // ---------------------------------------------------------------- arrays

  /** `fromArray(b, order)`: the GUID whose fields are read from `b` in `order`. Writing it back gives `b`. */
  function Decode(b: Bytes16, order: ByteOrder): (g: GUID)
    ensures Encode(g, order) == b
  {
    Uint32RoundTrip(0, b[0..4], order);
    Uint16RoundTrip(0, b[4..6], order);
    Uint16RoundTrip(0, b[6..8], order);
    assert b == b[0..4] + b[4..6] + b[6..8] + b[8..16];
    GUID(ReadUint32(b[0..4], order), ReadUint16(b[4..6], order), ReadUint16(b[6..8], order), b[8..16])
  }

  /** The 16 bytes `toArray(g, order)` produces: reading each field back in `order` gives it. */
  function Encode(g: GUID, order: ByteOrder): (b: Bytes16)
    ensures ReadUint32(b[0..4], order) == g.data1
    ensures ReadUint16(b[4..6], order) == g.data2 && ReadUint16(b[6..8], order) == g.data3
    ensures b[8..16] == g.data4
  {
    var e := Uint32Bytes(g.data1, order) + Uint16Bytes(g.data2, order) + Uint16Bytes(g.data3, order) + g.data4;
    assert e[0..4] == Uint32Bytes(g.data1, order);
    assert e[4..6] == Uint16Bytes(g.data2, order);
    assert e[6..8] == Uint16Bytes(g.data3, order);
    Uint32RoundTrip(g.data1, e[0..4], order);
    Uint16RoundTrip(g.data2, e[4..6], order);
    Uint16RoundTrip(g.data3, e[6..8], order);
    e
  }

  /** `FromArray`: the fields are the bytes taken most significant first. */
  function FromArray(b: Bytes16): (g: GUID)
    ensures g.data1 == b[0] as int * 0x100_0000 + b[1] as int * 0x1_0000 + b[2] as int * 0x100 + b[3]
    ensures g.data2 == b[4] as int * 0x100 + b[5] && g.data3 == b[6] as int * 0x100 + b[7]
    ensures g.data4 == b[8..16]
  {
    Decode(b, BigEndian)
  }

  /** `ToArray`: the bytes `FromArray` reads back as `g`. */
  function ToArray(g: GUID): (b: Bytes16)
    ensures FromArray(b) == g
  {
    Encode(g, BigEndian)
  }

  /** `FromWindowsArray`: the first three fields are read least significant byte first. */
  function FromWindowsArray(b: Bytes16): (g: GUID)
    ensures g.data1 == b[3] as int * 0x100_0000 + b[2] as int * 0x1_0000 + b[1] as int * 0x100 + b[0]
    ensures g.data2 == b[5] as int * 0x100 + b[4] && g.data3 == b[7] as int * 0x100 + b[6]
    ensures g.data4 == b[8..16]
  {
    Decode(b, LittleEndian)
  }

  /** `ToWindowsArray`: the bytes `FromWindowsArray` reads back as `g`. */
  function ToWindowsArray(g: GUID): (b: Bytes16)
    ensures FromWindowsArray(b) == g
  {
    Encode(g, LittleEndian)
  }

  /** Encoding and then decoding in the same byte order gives back the GUID. */
  lemma DecodeEncode(g: GUID, order: ByteOrder)
    ensures Decode(Encode(g, order), order) == g
  {
  }

  /** Decoding and then encoding in the same byte order gives back the 16 bytes. */
  lemma EncodeDecode(b: Bytes16, order: ByteOrder)
    ensures Encode(Decode(b, order), order) == b
  {
  }

  /** Bytes 8 to 15 are `Data4` verbatim, whatever the byte order. */
  lemma Data4Verbatim(g: GUID, b: Bytes16, order: ByteOrder)
    ensures Encode(g, order)[8..16] == g.data4
    ensures Decode(b, order).data4 == b[8..16]
  {
  }

  /**
   * The Windows layout is the big-endian one with bytes 0-3 reversed, bytes 4-5 swapped,
   * bytes 6-7 swapped and bytes 8-15 unchanged.
   */
  lemma WindowsArraySwapsGroups(g: GUID)
    ensures var b := ToArray(g);
      ToWindowsArray(g) == [b[3], b[2], b[1], b[0], b[5], b[4], b[7], b[6]] + b[8..16]
  {
  }

  /** `order.PutUint16(b[off:off+2], x)`. */
  method PutUint16(b: array<Byte>, off: nat, x: Uint16, order: ByteOrder)
    requires off + 2 <= b.Length
    modifies b
    ensures b[..] == old(b[..off]) + Uint16Bytes(x, order) + old(b[off + 2..])
  {
    var bytes := Uint16Bytes(x, order);
    b[off] := bytes[0];
    b[off + 1] := bytes[1];
    assert b[..] == old(b[..off]) + bytes + old(b[off + 2..]);
  }

  /** `order.PutUint32(b[off:off+4], x)`. */
  method PutUint32(b: array<Byte>, off: nat, x: Uint32, order: ByteOrder)
    requires off + 4 <= b.Length
    modifies b
    ensures b[..] == old(b[..off]) + Uint32Bytes(x, order) + old(b[off + 4..])
  {
    var bytes := Uint32Bytes(x, order);
    b[off] := bytes[0];
    b[off + 1] := bytes[1];
    b[off + 2] := bytes[2];
    b[off + 3] := bytes[3];
    assert b[..] == old(b[..off]) + bytes + old(b[off + 4..]);
  }

  /** `g.toArray(order)`: a fresh 16-byte array filled field by field, then `Data4` copied in. */
  method EncodeToArray(g: GUID, order: ByteOrder) returns (b: array<Byte>)
    ensures fresh(b)
    ensures b[..] == Encode(g, order)
  {
    b := new Byte[16](_ => 0);
    PutUint32(b, 0, g.data1, order);
    PutUint16(b, 4, g.data2, order);
    PutUint16(b, 6, g.data3, order);
    ghost var head := b[..8];
    assert head == Uint32Bytes(g.data1, order) + Uint16Bytes(g.data2, order) + Uint16Bytes(g.data3, order);
    forall i | 0 <= i < 8 {
      b[8 + i] := g.data4[i];
    }
    assert b[..] == head + g.data4;
  }

  // ---------------------------------------------------------------- text

  /** The four fixed hyphen positions of the canonical text. */
  predicate IsHyphenIndex(i: int) {
    i == 8 || i == 13 || i == 18 || i == 23
  }

  /** The offsets of the eight two-digit groups that hold `Data4`. */
  const Data4Offsets: seq<nat> := [19, 21, 24, 26, 28, 30, 32, 34]

  /** The offsets step by two, with the fourth hyphen between the second and the third. */
  lemma Data4OffsetAt(k: nat)
    requires k < 8
    ensures Data4Offsets[k] == if k < 2 then 19 + 2 * k else 20 + 2 * k
  {
    if k == 0 {} else if k == 1 {} else if k == 2 {} else if k == 3 {}
    else if k == 4 {} else if k == 5 {} else if k == 6 {} else {}
  }

  /** Every `Data4` group lies after the third hyphen and clear of the hyphen positions. */
  lemma Data4OffsetsInRange()
    ensures forall k :: 0 <= k < 8 ==> 19 <= Data4Offsets[k] && Data4Offsets[k] + 2 <= 36
    ensures forall k :: 0 <= k < 8 ==> !IsHyphenIndex(Data4Offsets[k]) && !IsHyphenIndex(Data4Offsets[k] + 1)
  {
    forall k | 0 <= k < 8
      ensures 19 <= Data4Offsets[k] && Data4Offsets[k] + 2 <= 36
      ensures !IsHyphenIndex(Data4Offsets[k]) && !IsHyphenIndex(Data4Offsets[k] + 1)
    {
      Data4OffsetAt(k);
    }
  }

  predicate HasGuidHyphens(s: string)
    requires |s| == 36
  {
    s[8] == '-' && s[13] == '-' && s[18] == '-' && s[23] == '-'
  }

  predicate HasGuidDigits(s: string)
    requires |s| == 36
  {
    forall i :: 0 <= i < 36 && !IsHyphenIndex(i) ==> IsDigit(s[i])
  }

  /**
   * The strings `FromString` accepts: length 36, `'-'` at the four hyphen positions and a hex
   * digit of either case everywhere else.
   */
  predicate IsGuidString(s: string) {
    |s| == 36 && HasGuidHyphens(s) && HasGuidDigits(s)
  }

  /** The digit positions, grouped the way `FromString` parses them. */
  predicate DigitGroupsOk(s: string)
    requires |s| == 36
  {
    && AllDigits(s[0..8]) && AllDigits(s[9..13]) && AllDigits(s[14..18])
    && forall k :: 0 <= k < 8 ==> AllDigits(s[Data4Offsets[k]..Data4Offsets[k] + 2])
  }

  lemma DigitGroups(s: string)
    requires |s| == 36
    ensures HasGuidDigits(s) <==> DigitGroupsOk(s)
  {
    if DigitGroupsOk(s) {
      forall i | 0 <= i < 36 && !IsHyphenIndex(i) ensures IsDigit(s[i]) {
        if i < 8 {
          assert s[0..8][i] == s[i];
        } else if i < 13 {
          assert s[9..13][i - 9] == s[i];
        } else if i < 18 {
          assert s[14..18][i - 14] == s[i];
        } else if i < 23 {
          var k := (i - 19) / 2;
          Data4OffsetAt(k);
          assert s[Data4Offsets[k]..Data4Offsets[k] + 2][i - 19 - 2 * k] == s[i];
        } else {
          var k := (i - 24) / 2 + 2;
          Data4OffsetAt(k);
          assert s[Data4Offsets[k]..Data4Offsets[k] + 2][i - 24 - 2 * (k - 2)] == s[i];
        }
      }
    }
    if HasGuidDigits(s) {
      forall k | 0 <= k < 8 ensures AllDigits(s[Data4Offsets[k]..Data4Offsets[k] + 2]) {
        var o := Data4Offsets[k];
        assert !IsHyphenIndex(o) && !IsHyphenIndex(o + 1);
      }
    }
  }

  lemma PowersOfTwo()
    ensures Pow16(2) == Pow2(8) == 0x100
    ensures Pow16(4) == Pow2(16) == 0x1_0000
    ensures Pow16(8) == Pow2(32) == 0x1_0000_0000
  {
    Pow2OfPow16(2);
    Pow2OfPow16(4);
    Pow2OfPow16(8);
  }

  /** The GUID the digits of a valid string denote, read as `FromString` reads them. */
  function FieldsOf(s: string): GUID
    requires IsGuidString(s)
  {
    DigitGroups(s);
    PowersOfTwo();
    GUID(Value(s[0..8]), Value(s[9..13]), Value(s[14..18]),
         seq(8, k requires 0 <= k < 8 => Value(s[Data4Offsets[k]..Data4Offsets[k] + 2])))
  }

  /**
   * `g.String()`, that is `%08x-%04x-%04x-%04x-%012x` of `Data1`, `Data2`, `Data3`, `Data4[:2]`
   * and `Data4[2:]`: 36 characters, `'-'` at the hyphen positions, lower-case hex digits elsewhere.
   */
  function ToString(g: GUID): (s: string)
    ensures |s| == 36
    ensures forall i :: 0 <= i < 36 ==> if IsHyphenIndex(i) then s[i] == '-' else IsLowerDigit(s[i])
  {
    PowersOfTwo();
    var a, b, c := Format(g.data1, 8), Format(g.data2, 4), Format(g.data3, 4);
    var d, e := FormatBytes(g.data4[..2]), FormatBytes(g.data4[2..]);
    GroupsJoin(a, b, c, d, e);
    a + "-" + b + "-" + c + "-" + d + "-" + e
  }

  /** Five digit groups of widths 8, 4, 4, 4 and 12 joined by hyphens have the canonical shape. */
  lemma GroupsJoin(a: string, b: string, c: string, d: string, e: string)
    requires |a| == 8 && |b| == 4 && |c| == 4 && |d| == 4 && |e| == 12
    requires AllLowerDigits(a) && AllLowerDigits(b) && AllLowerDigits(c)
    requires AllLowerDigits(d) && AllLowerDigits(e)
    ensures var s := a + "-" + b + "-" + c + "-" + d + "-" + e;
      |s| == 36 && forall i :: 0 <= i < 36 ==> if IsHyphenIndex(i) then s[i] == '-' else IsLowerDigit(s[i])
  {
    var s := a + "-" + b + "-" + c + "-" + d + "-" + e;
    forall i | 0 <= i < 36 ensures if IsHyphenIndex(i) then s[i] == '-' else IsLowerDigit(s[i]) {
      if i < 8 {
        assert s[i] == a[i];
      } else if 8 < i < 13 {
        assert s[i] == b[i - 9];
      } else if 13 < i < 18 {
        assert s[i] == c[i - 14];
      } else if 18 < i < 23 {
        assert s[i] == d[i - 19];
      } else if 23 < i {
        assert s[i] == e[i - 24];
      }
    }
  }

  lemma ToStringGroups(g: GUID)
    ensures var s := ToString(g);
      && s[0..8] == Format(g.data1, 8) && s[9..13] == Format(g.data2, 4) && s[14..18] == Format(g.data3, 4)
      && s[19..23] == FormatBytes(g.data4[..2]) && s[24..36] == FormatBytes(g.data4[2..])
  {
  }

  /** Every GUID's text is accepted by the parser, which returns that same GUID. */
  lemma {:induction false} FieldsOfToString(g: GUID)
    ensures IsGuidString(ToString(g))
    ensures FieldsOf(ToString(g)) == g
  {
    var s := ToString(g);
    assert HasGuidDigits(s);
    ToStringGroups(g);
    PowersOfTwo();
    ValueOfFormat(g.data1, 8);
    ValueOfFormat(g.data2, 4);
    ValueOfFormat(g.data3, 4);
    forall k | 0 <= k < 8 ensures FieldsOf(s).data4[k] == g.data4[k] {
      Data4GroupOfToString(g, k);
      ValueOfFormat(g.data4[k], 2);
    }
  }

  /** A slice of a slice is a slice of the whole. */
  lemma SubSlice(s: string, lo: nat, hi: nat, a: nat, b: nat)
    requires lo <= hi <= |s| && a <= b <= hi - lo
    ensures s[lo..hi][a..b] == s[lo + a..lo + b]
  {
    assert forall i :: 0 <= i < b - a ==> s[lo..hi][a..b][i] == s[lo + a + i];
  }

  /** The two digits at a `Data4` offset of the text render that byte of `Data4`. */
  lemma Data4GroupOfToString(g: GUID, k: nat)
    requires k < 8
    ensures ToString(g)[Data4Offsets[k]..Data4Offsets[k] + 2] == Format(g.data4[k], 2)
  {
    var s := ToString(g);
    Data4OffsetAt(k);
    ToStringGroups(g);
    if k < 2 {
      FormatBytesPair(g.data4[..2], k);
      SubSlice(s, 19, 23, 2 * k, 2 * k + 2);
    } else {
      var j := k - 2;
      FormatBytesPair(g.data4[2..], j);
      assert g.data4[2..][j] == g.data4[k];
      SubSlice(s, 24, 36, 2 * j, 2 * j + 2);
    }
  }

  /** Two 36-character strings that agree on every group and every hyphen are equal. */
  lemma EqualByGroups(r: string, l: string)
    requires |r| == |l| == 36
    requires r[8] == l[8] && r[13] == l[13] && r[18] == l[18] && r[23] == l[23]
    requires r[0..8] == l[0..8] && r[9..13] == l[9..13] && r[14..18] == l[14..18]
    requires r[19..23] == l[19..23] && r[24..36] == l[24..36]
    ensures r == l
  {
    forall i | 0 <= i < 36 ensures r[i] == l[i] {
      if i < 8 {
        assert r[i] == r[0..8][i] && l[i] == l[0..8][i];
      } else if 8 < i < 13 {
        assert r[i] == r[9..13][i - 9] && l[i] == l[9..13][i - 9];
      } else if 13 < i < 18 {
        assert r[i] == r[14..18][i - 14] && l[i] == l[14..18][i - 14];
      } else if 18 < i < 23 {
        assert r[i] == r[19..23][i - 19] && l[i] == l[19..23][i - 19];
      } else if 23 < i {
        assert r[i] == r[24..36][i - 24] && l[i] == l[24..36][i - 24];
      }
    }
  }

  /** A string made of the two-digit renderings of `bs`, in order, is `FormatBytes(bs)`. */
  lemma FormatBytesByPairs(bs: seq<Byte>, t: string)
    requires |t| == 2 * |bs|
    requires forall k :: 0 <= k < |bs| ==> t[2 * k..2 * k + 2] == Format(bs[k], 2)
    ensures FormatBytes(bs) == t
  {
    var f := FormatBytes(bs);
    forall i | 0 <= i < |t| ensures f[i] == t[i] {
      var k, j := i / 2, i % 2;
      assert i == 2 * k + j && 0 <= k < |bs|;
      assert t[i] == t[2 * k..2 * k + 2][j];
    }
  }

  /** Re-rendering the digits of one group gives the group in lower case. */
  lemma GroupLower(s: string, lo: nat, hi: nat)
    requires lo <= hi <= |s| && AllDigits(s[lo..hi])
    ensures Format(Value(s[lo..hi]), hi - lo) == Lower(s)[lo..hi]
  {
    FormatOfValue(s[lo..hi]);
    LowerSlice(s, lo, hi);
  }

  /** The byte `FieldsOf` reads at a `Data4` offset re-renders as those two digits in lower case. */
  lemma Data4GroupOfFields(s: string, k: nat)
    requires IsGuidString(s) && k < 8
    ensures Format(FieldsOf(s).data4[k], 2) == Lower(s)[Data4Offsets[k]..Data4Offsets[k] + 2]
  {
    DigitGroups(s);
    GroupLower(s, Data4Offsets[k], Data4Offsets[k] + 2);
  }

  lemma FieldGroupsOfFields(s: string)
    requires IsGuidString(s)
    ensures var r, l := ToString(FieldsOf(s)), Lower(s);
      r[0..8] == l[0..8] && r[9..13] == l[9..13] && r[14..18] == l[14..18]
  {
    DigitGroups(s);
    ToStringGroups(FieldsOf(s));
    GroupLower(s, 0, 8);
    GroupLower(s, 9, 13);
    GroupLower(s, 14, 18);
  }

  /** Byte `k` of `Data4` re-renders as the two digits at its offset within group `lo..hi`. */
  lemma Data4PairOfFields(s: string, k: nat, lo: nat, hi: nat)
    requires IsGuidString(s) && k < 8
    requires lo <= Data4Offsets[k] && Data4Offsets[k] + 2 <= hi <= 36
    ensures var j := Data4Offsets[k] - lo;
      Lower(s)[lo..hi][j..j + 2] == Format(FieldsOf(s).data4[k], 2)
  {
    Data4GroupOfFields(s, k);
  }

  lemma ClockSeqGroupOfFields(s: string)
    requires IsGuidString(s)
    ensures ToString(FieldsOf(s))[19..23] == Lower(s)[19..23]
  {
    var g := FieldsOf(s);
    var bs, d := g.data4[..2], Lower(s)[19..23];
    assert d[0..2] == Format(bs[0], 2) by { Data4PairOfFields(s, 0, 19, 23); }
    assert d[2..4] == Format(bs[1], 2) by { Data4PairOfFields(s, 1, 19, 23); }
    assert FormatBytes(bs) == d by { FormatBytesByPairs(bs, d); }
    assert ToString(g)[19..23] == FormatBytes(bs) by { ToStringGroups(g); }
  }

  lemma NodeGroupOfFields(s: string)
    requires IsGuidString(s)
    ensures ToString(FieldsOf(s))[24..36] == Lower(s)[24..36]
  {
    var g := FieldsOf(s);
    var bs, e := g.data4[2..], Lower(s)[24..36];
    forall j | 0 <= j < 6 ensures e[2 * j..2 * j + 2] == Format(bs[j], 2) {
      Data4OffsetAt(j + 2);
      Data4PairOfFields(s, j + 2, 24, 36);
    }
    assert FormatBytes(bs) == e by { FormatBytesByPairs(bs, e); }
    assert ToString(g)[24..36] == FormatBytes(bs) by { ToStringGroups(g); }
  }

  /** Parsing a valid string and printing the result gives the string in lower case. */
  lemma ToStringOfFields(s: string)
    requires IsGuidString(s)
    ensures ToString(FieldsOf(s)) == Lower(s)
  {
    FieldGroupsOfFields(s);
    ClockSeqGroupOfFields(s);
    NodeGroupOfFields(s);
    EqualByGroups(ToString(FieldsOf(s)), Lower(s));
  }

  /** A hyphen-free group of the text that does not parse makes the whole string invalid. */
  lemma BadGroupRejects(s: string, lo: nat, hi: nat, bitSize: nat)
    requires |s| == 36 && lo < hi <= 36 && bitSize == 4 * (hi - lo)
    requires forall i :: lo <= i < hi ==> !IsHyphenIndex(i)
    ensures ParseUint(s[lo..hi], bitSize).None? ==> !IsGuidString(s)
  {
    ParseUintFits(s[lo..hi], bitSize);
    if !AllDigits(s[lo..hi]) {
      var j :| 0 <= j < hi - lo && !IsDigit(s[lo..hi][j]);
      assert s[lo + j] == s[lo..hi][j];
    }
  }

  /** The first three groups of `s` parse to `Data1`, `Data2` and `Data3` of `g`. */
  predicate HeadParsed(s: string, g: GUID)
    requires |s| == 36
  {
    && ParseUint(s[0..8], 32) == Some(g.data1 as nat)
    && ParseUint(s[9..13], 16) == Some(g.data2 as nat)
    && ParseUint(s[14..18], 16) == Some(g.data3 as nat)
  }

  /** The two digits at the `k`-th `Data4` offset of `s` parse to `b`. */
  predicate Data4ByteAt(s: string, k: nat, b: Byte)
    requires |s| == 36 && k < 8
  {
    Data4OffsetsInRange();
    ParseUint(s[Data4Offsets[k]..Data4Offsets[k] + 2], 8) == Some(b as nat)
  }

  /** A string with the hyphens in place whose groups all parsed is valid and denotes the parsed GUID. */
  lemma ParsedGroups(s: string, g: GUID)
    requires |s| == 36 && HasGuidHyphens(s)
    requires HeadParsed(s, g)
    requires forall k :: 0 <= k < 8 ==> Data4ByteAt(s, k, g.data4[k])
    ensures IsGuidString(s) && g == FieldsOf(s)
  {
    Data4OffsetsInRange();
    forall k | 0 <= k < 8
      ensures AllDigits(s[Data4Offsets[k]..Data4Offsets[k] + 2])
      ensures g.data4[k] == Value(s[Data4Offsets[k]..Data4Offsets[k] + 2])
    {
      assert Data4ByteAt(s, k, g.data4[k]);
    }
    DigitGroups(s);
    assert g.data4 == FieldsOf(s).data4;
  }

  /**
   * `FromString(s)`: after the length and hyphen checks, each group is parsed into its field
   * and the eight `Data4` bytes are read in a loop over their offsets. Any failure returns
   * `GUID{}` with an error.
   */
  method FromString(s: string) returns (g: GUID, ok: bool)
    ensures ok <==> IsGuidString(s)
    ensures ok ==> g == FieldsOf(s)
    ensures !ok ==> g == Zero
  {
    if |s| != 36 {
      return Zero, false;
    }
    if s[8] != '-' || s[13] != '-' || s[18] != '-' || s[23] != '-' {
      return Zero, false;
    }
    PowersOfTwo();
    g := Zero;

    var data1 := ParseUint(s[0..8], 32);
    if data1.None? {
      BadGroupRejects(s, 0, 8, 32);
      return Zero, false;
    }
    g := g.(data1 := data1.value);

    var data2 := ParseUint(s[9..13], 16);
    if data2.None? {
      BadGroupRejects(s, 9, 13, 16);
      return Zero, false;
    }
    g := g.(data2 := data2.value);

    var data3 := ParseUint(s[14..18], 16);
    if data3.None? {
      BadGroupRejects(s, 14, 18, 16);
      return Zero, false;
    }
    g := g.(data3 := data3.value);

    Data4OffsetsInRange();
    for i := 0 to 8
      invariant HeadParsed(s, g)
      invariant forall k :: 0 <= k < i ==> Data4ByteAt(s, k, g.data4[k])
    {
      var x := Data4Offsets[i];
      var v := ParseUint(s[x..x + 2], 8);
      if v.None? {
        BadGroupRejects(s, x, x + 2, 8);
        return Zero, false;
      }
      g := g.(data4 := g.data4[i := v.value]);
    }
    ParsedGroups(s, g);
    ok := true;
  }
}
