/**
  The formatting helpers and the fixed attribute layout of the GATT test
  project (ptsprojects/mynewt/gatt.py): handle-to-text helpers built on
  str.format, the UUIDs, ids and handles of the tester's attribute
  database (PTS_DB) and the attribute values the test cases write (Value).
*/
module Gatt {
  import opened Wrappers
  import opened HexText

  // ---------------------------------------------------------------------
  // str.format with one hexadecimal replacement field

  /** A positional argument of str.format. */
  datatype FormatArg = IntArg(n: nat) | StrArg(s: string)

  /** The replacement field '{index:0<width>x}' ('{index:x}' when width is 0). */
  datatype HexField = HexField(index: nat, width: nat)

  /**
    template.format(*args) for a template made of one hexadecimal field: the
    argument the field names, in lower-case hex, filled with '0' to the width.
    Arguments the field does not name are ignored; a missing argument
    (IndexError) or a string argument (ValueError) yields None.
  */
  function FormatHex(f: HexField, args: seq<FormatArg>): (r: Option<string>)
    ensures r.Some? <==> f.index < |args| && args[f.index].IntArg?
    ensures r.Some? ==> IsLowerHex(r.value) && IsHex(r.value) && HexValue(r.value) == args[f.index].n
    ensures r.Some? ==> 1 <= |r.value| && f.width <= |r.value| && (|r.value| == 1 || |r.value| == f.width || r.value[0] != '0')
  {
    if f.index < |args| && args[f.index].IntArg? then
      var digits := LowerHex(args[f.index].n);
      ZeroPadValue(digits, f.width);
      Some(ZeroPad(digits, f.width))
    else None
  }

  /** hdl_str: '{0:x}'.format(hdl, 'x') — the handle in lower-case hex, unpadded. */
  function HdlStr(hdl: nat): (s: string)
    ensures |s| >= 1 && IsLowerHex(s) && IsHex(s) && HexValue(s) == hdl
    ensures |s| == 1 || s[0] != '0'
  {
    FormatHex(HexField(0, 0), [IntArg(hdl), StrArg("x")]).value
  }

  /** u16_hdl_str: '{0:04x}'.format(hdl, 'x') — lower-case hex, at least 4 digits. */
  function U16HdlStr(hdl: nat): (s: string)
    ensures IsLowerHex(s) && IsHex(s) && HexValue(s) == hdl
    ensures |s| >= 4 && (|s| == 4 <==> hdl < 0x10000)
    ensures |s| == 4 || s[0] != '0'
  {
    var s := FormatHex(HexField(0, 4), [IntArg(hdl), StrArg("x")]).value;
    LowerHexDigits(hdl, 4);
    assert Pow16(4) == 0x10000;
    s
  }

  /**
    u16_hdl_uc_str: '{0:04x}'.format(hdl, 'X'). The 'X' is an unused second
    argument, not the format type, so the text is lower-case, exactly as
    u16_hdl_str gives it.
  */
  function U16HdlUcStr(hdl: nat): (s: string)
    ensures s == U16HdlStr(hdl) && IsLowerHex(s)
  {
    FormatHex(HexField(0, 4), [IntArg(hdl), StrArg("X")]).value
  }

  // ---------------------------------------------------------------------
  // PTS_DB: the tester's attribute database

  const PtsUuidFmtSuffix := "8c26476f89a7a108033a69c7"

  /**
    PTS_UUID_FMT.format(id) with PTS_UUID_FMT = '0000{}8c26476f89a7a108033a69c7'.
    Its ensures spell the text out part by part: it is the reference the PTS_DB UUIDs are proved against.
  */
  function PtsUuid(id: string): (u: string)
    ensures |u| == |id| + 28 && u[..4] == "0000" && u[4..4 + |id|] == id && u[4 + |id|..] == PtsUuidFmtSuffix
  {
    var u := "0000" + id + PtsUuidFmtSuffix;
    assert u[4..4 + |id|] == id;
    u
  }

  const Svc := PtsUuid("0001")
  const ChrNoPerm := PtsUuid("0002")
  const ChrRead := PtsUuid("0003")
  const ChrReliableWrite := PtsUuid("0004")
  const ChrWriteNoRsp := PtsUuid("0005")
  const ChrReadWrite := PtsUuid("0006")
  const ChrReadWriteEnc := PtsUuid("0007")
  const ChrReadWriteAuthen := PtsUuid("0008")
  const ChrReadWriteAuthor := PtsUuid("0009")
  const DscRead := PtsUuid("000a")
  const DscWrite := PtsUuid("000b")
  const DscReadWrite := PtsUuid("000c")
  const DscReadWriteEnc := PtsUuid("000d")
  const DscReadWriteAuthen := PtsUuid("000e")
  const IncSvc := PtsUuid("000f")
  const ChrReadWriteAlt := PtsUuid("0010")

  /**
    The k-th UUID of PTS_DB in declaration order (from 0): its id is k + 1
    in four lower-case hex digits.
  */
  function PtsUuidAt(k: nat): (u: string)
    requires k < 16
    ensures |u| == 32 && u[..4] == "0000" && u[8..] == PtsUuidFmtSuffix
    ensures k < 15 ==> u[4..8] == "000" + [LowerDigit(k + 1)]
    ensures k == 15 ==> u[4..8] == "0010"
  {
    match k
    case 0 => Svc
    case 1 => ChrNoPerm
    case 2 => ChrRead
    case 3 => ChrReliableWrite
    case 4 => ChrWriteNoRsp
    case 5 => ChrReadWrite
    case 6 => ChrReadWriteEnc
    case 7 => ChrReadWriteAuthen
    case 8 => ChrReadWriteAuthor
    case 9 => DscRead
    case 10 => DscWrite
    case 11 => DscReadWrite
    case 12 => DscReadWriteEnc
    case 13 => DscReadWriteAuthen
    case 14 => IncSvc
    case 15 => ChrReadWriteAlt
  }

  const ChrNoPermId := 0
  const ChrReadId := 1
  const ChrReliableWriteId := 2
  const ChrWriteNoRspId := 3
  const ChrReadWriteId := 4
  const ChrReadWriteEncId := 5
  const ChrReadWriteAuthenId := 6
  const ChrReadWriteAuthorId := 7
  const DscReadId := 8
  const DscWriteId := 9
  const DscReadWriteId := 10
  const DscReadWriteEncId := 11
  const DscReadWriteAuthenId := 12
  const ChrReadWriteAltId := 13

  /** The k-th characteristic or descriptor id in declaration order: the ids are 0, 1, ..., 13. */
  function AttrIdAt(k: nat): (id: int)
    requires k < 14
    ensures id == k
  {
    match k
    case 0 => ChrNoPermId
    case 1 => ChrReadId
    case 2 => ChrReliableWriteId
    case 3 => ChrWriteNoRspId
    case 4 => ChrReadWriteId
    case 5 => ChrReadWriteEncId
    case 6 => ChrReadWriteAuthenId
    case 7 => ChrReadWriteAuthorId
    case 8 => DscReadId
    case 9 => DscWriteId
    case 10 => DscReadWriteId
    case 11 => DscReadWriteEncId
    case 12 => DscReadWriteAuthenId
    case 13 => ChrReadWriteAltId
  }

  /** Handle of the first attribute of the tester's database on the IUT. */
  const IutAttrDbOff: nat := 26

  const SvcHdl := U16HdlStr(IutAttrDbOff + 0)
  const ChrNoPermHdl := U16HdlStr(IutAttrDbOff + 2)
  const ChrReadHdl := U16HdlStr(IutAttrDbOff + 4)
  const ChrReliableWriteHdl := U16HdlStr(IutAttrDbOff + 7)
  const ChrWriteNoRspHdl := U16HdlStr(IutAttrDbOff + 9)
  const ChrReadWriteHdl := HdlStr(IutAttrDbOff + 11)
  const ChrReadWriteEncHdl := U16HdlStr(IutAttrDbOff + 14)
  const ChrReadWriteAuthenHdl := U16HdlStr(IutAttrDbOff + 16)
  const ChrReadWriteAuthorHdl := U16HdlStr(IutAttrDbOff + 18)
  const DscReadHdl := U16HdlStr(IutAttrDbOff + 19)
  const DscWriteHdl := U16HdlStr(IutAttrDbOff + 20)
  const DscReadWriteHdl := U16HdlStr(IutAttrDbOff + 21)
  const DscReadWriteEncHdl := U16HdlStr(IutAttrDbOff + 22)
  const DscReadWriteAuthenHdl := U16HdlStr(IutAttrDbOff + 23)
  const SvcEndHdl := U16HdlStr(IutAttrDbOff + 23)
  const IncSvcHdl := U16HdlStr(IutAttrDbOff + 25)
  const ChrReadWriteAltHdl := U16HdlStr(IutAttrDbOff + 27)

  /** Index of ChrReadWriteHdl in declaration order: the one handle formatted with hdl_str. */
  const UnpaddedIndex := 5

  /** The offset from IutAttrDbOff that the k-th handle (in declaration order) adds. */
  function HandleOffset(k: nat): nat
    requires k < 17
  {
    match k
    case 0 => 0 case 1 => 2 case 2 => 4 case 3 => 7 case 4 => 9 case 5 => 11 case 6 => 14
    case 7 => 16 case 8 => 18 case 9 => 19 case 10 => 20 case 11 => 21 case 12 => 22
    case 13 => 23 case 14 => 23 case 15 => 25 case 16 => 27
  }

  /**
    The k-th handle text of PTS_DB in declaration order: it reads back as
    IutAttrDbOff plus its offset, and it has four digits except at UnpaddedIndex.
  */
  function HandleAt(k: nat): (h: string)
    requires k < 17
    ensures IsHex(h) && IsLowerHex(h) && HexValue(h) == IutAttrDbOff + HandleOffset(k)
    ensures k != UnpaddedIndex ==> |h| == 4
  {
    match k
    case 0 => SvcHdl
    case 1 => ChrNoPermHdl
    case 2 => ChrReadHdl
    case 3 => ChrReliableWriteHdl
    case 4 => ChrWriteNoRspHdl
    case 5 => ChrReadWriteHdl
    case 6 => ChrReadWriteEncHdl
    case 7 => ChrReadWriteAuthenHdl
    case 8 => ChrReadWriteAuthorHdl
    case 9 => DscReadHdl
    case 10 => DscWriteHdl
    case 11 => DscReadWriteHdl
    case 12 => DscReadWriteEncHdl
    case 13 => DscReadWriteAuthenHdl
    case 14 => SvcEndHdl
    case 15 => IncSvcHdl
    case 16 => ChrReadWriteAltHdl
  }

  // ---------------------------------------------------------------------
  // Value: attribute values written by the test cases

  /** Python's str * n: `n` copies of `s`, one after the other. */
  function Repeat(s: string, n: nat): (r: string)
    ensures |r| == |s| * n
    ensures n > 0 ==> r[..|s|] == s && r[|s|..] == Repeat(s, n - 1)
  {
    if n == 0 then [] else s + Repeat(s, n - 1)
  }

  lemma {:induction false} RepeatKeepsUpperHex(s: string, n: nat)
    requires IsUpperHex(s)
    ensures IsUpperHex(Repeat(s, n))
  {
    if n > 0 {
      RepeatKeepsUpperHex(s, n - 1);
      var r := Repeat(s, n);
      forall i | 0 <= i < |r|
        ensures IsUpperHexDigit(r[i])
      {
        if i < |s| {
          assert r[i] == r[..|s|][i];
        } else {
          assert r[i] == r[|s|..][i - |s|];
        }
      }
    }
  }

  const OneByte := "01"
  const TwoBytes := "0123"
  const EightBytes1 := "0123456789ABCDEF"
  const EightBytes2 := "FEDCBA9876543210"
  const Long1 := Repeat(EightBytes1, 4)
  const Long2 := Repeat(EightBytes2, 4)

  // ---------------------------------------------------------------------
  // Properties of the layout

  lemma U16HdlStrOneDigit(d: nat)
    requires d < 16
    ensures U16HdlStr(d) == "000" + [LowerDigit(d)]
  {
    assert Zeros(3) == "000";
  }

  lemma U16HdlStrSixteen()
    ensures U16HdlStr(16) == "0010"
  {
    assert LowerHex(16) == "10";
    assert Zeros(2) == "00";
  }

  /** The id inside the k-th UUID is u16_hdl_str(k + 1): the UUIDs are numbered 1 to 16 in order. */
  lemma PtsUuidOrdinal(k: nat)
    requires k < 16
    ensures PtsUuidAt(k)[4..8] == U16HdlStr(k + 1)
  {
    if k < 15 {
      U16HdlStrOneDigit(k + 1);
    } else {
      U16HdlStrSixteen();
      assert k + 1 == 16;
    }
  }

  lemma SuffixLowerHex()
    ensures IsLowerHex(PtsUuidFmtSuffix)
  {
  }

  lemma LowerHexConcat(a: string, b: string)
    requires IsLowerHex(a) && IsLowerHex(b)
    ensures IsLowerHex(a + b)
  {
    forall c | 0 <= c < |a + b|
      ensures IsLowerHexDigit((a + b)[c])
    {
      if c >= |a| {
        assert (a + b)[c] == b[c - |a|];
      }
    }
  }

  /** A text of the PTS_DB UUID shape whose id is lower-case hex is lower-case hex throughout. */
  lemma UuidShapeLowerHex(u: string)
    requires |u| == 32 && u[..4] == "0000" && u[8..] == PtsUuidFmtSuffix && IsLowerHex(u[4..8])
    ensures IsLowerHex(u)
  {
    var zeros, id, suffix := u[..4], u[4..8], u[8..];
    assert IsLowerHex(zeros) by {
      assert zeros == "0000";
    }
    assert IsLowerHex(suffix) by {
      SuffixLowerHex();
    }
    LowerHexConcat(zeros, id);
    LowerHexConcat(zeros + id, suffix);
    assert u == zeros + id + suffix;
  }

  /** Every PTS_DB UUID is 32 lower-case hex digits. */
  lemma PtsUuidLowerHex(k: nat)
    requires k < 16
    ensures IsLowerHex(PtsUuidAt(k))
  {
    PtsUuidOrdinal(k);
    UuidShapeLowerHex(PtsUuidAt(k));
  }

  lemma DifferentIds(u: string, v: string)
    requires |u| == 32 && |v| == 32 && IsHex(u[4..8]) && IsHex(v[4..8]) && HexValue(u[4..8]) != HexValue(v[4..8])
    ensures u != v
  {
  }

  /** Two PTS_DB UUIDs are equal only when they are the same entry. */
  lemma PtsUuidsDistinct(i: nat, j: nat)
    requires i < 16 && j < 16
    ensures PtsUuidAt(i) == PtsUuidAt(j) <==> i == j
  {
    if i != j {
      PtsUuidOrdinal(i);
      PtsUuidOrdinal(j);
      DifferentIds(PtsUuidAt(i), PtsUuidAt(j));
    }
  }

  /**
    In a sequence that rises at every step except one flat step `e`, every
    earlier element is smaller than every later one, except the pair at `e`.
  */
  lemma {:induction false} RisingExceptOnce(o: seq<nat>, e: nat, i: nat, j: nat)
    requires e + 1 < |o| && o[e] == o[e + 1]
    requires forall k :: 0 <= k < |o| - 1 && k != e ==> o[k] < o[k + 1]
    requires i < j < |o|
    ensures o[i] < o[j] || (i == e && j == e + 1)
    ensures o[i] <= o[j]
    decreases j - i
  {
    if j > i + 1 {
      RisingExceptOnce(o, e, i, j - 1);
    }
  }

  /** The offsets rise strictly in declaration order, except that SvcEndHdl repeats DscReadWriteAuthenHdl. */
  lemma HandleOffsetsRise(i: nat, j: nat)
    requires i < j < 17
    ensures HandleOffset(i) < HandleOffset(j) || (i == 13 && j == 14)
    ensures HandleOffset(13) == HandleOffset(14)
  {
    var o := seq(17, k requires 0 <= k < 17 => HandleOffset(k));
    forall k | 0 <= k < 16 && k != 13
      ensures o[k] < o[k + 1]
    {
    }
    RisingExceptOnce(o, 13, i, j);
  }

  /** chr_read_write_hdl is the handle written without zero fill: "25". */
  lemma ChrReadWriteHdlUnpadded()
    ensures HandleAt(UnpaddedIndex) == ChrReadWriteHdl == "25"
  {
    assert LowerHex(37) == "25";
  }

  lemma DifferentValues(a: string, b: string)
    requires IsHex(a) && IsHex(b) && HexValue(a) != HexValue(b)
    ensures a != b
  {
  }

  /** Two zero-filled handles with one offset are one text. */
  lemma SameOffsetSameHandle(i: nat, j: nat)
    requires i < 17 && j < 17 && i != UnpaddedIndex && j != UnpaddedIndex
    requires HandleOffset(i) == HandleOffset(j)
    ensures HandleAt(i) == HandleAt(j)
  {
    LowerHexCanonical(HandleAt(i), HandleAt(j));
  }

  /** svc_end_hdl is the same text as dsc_read_write_authen_hdl. */
  lemma SvcEndRepeats()
    ensures SvcEndHdl == DscReadWriteAuthenHdl
    ensures HandleAt(13) == HandleAt(14)
  {
    SameOffsetSameHandle(13, 14);
  }

  /** Two handle texts coincide only for DscReadWriteAuthenHdl and SvcEndHdl. */
  lemma HandlesDistinct(i: nat, j: nat)
    requires i < j < 17
    ensures HandleAt(i) == HandleAt(j) <==> i == 13 && j == 14
  {
    HandleOffsetsRise(i, j);
    if i == 13 && j == 14 {
      SvcEndRepeats();
    } else {
      DifferentValues(HandleAt(i), HandleAt(j));
    }
  }

  lemma {:induction false} RepeatFour(s: string)
    ensures Repeat(s, 4) == s + s + s + s
  {
    calc {
      Repeat(s, 4);
      s + Repeat(s, 3);
      s + (s + Repeat(s, 2));
      s + (s + (s + (s + Repeat(s, 0))));
      s + s + s + s;
    }
  }

  /** long_1 and long_2 are four copies of their 8-byte texts: 64 hex digits each. */
  lemma LongValues()
    ensures Long1 == EightBytes1 + EightBytes1 + EightBytes1 + EightBytes1
    ensures Long2 == EightBytes2 + EightBytes2 + EightBytes2 + EightBytes2
    ensures |Long1| == 64 && |Long2| == 64
  {
    RepeatFour(EightBytes1);
    RepeatFour(EightBytes2);
  }

  /** A text of whole bytes in upper-case hex, as the test cases write values. */
  predicate UpperHexBytes(v: string)
  {
    |v| % 2 == 0 && IsUpperHex(v)
  }

  /** Every Value text is an even number of upper-case hex digits: whole bytes. */
  lemma ValueShapes()
    ensures UpperHexBytes(OneByte) && UpperHexBytes(TwoBytes)
    ensures UpperHexBytes(EightBytes1) && UpperHexBytes(EightBytes2)
    ensures UpperHexBytes(Long1) && UpperHexBytes(Long2)
  {
    assert IsUpperHex(EightBytes1) && IsUpperHex(EightBytes2);
    RepeatKeepsUpperHex(EightBytes1, 4);
    RepeatKeepsUpperHex(EightBytes2, 4);
  }
}
