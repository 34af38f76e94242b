/**
 What TeltonikaWire and Teltonika mean in terms of bytes alone: which group has which width, which two bytes are the CRC and
 in which order, what each refusal needs, and two packets read to the last field.
 */
module TeltonikaLayout {
  import opened Options
  import opened Bytes
  import opened TeltonikaWire
  import opened Teltonika
  import Crc
  import CrcBursts

  // ----- the groups -----

  /** The groups hold values of 1, 2, 4 and 8 bytes, in this order, each behind its own count. */
  lemma GroupsLayout(gs: seq<seq<Element>>, iw: nat)
    requires GroupsFit(gs, [1, 2, 4, 8], iw)
    ensures GroupsFit(gs, WIDTHS, iw) && |gs| == 4
    ensures GroupFits(gs[0], 1, iw) && GroupFits(gs[1], 2, iw) && GroupFits(gs[2], 4, iw) && GroupFits(gs[3], 8, iw)
    ensures EncodeGroups(gs, WIDTHS, iw) ==
            EncodeGroup(gs[0], 1, iw) + EncodeGroup(gs[1], 2, iw) + EncodeGroup(gs[2], 4, iw) + EncodeGroup(gs[3], 8, iw)
  {
    hide GroupFits, EncodeGroup;
    assert WIDTHS == [1, 2, 4, 8];
    var w2, w3, w4 := WIDTHS[1..], WIDTHS[2..], WIDTHS[3..];
    assert w2[1..] == w3 && w3[1..] == w4 && w4[1..] == [];
    assert gs[1..][1..] == gs[2..] && gs[2..][1..] == gs[3..] && gs[3..][1..] == [];
    assert EncodeGroups(gs[3..], w4, iw) == EncodeGroup(gs[3], 8, iw) + EncodeGroups([], [], iw);
    assert EncodeGroups(gs[2..], w3, iw) == EncodeGroup(gs[2], 4, iw) + EncodeGroups(gs[3..], w4, iw);
    assert EncodeGroups(gs[1..], w2, iw) == EncodeGroup(gs[1], 2, iw) + EncodeGroups(gs[2..], w3, iw);
  }

  // ----- what each outcome needs -----

  /** Preamble and length are there, and the length is admitted. */
  predicate Headed(s: seq<byte>) { |s| >= 8 && s[..4] == [0, 0, 0, 0] && Length(s) <= 65536 }

  function Length(s: seq<byte>): nat
    requires |s| >= 8
  {
    s[4] as int * 0x100_0000 + s[5] as int * 0x1_0000 + s[6] as int * 256 + s[7] as int
  }

  predicate Complete(s: seq<byte>) { Headed(s) && |s| >= 12 + Length(s) }

  /** The payload and the last two bytes of the packet, low one first, leave CRC-16/ARC at zero. */
  predicate CrcRight(s: seq<byte>)
    requires Complete(s)
  {
    var len := Length(s);
    Crc.Arc(s[8..8 + len] + [s[11 + len], s[10 + len]]) == 0
  }

  lemma CrcBytes(c: bv16, hi: byte, lo: byte)
    ensures hi as int * 256 + lo as int == c as int <==> hi == Crc.Hi(c) && lo == Crc.Lo(c)
  {
    hide Crc.Hi, Crc.Lo;
    Crc.Halves(c);
  }

  lemma FourZeros(s: seq<byte>)
    requires |s| == 4
    ensures BE(s) == 0 <==> s == [0, 0, 0, 0]
  {
    BE4(s);
  }

  lemma LowHalf(s: seq<byte>)
    requires |s| == 4
    ensures BE(s) % 65536 == s[2] as int * 256 + s[3] as int
  {
    BE4(s);
  }

  /** The packet's own words for its header and its CRC. */
  lemma HeaderWords(s: seq<byte>)
    ensures |s| >= 4 ==> (BE(s[..4]) == 0 <==> s[..4] == [0, 0, 0, 0])
    ensures |s| >= 8 ==> BE(s[4..8]) == Length(s)
    ensures Complete(s) ==> (BE(s[8 + Length(s)..12 + Length(s)]) % 65536 == CrcValue(s[8..8 + Length(s)]) <==> CrcRight(s))
  {
    hide BE, Crc.Run, Crc.Hi, Crc.Lo;
    if |s| >= 4 { FourZeros(s[..4]); }
    if |s| >= 8 { BE4(s[4..8]); }
    if Complete(s) {
      var len := Length(s);
      LowHalf(s[8 + len..12 + len]);
      CrcBytes(Crc.Arc(s[8..8 + len]), s[10 + len], s[11 + len]);
      CrcBursts.ResidueExactly(false, 0, s[8..8 + len], s[11 + len], s[10 + len]);
    }
  }

  /** A packet that has arrived is refused for its CRC exactly when its two CRC bytes are not CRC-16/ARC of the payload. */
  lemma CrcDecides(s: seq<byte>)
    requires Complete(s)
    ensures PacketFrom(s).0 == Rejected(CrcMismatch, s[8..8 + Length(s)]) <==>
            Crc.Arc(s[8..8 + Length(s)] + [s[11 + Length(s)], s[10 + Length(s)]]) != 0
  {
    hide BE, Crc.Run, CrcValue, Decode;
    HeaderWords(s);
    NotForCrc(s[8..8 + Length(s)], s[..12 + Length(s)]);
  }

  lemma NotForCrc(payload: seq<byte>, raw: seq<byte>)
    ensures Decode(payload, raw) != Rejected(CrcMismatch, payload)
  {
    hide RecordsOf;
  }

  /** Too little has arrived, or the first words are wrong. */
  lemma RefusedEarly(s: seq<byte>)
    requires !Complete(s)
    ensures PacketFrom(s) ==
            if |s| < 4 then (Rejected(NoPreamble, []), [])
            else if s[..4] != [0, 0, 0, 0] then (Rejected(BadPreamble, []), s[4..])
            else if |s| < 8 then (Rejected(NoLength, []), [])
            else if Length(s) > 65536 then (Rejected(SuspiciousLength, []), s[8..])
            else if |s| < 8 + Length(s) then (Rejected(NoPayload, []), [])
            else (Rejected(NoCrc, []), [])
  {
    hide BE, CrcValue, Decode;
    HeaderWords(s);
  }

  /** What a packet that has arrived is read as, whatever follows it. */
  lemma ReadExactly(s: seq<byte>)
    requires Complete(s)
    ensures var (r, rest) := PacketFrom(s);
            var payload, raw := s[8..8 + Length(s)], s[..12 + Length(s)];
            && rest == s[12 + Length(s)..]
            && (r == Rejected(CrcMismatch, payload) <==> !CrcRight(s))
            && (r == Rejected(PayloadTooShort, raw) <==> CrcRight(s) && Length(s) < 2)
            && (r == Rejected(UnsupportedCodec, raw) <==>
                  CrcRight(s) && Length(s) >= 2 && s[8] != 0x08 && s[8] != 0x8E && s[8] != 0x10)
            && (CrcRight(s) ==> r.raw == raw)
            && (r.Accepted? ==> |r.records| == s[9])
  {
    hide BE, Crc.Run, CrcValue, CrcRight, RecordsOf;
    HeaderWords(s);
  }

  /** A raw packet too short for a count is acknowledged with zero, one with a count by that count. */
  lemma AckIs(packet: seq<byte>)
    ensures |packet| <= 8 ==> BuildAck(packet) == Some([0, 0, 0, 0])
    ensures |packet| >= 10 ==> BuildAck(packet) == Some([0, 0, 0, packet[9]])
  {
    hide ToBE;
    ToBE4(0);
    if |packet| >= 10 { ToBE4(packet[9]); }
  }

  // ----- two records read to the last field -----

  /** A Codec 8 record: five elements in the four groups, no position. */
  const PLAIN := Avl(
    0x16b40d8ea30, 1, 0, 0, 0, 0, 0, 0, 1, 5,
    [[Element(0x15, 3), Element(0x01, 1)], [Element(0x42, 0x5E0F)], [Element(0xF1, 0x601A)], [Element(0x4E, 0)]], [])

  function PlainHead(): seq<byte> {
    [
      0x00, 0x00, 0x01, 0x6B, 0x40, 0xD8, 0xEA, 0x30, 0x01, 0x00, 0x00, 0x00, 0x00, 0x00, 0x00, 0x00,
      0x00, 0x00, 0x00, 0x00, 0x00, 0x00, 0x00, 0x00, 0x01, 0x05]
  }

  function PlainGroups(): seq<byte> {
    [
      0x02, 0x15, 0x03, 0x01, 0x01, 0x01, 0x42, 0x5E, 0x0F, 0x01, 0xF1, 0x00, 0x00, 0x60, 0x1A, 0x01,
      0x4E, 0x00, 0x00, 0x00, 0x00, 0x00, 0x00, 0x00, 0x00]
  }

  /** A Codec 8E record: a position west of Greenwich, an unsigned and a signed extreme, and two elements of other sizes. */
  const EXTENDED := Avl(
    0x16b412cee00, 2, -2, 200_000_000, 258, 89, 7, 300, 0x101, 6,
    [[Element(0x101, 255)], [Element(0x11, 0x8001)], [Element(0x10, 0xFFFF_FFFF)], [Element(0x0B, -2)]],
    [XElement(0x200, [1, 2, 3]), XElement(0x11, [0, 0, 0, 0, 0, 0, 0, 0x0A, 0x55])])

  function ExtendedHead(): seq<byte> {
    [
      0x00, 0x00, 0x01, 0x6B, 0x41, 0x2C, 0xEE, 0x00, 0x02, 0xFF, 0xFF, 0xFF, 0xFE, 0x0B, 0xEB, 0xC2,
      0x00, 0x01, 0x02, 0x00, 0x59, 0x07, 0x01, 0x2C, 0x01, 0x01, 0x00, 0x06]
  }

  function ExtendedGroups(): seq<byte> {
    [
      0x00, 0x01, 0x01, 0x01, 0xFF, 0x00, 0x01, 0x00, 0x11, 0x80, 0x01, 0x00, 0x01, 0x00, 0x10, 0xFF,
      0xFF, 0xFF, 0xFF, 0x00, 0x01, 0x00, 0x0B, 0xFF, 0xFF, 0xFF, 0xFF, 0xFF, 0xFF, 0xFF, 0xFE]
  }

  function ExtendedRest(): seq<byte> {
    [
      0x00, 0x02, 0x02, 0x00, 0x00, 0x03, 0x01, 0x02, 0x03, 0x00, 0x11, 0x00, 0x09, 0x00, 0x00, 0x00,
      0x00, 0x00, 0x00, 0x00, 0x0A, 0x55]
  }

  lemma PlainHeadIs()
    ensures HeadFits(PLAIN, 1) && EncodeHead(PLAIN, 1) == PlainHead()
  {
    hide ToBE;
    Pow256Values();
    ToBE8(0x16b40d8ea30);
    ToBE4(0x16b40d8ea30 / 0x1_0000_0000);
    ToBE4(0x16b40d8ea30);
    ToBE4(0);
    ToBE2(0);
    OneByte(1);
    OneByte(5);
  }

  lemma OneByte(n: nat)
    ensures ToBE(n, 1) == [n % 256]
  {
    assert ToBE(n / 256, 0) == [];
  }

  lemma OneElement(e: Element, vw: nat, iw: nat)
    requires ElementFits(e, vw, iw) && 1 < Pow256(iw)
    ensures GroupFits([e], vw, iw)
    ensures EncodeGroup([e], vw, iw) == ToBE(1, iw) + EncodeElement(e, vw, iw)
  {
    hide ElementFits, EncodeElement, ToBE, Pow256;
    assert [e][1..] == [];
    assert EncodeElements([e], vw, iw) == EncodeElement(e, vw, iw) + EncodeElements([], vw, iw);
  }

  lemma TwoElements(e: Element, f: Element, vw: nat, iw: nat)
    requires ElementFits(e, vw, iw) && ElementFits(f, vw, iw) && 2 < Pow256(iw)
    ensures GroupFits([e, f], vw, iw)
    ensures EncodeGroup([e, f], vw, iw) == ToBE(2, iw) + EncodeElement(e, vw, iw) + EncodeElement(f, vw, iw)
  {
    hide ElementFits, EncodeElement, ToBE, Pow256;
    assert [e, f][1..] == [f] && [f][1..] == [];
    assert EncodeElements([f], vw, iw) == EncodeElement(f, vw, iw) + EncodeElements([], vw, iw);
    assert EncodeElements([e, f], vw, iw) == EncodeElement(e, vw, iw) + EncodeElements([f], vw, iw);
  }

  lemma PlainGroupsOne()
    ensures var g := PLAIN.groups[0]; GroupFits(g, 1, 1) && EncodeGroup(g, 1, 1) == [0x02, 0x15, 0x03, 0x01, 0x01]
    ensures var g := PLAIN.groups[1]; GroupFits(g, 2, 1) && EncodeGroup(g, 2, 1) == [0x01, 0x42, 0x5E, 0x0F]
  {
    hide ToBE, EncodeGroup, GroupFits;
    Pow256Values();
    OneByte(0x15); OneByte(0x01); OneByte(3); OneByte(2); OneByte(0x42);
    ToBE2(0x5E0F);
    TwoElements(Element(0x15, 3), Element(0x01, 1), 1, 1);
    OneElement(Element(0x42, 0x5E0F), 2, 1);
  }

  lemma PlainGroupsTwo()
    ensures var g := PLAIN.groups[2]; GroupFits(g, 4, 1) && EncodeGroup(g, 4, 1) == [0x01, 0xF1, 0x00, 0x00, 0x60, 0x1A]
    ensures var g := PLAIN.groups[3];
            GroupFits(g, 8, 1) && EncodeGroup(g, 8, 1) == [0x01, 0x4E, 0x00, 0x00, 0x00, 0x00, 0x00, 0x00, 0x00, 0x00]
  {
    hide ToBE, EncodeGroup, GroupFits;
    Pow256Values();
    OneByte(0x01); OneByte(0xF1); OneByte(0x4E);
    ToBE4(0x601A);
    ToBE8(0);
    ToBE4(0);
    OneElement(Element(0xF1, 0x601A), 4, 1);
    OneElement(Element(0x4E, 0), 8, 1);
  }

  lemma PlainGroupsAre()
    ensures GroupsFit(PLAIN.groups, WIDTHS, 1) && EncodeGroups(PLAIN.groups, WIDTHS, 1) == PlainGroups()
  {
    hide EncodeGroup, EncodeGroups, GroupFits;
    PlainGroupsOne();
    PlainGroupsTwo();
    GroupsLayout(PLAIN.groups, 1);
  }

  lemma ExtendedTimeAndPlace()
    ensures var a := EXTENDED; FitsSigned(a.timestamp, 8) && FitsSigned(a.lng, 4) && FitsSigned(a.lat, 4)
    ensures ToBE(Unsigned(EXTENDED.timestamp, 8), 8) == [0x00, 0x00, 0x01, 0x6B, 0x41, 0x2C, 0xEE, 0x00]
    ensures ToBE(Unsigned(EXTENDED.lng, 4), 4) == [0xFF, 0xFF, 0xFF, 0xFE]
    ensures ToBE(Unsigned(EXTENDED.lat, 4), 4) == [0x0B, 0xEB, 0xC2, 0x00]
  {
    hide ToBE;
    Pow256Values();
    ToBE8(EXTENDED.timestamp);
    ToBE4(EXTENDED.timestamp / 0x1_0000_0000);
    ToBE4(EXTENDED.timestamp);
    ToBE4(0xFFFF_FFFE);
    ToBE4(200_000_000);
  }

  lemma ExtendedHeadIs()
    ensures HeadFits(EXTENDED, 2) && EncodeHead(EXTENDED, 2) == ExtendedHead()
  {
    hide ToBE, Unsigned, FitsSigned;
    Pow256Values();
    ExtendedTimeAndPlace();
    ToBE2(258); ToBE2(89); ToBE2(300); ToBE2(0x101); ToBE2(6);
  }

  lemma ExtendedGroupsOne()
    ensures var g := EXTENDED.groups[0]; GroupFits(g, 1, 2) && EncodeGroup(g, 1, 2) == [0x00, 0x01, 0x01, 0x01, 0xFF]
    ensures var g := EXTENDED.groups[1]; GroupFits(g, 2, 2) && EncodeGroup(g, 2, 2) == [0x00, 0x01, 0x00, 0x11, 0x80, 0x01]
  {
    hide ToBE, EncodeGroup, GroupFits;
    Pow256Values();
    OneByte(255);
    ToBE2(1); ToBE2(0x101); ToBE2(0x11); ToBE2(0x8001);
    OneElement(Element(0x101, 255), 1, 2);
    OneElement(Element(0x11, 0x8001), 2, 2);
  }

  lemma ExtendedGroupsTwo()
    ensures var g := EXTENDED.groups[2];
            GroupFits(g, 4, 2) && EncodeGroup(g, 4, 2) == [0x00, 0x01, 0x00, 0x10, 0xFF, 0xFF, 0xFF, 0xFF]
    ensures var g := EXTENDED.groups[3];
            && GroupFits(g, 8, 2)
            && EncodeGroup(g, 8, 2) == [0x00, 0x01, 0x00, 0x0B, 0xFF, 0xFF, 0xFF, 0xFF, 0xFF, 0xFF, 0xFF, 0xFE]
  {
    hide ToBE, EncodeGroup, GroupFits;
    Pow256Values();
    ToBE2(1); ToBE2(0x10); ToBE2(0x0B);
    ToBE4(0xFFFF_FFFF);
    ToBE8(0xFFFF_FFFF_FFFF_FFFE);
    ToBE4(0xFFFF_FFFF_FFFF_FFFE);
    OneElement(Element(0x10, 0xFFFF_FFFF), 4, 2);
    OneElement(Element(0x0B, -2), 8, 2);
  }

  lemma ExtendedGroupsAre()
    ensures GroupsFit(EXTENDED.groups, WIDTHS, 2) && EncodeGroups(EXTENDED.groups, WIDTHS, 2) == ExtendedGroups()
  {
    hide EncodeGroup, EncodeGroups, GroupFits;
    ExtendedGroupsOne();
    ExtendedGroupsTwo();
    GroupsLayout(EXTENDED.groups, 2);
  }

  lemma ExtendedRestIs()
    ensures XGroupFits(EXTENDED.xs, true) && EncodeXGroup(EXTENDED.xs, true) == ExtendedRest()
  {
    hide ToBE, XFits, EncodeX;
    Pow256Values();
    var x, y := EXTENDED.xs[0], EXTENDED.xs[1];
    XIs(x);
    XIs(y);
    ToBE2(2); ToBE2(0x200); ToBE2(3); ToBE2(0x11); ToBE2(9);
    assert EXTENDED.xs[1..] == [y] && [y][1..] == [];
    assert EncodeXs([y]) == EncodeX(y) + EncodeXs([]);
    assert EncodeXs(EXTENDED.xs) == EncodeX(x) + EncodeXs([y]);
  }

  lemma XIs(x: XElement)
    requires x.id < 0x1_0000 && |x.bytes| < 0x1_0000
    ensures XFits(x) && EncodeX(x) == ToBE(x.id, 2) + ToBE(|x.bytes|, 2) + x.bytes
  {
    hide ToBE;
    Pow256Values();
  }

  lemma PlainIs()
    ensures AvlFits(PLAIN, false) && EncodeAvl(PLAIN, false) == PlainHead() + PlainGroups()
  {
    hide HeadFits, GroupsFit, EncodeHead, EncodeGroups;
    PlainHeadIs();
    PlainGroupsAre();
    assert EncodeXGroup([], false) == [];
    assert PlainHead() + (PlainGroups() + []) == PlainHead() + PlainGroups();
  }

  lemma ExtendedIs()
    ensures AvlFits(EXTENDED, true) && EncodeAvl(EXTENDED, true) == ExtendedHead() + (ExtendedGroups() + ExtendedRest())
  {
    hide HeadFits, GroupsFit, XGroupFits, EncodeHead, EncodeGroups, EncodeXGroup;
    ExtendedHeadIs();
    ExtendedGroupsAre();
    ExtendedRestIs();
  }

  /** What the parser must make of the first record, read with this codec id. */
  function PlainParsed(codecId: byte): ParsedRecord {
    ParsedRecord(0x16B_40D8_EA30, 0, 0, 0, 0, 0, 0, false, 1,
                 map[0x15 := 3, 0x01 := 1, 0x42 := 0x5E0F, 0xF1 := 0x601A, 0x4E := 0], codecId)
  }

  /** And of the second: the later of two elements with id 0x11 stays, and only eight of its nine bytes. */
  function ExtendedParsed(): ParsedRecord {
    ParsedRecord(0x16B_412C_EE00, -2, 200_000_000, 258, 300, 89, 7, true, 2,
                 map[0x101 := 255, 0x11 := 0x0A, 0x10 := 0xFFFF_FFFF, 0x0B := -2, 0x200 := 0x01_0203], 0x8E)
  }

  lemma PlainView()
    ensures View(PLAIN).(rawCodec := 0x08) == PlainParsed(0x08) && View(PLAIN).(rawCodec := 0x10) == PlainParsed(0x10)
  {
    var gs := PLAIN.groups;
    var e1, e2, e3, e4, e5 := gs[0][0], gs[0][1], gs[1][0], gs[2][0], gs[3][0];
    assert Flatten(gs) + XElements([]) == [] + [e1] + [e2] + [e3] + [e4] + [e5] by { Flat4(gs); }
    ApplyOne(map[], [], e1);
    ApplyOne(map[], [] + [e1], e2);
    ApplyOne(map[], [] + [e1] + [e2], e3);
    ApplyOne(map[], [] + [e1] + [e2] + [e3], e4);
    ApplyOne(map[], [] + [e1] + [e2] + [e3] + [e4], e5);
  }

  lemma ApplyOne(io: map<int, int>, es: seq<Element>, e: Element)
    ensures Apply(io, es + [e]) == Apply(io, es)[e.id := e.value] && Apply(io, []) == io
  {
    assert (es + [e])[..|es|] == es;
  }

  lemma Flat4(gs: seq<seq<Element>>)
    requires |gs| == 4
    ensures Flatten(gs) == gs[0] + gs[1] + gs[2] + gs[3]
  {
    assert gs[..3][..2] == gs[..2] && gs[..2][..1] == gs[..1] && gs[..1][..0] == [];
    assert Flatten(gs[..1]) == Flatten([]) + gs[0];
    assert Flatten(gs[..2]) == Flatten(gs[..1]) + gs[1];
    assert Flatten(gs[..3]) == Flatten(gs[..2]) + gs[2];
  }

  lemma XValues()
    ensures XValue([1, 2, 3]) == 0x01_0203 && XValue([0, 0, 0, 0, 0, 0, 0, 0x0A, 0x55]) == 0x0A
  {
    hide BE;
    var s: seq<byte> := [1, 2, 3];
    assert s[..3] == s;
    BigEndian(s);
    BE2(s[1..]);
    Pow256Values();
    var t: seq<byte> := [0, 0, 0, 0, 0, 0, 0, 0x0A];
    assert [0, 0, 0, 0, 0, 0, 0, 0x0A, 0x55][..8] == t;
    ZerosInFront(t, 7);
    assert t[7..] == [0x0A];
    assert BE([0x0A]) == 0x0A by { OneByteIs(0x0A); }
  }

  lemma OneByteIs(b: byte)
    ensures BE([b]) == b
  {
    assert [b][..0] == [];
  }

  lemma {:induction false} ZerosInFront(s: seq<byte>, k: nat)
    requires k < |s| && forall i :: 0 <= i < k ==> s[i] == 0
    ensures BE(s) == BE(s[k..])
    decreases k
  {
    hide BE;
    if k > 0 {
      BigEndian(s);
      ZerosInFront(s[1..], k - 1);
      assert s[1..][k - 1..] == s[k..];
    } else {
      assert s[0..] == s;
    }
  }

  lemma ExtendedView()
    ensures View(EXTENDED).(rawCodec := 0x8E) == ExtendedParsed()
  {
    hide XValue;
    var gs, xs := EXTENDED.groups, EXTENDED.xs;
    var e1, e2, e3, e4 := gs[0][0], gs[1][0], gs[2][0], gs[3][0];
    var x1, x2 := Element(0x200, 0x01_0203), Element(0x11, 0x0A);
    Flat4(gs);
    XValues();
    assert xs[..1] == [xs[0]] && xs[..1][..0] == [];
    assert XElements(xs[..1]) == XElements([]) + [x1];
    assert XElements(xs) == XElements(xs[..1]) + [x2];
    assert Flatten(gs) + XElements(xs) == [] + [e1] + [e2] + [e3] + [e4] + [x1] + [x2];
    ApplyOne(map[], [], e1);
    ApplyOne(map[], [] + [e1], e2);
    ApplyOne(map[], [] + [e1] + [e2], e3);
    ApplyOne(map[], [] + [e1] + [e2] + [e3], e4);
    ApplyOne(map[], [] + [e1] + [e2] + [e3] + [e4], x1);
    ApplyOne(map[], [] + [e1] + [e2] + [e3] + [e4] + [x1], x2);
  }

  lemma OneItem(it: Item, codec: Codec, raw: seq<byte>)
    requires ItemFits(it, codec) && |EncodeItem(it, codec)| <= 1000
    ensures Decode([CodecId(codec), 1] + (EncodeItem(it, codec) + [1]), raw) ==
            Accepted([View(it.avl).(rawCodec := CodecId(codec))], raw)
  {
    hide ItemFits, EncodeItem, Decode, View;
    assert [it][1..] == [];
    assert EncodeItems([it], codec) == EncodeItem(it, codec) + EncodeItems([], codec);
    assert EncodeItems([it], codec) == EncodeItem(it, codec);
    PayloadDecodes([it], codec, raw);
    assert Tagged(Views([it]), CodecId(codec)) == [View(it.avl).(rawCodec := CodecId(codec))];
  }

  /** The vendor's example under Codec 8, and the same record under Codec 16 behind two bytes that are skipped. */
  lemma PlainPayload(raw: seq<byte>, generation: nat)
    requires generation < 0x1_0000
    ensures Decode([0x08, 0x01] + (PlainHead() + PlainGroups() + [0x01]), raw) == Accepted([PlainParsed(0x08)], raw)
    ensures Decode([0x10, 0x01] + (ToBE(generation, 2) + (PlainHead() + PlainGroups()) + [0x01]), raw) ==
            Accepted([PlainParsed(0x10)], raw)
  {
    hide AvlFits, EncodeAvl, Decode, ToBE, View, PlainHead, PlainGroups, PlainParsed;
    Pow256Values();
    PlainIs();
    PlainView();
    PlainLength();
    assert EncodeItem(Item(0, PLAIN), Codec8) == EncodeAvl(PLAIN, false);
    OneItem(Item(0, PLAIN), Codec8, raw);
    OneItem(Item(generation, PLAIN), Codec16, raw);
  }

  lemma PlainLength()
    ensures |PlainHead() + PlainGroups()| == 51
  {
  }

  /** A Codec 8E payload. */
  lemma ExtendedPayload(raw: seq<byte>)
    ensures Decode([0x8E, 0x01] + (ExtendedHead() + (ExtendedGroups() + ExtendedRest()) + [0x01]), raw) ==
            Accepted([ExtendedParsed()], raw)
  {
    hide AvlFits, EncodeAvl, Decode, View, ExtendedHead, ExtendedGroups, ExtendedRest, ExtendedParsed;
    ExtendedIs();
    ExtendedView();
    ExtendedLength();
    assert EncodeItem(Item(0, EXTENDED), Codec8E) == EncodeAvl(EXTENDED, true);
    OneItem(Item(0, EXTENDED), Codec8E, raw);
  }

  lemma ExtendedLength()
    ensures |ExtendedHead() + (ExtendedGroups() + ExtendedRest())| == 81
  {
  }
}
