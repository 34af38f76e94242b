/** GT06 packets: the response the server builds and the reader it uses on what devices send. */
module Gt06 {
  import opened Bytes
  import opened Crc
  import opened CrcBursts

  datatype Packet = Packet(proto: byte, info: seq<byte>, serial: bv16, raw: seq<byte>)

  /** `Panic` is a slice out of range in the reader. */
  datatype ReadError = NoStart | BadStart | NoLength | NoBody | NoStop | CrcMismatch | Panic

  datatype Result = Ok(packet: Packet) | Err(error: ReadError)

  /** Two bytes, high one first, as a register. */
  function Word(hi: byte, lo: byte): bv16 { ((Bv(hi) as bv16) << 8) | (Bv(lo) as bv16) }

  lemma WordOfHalves(c: bv16)
    ensures Word(Hi(c), Lo(c)) == c
  {
    hide Bv, FromBv, HiBits, LoBits;
    BvOfFromBv(HiBits(c));
    BvOfFromBv(LoBits(c));
    HalvesJoin(c);
  }

  /** proto, data and serial: what the CRC of a response covers. */
  function Covered(proto: byte, serial: bv16, data: seq<byte>): seq<byte> {
    [proto] + data + [Hi(serial), Lo(serial)]
  }

  function Response(proto: byte, serial: bv16, data: seq<byte>): seq<byte> {
    var covered := Covered(proto, serial, data);
    var crc := Ccitt(covered);
    [0x78, 0x78, (5 + |data|) % 256] + (covered + [Hi(crc), Lo(crc)]) + [0x0D, 0x0A]
  }

  method BuildResponse(proto: byte, serial: bv16, data: seq<byte>) returns (pkt: seq<byte>)
    ensures pkt == Response(proto, serial, data)
  {
    hide Run, Hi, Lo;
    var length := (5 + |data|) % 256;
    var body := [proto];
    body := body + data;
    body := body + [Hi(serial), Lo(serial)];
    var crc := Crc16Ccitt(body);
    body := body + [Hi(crc), Lo(crc)];
    pkt := [0x78, 0x78, length];
    pkt := pkt + body;
    pkt := pkt + [0x0D, 0x0A];
  }

  /** What the reader makes of a body of `n` bytes: it compares the bytes n-4, n-3 with the CRC of what precedes. */
  function Checked(body: seq<byte>, raw: seq<byte>): Result {
    var n := |body|;
    if n < 4 then Err(Panic)
    else if Word(body[n - 4], body[n - 3]) != Ccitt(body[..n - 4]) then Err(CrcMismatch)
    else if n == 4 then Err(Panic)
    else Ok(Packet(body[0], body[1..n - 4], Word(body[n - 4], body[n - 3]), raw))
  }

  function PacketFrom(s: seq<byte>): (Result, seq<byte>) {
    if |s| < 2 then (Err(NoStart), [])
    else if s[0] != 0x78 || s[1] != 0x78 then (Err(BadStart), s[2..])
    else if |s| < 3 then (Err(NoLength), [])
    else
      var n: nat := s[2];
      if |s| < 3 + n then (Err(NoBody), [])
      else if |s| < 5 + n then (Err(NoStop), [])
      else (Checked(s[3..3 + n], s[..5 + n]), s[5 + n..])
  }

  method ReadPacket(conn: Conn) returns (r: Result)
    modifies conn
    ensures (r, conn.unread) == PacketFrom(old(conn.unread))
  {
    hide Run, Word;
    ghost var s := conn.unread;
    var start := conn.ReadFull(2);
    if start.None? {
      return Err(NoStart);
    }
    if start.value[0] != 0x78 || start.value[1] != 0x78 {
      return Err(BadStart);
    }
    var lengthByte := conn.ReadFull(1);
    if lengthByte.None? {
      return Err(NoLength);
    }
    var length := lengthByte.value[0];
    assert s[2..][1..] == s[3..];
    var got := conn.ReadFull(length);
    if got.None? {
      return Err(NoBody);
    }
    var body := got.value;
    assert s[3..][length..] == s[3 + length..] && s[3..][..length] == s[3..3 + length];
    var stop := conn.ReadFull(2);
    if stop.None? {
      return Err(NoStop);
    }
    assert s[3 + length..][2..] == s[5 + length..];
    var n := |body|;
    if n < 4 {
      return Err(Panic);
    }
    var expected := Word(body[n - 4], body[n - 3]);
    var actual := Crc16Ccitt(body[..n - 4]);
    if expected != actual {
      return Err(CrcMismatch);
    }
    if n == 4 {
      return Err(Panic);
    }
    var raw := [0x78, 0x78, length] + (body + stop.value);
    assert raw == s[..5 + length];
    r := Ok(Packet(body[0], body[1..n - 4], expected, raw));
  }

  // ----- where the reader indexes out of range -----

  lemma AllOnes(hi: byte, lo: byte)
    ensures Word(hi, lo) == 0xFFFF <==> hi == 0xFF && lo == 0xFF
  {
    hide Bv, FromBv;
    BvOfByte(hi);
    BvOfByte(lo);
    OnesOfHalves(Bv(hi), Bv(lo));
    ByteOfOnes();
  }

  lemma OnesOfHalves(hi: bv8, lo: bv8)
    ensures ((hi as bv16) << 8) | (lo as bv16) == 0xFFFF <==> hi == 0xFF && lo == 0xFF
  {
  }

  lemma ByteOfOnes()
    ensures FromBv(0xFF) == 0xFF && Bv(0xFF) == 0xFF
  {
  }

  /**
   The reader panics exactly on complete packets that declare fewer than four bytes, or four bytes of which the first two,
   taken for the CRC of the empty string, are 0xFFFF.
   */
  lemma PanicsExactly(s: seq<byte>)
    ensures PacketFrom(s).0 == Err(Panic) <==>
            && |s| >= 3 && s[0] == 0x78 && s[1] == 0x78 && |s| >= 5 + s[2] as int
            && (s[2] < 4 || (s[2] == 4 && s[3] == 0xFF && s[4] == 0xFF))
  {
    hide Word;
    if |s| >= 9 && s[2] == 4 {
      var body := s[3..7];
      assert body[0] == s[3] && body[1] == s[4] && body[..0] == [];
      assert Ccitt([]) == 0xFFFF;
      AllOnes(s[3], s[4]);
    }
  }

  /** An empty packet, and a four-byte one. */
  lemma PanickingPackets()
    ensures PacketFrom([0x78, 0x78, 0, 0x0D, 0x0A]).0 == Err(Panic)
    ensures PacketFrom([0x78, 0x78, 4, 0xFF, 0xFF, 0, 0, 0x0D, 0x0A]).0 == Err(Panic)
  {
    hide PacketFrom;
    PanicsExactly([0x78, 0x78, 0, 0x0D, 0x0A]);
    PanicsExactly([0x78, 0x78, 4, 0xFF, 0xFF, 0, 0, 0x0D, 0x0A]);
  }

  // ----- what the reader makes of the server's own responses -----

  lemma ResponseBody(proto: byte, serial: bv16, data: seq<byte>, tail: seq<byte>)
    requires |data| <= 250
    ensures var covered := Covered(proto, serial, data);
            var body := covered + [Hi(Ccitt(covered)), Lo(Ccitt(covered))];
            PacketFrom(Response(proto, serial, data) + tail) == (Checked(body, Response(proto, serial, data)), tail)
  {
    hide Run, Hi, Lo, Checked;
    var covered := Covered(proto, serial, data);
    var body := covered + [Hi(Ccitt(covered)), Lo(Ccitt(covered))];
    var s := Response(proto, serial, data) + tail;
    assert |body| == 5 + |data| && s[2] == |body|;
    assert s[3..3 + |body|] == body && s[5 + |body|..] == tail && s[..5 + |body|] == Response(proto, serial, data);
  }

  /**
   The reader recovers proto, data and serial from the server's own response if and only if the serial happens to be
   the CRC of proto and data; otherwise it reports a CRC mismatch. Either way it consumes exactly the response.
   */
  lemma ReadsOwnResponse(proto: byte, serial: bv16, data: seq<byte>, tail: seq<byte>)
    requires |data| <= 250
    ensures var (r, rest) := PacketFrom(Response(proto, serial, data) + tail);
            && rest == tail
            && (r.Ok? <==> serial == Ccitt([proto] + data))
            && (r.Ok? ==> r.packet == Packet(proto, data, serial, Response(proto, serial, data)))
            && (!r.Ok? ==> r == Err(CrcMismatch))
  {
    hide Run, Hi, Lo, Word, Response;
    ResponseBody(proto, serial, data, tail);
    var covered := Covered(proto, serial, data);
    var body := covered + [Hi(Ccitt(covered)), Lo(Ccitt(covered))];
    var n := |body|;
    assert body[..n - 4] == [proto] + data && body[n - 4] == Hi(serial) && body[n - 3] == Lo(serial);
    assert body[1..n - 4] == data;
    WordOfHalves(serial);
  }

  /** A response that the reader refuses: a login acknowledgement with serial 1. */
  lemma RefusedResponse()
    ensures PacketFrom(Response(0x01, 1, [])).0 == Err(CrcMismatch)
  {
    hide Run, Response, PacketFrom;
    ReadsOwnResponse(0x01, 1, [], []);
    assert Response(0x01, 1, []) + [] == Response(0x01, 1, []);
    LoginCrc();
    assert [0x01] + [] == [0x01 as byte];
  }

  lemma LoginCrc()
    ensures Ccitt([0x01]) != 1
  {
    RunAppend(true, 0xFFFF, [], 0x01);
    assert [] + [0x01] == [0x01 as byte];
    EightShifts(true, Xor(0xFFFF, Feed(true, 0x01)));
    assert Bv(0x01) == 0x01;
  }

  /** The response is nevertheless right by the documented layout: its CRC covers proto, data and serial. */
  lemma ResponseFollowsLayout(proto: byte, serial: bv16, data: seq<byte>)
    ensures var w, n := Response(proto, serial, data), |data|;
            && |w| == 10 + n && w[0] == 0x78 && w[1] == 0x78 && w[2] == (5 + n) % 256
            && w[3] == proto && w[4..4 + n] == data
            && w[4 + n] as int * 256 + w[5 + n] as int == serial as int
            && Ccitt(w[3..8 + n]) == 0
            && w[8 + n] == 0x0D && w[9 + n] == 0x0A
  {
    hide Run, Hi, Lo, Word;
    var covered := Covered(proto, serial, data);
    Halves(serial);
    CcittResidue(covered);
    assert Response(proto, serial, data)[3..8 + |data|] == covered + [Hi(Ccitt(covered)), Lo(Ccitt(covered))];
  }

  // ----- the reader in terms of bytes -----

  lemma WordIs(hi: byte, lo: byte)
    ensures Word(hi, lo) as int == hi as int * 256 + lo as int
    ensures Word(hi, lo) == Word(Hi(Word(hi, lo)), Lo(Word(hi, lo)))
  {
    hide Bv, Hi, Lo;
    BvOfByte(hi);
    BvOfByte(lo);
    JoinedIs(Bv(hi), Bv(lo));
    WordOfHalves(Word(hi, lo));
  }

  lemma SameWord(hi: byte, lo: byte, c: bv16)
    ensures Word(hi, lo) == c <==> hi == Hi(c) && lo == Lo(c)
  {
    hide Word, Hi, Lo;
    WordOfHalves(c);
    WordIs(hi, lo);
    Halves(c);
  }

  lemma MiddleOf(s: seq<byte>, n: nat)
    requires 4 < n && |s| >= 3 + n
    ensures s[3..3 + n][1..n - 4] == s[4..n - 1]
  {
    var x, y := s[3..3 + n][1..n - 4], s[4..n - 1];
    assert |x| == |y| && forall i :: 0 <= i < |x| ==> x[i] == y[i];
  }

  /** All of a packet has arrived. */
  predicate Complete(s: seq<byte>) { |s| >= 3 && s[0] == 0x78 && s[1] == 0x78 && |s| >= 5 + s[2] as int }

  /**
   A complete packet is accepted exactly if it declares more than four bytes and CRC-16/CCITT-FALSE over all of them but the
   last two is zero; then proto, data and serial stand at these places, and exactly the packet is consumed.
   */
  lemma AcceptedExactly(s: seq<byte>)
    requires Complete(s)
    ensures var (r, rest) := PacketFrom(s);
            var n: nat := s[2];
            && rest == s[5 + n..]
            && (r.Ok? <==> n > 4 && Ccitt(s[3..1 + n]) == 0)
            && (r == Err(CrcMismatch) <==> n >= 4 && Ccitt(s[3..1 + n]) != 0)
            && (r.Ok? ==> && r.packet.proto == s[3] && r.packet.info == s[4..n - 1] && r.packet.raw == s[..5 + n]
                          && r.packet.serial as int == s[n - 1] as int * 256 + s[n] as int)
  {
    hide Run, Word, Hi, Lo;
    var n: nat := s[2];
    if n >= 4 {
      var body := s[3..3 + n];
      var c := Ccitt(body[..n - 4]);
      assert s[3..1 + n] == body[..n - 4] + [body[n - 4], body[n - 3]];
      ResidueExactly(true, 0xFFFF, body[..n - 4], body[n - 4], body[n - 3]);
      SameWord(body[n - 4], body[n - 3], c);
      WordIs(body[n - 4], body[n - 3]);
      assert body[n - 4] == s[n - 1] && body[n - 3] == s[n];
      if n > 4 { MiddleOf(s, n); }
    }
  }

  /** Anything else is refused for what is missing first. */
  lemma RefusedEarly(s: seq<byte>)
    requires !Complete(s)
    ensures PacketFrom(s) ==
            if |s| < 2 then (Err(NoStart), [])
            else if s[..2] != [0x78, 0x78] then (Err(BadStart), s[2..])
            else if |s| == 2 then (Err(NoLength), [])
            else if |s| < 3 + s[2] as int then (Err(NoBody), [])
            else (Err(NoStop), [])
  {
    hide Checked;
    if |s| >= 2 { assert s[..2] == [s[0], s[1]]; }
  }
}
