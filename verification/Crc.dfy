/**
 The two bitwise CRC-16 loops: CRC-16/ARC of Teltonika packets (reflected, polynomial 0xA001, start 0)
 and CRC-16/CCITT-FALSE of GT06 packets (polynomial 0x1021, start 0xFFFF).
 */
module Crc {
  import opened Bytes

  // ----- XOR of registers: an abelian group in which everything is its own inverse -----

  function Xor(a: bv16, b: bv16): bv16 { a ^ b }

  lemma XorCommutes(a: bv16, b: bv16)
    ensures Xor(a, b) == Xor(b, a)
  {
  }

  lemma XorAssociates(a: bv16, b: bv16, c: bv16)
    ensures Xor(a, Xor(b, c)) == Xor(Xor(a, b), c)
  {
    assert a ^ (b ^ c) == (a ^ b) ^ c;
  }

  lemma XorUnits(a: bv16)
    ensures Xor(a, a) == 0 && Xor(a, 0) == a && Xor(0, a) == a
  {
  }

  lemma XorSwap(a: bv16, b: bv16, c: bv16, d: bv16)
    ensures Xor(Xor(a, b), Xor(c, d)) == Xor(Xor(a, c), Xor(b, d))
  {
    hide Xor;
    XorAssociates(a, b, Xor(c, d));
    XorAssociates(b, c, d);
    XorCommutes(b, c);
    XorAssociates(c, b, d);
    XorAssociates(a, c, Xor(b, d));
  }

  lemma XorCancel(a: bv16, b: bv16)
    requires Xor(a, b) == 0
    ensures a == b
  {
  }

  // ----- one shift, eight shifts, a whole message -----

  function Shr(c: bv16): bv16 { c >> 1 }

  function Shl(c: bv16): bv16 { c << 1 }

  predicate LowBit(c: bv16) { c & 0x0001 != 0 }

  predicate HighBit(c: bv16) { c & 0x8000 != 0 }

  function Shift(ccitt: bool, c: bv16): bv16 {
    if ccitt then
      if HighBit(c) then Xor(Shl(c), 0x1021) else Shl(c)
    else
      if LowBit(c) then Xor(Shr(c), 0xA001) else Shr(c)
  }

  function Shifts(ccitt: bool, c: bv16, n: nat): bv16 {
    if n == 0 then c else Shift(ccitt, Shifts(ccitt, c, n - 1))
  }

  /** Where a message byte enters the register: low half for ARC, high half for CCITT. */
  function Feed(ccitt: bool, b: bv8): bv16 {
    if ccitt then (b as bv16) << 8 else b as bv16
  }

  /** The register after a message, from start value `c`. */
  function Run(ccitt: bool, c: bv16, msg: seq<byte>): bv16 {
    if msg == [] then c
    else Shifts(ccitt, Xor(Run(ccitt, c, msg[..|msg| - 1]), Feed(ccitt, Bv(msg[|msg| - 1]))), 8)
  }

  function Arc(msg: seq<byte>): bv16 { Run(false, 0, msg) }

  function Ccitt(msg: seq<byte>): bv16 { Run(true, 0xFFFF, msg) }

  lemma ShiftCases(ccitt: bool, c: bv16)
    ensures !ccitt ==> Shift(ccitt, c) == if c & 0x0001 != 0 then (c >> 1) ^ 0xA001 else c >> 1
    ensures ccitt ==> Shift(ccitt, c) == if c & 0x8000 != 0 then (c << 1) ^ 0x1021 else c << 1
  {
  }

  method Crc16Ibm(data: seq<byte>) returns (crc: bv16)
    ensures crc == Arc(data)
  {
    hide Shift;
    crc := 0x0000;
    for k := 0 to |data|
      invariant crc == Run(false, 0, data[..k])
    {
      assert data[..k + 1][..k] == data[..k];
      crc := crc ^ (Bv(data[k]) as bv16);
      ghost var fed := crc;
      for i := 0 to 8
        invariant crc == Shifts(false, fed, i)
      {
        ShiftCases(false, crc);
        if crc & 0x0001 != 0 {
          crc := (crc >> 1) ^ 0xA001;
        } else {
          crc := crc >> 1;
        }
      }
    }
    assert data[..|data|] == data;
  }

  method Crc16Ccitt(data: seq<byte>) returns (crc: bv16)
    ensures crc == Ccitt(data)
  {
    hide Shift;
    crc := 0xFFFF;
    for k := 0 to |data|
      invariant crc == Run(true, 0xFFFF, data[..k])
    {
      assert data[..k + 1][..k] == data[..k];
      crc := crc ^ ((Bv(data[k]) as bv16) << 8);
      ghost var fed := crc;
      for i := 0 to 8
        invariant crc == Shifts(true, fed, i)
      {
        ShiftCases(true, crc);
        if crc & 0x8000 != 0 {
          crc := (crc << 1) ^ 0x1021;
        } else {
          crc := crc << 1;
        }
      }
    }
    assert data[..|data|] == data;
  }

  // ----- linearity -----

  function Xor8(a: bv8, b: bv8): bv8 { a ^ b }

  function MixByte(a: byte, b: byte): byte { FromBv(Xor8(Bv(a), Bv(b))) }

  /** Bytewise XOR of two messages of one length. */
  function Mix(a: seq<byte>, b: seq<byte>): (m: seq<byte>)
    requires |a| == |b|
    ensures |m| == |a|
    ensures forall i :: 0 <= i < |a| ==> m[i] == MixByte(a[i], b[i])
  {
    seq(|a|, i requires 0 <= i < |a| => MixByte(a[i], b[i]))
  }

  lemma ShrLinear(x: bv16, y: bv16)
    ensures Shr(Xor(x, y)) == Xor(Shr(x), Shr(y))
    ensures LowBit(Xor(x, y)) <==> LowBit(x) != LowBit(y)
  {
  }

  lemma ShlLinear(x: bv16, y: bv16)
    ensures Shl(Xor(x, y)) == Xor(Shl(x), Shl(y))
  {
  }

  lemma HighBitLinear(x: bv16, y: bv16)
    ensures HighBit(Xor(x, y)) <==> HighBit(x) != HighBit(y)
  {
  }

  lemma ShiftLinear(ccitt: bool, x: bv16, y: bv16)
    ensures Shift(ccitt, Xor(x, y)) == Xor(Shift(ccitt, x), Shift(ccitt, y))
  {
    hide Xor, Shr, Shl, LowBit, HighBit;
    var poly: bv16 := if ccitt then 0x1021 else 0xA001;
    var u := if ccitt then Shl(x) else Shr(x);
    var v := if ccitt then Shl(y) else Shr(y);
    ShlLinear(x, y);
    HighBitLinear(x, y);
    ShrLinear(x, y);
    XorSwap(u, poly, v, poly);
    XorUnits(poly);
    XorUnits(Xor(u, v));
    XorAssociates(u, v, poly);
    XorAssociates(u, poly, v);
    XorCommutes(poly, v);
  }

  lemma {:induction false} ShiftsLinear(ccitt: bool, x: bv16, y: bv16, n: nat)
    ensures Shifts(ccitt, Xor(x, y), n) == Xor(Shifts(ccitt, x, n), Shifts(ccitt, y, n))
  {
    hide Xor, Shift;
    if n > 0 {
      ShiftsLinear(ccitt, x, y, n - 1);
      ShiftLinear(ccitt, Shifts(ccitt, x, n - 1), Shifts(ccitt, y, n - 1));
    }
  }

  lemma FeedXor(ccitt: bool, x: bv8, y: bv8)
    ensures Feed(ccitt, Xor8(x, y)) == Xor(Feed(ccitt, x), Feed(ccitt, y))
  {
    if ccitt {
      assert ((x ^ y) as bv16) << 8 == ((x as bv16) << 8) ^ ((y as bv16) << 8);
    } else {
      assert (x ^ y) as bv16 == (x as bv16) ^ (y as bv16);
    }
  }

  lemma FeedLinear(ccitt: bool, a: byte, b: byte)
    ensures Feed(ccitt, Bv(MixByte(a, b))) == Xor(Feed(ccitt, Bv(a)), Feed(ccitt, Bv(b)))
  {
    hide Bv, FromBv, Xor8, Xor, Feed;
    BvOfFromBv(Xor8(Bv(a), Bv(b)));
    FeedXor(ccitt, Bv(a), Bv(b));
  }

  /** The register is linear over XOR, jointly in its start value and the message. */
  lemma {:induction false} RunLinear(ccitt: bool, c: bv16, d: bv16, a: seq<byte>, b: seq<byte>)
    requires |a| == |b|
    ensures Run(ccitt, Xor(c, d), Mix(a, b)) == Xor(Run(ccitt, c, a), Run(ccitt, d, b))
  {
    hide Xor, Shifts, Feed, Bv, MixByte;
    if a != [] {
      var n := |a| - 1;
      var x, y := Run(ccitt, c, a[..n]), Run(ccitt, d, b[..n]);
      var f, g := Feed(ccitt, Bv(a[n])), Feed(ccitt, Bv(b[n]));
      RunLinear(ccitt, c, d, a[..n], b[..n]);
      assert Mix(a, b)[..n] == Mix(a[..n], b[..n]);
      FeedLinear(ccitt, a[n], b[n]);
      XorSwap(x, y, f, g);
      ShiftsLinear(ccitt, Xor(x, f), Xor(y, g), 8);
    }
  }

  lemma ArcLinear(a: seq<byte>, b: seq<byte>)
    requires |a| == |b|
    ensures Arc(Mix(a, b)) == Xor(Arc(a), Arc(b))
  {
    hide Run, Xor;
    RunLinear(false, 0, 0, a, b);
    XorUnits(0);
  }

  /** With its 0xFFFF start CCITT is affine: any three messages of one length. */
  lemma CcittAffine(a: seq<byte>, b: seq<byte>, c: seq<byte>)
    requires |a| == |b| == |c|
    ensures Ccitt(Mix(Mix(a, b), c)) == Xor(Xor(Ccitt(a), Ccitt(b)), Ccitt(c))
  {
    hide Run, Xor;
    RunLinear(true, 0xFFFF, 0xFFFF, a, b);
    RunLinear(true, Xor(0xFFFF, 0xFFFF), 0xFFFF, Mix(a, b), c);
    XorUnits(0xFFFF);
  }

  // ----- a message followed by its own CRC leaves zero -----

  function LoBits(c: bv16): bv8 { (c & 0xFF) as bv8 }

  function HiBits(c: bv16): bv8 { (c >> 8) as bv8 }

  function Lo(c: bv16): byte { FromBv(LoBits(c)) }

  function Hi(c: bv16): byte { FromBv(HiBits(c)) }

  lemma HalvesJoin(c: bv16)
    ensures ((HiBits(c) as bv16) << 8) | (LoBits(c) as bv16) == c
  {
    assert (((c >> 8) as bv8 as bv16) << 8) | ((c & 0xFF) as bv8 as bv16) == c;
  }

  lemma JoinedIs(h: bv8, l: bv8)
    ensures (((h as bv16) << 8) | (l as bv16)) as int == h as int * 256 + l as int
  {
  }

  /** The register as a number is its two bytes, the high one first. */
  lemma Halves(c: bv16)
    ensures Hi(c) as int * 256 + Lo(c) as int == c as int
  {
    hide HiBits, LoBits;
    HalvesJoin(c);
    JoinedIs(HiBits(c), LoBits(c));
  }

  lemma RunAppend(ccitt: bool, c: bv16, msg: seq<byte>, b: byte)
    ensures Run(ccitt, c, msg + [b]) == Shifts(ccitt, Xor(Run(ccitt, c, msg), Feed(ccitt, Bv(b))), 8)
  {
    hide Shifts, Xor, Feed, Bv;
    assert (msg + [b])[..|msg|] == msg;
  }

  lemma {:induction false} ShiftsZero(ccitt: bool, n: nat)
    ensures Shifts(ccitt, 0, n) == 0
  {
    if n > 0 { ShiftsZero(ccitt, n - 1); }
  }

  lemma EightShifts(ccitt: bool, c: bv16)
    ensures Shifts(ccitt, c, 8) ==
            Shift(ccitt, Shift(ccitt, Shift(ccitt, Shift(ccitt,
            Shift(ccitt, Shift(ccitt, Shift(ccitt, Shift(ccitt, c))))))))
  {
    hide Shift;
    assert Shifts(ccitt, c, 6) == Shift(ccitt, Shift(ccitt, Shifts(ccitt, c, 4)));
    assert Shifts(ccitt, c, 3) == Shift(ccitt, Shift(ccitt, Shifts(ccitt, c, 1)));
  }

  /** Eight shifts move the half that is not zero across the register. */
  lemma ShiftsMove(ccitt: bool, c: bv16)
    requires if ccitt then c & 0xFF00 == 0 else c & 0xFF == 0
    ensures Shifts(ccitt, c, 8) == if ccitt then c << 8 else c >> 8
  {
    EightShifts(ccitt, c);
  }

  /** Feeding a register its own first-out byte clears one half, and leaves the byte fed next. */
  lemma FeedOwnLow(c: bv16)
    ensures Xor(c, Feed(false, LoBits(c))) & 0xFF == 0
    ensures Xor(c, Feed(false, LoBits(c))) >> 8 == Feed(false, HiBits(c))
  {
    assert (c ^ (((c & 0xFF) as bv8) as bv16)) >> 8 == ((c >> 8) as bv8) as bv16;
  }

  lemma FeedOwnHigh(c: bv16)
    ensures Xor(c, Feed(true, HiBits(c))) & 0xFF00 == 0
    ensures Xor(c, Feed(true, HiBits(c))) << 8 == Feed(true, LoBits(c))
  {
    assert (c ^ ((((c >> 8) as bv8) as bv16) << 8)) << 8 == (((c & 0xFF) as bv8) as bv16) << 8;
  }

  lemma OwnBytes(ccitt: bool, c: bv16, msg: seq<byte>, first: byte, second: byte)
    requires first == if ccitt then Hi(Run(ccitt, c, msg)) else Lo(Run(ccitt, c, msg))
    requires second == if ccitt then Lo(Run(ccitt, c, msg)) else Hi(Run(ccitt, c, msg))
    ensures Run(ccitt, c, msg + [first, second]) == 0
  {
    hide Shifts, Feed, LoBits, HiBits, Run, Xor, Bv, FromBv;
    var r := Run(ccitt, c, msg);
    assert msg + [first, second] == (msg + [first]) + [second];
    RunAppend(ccitt, c, msg, first);
    RunAppend(ccitt, c, msg + [first], second);
    BvOfFromBv(LoBits(r));
    BvOfFromBv(HiBits(r));
    FeedOwnLow(r);
    FeedOwnHigh(r);
    ShiftsMove(ccitt, Xor(r, Feed(ccitt, Bv(first))));
    XorUnits(Feed(ccitt, Bv(second)));
    ShiftsZero(ccitt, 8);
  }

  lemma ArcResidue(msg: seq<byte>)
    ensures Arc(msg + [Lo(Arc(msg)), Hi(Arc(msg))]) == 0
  {
    hide Run, Lo, Hi;
    OwnBytes(false, 0, msg, Lo(Arc(msg)), Hi(Arc(msg)));
  }

  lemma CcittResidue(msg: seq<byte>)
    ensures Ccitt(msg + [Hi(Ccitt(msg)), Lo(Ccitt(msg))]) == 0
  {
    hide Run, Lo, Hi;
    OwnBytes(true, 0xFFFF, msg, Hi(Ccitt(msg)), Lo(Ccitt(msg)));
  }

  // ----- messages of zeros -----

  lemma ZeroByte(ccitt: bool)
    ensures Bv(0) == 0 && FromBv(0) == 0 && Feed(ccitt, 0) == 0
  {
  }

  /** While the bytes of `d` are zero the register stays zero. */
  lemma {:induction false} RunOfZeros(ccitt: bool, d: seq<byte>, k: nat)
    requires k <= |d| && forall i :: 0 <= i < k ==> d[i] == 0
    ensures Run(ccitt, 0, d[..k]) == 0
  {
    hide Shifts, Feed, Xor, Bv;
    if k > 0 {
      RunOfZeros(ccitt, d, k - 1);
      assert d[..k][..k - 1] == d[..k - 1];
      ZeroByte(ccitt);
      XorUnits(0);
      ShiftsZero(ccitt, 8);
    }
  }

  // ----- the catalogued check values pin both polynomials -----

  function Digits(n: nat): (s: seq<byte>)
    requires n <= 9
    ensures |s| == n && forall i :: 0 <= i < n ==> s[i] == 0x31 + i
  {
    seq(n, i requires 0 <= i < n => 0x31 + i)
  }

  /** The register after one more byte. */
  function Next(ccitt: bool, c: bv16, b: bv8): bv16 {
    Shift(ccitt, Shift(ccitt, Shift(ccitt, Shift(ccitt,
    Shift(ccitt, Shift(ccitt, Shift(ccitt, Shift(ccitt, Xor(c, Feed(ccitt, b))))))))))
  }

  lemma DigitStep(ccitt: bool, start: bv16, n: nat, digit: bv8)
    requires n < 9 && Bv(0x31 + n) == digit
    ensures Run(ccitt, start, Digits(n + 1)) == Next(ccitt, Run(ccitt, start, Digits(n)), digit)
  {
    hide Shifts, Shift, Xor, Feed, Bv, Run;
    RunAppend(ccitt, start, Digits(n), 0x31 + n);
    assert Digits(n + 1) == Digits(n) + [0x31 + n];
    EightShifts(ccitt, Xor(Run(ccitt, start, Digits(n)), Feed(ccitt, digit)));
  }

  lemma ArcTrace()
    ensures Next(false, 0, 0x31) == 0xD4C1
    ensures Next(false, 0xD4C1, 0x32) == 0x4594
    ensures Next(false, 0x4594, 0x33) == 0xBA04
    ensures Next(false, 0xBA04, 0x34) == 0x14BA
    ensures Next(false, 0x14BA, 0x35) == 0xA455
    ensures Next(false, 0xA455, 0x36) == 0x29E4
    ensures Next(false, 0x29E4, 0x37) == 0x9D68
    ensures Next(false, 0x9D68, 0x38) == 0x3C9D
    ensures Next(false, 0x3C9D, 0x39) == 0xBB3D
  {
  }

  lemma CcittTrace()
    ensures Next(true, 0xFFFF, 0x31) == 0xC782
    ensures Next(true, 0xC782, 0x32) == 0x3DBA
    ensures Next(true, 0x3DBA, 0x33) == 0x5BCE
    ensures Next(true, 0x5BCE, 0x34) == 0x5349
    ensures Next(true, 0x5349, 0x35) == 0x4560
    ensures Next(true, 0x4560, 0x36) == 0x2EF4
    ensures Next(true, 0x2EF4, 0x37) == 0x7718
    ensures Next(true, 0x7718, 0x38) == 0xA12B
    ensures Next(true, 0xA12B, 0x39) == 0x29B1
  {
  }

  lemma DigitBits()
    ensures Bv(0x31) == 0x31 && Bv(0x32) == 0x32 && Bv(0x33) == 0x33 && Bv(0x34) == 0x34 && Bv(0x35) == 0x35
    ensures Bv(0x36) == 0x36 && Bv(0x37) == 0x37 && Bv(0x38) == 0x38 && Bv(0x39) == 0x39
  {
  }

  /** CRC-16/ARC and CRC-16/CCITT-FALSE of "123456789" are the catalogued 0xBB3D and 0x29B1. */
  lemma CheckValues()
    ensures Arc(Digits(9)) == 0xBB3D
    ensures Ccitt(Digits(9)) == 0x29B1
  {
    hide Next, Bv;
    DigitBits();
    ArcTrace();
    CcittTrace();
    assert Digits(0) == [];
    assert Run(false, 0, Digits(0)) == 0 && Run(true, 0xFFFF, Digits(0)) == 0xFFFF;
    DigitStep(false, 0, 0, 0x31); DigitStep(true, 0xFFFF, 0, 0x31);
    DigitStep(false, 0, 1, 0x32); DigitStep(true, 0xFFFF, 1, 0x32);
    DigitStep(false, 0, 2, 0x33); DigitStep(true, 0xFFFF, 2, 0x33);
    DigitStep(false, 0, 3, 0x34); DigitStep(true, 0xFFFF, 3, 0x34);
    DigitStep(false, 0, 4, 0x35); DigitStep(true, 0xFFFF, 4, 0x35);
    DigitStep(false, 0, 5, 0x36); DigitStep(true, 0xFFFF, 5, 0x36);
    DigitStep(false, 0, 6, 0x37); DigitStep(true, 0xFFFF, 6, 0x37);
    DigitStep(false, 0, 7, 0x38); DigitStep(true, 0xFFFF, 7, 0x38);
    DigitStep(false, 0, 8, 0x39); DigitStep(true, 0xFFFF, 8, 0x39);
  }
}
