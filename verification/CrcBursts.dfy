/**
 Which errors the two CRC loops detect. A message is the sequence of its bits in transmission order (low bit of each byte
 first for ARC, high bit first for CCITT); any two messages of one length that differ only within 16 consecutive bits have
 different CRCs, and 17 bits are too many.
 */
module CrcBursts {
  import opened Bytes
  import opened Crc

  // ----- messages as bits -----

  const HIGH_FIRST: seq<bv8> := [0x80, 0x40, 0x20, 0x10, 0x08, 0x04, 0x02, 0x01]
  const LOW_FIRST: seq<bv8> := [0x01, 0x02, 0x04, 0x08, 0x10, 0x20, 0x40, 0x80]

  /** The bit of a byte that is sent as number `j`. */
  predicate BitOf(ccitt: bool, b: bv8, j: nat)
    requires j < 8
  {
    b & (if ccitt then HIGH_FIRST[j] else LOW_FIRST[j]) != 0
  }

  /** The bits of a message in transmission order. */
  function Bits(ccitt: bool, msg: seq<byte>): (bits: seq<bool>)
    ensures |bits| == 8 * |msg|
  {
    seq(8 * |msg|, p requires 0 <= p < 8 * |msg| => BitOf(ccitt, Bv(msg[p / 8]), p % 8))
  }

  lemma BitAt(ccitt: bool, msg: seq<byte>, i: nat, j: nat)
    requires i < |msg| && j < 8
    ensures 8 * i + j < 8 * |msg| && Bits(ccitt, msg)[8 * i + j] == BitOf(ccitt, Bv(msg[i]), j)
  {
    hide BitOf, Bv;
  }

  function ByteBits(ccitt: bool, b: bv8): (bits: seq<bool>)
    ensures |bits| == 8 && forall j :: 0 <= j < 8 ==> bits[j] == BitOf(ccitt, b, j)
  {
    seq(8, j requires 0 <= j < 8 => BitOf(ccitt, b, j))
  }

  lemma BitsAppend(ccitt: bool, msg: seq<byte>, b: byte)
    ensures Bits(ccitt, msg + [b]) == Bits(ccitt, msg) + ByteBits(ccitt, Bv(b))
  {
    hide BitOf, Bv;
    var n, all := |msg|, Bits(ccitt, msg + [b]);
    forall p | 0 <= p < 8 * (n + 1) ensures all[p] == (Bits(ccitt, msg) + ByteBits(ccitt, Bv(b)))[p] {
      var i, j := p / 8, p % 8;
      assert p == 8 * i + j;
      BitAt(ccitt, msg + [b], i, j);
      if i < n { BitAt(ccitt, msg, i, j); }
    }
  }

  lemma MasksDecide(a: bv8, b: bv8)
    requires (a & 0x80 != 0 <==> b & 0x80 != 0) && (a & 0x40 != 0 <==> b & 0x40 != 0)
    requires (a & 0x20 != 0 <==> b & 0x20 != 0) && (a & 0x10 != 0 <==> b & 0x10 != 0)
    requires (a & 0x08 != 0 <==> b & 0x08 != 0) && (a & 0x04 != 0 <==> b & 0x04 != 0)
    requires (a & 0x02 != 0 <==> b & 0x02 != 0) && (a & 0x01 != 0 <==> b & 0x01 != 0)
    ensures a == b
  {
  }

  lemma HighMasks(b: bv8)
    ensures (BitOf(true, b, 0) <==> b & 0x80 != 0) && (BitOf(true, b, 1) <==> b & 0x40 != 0)
    ensures (BitOf(true, b, 2) <==> b & 0x20 != 0) && (BitOf(true, b, 3) <==> b & 0x10 != 0)
    ensures (BitOf(true, b, 4) <==> b & 0x08 != 0) && (BitOf(true, b, 5) <==> b & 0x04 != 0)
    ensures (BitOf(true, b, 6) <==> b & 0x02 != 0) && (BitOf(true, b, 7) <==> b & 0x01 != 0)
  {
  }

  lemma LowMasks(b: bv8)
    ensures (BitOf(false, b, 0) <==> b & 0x01 != 0) && (BitOf(false, b, 1) <==> b & 0x02 != 0)
    ensures (BitOf(false, b, 2) <==> b & 0x04 != 0) && (BitOf(false, b, 3) <==> b & 0x08 != 0)
    ensures (BitOf(false, b, 4) <==> b & 0x10 != 0) && (BitOf(false, b, 5) <==> b & 0x20 != 0)
    ensures (BitOf(false, b, 6) <==> b & 0x40 != 0) && (BitOf(false, b, 7) <==> b & 0x80 != 0)
  {
  }

  lemma BitsAgree(ccitt: bool, a: bv8, b: bv8)
    requires forall j :: 0 <= j < 8 ==> (BitOf(ccitt, a, j) <==> BitOf(ccitt, b, j))
    ensures (BitOf(ccitt, a, 0) <==> BitOf(ccitt, b, 0)) && (BitOf(ccitt, a, 1) <==> BitOf(ccitt, b, 1))
    ensures (BitOf(ccitt, a, 2) <==> BitOf(ccitt, b, 2)) && (BitOf(ccitt, a, 3) <==> BitOf(ccitt, b, 3))
    ensures (BitOf(ccitt, a, 4) <==> BitOf(ccitt, b, 4)) && (BitOf(ccitt, a, 5) <==> BitOf(ccitt, b, 5))
    ensures (BitOf(ccitt, a, 6) <==> BitOf(ccitt, b, 6)) && (BitOf(ccitt, a, 7) <==> BitOf(ccitt, b, 7))
  {
    hide BitOf;
  }

  lemma BitsDecide(a: bv8, b: bv8, ccitt: bool)
    requires forall j :: 0 <= j < 8 ==> (BitOf(ccitt, a, j) <==> BitOf(ccitt, b, j))
    ensures a == b
  {
    hide BitOf;
    if ccitt {
      HighMasks(a);
      HighMasks(b);
      BitsAgree(true, a, b);
    } else {
      LowMasks(a);
      LowMasks(b);
      BitsAgree(false, a, b);
    }
    MasksDecide(a, b);
  }

  lemma BitsInjective(ccitt: bool, a: seq<byte>, b: seq<byte>)
    requires |a| == |b| && Bits(ccitt, a) == Bits(ccitt, b)
    ensures a == b
  {
    hide BitOf, Bv;
    forall i | 0 <= i < |a| ensures a[i] == b[i] {
      forall j | 0 <= j < 8 ensures BitOf(ccitt, Bv(a[i]), j) == BitOf(ccitt, Bv(b[i]), j) {
        BitAt(ccitt, a, i, j);
        BitAt(ccitt, b, i, j);
      }
      BitsDecide(Bv(a[i]), Bv(b[i]), ccitt);
      BvInjective(a[i], b[i]);
    }
  }

  // ----- the register bit by bit -----

  /** Where a message bit enters the register. */
  function FeedBit(ccitt: bool, bit: bool): bv16 { if !bit then 0 else if ccitt then 0x8000 else 0x0001 }

  function RunBits(ccitt: bool, c: bv16, bits: seq<bool>): bv16 {
    if bits == [] then c
    else Shift(ccitt, Xor(RunBits(ccitt, c, bits[..|bits| - 1]), FeedBit(ccitt, bits[|bits| - 1])))
  }

  lemma {:induction false} RunBitsSplit(ccitt: bool, c: bv16, a: seq<bool>, b: seq<bool>)
    ensures RunBits(ccitt, c, a + b) == RunBits(ccitt, RunBits(ccitt, c, a), b)
  {
    hide Shift, Xor, FeedBit;
    if b == [] {
      assert a + b == a;
    } else {
      var n := |b| - 1;
      RunBitsSplit(ccitt, c, a, b[..n]);
      assert (a + b)[..|a + b| - 1] == a + b[..n];
    }
  }

  lemma RunBitsFirst(ccitt: bool, c: bv16, bits: seq<bool>)
    requires bits != []
    ensures RunBits(ccitt, c, bits) == RunBits(ccitt, Shift(ccitt, Xor(c, FeedBit(ccitt, bits[0]))), bits[1..])
  {
    hide Shift, Xor, FeedBit;
    assert bits == [bits[0]] + bits[1..];
    assert [bits[0]][..0] == [];
    assert RunBits(ccitt, c, [bits[0]]) == Shift(ccitt, Xor(RunBits(ccitt, c, []), FeedBit(ccitt, bits[0])));
    RunBitsSplit(ccitt, c, [bits[0]], bits[1..]);
  }

  /** The bit about to leave the register. */
  predicate Out(ccitt: bool, c: bv16) { if ccitt then HighBit(c) else LowBit(c) }

  function Move(ccitt: bool, c: bv16): bv16 { if ccitt then Shl(c) else Shr(c) }

  /** A byte without the first bit sent, the next one in its place. */
  function Sent(ccitt: bool, b: bv8): bv8 { if ccitt then b << 1 else b >> 1 }

  /** What is left of a byte after `j` bits. */
  function Rest(ccitt: bool, b: bv8, j: nat): bv8 { if j == 0 then b else Sent(ccitt, Rest(ccitt, b, j - 1)) }

  lemma FeedOfSent(ccitt: bool, b: bv8)
    ensures Feed(ccitt, Sent(ccitt, b)) == Move(ccitt, Feed(ccitt, b))
    ensures Out(ccitt, Feed(ccitt, b)) <==> BitOf(ccitt, b, 0)
    ensures Feed(ccitt, 0) == 0
  {
    if ccitt {
      assert ((b << 1) as bv16) << 8 == ((b as bv16) << 8) << 1;
    } else {
      assert (b >> 1) as bv16 == (b as bv16) >> 1;
    }
  }

  lemma BitOfSent(ccitt: bool, b: bv8, j: nat)
    requires j < 7
    ensures BitOf(ccitt, Sent(ccitt, b), j) <==> BitOf(ccitt, b, j + 1)
  {
    HighOfSent(b);
    LowOfSent(b);
  }

  lemma HighOfSent(b: bv8)
    ensures ((b << 1) & 0x80 != 0 <==> b & 0x40 != 0) && ((b << 1) & 0x40 != 0 <==> b & 0x20 != 0)
    ensures ((b << 1) & 0x20 != 0 <==> b & 0x10 != 0) && ((b << 1) & 0x10 != 0 <==> b & 0x08 != 0)
    ensures ((b << 1) & 0x08 != 0 <==> b & 0x04 != 0) && ((b << 1) & 0x04 != 0 <==> b & 0x02 != 0)
    ensures (b << 1) & 0x02 != 0 <==> b & 0x01 != 0
  {
  }

  lemma LowOfSent(b: bv8)
    ensures ((b >> 1) & 0x01 != 0 <==> b & 0x02 != 0) && ((b >> 1) & 0x02 != 0 <==> b & 0x04 != 0)
    ensures ((b >> 1) & 0x04 != 0 <==> b & 0x08 != 0) && ((b >> 1) & 0x08 != 0 <==> b & 0x10 != 0)
    ensures ((b >> 1) & 0x10 != 0 <==> b & 0x20 != 0) && ((b >> 1) & 0x20 != 0 <==> b & 0x40 != 0)
    ensures (b >> 1) & 0x40 != 0 <==> b & 0x80 != 0
  {
  }

  lemma {:induction false} BitOfRest(ccitt: bool, b: bv8, j: nat, i: nat)
    requires i + j < 8
    ensures BitOf(ccitt, Rest(ccitt, b, j), i) <==> BitOf(ccitt, b, i + j)
    decreases j
  {
    hide BitOf, Sent;
    if j > 0 {
      BitOfSent(ccitt, Rest(ccitt, b, j - 1), i);
      BitOfRest(ccitt, b, j - 1, i + 1);
    }
  }

  lemma AllSent(b: bv8)
    ensures (((((((b << 1) << 1) << 1) << 1) << 1) << 1) << 1) << 1 == 0
    ensures (((((((b >> 1) >> 1) >> 1) >> 1) >> 1) >> 1) >> 1) >> 1 == 0
  {
  }

  lemma TwoMore(ccitt: bool, b: bv8, j: nat)
    ensures Rest(ccitt, b, j + 2) == Sent(ccitt, Sent(ccitt, Rest(ccitt, b, j)))
  {
    hide Sent;
  }

  lemma NothingLeft(ccitt: bool, b: bv8)
    ensures Rest(ccitt, b, 8) == 0
  {
    TwoMore(ccitt, b, 0);
    TwoMore(ccitt, b, 2);
    TwoMore(ccitt, b, 4);
    TwoMore(ccitt, b, 6);
    AllSent(b);
  }

  lemma HighTail(c: bv16)
    ensures HighBit(c) ==> c == Xor(0x8000, Xor(c, 0x8000)) && !HighBit(Xor(c, 0x8000)) && Shl(Xor(c, 0x8000)) == Shl(c)
  {
  }

  lemma LowTail(c: bv16)
    ensures LowBit(c) ==> c == Xor(0x0001, Xor(c, 0x0001)) && !LowBit(Xor(c, 0x0001)) && Shr(Xor(c, 0x0001)) == Shr(c)
  {
  }

  /** A register is the bit about to leave and a part that the shift only moves. */
  lemma OutAndTail(ccitt: bool, rest: bv16)
    ensures var tail := Xor(rest, FeedBit(ccitt, Out(ccitt, rest)));
            rest == Xor(FeedBit(ccitt, Out(ccitt, rest)), tail) && Shift(ccitt, tail) == Move(ccitt, rest)
  {
    hide Xor, Shl, Shr, HighBit, LowBit;
    HighTail(rest);
    LowTail(rest);
    XorUnits(rest);
  }

  /** What enters with the next bit is moved out by the shift; the rest only moves. */
  lemma ShiftSplits(ccitt: bool, c: bv16, rest: bv16)
    ensures Shift(ccitt, Xor(c, rest)) ==
            Xor(Shift(ccitt, Xor(c, FeedBit(ccitt, Out(ccitt, rest)))), Move(ccitt, rest))
  {
    hide Xor, Shift, Move, FeedBit, Out;
    var bit := FeedBit(ccitt, Out(ccitt, rest));
    var tail := Xor(rest, bit);
    OutAndTail(ccitt, rest);
    XorAssociates(c, bit, tail);
    ShiftLinear(ccitt, Xor(c, bit), tail);
  }

  lemma {:induction false} ByteSoFar(ccitt: bool, c: bv16, b: bv8, j: nat)
    requires j <= 8
    ensures Xor(RunBits(ccitt, c, ByteBits(ccitt, b)[..j]), Feed(ccitt, Rest(ccitt, b, j)))
            == Shifts(ccitt, Xor(c, Feed(ccitt, b)), j)
  {
    hide Xor, Shift, Move, FeedBit, Out, Feed, BitOf, Sent;
    if j > 0 {
      ByteSoFar(ccitt, c, b, j - 1);
      var bits, rest := ByteBits(ccitt, b), Rest(ccitt, b, j - 1);
      assert bits[..j][..j - 1] == bits[..j - 1];
      FeedOfSent(ccitt, rest);
      BitOfRest(ccitt, b, j - 1, 0);
      ShiftSplits(ccitt, RunBits(ccitt, c, bits[..j - 1]), Feed(ccitt, rest));
    }
  }

  lemma RunOfNoBits(ccitt: bool, c: bv16)
    ensures RunBits(ccitt, c, []) == c
  {
  }

  /** The byte loop is the bit loop. */
  lemma {:induction false} RunIsRunBits(ccitt: bool, c: bv16, msg: seq<byte>)
    ensures Run(ccitt, c, msg) == RunBits(ccitt, c, Bits(ccitt, msg))
  {
    hide Shifts, Xor, Feed, Bv, Rest, BitOf, RunBits, Sent, Out, Move;
    if msg == [] {
      assert Bits(ccitt, msg) == [];
      RunOfNoBits(ccitt, c);
    } else {
      var n := |msg| - 1;
      var b := Bv(msg[n]);
      RunIsRunBits(ccitt, c, msg[..n]);
      assert msg == msg[..n] + [msg[n]];
      BitsAppend(ccitt, msg[..n], msg[n]);
      RunBitsSplit(ccitt, c, Bits(ccitt, msg[..n]), ByteBits(ccitt, b));
      ByteSoFar(ccitt, Run(ccitt, c, msg[..n]), b, 8);
      NothingLeft(ccitt, b);
      FeedOfSent(ccitt, b);
      assert ByteBits(ccitt, b)[..8] == ByteBits(ccitt, b);
      XorUnits(RunBits(ccitt, Run(ccitt, c, msg[..n]), ByteBits(ccitt, b)));
    }
  }

  // ----- equal registers after different bits -----

  function MixBits(a: seq<bool>, b: seq<bool>): (m: seq<bool>)
    requires |a| == |b|
    ensures |m| == |a| && forall i :: 0 <= i < |a| ==> (m[i] <==> a[i] != b[i])
  {
    seq(|a|, i requires 0 <= i < |a| => a[i] != b[i])
  }

  lemma FeedBitLinear(ccitt: bool, a: bool, b: bool)
    ensures FeedBit(ccitt, a != b) == Xor(FeedBit(ccitt, a), FeedBit(ccitt, b))
  {
    hide Xor;
    XorUnits(FeedBit(ccitt, a));
    XorUnits(FeedBit(ccitt, b));
  }

  lemma {:induction false} RunBitsLinear(ccitt: bool, c: bv16, d: bv16, a: seq<bool>, b: seq<bool>)
    requires |a| == |b|
    ensures RunBits(ccitt, Xor(c, d), MixBits(a, b)) == Xor(RunBits(ccitt, c, a), RunBits(ccitt, d, b))
  {
    hide Xor, Shift, FeedBit;
    if a != [] {
      var n := |a| - 1;
      RunBitsLinear(ccitt, c, d, a[..n], b[..n]);
      assert MixBits(a, b)[..n] == MixBits(a[..n], b[..n]);
      var x, y := RunBits(ccitt, c, a[..n]), RunBits(ccitt, d, b[..n]);
      var f, g := FeedBit(ccitt, a[n]), FeedBit(ccitt, b[n]);
      FeedBitLinear(ccitt, a[n], b[n]);
      XorSwap(x, y, f, g);
      ShiftLinear(ccitt, Xor(x, f), Xor(y, g));
    }
  }

  lemma ShiftKernel(ccitt: bool, c: bv16)
    requires Shift(ccitt, c) == 0
    ensures c == 0
  {
  }

  lemma ShiftInjective(ccitt: bool, x: bv16, y: bv16)
    requires Shift(ccitt, x) == Shift(ccitt, y)
    ensures x == y
  {
    hide Shift, Xor;
    ShiftLinear(ccitt, x, y);
    XorUnits(Shift(ccitt, x));
    ShiftKernel(ccitt, Xor(x, y));
    XorCancel(x, y);
  }

  lemma XorInjective(x: bv16, y: bv16, z: bv16)
    requires Xor(x, z) == Xor(y, z)
    ensures x == y
  {
  }

  /** Equal bits cannot bring different registers together. */
  lemma {:induction false} EqualBits(ccitt: bool, x: bv16, y: bv16, bits: seq<bool>)
    requires RunBits(ccitt, x, bits) == RunBits(ccitt, y, bits)
    ensures x == y
  {
    hide Xor, Shift, FeedBit;
    if bits != [] {
      var n := |bits| - 1;
      var r, s, f := RunBits(ccitt, x, bits[..n]), RunBits(ccitt, y, bits[..n]), FeedBit(ccitt, bits[n]);
      ShiftInjective(ccitt, Xor(r, f), Xor(s, f));
      XorInjective(r, s, f);
      EqualBits(ccitt, x, y, bits[..n]);
    }
  }

  function Back(ccitt: bool, c: bv16): bv16 { if ccitt then Shr(c) else Shl(c) }

  /** The register that up to 16 bits bring to zero: the bits themselves, from the end where they leave. */
  function Pack(ccitt: bool, bits: seq<bool>): bv16 {
    if bits == [] then 0 else Xor(FeedBit(ccitt, bits[0]), Back(ccitt, Pack(ccitt, bits[1..])))
  }

  /** The places of the register that `n` bits leave empty. */
  function Empty(ccitt: bool, n: nat): bv16 { if n == 0 then 0xFFFF else Back(ccitt, Empty(ccitt, n - 1)) }

  /** The bit last to leave. */
  predicate In(ccitt: bool, c: bv16) { if ccitt then LowBit(c) else HighBit(c) }

  lemma EmptyIs(ccitt: bool, n: nat)
    requires n <= 15
    ensures In(ccitt, Empty(ccitt, n))
  {
    if ccitt {
      assert Empty(true, 4) == 0x0FFF;
      assert Empty(true, 8) == 0x00FF;
      assert Empty(true, 12) == 0x000F;
    } else {
      assert Empty(false, 4) == 0xFFF0;
      assert Empty(false, 8) == 0xFF00;
      assert Empty(false, 12) == 0xF000;
    }
  }

  predicate Clear(q: bv16, places: bv16) { q & places == 0 }

  lemma BackKeepsClear(ccitt: bool, q: bv16, m: bv16, bit: bool)
    requires Clear(q, m)
    ensures Clear(Xor(FeedBit(ccitt, bit), Back(ccitt, q)), Back(ccitt, m))
    ensures In(ccitt, m) ==> !In(ccitt, q)
  {
  }

  lemma {:induction false} PackIsClear(ccitt: bool, bits: seq<bool>)
    ensures Clear(Pack(ccitt, bits), Empty(ccitt, |bits|))
    ensures |bits| <= 15 ==> !In(ccitt, Pack(ccitt, bits))
  {
    hide Xor, FeedBit, Back, In, Pack, Empty, Clear;
    if bits == [] {
      PackOfNone(ccitt);
    } else {
      PackIsClear(ccitt, bits[1..]);
      PackMore(ccitt, bits);
      BackKeepsClear(ccitt, Pack(ccitt, bits[1..]), Empty(ccitt, |bits| - 1), bits[0]);
      if |bits| <= 15 {
        EmptyIs(ccitt, |bits|);
        BackKeepsClear(ccitt, Pack(ccitt, bits), Empty(ccitt, |bits|), false);
      }
    }
  }

  lemma PackOfNone(ccitt: bool)
    ensures Pack(ccitt, []) == 0 && !In(ccitt, 0) && Clear(0, Empty(ccitt, 0))
  {
  }

  lemma PackMore(ccitt: bool, bits: seq<bool>)
    requires bits != []
    ensures Pack(ccitt, bits) == Xor(FeedBit(ccitt, bits[0]), Back(ccitt, Pack(ccitt, bits[1..])))
    ensures Empty(ccitt, |bits|) == Back(ccitt, Empty(ccitt, |bits| - 1))
  {
    hide Xor, FeedBit, Back;
  }

  /** Without the polynomial's mark the shift did not apply it. */
  lemma ShiftBackLow(c: bv16, feed: bv16, q: bv16)
    requires feed == 0 || feed == 0x0001
    requires Shift(false, Xor(c, feed)) == q && !HighBit(q)
    ensures c == Xor(feed, Shl(q))
  {
  }

  lemma ShiftBackHigh(c: bv16, feed: bv16, q: bv16)
    requires feed == 0 || feed == 0x8000
    requires Shift(true, Xor(c, feed)) == q && !LowBit(q)
    ensures c == Xor(feed, Shr(q))
  {
  }

  lemma ShiftBack(ccitt: bool, c: bv16, bit: bool, q: bv16)
    requires Shift(ccitt, Xor(c, FeedBit(ccitt, bit))) == q && !In(ccitt, q)
    ensures c == Xor(FeedBit(ccitt, bit), Back(ccitt, q))
  {
    hide Shift, Xor;
    if ccitt { ShiftBackHigh(c, FeedBit(ccitt, bit), q); } else { ShiftBackLow(c, FeedBit(ccitt, bit), q); }
  }

  lemma {:induction false} PackDecides(ccitt: bool, c: bv16, bits: seq<bool>)
    requires |bits| <= 16 && RunBits(ccitt, c, bits) == 0
    ensures c == Pack(ccitt, bits)
    decreases |bits|
  {
    hide Xor, FeedBit, Back, In, Shift;
    if bits != [] {
      RunBitsFirst(ccitt, c, bits);
      var next := Shift(ccitt, Xor(c, FeedBit(ccitt, bits[0])));
      PackDecides(ccitt, next, bits[1..]);
      PackIsClear(ccitt, bits[1..]);
      ShiftBack(ccitt, c, bits[0], next);
    }
  }

  lemma PackStep(ccitt: bool, bit: bool, q: bv16)
    requires Xor(FeedBit(ccitt, bit), Back(ccitt, q)) == 0 && !In(ccitt, q)
    ensures !bit && q == 0
  {
  }

  lemma {:induction false} PackIsFaithful(ccitt: bool, bits: seq<bool>)
    requires |bits| <= 16 && Pack(ccitt, bits) == 0
    ensures forall i :: 0 <= i < |bits| ==> !bits[i]
  {
    hide Xor, FeedBit, Back, In;
    if bits != [] {
      PackIsClear(ccitt, bits[1..]);
      PackStep(ccitt, bits[0], Pack(ccitt, bits[1..]));
      PackIsFaithful(ccitt, bits[1..]);
      assert bits == [bits[0]] + bits[1..];
    }
  }

  /** Different bits, up to 16 of them, take a register to different ones. */
  lemma ShortBitsDecide(ccitt: bool, c: bv16, a: seq<bool>, b: seq<bool>)
    requires |a| == |b| <= 16 && RunBits(ccitt, c, a) == RunBits(ccitt, c, b)
    ensures a == b
  {
    hide RunBits, Xor, Pack;
    var m := MixBits(a, b);
    RunBitsLinear(ccitt, c, c, a, b);
    XorUnits(c);
    XorUnits(RunBits(ccitt, c, a));
    PackDecides(ccitt, 0, m);
    PackIsFaithful(ccitt, m);
    forall i | 0 <= i < |a| ensures a[i] == b[i] { assert !m[i]; }
  }

  // ----- bursts -----

  /** In transmission order the messages differ at most in the 16 bits from `k` on. */
  predicate BurstAt(ccitt: bool, a: seq<byte>, b: seq<byte>, k: nat)
    requires |a| == |b|
  {
    forall p :: 0 <= p < 8 * |a| && !(k <= p < k + 16) ==> Bits(ccitt, a)[p] == Bits(ccitt, b)[p]
  }

  lemma InThree(ccitt: bool, c: bv16, bits: seq<bool>, k: nat, n: nat)
    requires k <= n <= |bits|
    ensures bits == (bits[..k] + bits[k..n]) + bits[n..]
    ensures RunBits(ccitt, c, bits) == RunBits(ccitt, RunBits(ccitt, RunBits(ccitt, c, bits[..k]), bits[k..n]), bits[n..])
  {
    hide RunBits;
    assert bits == (bits[..k] + bits[k..n]) + bits[n..];
    RunBitsSplit(ccitt, c, bits[..k] + bits[k..n], bits[n..]);
    RunBitsSplit(ccitt, c, bits[..k], bits[k..n]);
  }

  lemma BurstDecides(ccitt: bool, c: bv16, a: seq<bool>, b: seq<bool>, k: nat, n: nat)
    requires |a| == |b| && k <= n <= |a| && n <= k + 16
    requires forall p :: 0 <= p < |a| && !(k <= p < n) ==> a[p] == b[p]
    requires RunBits(ccitt, c, a) == RunBits(ccitt, c, b)
    ensures a == b
  {
    hide RunBits;
    assert a[..k] == b[..k] && a[n..] == b[n..];
    InThree(ccitt, c, a, k, n);
    InThree(ccitt, c, b, k, n);
    var r := RunBits(ccitt, c, a[..k]);
    EqualBits(ccitt, RunBits(ccitt, r, a[k..n]), RunBits(ccitt, r, b[k..n]), a[n..]);
    ShortBitsDecide(ccitt, r, a[k..n], b[k..n]);
  }

  lemma BurstDetected(ccitt: bool, c: bv16, a: seq<byte>, b: seq<byte>, k: nat)
    requires |a| == |b| && BurstAt(ccitt, a, b, k) && Run(ccitt, c, a) == Run(ccitt, c, b)
    ensures a == b
  {
    hide Run, RunBits, Bits;
    RunIsRunBits(ccitt, c, a);
    RunIsRunBits(ccitt, c, b);
    var size := 8 * |a|;
    var n := if k + 16 <= size then k + 16 else size;
    var from := if k <= size then k else size;
    BurstDecides(ccitt, c, Bits(ccitt, a), Bits(ccitt, b), from, n);
    BitsInjective(ccitt, a, b);
  }

  /** Each check tells apart any two messages of one length that differ only within 16 bits sent one after another. */
  lemma BurstsDetected(a: seq<byte>, b: seq<byte>, k: nat)
    requires |a| == |b| && a != b
    ensures BurstAt(false, a, b, k) ==> Arc(a) != Arc(b)
    ensures BurstAt(true, a, b, k) ==> Ccitt(a) != Ccitt(b)
  {
    hide Run, BurstAt;
    if BurstAt(false, a, b, k) && Arc(a) == Arc(b) { BurstDetected(false, 0, a, b, k); }
    if BurstAt(true, a, b, k) && Ccitt(a) == Ccitt(b) { BurstDetected(true, 0xFFFF, a, b, k); }
  }

  /** Two adjacent bytes are such a burst in either order. */
  lemma AdjacentIsBurst(ccitt: bool, a: seq<byte>, b: seq<byte>, k: nat)
    requires |a| == |b| && forall i :: 0 <= i < |a| && i != k && i != k + 1 ==> a[i] == b[i]
    ensures BurstAt(ccitt, a, b, 8 * k)
  {
    hide BitOf, Bv;
    forall p | 0 <= p < 8 * |a| && !(8 * k <= p < 8 * k + 16) ensures Bits(ccitt, a)[p] == Bits(ccitt, b)[p] {
      var i, j := p / 8, p % 8;
      assert p == 8 * i + j;
      BitAt(ccitt, a, i, j);
      BitAt(ccitt, b, i, j);
    }
  }

  /** So both detect any difference within two adjacent bytes, or within one. */
  lemma AdjacentErrorsDetected(a: seq<byte>, b: seq<byte>, k: nat)
    requires |a| == |b| && a != b
    requires forall i :: 0 <= i < |a| && i != k && i != k + 1 ==> a[i] == b[i]
    ensures Arc(a) != Arc(b) && Ccitt(a) != Ccitt(b)
  {
    hide Run, BurstAt;
    AdjacentIsBurst(false, a, b, k);
    AdjacentIsBurst(true, a, b, k);
    BurstsDetected(a, b, 8 * k);
  }

  /** Two bytes behind a message leave zero exactly when they are its CRC: low byte first for ARC, high first for CCITT. */
  lemma ResidueExactly(ccitt: bool, c: bv16, msg: seq<byte>, x: byte, y: byte)
    ensures var r := Run(ccitt, c, msg);
            Run(ccitt, c, msg + [x, y]) == 0 <==>
              if ccitt then x == Hi(r) && y == Lo(r) else x == Lo(r) && y == Hi(r)
  {
    hide Run, Hi, Lo, BurstAt;
    var r := Run(ccitt, c, msg);
    var first, second := if ccitt then Hi(r) else Lo(r), if ccitt then Lo(r) else Hi(r);
    var a, b := msg + [x, y], msg + [first, second];
    OwnBytes(ccitt, c, msg, first, second);
    if Run(ccitt, c, a) == 0 {
      AdjacentIsBurst(ccitt, a, b, |msg|);
      BurstDetected(ccitt, c, a, b, 8 * |msg|);
      assert a[|msg|] == x && a[|msg| + 1] == y && b[|msg|] == first && b[|msg| + 1] == second;
    }
  }

  // ----- sixteen bits are the most -----

  lemma RunOfThree(ccitt: bool, x: byte, y: byte, z: byte)
    ensures Run(ccitt, 0, [x, y, z]) == Next(ccitt, Next(ccitt, Next(ccitt, 0, Bv(x)), Bv(y)), Bv(z))
  {
    hide Shift, Feed, Bv, Xor, Shifts;
    RunAppend(ccitt, 0, [], x);
    RunAppend(ccitt, 0, [x], y);
    RunAppend(ccitt, 0, [x, y], z);
    assert [] + [x] == [x] && [x] + [y] == [x, y] && [x, y] + [z] == [x, y, z];
    EightShifts(ccitt, Xor(0, Feed(ccitt, Bv(x))));
    EightShifts(ccitt, Xor(Next(ccitt, 0, Bv(x)), Feed(ccitt, Bv(y))));
    EightShifts(ccitt, Xor(Next(ccitt, Next(ccitt, 0, Bv(x)), Bv(y)), Feed(ccitt, Bv(z))));
  }

  lemma ArcMisses()
    ensures Next(false, Next(false, Next(false, 0, 0x03), 0x40), 0x01) == 0
  {
  }

  lemma CcittMisses()
    ensures Next(true, Next(true, Next(true, 0, 0x88), 0x10), 0x80) == 0
  {
  }

  lemma MixWithZeros(x: byte, y: byte, z: byte)
    ensures Mix([0, 0, 0], [x, y, z]) == [x, y, z]
  {
    hide Bv, FromBv;
    forall b: byte ensures MixByte(0, b) == b {
      ZeroXor(Bv(b));
      BvOfByte(b);
    }
  }

  lemma ZeroXor(v: bv8)
    ensures Xor8(Bv(0), v) == v
  {
  }

  lemma ThreeBits()
    ensures Bv(0x03) == 0x03 && Bv(0x40) == 0x40 && Bv(0x01) == 0x01
    ensures Bv(0x88) == 0x88 && Bv(0x10) == 0x10 && Bv(0x80) == 0x80 && Bv(0) == 0
  {
  }

  lemma Missed(ccitt: bool, c: bv16, x: byte, y: byte, z: byte)
    requires Run(ccitt, 0, [x, y, z]) == 0
    ensures Run(ccitt, c, [x, y, z]) == Run(ccitt, c, [0, 0, 0])
  {
    hide Run, Xor, Mix;
    MixWithZeros(x, y, z);
    RunLinear(ccitt, c, 0, [0, 0, 0], [x, y, z]);
    XorUnits(c);
    XorUnits(Run(ccitt, c, [0, 0, 0]));
  }

  lemma NotSent()
    ensures forall p :: 17 <= p < 24 ==> !Bits(false, [0x03, 0x40, 0x01])[p] && !Bits(true, [0x88, 0x10, 0x80])[p]
  {
    hide BitOf, Bits, Bv;
    ThreeBits();
    LowMasks(0x01);
    HighMasks(0x80);
    forall p | 17 <= p < 24 ensures !Bits(false, [0x03, 0x40, 0x01])[p] && !Bits(true, [0x88, 0x10, 0x80])[p] {
      BitAt(false, [0x03, 0x40, 0x01], 2, p - 16);
      BitAt(true, [0x88, 0x10, 0x80], 2, p - 16);
    }
  }

  /** Seventeen bits can go undetected: those of the polynomial itself. */
  lemma LongerBurstMissed()
    ensures Arc([0x03, 0x40, 0x01]) == Arc([0, 0, 0]) && Ccitt([0x88, 0x10, 0x80]) == Ccitt([0, 0, 0])
    ensures forall p :: 17 <= p < 24 ==> !Bits(false, [0x03, 0x40, 0x01])[p] && !Bits(true, [0x88, 0x10, 0x80])[p]
  {
    hide Next, Run, Bv, Bits;
    ThreeBits();
    ArcMisses();
    CcittMisses();
    RunOfThree(false, 0x03, 0x40, 0x01);
    RunOfThree(true, 0x88, 0x10, 0x80);
    Missed(false, 0, 0x03, 0x40, 0x01);
    Missed(true, 0xFFFF, 0x88, 0x10, 0x80);
    NotSent();
  }
}
