/** Bytes, their XOR algebra, big-endian integers and a byte connection: what every wire protocol below shares. */
module Bytes {
  import opened Options

  type byte = x: int | 0 <= x < 256

  // ----- bytes as bit-vectors -----

  function Bv(b: byte): bv8 { b as bv8 }

  function FromBv(v: bv8): byte { v as int }

  lemma BvOfByte(b: byte)
    ensures FromBv(Bv(b)) == b
  {
    assert b % 256 == b;
  }

  lemma BvOfFromBv(v: bv8)
    ensures Bv(FromBv(v)) == v
  {
  }

  lemma BvInjective(a: byte, b: byte)
    requires Bv(a) == Bv(b)
    ensures a == b
  {
    BvOfByte(a);
    BvOfByte(b);
  }

  /** XOR of all bytes: the checksum of JT808. */
  function XorAll(s: seq<byte>): bv8 {
    if s == [] then 0 else XorAll(s[..|s| - 1]) ^ Bv(s[|s| - 1])
  }

  method XorLoop(s: seq<byte>) returns (xor: bv8)
    ensures xor == XorAll(s)
  {
    xor := 0;
    for i := 0 to |s|
      invariant xor == XorAll(s[..i])
    {
      assert s[..i + 1][..i] == s[..i];
      xor := xor ^ Bv(s[i]);
    }
    assert s[..|s|] == s;
  }

  /** How many of the bytes have this bit. */
  function CountBit(s: seq<byte>, bit: bv8): nat {
    if s == [] then 0 else CountBit(s[..|s| - 1], bit) + if Bv(s[|s| - 1]) & bit != 0 then 1 else 0
  }

  lemma OneBit(x: bv8, y: bv8, bit: bv8)
    requires bit in {0x01, 0x02, 0x04, 0x08, 0x10, 0x20, 0x40, 0x80}
    ensures (x ^ y) & bit != 0 <==> ((x & bit != 0) != (y & bit != 0))
  {
  }

  /** A bit of the checksum is set exactly when an odd number of bytes have it. */
  lemma {:induction false} XorIsParity(s: seq<byte>, bit: bv8)
    requires bit in {0x01, 0x02, 0x04, 0x08, 0x10, 0x20, 0x40, 0x80}
    ensures XorAll(s) & bit != 0 <==> CountBit(s, bit) % 2 == 1
  {
    hide Bv;
    if s != [] {
      XorIsParity(s[..|s| - 1], bit);
      OneBit(XorAll(s[..|s| - 1]), Bv(s[|s| - 1]), bit);
    } else {
      assert (0 as bv8) & bit == 0;
    }
  }

  // ----- big-endian unsigned integers of any width -----

  function Pow256(w: nat): (p: nat)
    ensures p >= 1
  {
    if w == 0 then 1 else 256 * Pow256(w - 1)
  }

  lemma Pow256Values()
    ensures Pow256(1) == 0x100 && Pow256(2) == 0x1_0000 && Pow256(4) == 0x1_0000_0000
    ensures Pow256(8) == 0x1_0000_0000_0000_0000
  {
    assert Pow256(3) == 256 * Pow256(2);
    assert Pow256(5) == 256 * Pow256(4);
    assert Pow256(6) == 256 * Pow256(5);
    assert Pow256(7) == 256 * Pow256(6);
  }

  /** The value binary.BigEndian reads from these bytes. */
  function BE(s: seq<byte>): (n: nat)
    ensures n < Pow256(|s|)
  {
    if s == [] then 0 else BE(s[..|s| - 1]) * 256 + s[|s| - 1]
  }

  /** The `w` low-order bytes of `n`, most significant first. */
  function ToBE(n: nat, w: nat): (s: seq<byte>)
    ensures |s| == w
  {
    if w == 0 then [] else ToBE(n / 256, w - 1) + [n % 256]
  }

  lemma {:induction false} BEOfToBE(n: nat, w: nat)
    requires n < Pow256(w)
    ensures BE(ToBE(n, w)) == n
  {
    if w > 0 {
      BEOfToBE(n / 256, w - 1);
      assert ToBE(n, w)[..w - 1] == ToBE(n / 256, w - 1);
    }
  }

  lemma {:induction false} ToBEOfBE(s: seq<byte>)
    ensures ToBE(BE(s), |s|) == s
  {
    if s != [] {
      ToBEOfBE(s[..|s| - 1]);
      assert BE(s) / 256 == BE(s[..|s| - 1]) && BE(s) % 256 == s[|s| - 1];
      assert s == s[..|s| - 1] + [s[|s| - 1]];
    }
  }

  /** The first byte is the most significant one. */
  lemma {:induction false} BigEndian(s: seq<byte>)
    requires s != []
    ensures BE(s) == s[0] as int * Pow256(|s| - 1) + BE(s[1..])
  {
    var n := |s| - 1;
    if n == 0 {
      assert s[..0] == [] && s[1..] == [];
    } else {
      BigEndian(s[..n]);
      assert s[1..][..n - 1] == s[..n][1..];
      Shifted(s[0], Pow256(n - 1), BE(s[..n][1..]));
    }
  }

  lemma Shifted(b: nat, p: nat, rest: nat)
    ensures (b * p + rest) * 256 == b * (256 * p) + rest * 256
  {
  }

  lemma BE2(s: seq<byte>)
    requires |s| == 2
    ensures BE(s) == s[0] as int * 256 + s[1] as int
  {
    assert s[..1] == [s[0]] && [s[0]][..0] == [];
  }

  lemma BE4(s: seq<byte>)
    requires |s| == 4
    ensures BE(s) == s[0] as int * 0x100_0000 + s[1] as int * 0x1_0000 + s[2] as int * 256 + s[3] as int
  {
    BE2(s[..2]);
    assert s[..3][..2] == s[..2];
  }

  lemma ToBE2(n: nat)
    ensures ToBE(n, 2) == [n / 256 % 256, n % 256]
  {
    assert ToBE(n / 256, 1) == ToBE(n / 256 / 256, 0) + [n / 256 % 256];
  }

  lemma ToBELonger(n: nat, w: nat)
    ensures ToBE(n, w + 2) == ToBE(n / 0x1_0000, w) + ToBE(n, 2)
  {
    assert ToBE(n, w + 2) == ToBE(n / 256, w + 1) + [n % 256];
    assert ToBE(n / 256, w + 1) == ToBE(n / 256 / 256, w) + [n / 256 % 256];
    assert n / 256 / 256 == n / 0x1_0000;
    ToBE2(n);
  }

  lemma ToBE4(n: nat)
    ensures ToBE(n, 4) == [n / 0x100_0000 % 256, n / 0x1_0000 % 256, n / 256 % 256, n % 256]
  {
    hide ToBE;
    ToBELonger(n, 2);
    ToBE2(n);
    ToBE2(n / 0x1_0000);
  }

  lemma ToBE8(n: nat)
    ensures ToBE(n, 8) == ToBE(n / 0x1_0000_0000, 4) + ToBE(n, 4)
  {
    hide ToBE;
    ToBELonger(n, 6);
    ToBELonger(n / 0x1_0000, 4);
    ToBELonger(n, 2);
    assert n / 0x1_0000 / 0x1_0000 == n / 0x1_0000_0000;
  }

  /** Writing a number in too few bytes keeps its remainder. */
  lemma {:induction false} BEOfCut(n: nat, w: nat)
    ensures BE(ToBE(n, w)) == n % Pow256(w)
  {
    if w > 0 {
      BEOfCut(n / 256, w - 1);
      assert ToBE(n, w)[..w - 1] == ToBE(n / 256, w - 1);
      CutOnce(n, Pow256(w - 1));
    }
  }

  lemma CutOnce(n: nat, p: nat)
    requires p > 0
    ensures n / 256 % p * 256 + n % 256 == n % (256 * p)
  {
    var q, r := n / 256, n % 256;
    assert n == 256 * (p * (q / p) + q % p) + r;
    assert n == (256 * p) * (q / p) + (q % p * 256 + r);
    assert 0 <= q % p * 256 + r < 256 * p;
    Remainder(n, 256 * p, q / p, q % p * 256 + r);
  }

  lemma Multiple(m: int, d: int)
    requires m > 0
    ensures d >= 1 ==> m * d >= m
    ensures d <= -1 ==> m * d <= -m
  {
    if d <= -1 { assert m * (d + 1) <= 0; }
  }

  lemma Remainder(n: nat, m: nat, q: nat, r: nat)
    requires m > 0 && r < m && n == m * q + r
    ensures n % m == r
  {
    var d := n / m - q;
    assert m * d == m * (n / m) - m * q;
    assert m * d == r - n % m;
    Multiple(m, d);
  }

  // ----- two's complement -----

  function Signed(u: nat, w: nat): (v: int)
    requires u < Pow256(w)
  {
    if 2 * u >= Pow256(w) then u - Pow256(w) else u
  }

  function Unsigned(v: int, w: nat): (u: nat)
    requires FitsSigned(v, w)
    ensures u < Pow256(w)
  {
    if v < 0 then v + Pow256(w) else v
  }

  predicate FitsSigned(v: int, w: nat) {
    -2 * v <= Pow256(w) && 2 * v < Pow256(w)
  }

  lemma UnsignedOfSigned(u: nat, w: nat)
    requires w > 0 && u < Pow256(w)
    ensures FitsSigned(Signed(u, w), w) && Unsigned(Signed(u, w), w) == u
  {
  }

  lemma SignedOfUnsigned(v: int, w: nat)
    requires FitsSigned(v, w)
    ensures Signed(Unsigned(v, w), w) == v
  {
  }

  /** The one number in the signed range that agrees with `u` up to a multiple of the word size. */
  lemma SignedIs(u: nat, w: nat)
    requires w > 0 && u < Pow256(w)
    ensures var v := Signed(u, w); (v == u || v == u - Pow256(w)) && -2 * v <= Pow256(w) && 2 * v < Pow256(w)
  {
  }

  /** A connection: the bytes its peer has sent and the server has not read yet. */
  class Conn {
    var unread: seq<byte>

    constructor (sent: seq<byte>)
      ensures unread == sent
    {
      unread := sent;
    }

    /** io.ReadFull: all `n` bytes, or an error after swallowing what was left. */
    method ReadFull(n: nat) returns (r: Option<seq<byte>>)
      modifies this
      ensures |old(unread)| >= n ==> r == Some(old(unread)[..n]) && unread == old(unread)[n..]
      ensures |old(unread)| < n ==> r == None && unread == []
    {
      if |unread| < n {
        unread := [];
        return None;
      }
      r := Some(unread[..n]);
      unread := unread[n..];
    }
  }
}
