/**
 AIS140 text lines: "$type,field,...*XX" with an XOR checksum in two hexadecimal digits. A Go string is a sequence of bytes,
 valid UTF-8 or not; the checksum loops range over its runes.
 */
module Ais140 {
  import opened Bytes

  type text = seq<byte>

  const DOLLAR: byte := 0x24
  const STAR: byte := 0x2A
  const COMMA: byte := 0x2C

  // ----- the string operations the handler uses -----

  function TrimDollar(line: text): text {
    if line != [] && line[0] == DOLLAR then line[1..] else line
  }

  /** Position of the last `c`, or -1. */
  function LastIndex(s: text, c: byte): (i: int)
    ensures -1 <= i < |s|
    ensures i >= 0 ==> s[i] == c
    ensures forall j :: i < j < |s| ==> s[j] != c
  {
    if s == [] then -1 else if s[|s| - 1] == c then |s| - 1 else LastIndex(s[..|s| - 1], c)
  }

  function Split(s: text): (parts: seq<text>)
    ensures |parts| >= 1
  {
    if s == [] then [[]]
    else
      var rest := Split(s[1..]);
      if s[0] == COMMA then [[]] + rest else [[s[0]] + rest[0]] + rest[1..]
  }

  function Join(parts: seq<text>): text {
    if parts == [] then [] else if |parts| == 1 then parts[0] else parts[0] + [COMMA] + Join(parts[1..])
  }

  predicate CommaFree(s: text) { forall i :: 0 <= i < |s| ==> s[i] != COMMA }

  predicate AllCommaFree(parts: seq<text>) { forall i :: 0 <= i < |parts| ==> CommaFree(parts[i]) }

  lemma {:induction false} SplitHead(field: text, rest: text)
    requires CommaFree(field)
    ensures Split(field + [COMMA] + rest) == [field] + Split(rest)
  {
    if field == [] {
      assert field + [COMMA] + rest == [COMMA] + rest;
      assert ([COMMA] + rest)[1..] == rest;
    } else {
      SplitHead(field[1..], rest);
      assert (field + [COMMA] + rest)[1..] == field[1..] + [COMMA] + rest;
      assert field == [field[0]] + field[1..];
    }
  }

  lemma {:induction false} SplitField(field: text)
    requires CommaFree(field)
    ensures Split(field) == [field]
  {
    if field != [] {
      SplitField(field[1..]);
      assert field == [field[0]] + field[1..];
    }
  }

  lemma {:induction false} SplitOfJoin(parts: seq<text>)
    requires parts != [] && AllCommaFree(parts)
    ensures Split(Join(parts)) == parts
  {
    hide Split, CommaFree;
    if |parts| == 1 {
      SplitField(parts[0]);
    } else {
      SplitOfJoin(parts[1..]);
      SplitHead(parts[0], Join(parts[1..]));
      assert parts == [parts[0]] + parts[1..];
    }
  }

  lemma {:induction false} SplitIsCommaFree(s: text)
    ensures AllCommaFree(Split(s))
  {
    if s != [] { SplitIsCommaFree(s[1..]); }
  }

  // ----- the runes of a string -----

  predicate Continues(b: byte) { 0x80 <= b <= 0xBF }

  /** How many bytes the first rune of a string takes: a well-formed UTF-8 sequence, or one byte of anything else. */
  function RuneLength(s: text): (n: nat)
    requires s != []
    ensures 1 <= n <= |s|
  {
    var a := s[0];
    if |s| >= 2 && 0xC2 <= a <= 0xDF && Continues(s[1]) then 2
    else if |s| >= 3 && 0xE0 <= a <= 0xEF && Continues(s[1]) && Continues(s[2])
            && (a == 0xE0 ==> s[1] >= 0xA0) && (a == 0xED ==> s[1] <= 0x9F) then 3
    else if |s| >= 4 && 0xF0 <= a <= 0xF4 && Continues(s[1]) && Continues(s[2]) && Continues(s[3])
            && (a == 0xF0 ==> s[1] >= 0x90) && (a == 0xF4 ==> s[1] <= 0x8F) then 4
    else 1
  }

  /** The first rune; a byte that starts no well-formed sequence counts as U+FFFD. */
  function FirstRune(s: text): nat
    requires s != []
  {
    var n, a: int := RuneLength(s), s[0];
    if n == 1 then if a < 0x80 then a else 0xFFFD
    else
      var b: int := s[1];
      if n == 2 then a % 32 * 64 + b % 64
      else
        var c: int := s[2];
        if n == 3 then (a % 16 * 64 + b % 64) * 64 + c % 64
        else
          var d: int := s[3];
          ((a % 8 * 64 + b % 64) * 64 + c % 64) * 64 + d % 64
  }

  function Runes(s: text): seq<nat> {
    if s == [] then [] else [FirstRune(s)] + Runes(s[RuneLength(s)..])
  }

  // ----- the checksum -----

  /** byte(c): the low eight bits of a rune. */
  function Low8(c: nat): byte { c % 256 }

  function XorRunes(rs: seq<nat>): bv8 {
    if rs == [] then 0 else XorRunes(rs[..|rs| - 1]) ^ Bv(Low8(rs[|rs| - 1]))
  }

  function Xor(s: text): bv8 { XorRunes(Runes(s)) }

  /** The loop over the runes of a string. */
  method XorOf(s: text) returns (xor: bv8)
    ensures xor == Xor(s)
  {
    hide Bv, Low8, FirstRune, RuneLength, Runes, XorRunes;
    xor := 0;
    var i := 0;
    ghost var seen: seq<nat> := [];
    assert s[0..] == s && [] + Runes(s) == Runes(s);
    NoRunes(s[|s|..]);
    while i < |s|
      invariant 0 <= i <= |s|
      invariant xor == XorRunes(seen)
      invariant Runes(s) == seen + Runes(s[i..])
    {
      var rest := s[i..];
      MoreRunes(seen, rest);
      MoreXor(seen, FirstRune(rest));
      xor := xor ^ Bv(Low8(FirstRune(rest)));
      seen := seen + [FirstRune(rest)];
      assert rest[RuneLength(rest)..] == s[i + RuneLength(rest)..];
      i := i + RuneLength(rest);
    }
    assert seen + [] == seen;
  }

  lemma NoRunes(s: text)
    requires s == []
    ensures Runes(s) == [] && XorRunes([]) == 0
  {
  }

  lemma MoreRunes(seen: seq<nat>, s: text)
    requires s != []
    ensures seen + Runes(s) == (seen + [FirstRune(s)]) + Runes(s[RuneLength(s)..])
  {
    hide FirstRune, RuneLength;
  }

  lemma MoreXor(rs: seq<nat>, r: nat)
    ensures XorRunes(rs + [r]) == XorRunes(rs) ^ Bv(Low8(r))
  {
    hide Bv, Low8;
    assert (rs + [r])[..|rs|] == rs;
  }

  function HexDigit(n: nat): (c: byte)
    requires n < 16
    ensures 0x30 <= c <= 0x39 || 0x41 <= c <= 0x46
  {
    if n < 10 then 0x30 + n else 0x41 + (n - 10)
  }

  /** "%02X". */
  function Hex(b: byte): (s: text)
    ensures |s| == 2
  {
    [HexDigit(b / 16), HexDigit(b % 16)]
  }

  lemma HexInjective(a: byte, b: byte)
    requires Hex(a) == Hex(b)
    ensures a == b
  {
    assert HexDigit(a / 16) == Hex(a)[0] && HexDigit(a % 16) == Hex(a)[1];
    assert HexDigit(b / 16) == Hex(b)[0] && HexDigit(b % 16) == Hex(b)[1];
    assert a / 16 == b / 16 && a % 16 == b % 16;
  }

  function Upper(c: byte): byte { if 0x61 <= c <= 0x7A then c - 32 else c }

  /** Equality up to letter case; against hexadecimal digits, to which no non-ASCII letter folds, this is EqualFold. */
  predicate EqualFold(s: text, t: text) {
    |s| == |t| && forall i :: 0 <= i < |s| ==> Upper(s[i]) == Upper(t[i])
  }

  // ----- lines -----

  function ParseAis140(line: text): seq<text> {
    var l := TrimDollar(line);
    var i := LastIndex(l, STAR);
    Split(if i != -1 then l[..i] else l)
  }

  predicate ChecksumValid(line: text) {
    var l := TrimDollar(line);
    var i := LastIndex(l, STAR);
    i >= 0 && i + 3 <= |l| && EqualFold(l[i + 1..i + 3], Hex(FromBv(Xor(l[..i]))))
  }

  method IsValidChecksum(line: text) returns (ok: bool)
    ensures ok == ChecksumValid(line)
  {
    hide Xor, FromBv;
    var l := TrimDollar(line);
    var starIdx := LastIndex(l, STAR);
    if starIdx < 0 || starIdx + 3 > |l| {
      return false;
    }
    var xor := XorOf(l[..starIdx]);
    ok := EqualFold(l[starIdx + 1..starIdx + 3], Hex(FromBv(xor)));
  }

  function Body(msgType: text, fields: seq<text>): text { msgType + [COMMA] + Join(fields) }

  /** A body between the dollar and the star, with two characters behind. */
  function Framed(body: text, sum: text): text { [DOLLAR] + body + [STAR] + sum }

  function Line(body: text): text { Framed(body, Hex(FromBv(Xor(body)))) }

  method BuildPacket(msgType: text, fields: seq<text>) returns (line: text)
    ensures line == Line(Body(msgType, fields))
  {
    hide Xor;
    var body := msgType + [COMMA] + Join(fields);
    var xor := XorOf(body);
    line := [DOLLAR] + body + [STAR] + Hex(FromBv(xor));
  }

  /** The last star is the one before the checksum, whatever the body contains. */
  lemma StarOfLine(body: text, sum: text)
    requires |sum| == 2 && sum[0] != STAR && sum[1] != STAR
    ensures var l := TrimDollar(Framed(body, sum));
            LastIndex(l, STAR) == |body| && l[..|body|] == body && l[|body| + 1..|body| + 3] == sum && |l| == |body| + 3
  {
    hide LastIndex;
    var l := TrimDollar(Framed(body, sum));
    assert l == body + [STAR] + sum;
    assert l[|body|] == STAR && l[|body| + 1] == sum[0] && l[|body| + 2] == sum[1];
  }

  /** A built line passes the check, and its fields come back exactly when none had a comma and there was one. */
  lemma BuiltLine(msgType: text, fields: seq<text>)
    ensures ChecksumValid(Line(Body(msgType, fields)))
    ensures ParseAis140(Line(Body(msgType, fields))) == [msgType] + fields
            <==> fields != [] && CommaFree(msgType) && AllCommaFree(fields)
  {
    hide Xor, FromBv, LastIndex, HexDigit, TrimDollar, Framed, CommaFree, Split;
    var body := Body(msgType, fields);
    StarOfLine(body, Hex(FromBv(Xor(body))));
    if fields != [] && CommaFree(msgType) && AllCommaFree(fields) {
      SplitOfJoin([msgType] + fields);
      assert ([msgType] + fields)[1..] == fields;
    }
    if Split(body) == [msgType] + fields { OnlyCommaFree(msgType, fields); }
  }

  lemma OnlyCommaFree(msgType: text, fields: seq<text>)
    requires Split(Body(msgType, fields)) == [msgType] + fields
    ensures fields != [] && CommaFree(msgType) && AllCommaFree(fields)
  {
    hide Split, CommaFree, Join;
    var parts := [msgType] + fields;
    SplitIsCommaFree(Body(msgType, fields));
    assert CommaFree(parts[0]);
    forall i | 0 <= i < |fields| ensures CommaFree(fields[i]) {
      assert parts[i + 1] == fields[i];
    }
    SplitHead(msgType, Join(fields));
  }

  // ----- single substitutions are detected -----

  predicate Ascii(s: text) { forall i :: 0 <= i < |s| ==> s[i] < 128 }

  /** The runes of an ASCII string are its bytes. */
  lemma {:induction false} AsciiRunes(s: text)
    requires Ascii(s)
    ensures Runes(s) == s
  {
    if s != [] {
      AsciiRunes(s[1..]);
      assert s == [s[0]] + s[1..];
    }
  }

  lemma XorCancel(x: bv8, y: bv8, z: bv8)
    ensures x ^ z == y ^ z ==> x == y
    ensures z ^ x == z ^ y ==> x == y
  {
  }

  lemma {:induction false} XorDiffers(s: seq<nat>, t: seq<nat>, k: nat)
    requires |s| == |t| && k < |s| && Bv(Low8(s[k])) != Bv(Low8(t[k]))
    requires forall i :: 0 <= i < |s| && i != k ==> s[i] == t[i]
    ensures XorRunes(s) != XorRunes(t)
  {
    hide Bv, Low8;
    var n := |s| - 1;
    if k == n {
      assert s[..n] == t[..n];
      XorCancel(Bv(Low8(s[n])), Bv(Low8(t[n])), XorRunes(s[..n]));
    } else {
      XorDiffers(s[..n], t[..n], k);
      XorCancel(XorRunes(s[..n]), XorRunes(t[..n]), Bv(Low8(s[n])));
    }
  }

  lemma FoldOfHex(a: byte, b: byte)
    requires EqualFold(Hex(a), Hex(b))
    ensures a == b
  {
    hide HexDigit;
    var s, t := Hex(a), Hex(b);
    assert Upper(s[0]) == Upper(t[0]) && Upper(s[1]) == Upper(t[1]);
    assert s == t;
    HexInjective(a, b);
  }

  /** Strings of different XOR do not share a checksum. */
  lemma OtherXorFails(body: text, other: text)
    requires Xor(other) != Xor(body)
    ensures !ChecksumValid(Framed(other, Hex(FromBv(Xor(body)))))
  {
    hide Xor, FromBv, Bv, Hex, LastIndex, TrimDollar, Framed, EqualFold;
    var sum := Hex(FromBv(Xor(body)));
    HexHasNoStar(FromBv(Xor(body)));
    StarOfLine(other, sum);
    BvOfFromBv(Xor(body));
    BvOfFromBv(Xor(other));
    if EqualFold(sum, Hex(FromBv(Xor(other)))) { FoldOfHex(FromBv(Xor(body)), FromBv(Xor(other))); }
  }

  /** Substituting any one character of an ASCII body by another breaks the checksum. */
  lemma SubstitutionDetected(body: text, k: nat, c: byte)
    requires Ascii(body) && k < |body| && c < 128 && c != body[k]
    ensures !ChecksumValid(Framed(body[k := c], Hex(FromBv(Xor(body)))))
  {
    hide FromBv, Bv, Hex, ChecksumValid, Framed, Runes, XorRunes;
    var changed := body[k := c];
    AsciiRunes(body);
    AsciiRunes(changed);
    assert Low8(c) == c && Low8(body[k]) == body[k];
    if Bv(c) == Bv(body[k]) { BvInjective(c, body[k]); }
    XorDiffers(body, changed, k);
    OtherXorFails(body, changed);
  }

  lemma HexHasNoStar(b: byte)
    ensures Hex(b)[0] != STAR && Hex(b)[1] != STAR
  {
    hide HexDigit;
  }

  // ----- the definitions above, against the standards -----

  /** The Unicode scalar values. */
  predicate IsScalar(r: nat) { r < 0xD800 || 0xE000 <= r < 0x110000 }

  /** Section 3 of RFC 3629. */
  function Utf8(r: nat): (s: text)
    requires IsScalar(r)
    ensures 1 <= |s| <= 4
  {
    if r < 0x80 then [r]
    else if r < 0x800 then [0xC0 + r / 64, 0x80 + r % 64]
    else if r < 0x10000 then [0xE0 + r / 64 / 64, 0x80 + r / 64 % 64, 0x80 + r % 64]
    else [0xF0 + r / 64 / 64 / 64, 0x80 + r / 64 / 64 % 64, 0x80 + r / 64 % 64, 0x80 + r % 64]
  }

  lemma TwoBytes(r: nat, s: text)
    requires 0x80 <= r < 0x800 && Utf8(r) <= s
    ensures FirstRune(s) == r && RuneLength(s) == 2
  {
    assert s[0] == Utf8(r)[0] && s[1] == Utf8(r)[1];
  }

  lemma ThreeBytes(r: nat, s: text)
    requires 0x800 <= r < 0x10000 && IsScalar(r) && Utf8(r) <= s
    ensures FirstRune(s) == r && RuneLength(s) == 3
  {
    var q := r / 64;
    assert s[0] == 0xE0 + q / 64 && s[1] == 0x80 + q % 64 && s[2] == 0x80 + r % 64;
    assert RuneLength(s) == 3;
    assert (s[0] as int % 16 * 64 + s[1] as int % 64) == q;
  }

  lemma FourBytes(r: nat, s: text)
    requires 0x10000 <= r < 0x110000 && Utf8(r) <= s
    ensures FirstRune(s) == r && RuneLength(s) == 4
  {
    var q := r / 64;
    var p := q / 64;
    assert s[0] == 0xF0 + p / 64 && s[1] == 0x80 + p % 64 && s[2] == 0x80 + q % 64 && s[3] == 0x80 + r % 64;
    assert RuneLength(s) == 4;
    assert (s[0] as int % 8 * 64 + s[1] as int % 64) == p;
  }

  /** An encoded scalar value is read back, and its bytes taken, whatever follows. */
  lemma RuneOfUtf8(r: nat, s: text)
    requires IsScalar(r) && Utf8(r) <= s
    ensures FirstRune(s) == r && RuneLength(s) == |Utf8(r)|
  {
    hide FirstRune, RuneLength;
    if r < 0x80 {
      OneByteRune(r, s);
    } else if r < 0x800 {
      TwoBytes(r, s);
    } else if r < 0x10000 {
      ThreeBytes(r, s);
    } else {
      FourBytes(r, s);
    }
  }

  lemma OneByteRune(r: nat, s: text)
    requires r < 0x80 && Utf8(r) <= s
    ensures FirstRune(s) == r && RuneLength(s) == 1
  {
    assert s[0] == Utf8(r)[0];
  }

  ghost predicate StartsEncoded(s: text) { exists q | IsScalar(q) :: Utf8(q) <= s }

  /** A string starts with the encoding of its first rune, or with none, and then one byte counts as U+FFFD. */
  lemma FirstRuneIs(s: text)
    requires s != []
    ensures || (IsScalar(FirstRune(s)) && s[..RuneLength(s)] == Utf8(FirstRune(s)))
            || (FirstRune(s) == 0xFFFD && RuneLength(s) == 1 && !StartsEncoded(s))
  {
    hide FirstRune, RuneLength, Utf8;
    var r, n := FirstRune(s), RuneLength(s);
    if n > 1 || s[0] < 0x80 {
      WellFormed(s);
    } else {
      IllFormed(s);
      forall q | IsScalar(q) ensures !(Utf8(q) <= s) {
        if Utf8(q) <= s {
          RuneOfUtf8(q, s);
          OneByte(q);
        }
      }
    }
  }

  lemma OneByte(q: nat)
    requires IsScalar(q)
    ensures |Utf8(q)| == 1 ==> Utf8(q)[0] < 0x80
  {
  }

  lemma IllFormed(s: text)
    requires s != [] && RuneLength(s) == 1 && s[0] >= 0x80
    ensures FirstRune(s) == 0xFFFD
  {
  }

  lemma Continued(q: nat, c: byte)
    requires Continues(c)
    ensures var r := q * 64 + c as int % 64; r / 64 == q && 0x80 + r % 64 == c as int
  {
  }

  lemma WellFormedTwo(s: text)
    requires |s| >= 2 && RuneLength(s) == 2
    ensures IsScalar(FirstRune(s)) && [s[0], s[1]] == Utf8(FirstRune(s))
  {
    Continued(s[0] as int % 32, s[1]);
  }

  lemma WellFormedThree(s: text)
    requires |s| >= 3 && RuneLength(s) == 3
    ensures IsScalar(FirstRune(s)) && [s[0], s[1], s[2]] == Utf8(FirstRune(s))
  {
    var q := s[0] as int % 16 * 64 + s[1] as int % 64;
    Continued(s[0] as int % 16, s[1]);
    Continued(q, s[2]);
    assert FirstRune(s) == q * 64 + s[2] as int % 64;
  }

  lemma WellFormedFour(s: text)
    requires |s| >= 4 && RuneLength(s) == 4
    ensures IsScalar(FirstRune(s)) && [s[0], s[1], s[2], s[3]] == Utf8(FirstRune(s))
  {
    hide FirstRune, RuneLength, Utf8;
    FourLong(s);
    FourIs(s);
    EncodesFour(s[0], s[1], s[2], s[3]);
  }

  lemma EncodesFour(a: byte, b: byte, c: byte, d: byte)
    requires 0xF0 <= a <= 0xF4 && Continues(b) && Continues(c) && Continues(d)
    requires (a == 0xF0 ==> b >= 0x90) && (a == 0xF4 ==> b <= 0x8F)
    ensures var r := ((a as int % 8 * 64 + b as int % 64) * 64 + c as int % 64) * 64 + d as int % 64;
            IsScalar(r) && r >= 0x10000 && [a, b, c, d] == Utf8(r)
  {
    hide Utf8;
    var p := a as int % 8 * 64 + b as int % 64;
    var q := p * 64 + c as int % 64;
    var r := q * 64 + d as int % 64;
    FourRange(a, b);
    Continued(a as int % 8, b);
    Continued(p, c);
    Continued(q, d);
    Utf8Four(r, q, p);
  }

  lemma FourRange(a: byte, b: byte)
    requires 0xF0 <= a <= 0xF4 && Continues(b) && (a == 0xF0 ==> b >= 0x90) && (a == 0xF4 ==> b <= 0x8F)
    ensures 0xF0 + a as int % 8 == a as int && 16 <= a as int % 8 * 64 + b as int % 64 < 272
  {
  }

  lemma Utf8Four(r: nat, q: nat, p: nat)
    requires 0x10000 <= r < 0x110000 && q == r / 64 && p == q / 64
    ensures Utf8(r) == [0xF0 + p / 64, 0x80 + p % 64, 0x80 + q % 64, 0x80 + r % 64]
  {
  }

  lemma FourLong(s: text)
    requires |s| >= 4 && RuneLength(s) == 4
    ensures 0xF0 <= s[0] <= 0xF4 && Continues(s[1]) && Continues(s[2]) && Continues(s[3])
    ensures (s[0] == 0xF0 ==> s[1] >= 0x90) && (s[0] == 0xF4 ==> s[1] <= 0x8F)
  {
  }

  lemma FourIs(s: text)
    requires |s| >= 4 && RuneLength(s) == 4
    ensures FirstRune(s) ==
            ((s[0] as int % 8 * 64 + s[1] as int % 64) * 64 + s[2] as int % 64) * 64 + s[3] as int % 64
  {
    hide RuneLength;
  }

  lemma WellFormed(s: text)
    requires s != [] && (RuneLength(s) > 1 || s[0] < 0x80)
    ensures IsScalar(FirstRune(s)) && s[..RuneLength(s)] == Utf8(FirstRune(s))
  {
    hide FirstRune, Utf8;
    var n := RuneLength(s);
    if n == 2 {
      WellFormedTwo(s);
      assert s[..2] == [s[0], s[1]];
    } else if n == 3 {
      WellFormedThree(s);
      assert s[..3] == [s[0], s[1], s[2]];
    } else if n == 4 {
      WellFormedFour(s);
      assert s[..4] == [s[0], s[1], s[2], s[3]];
    } else {
      Ascii1(s);
    }
  }

  lemma Ascii1(s: text)
    requires s != [] && RuneLength(s) == 1 && s[0] < 0x80
    ensures FirstRune(s) == s[0] && s[..1] == Utf8(s[0])
  {
  }

  /** The checksum is the XOR of the low bytes of the runes; of an ASCII string, of its bytes. */
  lemma {:induction false} XorIs(rs: seq<nat>, low: seq<byte>)
    requires |low| == |rs| && forall i :: 0 <= i < |rs| ==> low[i] == rs[i] % 256
    ensures XorRunes(rs) == XorAll(low)
  {
    hide Bv;
    if rs != [] { XorIs(rs[..|rs| - 1], low[..|rs| - 1]); }
  }

  /** The value of a hexadecimal digit of either case; too much for anything else. */
  function Digit(c: byte): nat {
    if 0x30 <= c <= 0x39 then c - 0x30
    else if 0x41 <= c <= 0x46 then c - 0x37
    else if 0x61 <= c <= 0x66 then c - 0x57
    else 256
  }

  lemma FoldIsValue(c: byte, d: byte, b: byte)
    ensures EqualFold([c, d], Hex(b)) <==> Digit(c) * 16 + Digit(d) == b
  {
    assert EqualFold([c, d], Hex(b)) <==> Upper(c) == Upper(Hex(b)[0]) && Upper(d) == Upper(Hex(b)[1]);
    DigitFolds(c, b / 16);
    DigitFolds(d, b % 16);
  }

  lemma DigitFolds(c: byte, n: nat)
    requires n < 16
    ensures Upper(c) == Upper(HexDigit(n)) <==> Digit(c) == n
  {
  }

  /** Position `i` has the last star, and the two characters behind it are the XOR of what stands before, in hexadecimal. */
  predicate SumAt(l: text, i: int) {
    && 0 <= i < |l| - 2 && l[i] == 0x2A && (forall j :: i < j < |l| ==> l[j] != 0x2A)
    && Digit(l[i + 1]) * 16 + Digit(l[i + 2]) == Xor(l[..i]) as int
  }

  /**
   A line passes exactly if the two characters behind its last star are hexadecimal digits, of either case, of the XOR of
   what stands between the dollar, if there is one, and that star.
   */
  lemma AcceptedExactly(line: text, l: text)
    requires l == if line != [] && line[0] == 0x24 then line[1..] else line
    ensures ChecksumValid(line) <==> exists i :: SumAt(l, i)
  {
    hide LastIndex, Xor, EqualFold, Hex, Digit;
    var i := LastIndex(l, STAR);
    if 0 <= i < |l| - 2 {
      assert l[i + 1..i + 3] == [l[i + 1], l[i + 2]];
      FoldIsValue(l[i + 1], l[i + 2], FromBv(Xor(l[..i])));
      assert SumAt(l, i) <==> ChecksumValid(line);
    }
  }

  /** The line "$A,1*5C": built from "A" and "1", and read back with either case of its checksum. */
  lemma SmallLine()
    ensures Line(Body([0x41], [[0x31]])) == [0x24, 0x41, 0x2C, 0x31, 0x2A, 0x35, 0x43]
    ensures ParseAis140([0x24, 0x41, 0x2C, 0x31, 0x2A, 0x35, 0x63]) == [[0x41], [0x31]]
    ensures ParseAis140([0x41, 0x2C, 0x31]) == [[0x41], [0x31]]
    ensures ChecksumValid([0x24, 0x41, 0x2C, 0x31, 0x2A, 0x35, 0x63])
  {
    hide LastIndex, Split, Xor, FromBv, EqualFold;
    var body: text := [0x41, 0x2C, 0x31];
    assert TrimDollar(body) == body && LastIndex(body, STAR) == -1;
    SmallXor();
    assert Framed(body, [0x35, 0x63]) == [0x24, 0x41, 0x2C, 0x31, 0x2A, 0x35, 0x63];
    StarOfLine(body, [0x35, 0x63]);
    FoldIsValue(0x35, 0x63, 0x5C);
    var parts: seq<text> := [[0x41], [0x31]];
    var fields := parts[1..];
    assert fields == [[0x31]] && Join(fields) == [0x31];
    assert Join(parts) == body && Body([0x41], fields) == body;
    SplitOfJoin([[0x41], [0x31]]);
  }

  lemma SmallXor()
    ensures FromBv(Xor([0x41, 0x2C, 0x31])) == 0x5C
  {
    hide Runes, XorRunes, Bv, Low8;
    var body: text := [0x41, 0x2C, 0x31];
    AsciiRunes(body);
    SmallBytes();
    NoRunes([]);
    MoreXor([], 0x41);
    MoreXor([] + [0x41], 0x2C);
    MoreXor([] + [0x41] + [0x2C], 0x31);
    assert body == [] + [0x41] + [0x2C] + [0x31];
  }

  lemma SmallBytes()
    ensures Bv(Low8(0x41)) == 0x41 && Bv(Low8(0x2C)) == 0x2C && Bv(Low8(0x31)) == 0x31
  {
  }
}
