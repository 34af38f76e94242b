/** JT/T 808 framing: byte stuffing, checksummed frames between 0x7E flags, and the location batch. */
module Jt808 {
  import opened Options
  import opened Bytes

  const FLAG: byte := 0x7E
  const ESC: byte := 0x7D

  // ----- byte stuffing -----

  function EscapeByte(b: byte): seq<byte> {
    if b == FLAG then [ESC, 0x02] else if b == ESC then [ESC, 0x01] else [b]
  }

  function Escape(data: seq<byte>): seq<byte> {
    if data == [] then [] else EscapeByte(data[0]) + Escape(data[1..])
  }

  /** How many bytes the next step of unescaping takes, and what it puts out. */
  function Taken(data: seq<byte>): (n: nat)
    requires data != []
    ensures 1 <= n <= |data|
  {
    if data[0] == ESC && |data| > 1 then 2 else 1
  }

  /** An escape followed by neither 0x01 nor 0x02 disappears with the byte after it; a final escape is kept. */
  function PutOut(data: seq<byte>): seq<byte>
    requires data != []
  {
    if data[0] == ESC && |data| > 1 then
      if data[1] == 0x01 then [ESC] else if data[1] == 0x02 then [FLAG] else []
    else [data[0]]
  }

  function Unescape(data: seq<byte>): seq<byte> {
    if data == [] then [] else PutOut(data) + Unescape(data[Taken(data)..])
  }

  lemma {:induction false} EscapeAppend(a: seq<byte>, b: seq<byte>)
    ensures Escape(a + b) == Escape(a) + Escape(b)
  {
    hide EscapeByte;
    if a == [] {
      assert a + b == b;
    } else {
      EscapeAppend(a[1..], b);
      assert (a + b)[1..] == a[1..] + b && (a + b)[0] == a[0];
      var head, x, y := EscapeByte(a[0]), Escape(a[1..]), Escape(b);
      assert head + (x + y) == (head + x) + y;
    }
  }

  method EscapeLoop(data: seq<byte>) returns (out: seq<byte>)
    ensures out == Escape(data)
  {
    out := [];
    for i := 0 to |data|
      invariant out == Escape(data[..i])
    {
      assert data[..i + 1] == data[..i] + [data[i]];
      EscapeAppend(data[..i], [data[i]]);
      if data[i] == FLAG {
        out := out + [ESC, 0x02];
      } else if data[i] == ESC {
        out := out + [ESC, 0x01];
      } else {
        out := out + [data[i]];
      }
    }
    assert data[..|data|] == data;
  }

  lemma UnescapeStep(out: seq<byte>, data: seq<byte>)
    requires data != []
    ensures out + Unescape(data) == (out + PutOut(data)) + Unescape(data[Taken(data)..])
  {
    hide PutOut, Taken;
  }

  method UnescapeLoop(data: seq<byte>) returns (out: seq<byte>)
    ensures out == Unescape(data)
  {
    hide Unescape;
    out := [];
    var i := 0;
    assert [] + Unescape(data) == Unescape(data) && data[0..] == data;
    while i < |data|
      invariant 0 <= i <= |data|
      invariant Unescape(data) == out + Unescape(data[i..])
    {
      UnescapeStep(out, data[i..]);
      assert data[i..][Taken(data[i..])..] == data[i + Taken(data[i..])..];
      if data[i] == ESC && i + 1 < |data| {
        if data[i + 1] == 0x01 {
          out := out + [ESC];
        } else if data[i + 1] == 0x02 {
          out := out + [FLAG];
        }
        i := i + 1;
      } else {
        out := out + [data[i]];
      }
      i := i + 1;
    }
    NothingToUnescape(data[i..]);
  }

  lemma NothingToUnescape(s: seq<byte>)
    requires s == []
    ensures Unescape(s) == []
  {
  }

  /** The stuffing rule: 0x7E and 0x7D become a pair, nothing else changes. */
  lemma StuffedByte(b: byte, rest: seq<byte>)
    ensures Escape([b] + rest) ==
            (if b == 0x7E then [0x7D, 0x02] else if b == 0x7D then [0x7D, 0x01] else [b]) + Escape(rest)
  {
    assert ([b] + rest)[1..] == rest;
  }

  /** What the reader does with an escape: the two defined pairs, any other pair, one at the end. */
  lemma UnstuffedEscape(b: byte, rest: seq<byte>)
    ensures Unescape([0x7D, b] + rest) ==
            (if b == 0x01 then [0x7D] else if b == 0x02 then [0x7E] else []) + Unescape(rest)
    ensures Unescape([0x7D]) == [0x7D]
    ensures b != 0x7D ==> Unescape([b] + rest) == [b] + Unescape(rest)
  {
    var s := [0x7D, b] + rest;
    assert s[2..] == rest && PutOut(s) == if b == 0x01 then [0x7D] else if b == 0x02 then [0x7E] else [];
    assert ([b] + rest)[1..] == rest;
    assert [0x7D as byte][1..] == [];
  }

  predicate FlagFree(s: seq<byte>) { forall i :: 0 <= i < |s| ==> s[i] != FLAG }

  /** Every escape byte starts one of the two defined pairs. */
  predicate Clean(s: seq<byte>) {
    forall i :: 0 <= i < |s| && s[i] == ESC ==> i + 1 < |s| && (s[i + 1] == 0x01 || s[i + 1] == 0x02)
  }

  lemma {:induction false} EscapedIsClean(x: seq<byte>)
    ensures FlagFree(Escape(x)) && Clean(Escape(x))
  {
    if x != [] {
      EscapedIsClean(x[1..]);
      var head, tail := EscapeByte(x[0]), Escape(x[1..]);
      forall i | 0 <= i < |Escape(x)| && Escape(x)[i] == ESC
        ensures i + 1 < |Escape(x)| && (Escape(x)[i + 1] == 0x01 || Escape(x)[i + 1] == 0x02)
      {
        if i >= |head| { assert Escape(x)[i] == tail[i - |head|]; }
      }
    }
  }

  lemma UnescapeOneByte(b: byte, rest: seq<byte>)
    ensures Unescape(EscapeByte(b) + rest) == [b] + Unescape(rest)
  {
    var s := EscapeByte(b) + rest;
    assert PutOut(s) == [b] && Taken(s) == |EscapeByte(b)|;
    assert s[|EscapeByte(b)|..] == rest;
    UnescapeStep([], s);
  }

  lemma {:induction false} UnescapeOfEscape(x: seq<byte>)
    ensures Unescape(Escape(x)) == x
  {
    hide Unescape, EscapeByte;
    if x == [] {
      NothingToUnescape(Escape(x));
    } else {
      UnescapeOneByte(x[0], Escape(x[1..]));
      UnescapeOfEscape(x[1..]);
      assert x == [x[0]] + x[1..];
    }
  }

  /** Stuffing and unstuffing again restores a flag-free string exactly when it is clean. */
  lemma {:induction false} EscapeOfUnescape(x: seq<byte>)
    ensures Escape(Unescape(x)) == x <==> FlagFree(x) && Clean(x)
  {
    EscapedIsClean(Unescape(x));
    if FlagFree(x) && Clean(x) { CleanRestored(x); }
  }

  lemma {:induction false} CleanRestored(x: seq<byte>)
    requires FlagFree(x) && Clean(x)
    ensures Escape(Unescape(x)) == x
  {
    if x != [] {
      var k := if x[0] == ESC then 2 else 1;
      assert FlagFree(x[k..]) && Clean(x[k..]) by {
        forall i | 0 <= i < |x[k..]| && x[k..][i] == ESC
          ensures i + 1 < |x[k..]| && (x[k..][i + 1] == 0x01 || x[k..][i + 1] == 0x02)
        {
          assert x[i + k] == ESC;
        }
      }
      CleanRestored(x[k..]);
      var u := if x[0] != ESC then x[0] else if x[1] == 0x01 then ESC else FLAG;
      assert Unescape(x) == [u] + Unescape(x[k..]);
      assert x == EscapeByte(u) + x[k..];
    }
  }

  // ----- frames -----

  /** A frame as the reader returns it; `raw` is its reconstruction on the wire. */
  datatype Frame = Frame(msgId: nat, phone: seq<byte>, seqNum: nat, body: seq<byte>, raw: seq<byte>)

  datatype FrameError = NoStart | NoEnd | TooShort | BadChecksum

  datatype Result<+T> = Ok(value: T) | Err(error: FrameError)

  /** What stands between the two flags, stuffing removed: header, body, XOR checksum. */
  function FrameOf(data: seq<byte>): Result<Frame> {
    if |data| < 13 then Err(TooShort)
    else if XorAll(data[..|data| - 1]) != Bv(data[|data| - 1]) then Err(BadChecksum)
    else Ok(Frame(BE(data[0..2]), data[4..10], BE(data[10..12]), data[12..|data| - 1], [FLAG] + Escape(data) + [FLAG]))
  }

  /** Position of the first flag, or the length. */
  function FlagAt(s: seq<byte>): (i: nat)
    ensures i <= |s|
  {
    if s == [] || s[0] == FLAG then 0 else 1 + FlagAt(s[1..])
  }

  predicate FirstFlag(s: seq<byte>, i: nat) {
    i <= |s| && FlagFree(s[..i]) && (i < |s| ==> s[i] == FLAG)
  }

  /** It is the one position with no flag before it and a flag, or the end, at it. */
  lemma {:induction false} FlagAtIsFirst(s: seq<byte>, i: nat)
    ensures FirstFlag(s, i) <==> i == FlagAt(s)
  {
    if s == [] || s[0] == FLAG {
      if 0 < i <= |s| { assert s[..i][0] == FLAG; }
    } else if i > 0 {
      FlagAtIsFirst(s[1..], i - 1);
      if i <= |s| {
        var x, y := s[..i], s[1..][..i - 1];
        assert forall k :: 0 < k < i ==> x[k] == y[k - 1];
        if FlagFree(x) {
          forall k | 0 <= k < i - 1 ensures y[k] != FLAG { assert y[k] == x[k + 1]; }
        }
      }
    }
  }

  function BeforeFlag(s: seq<byte>): seq<byte> { s[..FlagAt(s)] }

  function AfterFlag(s: seq<byte>): seq<byte>
    requires FlagAt(s) < |s|
  {
    s[FlagAt(s) + 1..]
  }

  /** The outcome of reading one frame when `s` is still to be read, and what is left. */
  function FrameFrom(s: seq<byte>): (Result<Frame>, seq<byte>) {
    if FlagAt(s) == |s| then (Err(NoStart), [])
    else
      var t := AfterFlag(s);
      if FlagAt(t) == |t| then (Err(NoEnd), []) else (FrameOf(Unescape(BeforeFlag(t))), AfterFlag(t))
  }

  /** Reads up to and including the next flag; `None` when the connection ends first. */
  method ReadToFlag(conn: Conn) returns (seen: Option<seq<byte>>)
    modifies conn
    ensures var s := old(conn.unread);
            if FlagAt(s) == |s| then seen == None && conn.unread == []
            else seen == Some(BeforeFlag(s)) && conn.unread == AfterFlag(s)
  {
    ghost var s := conn.unread;
    var got: seq<byte> := [];
    while true
      invariant |got| <= |s| && got == s[..|got|] && FlagFree(got) && conn.unread == s[|got|..]
      decreases |s| - |got|
    {
      var buf := conn.ReadFull(1);
      if buf.None? {
        FlagAtIsFirst(s, |s|);
        return None;
      }
      assert buf.value[0] == s[|got|];
      if buf.value[0] == FLAG {
        FlagAtIsFirst(s, |got|);
        return Some(got);
      }
      got := got + [buf.value[0]];
    }
  }

  method ReadFrame(conn: Conn) returns (r: Result<Frame>)
    modifies conn
    ensures (r, conn.unread) == FrameFrom(old(conn.unread))
  {
    hide FlagAt, Unescape, Escape, XorAll, BE;
    var skipped := ReadToFlag(conn);
    if skipped.None? {
      return Err(NoStart);
    }
    var escaped := ReadToFlag(conn);
    if escaped.None? {
      return Err(NoEnd);
    }
    var data := UnescapeLoop(escaped.value);
    if |data| < 13 {
      return Err(TooShort);
    }
    var checksum := data[|data| - 1];
    var xor := XorLoop(data[..|data| - 1]);
    if xor != Bv(checksum) {
      return Err(BadChecksum);
    }
    var escapedAgain := EscapeLoop(data);
    r := Ok(Frame(BE(data[0..2]), data[4..10], BE(data[10..12]), data[12..|data| - 1],
                  [FLAG] + escapedAgain + [FLAG]));
  }

  // ----- writing frames -----

  datatype Message = Message(msgId: nat, phone: seq<byte>, seqNum: nat, body: seq<byte>)

  predicate MessageFits(m: Message) {
    m.msgId < Pow256(2) && |m.phone| == 6 && m.seqNum < Pow256(2)
  }

  /** Header and body; the attribute word is the body length cut to 16 bits. */
  function Content(m: Message): (s: seq<byte>)
    requires MessageFits(m)
    ensures |s| == 12 + |m.body|
  {
    ToBE(m.msgId, 2) + ToBE(|m.body|, 2) + m.phone + ToBE(m.seqNum, 2) + m.body
  }

  function Checked(m: Message): seq<byte>
    requires MessageFits(m)
  {
    Content(m) + [FromBv(XorAll(Content(m)))]
  }

  function Wire(m: Message): seq<byte>
    requires MessageFits(m)
  {
    [FLAG] + Escape(Checked(m)) + [FLAG]
  }

  method WriteFrame(m: Message) returns (framed: seq<byte>)
    requires MessageFits(m)
    ensures framed == Wire(m)
  {
    hide XorAll, Escape, ToBE;
    var data := ToBE(m.msgId, 2) + ToBE(|m.body|, 2) + m.phone + ToBE(m.seqNum, 2) + m.body;
    var xor := XorLoop(data);
    data := data + [FromBv(xor)];
    var escaped := EscapeLoop(data);
    framed := [FLAG] + escaped + [FLAG];
  }

  function FrameOfMessage(m: Message): Frame
    requires MessageFits(m)
  {
    Frame(m.msgId, m.phone, m.seqNum, m.body, Wire(m))
  }

  lemma CheckedIsAccepted(m: Message)
    requires MessageFits(m)
    ensures FrameOf(Checked(m)) == Ok(FrameOfMessage(m))
  {
    hide XorAll, Escape, BE, ToBE, Pow256, Bv, FromBv;
    var d := Checked(m);
    assert d[..|d| - 1] == Content(m);
    BvOfFromBv(XorAll(Content(m)));
    assert d[0..2] == ToBE(m.msgId, 2) && d[4..10] == m.phone && d[10..12] == ToBE(m.seqNum, 2);
    assert d[12..|d| - 1] == m.body;
    BEOfToBE(m.msgId, 2);
    BEOfToBE(m.seqNum, 2);
  }

  /**
   What a frame is on the wire: two flags, and between them, stuffing removed, message id, body length (cut to 16 bits),
   phone number, sequence number, body and the XOR of all these.
   */
  lemma OnTheWireIs(m: Message)
    requires MessageFits(m)
    ensures var w := Wire(m);
            && |w| >= 2 && w[0] == 0x7E && w[|w| - 1] == 0x7E
            && var d := Unescape(w[1..|w| - 1]);
            && |d| == 13 + |m.body|
            && BE(d[0..2]) == m.msgId && BE(d[2..4]) == |m.body| % 65536
            && d[4..10] == m.phone && BE(d[10..12]) == m.seqNum
            && d[12..12 + |m.body|] == m.body && Bv(d[12 + |m.body|]) == XorAll(d[..12 + |m.body|])
  {
    hide XorAll, Escape, Unescape, BE, ToBE, Pow256, Bv, FromBv;
    var w, c := Wire(m), Content(m);
    assert w[1..|w| - 1] == Escape(Checked(m));
    UnescapeOfEscape(Checked(m));
    var d := Checked(m);
    assert d[0..2] == ToBE(m.msgId, 2) && d[2..4] == ToBE(|m.body|, 2) && d[10..12] == ToBE(m.seqNum, 2);
    assert d[..12 + |m.body|] == c;
    Pow256Values();
    BEOfToBE(m.msgId, 2);
    BEOfCut(|m.body|, 2);
    BEOfToBE(m.seqNum, 2);
    BvOfFromBv(XorAll(c));
  }

  /** The reader finds its frame behind any flag-free garbage, and stops exactly at its end. */
  lemma FramedRead(garbage: seq<byte>, stuffed: seq<byte>, tail: seq<byte>)
    requires FlagFree(garbage) && FlagFree(stuffed)
    ensures FrameFrom(garbage + ([FLAG] + stuffed + [FLAG]) + tail) == (FrameOf(Unescape(stuffed)), tail)
  {
    hide FlagAt, FrameOf, Unescape;
    var s := garbage + ([FLAG] + stuffed + [FLAG]) + tail;
    assert s[..|garbage|] == garbage && s[|garbage|] == FLAG;
    FlagAtIsFirst(s, |garbage|);
    var t := s[|garbage| + 1..];
    assert t == stuffed + [FLAG] + tail;
    assert t[..|stuffed|] == stuffed && t[|stuffed|] == FLAG;
    FlagAtIsFirst(t, |stuffed|);
    assert t[|stuffed| + 1..] == tail;
  }

  lemma FrameRoundTrip(garbage: seq<byte>, m: Message, tail: seq<byte>)
    requires FlagFree(garbage) && MessageFits(m)
    ensures FrameFrom(garbage + Wire(m) + tail) == (Ok(FrameOfMessage(m)), tail)
  {
    hide FrameOf, FrameFrom, Unescape, Escape, Checked;
    EscapedIsClean(Checked(m));
    FramedRead(garbage, Escape(Checked(m)), tail);
    UnescapeOfEscape(Checked(m));
    CheckedIsAccepted(m);
  }

  /** One message on the line and the noise before it. */
  datatype Sent = Sent(garbage: seq<byte>, message: Message)

  predicate AllSendable(ms: seq<Sent>) {
    forall i :: 0 <= i < |ms| ==> FlagFree(ms[i].garbage) && MessageFits(ms[i].message)
  }

  function Line(ms: seq<Sent>): seq<byte>
    requires AllSendable(ms)
  {
    if ms == [] then [] else ms[0].garbage + Wire(ms[0].message) + Line(ms[1..])
  }

  function FramesFrom(s: seq<byte>, count: nat): (seq<Result<Frame>>, seq<byte>)
    decreases count
  {
    if count == 0 then ([], s)
    else
      var (first, rest) := FrameFrom(s);
      var (more, left) := FramesFrom(rest, count - 1);
      ([first] + more, left)
  }

  /** Any messages separated by any flag-free noise are read back in order, and exactly their bytes are consumed. */
  lemma {:induction false} LineRoundTrip(ms: seq<Sent>, tail: seq<byte>)
    requires AllSendable(ms)
    ensures var (frames, left) := FramesFrom(Line(ms) + tail, |ms|);
            && left == tail && |frames| == |ms|
            && forall i :: 0 <= i < |ms| ==> frames[i] == Ok(FrameOfMessage(ms[i].message))
  {
    hide MessageFits, Wire, FrameFrom;
    if ms != [] {
      var first, rest := ms[0].garbage + Wire(ms[0].message), Line(ms[1..]);
      assert (first + rest) + tail == first + (rest + tail);
      FrameRoundTrip(ms[0].garbage, ms[0].message, rest + tail);
      LineRoundTrip(ms[1..], tail);
    }
  }

  /** The bytes between the flags of the frame read from `s`. */
  function Stuffed(s: seq<byte>): seq<byte> {
    if FlagAt(s) == |s| then [] else BeforeFlag(AfterFlag(s))
  }

  lemma AroundFlag(s: seq<byte>)
    requires FlagAt(s) < |s|
    ensures s == BeforeFlag(s) + ([FLAG] + AfterFlag(s)) && FlagFree(BeforeFlag(s))
  {
    hide FlagAt, FlagFree;
    FlagAtIsFirst(s, FlagAt(s));
    SplitAround(s, FlagAt(s));
  }

  lemma SplitAround(s: seq<byte>, i: nat)
    requires i < |s|
    ensures s == s[..i] + ([s[i]] + s[i + 1..])
  {
  }

  lemma OnTheWire(s: seq<byte>)
    requires FrameFrom(s).0.Ok?
    ensures FrameFrom(s).0 == FrameOf(Unescape(Stuffed(s))) && FlagFree(Stuffed(s))
    ensures s == BeforeFlag(s) + ([FLAG] + Stuffed(s) + [FLAG]) + FrameFrom(s).1
  {
    hide FlagAt, BeforeFlag, AfterFlag, Unescape, FrameOf, FlagFree;
    var t := AfterFlag(s);
    AroundFlag(s);
    AroundFlag(t);
    var x, w, rest := BeforeFlag(s), BeforeFlag(t), AfterFlag(t);
    assert x + ([FLAG] + (w + ([FLAG] + rest))) == x + ([FLAG] + w + [FLAG]) + rest;
  }

  /**
   Every accepted frame reads back from its reconstructed bytes as itself, and these are the bytes that were on the
   wire exactly when each escape byte there began a defined pair.
   */
  lemma RawIsStable(s: seq<byte>, tail: seq<byte>)
    requires FrameFrom(s).0.Ok?
    ensures var frame := FrameFrom(s).0.value;
            && FrameFrom(frame.raw + tail) == (Ok(frame), tail)
            && s == BeforeFlag(s) + ([FLAG] + Stuffed(s) + [FLAG]) + FrameFrom(s).1
            && (frame.raw == [FLAG] + Stuffed(s) + [FLAG] <==> Clean(Stuffed(s)))
  {
    hide Unescape, Escape, FlagAt, FrameFrom, Stuffed, Clean, XorAll, BE;
    OnTheWire(s);
    var frame, w := FrameFrom(s).0.value, Stuffed(s);
    var d := Unescape(w);
    EscapedIsClean(d);
    FramedRead([], Escape(d), tail);
    assert [] + frame.raw + tail == frame.raw + tail;
    UnescapeOfEscape(d);
    EscapeOfUnescape(w);
    assert frame.raw[1..|frame.raw| - 1] == Escape(d);
    assert ([FLAG] + w + [FLAG])[1..|w| + 1] == w;
  }

  /** What a reader makes of whatever stands between two flags; in all outcomes it stops behind the second one. */
  lemma FrameOutcomes(garbage: seq<byte>, stuffed: seq<byte>, tail: seq<byte>)
    requires (forall i :: 0 <= i < |garbage| ==> garbage[i] != 0x7E) && forall i :: 0 <= i < |stuffed| ==> stuffed[i] != 0x7E
    ensures var (r, rest) := FrameFrom(garbage + ([0x7E] + stuffed + [0x7E]) + tail);
            var d := Unescape(stuffed);
            && rest == tail
            && (r == Err(TooShort) <==> |d| < 13)
            && (r == Err(BadChecksum) <==> |d| >= 13 && XorAll(d) != 0)
            && (r.Ok? <==> |d| >= 13 && XorAll(d) == 0)
  {
    hide Unescape, Escape, XorAll, BE, FrameFrom, Bv;
    FramedRead(garbage, stuffed, tail);
    var d := Unescape(stuffed);
    if |d| >= 13 { LastIsXor(d); }
  }

  lemma LastIsXor(d: seq<byte>)
    requires d != []
    ensures XorAll(d) == 0 <==> XorAll(d[..|d| - 1]) == Bv(d[|d| - 1])
  {
    hide Bv;
    assert d == d[..|d| - 1] + [d[|d| - 1]];
  }

  /** Without a flag there is no start, and with one alone no end; everything is used up in looking for it. */
  lemma NoFrame(garbage: seq<byte>, stuffed: seq<byte>)
    requires (forall i :: 0 <= i < |garbage| ==> garbage[i] != 0x7E) && forall i :: 0 <= i < |stuffed| ==> stuffed[i] != 0x7E
    ensures FrameFrom(garbage) == (Err(NoStart), [])
    ensures FrameFrom(garbage + ([0x7E] + stuffed)) == (Err(NoEnd), [])
  {
    hide FlagAt;
    assert garbage[..|garbage|] == garbage && stuffed[..|stuffed|] == stuffed;
    FlagAtIsFirst(garbage, |garbage|);
    FlagAtIsFirst(stuffed, |stuffed|);
    var s := garbage + ([0x7E] + stuffed);
    assert s[..|garbage|] == garbage && s[|garbage|] == FLAG && s[|garbage| + 1..] == stuffed;
    FlagAtIsFirst(s, |garbage|);
  }

  // ----- the location batch -----

  /** A location report, its fields as the raw integers and the six BCD time bytes on the wire. */
  datatype Location = Location(
    alarm: nat, status: nat, lat: nat, lng: nat, altitude: nat, speed: nat, direction: nat, time: seq<byte>)

  function Fields(body: seq<byte>): Location
    requires |body| >= 28
  {
    Location(BE(body[0..4]), BE(body[4..8]), BE(body[8..12]), BE(body[12..16]),
             BE(body[16..18]), BE(body[18..20]), BE(body[20..22]), body[22..28])
  }

  function ParseLocation(body: seq<byte>): Option<Location> {
    if |body| < 28 then None else Some(Fields(body))
  }

  predicate LocationFits(l: Location) {
    && l.alarm < Pow256(4) && l.status < Pow256(4) && l.lat < Pow256(4) && l.lng < Pow256(4)
    && l.altitude < Pow256(2) && l.speed < Pow256(2) && l.direction < Pow256(2) && |l.time| == 6
  }

  /** Alarm, status, latitude, longitude, altitude, speed, direction, BCD time. */
  function EncodeLocation(l: Location): (s: seq<byte>)
    requires LocationFits(l)
    ensures |s| == 28
  {
    ToBE(l.alarm, 4) + ToBE(l.status, 4) + ToBE(l.lat, 4) + ToBE(l.lng, 4)
    + ToBE(l.altitude, 2) + ToBE(l.speed, 2) + ToBE(l.direction, 2) + l.time
  }

  lemma LocationRoundTrip(l: Location, extra: seq<byte>)
    requires LocationFits(l)
    ensures ParseLocation(EncodeLocation(l) + extra) == Some(l)
  {
    hide BE, ToBE, Pow256;
    var s := EncodeLocation(l) + extra;
    assert s[0..4] == ToBE(l.alarm, 4) && s[4..8] == ToBE(l.status, 4);
    assert s[8..12] == ToBE(l.lat, 4) && s[12..16] == ToBE(l.lng, 4);
    assert s[16..18] == ToBE(l.altitude, 2) && s[18..20] == ToBE(l.speed, 2) && s[20..22] == ToBE(l.direction, 2);
    assert s[22..28] == l.time;
    BEOfToBE(l.alarm, 4);
    BEOfToBE(l.status, 4);
    BEOfToBE(l.lat, 4);
    BEOfToBE(l.lng, 4);
    BEOfToBE(l.altitude, 2);
    BEOfToBE(l.speed, 2);
    BEOfToBE(l.direction, 2);
  }

  /** Each field stands at its documented offset. */
  lemma LocationLayout(body: seq<byte>)
    requires |body| >= 28
    ensures ParseLocation(body).Some?
    ensures var l := ParseLocation(body).value;
            && l.alarm == body[0] as int * 0x100_0000 + body[1] as int * 0x1_0000 + body[2] as int * 256 + body[3] as int
            && l.status == body[4] as int * 0x100_0000 + body[5] as int * 0x1_0000 + body[6] as int * 256 + body[7] as int
            && l.lat == body[8] as int * 0x100_0000 + body[9] as int * 0x1_0000 + body[10] as int * 256 + body[11] as int
            && l.lng == body[12] as int * 0x100_0000 + body[13] as int * 0x1_0000 + body[14] as int * 256 + body[15] as int
            && l.altitude == body[16] as int * 256 + body[17] as int && l.speed == body[18] as int * 256 + body[19] as int
            && l.direction == body[20] as int * 256 + body[21] as int && l.time == body[22..28]
  {
    hide BE;
    BE4(body[0..4]);
    BE4(body[4..8]);
    BE4(body[8..12]);
    BE4(body[12..16]);
    BE2(body[16..18]);
    BE2(body[18..20]);
    BE2(body[20..22]);
  }

  function Kept(item: seq<byte>): seq<Location> {
    match ParseLocation(item)
    case None => []
    case Some(l) => [l]
  }

  /** Up to `count` length-prefixed items at the front of `s`, until one does not fit. */
  function Items(s: seq<byte>, count: nat): seq<Location>
    decreases count
  {
    if count == 0 || |s| < 2 then []
    else
      var len := BE(s[..2]);
      if |s| < 2 + len then [] else Kept(s[2..2 + len]) + Items(s[2 + len..], count - 1)
  }

  /** `None` is the error for a body under four bytes. */
  function Batch(body: seq<byte>): Option<seq<Location>> {
    if |body| < 4 then None else Some(Items(body[3..], BE(body[..2])))
  }

  lemma ItemsStep(done: seq<Location>, s: seq<byte>, count: nat)
    requires count > 0
    ensures |s| < 2 || |s| < 2 + BE(s[..2]) ==> Items(s, count) == []
    ensures |s| >= 2 && |s| >= 2 + BE(s[..2]) ==>
              var n := 2 + BE(s[..2]);
              done + Items(s, count) == (done + Kept(s[2..n])) + Items(s[n..], count - 1)
  {
    hide BE, Kept;
  }

  method ParseLocationBatch(body: seq<byte>) returns (r: Option<seq<Location>>)
    ensures r == Batch(body)
  {
    hide ParseLocation, BE, Items;
    if |body| < 4 {
      return None;
    }
    var count := BE(body[..2]);
    var offset := 3;
    var records := [];
    var i := 0;
    assert [] + Items(body[3..], count) == Items(body[3..], count);
    while i < count
      invariant 0 <= i <= count && 3 <= offset <= |body|
      invariant Items(body[3..], count) == records + Items(body[offset..], count - i)
    {
      ghost var rest := body[offset..];
      ItemsStep(records, rest, count - i);
      if offset + 2 > |body| {
        assert records + [] == records;
        return Some(records);
      }
      var itemLen := BE(body[offset..offset + 2]);
      assert rest[..2] == body[offset..offset + 2];
      if offset + 2 + itemLen > |body| {
        assert records + [] == records;
        return Some(records);
      }
      offset := offset + 2;
      assert rest[2..2 + itemLen] == body[offset..offset + itemLen];
      assert rest[2 + itemLen..] == body[offset + itemLen..];
      var rec := ParseLocation(body[offset..offset + itemLen]);
      if rec.Some? {
        records := records + [rec.value];
      }
      offset := offset + itemLen;
      i := i + 1;
    }
    NoItemsLeft(body[offset..]);
    assert records + [] == records;
    r := Some(records);
  }

  lemma NoItemsLeft(s: seq<byte>)
    ensures Items(s, 0) == []
  {
  }

  predicate ItemsFit(items: seq<seq<byte>>) {
    |items| < Pow256(2) && forall i :: 0 <= i < |items| ==> |items[i]| < Pow256(2)
  }

  function EncodeItem(item: seq<byte>): (s: seq<byte>)
    ensures |s| == 2 + |item|
  {
    ToBE(|item|, 2) + item
  }

  function EncodeItems(items: seq<seq<byte>>): seq<byte> {
    if items == [] then [] else EncodeItem(items[0]) + EncodeItems(items[1..])
  }

  function EncodeBatch(items: seq<seq<byte>>, kind: byte): seq<byte> {
    ToBE(|items|, 2) + [kind] + EncodeItems(items)
  }

  /** The locations of the items long enough to hold one, in order. */
  function LongEnough(items: seq<seq<byte>>): seq<Location> {
    if items == [] then []
    else if |items[0]| >= 28 then [Fields(items[0])] + LongEnough(items[1..])
    else LongEnough(items[1..])
  }

  lemma ItemInFront(item: seq<byte>, rest: seq<byte>)
    requires |item| < Pow256(2)
    ensures var s := EncodeItem(item) + rest;
            BE(s[..2]) == |item| && s[2..2 + |item|] == item && s[2 + |item|..] == rest
  {
    hide BE, ToBE, Pow256;
    assert (EncodeItem(item) + rest)[..2] == ToBE(|item|, 2);
    BEOfToBE(|item|, 2);
  }

  lemma ItemsWithOneInFront(item: seq<byte>, rest: seq<byte>, count: nat)
    requires |item| < Pow256(2)
    ensures Items(EncodeItem(item) + rest, count + 1) == Kept(item) + Items(rest, count)
  {
    hide BE, EncodeItem, Kept, Pow256;
    ItemInFront(item, rest);
  }

  lemma {:induction false} ItemsRoundTrip(items: seq<seq<byte>>, tail: seq<byte>)
    requires forall i :: 0 <= i < |items| ==> |items[i]| < Pow256(2)
    ensures Items(EncodeItems(items) + tail, |items|) == LongEnough(items)
  {
    hide Items, EncodeItem, Fields, Pow256;
    if items == [] {
      NoItemsLeft(EncodeItems(items) + tail);
    } else {
      var first, rest := EncodeItem(items[0]), EncodeItems(items[1..]);
      assert (first + rest) + tail == first + (rest + tail);
      ItemsWithOneInFront(items[0], rest + tail, |items| - 1);
      ItemsRoundTrip(items[1..], tail);
      assert [] + LongEnough(items[1..]) == LongEnough(items[1..]);
    }
  }

  lemma BatchRoundTrip(items: seq<seq<byte>>, kind: byte)
    requires items != [] && ItemsFit(items)
    ensures Batch(EncodeBatch(items, kind)) == Some(LongEnough(items))
  {
    hide BE, ToBE, Items, LongEnough, Pow256;
    var s := EncodeBatch(items, kind);
    assert |EncodeItems(items)| >= 2;
    assert s[..2] == ToBE(|items|, 2) && s[3..] == EncodeItems(items) + [];
    BEOfToBE(|items|, 2);
    ItemsRoundTrip(items, []);
  }

  lemma {:induction false} ItemsCutShort(items: seq<seq<byte>>, cut: seq<byte>, more: nat)
    requires forall i :: 0 <= i < |items| ==> |items[i]| < Pow256(2)
    requires |cut| < 2 || |cut| < 2 + BE(cut[..2])
    ensures Items(EncodeItems(items) + cut, |items| + more) == LongEnough(items)
  {
    hide Items, EncodeItem, Fields, Pow256, BE;
    if items == [] {
      assert EncodeItems(items) + cut == cut;
      NothingFits(cut, more);
    } else {
      var first, rest := EncodeItem(items[0]), EncodeItems(items[1..]);
      assert (first + rest) + cut == first + (rest + cut);
      ItemsWithOneInFront(items[0], rest + cut, |items| - 1 + more);
      ItemsCutShort(items[1..], cut, more);
      assert [] + LongEnough(items[1..]) == LongEnough(items[1..]);
    }
  }

  lemma NothingFits(cut: seq<byte>, more: nat)
    requires |cut| < 2 || |cut| < 2 + BE(cut[..2])
    ensures Items(cut, more) == []
  {
    hide BE;
  }

  /** With a count too large the items end where one does not fit. */
  lemma BatchCutShort(items: seq<seq<byte>>, count: nat, kind: byte, cut: seq<byte>)
    requires (forall i :: 0 <= i < |items| ==> |items[i]| < 65536) && |items| <= count < 65536
    requires |EncodeItems(items) + cut| > 0
    requires |cut| < 2 || |cut| < 2 + BE(cut[..2])
    ensures Batch(ToBE(count, 2) + [kind] + (EncodeItems(items) + cut)) == Some(LongEnough(items))
  {
    hide BE, ToBE, Items, LongEnough, EncodeItems, Pow256;
    Pow256Values();
    CountInFront(count, kind, EncodeItems(items) + cut);
    ItemsCutShort(items, cut, count - |items|);
  }

  /** One too small leaves the rest unread; and a body is refused exactly if it is under four bytes. */
  lemma BatchOfFirst(items: seq<seq<byte>>, count: nat, kind: byte, tail: seq<byte>, body: seq<byte>)
    requires (forall i :: 0 <= i < |items| ==> |items[i]| < 65536) && count <= |items| && 0 < count < 65536
    ensures Batch(ToBE(count, 2) + [kind] + (EncodeItems(items) + tail)) == Some(LongEnough(items[..count]))
    ensures Batch(body) == None <==> |body| < 4
  {
    hide BE, ToBE, Items, LongEnough, Pow256;
    Pow256Values();
    var first, rest := items[..count], EncodeItems(items[count..]);
    EncodeItemsSplit(items, count);
    assert EncodeItems(first) != [];
    CountInFront(count, kind, EncodeItems(items) + tail);
    assert (EncodeItems(first) + rest) + tail == EncodeItems(first) + (rest + tail);
    ItemsRoundTrip(first, rest + tail);
  }

  lemma CountInFront(count: nat, kind: byte, rest: seq<byte>)
    requires count < Pow256(2) && rest != []
    ensures Batch(ToBE(count, 2) + [kind] + rest) == Some(Items(rest, count))
  {
    hide BE, ToBE, Items, Pow256;
    var s := ToBE(count, 2) + [kind] + rest;
    assert s[..2] == ToBE(count, 2) && s[3..] == rest;
    BEOfToBE(count, 2);
  }

  lemma {:induction false} EncodeItemsSplit(items: seq<seq<byte>>, k: nat)
    requires k <= |items|
    ensures EncodeItems(items) == EncodeItems(items[..k]) + EncodeItems(items[k..])
  {
    hide EncodeItem;
    if k == 0 {
      assert items[..0] == [] && items[0..] == items;
    } else {
      EncodeItemsSplit(items[1..], k - 1);
      assert items[..k][1..] == items[1..][..k - 1] && items[..k][0] == items[0] && items[1..][k - 1..] == items[k..];
    }
  }

  lemma {:induction false} ItemsOfPrefix(s: seq<byte>, k: nat, count: nat)
    requires k <= |s|
    ensures Items(s[..k], count) <= Items(s, count)
    decreases count
  {
    hide BE, Kept;
    if count > 0 && k >= 2 {
      assert s[..k][..2] == s[..2];
      var len := BE(s[..2]);
      if k >= 2 + len {
        assert s[..k][2..2 + len] == s[2..2 + len];
        assert s[..k][2 + len..] == s[2 + len..][..k - 2 - len];
        ItemsOfPrefix(s[2 + len..], k - 2 - len, count - 1);
      }
    }
  }

  /** A body cut short, but not under four bytes, yields a prefix of what the whole body yields. */
  lemma BatchOfPrefix(body: seq<byte>, k: nat)
    requires 4 <= k <= |body|
    ensures Batch(body[..k]).Some? && Batch(body).Some? && Batch(body[..k]).value <= Batch(body).value
  {
    hide BE, Items;
    assert body[..k][..2] == body[..2] && body[..k][3..] == body[3..][..k - 3];
    ItemsOfPrefix(body[3..], k - 3, BE(body[..2]));
  }

  lemma LongEnoughOfTwo(x: byte, report: seq<byte>)
    requires |report| == 28
    ensures LongEnough([[x], report]) == [Fields(report)]
  {
    hide Fields;
    assert [[x], report][1..] == [report] && [report][1..] == [];
    assert LongEnough([report]) == [Fields(report)] + LongEnough([]);
  }

  /** A batch of two items, of which only the second is long enough, whatever its kind byte. */
  lemma BatchLayout(kind: byte, x: byte, report: seq<byte>)
    requires |report| == 28
    ensures Batch([0x00, 0x02, kind] + [0x00, 0x01, x] + [0x00, 0x1C] + report) == Some([Fields(report)])
  {
    hide BE, ToBE, Items, Fields, Pow256;
    Pow256Values();
    ToBE2(1);
    ToBE2(2);
    ToBE2(28);
    var items := [[x], report];
    assert items[1..] == [report] && [report][1..] == [];
    assert EncodeItems([report]) == EncodeItem(report) + EncodeItems([]);
    assert EncodeItems(items) == EncodeItem([x]) + EncodeItems([report]);
    assert EncodeBatch(items, kind) == [0x00, 0x02, kind] + [0x00, 0x01, x] + [0x00, 0x1C] + report;
    LongEnoughOfTwo(x, report);
    BatchRoundTrip(items, kind);
  }
}
