/**
 The Teltonika AVL record format as the parser reads it: abstract records, their encoding, and a scanner that is
 proved to be the exact inverse of the encoding. Codec 8 Extended doubles the width of counts and ids and adds a
 group of variable-length elements; Codec 16 here is a 2-byte generation field followed by a Codec 8 record.
 */
module TeltonikaWire {
  import opened Bytes

  datatype Codec = Codec8 | Codec8E | Codec16

  /** One IO element of a fixed-width group. */
  datatype Element = Element(id: nat, value: int)

  /** One IO element of the variable-width group of Codec 8E. */
  datatype XElement = XElement(id: nat, bytes: seq<byte>)

  /** `groups` holds the 1-, 2-, 4- and 8-byte elements, in that order. */
  datatype Avl = Avl(
    timestamp: int, priority: byte, lng: int, lat: int, altitude: nat, heading: nat, satellites: byte, speed: nat,
    eventId: nat, total: nat, groups: seq<seq<Element>>, xs: seq<XElement>)

  datatype Item = Item(generation: nat, avl: Avl)

  /** The outcome of reading from a byte string: not enough bytes, or a value and the bytes it took. */
  datatype Scan<+T> = Short | Got(value: T, size: nat) {
    predicate IsFailure() { Short? }
    function PropagateFailure<U>(): Scan<U>
      requires Short?
    {
      Short
    }
    function Extract(): (T, nat)
      requires Got?
    {
      (value, size)
    }
  }

  const WIDTHS: seq<nat> := [1, 2, 4, 8]

  function IdWidth(ext: bool): nat { if ext then 2 else 1 }

  // ----- IO values: 1, 2 and 4 bytes zero-extended, 8 bytes two's complement -----

  predicate ValueFits(v: int, vw: nat) {
    if vw == 8 then FitsSigned(v, 8) else 0 <= v < Pow256(vw)
  }

  function ValueBytes(v: int, vw: nat): (s: seq<byte>)
    requires ValueFits(v, vw)
    ensures |s| == vw
  {
    ToBE(if vw == 8 then Unsigned(v, 8) else v, vw)
  }

  function ValueOf(s: seq<byte>): int {
    if |s| == 8 then Signed(BE(s), 8) else BE(s)
  }

  lemma ValueRoundTrip(v: int, vw: nat)
    requires ValueFits(v, vw)
    ensures ValueOf(ValueBytes(v, vw)) == v
  {
    BEOfToBE(if vw == 8 then Unsigned(v, 8) else v, vw);
    if vw == 8 { SignedOfUnsigned(v, 8); }
  }

  /** Only the widest value has a sign; it is the one number of its range that agrees with the eight bytes. */
  lemma ValueIs(s: seq<byte>)
    ensures |s| != 8 ==> ValueOf(s) == BE(s)
    ensures |s| == 8 ==>
              && (ValueOf(s) == BE(s) || ValueOf(s) == BE(s) - 0x1_0000_0000_0000_0000)
              && -0x8000_0000_0000_0000 <= ValueOf(s) < 0x8000_0000_0000_0000
  {
    hide BE, Pow256;
    Pow256Values();
  }

  lemma ValueInverse(s: seq<byte>)
    ensures ValueFits(ValueOf(s), |s|) && ValueBytes(ValueOf(s), |s|) == s
  {
    ToBEOfBE(s);
    if |s| == 8 { UnsignedOfSigned(BE(s), 8); }
  }

  // ----- one fixed-width element, a run of them, a counted group, the four groups -----

  predicate ElementFits(e: Element, vw: nat, iw: nat) {
    e.id < Pow256(iw) && ValueFits(e.value, vw)
  }

  function EncodeElement(e: Element, vw: nat, iw: nat): (s: seq<byte>)
    requires ElementFits(e, vw, iw)
    ensures |s| == iw + vw
  {
    ToBE(e.id, iw) + ValueBytes(e.value, vw)
  }

  function ReadElement(s: seq<byte>, vw: nat, iw: nat): Element
    requires |s| >= iw + vw
  {
    Element(BE(s[..iw]), ValueOf(s[iw..iw + vw]))
  }

  lemma ElementRoundTrip(e: Element, vw: nat, iw: nat, tail: seq<byte>)
    requires ElementFits(e, vw, iw)
    ensures ReadElement(EncodeElement(e, vw, iw) + tail, vw, iw) == e
  {
    hide BE, ToBE, Pow256, ValueFits, ValueBytes, ValueOf;
    var s := EncodeElement(e, vw, iw) + tail;
    assert s[..iw] == ToBE(e.id, iw) && s[iw..iw + vw] == ValueBytes(e.value, vw);
    BEOfToBE(e.id, iw);
    ValueRoundTrip(e.value, vw);
  }

  lemma ElementInverse(s: seq<byte>, vw: nat, iw: nat)
    requires |s| >= iw + vw
    ensures ElementFits(ReadElement(s, vw, iw), vw, iw)
    ensures EncodeElement(ReadElement(s, vw, iw), vw, iw) == s[..iw + vw]
  {
    hide BE, ToBE, Pow256, ValueFits, ValueBytes, ValueOf;
    ToBEOfBE(s[..iw]);
    ValueInverse(s[iw..iw + vw]);
    assert s[..iw + vw] == s[..iw] + s[iw..iw + vw];
  }

  predicate ElementsFit(es: seq<Element>, vw: nat, iw: nat) {
    forall i :: 0 <= i < |es| ==> ElementFits(es[i], vw, iw)
  }

  function EncodeElements(es: seq<Element>, vw: nat, iw: nat): seq<byte>
    requires ElementsFit(es, vw, iw)
  {
    if es == [] then [] else EncodeElement(es[0], vw, iw) + EncodeElements(es[1..], vw, iw)
  }

  function ScanElements(s: seq<byte>, count: nat, vw: nat, iw: nat): (r: Scan<seq<Element>>)
    ensures r.Got? ==> |r.value| == count
    decreases count
  {
    if count == 0 then Got([], 0)
    else if |s| < iw + vw then Short
    else
      var (es, n) :- ScanElements(s[iw + vw..], count - 1, vw, iw);
      Got([ReadElement(s, vw, iw)] + es, iw + vw + n)
  }

  lemma {:induction false} ElementsRoundTrip(es: seq<Element>, vw: nat, iw: nat, tail: seq<byte>)
    requires ElementsFit(es, vw, iw)
    ensures ScanElements(EncodeElements(es, vw, iw) + tail, |es|, vw, iw)
         == Got(es, |EncodeElements(es, vw, iw)|)
  {
    hide ElementFits, EncodeElement, ReadElement;
    if es != [] {
      var first, rest := EncodeElement(es[0], vw, iw), EncodeElements(es[1..], vw, iw);
      assert (first + rest) + tail == first + (rest + tail);
      ElementRoundTrip(es[0], vw, iw, rest + tail);
      ElementsRoundTrip(es[1..], vw, iw, tail);
      assert (first + (rest + tail))[|first|..] == rest + tail;
      assert [es[0]] + es[1..] == es;
    }
  }

  lemma {:induction false} ElementsInverse(s: seq<byte>, count: nat, vw: nat, iw: nat)
    requires ScanElements(s, count, vw, iw).Got?
    ensures var Got(es, n) := ScanElements(s, count, vw, iw);
            n <= |s| && ElementsFit(es, vw, iw) && s[..n] == EncodeElements(es, vw, iw)
    decreases count
  {
    hide ElementFits, EncodeElement, ReadElement;
    if count > 0 {
      var k := iw + vw;
      ElementsInverse(s[k..], count - 1, vw, iw);
      ElementInverse(s, vw, iw);
      var Got(es, n) := ScanElements(s, count, vw, iw);
      assert es[1..] == ScanElements(s[k..], count - 1, vw, iw).value;
      assert s[..n] == s[..k] + s[k..][..n - k];
    }
  }

  predicate GroupFits(es: seq<Element>, vw: nat, iw: nat) {
    |es| < Pow256(iw) && ElementsFit(es, vw, iw)
  }

  function EncodeGroup(es: seq<Element>, vw: nat, iw: nat): (s: seq<byte>)
    requires GroupFits(es, vw, iw)
    ensures |s| >= iw
  {
    ToBE(|es|, iw) + EncodeElements(es, vw, iw)
  }

  function ScanGroup(s: seq<byte>, vw: nat, iw: nat): Scan<seq<Element>> {
    if |s| < iw then Short
    else
      var (es, n) :- ScanElements(s[iw..], BE(s[..iw]), vw, iw);
      Got(es, iw + n)
  }

  lemma GroupRoundTrip(es: seq<Element>, vw: nat, iw: nat, tail: seq<byte>)
    requires GroupFits(es, vw, iw)
    ensures ScanGroup(EncodeGroup(es, vw, iw) + tail, vw, iw) == Got(es, |EncodeGroup(es, vw, iw)|)
  {
    hide BE, ToBE, Pow256, ElementsFit, EncodeElements, ScanElements;
    var s := EncodeGroup(es, vw, iw) + tail;
    assert s[..iw] == ToBE(|es|, iw) && s[iw..] == EncodeElements(es, vw, iw) + tail;
    BEOfToBE(|es|, iw);
    ElementsRoundTrip(es, vw, iw, tail);
  }

  lemma GroupInverse(s: seq<byte>, vw: nat, iw: nat)
    requires ScanGroup(s, vw, iw).Got?
    ensures var Got(es, n) := ScanGroup(s, vw, iw);
            n <= |s| && GroupFits(es, vw, iw) && s[..n] == EncodeGroup(es, vw, iw)
  {
    hide BE, ToBE, Pow256, ElementsFit, EncodeElements, ScanElements;
    var Got(es, n) := ScanGroup(s, vw, iw);
    ElementsInverse(s[iw..], BE(s[..iw]), vw, iw);
    ToBEOfBE(s[..iw]);
    assert s[..n] == s[..iw] + s[iw..][..n - iw];
  }

  predicate GroupsFit(gs: seq<seq<Element>>, widths: seq<nat>, iw: nat) {
    |gs| == |widths| && forall i :: 0 <= i < |gs| ==> GroupFits(gs[i], widths[i], iw)
  }

  function EncodeGroups(gs: seq<seq<Element>>, widths: seq<nat>, iw: nat): seq<byte>
    requires GroupsFit(gs, widths, iw)
  {
    if gs == [] then [] else EncodeGroup(gs[0], widths[0], iw) + EncodeGroups(gs[1..], widths[1..], iw)
  }

  function ScanGroups(s: seq<byte>, widths: seq<nat>, iw: nat): (r: Scan<seq<seq<Element>>>) {
    if widths == [] then Got([], 0)
    else
      var (g, n) :- ScanGroup(s, widths[0], iw);
      if n > |s| then Short
      else
        var (gs, m) :- ScanGroups(s[n..], widths[1..], iw);
        Got([g] + gs, n + m)
  }

  lemma {:induction false} GroupsRoundTrip(gs: seq<seq<Element>>, widths: seq<nat>, iw: nat, tail: seq<byte>)
    requires GroupsFit(gs, widths, iw)
    ensures ScanGroups(EncodeGroups(gs, widths, iw) + tail, widths, iw) == Got(gs, |EncodeGroups(gs, widths, iw)|)
  {
    hide GroupFits, EncodeGroup, ScanGroup;
    if gs != [] {
      var first, rest := EncodeGroup(gs[0], widths[0], iw), EncodeGroups(gs[1..], widths[1..], iw);
      assert (first + rest) + tail == first + (rest + tail);
      GroupRoundTrip(gs[0], widths[0], iw, rest + tail);
      GroupsRoundTrip(gs[1..], widths[1..], iw, tail);
      assert (first + (rest + tail))[|first|..] == rest + tail;
      assert [gs[0]] + gs[1..] == gs;
    }
  }

  lemma {:induction false} GroupsInverse(s: seq<byte>, widths: seq<nat>, iw: nat)
    requires ScanGroups(s, widths, iw).Got?
    ensures var Got(gs, n) := ScanGroups(s, widths, iw);
            n <= |s| && GroupsFit(gs, widths, iw) && s[..n] == EncodeGroups(gs, widths, iw)
  {
    hide GroupFits, EncodeGroup, ScanGroup;
    if widths != [] {
      GroupInverse(s, widths[0], iw);
      var k := ScanGroup(s, widths[0], iw).size;
      GroupsInverse(s[k..], widths[1..], iw);
      var Got(gs, n) := ScanGroups(s, widths, iw);
      assert gs[1..] == ScanGroups(s[k..], widths[1..], iw).value;
      assert s[..n] == s[..k] + s[k..][..n - k];
    }
  }

  // ----- the variable-width group -----

  predicate XFits(x: XElement) { x.id < Pow256(2) && |x.bytes| < Pow256(2) }

  function EncodeX(x: XElement): seq<byte>
    requires XFits(x)
  {
    ToBE(x.id, 2) + (ToBE(|x.bytes|, 2) + x.bytes)
  }

  function ScanX(s: seq<byte>): (r: Scan<XElement>)
    ensures r.Got? ==> r.size <= |s|
  {
    if |s| < 4 then Short
    else
      var len := BE(s[2..4]);
      if |s| < 4 + len then Short else Got(XElement(BE(s[..2]), s[4..4 + len]), 4 + len)
  }

  lemma XRoundTrip(x: XElement, tail: seq<byte>)
    requires XFits(x)
    ensures ScanX(EncodeX(x) + tail) == Got(x, |EncodeX(x)|)
  {
    hide BE, ToBE, Pow256;
    var s := EncodeX(x) + tail;
    assert s[..2] == ToBE(x.id, 2) && s[2..4] == ToBE(|x.bytes|, 2) && s[4..4 + |x.bytes|] == x.bytes;
    BEOfToBE(x.id, 2);
    BEOfToBE(|x.bytes|, 2);
  }

  lemma XInverse(s: seq<byte>)
    requires ScanX(s).Got?
    ensures var Got(x, n) := ScanX(s); XFits(x) && s[..n] == EncodeX(x)
  {
    hide BE, ToBE, Pow256;
    var n := ScanX(s).size;
    ToBEOfBE(s[..2]);
    ToBEOfBE(s[2..4]);
    assert s[..n] == s[..2] + (s[2..4] + s[4..n]);
  }

  predicate XsFit(xs: seq<XElement>) { forall i :: 0 <= i < |xs| ==> XFits(xs[i]) }

  function EncodeXs(xs: seq<XElement>): seq<byte>
    requires XsFit(xs)
  {
    if xs == [] then [] else EncodeX(xs[0]) + EncodeXs(xs[1..])
  }

  function ScanXs(s: seq<byte>, count: nat): (r: Scan<seq<XElement>>)
    ensures r.Got? ==> |r.value| == count
    decreases count
  {
    if count == 0 then Got([], 0)
    else
      var (x, k) :- ScanX(s);
      var (xs, n) :- ScanXs(s[k..], count - 1);
      Got([x] + xs, k + n)
  }

  lemma {:induction false} XsRoundTrip(xs: seq<XElement>, tail: seq<byte>)
    requires XsFit(xs)
    ensures ScanXs(EncodeXs(xs) + tail, |xs|) == Got(xs, |EncodeXs(xs)|)
  {
    hide XFits, EncodeX, ScanX;
    if xs != [] {
      var first, rest := EncodeX(xs[0]), EncodeXs(xs[1..]);
      assert (first + rest) + tail == first + (rest + tail);
      XRoundTrip(xs[0], rest + tail);
      XsRoundTrip(xs[1..], tail);
      assert (first + (rest + tail))[|first|..] == rest + tail;
      assert [xs[0]] + xs[1..] == xs;
    }
  }

  lemma {:induction false} XsInverse(s: seq<byte>, count: nat)
    requires ScanXs(s, count).Got?
    ensures var Got(xs, n) := ScanXs(s, count);
            n <= |s| && XsFit(xs) && s[..n] == EncodeXs(xs)
    decreases count
  {
    hide XFits, EncodeX, ScanX;
    if count > 0 {
      XInverse(s);
      var k := ScanX(s).size;
      XsInverse(s[k..], count - 1);
      var Got(xs, n) := ScanXs(s, count);
      assert xs[1..] == ScanXs(s[k..], count - 1).value;
      assert s[..n] == s[..k] + s[k..][..n - k];
    }
  }

  predicate XGroupFits(xs: seq<XElement>, ext: bool) {
    if ext then |xs| < Pow256(2) && XsFit(xs) else xs == []
  }

  function EncodeXGroup(xs: seq<XElement>, ext: bool): (s: seq<byte>)
    requires XGroupFits(xs, ext)
    ensures |s| >= if ext then 2 else 0
  {
    if ext then ToBE(|xs|, 2) + EncodeXs(xs) else []
  }

  function ScanXGroup(s: seq<byte>, ext: bool): Scan<seq<XElement>> {
    if !ext then Got([], 0)
    else if |s| < 2 then Short
    else
      var (xs, n) :- ScanXs(s[2..], BE(s[..2]));
      Got(xs, 2 + n)
  }

  lemma XGroupRoundTrip(xs: seq<XElement>, ext: bool, tail: seq<byte>)
    requires XGroupFits(xs, ext)
    ensures ScanXGroup(EncodeXGroup(xs, ext) + tail, ext) == Got(xs, |EncodeXGroup(xs, ext)|)
  {
    hide BE, ToBE, Pow256, XsFit, EncodeXs, ScanXs;
    if ext {
      var s := EncodeXGroup(xs, ext) + tail;
      assert s[..2] == ToBE(|xs|, 2) && s[2..] == EncodeXs(xs) + tail;
      BEOfToBE(|xs|, 2);
      XsRoundTrip(xs, tail);
    }
  }

  lemma XGroupInverse(s: seq<byte>, ext: bool)
    requires ScanXGroup(s, ext).Got?
    ensures var Got(xs, n) := ScanXGroup(s, ext);
            n <= |s| && XGroupFits(xs, ext) && s[..n] == EncodeXGroup(xs, ext)
  {
    hide BE, ToBE, Pow256, XsFit, EncodeXs, ScanXs;
    if ext {
      XsInverse(s[2..], BE(s[..2]));
      ToBEOfBE(s[..2]);
      var n := ScanXGroup(s, ext).size;
      assert s[..n] == s[..2] + s[2..][..n - 2];
    }
  }

  // ----- the fixed head: timestamp, priority, GPS element, IO header -----

  predicate HeadFits(a: Avl, iw: nat) {
    && FitsSigned(a.timestamp, 8)
    && FitsSigned(a.lng, 4) && FitsSigned(a.lat, 4)
    && a.altitude < Pow256(2) && a.heading < Pow256(2) && a.speed < Pow256(2)
    && a.eventId < Pow256(iw) && a.total < Pow256(iw)
  }

  function EncodeHead(a: Avl, iw: nat): (s: seq<byte>)
    requires HeadFits(a, iw)
    ensures |s| == 24 + 2 * iw
  {
    ToBE(Unsigned(a.timestamp, 8), 8) + [a.priority]
    + ToBE(Unsigned(a.lng, 4), 4) + ToBE(Unsigned(a.lat, 4), 4)
    + ToBE(a.altitude, 2) + ToBE(a.heading, 2) + [a.satellites] + ToBE(a.speed, 2)
    + ToBE(a.eventId, iw) + ToBE(a.total, iw)
  }

  /** The record whose head these bytes are, with no elements yet. */
  function ReadHead(s: seq<byte>, iw: nat): Avl
    requires |s| >= 24 + 2 * iw
  {
    Avl(Signed(BE(s[..8]), 8), s[8], Signed(BE(s[9..13]), 4), Signed(BE(s[13..17]), 4),
        BE(s[17..19]), BE(s[19..21]), s[21], BE(s[22..24]), BE(s[24..24 + iw]), BE(s[24 + iw..24 + 2 * iw]), [], [])
  }

  lemma HeadRoundTrip(a: Avl, iw: nat, tail: seq<byte>)
    requires HeadFits(a, iw)
    ensures ReadHead(EncodeHead(a, iw) + tail, iw) == a.(groups := [], xs := [])
  {
    hide BE, ToBE, Pow256, Signed, Unsigned, FitsSigned;
    var s := EncodeHead(a, iw) + tail;
    assert s[..8] == ToBE(Unsigned(a.timestamp, 8), 8) && s[8] == a.priority;
    assert s[9..13] == ToBE(Unsigned(a.lng, 4), 4) && s[13..17] == ToBE(Unsigned(a.lat, 4), 4);
    assert s[17..19] == ToBE(a.altitude, 2) && s[19..21] == ToBE(a.heading, 2);
    assert s[21] == a.satellites && s[22..24] == ToBE(a.speed, 2);
    assert s[24..24 + iw] == ToBE(a.eventId, iw) && s[24 + iw..24 + 2 * iw] == ToBE(a.total, iw);
    BEOfToBE(Unsigned(a.timestamp, 8), 8);
    BEOfToBE(Unsigned(a.lng, 4), 4);
    BEOfToBE(Unsigned(a.lat, 4), 4);
    BEOfToBE(a.altitude, 2);
    BEOfToBE(a.heading, 2);
    BEOfToBE(a.speed, 2);
    BEOfToBE(a.eventId, iw);
    BEOfToBE(a.total, iw);
    SignedOfUnsigned(a.timestamp, 8);
    SignedOfUnsigned(a.lng, 4);
    SignedOfUnsigned(a.lat, 4);
  }

  lemma HeadInverse(s: seq<byte>, iw: nat)
    requires |s| >= 24 + 2 * iw
    ensures HeadFits(ReadHead(s, iw), iw) && EncodeHead(ReadHead(s, iw), iw) == s[..24 + 2 * iw]
  {
    hide BE, ToBE, Signed, Unsigned, FitsSigned;
    ToBEOfBE(s[..8]);
    ToBEOfBE(s[9..13]);
    ToBEOfBE(s[13..17]);
    ToBEOfBE(s[17..19]);
    ToBEOfBE(s[19..21]);
    ToBEOfBE(s[22..24]);
    ToBEOfBE(s[24..24 + iw]);
    ToBEOfBE(s[24 + iw..24 + 2 * iw]);
    UnsignedOfSigned(BE(s[..8]), 8);
    UnsignedOfSigned(BE(s[9..13]), 4);
    UnsignedOfSigned(BE(s[13..17]), 4);
    assert s[..24 + 2 * iw] == s[..8] + [s[8]] + s[9..13] + s[13..17] + s[17..19] + s[19..21] + [s[21]] + s[22..24]
                               + s[24..24 + iw] + s[24 + iw..24 + 2 * iw];
  }

  // ----- a whole record -----

  predicate AvlFits(a: Avl, ext: bool) {
    HeadFits(a, IdWidth(ext)) && GroupsFit(a.groups, WIDTHS, IdWidth(ext)) && XGroupFits(a.xs, ext)
  }

  function EncodeAvl(a: Avl, ext: bool): seq<byte>
    requires AvlFits(a, ext)
  {
    var iw := IdWidth(ext);
    EncodeHead(a, iw) + (EncodeGroups(a.groups, WIDTHS, iw) + EncodeXGroup(a.xs, ext))
  }

  function ScanAvl(s: seq<byte>, ext: bool): Scan<Avl> {
    var iw := IdWidth(ext);
    var h := 24 + 2 * iw;
    if |s| < h then Short
    else
      var (gs, n) :- ScanGroups(s[h..], WIDTHS, iw);
      if h + n > |s| then Short
      else
        var (xs, m) :- ScanXGroup(s[h + n..], ext);
        Got(ReadHead(s, iw).(groups := gs, xs := xs), h + n + m)
  }

  lemma AvlRoundTrip(a: Avl, ext: bool, tail: seq<byte>)
    requires AvlFits(a, ext)
    ensures ScanAvl(EncodeAvl(a, ext) + tail, ext) == Got(a, |EncodeAvl(a, ext)|)
  {
    hide HeadFits, GroupsFit, XGroupFits, EncodeHead, EncodeGroups, EncodeXGroup, ReadHead, ScanGroups, ScanXGroup;
    var iw := IdWidth(ext);
    var head, groups, xs := EncodeHead(a, iw), EncodeGroups(a.groups, WIDTHS, iw), EncodeXGroup(a.xs, ext);
    var s := EncodeAvl(a, ext) + tail;
    assert s == head + (groups + (xs + tail));
    assert s[|head|..] == groups + (xs + tail);
    assert s[|head| + |groups|..] == xs + tail;
    HeadRoundTrip(a, iw, groups + (xs + tail));
    GroupsRoundTrip(a.groups, WIDTHS, iw, xs + tail);
    XGroupRoundTrip(a.xs, ext, tail);
  }

  lemma AvlInverse(s: seq<byte>, ext: bool)
    requires ScanAvl(s, ext).Got?
    ensures var Got(a, n) := ScanAvl(s, ext);
            n <= |s| && AvlFits(a, ext) && s[..n] == EncodeAvl(a, ext)
  {
    hide GroupsFit, XGroupFits, EncodeGroups, EncodeXGroup, ScanGroups, ScanXGroup;
    hide BE, ToBE, Pow256, Signed, Unsigned, FitsSigned;
    var iw := IdWidth(ext);
    var h := 24 + 2 * iw;
    var Got(a, n) := ScanAvl(s, ext);
    HeadInverse(s, iw);
    GroupsInverse(s[h..], WIDTHS, iw);
    var k := h + ScanGroups(s[h..], WIDTHS, iw).size;
    XGroupInverse(s[k..], ext);
    assert EncodeHead(a, iw) == EncodeHead(ReadHead(s, iw), iw);
    assert s[..n] == s[..h] + (s[h..][..k - h] + s[k..][..n - k]);
  }

  // ----- a list of records under one codec -----

  predicate IsExtended(codec: Codec) { codec.Codec8E? }

  predicate ItemFits(it: Item, codec: Codec) {
    && it.generation < (if codec.Codec16? then Pow256(2) else 1)
    && AvlFits(it.avl, IsExtended(codec))
  }

  function EncodeItem(it: Item, codec: Codec): seq<byte>
    requires ItemFits(it, codec)
  {
    (if codec.Codec16? then ToBE(it.generation, 2) else []) + EncodeAvl(it.avl, IsExtended(codec))
  }

  function ScanItem(s: seq<byte>, codec: Codec): (r: Scan<Item>)
    ensures r.Got? && codec.Codec16? ==> r.size >= 2
  {
    var g := if codec.Codec16? then 2 else 0;
    if |s| < g then Short
    else
      var (a, n) :- ScanAvl(s[g..], IsExtended(codec));
      Got(Item(BE(s[..g]), a), g + n)
  }

  lemma ItemRoundTrip(it: Item, codec: Codec, tail: seq<byte>)
    requires ItemFits(it, codec)
    ensures ScanItem(EncodeItem(it, codec) + tail, codec) == Got(it, |EncodeItem(it, codec)|)
  {
    hide AvlFits, EncodeAvl, ScanAvl, ToBE, Pow256;
    var g := if codec.Codec16? then 2 else 0;
    var avl := EncodeAvl(it.avl, IsExtended(codec));
    var s := EncodeItem(it, codec) + tail;
    assert s[..g] == if codec.Codec16? then ToBE(it.generation, 2) else [];
    assert s[g..] == avl + tail;
    if codec.Codec16? { BEOfToBE(it.generation, 2); }
    AvlRoundTrip(it.avl, IsExtended(codec), tail);
  }

  lemma ItemInverse(s: seq<byte>, codec: Codec)
    requires ScanItem(s, codec).Got?
    ensures var Got(it, n) := ScanItem(s, codec);
            n <= |s| && ItemFits(it, codec) && s[..n] == EncodeItem(it, codec)
  {
    hide AvlFits, EncodeAvl, ScanAvl;
    var g := if codec.Codec16? then 2 else 0;
    AvlInverse(s[g..], IsExtended(codec));
    ToBEOfBE(s[..g]);
    assert BE([]) == 0;
    var n := ScanItem(s, codec).size;
    assert s[..0] == [];
    assert s[..n] == s[..g] + s[g..][..n - g];
  }

  predicate ItemsFit(its: seq<Item>, codec: Codec) {
    forall i :: 0 <= i < |its| ==> ItemFits(its[i], codec)
  }

  function EncodeItems(its: seq<Item>, codec: Codec): seq<byte>
    requires ItemsFit(its, codec)
  {
    if its == [] then [] else EncodeItem(its[0], codec) + EncodeItems(its[1..], codec)
  }

  function ScanItems(s: seq<byte>, count: nat, codec: Codec): (r: Scan<seq<Item>>)
    ensures r.Got? ==> |r.value| == count
    decreases count
  {
    if count == 0 then Got([], 0)
    else
      var (it, n) :- ScanItem(s, codec);
      if n > |s| then Short
      else
        var (its, m) :- ScanItems(s[n..], count - 1, codec);
        Got([it] + its, n + m)
  }

  lemma OneMoreItem(it: Item, its: seq<Item>, codec: Codec)
    requires ItemFits(it, codec) && ItemsFit(its, codec)
    ensures ItemsFit([it] + its, codec)
    ensures EncodeItems([it] + its, codec) == EncodeItem(it, codec) + EncodeItems(its, codec)
  {
    hide ItemFits, EncodeItem;
    assert ([it] + its)[1..] == its;
  }

  lemma ScanOneMore(s: seq<byte>, count: nat, codec: Codec, it: Item, k: nat, its: seq<Item>, m: nat)
    requires k <= |s| && ScanItem(s, codec) == Got(it, k) && ScanItems(s[k..], count, codec) == Got(its, m)
    ensures ScanItems(s, count + 1, codec) == Got([it] + its, k + m)
  {
  }

  lemma NoItems(s: seq<byte>, codec: Codec)
    ensures ScanItems(s, 0, codec) == Got([], 0) && ItemsFit([], codec) && s[..0] == EncodeItems([], codec)
  {
  }

  /** Reading what was encoded gives it back, whatever follows. */
  lemma {:induction false} ItemsRoundTrip(its: seq<Item>, codec: Codec, tail: seq<byte>)
    requires ItemsFit(its, codec)
    ensures ScanItems(EncodeItems(its, codec) + tail, |its|, codec) == Got(its, |EncodeItems(its, codec)|)
  {
    hide ItemFits, EncodeItem, EncodeItems, ScanItem, ScanItems;
    if its == [] {
      NoItems([] + tail, codec);
    } else {
      assert [its[0]] + its[1..] == its;
      OneMoreItem(its[0], its[1..], codec);
      var first, rest := EncodeItem(its[0], codec), EncodeItems(its[1..], codec);
      ItemRoundTrip(its[0], codec, rest + tail);
      ItemsRoundTrip(its[1..], codec, tail);
      assert (first + (rest + tail))[|first|..] == rest + tail;
      ScanOneMore(first + (rest + tail), |its| - 1, codec, its[0], |first|, its[1..], |rest|);
      assert (first + rest) + tail == first + (rest + tail);
    }
  }

  /** A successful read of several items is a read of the first and one of the rest. */
  lemma FirstItem(s: seq<byte>, count: nat, codec: Codec)
    requires count > 0 && ScanItems(s, count, codec).Got?
    ensures ScanItem(s, codec).Got? && ScanItem(s, codec).size <= |s|
    ensures var Got(it, k) := ScanItem(s, codec);
            var rest := ScanItems(s[k..], count - 1, codec);
            rest.Got? && ScanItems(s, count, codec) == Got([it] + rest.value, k + rest.size)
  {
    hide ScanItem;
  }

  /** Whatever is accepted is an encoding: nothing else parses. */
  lemma {:induction false} ItemsInverse(s: seq<byte>, count: nat, codec: Codec)
    ensures match ScanItems(s, count, codec)
            case Short => true
            case Got(its, n) => n <= |s| && ItemsFit(its, codec) && s[..n] == EncodeItems(its, codec)
    decreases count
  {
    hide ItemFits, ItemsFit, EncodeItem, EncodeItems, ScanItem, ScanItems;
    if count == 0 {
      NoItems(s, codec);
    } else if ScanItems(s, count, codec).Got? {
      FirstItem(s, count, codec);
      ItemInverse(s, codec);
      var Got(it, k) := ScanItem(s, codec);
      ItemsInverse(s[k..], count - 1, codec);
      var Got(its, m) := ScanItems(s[k..], count - 1, codec);
      OneMoreItem(it, its, codec);
      assert s[..k + m] == s[..k] + s[k..][..m];
    }
  }

  // ----- consequences of the two directions -----

  lemma AvlSize(a: Avl, ext: bool)
    requires AvlFits(a, ext)
    ensures |EncodeAvl(a, ext)| >= if ext then 38 else 30
  {
    hide HeadFits, GroupFits, XGroupFits, EncodeHead, EncodeGroup, EncodeXGroup;
    var iw, gs := IdWidth(ext), a.groups;
    assert |EncodeGroups(gs[3..], WIDTHS[3..], iw)| >= iw;
    assert |EncodeGroups(gs[2..], WIDTHS[2..], iw)| >= 2 * iw;
    assert |EncodeGroups(gs[1..], WIDTHS[1..], iw)| >= 3 * iw;
  }

  lemma {:induction false} ItemsSize(its: seq<Item>, codec: Codec)
    requires ItemsFit(its, codec)
    ensures |EncodeItems(its, codec)| >= |its| * if codec.Codec8E? then 38 else if codec.Codec16? then 32 else 30
  {
    hide AvlFits, EncodeAvl;
    if its != [] {
      AvlSize(its[0].avl, IsExtended(codec));
      ItemsSize(its[1..], codec);
    }
  }

  lemma TruncationAgrees(s: seq<byte>, k: nat, count: nat, codec: Codec)
    requires k <= |s|
    ensures match ScanItems(s[..k], count, codec)
            case Short => true
            case Got(its, n) => n <= k && ScanItems(s, count, codec) == Got(its, n)
  {
    hide ItemsFit, EncodeItems, ScanItems;
    ItemsInverse(s[..k], count, codec);
    if ScanItems(s[..k], count, codec).Got? {
      var Got(its, n) := ScanItems(s[..k], count, codec);
      assert s == EncodeItems(its, codec) + s[n..];
      ItemsRoundTrip(its, codec, s[n..]);
    }
  }

  /** The first `n` bytes decide the outcome, and no fewer of them do. */
  ghost predicate Delimited(s: seq<byte>, count: nat, codec: Codec, its: seq<Item>, n: nat)
    requires n <= |s|
  {
    && (forall t | s[..n] <= t :: ScanItems(t, count, codec) == Got(its, n))
    && (forall k | 0 <= k < n :: ScanItems(s[..k], count, codec) == Short)
  }

  /**
   The format is self-delimiting: a successful read of n bytes depends on those n bytes only, fails on every strict
   truncation of them, and n is at least the minimum record size per record.
   */
  lemma SelfDelimiting(s: seq<byte>, count: nat, codec: Codec)
    ensures match ScanItems(s, count, codec)
            case Short => true
            case Got(its, n) =>
              && count * (if codec.Codec8E? then 38 else if codec.Codec16? then 32 else 30) <= n <= |s|
              && Delimited(s, count, codec, its, n)
  {
    hide ItemsFit, EncodeItems, ScanItems;
    ItemsInverse(s, count, codec);
    if ScanItems(s, count, codec).Got? {
      var Got(its, n) := ScanItems(s, count, codec);
      ItemsSize(its, codec);
      forall t | s[..n] <= t ensures ScanItems(t, count, codec) == Got(its, n) {
        assert t == EncodeItems(its, codec) + t[n..];
        ItemsRoundTrip(its, codec, t[n..]);
      }
      forall k | 0 <= k < n ensures ScanItems(s[..k], count, codec) == Short {
        TruncationAgrees(s, k, count, codec);
      }
    }
  }

  function WithoutGenerations(its: seq<Item>): (r: seq<Item>)
    ensures |r| == |its| && forall i :: 0 <= i < |its| ==> r[i] == Item(0, its[i].avl)
  {
    seq(|its|, i requires 0 <= i < |its| => Item(0, its[i].avl))
  }

  /** The bytes of a Codec 16 list with the 2-byte field in front of each record cut out. */
  function CutGenerations(s: seq<byte>, count: nat): seq<byte>
    decreases count
  {
    var first := ScanItem(s, Codec16);
    if count == 0 || first.Short? || first.size > |s| then []
    else
      var n := first.size;
      s[2..n] + CutGenerations(s[n..], count - 1)
  }

  lemma CutOne(s: seq<byte>, it: Item, k: nat)
    requires 2 <= k <= |s| && ItemFits(it, Codec16) && s[..k] == EncodeItem(it, Codec16)
    ensures ItemFits(Item(0, it.avl), Codec8) && s[2..k] == EncodeItem(Item(0, it.avl), Codec8)
  {
    hide AvlFits, EncodeAvl, ToBE, Pow256;
    assert s[2..k] == s[..k][2..];
  }

  lemma CutStep(s: seq<byte>, it: Item, k: nat, rest: seq<byte>, its: seq<Item>, tail: seq<byte>)
    requires 2 <= k <= |s| && ScanItem(s, Codec16) == Got(it, k)
    requires ScanItems(rest + tail, |its|, Codec8) == Got(its, |rest|)
    ensures ScanItems((s[2..k] + rest) + tail, |its| + 1, Codec8) == Got([Item(0, it.avl)] + its, k - 2 + |rest|)
  {
    hide ItemFits, EncodeItem, ScanItem, ScanItems;
    var cut := s[2..k];
    ItemInverse(s, Codec16);
    CutOne(s, it, k);
    ItemRoundTrip(Item(0, it.avl), Codec8, rest + tail);
    assert (cut + (rest + tail))[|cut|..] == rest + tail;
    ScanOneMore(cut + (rest + tail), |its|, Codec8, Item(0, it.avl), |cut|, its, |rest|);
    assert (cut + rest) + tail == cut + (rest + tail);
  }

  /** Codec 16 is Codec 8 on the same bytes with the generation fields cut out, for every accepted input. */
  lemma {:induction false} Codec16IsCodec8(s: seq<byte>, count: nat, tail: seq<byte>)
    requires ScanItems(s, count, Codec16).Got?
    ensures var Got(its, n) := ScanItems(s, count, Codec16);
            && |CutGenerations(s, count)| + 2 * count == n
            && ScanItems(CutGenerations(s, count) + tail, count, Codec8)
               == Got(WithoutGenerations(its), |CutGenerations(s, count)|)
    decreases count
  {
    hide ScanItem, ScanItems, CutGenerations, WithoutGenerations;
    if count == 0 {
      NothingCut(s, tail);
    } else {
      FirstItem(s, count, Codec16);
      var Got(it, k) := ScanItem(s, Codec16);
      Codec16IsCodec8(s[k..], count - 1, tail);
      CutFirst(s, count, it, k);
      var its := ScanItems(s[k..], count - 1, Codec16).value;
      CutStep(s, it, k, CutGenerations(s[k..], count - 1), WithoutGenerations(its), tail);
      MoreWithout(it, its);
    }
  }

  lemma NothingCut(s: seq<byte>, tail: seq<byte>)
    ensures CutGenerations(s, 0) == [] && WithoutGenerations([]) == []
    ensures ScanItems(s, 0, Codec16) == Got([], 0) && ScanItems([] + tail, 0, Codec8) == Got([], 0)
  {
  }

  lemma CutFirst(s: seq<byte>, count: nat, it: Item, k: nat)
    requires count > 0 && ScanItem(s, Codec16) == Got(it, k) && k <= |s|
    ensures 2 <= k && CutGenerations(s, count) == s[2..k] + CutGenerations(s[k..], count - 1)
  {
    hide ScanAvl;
  }

  lemma MoreWithout(it: Item, its: seq<Item>)
    ensures WithoutGenerations([it] + its) == [Item(0, it.avl)] + WithoutGenerations(its)
  {
  }
}
