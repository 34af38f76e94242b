/** The Teltonika AVL parser: the cursor loops over a packet, proved against the wire format of TeltonikaWire. */
module Teltonika {
  import opened Options
  import opened Bytes
  import opened TeltonikaWire
  import Crc

  /** A parsed record; coordinates are kept as the raw signed integers (degrees times ten million). */
  datatype ParsedRecord = ParsedRecord(
    timestamp: int, lng: int, lat: int, altitude: nat, speed: nat, heading: nat, satellites: byte, valid: bool,
    priority: byte, ioData: map<int, int>, rawCodec: byte)

  // ----- IOData: elements written into a map in wire order -----

  function Apply(io: map<int, int>, es: seq<Element>): map<int, int> {
    if es == [] then io
    else Apply(io, es[..|es| - 1])[es[|es| - 1].id := es[|es| - 1].value]
  }

  lemma {:induction false} ApplyAppend(io: map<int, int>, es: seq<Element>, fs: seq<Element>)
    ensures Apply(Apply(io, es), fs) == Apply(io, es + fs)
  {
    if fs == [] {
      assert es + fs == es;
    } else {
      var n := |fs| - 1;
      ApplyAppend(io, es, fs[..n]);
      assert (es + fs)[..|es| + n] == es + fs[..n];
    }
  }

  /** Where an id was last written, or -1. */
  function LastIndex(es: seq<Element>, id: int): (i: int)
    ensures -1 <= i < |es|
    ensures i >= 0 ==> es[i].id == id
    ensures forall j :: i < j < |es| ==> es[j].id != id
  {
    if es == [] then -1
    else if es[|es| - 1].id == id then |es| - 1
    else LastIndex(es[..|es| - 1], id)
  }

  /** The map holds exactly the ids written, each with the value of its last occurrence. */
  lemma {:induction false} LastWriteWins(es: seq<Element>, id: int)
    ensures id in Apply(map[], es) <==> LastIndex(es, id) >= 0
    ensures id in Apply(map[], es) ==> Apply(map[], es)[id] == es[LastIndex(es, id)].value
  {
    if es != [] { LastWriteWins(es[..|es| - 1], id); }
  }

  function Flatten(gs: seq<seq<Element>>): seq<Element> {
    if gs == [] then [] else Flatten(gs[..|gs| - 1]) + gs[|gs| - 1]
  }

  /** A 64-bit pattern read as a signed integer. */
  function Int64(n: nat): int { if n >= 0x8000_0000_0000_0000 then n - 0x1_0000_0000_0000_0000 else n }

  /** What is stored for a variable-width value: its first eight bytes as an int64. */
  function XValue(bytes: seq<byte>): int {
    Int64(BE(bytes[..if |bytes| < 8 then |bytes| else 8]))
  }

  function XElements(xs: seq<XElement>): (es: seq<Element>)
    ensures |es| == |xs|
  {
    if xs == [] then []
    else XElements(xs[..|xs| - 1]) + [Element(xs[|xs| - 1].id, XValue(xs[|xs| - 1].bytes))]
  }

  /** The record the parser must return for an abstract one: groups 1, 2, 4, 8, X merged, last write winning. */
  function View(a: Avl): ParsedRecord {
    ParsedRecord(a.timestamp, a.lng, a.lat, a.altitude, a.speed, a.heading, a.satellites,
                 a.satellites > 0 && (a.lat != 0 || a.lng != 0), a.priority,
                 Apply(map[], Flatten(a.groups) + XElements(a.xs)), 0)
  }

  // ----- loops -----

  /** What has been read so far, followed by what remains to be read. */
  function Then<T>(done: seq<T>, size: nat, rest: Scan<seq<T>>): Scan<seq<T>> {
    match rest
    case Short => Short
    case Got(more, n) => Got(done + more, size + n)
  }

  lemma ThenNothing<T>(r: Scan<seq<T>>)
    ensures Then([], 0, r) == r
  {
    if r.Got? { assert [] + r.value == r.value; }
  }

  lemma ElementStep(done: seq<Element>, size: nat, s: seq<byte>, count: nat, vw: nat, iw: nat)
    requires count > 0 && |s| >= iw + vw
    ensures Then(done, size, ScanElements(s, count, vw, iw))
         == Then(done + [ReadElement(s, vw, iw)], size + iw + vw, ScanElements(s[iw + vw..], count - 1, vw, iw))
  {
    hide ReadElement;
    var rest := ScanElements(s[iw + vw..], count - 1, vw, iw);
    if rest.Got? {
      assert done + ([ReadElement(s, vw, iw)] + rest.value) == (done + [ReadElement(s, vw, iw)]) + rest.value;
    }
  }

  method ReadElements(data: seq<byte>, start: nat, count: nat, valueBytes: nat, iw: nat, io0: map<int, int>)
    returns (ok: bool, io: map<int, int>, offset: nat, ghost es: seq<Element>)
    requires start <= |data|
    ensures start <= offset <= |data|
    ensures ok == ScanElements(data[start..], count, valueBytes, iw).Got?
    ensures ok ==> ScanElements(data[start..], count, valueBytes, iw) == Got(es, offset - start)
    ensures ok ==> io == Apply(io0, es)
  {
    hide ScanElements, ValueOf, BE;
    io, offset, es := io0, start, [];
    ghost var whole := ScanElements(data[start..], count, valueBytes, iw);
    ThenNothing(whole);
    for j := 0 to count
      invariant start <= offset <= |data|
      invariant whole == Then(es, offset - start, ScanElements(data[offset..], count - j, valueBytes, iw))
      invariant io == Apply(io0, es)
    {
      ghost var s := data[offset..];
      if offset + iw > |data| || offset + iw + valueBytes > |data| {
        NoElements(s, count - j, valueBytes, iw);
        ok := false;
        return;
      }
      var ioID := BE(data[offset..offset + iw]);
      var val := ValueOf(data[offset + iw..offset + iw + valueBytes]);
      ElementStep(es, offset - start, s, count - j, valueBytes, iw);
      assert s[..iw] == data[offset..offset + iw];
      assert s[iw..iw + valueBytes] == data[offset + iw..offset + iw + valueBytes];
      assert s[iw + valueBytes..] == data[offset + iw + valueBytes..];
      es := es + [Element(ioID, val)];
      io := io[ioID := val];
      offset := offset + iw + valueBytes;
    }
    NothingLeft(data[offset..], valueBytes, iw);
    assert es + [] == es;
    ok := true;
  }

  lemma NoElements(s: seq<byte>, count: nat, vw: nat, iw: nat)
    requires count > 0 && |s| < iw + vw
    ensures ScanElements(s, count, vw, iw) == Short
  {
  }

  lemma NothingLeft(s: seq<byte>, vw: nat, iw: nat)
    ensures ScanElements(s, 0, vw, iw) == Got([], 0)
  {
  }

  lemma XStep(done: seq<XElement>, size: nat, s: seq<byte>, count: nat)
    requires count > 0
    ensures ScanX(s).Short? ==> ScanXs(s, count) == Short
    ensures ScanX(s).Got? ==> Then(done, size, ScanXs(s, count))
                              == Then(done + [ScanX(s).value], size + ScanX(s).size, ScanXs(s[ScanX(s).size..], count - 1))
  {
    hide ScanX;
    if ScanX(s).Got? {
      var x, rest := ScanX(s).value, ScanXs(s[ScanX(s).size..], count - 1);
      if rest.Got? { assert done + ([x] + rest.value) == (done + [x]) + rest.value; }
    }
  }

  method ReadXElement(data: seq<byte>, offset: nat) returns (ok: bool, ioID: nat, val: int, xLen: nat)
    requires offset <= |data|
    ensures ok == ScanX(data[offset..]).Got?
    ensures ok ==> offset + 4 + xLen <= |data|
    ensures ok ==> ScanX(data[offset..]) == Got(XElement(ioID, data[offset + 4..offset + 4 + xLen]), 4 + xLen)
    ensures ok ==> val == XValue(data[offset + 4..offset + 4 + xLen])
  {
    hide BE, XValue;
    ghost var s := data[offset..];
    ioID, val, xLen := 0, 0, 0;
    if offset + 4 > |data| {
      return false, ioID, val, xLen;
    }
    ioID := BE(data[offset..offset + 2]);
    xLen := BE(data[offset + 2..offset + 4]);
    assert s[..2] == data[offset..offset + 2] && s[2..4] == data[offset + 2..offset + 4];
    if offset + 4 + xLen > |data| {
      return false, ioID, val, xLen;
    }
    assert s[4..4 + xLen] == data[offset + 4..offset + 4 + xLen];
    val := FirstEight(data[offset + 4..offset + 4 + xLen]);
    ok := true;
  }

  lemma {:induction false} Pow256Grows(a: nat, b: nat)
    requires a <= b
    ensures Pow256(a) <= Pow256(b)
  {
    if a < b { Pow256Grows(a, b - 1); }
  }

  /** Nothing of a variable-width value of up to eight bytes is lost; of a longer one only the first eight count. */
  lemma XValueKeeps(bytes: seq<byte>)
    ensures -0x8000_0000_0000_0000 <= XValue(bytes) < 0x8000_0000_0000_0000
    ensures |bytes| <= 8 ==> ToBE(if XValue(bytes) < 0 then XValue(bytes) + Pow256(8) else XValue(bytes), |bytes|) == bytes
    ensures |bytes| > 8 ==> XValue(bytes) == XValue(bytes[..8])
  {
    hide BE, ToBE, Pow256, Int64;
    var n := if |bytes| < 8 then |bytes| else 8;
    Pow256Grows(n, 8);
    Int64Back(BE(bytes[..n]));
    if |bytes| <= 8 {
      assert bytes[..n] == bytes;
      ToBEOfBE(bytes);
    } else {
      assert bytes[..8][..8] == bytes[..8];
    }
  }

  lemma Int64Back(u: nat)
    requires u < Pow256(8)
    ensures (if Int64(u) < 0 then Int64(u) + Pow256(8) else Int64(u)) == u
    ensures -0x8000_0000_0000_0000 <= Int64(u) < 0x8000_0000_0000_0000
  {
    hide Pow256;
    Pow256Values();
  }

  lemma ApplyX(io: map<int, int>, xs: seq<XElement>, x: XElement)
    ensures Apply(io, XElements(xs + [x])) == Apply(io, XElements(xs))[x.id := XValue(x.bytes)]
  {
    hide XValue;
    assert (xs + [x])[..|xs|] == xs;
    assert XElements(xs + [x])[..|xs|] == XElements(xs);
  }

  method ReadXElements(data: seq<byte>, start: nat, xCount: nat, io0: map<int, int>)
    returns (ok: bool, io: map<int, int>, offset: nat, ghost xs: seq<XElement>)
    requires start <= |data|
    ensures start <= offset <= |data|
    ensures ok == ScanXs(data[start..], xCount).Got?
    ensures ok ==> ScanXs(data[start..], xCount) == Got(xs, offset - start)
    ensures ok ==> io == Apply(io0, XElements(xs))
  {
    hide ScanX, ScanXs, BE, XValue, Apply;
    io, offset, xs := io0, start, [];
    ghost var whole := ScanXs(data[start..], xCount);
    ThenNothing(whole);
    assert io == Apply(io0, XElements(xs)) by { ApplyNothing(io0); }
    for j := 0 to xCount
      invariant start <= offset <= |data|
      invariant whole == Then(xs, offset - start, ScanXs(data[offset..], xCount - j))
      invariant io == Apply(io0, XElements(xs))
    {
      XStep(xs, offset - start, data[offset..], xCount - j);
      var ioID, val, xLen;
      ok, ioID, val, xLen := ReadXElement(data, offset);
      if !ok {
        return;
      }
      ghost var x := XElement(ioID, data[offset + 4..offset + 4 + xLen]);
      assert data[offset..][4 + xLen..] == data[offset + 4 + xLen..];
      ApplyX(io0, xs, x);
      xs := xs + [x];
      io := io[ioID := val];
      offset := offset + 4 + xLen;
    }
    NoXsLeft(data[offset..]);
    assert xs + [] == xs;
    ok := true;
  }

  lemma ApplyNothing(io: map<int, int>)
    ensures Apply(io, XElements([])) == io
  {
  }

  lemma NoXsLeft(s: seq<byte>)
    ensures ScanXs(s, 0) == Got([], 0)
  {
  }

  /** The first eight bytes of a variable-width value, shifted into an int64. */
  method FirstEight(bytes: seq<byte>) returns (val: int)
    ensures val == XValue(bytes)
  {
    var acc: nat, k: nat := 0, 0;
    while k < |bytes| && k < 8
      invariant 0 <= k <= |bytes| && k <= 8
      invariant acc == BE(bytes[..k])
    {
      assert bytes[..k + 1][..k] == bytes[..k];
      acc := acc * 256 + bytes[k];
      k := k + 1;
    }
    val := Int64(acc);
  }

  lemma GroupStep(done: seq<seq<Element>>, size: nat, s: seq<byte>, widths: seq<nat>, iw: nat)
    requires widths != []
    ensures ScanGroup(s, widths[0], iw).Short? ==> ScanGroups(s, widths, iw) == Short
    ensures var g := ScanGroup(s, widths[0], iw);
            g.Got? && g.size <= |s| ==>
              Then(done, size, ScanGroups(s, widths, iw))
              == Then(done + [g.value], size + g.size, ScanGroups(s[g.size..], widths[1..], iw))
  {
    hide ScanGroup;
    var g := ScanGroup(s, widths[0], iw);
    if g.Got? && g.size <= |s| {
      var rest := ScanGroups(s[g.size..], widths[1..], iw);
      if rest.Got? { assert done + ([g.value] + rest.value) == (done + [g.value]) + rest.value; }
    }
  }

  method ReadGroup(data: seq<byte>, start: nat, valueBytes: nat, iw: nat, io0: map<int, int>)
    returns (ok: bool, io: map<int, int>, offset: nat, ghost es: seq<Element>)
    requires start <= |data|
    ensures start <= offset <= |data|
    ensures ok == ScanGroup(data[start..], valueBytes, iw).Got?
    ensures ok ==> ScanGroup(data[start..], valueBytes, iw) == Got(es, offset - start)
    ensures ok ==> io == Apply(io0, es)
  {
    hide ScanElements, BE;
    io, offset, es := io0, start, [];
    if start + iw > |data| {
      return false, io, offset, es;
    }
    var count := BE(data[start..start + iw]);
    assert data[start..][..iw] == data[start..start + iw] && data[start..][iw..] == data[start + iw..];
    ok, io, offset, es := ReadElements(data, start + iw, count, valueBytes, iw, io0);
  }

  method ReadGroups(data: seq<byte>, start: nat, iw: nat)
    returns (ok: bool, io: map<int, int>, offset: nat, ghost gs: seq<seq<Element>>)
    requires start <= |data|
    ensures start <= offset <= |data|
    ensures ok == ScanGroups(data[start..], WIDTHS, iw).Got?
    ensures ok ==> ScanGroups(data[start..], WIDTHS, iw) == Got(gs, offset - start)
    ensures ok ==> io == Apply(map[], Flatten(gs))
  {
    hide ScanGroup, ScanGroups;
    io, offset, gs := map[], start, [];
    ghost var whole := ScanGroups(data[start..], WIDTHS, iw);
    ThenNothing(whole);
    assert WIDTHS[0..] == WIDTHS;
    for i := 0 to |WIDTHS|
      invariant start <= offset <= |data|
      invariant whole == Then(gs, offset - start, ScanGroups(data[offset..], WIDTHS[i..], iw))
      invariant io == Apply(map[], Flatten(gs))
    {
      ghost var from := offset;
      ghost var es;
      GroupStep(gs, offset - start, data[offset..], WIDTHS[i..], iw);
      ok, io, offset, es := ReadGroup(data, offset, WIDTHS[i], iw, io);
      if !ok {
        return;
      }
      assert data[from..][offset - from..] == data[offset..];
      assert WIDTHS[i..][1..] == WIDTHS[i + 1..];
      ApplyAppend(map[], Flatten(gs), es);
      assert (gs + [es])[..|gs|] == gs;
      gs := gs + [es];
    }
    NoGroupsLeft(data[offset..], WIDTHS[|WIDTHS|..], iw);
    assert gs + [] == gs;
    ok := true;
  }

  lemma NoGroupsLeft(s: seq<byte>, widths: seq<nat>, iw: nat)
    requires widths == []
    ensures ScanGroups(s, widths, iw) == Got([], 0)
  {
  }

  /** The outcome of parsing one record at the front of `s`. */
  function RecordAt(s: seq<byte>, ext: bool): Scan<ParsedRecord> {
    var (a, n) :- ScanAvl(s, ext);
    Got(View(a), n)
  }

  lemma XGroupIs(s: seq<byte>)
    ensures ScanXGroup(s, false) == Got([], 0)
    ensures |s| < 2 ==> ScanXGroup(s, true) == Short
    ensures |s| >= 2 ==> ScanXGroup(s, true) == match ScanXs(s[2..], BE(s[..2]))
                                                case Short => Short
                                                case Got(xs, n) => Got(xs, 2 + n)
  {
    hide ScanXs, BE;
  }

  lemma ShortHead(s: seq<byte>, ext: bool)
    requires |s| < 24 + 2 * IdWidth(ext)
    ensures RecordAt(s, ext) == Short
  {
    hide ScanGroups, ScanXGroup, View;
  }

  lemma ShortBody(s: seq<byte>, ext: bool)
    requires var h := 24 + 2 * IdWidth(ext);
             |s| >= h && match ScanGroups(s[h..], WIDTHS, IdWidth(ext))
                         case Short => true
                         case Got(_, n) => h + n <= |s| && ScanXGroup(s[h + n..], ext).Short?
    ensures RecordAt(s, ext) == Short
  {
    hide ScanGroups, ScanXGroup, View, ReadHead;
  }

  lemma WholeRecord(s: seq<byte>, ext: bool, gs: seq<seq<Element>>, n: nat, xs: seq<XElement>, m: nat)
    requires var h := 24 + 2 * IdWidth(ext);
             && h + n <= |s| && ScanGroups(s[h..], WIDTHS, IdWidth(ext)) == Got(gs, n)
             && ScanXGroup(s[h + n..], ext) == Got(xs, m)
    ensures RecordAt(s, ext) ==
            Got(View(ReadHead(s, IdWidth(ext)).(groups := gs, xs := xs)), 24 + 2 * IdWidth(ext) + n + m)
  {
    hide ScanGroups, ScanXGroup, View, ReadHead;
  }

  /** The fields of the head, from their places in the packet. */
  lemma HeadFields(data: seq<byte>, start: nat, iw: nat, gs: seq<seq<Element>>, xs: seq<XElement>)
    requires start + 24 + 2 * iw <= |data|
    ensures var lat, lng := Signed(BE(data[start + 13..start + 17]), 4), Signed(BE(data[start + 9..start + 13]), 4);
            View(ReadHead(data[start..], iw).(groups := gs, xs := xs)) ==
            ParsedRecord(Signed(BE(data[start..start + 8]), 8), lng, lat, BE(data[start + 17..start + 19]),
                         BE(data[start + 22..start + 24]), BE(data[start + 19..start + 21]), data[start + 21],
                         data[start + 21] > 0 && (lat != 0 || lng != 0), data[start + 8],
                         Apply(map[], Flatten(gs) + XElements(xs)), 0)
  {
    hide BE, Signed, Flatten, XElements, Apply;
    var s := data[start..];
    assert && s[..8] == data[start..start + 8] && s[9..13] == data[start + 9..start + 13]
           && s[13..17] == data[start + 13..start + 17] && s[17..19] == data[start + 17..start + 19]
           && s[19..21] == data[start + 19..start + 21] && s[22..24] == data[start + 22..start + 24];
  }

  method ParseAvlRecord8(data: seq<byte>, start: nat, extended: bool) returns (r: Scan<ParsedRecord>)
    requires start <= |data|
    ensures r == RecordAt(data[start..], extended)
    ensures r.Got? ==> start + r.size <= |data|
  {
    hide ScanGroups, ScanXs, ScanXGroup, BE, Signed, Flatten, XElements, Apply, RecordAt, View, ReadHead;
    ghost var s := data[start..];
    var iw := if extended then 2 else 1;
    var offset := start;
    if offset + 8 > |data| || offset + 9 > |data| || offset + 24 > |data| || offset + 24 + 2 * iw > |data| {
      ShortHead(s, extended);
      return Short;
    }
    var timestamp := Signed(BE(data[offset..offset + 8]), 8);
    var priority := data[offset + 8];
    var lng := Signed(BE(data[offset + 9..offset + 13]), 4);
    var lat := Signed(BE(data[offset + 13..offset + 17]), 4);
    var altitude := BE(data[offset + 17..offset + 19]);
    var heading := BE(data[offset + 19..offset + 21]);
    var satellites := data[offset + 21];
    var speed := BE(data[offset + 22..offset + 24]);
    var valid := satellites > 0 && (lat != 0 || lng != 0);
    offset := offset + 24 + 2 * iw;
    assert s[24 + 2 * iw..] == data[offset..];
    ghost var gs;
    var ok, io;
    ok, io, offset, gs := ReadGroups(data, offset, iw);
    if !ok {
      ShortBody(s, extended);
      return Short;
    }
    assert s[offset - start..] == data[offset..];
    ghost var n := offset - start - (24 + 2 * iw);
    ghost var xs := [];
    XGroupIs(data[offset..]);
    if extended {
      if offset + 2 > |data| {
        ShortBody(s, extended);
        return Short;
      }
      var xCount := BE(data[offset..offset + 2]);
      ghost var at := offset;
      assert data[at..][..2] == data[at..at + 2] && data[at..][2..] == data[at + 2..];
      ok, io, offset, xs := ReadXElements(data, offset + 2, xCount, io);
      if !ok {
        ShortBody(s, extended);
        return Short;
      }
      ApplyAppend(map[], Flatten(gs), XElements(xs));
    } else {
      assert Flatten(gs) + XElements([]) == Flatten(gs) by { NoXElements(); }
    }
    WholeRecord(s, extended, gs, n, xs, offset - start - (24 + 2 * iw) - n);
    HeadFields(data, start, iw, gs, xs);
    r := Got(ParsedRecord(timestamp, lng, lat, altitude, speed, heading, satellites, valid, priority, io, 0),
             offset - start);
  }

  lemma NoXElements()
    ensures XElements([]) == []
  {
  }

  // ----- a counted list of records -----

  function Views(its: seq<Item>): (rs: seq<ParsedRecord>)
    ensures |rs| == |its| && forall i :: 0 <= i < |its| ==> rs[i] == View(its[i].avl)
  {
    seq(|its|, i requires 0 <= i < |its| => View(its[i].avl))
  }

  /** The records of a payload without codec id and count, or nothing if it is cut short. */
  function RecordsOf(data: seq<byte>, numRecords: nat, codec: Codec): (r: Option<seq<ParsedRecord>>)
    ensures r.Some? ==> |r.value| == numRecords
  {
    match ScanItems(data, numRecords, codec)
    case Short => None
    case Got(its, _) => Some(Views(its))
  }

  lemma ItemStep(done: seq<Item>, size: nat, s: seq<byte>, count: nat, codec: Codec)
    requires count > 0
    ensures ScanItem(s, codec).Short? ==> ScanItems(s, count, codec) == Short
    ensures var it := ScanItem(s, codec);
            it.Got? && it.size <= |s| ==>
              Then(done, size, ScanItems(s, count, codec))
              == Then(done + [it.value], size + it.size, ScanItems(s[it.size..], count - 1, codec))
  {
    hide ScanItem;
    var it := ScanItem(s, codec);
    if it.Got? && it.size <= |s| {
      var rest := ScanItems(s[it.size..], count - 1, codec);
      if rest.Got? { assert done + ([it.value] + rest.value) == (done + [it.value]) + rest.value; }
    }
  }

  lemma NoItemsLeft(s: seq<byte>, codec: Codec)
    ensures ScanItems(s, 0, codec) == Got([], 0)
  {
  }

  lemma ViewsGrow(its: seq<Item>, it: Item)
    ensures Views(its + [it]) == Views(its) + [View(it.avl)]
  {
  }

  lemma ItemAt(data: seq<byte>, offset: nat, codec: Codec, g: nat)
    requires offset <= |data| && g == if codec.Codec16? then 2 else 0
    ensures offset + g > |data| ==> ScanItem(data[offset..], codec) == Short
    ensures offset + g <= |data| ==>
              match RecordAt(data[offset + g..], IsExtended(codec))
              case Short => ScanItem(data[offset..], codec) == Short
              case Got(rec, n) => && ScanItem(data[offset..], codec).Got?
                                  && View(ScanItem(data[offset..], codec).value.avl) == rec
                                  && ScanItem(data[offset..], codec).size == g + n
  {
    hide ScanAvl, View, BE;
    if offset + g <= |data| { assert data[offset..][g..] == data[offset + g..]; }
  }

  lemma ExtendedIs(codec: Codec)
    ensures codec.Codec8E? == IsExtended(codec)
  {
  }

  lemma DropTwice(data: seq<byte>, a: nat, b: nat)
    requires a + b <= |data|
    ensures data[a..][b..] == data[a + b..]
  {
  }

  /** One turn of the loop over records: at the field skipped and the record behind it the list goes on, or ends short. */
  lemma OneMoreRecord(data: seq<byte>, at: nat, count: nat, codec: Codec, its: seq<Item>, g: nat)
    requires at <= |data| && count > 0 && g == if codec.Codec16? then 2 else 0
    ensures at + g > |data| || RecordAt(data[at + g..], codec.Codec8E?).Short? ==>
              Then(its, at, ScanItems(data[at..], count, codec)) == Short
    ensures at + g <= |data| ==>
              match RecordAt(data[at + g..], codec.Codec8E?)
              case Short => true
              case Got(rec, n) =>
                && ScanItem(data[at..], codec).Got?
                && var it := ScanItem(data[at..], codec).value;
                && Views(its + [it]) == Views(its) + [rec]
                && (at + g + n <= |data| ==>
                      Then(its, at, ScanItems(data[at..], count, codec))
                      == Then(its + [it], at + g + n, ScanItems(data[at + g + n..], count - 1, codec)))
  {
    hide ScanItem, ScanItems, RecordAt, View, Views, Then, IsExtended;
    ExtendedIs(codec);
    ItemStep(its, at, data[at..], count, codec);
    ThenShort(its, at, ScanItems(data[at..], count, codec));
    ItemAt(data, at, codec, g);
    if at + g <= |data| && RecordAt(data[at + g..], codec.Codec8E?).Got? {
      ViewsGrow(its, ScanItem(data[at..], codec).value);
      var n := RecordAt(data[at + g..], codec.Codec8E?).size;
      if at + g + n <= |data| { DropTwice(data, at, g + n); }
    }
  }

  lemma ThenShort<T>(done: seq<T>, size: nat, rest: Scan<seq<T>>)
    ensures rest.Short? ==> Then(done, size, rest) == Short
    ensures rest == Got([], 0) ==> Then(done, size, rest) == Got(done, size)
  {
    assert done + [] == done;
  }

  /** parseCodec8, parseCodec8E and parseCodec16: they differ in the id width and the 2-byte field skipped. */
  method ParseCodec(data: seq<byte>, numRecords: nat, codec: Codec) returns (r: Option<seq<ParsedRecord>>)
    ensures r == RecordsOf(data, numRecords, codec)
  {
    hide ScanItem, ScanItems, RecordAt, Views, Then;
    var records := [];
    var offset: nat := 0;
    ghost var its: seq<Item> := [];
    ghost var whole := ScanItems(data, numRecords, codec);
    ThenNothing(whole);
    assert Views([]) == [];
    assert data[0..] == data;
    for i := 0 to numRecords
      invariant offset <= |data|
      invariant whole == Then(its, offset, ScanItems(data[offset..], numRecords - i, codec))
      invariant records == Views(its)
    {
      ghost var from := offset;
      OneMoreRecord(data, offset, numRecords - i, codec, its, if codec.Codec16? then 2 else 0);
      if codec.Codec16? {
        if offset + 2 > |data| {
          return None;
        }
        offset := offset + 2;
      }
      var rec := ParseAvlRecord8(data, offset, codec.Codec8E?);
      if rec.Short? {
        return None;
      }
      records := records + [rec.value];
      offset := offset + rec.size;
      its := its + [ScanItem(data[from..], codec).value];
    }
    NoItemsLeft(data[offset..], codec);
    ThenShort(its, offset, ScanItems(data[offset..], 0, codec));
    r := Some(records);
  }

  // ----- packets -----

  datatype PacketError =
    | NoPreamble | BadPreamble | NoLength | SuspiciousLength | NoPayload | NoCrc | CrcMismatch
    | PayloadTooShort | UnsupportedCodec | BadRecords

  /** `raw` is what is handed on for dead-lettering. */
  datatype Outcome =
    | Accepted(records: seq<ParsedRecord>, raw: seq<byte>)
    | Rejected(error: PacketError, raw: seq<byte>)

  function CodecOf(id: byte): Option<Codec> {
    if id == 0x08 then Some(Codec8) else if id == 0x8E then Some(Codec8E) else if id == 0x10 then Some(Codec16) else None
  }

  function CodecId(codec: Codec): (id: byte)
    ensures CodecOf(id) == Some(codec)
  {
    match codec
    case Codec8 => 0x08
    case Codec8E => 0x8E
    case Codec16 => 0x10
  }

  function Tagged(rs: seq<ParsedRecord>, codecId: byte): (ts: seq<ParsedRecord>)
    ensures |ts| == |rs| && forall i :: 0 <= i < |rs| ==> ts[i] == rs[i].(rawCodec := codecId)
  {
    seq(|rs|, i requires 0 <= i < |rs| => rs[i].(rawCodec := codecId))
  }

  /** What the payload of a packet with a correct CRC yields. */
  function Decode(payload: seq<byte>, raw: seq<byte>): Outcome {
    if |payload| < 2 then Rejected(PayloadTooShort, raw)
    else
      match CodecOf(payload[0])
      case None => Rejected(UnsupportedCodec, raw)
      case Some(codec) =>
        match RecordsOf(payload[2..], payload[1], codec)
        case None => Rejected(BadRecords, raw)
        case Some(rs) => Accepted(Tagged(rs, payload[0]), raw)
  }

  function CrcValue(payload: seq<byte>): nat { Crc.Arc(payload) as int }

  /** The outcome of reading one packet from a connection on which `s` is still to be read, and what is left. */
  function PacketFrom(s: seq<byte>): (Outcome, seq<byte>) {
    if |s| < 4 then (Rejected(NoPreamble, []), [])
    else if BE(s[..4]) != 0 then (Rejected(BadPreamble, []), s[4..])
    else if |s| < 8 then (Rejected(NoLength, []), [])
    else
      var len := BE(s[4..8]);
      if len > 65536 then (Rejected(SuspiciousLength, []), s[8..])
      else if |s| < 8 + len then (Rejected(NoPayload, []), [])
      else if |s| < 12 + len then (Rejected(NoCrc, []), [])
      else if BE(s[8 + len..12 + len]) % 65536 != CrcValue(s[8..8 + len]) then
        (Rejected(CrcMismatch, s[8..8 + len]), s[12 + len..])
      else (Decode(s[8..8 + len], s[..12 + len]), s[12 + len..])
  }

  lemma PacketSlices(s: seq<byte>, len: nat)
    requires |s| >= 12 + len
    ensures s[4..][..4] == s[4..8] && s[8..][..len] == s[8..8 + len] && s[8 + len..][..4] == s[8 + len..12 + len]
    ensures s[4..][4..] == s[8..] && s[8..][len..] == s[8 + len..] && s[8 + len..][4..] == s[12 + len..]
    ensures s[..12 + len] == s[..4] + s[4..8] + s[8..8 + len] + s[8 + len..12 + len]
  {
  }

  method ParsePacket(conn: Conn) returns (r: Outcome)
    modifies conn
    ensures (r, conn.unread) == PacketFrom(old(conn.unread))
  {
    hide Decode, CrcValue, BE, ToBE;
    ghost var s := conn.unread;
    var pre := conn.ReadFull(4);
    if pre.None? {
      return Rejected(NoPreamble, []);
    }
    if BE(pre.value) != 0 {
      return Rejected(BadPreamble, []);
    }
    var lenBytes := conn.ReadFull(4);
    if lenBytes.None? {
      return Rejected(NoLength, []);
    }
    var dataLen := BE(lenBytes.value);
    assert s[4..][..4] == s[4..8] && s[4..][4..] == s[8..];
    if dataLen > 65536 {
      return Rejected(SuspiciousLength, []);
    }
    var payload := conn.ReadFull(dataLen);
    if payload.None? {
      return Rejected(NoPayload, []);
    }
    assert s[8..][..dataLen] == s[8..8 + dataLen] && s[8..][dataLen..] == s[8 + dataLen..];
    var crcBytes := conn.ReadFull(4);
    if crcBytes.None? {
      return Rejected(NoCrc, []);
    }
    PacketSlices(s, dataLen);
    var crcRaw := BE(crcBytes.value);
    var actual := Crc16Value(payload.value);
    if crcRaw % 65536 != actual {
      return Rejected(CrcMismatch, payload.value);
    }
    ToBEOfBE(pre.value);
    ToBEOfBE(lenBytes.value);
    ToBEOfBE(crcBytes.value);
    var rawPacket := ToBE(0, 4) + ToBE(dataLen, 4) + payload.value + ToBE(crcRaw, 4);
    r := DecodePayload(payload.value, rawPacket);
  }

  method Crc16Value(payload: seq<byte>) returns (n: nat)
    ensures n == CrcValue(payload)
  {
    hide Crc.Run;
    var crc := Crc.Crc16Ibm(payload);
    n := crc as int;
  }

  method DecodePayload(payload: seq<byte>, raw: seq<byte>) returns (r: Outcome)
    ensures r == Decode(payload, raw)
  {
    hide RecordsOf;
    if |payload| < 2 {
      return Rejected(PayloadTooShort, raw);
    }
    var codec := CodecOf(payload[0]);
    if codec.None? {
      return Rejected(UnsupportedCodec, raw);
    }
    var records := ParseCodec(payload[2..], payload[1], codec.value);
    if records.None? {
      return Rejected(BadRecords, raw);
    }
    var tagged := records.value;
    for i := 0 to |tagged|
      invariant |tagged| == |records.value|
      invariant forall k :: 0 <= k < |tagged| ==>
                  tagged[k] == if k < i then records.value[k].(rawCodec := payload[0]) else records.value[k]
    {
      tagged := tagged[i := tagged[i].(rawCodec := payload[0])];
    }
    assert tagged == Tagged(records.value, payload[0]);
    r := Accepted(tagged, raw);
  }

  /** The acknowledgement for a raw packet; `None` is the index panic on a packet of exactly nine bytes. */
  function BuildAck(packet: seq<byte>): Option<seq<byte>> {
    if |packet| < 9 then Some(ToBE(0, 4))
    else if |packet| == 9 then None
    else Some(ToBE(packet[9], 4))
  }

  /**
   For whatever has been read, the raw bytes handed on leave BuildAck out of range exactly when they are the nine-byte
   payload of a packet whose CRC did not match.
   */
  lemma AckPanicsExactly(s: seq<byte>)
    ensures BuildAck(PacketFrom(s).0.raw) == None <==>
            PacketFrom(s).0.Rejected? && PacketFrom(s).0.error == CrcMismatch && BE(s[4..8]) == 9
  {
    hide BE, ToBE, CrcValue, RecordsOf;
  }

  /** Nine zero bytes sent with the CRC 1 instead of 0. */
  lemma AckPanics()
    ensures exists s :: BuildAck(PacketFrom(s).0.raw) == None
  {
    hide Crc.Run, Decode, BuildAck, BE, ToBE, CrcValue, PacketFrom;
    var payload: seq<byte> := [0, 0, 0, 0, 0, 0, 0, 0, 0];
    var s := ToBE(0, 4) + (ToBE(9, 4) + (payload + ToBE(1, 4)));
    ZeroPayload(payload);
    Pow256Values();
    BEOfToBE(0, 4);
    BEOfToBE(9, 4);
    BEOfToBE(1, 4);
    assert s[..4] == ToBE(0, 4) && s[4..8] == ToBE(9, 4) && s[8..17] == payload && s[17..21] == ToBE(1, 4);
    Mismatch(s, 9);
    AckPanicsExactly(s);
  }

  lemma Mismatch(s: seq<byte>, len: nat)
    requires |s| >= 12 + len && BE(s[..4]) == 0 && BE(s[4..8]) == len <= 65536
    requires BE(s[8 + len..12 + len]) % 65536 != CrcValue(s[8..8 + len])
    ensures PacketFrom(s).0 == Rejected(CrcMismatch, s[8..8 + len])
  {
    hide BE, CrcValue;
  }

  lemma ZeroPayload(payload: seq<byte>)
    requires forall i :: 0 <= i < |payload| ==> payload[i] == 0
    ensures CrcValue(payload) == 0
  {
    hide Crc.Run;
    Crc.RunOfZeros(false, payload, |payload|);
    assert payload[..|payload|] == payload;
  }

  /** An accepted packet's raw bytes are exactly those taken from the stream, and its ACK counts its records. */
  lemma AcceptedPacket(s: seq<byte>)
    requires PacketFrom(s).0.Accepted?
    ensures var (Accepted(records, raw), rest) := PacketFrom(s);
            && s == raw + rest
            && |raw| == 12 + BE(raw[4..8])
            && BuildAck(raw) == Some(ToBE(|records|, 4))
            && BE(ToBE(|records|, 4)) == |records|
            && forall r | r in records :: r.rawCodec == raw[8]
  {
    hide BE, ToBE, CrcValue, RecordsOf;
    var (Accepted(records, raw), rest) := PacketFrom(s);
    assert raw[4..8] == s[4..8];
    Pow256Values();
    BEOfToBE(|records|, 4);
  }

  /** The items an accepted packet holds; anything behind them in the payload is ignored. */
  ghost predicate Holds(its: seq<Item>, raw: seq<byte>, records: seq<ParsedRecord>) {
    && |raw| >= 14 && |its| == raw[9] && CodecOf(raw[8]).Some?
    && ItemsFit(its, CodecOf(raw[8]).value)
    && EncodeItems(its, CodecOf(raw[8]).value) <= raw[10..|raw| - 4]
    && records == Tagged(Views(its), raw[8])
  }

  /** Nothing but an encoding is accepted: the payload starts with the encoding of the records returned. */
  lemma AcceptedIsEncoded(s: seq<byte>)
    requires PacketFrom(s).0.Accepted?
    ensures exists its :: Holds(its, PacketFrom(s).0.raw, PacketFrom(s).0.records)
  {
    hide BE, CrcValue, ScanItems, ItemsFit, EncodeItems, Views, Tagged;
    var Accepted(records, raw) := PacketFrom(s).0;
    var len := BE(s[4..8]);
    var payload := s[8..8 + len];
    var codec := CodecOf(payload[0]).value;
    ItemsInverse(payload[2..], payload[1], codec);
    var Got(its, n) := ScanItems(payload[2..], payload[1], codec);
    assert raw[10..|raw| - 4] == payload[2..] && raw[8] == payload[0] && raw[9] == payload[1];
    assert Holds(its, raw, records);
  }

  // ----- writing packets -----

  predicate PayloadFits(its: seq<Item>, codec: Codec) {
    |its| <= 255 && ItemsFit(its, codec) && 3 + |EncodeItems(its, codec)| <= 65536
  }

  function Payload(its: seq<Item>, codec: Codec): (p: seq<byte>)
    requires PayloadFits(its, codec)
    ensures |p| <= 65536
  {
    [CodecId(codec), |its|] + (EncodeItems(its, codec) + [|its|])
  }

  function EncodePacket(its: seq<Item>, codec: Codec): seq<byte>
    requires PayloadFits(its, codec)
  {
    var p := Payload(its, codec);
    ToBE(0, 4) + (ToBE(|p|, 4) + (p + ToBE(CrcValue(p), 4)))
  }

  lemma PayloadDecodes(its: seq<Item>, codec: Codec, raw: seq<byte>)
    requires PayloadFits(its, codec)
    ensures Decode(Payload(its, codec), raw) == Accepted(Tagged(Views(its), CodecId(codec)), raw)
  {
    hide ScanItems, EncodeItems, ItemsFit;
    assert Payload(its, codec)[2..] == EncodeItems(its, codec) + [|its|];
    ItemsRoundTrip(its, codec, [|its|]);
  }

  lemma CrcFits(payload: seq<byte>)
    ensures CrcValue(payload) < 65536
  {
    hide Crc.Run;
  }

  /** Every codec: parsing an encoded packet gives back its records, and consumes exactly its bytes. */
  lemma PacketRoundTrip(its: seq<Item>, codec: Codec, tail: seq<byte>)
    requires PayloadFits(its, codec)
    ensures PacketFrom(EncodePacket(its, codec) + tail)
         == (Accepted(Tagged(Views(its), CodecId(codec)), EncodePacket(its, codec)), tail)
  {
    hide Decode, Payload, CrcValue, BE, ToBE, PayloadFits;
    var p := Payload(its, codec);
    var crc := ToBE(CrcValue(p), 4);
    var s := EncodePacket(its, codec) + tail;
    assert s[..4] == ToBE(0, 4) && s[4..8] == ToBE(|p|, 4) && s[8..8 + |p|] == p;
    assert s[8 + |p|..12 + |p|] == crc && s[12 + |p|..] == tail && s[..12 + |p|] == EncodePacket(its, codec);
    Pow256Values();
    CrcFits(p);
    BEOfToBE(0, 4);
    BEOfToBE(|p|, 4);
    BEOfToBE(CrcValue(p), 4);
    PayloadDecodes(its, codec, EncodePacket(its, codec));
  }

  datatype Packet = Packet(its: seq<Item>, codec: Codec)

  predicate PacketsFit(ps: seq<Packet>) {
    forall i :: 0 <= i < |ps| ==> PayloadFits(ps[i].its, ps[i].codec)
  }

  function EncodePackets(ps: seq<Packet>): seq<byte>
    requires PacketsFit(ps)
  {
    if ps == [] then [] else EncodePacket(ps[0].its, ps[0].codec) + EncodePackets(ps[1..])
  }

  /** The outcomes of `count` reads in a row on one connection, and what is then left unread. */
  function PacketsFrom(s: seq<byte>, count: nat): (seq<Outcome>, seq<byte>)
    decreases count
  {
    if count == 0 then ([], s)
    else
      var (first, rest) := PacketFrom(s);
      var (more, left) := PacketsFrom(rest, count - 1);
      ([first] + more, left)
  }

  /** What reading an encoded packet must give. */
  function Sent(p: Packet): Outcome
    requires PayloadFits(p.its, p.codec)
  {
    Accepted(Tagged(Views(p.its), CodecId(p.codec)), EncodePacket(p.its, p.codec))
  }

  /** Packets of any codecs sent back to back are read as they were sent, and nothing more is consumed. */
  lemma {:induction false} StreamRoundTrip(ps: seq<Packet>, tail: seq<byte>)
    requires PacketsFit(ps)
    ensures var (outcomes, left) := PacketsFrom(EncodePackets(ps) + tail, |ps|);
            && left == tail && |outcomes| == |ps|
            && forall i :: 0 <= i < |ps| ==> outcomes[i] == Sent(ps[i])
  {
    hide PayloadFits, EncodePacket, PacketFrom, Tagged, Views, CodecId;
    if ps != [] {
      var first, rest := EncodePacket(ps[0].its, ps[0].codec), EncodePackets(ps[1..]);
      assert (first + rest) + tail == first + (rest + tail);
      PacketRoundTrip(ps[0].its, ps[0].codec, rest + tail);
      StreamRoundTrip(ps[1..], tail);
      assert EncodePackets(ps) == first + rest;
    }
  }
}
