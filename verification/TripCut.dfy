/**
 What the trip machine computes when its operations succeed: every device's stream of records is cut into trips with
 hysteresis, a trip opening at the first speed above 5 and closing at the first later speed below 2.
 */
module TripCut {
  import opened Options
  import opened Trips

  // ----- the pure cut -----

  /** The first record from `i` on that is faster than 5, or the length. */
  function FirstAbove(fs: seq<Fix>, i: nat): (k: nat)
    requires i <= |fs|
    ensures i <= k <= |fs|
    decreases |fs| - i
  {
    if i == |fs| || fs[i].speed > 5 then i else FirstAbove(fs, i + 1)
  }

  /** The first record from `i` on that is slower than 2, or the length. */
  function FirstBelow(fs: seq<Fix>, i: nat): (k: nat)
    requires i <= |fs|
    ensures i <= k <= |fs|
    decreases |fs| - i
  {
    if i == |fs| || fs[i].speed < 2 then i else FirstBelow(fs, i + 1)
  }

  lemma {:induction false} FirstsAreFirst(fs: seq<Fix>, i: nat)
    requires i <= |fs|
    ensures var k := FirstAbove(fs, i);
            (k < |fs| ==> fs[k].speed > 5) && forall j :: i <= j < k ==> fs[j].speed <= 5
    ensures var k := FirstBelow(fs, i);
            (k < |fs| ==> fs[k].speed < 2) && forall j :: i <= j < k ==> fs[j].speed >= 2
    decreases |fs| - i
  {
    if i < |fs| { FirstsAreFirst(fs, i + 1); }
  }

  /** A trip: the positions of its first and, unless it is still open, its last record. */
  datatype Span = Span(first: nat, last: Option<nat>)

  /** The trips of a stream from position `i` on. */
  function Cut(fs: seq<Fix>, i: nat): seq<Span>
    requires i <= |fs|
    decreases |fs| - i
  {
    var a := FirstAbove(fs, i);
    if a == |fs| then []
    else
      var b := FirstBelow(fs, a + 1);
      if b == |fs| then [Span(a, None)] else [Span(a, Some(b))] + Cut(fs, b + 1)
  }

  predicate InStream(fs: seq<Fix>, sp: Span) {
    sp.first < |fs| && (sp.last.Some? ==> sp.last.value < |fs|)
  }

  predicate Underway(spans: seq<Span>) { spans != [] && spans[|spans| - 1].last.None? }

  /** What one more record does to the trips so far. */
  function OneMore(spans: seq<Span>, n: nat, speed: nat): seq<Span> {
    if !Underway(spans) then
      if speed > 5 then spans + [Span(n, None)] else spans
    else
      if speed < 2 then spans[..|spans| - 1] + [Span(spans[|spans| - 1].first, Some(n))] else spans
  }

  lemma FirstsGrow(fs: seq<Fix>, f: Fix, i: nat)
    requires i <= |fs|
    ensures FirstAbove(fs + [f], i) ==
            if FirstAbove(fs, i) < |fs| || f.speed > 5 then FirstAbove(fs, i) else |fs| + 1
    ensures FirstBelow(fs + [f], i) ==
            if FirstBelow(fs, i) < |fs| || f.speed < 2 then FirstBelow(fs, i) else |fs| + 1
  {
    hide FirstAbove, FirstBelow;
    var gs := fs + [f];
    FirstsAreFirst(fs, i);
    FirstsAreFirst(gs, i);
    assert gs[|fs|] == f && forall j :: 0 <= j < |fs| ==> gs[j] == fs[j];
    var a, a', b, b' := FirstAbove(fs, i), FirstAbove(gs, i), FirstBelow(fs, i), FirstBelow(gs, i);
    assert a < |fs| ==> gs[a].speed > 5;
    assert b < |fs| ==> gs[b].speed < 2;
    assert a' < |fs| ==> fs[a'].speed > 5;
    assert b' < |fs| ==> fs[b'].speed < 2;
  }

  lemma CutCases(fs: seq<Fix>, i: nat)
    requires i <= |fs|
    ensures var a := FirstAbove(fs, i);
            if a == |fs| then Cut(fs, i) == []
            else
              var b := FirstBelow(fs, a + 1);
              Cut(fs, i) == if b == |fs| then [Span(a, None)] else [Span(a, Some(b))] + Cut(fs, b + 1)
  {
    hide FirstAbove, FirstBelow;
  }

  lemma CutGrowsIdle(fs: seq<Fix>, f: Fix, i: nat)
    requires i <= |fs| && FirstAbove(fs, i) == |fs|
    ensures Cut(fs + [f], i) == OneMore(Cut(fs, i), |fs|, f.speed)
  {
    hide FirstAbove, FirstBelow, Cut;
    FirstsGrow(fs, f, i);
    CutCases(fs, i);
    CutCases(fs + [f], i);
    NoneBeyond(fs + [f]);
  }

  lemma CutGrowsUnderway(fs: seq<Fix>, f: Fix, i: nat, a: nat)
    requires i <= |fs| && a == FirstAbove(fs, i) < |fs| && FirstBelow(fs, a + 1) == |fs|
    ensures Cut(fs + [f], i) == OneMore(Cut(fs, i), |fs|, f.speed)
  {
    hide FirstAbove, FirstBelow, Cut;
    FirstsGrow(fs, f, i);
    FirstsGrow(fs, f, a + 1);
    CutCases(fs, i);
    CutCases(fs + [f], i);
    NothingAtEnd(fs + [f]);
  }

  lemma CutGrowsBehind(fs: seq<Fix>, f: Fix, i: nat, a: nat, b: nat)
    requires i <= |fs| && a == FirstAbove(fs, i) < |fs| && b == FirstBelow(fs, a + 1) < |fs|
    ensures Cut(fs, i) == [Span(a, Some(b))] + Cut(fs, b + 1)
    ensures Cut(fs + [f], i) == [Span(a, Some(b))] + Cut(fs + [f], b + 1)
  {
    hide FirstAbove, FirstBelow, Cut;
    FirstsGrow(fs, f, i);
    FirstsGrow(fs, f, a + 1);
    CutCases(fs, i);
    CutCases(fs + [f], i);
  }

  /** The cut of a longer stream is the cut so far plus one step: the recursion may run from either end. */
  lemma {:induction false} CutGrows(fs: seq<Fix>, f: Fix, i: nat)
    requires i <= |fs|
    ensures Cut(fs + [f], i) == OneMore(Cut(fs, i), |fs|, f.speed)
    decreases |fs| - i
  {
    hide FirstAbove, FirstBelow, Cut, OneMore;
    var a := FirstAbove(fs, i);
    if a == |fs| {
      CutGrowsIdle(fs, f, i);
    } else {
      var b := FirstBelow(fs, a + 1);
      if b == |fs| {
        CutGrowsUnderway(fs, f, i, a);
      } else {
        CutGrows(fs, f, b + 1);
        CutGrowsBehind(fs, f, i, a, b);
        MoreBehind(Span(a, Some(b)), Cut(fs, b + 1), |fs|, f.speed);
      }
    }
  }

  lemma MoreBehind(sp: Span, spans: seq<Span>, n: nat, speed: nat)
    requires sp.last.Some?
    ensures [sp] + OneMore(spans, n, speed) == OneMore([sp] + spans, n, speed)
  {
  }

  lemma NothingAtEnd(fs: seq<Fix>)
    ensures Cut(fs, |fs|) == []
  {
  }

  lemma NoneBeyond(fs: seq<Fix>)
    ensures FirstBelow(fs, |fs|) == |fs|
  {
  }

  // ----- trips are ordered, disjoint, and at most the last is open -----

  predicate Increasing(fs: seq<Fix>) { forall i, j :: 0 <= i < j < |fs| ==> fs[i].time < fs[j].time }

  /** A trip that starts at `from` or later, and ends after it starts if it has ended. */
  predicate Sound(sp: Span, from: nat) {
    from <= sp.first && (sp.last.Some? ==> sp.first < sp.last.value)
  }

  predicate Precedes(a: Span, b: Span) { a.last.Some? && a.last.value < b.first }

  /** Trips start at `from` or later, end after they start, and each ends before the next one starts. */
  predicate Ordered(spans: seq<Span>, from: nat) {
    && (forall k :: 0 <= k < |spans| ==> Sound(spans[k], from))
    && (forall k, m :: 0 <= k < m < |spans| ==> Precedes(spans[k], spans[m]))
  }

  lemma OrderedBehind(sp: Span, spans: seq<Span>, from: nat)
    requires Sound(sp, from) && sp.last.Some? && Ordered(spans, sp.last.value + 1)
    ensures Ordered([sp] + spans, from)
  {
    var all := [sp] + spans;
    assert forall k :: 0 < k < |all| ==> all[k] == spans[k - 1];
    forall k | 0 < k < |all| ensures Sound(all[k], from) && Precedes(sp, all[k]) {
      assert Sound(spans[k - 1], sp.last.value + 1);
    }
    forall k, m | 0 < k < m < |all| ensures Precedes(all[k], all[m]) {
      assert Precedes(spans[k - 1], spans[m - 1]);
    }
  }

  lemma {:induction false} CutOrdered(fs: seq<Fix>, i: nat)
    requires i <= |fs|
    ensures Ordered(Cut(fs, i), i)
    decreases |fs| - i
  {
    hide FirstAbove, FirstBelow, Cut;
    CutCases(fs, i);
    var a := FirstAbove(fs, i);
    if a < |fs| {
      var b := FirstBelow(fs, a + 1);
      if b < |fs| {
        CutOrdered(fs, b + 1);
        OrderedBehind(Span(a, Some(b)), Cut(fs, b + 1), i);
      }
    }
  }

  // ----- the rows of one device -----

  function Rows(ts: seq<Trip>, device: string): seq<Trip> {
    if ts == [] then []
    else Rows(ts[..|ts| - 1], device) + if ts[|ts| - 1].device == device then [ts[|ts| - 1]] else []
  }

  lemma RowsAppend(ts: seq<Trip>, t: Trip, device: string)
    ensures Rows(ts + [t], device) == Rows(ts, device) + if t.device == device then [t] else []
  {
    assert (ts + [t])[..|ts|] == ts;
  }

  lemma {:induction false} RowsOfEnded(ts: seq<Trip>, id: string, p: Point, device: string)
    ensures Rows(Ended(ts, id, p), device) == Ended(Rows(ts, device), id, p)
  {
    if ts != [] {
      var n := |ts| - 1;
      RowsOfEnded(ts[..n], id, p, device);
      assert Ended(ts, id, p)[..n] == Ended(ts[..n], id, p);
    }
  }

  /** Every row of the device is a row of the table, and the order is kept. */
  lemma {:induction false} RowsWithin(ts: seq<Trip>, device: string)
    requires Unique(ts)
    ensures Unique(Rows(ts, device))
    ensures forall k :: 0 <= k < |Rows(ts, device)| ==>
              Rows(ts, device)[k].device == device && exists i :: 0 <= i < |ts| && ts[i] == Rows(ts, device)[k]
  {
    if ts != [] {
      var n := |ts| - 1;
      RowsWithin(ts[..n], device);
      var rows := Rows(ts[..n], device);
      forall k | 0 <= k < |rows| ensures exists i :: 0 <= i < n && ts[i] == rows[k] {
        var i :| 0 <= i < |ts[..n]| && ts[..n][i] == rows[k];
        assert ts[i] == rows[k];
      }
      forall k | 0 <= k < |Rows(ts, device)|
        ensures exists i :: 0 <= i < |ts| && ts[i] == Rows(ts, device)[k]
      {
        if k == |rows| { assert ts[n] == Rows(ts, device)[k]; }
      }
    }
  }

  predicate RowOf(ts: seq<Trip>, id: string, device: string) {
    exists i :: 0 <= i < |ts| && ts[i].id == id && ts[i].device == device
  }

  /** Neither a string with a meaning of its own nor a row of another device is among this device's rows. */
  lemma NotMine(ts: seq<Trip>, id: string, other: string, device: string)
    requires Unique(ts) && RealIds(ts) && other != device && (RealId(id) ==> RowOf(ts, id, other))
    ensures forall k :: 0 <= k < |Rows(ts, device)| ==> Rows(ts, device)[k].id != id
  {
    hide Rows;
    RowsWithin(ts, device);
  }

  // ----- refinement -----

  /** The row of a trip: tenant, start time and place of its first record, end time and place of its last. */
  predicate RowFor(row: Trip, fs: seq<Fix>, sp: Span) {
    && InStream(fs, sp)
    && row.tenant == fs[sp.first].tenant
    && row.start == Point(fs[sp.first].time, fs[sp.first].lat, fs[sp.first].lng)
    && (sp.last.None? ==> row.end == None)
    && (sp.last.Some? ==>
          var f := fs[sp.last.value]; row.end == Some(Point(f.time, f.lat, f.lng)))
  }

  /** The rows are the cut, and the two keys say whether the last trip is open and which row it is. */
  ghost predicate Refines(s: Store, device: string, fs: seq<Fix>) {
    var rows, spans := Rows(s.trips, device), Cut(fs, 0);
    && |rows| == |spans|
    && (forall k :: 0 <= k < |rows| ==> RowFor(rows[k], fs, spans[k]))
    && (if Underway(spans) then
          && StateSeen(s, device, Fine) == "ACTIVE"
          && TripIdSeen(s, device, Fine) == rows[|rows| - 1].id
        else
          StateSeen(s, device, Fine) == "IDLE")
  }

  lemma RowForGrows(row: Trip, fs: seq<Fix>, f: Fix, sp: Span)
    requires RowFor(row, fs, sp)
    ensures RowFor(row, fs + [f], sp)
  {
  }

  lemma OpenedRefines(s: Store, fs: seq<Fix>, f: Fix, id: string)
    requires Refines(s, f.device, fs) && !Underway(Cut(fs, 0)) && f.speed > 5 && RealId(f.tenant)
    ensures Refines(Opened(s, f, ALL_FINE, id).0, f.device, fs + [f])
  {
    hide Cut, Rows, StateKey, TripIdKey;
    KeysCollide(f.device, f.device);
    CutGrows(fs, f, 0);
    RowsAppend(s.trips, NewRow(f, id), f.device);
    var rows := Rows(s.trips, f.device);
    forall k | 0 <= k < |rows| ensures RowFor(rows[k], fs + [f], Cut(fs, 0)[k]) {
      RowForGrows(rows[k], fs, f, Cut(fs, 0)[k]);
    }
  }

  lemma ClosedEffect(s: Store, f: Fix)
    requires RealId(TripIdSeen(s, f.device, Fine))
    ensures var s' := Closed(s, f, ALL_FINE).0;
            && s'.trips == Ended(s.trips, TripIdSeen(s, f.device, Fine), PointOf(f))
            && StateSeen(s', f.device, Fine) == "IDLE"
  {
    hide Ended, StateKey, TripIdKey;
    KeysCollide(f.device, f.device);
  }

  lemma RowsAreReal(ts: seq<Trip>, device: string)
    requires Unique(ts) && RealIds(ts)
    ensures Unique(Rows(ts, device)) && RealIds(Rows(ts, device))
  {
    hide Rows;
    RowsWithin(ts, device);
  }

  lemma ClosedRefines(s: Store, fs: seq<Fix>, f: Fix)
    requires Refines(s, f.device, fs) && Underway(Cut(fs, 0)) && f.speed < 2
    requires Unique(s.trips) && RealIds(s.trips)
    ensures Refines(Closed(s, f, ALL_FINE).0, f.device, fs + [f])
  {
    hide Cut, Rows, StateSeen, TripIdSeen, Closed;
    CutGrows(fs, f, 0);
    RowsAreReal(s.trips, f.device);
    var rows, spans := Rows(s.trips, f.device), Cut(fs, 0);
    var last := |rows| - 1;
    var id := rows[last].id;
    ClosedEffect(s, f);
    RowsOfEnded(s.trips, id, PointOf(f), f.device);
    var rows' := Ended(rows, id, PointOf(f));
    assert rows'[last] == rows[last].(end := Some(PointOf(f)));
    forall k | 0 <= k < last ensures rows'[k] == rows[k] && RowFor(rows[k], fs + [f], spans[k]) {
      RowForGrows(rows[k], fs, f, spans[k]);
    }
  }

  lemma IdleRefines(s: Store, fs: seq<Fix>, f: Fix)
    requires Refines(s, f.device, fs) && if Underway(Cut(fs, 0)) then f.speed >= 2 else f.speed <= 5
    ensures Refines(s, f.device, fs + [f])
  {
    hide Cut, Rows, StateSeen, TripIdSeen;
    CutGrows(fs, f, 0);
    var rows, spans := Rows(s.trips, f.device), Cut(fs, 0);
    forall k | 0 <= k < |rows| ensures RowFor(rows[k], fs + [f], spans[k]) {
      RowForGrows(rows[k], fs, f, spans[k]);
    }
  }

  lemma OwnRefines(s: Store, fs: seq<Fix>, f: Fix, id: string)
    requires Refines(s, f.device, fs) && Unique(s.trips) && RealIds(s.trips) && RealId(f.tenant)
    ensures Refines(Step(s, f, ALL_FINE, id).0, f.device, fs + [f])
  {
    if !Underway(Cut(fs, 0)) && f.speed > 5 {
      OpenedRefines(s, fs, f, id);
    } else if Underway(Cut(fs, 0)) && f.speed < 2 {
      ClosedRefines(s, fs, f);
    } else {
      IdleRefines(s, fs, f);
    }
  }

  // ----- steps of other devices -----

  /** What a trip-id key holds is a row of its device, unless the key is the state key of a longer id. */
  ghost predicate Owned(s: Store, device: string) {
    TripIdKey(device) in s.redis && RealId(s.redis[TripIdKey(device)]) ==>
      RowOf(s.trips, s.redis[TripIdKey(device)], device)
  }

  lemma RowsStay(s: Store, f: Fix, o: Outcomes, id: string, row: string, device: string)
    requires RowOf(s.trips, row, device)
    ensures RowOf(Step(s, f, o, id).0.trips, row, device)
  {
    hide Step;
    RowsAfter(s, f, o, id);
    var i :| 0 <= i < |s.trips| && s.trips[i].id == row && s.trips[i].device == device;
    assert Step(s, f, o, id).0.trips[i].id == row;
  }

  lemma OwnedByOpening(s: Store, f: Fix, o: Outcomes, id: string)
    requires Owned(s, f.device) && StateSeen(s, f.device, Fine) == "IDLE" && f.speed > 5 && o.getState.Fine?
    ensures Owned(Step(s, f, o, id).0, f.device)
  {
    hide RowOf;
    KeysCollide(f.device, f.device);
    var s' := Step(s, f, o, id).0;
    if TookEffect(Accepted(f.tenant, o.insert)) {
      assert s'.trips[|s.trips|] == NewRow(f, id);
      assert RowOf(s'.trips, id, f.device) by { NewIsRowOf(s.trips, f, id); }
    }
    if TripIdKey(f.device) in s.redis && RealId(s.redis[TripIdKey(f.device)]) {
      RowsStay(s, f, o, id, s.redis[TripIdKey(f.device)], f.device);
    }
  }

  lemma NewIsRowOf(ts: seq<Trip>, f: Fix, id: string)
    ensures RowOf(ts + [NewRow(f, id)], id, f.device)
  {
    assert (ts + [NewRow(f, id)])[|ts|] == NewRow(f, id);
  }

  /** A step without an insert leaves a trip-id key as it is, erases it, or makes a state of it. */
  lemma KeyWithoutOpening(s: Store, f: Fix, o: Outcomes, id: string, device: string)
    requires !(StateSeen(s, f.device, o.getState) == "IDLE" && f.speed > 5) || f.device != device
    ensures var s', k := Step(s, f, o, id).0, TripIdKey(device);
            k in s'.redis ==> !RealId(s'.redis[k]) || (k in s.redis && s'.redis[k] == s.redis[k])
  {
    hide Ended, StateKey, TripIdKey;
    KeysCollide(f.device, device);
  }

  lemma StepOwned(s: Store, f: Fix, o: Outcomes, id: string, device: string)
    requires Owned(s, device)
    ensures Owned(Step(s, f, o, id).0, device)
  {
    hide Step, RowOf, RealId, TripIdKey;
    if f.device == device && StateSeen(s, device, o.getState) == "IDLE" && f.speed > 5 {
      OwnedByOpening(s, f, o, id);
    } else {
      KeyWithoutOpening(s, f, o, id, device);
      if TripIdKey(device) in s.redis && RealId(s.redis[TripIdKey(device)]) {
        RowsStay(s, f, o, id, s.redis[TripIdKey(device)], device);
      }
    }
  }

  lemma {:induction false} AllOwned(run: seq<Delivery>, device: string)
    ensures Owned(After(run), device)
  {
    hide Owned, Step;
    if run == [] {
      NoneOwned(device);
    } else {
      AllOwned(run[..|run| - 1], device);
      var x := run[|run| - 1];
      StepOwned(After(run[..|run| - 1]), x.fix, x.outcomes, x.id, device);
    }
  }

  lemma NoneOwned(device: string)
    ensures Owned(EMPTY, device)
  {
  }

  lemma OtherRowsSame(s: Store, f: Fix, o: Outcomes, id: string, device: string)
    requires Unique(s.trips) && RealIds(s.trips) && Owned(s, f.device) && f.device != device
    ensures Rows(Step(s, f, o, id).0.trips, device) == Rows(s.trips, device)
  {
    hide Rows, Step, Ended, RowOf, RealIds, Unique;
    RowsOfStep(s, f, o, id);
    RowsAppend(s.trips, NewRow(f, id), device);
    var rows, closing := Rows(s.trips, device), TripIdSeen(s, f.device, o.getTripId);
    assert rows + [] == rows;
    NotMine(s.trips, closing, f.device, device);
    RowsOfEnded(s.trips, closing, PointOf(f), device);
    assert Ended(rows, closing, PointOf(f)) == rows;
  }

  lemma OtherRefines(s: Store, f: Fix, o: Outcomes, id: string, mine: seq<Fix>, device: string)
    requires Refines(s, device, mine) && Unique(s.trips) && RealIds(s.trips) && Owned(s, f.device)
    requires f.device != device && !Disturbs(f.device, device)
    ensures Refines(Step(s, f, o, id).0, device, mine)
  {
    hide Cut, Rows, Step, RowFor, Owned;
    OtherRowsSame(s, f, o, id, device);
    KeysCollide(f.device, device);
    KeysCollide(device, f.device);
    OnlyOwnKeys(s, f, o, id, StateKey(device));
    if Underway(Cut(mine, 0)) {
      RowsAreReal(s.trips, device);
      assert RealId(TripIdSeen(s, device, Fine));
      if Disturbs(device, f.device) {
        NoStateNoStep(s, f, o, id);
      } else {
        OnlyOwnKeys(s, f, o, id, TripIdKey(device));
      }
    }
  }

  lemma NoStateNoStep(s: Store, f: Fix, o: Outcomes, id: string)
    requires StateKey(f.device) in s.redis && RealId(s.redis[StateKey(f.device)])
    ensures Step(s, f, o, id).0 == s
  {
    hide Opened, Closed;
  }

  // ----- runs in which one device's operations succeed -----

  /** The device's tenant is found and the operations on its records succeed; those on other records may fail. */
  predicate Smooth(run: seq<Delivery>, device: string) {
    forall i :: 0 <= i < |run| && run[i].fix.device == device ==>
      run[i].outcomes == ALL_FINE && RealId(run[i].fix.tenant)
  }

  function Own(run: seq<Delivery>, device: string): seq<Fix> {
    if run == [] then []
    else Own(run[..|run| - 1], device) + if run[|run| - 1].fix.device == device then [run[|run| - 1].fix] else []
  }

  /**
   Whatever records of other devices are interleaved, and however their operations fail, the rows of an undisturbed device
   are exactly the cut of its own records.
   */
  lemma {:induction false} RowsAreTheCut(run: seq<Delivery>, device: string)
    requires IsRun(run) && Smooth(run, device) && Undisturbed(run, device)
    ensures Refines(After(run), device, Own(run, device))
  {
    hide Step, Refines, Disturbs, RealIds, Unique, Owned;
    if run == [] {
      NothingYet(device);
    } else {
      var n := |run| - 1;
      var x, before := run[n], run[..n];
      RowsAreTheCut(before, device);
      IdsUnique(before);
      if x.fix.device == device {
        OwnRefines(After(before), Own(before, device), x.fix, x.id);
      } else {
        AllOwned(before, x.fix.device);
        OtherRefines(After(before), x.fix, x.outcomes, x.id, Own(before, device), device);
        assert Own(before, device) + [] == Own(before, device);
      }
    }
  }

  lemma NothingYet(device: string)
    ensures Refines(EMPTY, device, [])
  {
  }

  /** A row that ends before another one starts. */
  predicate EndsBefore(a: Trip, b: Trip) { a.end.Some? && a.end.value.time < b.start.time }

  predicate EndsForward(a: Trip) { a.end.Some? ==> a.start.time < a.end.value.time }

  /** Each trip ends after it starts, and before the next one starts; so at most the last one is open. */
  predicate Disjoint(rows: seq<Trip>) {
    && (forall k :: 0 <= k < |rows| ==> EndsForward(rows[k]))
    && (forall k, m :: 0 <= k < m < |rows| ==> EndsBefore(rows[k], rows[m]))
  }

  /** With increasing timestamps the rows of one device are ordered and disjoint trips. */
  lemma RowsInOrder(run: seq<Delivery>, device: string)
    requires IsRun(run) && Smooth(run, device) && Undisturbed(run, device)
    requires Increasing(Own(run, device))
    ensures Disjoint(Rows(After(run).trips, device))
  {
    hide After, Own, Rows, Cut, StateSeen, TripIdSeen, IsRun, Smooth, Undisturbed;
    RowsAreTheCut(run, device);
    CutOrdered(Own(run, device), 0);
    var rows, fs, spans := Rows(After(run).trips, device), Own(run, device), Cut(Own(run, device), 0);
    forall k | 0 <= k < |rows| ensures EndsForward(rows[k]) {
      assert RowFor(rows[k], fs, spans[k]) && Sound(spans[k], 0);
    }
    forall k, m | 0 <= k < m < |rows| ensures EndsBefore(rows[k], rows[m]) {
      assert RowFor(rows[k], fs, spans[k]) && RowFor(rows[m], fs, spans[m]) && Precedes(spans[k], spans[m]);
    }
  }

  // ----- redelivery -----

  /** The same record again, at once and any number of times, changes nothing. */
  lemma Replayed(s: Store, f: Fix, id: string, id': string)
    ensures var s' := Step(s, f, ALL_FINE, id).0;
            Step(s', f, ALL_FINE, id').0 == s' && (RealId(f.tenant) ==> Step(s', f, ALL_FINE, id').1 == 0)
  {
    KeysCollide(f.device, f.device);
  }

  function Again(s: Store, f: Fix, ids: seq<string>): Store {
    if ids == [] then s else Step(Again(s, f, ids[..|ids| - 1]), f, ALL_FINE, ids[|ids| - 1]).0
  }

  lemma {:induction false} ReplayedAnyNumber(s: Store, f: Fix, id: string, ids: seq<string>)
    ensures Again(Step(s, f, ALL_FINE, id).0, f, ids) == Step(s, f, ALL_FINE, id).0
  {
    hide Step;
    if ids != [] {
      ReplayedAnyNumber(s, f, id, ids[..|ids| - 1]);
      Replayed(s, f, id, ids[|ids| - 1]);
    }
  }

  lemma AfterOneMore(run: seq<Delivery>, x: Delivery)
    ensures After(run + [x]) == Step(After(run), x.fix, x.outcomes, x.id).0
    ensures forall d :: Own(run + [x], d) == Own(run, d) + if x.fix.device == d then [x.fix] else []
  {
    assert (run + [x])[..|run|] == run;
  }

  /**
   A record that comes late, such as the redelivery of one refused long ago, changes the store exactly when it is slow and
   a trip is under way, or fast and none is: the machine does not look at its time.
   */
  lemma LateRecordActsExactly(run: seq<Delivery>, f: Fix, id: string)
    requires IsRun(run) && Smooth(run, f.device) && Undisturbed(run, f.device)
    ensures Step(After(run), f, ALL_FINE, id).0 != After(run) <==>
            if Underway(Cut(Own(run, f.device), 0)) then f.speed < 2 else f.speed > 5 && RealId(f.tenant)
  {
    hide After, Own, Cut, Rows, RowFor, Ended, IsRun, Smooth, Undisturbed;
    RowsAreTheCut(run, f.device);
    KeysCollide(f.device, f.device);
  }

  /** So a record that comes again before any other one of its device changes nothing, whatever other devices do meanwhile. */
  lemma RepeatDoesNothing(run: seq<Delivery>, f: Fix, id: string)
    requires IsRun(run) && Smooth(run, f.device) && Undisturbed(run, f.device)
    requires Own(run, f.device) != [] && Own(run, f.device)[|Own(run, f.device)| - 1] == f
    ensures Step(After(run), f, ALL_FINE, id).0 == After(run)
  {
    hide After, Own, Cut, IsRun, Smooth, Undisturbed, Step;
    LateRecordActsExactly(run, f, id);
    var fs := Own(run, f.device);
    var n := |fs| - 1;
    assert fs == fs[..n] + [f];
    CutGrows(fs[..n], f, 0);
  }

  /** Some row ends no later than it starts. */
  predicate Backwards(rows: seq<Trip>) {
    exists k :: 0 <= k < |rows| && !EndsForward(rows[k])
  }

  lemma Forward(row: Trip, fs: seq<Fix>, f: Fix, spans: seq<Span>, k: nat)
    requires Increasing(fs) && Ordered(spans, 0) && k < |spans| && InStream(fs, spans[k]) && RowFor(row, fs + [f], spans[k])
    ensures EndsForward(row)
  {
    assert (fs + [f])[spans[k].first] == fs[spans[k].first];
    if spans[k].last.Some? { assert (fs + [f])[spans[k].last.value] == fs[spans[k].last.value]; }
  }

  lemma EndedNow(row: Trip, fs: seq<Fix>, f: Fix, first: nat)
    requires first < |fs| && RowFor(row, fs + [f], Span(first, Some(|fs|)))
    ensures row.end == Some(PointOf(f)) && row.start.time == fs[first].time
  {
  }

  /**
   If a device's records came with increasing timestamps so far, one more record makes a trip end before it starts exactly
   when it is slow, finds a trip under way, and is not younger than the record that opened it.
   */
  lemma LateRecordEndsBackwardsExactly(run: seq<Delivery>, x: Delivery)
    requires var device := x.fix.device;
             IsRun(run + [x]) && Smooth(run + [x], device) && Undisturbed(run + [x], device) && Increasing(Own(run, device))
    ensures var fs := Own(run, x.fix.device);
            var spans := Cut(fs, 0);
            Backwards(Rows(After(run + [x]).trips, x.fix.device)) <==>
              && Underway(spans) && x.fix.speed < 2
              && InStream(fs, spans[|spans| - 1]) && x.fix.time <= fs[spans[|spans| - 1].first].time
  {
    hide After, Own, Cut, Rows, StateSeen, TripIdSeen, IsRun, Smooth, Undisturbed, Increasing, Ordered, RowFor;
    var f, device := x.fix, x.fix.device;
    var fs, spans := Own(run, device), Cut(Own(run, device), 0);
    AfterOneMore(run, x);
    RowsAreTheCut(run + [x], device);
    CutGrows(fs, f, 0);
    CutOrdered(fs, 0);
    var rows := Rows(After(run + [x]).trips, device);
    SpansInStream(fs, 0);
    var spans' := OneMore(spans, |fs|, f.speed);
    forall k | 0 <= k < |rows| && k < |spans| && spans'[k] == spans[k]
      ensures EndsForward(rows[k])
    {
      assert RowFor(rows[k], fs + [f], spans'[k]);
      Forward(rows[k], fs, f, spans, k);
    }
    if Underway(spans) && f.speed < 2 {
      var last := |spans| - 1;
      assert RowFor(rows[last], fs + [f], spans'[last]);
      EndedNow(rows[last], fs, f, spans[last].first);
    } else if |spans'| > |spans| {
      assert RowFor(rows[|spans|], fs + [f], spans'[|spans|]);
      StillOpen(rows[|spans|], fs + [f], spans'[|spans|]);
    }
  }

  lemma StillOpen(row: Trip, fs: seq<Fix>, sp: Span)
    requires RowFor(row, fs, sp) && sp.last.None?
    ensures row.end.None?
  {
  }

  lemma {:induction false} SpansInStream(fs: seq<Fix>, i: nat)
    requires i <= |fs|
    ensures forall k :: 0 <= k < |Cut(fs, i)| ==> InStream(fs, Cut(fs, i)[k])
    decreases |fs| - i
  {
    hide FirstAbove, FirstBelow, Cut;
    CutCases(fs, i);
    var a := FirstAbove(fs, i);
    if a < |fs| && FirstBelow(fs, a + 1) < |fs| { SpansInStream(fs, FirstBelow(fs, a + 1) + 1); }
  }

  // ----- why a device must be undisturbed -----

  /** Device d, and e which is d followed by ":tripid": e opens a trip, d opens and ends one, e is fast again. */
  function Collision(d: string): seq<Delivery> {
    var e := d + ":tripid";
    [] + [Delivery(Fix(e, "t", 1, 0, 0, 9), ALL_FINE, "1")] + [Delivery(Fix(d, "t", 2, 0, 0, 9), ALL_FINE, "2")]
    + [Delivery(Fix(d, "t", 3, 0, 0, 0), ALL_FINE, "3")] + [Delivery(Fix(e, "t", 4, 0, 0, 9), ALL_FINE, "4")]
  }

  lemma Opening(s: Store, x: Delivery)
    requires StateSeen(s, x.fix.device, Fine) == "IDLE" && x.fix.speed > 5 && x.outcomes == ALL_FINE
    requires RealId(x.fix.tenant)
    ensures Step(s, x.fix, x.outcomes, x.id) ==
            (Store(s.redis[StateKey(x.fix.device) := "ACTIVE"][TripIdKey(x.fix.device) := x.id],
                   s.trips + [NewRow(x.fix, x.id)]), 0)
  {
  }

  lemma Ending(s: Store, x: Delivery)
    requires StateSeen(s, x.fix.device, Fine) == "ACTIVE" && x.fix.speed < 2 && x.outcomes == ALL_FINE
    requires RealId(TripIdSeen(s, x.fix.device, Fine))
    ensures Step(s, x.fix, x.outcomes, x.id) ==
            (Store(s.redis[StateKey(x.fix.device) := "IDLE"] - {TripIdKey(x.fix.device)},
                   Ended(s.trips, TripIdSeen(s, x.fix.device, Fine), PointOf(x.fix))), 0)
  {
  }

  lemma FailuresOneMore(run: seq<Delivery>, x: Delivery, device: string)
    requires x.outcomes == ALL_FINE && Step(After(run), x.fix, x.outcomes, x.id).1 == 0
    ensures Failures(run + [x], device) == Failures(run, device)
  {
    hide Step, After;
    assert (run + [x])[..|run|] == run;
  }

  /** After three records there are two rows, only the second one ended, and e has no state though its trip is open. */
  lemma CollisionErasesState(d: string)
    ensures var e, run, s := d + ":tripid", Collision(d)[..3], After(Collision(d)[..3]);
            && s.trips == [NewRow(run[0].fix, "1"), NewRow(run[1].fix, "2").(end := Some(PointOf(run[2].fix)))]
            && StateSeen(s, e, Fine) == "IDLE"
            && Failures(run, e) == 0
  {
    hide StateKey, TripIdKey, Step, Collision, Ended;
    var e, run := d + ":tripid", Collision(d);
    assert run == [Delivery(Fix(e, "t", 1, 0, 0, 9), ALL_FINE, "1"), Delivery(Fix(d, "t", 2, 0, 0, 9), ALL_FINE, "2"),
                   Delivery(Fix(d, "t", 3, 0, 0, 0), ALL_FINE, "3"), Delivery(Fix(e, "t", 4, 0, 0, 9), ALL_FINE, "4")]
    by { CollisionIs(d); }
    KeysCollide(d, e);
    KeysCollide(e, d);
    AfterOneMore([], run[0]);
    Opening(EMPTY, run[0]);
    FailuresOneMore([], run[0], e);
    var s1 := After([] + [run[0]]);
    AfterOneMore([] + [run[0]], run[1]);
    Opening(s1, run[1]);
    FailuresOneMore([] + [run[0]], run[1], e);
    var s2 := After([] + [run[0]] + [run[1]]);
    AfterOneMore([] + [run[0]] + [run[1]], run[2]);
    Ending(s2, run[2]);
    FailuresOneMore([] + [run[0]] + [run[1]], run[2], e);
    assert run[..3] == [] + [run[0]] + [run[1]] + [run[2]];
  }

  lemma CollisionIs(d: string)
    ensures var e := d + ":tripid";
            Collision(d) == [Delivery(Fix(e, "t", 1, 0, 0, 9), ALL_FINE, "1"), Delivery(Fix(d, "t", 2, 0, 0, 9), ALL_FINE, "2"),
                             Delivery(Fix(d, "t", 3, 0, 0, 0), ALL_FINE, "3"), Delivery(Fix(e, "t", 4, 0, 0, 9), ALL_FINE, "4")]
  {
  }

  /** With e disturbed by d, two trips of e are open though nothing failed, and e has one row more than its cut. */
  lemma CollisionOpensTwice(d: string)
    ensures var e, run := d + ":tripid", Collision(d);
            && IsRun(run) && Smooth(run, e) && Within(run, {d, e})
            && OpenCount(After(run).trips, e) == 2 && Failures(run, e) == 0
            && |Rows(After(run).trips, e)| == 2 && |Cut(Own(run, e), 0)| == 1
  {
    hide StateKey, TripIdKey, Step, Collision, After, Own, Failures, Cut, OpenCount, Rows;
    var e, run := d + ":tripid", Collision(d);
    CollisionIs(d);
    CollisionErasesState(d);
    var s, x := After(run[..3]), run[3];
    assert run == run[..3] + [x];
    AfterOneMore(run[..3], x);
    Opening(s, x);
    FailuresOneMore(run[..3], x, e);
    var row1, row2, row3 := s.trips[0], s.trips[1], NewRow(x.fix, "4");
    assert s.trips == [row1, row2] && After(run).trips == [row1, row2, row3];
    TwoOfThree(row1, row2, row3, e);
    assert Own(run, e) == [run[0].fix, x.fix] by { CollisionOwn(d); }
    CutOfTwoFast(run[0].fix, x.fix);
  }

  lemma TwoOfThree(r1: Trip, r2: Trip, r3: Trip, device: string)
    requires r1.device == r3.device == device != r2.device && r1.end.None? && r3.end.None?
    ensures OpenCount([r1, r2, r3], device) == 2 && Rows([r1, r2, r3], device) == [r1, r3]
  {
    hide OpenCount, Rows, IsOpen;
    assert [r1, r2, r3] == [] + [r1] + [r2] + [r3];
    NoneAtFirst(device);
    OpenAppend([], r1, device);
    OpenAppend([] + [r1], r2, device);
    OpenAppend([] + [r1] + [r2], r3, device);
    RowsAppend([], r1, device);
    RowsAppend([] + [r1], r2, device);
    RowsAppend([] + [r1] + [r2], r3, device);
  }

  lemma NoneAtFirst(device: string)
    ensures OpenCount([], device) == 0 && Rows([], device) == []
  {
  }

  lemma CollisionOwn(d: string)
    ensures Own(Collision(d), d + ":tripid") == [Collision(d)[0].fix, Collision(d)[3].fix]
  {
    hide Step, After;
    var run := Collision(d);
    assert run == [] + [run[0]] + [run[1]] + [run[2]] + [run[3]];
    AfterOneMore([], run[0]);
    AfterOneMore([] + [run[0]], run[1]);
    AfterOneMore([] + [run[0]] + [run[1]], run[2]);
    AfterOneMore([] + [run[0]] + [run[1]] + [run[2]], run[3]);
  }

  lemma CutOfTwoFast(f: Fix, g: Fix)
    requires f.speed > 5 && g.speed > 5
    ensures Cut([f, g], 0) == [Span(0, None)]
  {
    NothingAtEnd([]);
    CutGrows([], f, 0);
    CutGrows([] + [f], g, 0);
    assert [] + [f] + [g] == [f, g];
  }

  predicate Within(run: seq<Delivery>, devices: set<string>) {
    forall i :: 0 <= i < |run| ==> run[i].fix.device in devices
  }

  /** In every run over these devices, the open trips of the device stay within one plus its failures. */
  ghost predicate AlwaysBounded(devices: set<string>, device: string) {
    forall run :: IsRun(run) && Within(run, devices) ==>
      OpenCount(After(run).trips, device) <= 1 + Failures(run, device)
  }

  /** The rows are those of the cut of a stream. */
  predicate CutInto(rows: seq<Trip>, fs: seq<Fix>) {
    |rows| == |Cut(fs, 0)| && forall k :: 0 <= k < |rows| ==> RowFor(rows[k], fs, Cut(fs, 0)[k])
  }

  /** In every run over these devices in which the device's own operations succeed, its rows are the cut of its records. */
  ghost predicate AlwaysCut(devices: set<string>, device: string) {
    forall run :: IsRun(run) && Within(run, devices) && Smooth(run, device) ==>
      CutInto(Rows(After(run).trips, device), Own(run, device))
  }

  /** Both guarantees hold of a device among others exactly when none of them disturbs it. */
  lemma KeptExactlyIfUndisturbed(devices: set<string>, device: string)
    requires device in devices
    ensures AlwaysBounded(devices, device) <==> forall d | d in devices :: !Disturbs(d, device)
    ensures AlwaysCut(devices, device) <==> forall d | d in devices :: !Disturbs(d, device)
  {
    hide After, Failures, OpenCount, Own, Rows, Cut, RowFor, IsRun, Smooth, StateSeen, TripIdSeen;
    if forall d | d in devices :: !Disturbs(d, device) {
      forall run | IsRun(run) && Within(run, devices)
        ensures OpenCount(After(run).trips, device) <= 1 + Failures(run, device)
        ensures Smooth(run, device) ==> CutInto(Rows(After(run).trips, device), Own(run, device))
      {
        OpenTripsBound(run, device);
        if Smooth(run, device) { RowsAreTheCut(run, device); }
      }
    } else {
      var d :| d in devices && Disturbs(d, device);
      CollisionOpensTwice(d);
      assert Within(Collision(d), devices);
    }
  }
}
