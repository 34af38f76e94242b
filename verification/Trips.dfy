/**
 The trip state machine: two Redis keys and a table row per trip, changed one operation at a time. Any operation may fail,
 and a failed one may or may not have taken effect.
 */
module Trips {
  import opened Options

  /** A position record as the machine sees it. */
  datatype Fix = Fix(device: string, tenant: string, time: int, lat: int, lng: int, speed: nat)

  datatype Point = Point(time: int, lat: int, lng: int)

  function PointOf(f: Fix): Point { Point(f.time, f.lat, f.lng) }

  /** A row of the trips table; the table keeps rows in insertion order. */
  datatype Trip = Trip(id: string, tenant: string, device: string, start: Point, end: Option<Point>)

  datatype Store = Store(redis: map<string, string>, trips: seq<Trip>)

  const EMPTY := Store(map[], [])

  datatype Op = Fine | FailedWithoutEffect | FailedAfterEffect

  /** How each operation of one Process call turns out, should it be reached. */
  datatype Outcomes = Outcomes(
    getState: Op, insert: Op, setActive: Op, setTripId: Op, getTripId: Op, update: Op, setIdle: Op, delTripId: Op)

  const ALL_FINE := Outcomes(Fine, Fine, Fine, Fine, Fine, Fine, Fine, Fine)

  function StateKey(device: string): string { "gpsgo:tripstate:" + device }

  function TripIdKey(device: string): string { "gpsgo:tripstate:" + device + ":tripid" }

  /** An id, as opposed to the strings that a key or a field may hold instead of one. */
  predicate RealId(id: string) { id != "" && id != "IDLE" && id != "ACTIVE" }

  // ----- single operations -----

  predicate TookEffect(op: Op) { !op.FailedWithoutEffect? }

  function Cost(op: Op): nat { if op.Fine? then 0 else 1 }

  /** An operation that passes `id` to a UUID column: anything else is refused there. */
  function Accepted(id: string, op: Op): Op { if RealId(id) then op else FailedWithoutEffect }

  function Put(s: Store, key: string, value: string, op: Op): Store {
    if TookEffect(op) then s.(redis := s.redis[key := value]) else s
  }

  function Delete(s: Store, key: string, op: Op): Store {
    if TookEffect(op) then s.(redis := s.redis - {key}) else s
  }

  function NewRow(f: Fix, id: string): Trip { Trip(id, f.tenant, f.device, PointOf(f), None) }

  function Insert(s: Store, row: Trip, op: Op): Store {
    if TookEffect(op) then s.(trips := s.trips + [row]) else s
  }

  /** UPDATE trips SET end WHERE id. */
  function Ended(ts: seq<Trip>, id: string, p: Point): (r: seq<Trip>)
    ensures |r| == |ts|
    ensures forall i :: 0 <= i < |ts| ==> r[i] == if ts[i].id == id then ts[i].(end := Some(p)) else ts[i]
  {
    seq(|ts|, i requires 0 <= i < |ts| => if ts[i].id == id then ts[i].(end := Some(p)) else ts[i])
  }

  function Update(s: Store, id: string, p: Point, op: Op): Store {
    if TookEffect(op) then s.(trips := Ended(s.trips, id, p)) else s
  }

  // ----- one record -----

  /** GET of the state: an absent key means IDLE, an error leaves the empty string. */
  function StateSeen(s: Store, device: string, op: Op): string {
    if !op.Fine? then ""
    else if StateKey(device) in s.redis then s.redis[StateKey(device)] else "IDLE"
  }

  function TripIdSeen(s: Store, device: string, op: Op): string {
    if op.Fine? && TripIdKey(device) in s.redis then s.redis[TripIdKey(device)] else ""
  }

  function Opened(s: Store, f: Fix, o: Outcomes, id: string): (Store, nat) {
    var inserted := Accepted(f.tenant, o.insert);
    var s1 := Insert(s, NewRow(f, id), inserted);
    if !inserted.Fine? then (s1, 1)
    else
      var s2 := Put(s1, StateKey(f.device), "ACTIVE", o.setActive);
      (Put(s2, TripIdKey(f.device), id, o.setTripId), Cost(o.setActive) + Cost(o.setTripId))
  }

  function Closed(s: Store, f: Fix, o: Outcomes): (Store, nat) {
    var id := TripIdSeen(s, f.device, o.getTripId);
    var updated := Accepted(id, o.update);
    var s1 := if id != "" then Update(s, id, PointOf(f), updated) else s;
    var s2 := Put(s1, StateKey(f.device), "IDLE", o.setIdle);
    (Delete(s2, TripIdKey(f.device), o.delTripId),
     Cost(o.getTripId) + (if id != "" then Cost(updated) else 0) + Cost(o.setIdle) + Cost(o.delTripId))
  }

  /** The store after one record, and how many of the operations made have failed. `id` is the id the database draws. */
  function Step(s: Store, f: Fix, o: Outcomes, id: string): (Store, nat) {
    var state := StateSeen(s, f.device, o.getState);
    if !o.getState.Fine? then (s, 1)
    else if state == "IDLE" && f.speed > 5 then Opened(s, f, o, id)
    else if state == "ACTIVE" && f.speed < 2 then Closed(s, f, o)
    else (s, 0)
  }

  class TripMachine {
    var redis: map<string, string>
    var trips: seq<Trip>
    ghost var failures: nat

    constructor ()
      ensures Contents() == EMPTY && failures == 0
    {
      redis, trips, failures := map[], [], 0;
    }

    ghost function Contents(): Store
      reads this
    {
      Store(redis, trips)
    }

    method Set(key: string, value: string, op: Op)
      modifies this
      ensures Contents() == Put(old(Contents()), key, value, op) && failures == old(failures) + Cost(op)
    {
      if TookEffect(op) {
        redis := redis[key := value];
      }
      failures := failures + Cost(op);
    }

    method Del(key: string, op: Op)
      modifies this
      ensures Contents() == Delete(old(Contents()), key, op) && failures == old(failures) + Cost(op)
    {
      if TookEffect(op) {
        redis := redis - {key};
      }
      failures := failures + Cost(op);
    }

    method Process(f: Fix, o: Outcomes, id: string)
      modifies this
      ensures Contents() == Step(old(Contents()), f, o, id).0
      ensures failures == old(failures) + Step(old(Contents()), f, o, id).1
    {
      var stateKey := StateKey(f.device);
      var tripIdKey := TripIdKey(f.device);
      var state := "";
      if o.getState.Fine? {
        state := if stateKey in redis then redis[stateKey] else "IDLE";
      }
      failures := failures + Cost(o.getState);

      if state == "IDLE" && f.speed > 5 {
        var inserted := Accepted(f.tenant, o.insert);
        if TookEffect(inserted) {
          trips := trips + [Trip(id, f.tenant, f.device, PointOf(f), None)];
        }
        failures := failures + Cost(inserted);
        if !inserted.Fine? {
          return;
        }
        Set(stateKey, "ACTIVE", o.setActive);
        Set(tripIdKey, id, o.setTripId);
      } else if state == "ACTIVE" && f.speed < 2 {
        var tripID := "";
        if o.getTripId.Fine? && tripIdKey in redis {
          tripID := redis[tripIdKey];
        }
        failures := failures + Cost(o.getTripId);
        if tripID != "" {
          var updated := Accepted(tripID, o.update);
          if TookEffect(updated) {
            trips := Ended(trips, tripID, PointOf(f));
          }
          failures := failures + Cost(updated);
        }
        Set(stateKey, "IDLE", o.setIdle);
        Del(tripIdKey, o.delTripId);
      }
    }
  }

  // ----- keys of different devices -----

  /** Two devices share a key exactly when one id is the other followed by ":tripid". */
  lemma KeysCollide(d: string, e: string)
    ensures StateKey(d) == StateKey(e) <==> d == e
    ensures TripIdKey(d) == TripIdKey(e) <==> d == e
    ensures StateKey(d) == TripIdKey(e) <==> d == e + ":tripid"
  {
    assert StateKey(d)[16..] == d && StateKey(e)[16..] == e;
    assert TripIdKey(d)[16..] == d + ":tripid" && TripIdKey(e)[16..] == e + ":tripid";
    assert (d + ":tripid")[..|d|] == d && (e + ":tripid")[..|e|] == e;
    assert TripIdKey(e) == StateKey(e + ":tripid");
  }

  /** What one trip leaves behind: a row with both its ends, the state set back and no trip id. */
  lemma OneTrip(f: Fix, g: Fix, id: string, other: string)
    requires f.speed > 5 && g.speed < 2 && g.device == f.device && RealId(f.tenant) && RealId(id)
    ensures var s := Step(EMPTY, f, ALL_FINE, id).0;
            s == Store(map["gpsgo:tripstate:" + f.device := "ACTIVE", "gpsgo:tripstate:" + f.device + ":tripid" := id],
                       [Trip(id, f.tenant, f.device, Point(f.time, f.lat, f.lng), None)])
    ensures Step(Step(EMPTY, f, ALL_FINE, id).0, g, ALL_FINE, other).0 ==
            Store(map["gpsgo:tripstate:" + f.device := "IDLE"],
                  [Trip(id, f.tenant, f.device, Point(f.time, f.lat, f.lng), Some(Point(g.time, g.lat, g.lng)))])
  {
    KeysCollide(f.device, f.device);
    var s := Step(EMPTY, f, ALL_FINE, id).0;
    assert s.redis[StateKey(f.device)] == "ACTIVE" && s.redis[TripIdKey(f.device)] == id;
    var t := Step(s, g, ALL_FINE, other).0;
    assert t.trips == [Trip(id, f.tenant, f.device, Point(f.time, f.lat, f.lng), Some(Point(g.time, g.lat, g.lng)))];
    assert t.redis == map["gpsgo:tripstate:" + f.device := "IDLE"];
  }

  /** What a call counts as failed are the operations that report an error: one each, and none but those. */
  lemma FailuresCounted(s: Store, f: Fix, o: Outcomes, id: string)
    requires RealId(f.tenant) && o.getState == Fine
    ensures var state := StateSeen(s, f.device, Fine);
            && (state == "IDLE" && f.speed > 5 && o.insert == Fine ==>
                  Step(s, f, o, id).1 == (if o.setActive != Fine then 1 else 0) + (if o.setTripId != Fine then 1 else 0))
            && (state == "IDLE" && f.speed > 5 && o.insert != Fine ==> Step(s, f, o, id).1 == 1)
            && (state == "ACTIVE" && f.speed < 2 && RealId(TripIdSeen(s, f.device, o.getTripId)) ==>
                  Step(s, f, o, id).1 == (if o.update != Fine then 1 else 0) + (if o.setIdle != Fine then 1 else 0)
                                         + (if o.delTripId != Fine then 1 else 0))
  {
    hide Ended;
  }

  /**
   A state that cannot be read stops everything, and an insert that reports an error leaves both keys alone even if the row
   is there; every other error is passed over, and the operations after it are made all the same.
   */
  lemma ErrorsIgnored(s: Store, f: Fix, o: Outcomes, id: string)
    requires RealId(f.tenant)
    ensures o.getState != Fine ==> Step(s, f, o, id).0 == s
    ensures f.speed > 5 && o.insert != Fine ==> Step(s, f, o, id).0.redis == s.redis
    ensures var k, key := "gpsgo:tripstate:" + f.device, "gpsgo:tripstate:" + f.device + ":tripid";
            && (o.getState == Fine && f.speed > 5 && o.insert == Fine && (k in s.redis ==> s.redis[k] == "IDLE") ==>
                  var marked := if o.setActive != FailedWithoutEffect then s.redis[k := "ACTIVE"] else s.redis;
                  Step(s, f, o, id).0.redis == if o.setTripId != FailedWithoutEffect then marked[key := id] else marked)
            && (o.getState == Fine && f.speed < 2 && k in s.redis && s.redis[k] == "ACTIVE" ==>
                  var marked := if o.setIdle != FailedWithoutEffect then s.redis[k := "IDLE"] else s.redis;
                  Step(s, f, o, id).0.redis == if o.delTripId != FailedWithoutEffect then marked - {key} else marked)
  {
    hide Ended;
  }

  /** The records of `d` disturb `device`: the trip id of `d` is kept under the state key of `device`. */
  predicate Disturbs(d: string, device: string) { device == d + ":tripid" }

  /** The ids that the lookup of a device accepts are UUIDs, which have no colon; nothing disturbs such a device. */
  lemma UuidsAreUndisturbed(d: string, device: string)
    requires ':' !in device
    ensures !Disturbs(d, device)
  {
    assert (d + ":tripid")[|d|] == ':';
  }

  // ----- runs -----

  /** One delivery of a record: its outcomes, and the id drawn should a row be inserted. */
  datatype Delivery = Delivery(fix: Fix, outcomes: Outcomes, id: string)

  function After(run: seq<Delivery>): Store {
    if run == [] then EMPTY
    else
      var x := run[|run| - 1];
      Step(After(run[..|run| - 1]), x.fix, x.outcomes, x.id).0
  }

  /** Operations that failed while processing records of a device. */
  function Failures(run: seq<Delivery>, device: string): nat {
    if run == [] then 0
    else
      var x := run[|run| - 1];
      Failures(run[..|run| - 1], device)
      + if x.fix.device == device then Step(After(run[..|run| - 1]), x.fix, x.outcomes, x.id).1 else 0
  }

  predicate HasId(ts: seq<Trip>, id: string) { exists i :: 0 <= i < |ts| && ts[i].id == id }

  /** The database draws real ids, and none twice. */
  predicate IsRun(run: seq<Delivery>) {
    && (forall i :: 0 <= i < |run| ==> RealId(run[i].id))
    && (forall i, j :: 0 <= i < j < |run| ==> run[i].id != run[j].id)
  }

  /** No record of the run disturbs the device. */
  predicate Undisturbed(run: seq<Delivery>, device: string) {
    forall i :: 0 <= i < |run| ==> !Disturbs(run[i].fix.device, device)
  }

  ghost predicate Unique(ts: seq<Trip>) { forall i, j :: 0 <= i < j < |ts| ==> ts[i].id != ts[j].id }

  ghost predicate RealIds(ts: seq<Trip>) { forall i :: 0 <= i < |ts| ==> RealId(ts[i].id) }

  /** The row was inserted by a delivery of the run. */
  predicate DrawnIn(t: Trip, run: seq<Delivery>) { exists k :: 0 <= k < |run| && run[k].id == t.id }

  ghost predicate AllDrawn(ts: seq<Trip>, run: seq<Delivery>) { forall i :: 0 <= i < |ts| ==> DrawnIn(ts[i], run) }

  /** The rows after a step: a new one, or one ended, or the same. */
  lemma RowsOfStep(s: Store, f: Fix, o: Outcomes, id: string)
    ensures var ts := Step(s, f, o, id).0.trips;
            || ts == s.trips
            || ts == s.trips + [NewRow(f, id)]
            || ts == Ended(s.trips, TripIdSeen(s, f.device, o.getTripId), PointOf(f))
  {
    hide Ended, StateKey, TripIdKey;
  }

  /** A step adds at most one row, under the id drawn for it, and keeps ids and devices of the others. */
  lemma RowsAfter(s: Store, f: Fix, o: Outcomes, id: string)
    ensures var ts := Step(s, f, o, id).0.trips;
            && |s.trips| <= |ts| <= |s.trips| + 1
            && (forall i :: 0 <= i < |s.trips| ==> ts[i].id == s.trips[i].id && ts[i].device == s.trips[i].device)
            && (|ts| == |s.trips| + 1 ==> ts == s.trips + [NewRow(f, id)])
  {
    hide Step, NewRow;
    RowsOfStep(s, f, o, id);
  }

  lemma StillDrawn(t: Trip, run: seq<Delivery>, x: Delivery)
    requires DrawnIn(t, run)
    ensures forall u: Trip :: u.id == t.id ==> DrawnIn(u, run + [x])
  {
    var k :| 0 <= k < |run| && run[k].id == t.id;
    assert (run + [x])[k] == run[k];
  }

  lemma NowDrawn(t: Trip, run: seq<Delivery>, x: Delivery)
    requires t.id == x.id
    ensures DrawnIn(t, run + [x])
  {
    assert (run + [x])[|run|] == x;
  }

  lemma FreshId(t: Trip, run: seq<Delivery>)
    requires run != [] && IsRun(run) && DrawnIn(t, run[..|run| - 1])
    ensures t.id != run[|run| - 1].id && RealId(t.id)
  {
  }

  lemma {:induction false} IdsUnique(run: seq<Delivery>)
    requires IsRun(run)
    ensures Unique(After(run).trips) && RealIds(After(run).trips) && AllDrawn(After(run).trips, run)
  {
    hide Step, DrawnIn, RealId;
    if run != [] {
      var n := |run| - 1;
      var x, before := run[n], run[..n];
      IdsUnique(before);
      RowsAfter(After(before), x.fix, x.outcomes, x.id);
      assert run == before + [x];
      var ts, ts' := After(before).trips, After(run).trips;
      forall i | 0 <= i < |ts'|
        ensures DrawnIn(ts'[i], run) && RealId(ts'[i].id) && (i < |ts| ==> ts'[i].id == ts[i].id != x.id)
      {
        if i < |ts| {
          StillDrawn(ts[i], before, x);
          FreshId(ts[i], run);
        } else {
          NowDrawn(ts'[i], before, x);
        }
      }
    }
  }

  // ----- the bound on open trips when anything may fail -----

  function OpenCount(ts: seq<Trip>, device: string): nat {
    if ts == [] then 0
    else OpenCount(ts[..|ts| - 1], device)
         + if ts[|ts| - 1].device == device && ts[|ts| - 1].end.None? then 1 else 0
  }

  predicate IsOpen(ts: seq<Trip>, id: string, device: string) {
    exists i :: 0 <= i < |ts| && ts[i].id == id && ts[i].device == device && ts[i].end.None?
  }

  lemma OpenAppend(ts: seq<Trip>, t: Trip, device: string)
    ensures OpenCount(ts + [t], device) ==
            OpenCount(ts, device) + if t.device == device && t.end.None? then 1 else 0
    ensures forall id :: IsOpen(ts, id, device) ==> IsOpen(ts + [t], id, device)
    ensures t.device == device && t.end.None? ==> IsOpen(ts + [t], t.id, device)
  {
    assert (ts + [t])[..|ts|] == ts;
    forall id | IsOpen(ts, id, device) ensures IsOpen(ts + [t], id, device) {
      var i :| 0 <= i < |ts| && ts[i].id == id && ts[i].device == device && ts[i].end.None?;
      assert (ts + [t])[i] == ts[i];
    }
    assert (ts + [t])[|ts|] == t;
  }

  lemma IsOpenLast(ts: seq<Trip>, id: string, device: string)
    requires ts != []
    ensures var t := ts[|ts| - 1];
            IsOpen(ts, id, device) <==>
              IsOpen(ts[..|ts| - 1], id, device) || (t.id == id && t.device == device && t.end.None?)
  {
    var n := |ts| - 1;
    if IsOpen(ts[..n], id, device) {
      var i :| 0 <= i < n && ts[..n][i].id == id && ts[..n][i].device == device && ts[..n][i].end.None?;
      assert ts[i].id == id && ts[i].device == device && ts[i].end.None?;
    }
    if IsOpen(ts, id, device) {
      var i :| 0 <= i < |ts| && ts[i].id == id && ts[i].device == device && ts[i].end.None?;
      if i < n { assert ts[..n][i] == ts[i]; }
    }
  }

  lemma LastIsOnlyOne(ts: seq<Trip>, device: string)
    requires ts != [] && Unique(ts)
    ensures !IsOpen(ts[..|ts| - 1], ts[|ts| - 1].id, device)
  {
  }

  /** Ending a row closes that row, if it was open, and no other. */
  lemma {:induction false} OpenAfterEnd(ts: seq<Trip>, id: string, p: Point, device: string)
    requires Unique(ts)
    ensures OpenCount(Ended(ts, id, p), device) + (if IsOpen(ts, id, device) then 1 else 0) == OpenCount(ts, device)
  {
    hide IsOpen;
    if ts != [] {
      var n := |ts| - 1;
      OpenAfterEnd(ts[..n], id, p, device);
      assert Ended(ts, id, p)[..n] == Ended(ts[..n], id, p);
      IsOpenLast(ts, id, device);
      LastIsOnlyOne(ts, device);
    } else {
      NoneOpen(id, device);
    }
  }

  lemma NoneOpen(id: string, device: string)
    ensures !IsOpen([], id, device)
  {
  }

  lemma OpenOthers(ts: seq<Trip>, id: string, p: Point, other: string, device: string)
    requires other != id
    ensures IsOpen(Ended(ts, id, p), other, device) <==> IsOpen(ts, other, device)
  {
    var ts' := Ended(ts, id, p);
    if IsOpen(ts, other, device) {
      var i :| 0 <= i < |ts| && ts[i].id == other && ts[i].device == device && ts[i].end.None?;
      assert ts'[i] == ts[i];
    }
    if IsOpen(ts', other, device) {
      var i :| 0 <= i < |ts'| && ts'[i].id == other && ts'[i].device == device && ts'[i].end.None?;
      assert ts'[i] == ts[i];
    }
  }

  /** The keys account for an open row: the state is ACTIVE and the trip id is that of an open row of the device. */
  predicate KeysHoldOpen(s: Store, device: string) {
    && StateKey(device) in s.redis && s.redis[StateKey(device)] == "ACTIVE"
    && TripIdKey(device) in s.redis && IsOpen(s.trips, s.redis[TripIdKey(device)], device)
  }

  /** The inductive bound: open rows are paid for by failures, except one that the keys account for. */
  predicate Bounded(s: Store, device: string, failures: nat) {
    OpenCount(s.trips, device) <= failures + if KeysHoldOpen(s, device) then 1 else 0
  }

  lemma OpenedKeepsBound(s: Store, f: Fix, o: Outcomes, id: string, failures: nat)
    requires Bounded(s, f.device, failures) && StateSeen(s, f.device, Fine) == "IDLE"
    ensures var (s', n) := Opened(s, f, o, id); Bounded(s', f.device, failures + n)
  {
    hide OpenCount, IsOpen;
    KeysCollide(f.device, f.device);
    OpenAppend(s.trips, NewRow(f, id), f.device);
  }

  lemma ClosedKeepsBound(s: Store, f: Fix, o: Outcomes, failures: nat)
    requires Unique(s.trips) && RealIds(s.trips) && Bounded(s, f.device, failures)
    ensures var (s', n) := Closed(s, f, o); Bounded(s', f.device, failures + n)
  {
    hide OpenCount, IsOpen, Ended, RealIds;
    var id := TripIdSeen(s, f.device, o.getTripId);
    KeysCollide(f.device, f.device);
    OpenAfterEnd(s.trips, id, PointOf(f), f.device);
    NotARow(s.trips, "", f.device);
  }

  lemma NotARow(ts: seq<Trip>, id: string, device: string)
    requires RealIds(ts) && !RealId(id)
    ensures !IsOpen(ts, id, device)
  {
  }

  /** While the keys of a device hold an open row, the device whose state key that is sees no state it knows. */
  lemma HeldIsNoState(s: Store, f: Fix, o: Outcomes, id: string, device: string)
    requires RealIds(s.trips) && Disturbs(device, f.device) && KeysHoldOpen(s, device)
    ensures Step(s, f, o, id).0 == s
  {
    hide IsOpen, Opened, Closed, RealIds;
    KeysCollide(f.device, device);
    NotARow(s.trips, "IDLE", device);
    NotARow(s.trips, "ACTIVE", device);
  }

  /** The keys a step of a device may change are its own two. */
  lemma OnlyOwnKeys(s: Store, f: Fix, o: Outcomes, id: string, key: string)
    requires key != StateKey(f.device) && key != TripIdKey(f.device)
    ensures var s' := Step(s, f, o, id).0;
            (key in s'.redis <==> key in s.redis) && (key in s.redis ==> s'.redis[key] == s.redis[key])
  {
    hide Ended, StateKey, TripIdKey;
  }

  /** A record of another device adds no open row of this one. */
  lemma OtherOpensNone(s: Store, f: Fix, o: Outcomes, id: string, device: string)
    requires Unique(s.trips) && f.device != device
    ensures OpenCount(Step(s, f, o, id).0.trips, device) <= OpenCount(s.trips, device)
  {
    hide OpenCount, IsOpen, Ended, Step;
    RowsOfStep(s, f, o, id);
    OpenAppend(s.trips, NewRow(f, id), device);
    OpenAfterEnd(s.trips, TripIdSeen(s, f.device, o.getTripId), PointOf(f), device);
  }

  lemma HeldOrFewer(s: Store, f: Fix, o: Outcomes, id: string, device: string)
    requires Unique(s.trips) && f.device != device && KeysHoldOpen(s, device)
    ensures var s' := Step(s, f, o, id).0;
            || OpenCount(s'.trips, device) < OpenCount(s.trips, device)
            || IsOpen(s'.trips, s.redis[TripIdKey(device)], device)
  {
    hide OpenCount, IsOpen, Ended, Step;
    RowsOfStep(s, f, o, id);
    var held, closing := s.redis[TripIdKey(device)], TripIdSeen(s, f.device, o.getTripId);
    OpenAppend(s.trips, NewRow(f, id), device);
    OpenAfterEnd(s.trips, closing, PointOf(f), device);
    if held != closing { OpenOthers(s.trips, closing, PointOf(f), held, device); }
  }

  /** A record of another device that does not disturb this one leaves its bound alone. */
  lemma OtherKeepsBound(s: Store, f: Fix, o: Outcomes, id: string, device: string, failures: nat)
    requires Unique(s.trips) && RealIds(s.trips) && Bounded(s, device, failures)
    requires f.device != device && !Disturbs(f.device, device)
    ensures Bounded(Step(s, f, o, id).0, device, failures)
  {
    hide OpenCount, IsOpen, Step, RealIds;
    OtherOpensNone(s, f, o, id, device);
    if KeysHoldOpen(s, device) {
      if Disturbs(device, f.device) {
        HeldIsNoState(s, f, o, id, device);
      } else {
        KeysCollide(f.device, device);
        KeysCollide(device, f.device);
        OnlyOwnKeys(s, f, o, id, StateKey(device));
        OnlyOwnKeys(s, f, o, id, TripIdKey(device));
        HeldOrFewer(s, f, o, id, device);
      }
    }
  }

  lemma {:induction false} RunBounded(run: seq<Delivery>, device: string)
    requires IsRun(run) && Undisturbed(run, device)
    ensures Bounded(After(run), device, Failures(run, device))
  {
    hide Opened, Closed, Bounded, Disturbs, RealIds, Unique;
    if run == [] {
      assert Bounded(EMPTY, device, 0) by { EmptyBounded(device); }
    } else {
      var n := |run| - 1;
      var x, before := run[n], run[..n];
      RunBounded(before, device);
      IdsUnique(before);
      var s := After(before);
      if x.fix.device != device {
        OtherKeepsBound(s, x.fix, x.outcomes, x.id, device, Failures(before, device));
      } else {
        if StateSeen(s, device, Fine) == "IDLE" {
          OpenedKeepsBound(s, x.fix, x.outcomes, x.id, Failures(before, device));
        }
        ClosedKeepsBound(s, x.fix, x.outcomes, Failures(before, device));
        MoreFailures(s, device, Failures(before, device));
      }
    }
  }

  lemma EmptyBounded(device: string)
    ensures Bounded(EMPTY, device, 0)
  {
  }

  lemma MoreFailures(s: Store, device: string, failures: nat)
    requires Bounded(s, device, failures)
    ensures Bounded(s, device, failures + 1)
  {
  }

  /** However operations fail, an undisturbed device has at most one open trip more than failures met on its records. */
  lemma OpenTripsBound(run: seq<Delivery>, device: string)
    requires IsRun(run) && Undisturbed(run, device)
    ensures OpenCount(After(run).trips, device) <= 1 + Failures(run, device)
  {
    hide After, Failures, OpenCount;
    RunBounded(run, device);
  }
}
