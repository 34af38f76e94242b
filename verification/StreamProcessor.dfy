/**
 The stream processor under at-least-once delivery: every message is enriched (which runs the trip machine), written to
 avl_records by insert-if-absent on (device, timestamp), announced, and acknowledged; a failed write is refused and
 redelivered.
 */
module StreamProcessor {
  import opened Options
  import opened Keys
  import opened Trips
  import TripCut
  import Hub
  import HubLoop

  /** Tenants are UUIDs. */
  type Tenant = t: string | RealId(t) && ':' !in t witness "t"

  /**
   One delivery of a message: its record unless the payload does not parse, the devices table (ids of devices that are not
   deleted, and their tenants) when the device is looked up, when it was received, and how the operations it leads to turn
   out. An event that the stream drops as a duplicate counts as one without effect.
   */
  datatype Incoming = Incoming(
    record: Option<Fix>, devices: map<string, Tenant>, lookup: Op, receivedAt: int, outcomes: Outcomes, tripId: string,
    write: Op, live: Op, event: Op, push: Op)

  predicate Known(m: Incoming) { m.record.Some? && m.record.value.device != "" && m.record.value.device in m.devices }

  /** What the lookup leaves as tenant: nothing for an unknown device, and nothing if it fails. */
  function TenantOf(m: Incoming): string {
    if Known(m) && m.lookup.Fine? then m.devices[m.record.value.device] else ""
  }

  datatype Verdict = Ack | Nak

  type Key = (string, int)

  datatype Row = Row(fix: Fix, receivedAt: int)

  /** Trips, stored records, the live snapshot by key, the events published, and what was pushed on which channel. */
  datatype Database = Database(
    trips: Store, avl: map<Key, Row>, live: map<string, Fix>, events: seq<Fix>, pushes: seq<(string, Fix)>)

  const NOTHING := Database(EMPTY, map[], map[], [], [])

  function KeyOf(f: Fix): Key { (f.device, f.time) }

  /** INSERT ... ON CONFLICT DO NOTHING. */
  function InsertIfAbsent(avl: map<Key, Row>, row: Row, op: Op): map<Key, Row> {
    if TookEffect(op) && KeyOf(row.fix) !in avl then avl[KeyOf(row.fix) := row] else avl
  }

  function Enriched(m: Incoming): Fix
    requires m.record.Some?
  {
    m.record.value.(tenant := TenantOf(m))
  }

  function SetLive(live: map<string, Fix>, f: Fix, op: Op): map<string, Fix> {
    if TookEffect(op) then live[KeyDeviceLive(f.tenant, f.device) := f] else live
  }

  function Published<T>(sent: seq<T>, x: T, op: Op): seq<T> { if TookEffect(op) then sent + [x] else sent }

  function Announced(db: Database, f: Fix, m: Incoming): Database {
    db.(live := SetLive(db.live, f, m.live), events := Published(db.events, f, m.event),
        pushes := Published(db.pushes, (KeyPubSubDevice(f.tenant), f), m.push))
  }

  function Handle(db: Database, m: Incoming): (Database, Verdict) {
    if m.record.None? then (db, Ack)
    else
      var f := Enriched(m);
      var driven := db.(trips := Step(db.trips, f, m.outcomes, m.tripId).0);
      if f.tenant == "" then (driven, Ack)
      else
        var written := driven.(avl := InsertIfAbsent(db.avl, Row(f, m.receivedAt), m.write));
        if m.write.Fine? then (Announced(written, f, m), Ack) else (written, Nak)
  }

  class Processor {
    const machine: TripMachine
    var avl: map<Key, Row>
    var live: map<string, Fix>
    var events: seq<Fix>
    var pushes: seq<(string, Fix)>

    constructor (m: TripMachine)
      ensures machine == m && avl == map[] && live == map[] && events == [] && pushes == []
    {
      machine := m;
      avl, live, events, pushes := map[], map[], [], [];
    }

    ghost function Contents(): Database
      reads this, machine
    {
      Database(machine.Contents(), avl, live, events, pushes)
    }

    method Write(row: Row, op: Op) returns (ok: bool)
      modifies `avl
      ensures avl == InsertIfAbsent(old(avl), row, op) && ok == op.Fine?
    {
      if TookEffect(op) {
        if KeyOf(row.fix) !in avl {
          avl := avl[KeyOf(row.fix) := row];
        }
      }
      ok := op.Fine?;
    }

    method UpdateLive(f: Fix, op: Op)
      modifies `live
      ensures live == SetLive(old(live), f, op)
    {
      var key := KeyDeviceLive(f.tenant, f.device);
      if TookEffect(op) {
        live := live[key := f];
      }
    }

    method PublishLive(f: Fix, op: Op)
      modifies `pushes
      ensures pushes == Published(old(pushes), (KeyPubSubDevice(f.tenant), f), op)
    {
      var channel := KeyPubSubDevice(f.tenant);
      if TookEffect(op) {
        pushes := pushes + [(channel, f)];
      }
    }

    method ProcessMessage(m: Incoming) returns (v: Verdict)
      modifies this, machine
      ensures (Contents(), v) == Handle(old(Contents()), m)
    {
      if m.record.None? {
        return Ack;
      }
      var raw := m.record.value;
      var tenantID := "";
      if raw.device != "" && raw.device in m.devices && m.lookup.Fine? {
        tenantID := m.devices[raw.device];
      }
      var enriched := raw.(tenant := tenantID);
      machine.Process(enriched, m.outcomes, m.tripId);
      if enriched.tenant == "" {
        return Ack;
      }
      var ok := Write(Row(enriched, m.receivedAt), m.write);
      if !ok {
        return Nak;
      }
      UpdateLive(enriched, m.live);
      if TookEffect(m.event) {
        events := events + [enriched];
      }
      PublishLive(enriched, m.push);
      v := Ack;
    }
  }

  // ----- avl_records after a run of deliveries -----

  /** The lookup finds this tenant for the device of the record. */
  predicate Found(m: Incoming, tenant: string) {
    && m.record.Some? && m.lookup == Fine
    && m.record.value.device != "" && m.record.value.device in m.devices && m.devices[m.record.value.device] == tenant
  }

  lemma FoundIs(m: Incoming, tenant: string)
    ensures Found(m, tenant) <==> m.record.Some? && TenantOf(m) == tenant && tenant != ""
    ensures Found(m, tenant) ==> Enriched(m) == m.record.value.(tenant := tenant)
    ensures m.record.Some? && (forall t :: !Found(m, t)) ==> TenantOf(m) == ""
  {
    if m.record.Some? && TenantOf(m) != "" { assert Found(m, TenantOf(m)); }
  }

  /** A delivery is refused exactly when its tenant is found and its write reports an error. */
  lemma RefusedExactly(db: Database, m: Incoming)
    ensures Handle(db, m).1 == Nak <==> (exists t :: Found(m, t)) && m.write != Fine
  {
    hide Step;
    FoundIs(m, TenantOf(m));
    if m.record.Some? && TenantOf(m) != "" { assert Found(m, TenantOf(m)); }
    forall t | Found(m, t) ensures TenantOf(m) != "" { FoundIs(m, t); }
  }

  /** The delivery put its row forward and the database took it. */
  predicate Committed(m: Incoming) {
    && m.record.Some? && m.lookup == Fine && m.record.value.device != "" && m.record.value.device in m.devices
    && m.write != FailedWithoutEffect
  }

  function KeyIn(m: Incoming): Key
    requires Committed(m)
  {
    (m.record.value.device, m.record.value.time)
  }

  function RowIn(m: Incoming): Row
    requires Committed(m)
  {
    Row(m.record.value.(tenant := m.devices[m.record.value.device]), m.receivedAt)
  }

  function After(run: seq<Incoming>): Database {
    if run == [] then NOTHING else Handle(After(run[..|run| - 1]), run[|run| - 1]).0
  }

  function VerdictOf(run: seq<Incoming>, i: nat): Verdict
    requires i < |run|
  {
    Handle(After(run[..i]), run[i]).1
  }

  predicate CommitsAt(run: seq<Incoming>, i: int, k: Key) {
    0 <= i < |run| && Committed(run[i]) && KeyIn(run[i]) == k
  }

  predicate FirstCommit(run: seq<Incoming>, i: int, k: Key) {
    CommitsAt(run, i, k) && forall j :: 0 <= j < i ==> !CommitsAt(run, j, k)
  }

  lemma HandleParts(db: Database, m: Incoming)
    ensures var (db', v) := Handle(db, m);
            && db'.avl == (if Committed(m) && KeyIn(m) !in db.avl then db.avl[KeyIn(m) := RowIn(m)] else db.avl)
            && db'.trips == (if m.record.Some? then Step(db.trips, Enriched(m), m.outcomes, m.tripId).0 else db.trips)
            && (v == Nak <==> m.record.Some? && TenantOf(m) != "" && !m.write.Fine?)
  {
    hide Step, SetLive, Published;
  }

  lemma AvlStep(run: seq<Incoming>)
    requires run != []
    ensures var m, avl := run[|run| - 1], After(run[..|run| - 1]).avl;
            After(run).avl == if Committed(m) && KeyIn(m) !in avl then avl[KeyIn(m) := RowIn(m)] else avl
  {
    hide Handle, Committed, KeyIn, RowIn;
    HandleParts(After(run[..|run| - 1]), run[|run| - 1]);
  }

  /** The table holds exactly the keys committed, each with the row of its first commit. */
  lemma {:induction false} FirstCommitWins(run: seq<Incoming>, k: Key)
    ensures k in After(run).avl <==> exists i :: CommitsAt(run, i, k)
    ensures forall i :: FirstCommit(run, i, k) ==> k in After(run).avl && After(run).avl[k] == RowIn(run[i])
  {
    hide After;
    if run == [] {
      NothingHandled();
    } else {
      var n := |run| - 1;
      var before := run[..n];
      FirstCommitWins(before, k);
      AvlStep(run);
      forall i | i < n ensures CommitsAt(run, i, k) <==> CommitsAt(before, i, k) {
      }
      if exists i :: CommitsAt(before, i, k) {
        var i :| CommitsAt(before, i, k);
        assert CommitsAt(run, i, k);
      }
      if CommitsAt(run, n, k) { assert k in After(run).avl; }
      forall i | FirstCommit(run, i, k) ensures k in After(run).avl && After(run).avl[k] == RowIn(run[i]) {
        if i < n {
          assert FirstCommit(before, i, k);
        } else {
          assert forall j :: !CommitsAt(before, j, k);
        }
      }
    }
  }

  lemma NothingHandled()
    ensures After([]) == NOTHING
  {
  }

  /** No acknowledged record whose tenant was found is lost, then or later. */
  lemma AckedIsStored(run: seq<Incoming>, i: nat, tenant: string)
    requires i < |run| && Found(run[i], tenant) && VerdictOf(run, i) == Ack
    ensures (run[i].record.value.device, run[i].record.value.time) in After(run).avl
  {
    hide After, Step;
    var k := (run[i].record.value.device, run[i].record.value.time);
    FirstCommitWins(run, k);
    assert CommitsAt(run, i, k);
  }

  lemma UpTo(run: seq<Incoming>, i: nat)
    requires i < |run|
    ensures After(run[..i + 1]) == Handle(After(run[..i]), run[i]).0
  {
    hide Handle;
    assert run[..i + 1][..i] == run[..i];
  }

  /**
   An acknowledged record is not in the table exactly when its device is unknown or the lookup failed, unless it was there
   before.
   */
  lemma AckedIsAbsentExactly(run: seq<Incoming>, i: nat)
    requires i < |run| && run[i].record.Some? && VerdictOf(run, i) == Ack
    ensures var k := (run[i].record.value.device, run[i].record.value.time);
            k !in After(run[..i + 1]).avl <==>
              && (k.0 == "" || k.0 !in run[i].devices || run[i].lookup != Fine)
              && k !in After(run[..i]).avl
  {
    hide After, Step;
    UpTo(run, i);
  }

  /** So a record of a known device can be acknowledged and lost: whenever its lookup fails, and its key is not stored. */
  lemma LookupFailureLoses(db: Database, m: Incoming)
    requires Known(m) && !m.lookup.Fine?
    ensures Handle(db, m).1 == Ack && Handle(db, m).0.avl == db.avl
    ensures Handle(db, m).0.events == db.events && Handle(db, m).0.pushes == db.pushes && Handle(db, m).0.live == db.live
  {
    hide Step;
  }

  /** The deliveries that added a row: one per key. */
  function Once(run: seq<Incoming>): seq<Incoming> {
    if run == [] then []
    else
      var n := |run| - 1;
      Once(run[..n]) + if Committed(run[n]) && KeyIn(run[n]) !in After(run[..n]).avl then [run[n]] else []
  }

  /** Redeliveries, in any order and number, leave the table as if each record had been written once. */
  lemma {:induction false} AsIfOnce(run: seq<Incoming>)
    ensures After(Once(run)).avl == After(run).avl
    ensures forall i :: 0 <= i < |Once(run)| ==> Committed(Once(run)[i]) && KeyIn(Once(run)[i]) in After(run).avl
    ensures forall i, j :: 0 <= i < j < |Once(run)| ==> KeyIn(Once(run)[i]) != KeyIn(Once(run)[j])
  {
    hide After;
    if run == [] {
    } else {
      var n := |run| - 1;
      AsIfOnce(run[..n]);
      AvlStep(run);
      var before := Once(run[..n]);
      if Committed(run[n]) && KeyIn(run[n]) !in After(run[..n]).avl {
        AvlStep(before + [run[n]]);
        assert (before + [run[n]])[..|before|] == before;
      } else {
        assert before + [] == before;
      }
    }
  }

  /** Every commit of `a` has an equal one in `b`. */
  ghost predicate CommitsWithin(a: seq<Incoming>, b: seq<Incoming>) {
    forall i, k :: CommitsAt(a, i, k) ==> exists j :: CommitsAt(b, j, k)
  }

  /** Within and across the runs, a key always comes with the same record, at whatever time it was received. */
  ghost predicate SameRecords(a: seq<Incoming>, b: seq<Incoming>) {
    forall i, j, k :: CommitsAt(a, i, k) && CommitsAt(b, j, k) ==> RowIn(a[i]).fix == RowIn(b[j]).fix
  }

  lemma {:induction false} HasFirst(run: seq<Incoming>, i: nat, k: Key)
    requires CommitsAt(run, i, k)
    ensures exists j :: FirstCommit(run, j, k)
  {
    if forall j :: 0 <= j < i ==> !CommitsAt(run, j, k) {
      assert FirstCommit(run, i, k);
    } else {
      var j :| 0 <= j < i && CommitsAt(run, j, k);
      HasFirst(run, j, k);
    }
  }

  /** If equal keys mean equal records, the records stored depend on which keys were committed and on nothing else. */
  lemma OrderIrrelevant(a: seq<Incoming>, b: seq<Incoming>)
    requires CommitsWithin(a, b) && CommitsWithin(b, a) && SameRecords(a, b)
    ensures After(a).avl.Keys == After(b).avl.Keys
    ensures forall k | k in After(a).avl :: After(a).avl[k].fix == After(b).avl[k].fix
  {
    hide After;
    var x, y := After(a).avl, After(b).avl;
    forall k ensures (k in x <==> k in y) && (k in x ==> x[k].fix == y[k].fix) {
      FirstCommitWins(a, k);
      FirstCommitWins(b, k);
      if k in x {
        var i :| CommitsAt(a, i, k);
        var j :| CommitsAt(b, j, k);
        HasFirst(a, i, k);
        HasFirst(b, j, k);
        var i' :| FirstCommit(a, i', k);
        var j' :| FirstCommit(b, j', k);
        assert RowIn(a[i']).fix == RowIn(b[j']).fix;
      }
    }
  }

  // ----- what is announced -----

  /** Whatever has been announced is stored, and goes out under the key and on the channel of its own tenant. */
  ghost predicate AnnouncedIsStored(db: Database) {
    && (forall f | f in db.events :: (f.device, f.time) in db.avl)
    && (forall p | p in db.pushes ::
          (p.1.device, p.1.time) in db.avl && p.1.tenant != "" && p.0 == "pubsub:device:" + p.1.tenant)
    && (forall k | k in db.live ::
          var f := db.live[k]; (f.device, f.time) in db.avl && k == KeyDeviceLive(f.tenant, f.device))
  }

  lemma HandleKeepsStored(db: Database, m: Incoming)
    requires AnnouncedIsStored(db)
    ensures AnnouncedIsStored(Handle(db, m).0)
  {
    hide Step, KeyDeviceLive;
  }

  /** At every moment of every run a record that has been announced is in the table. */
  lemma {:induction false} PublishedIsStored(run: seq<Incoming>)
    ensures AnnouncedIsStored(After(run))
  {
    hide Handle, AnnouncedIsStored;
    if run == [] {
      NothingAnnounced();
    } else {
      PublishedIsStored(run[..|run| - 1]);
      HandleKeepsStored(After(run[..|run| - 1]), run[|run| - 1]);
    }
  }

  lemma NothingAnnounced()
    ensures AnnouncedIsStored(NOTHING)
  {
  }

  /** What is pushed is broadcast by the hub to the tenant of the device, and to no other. */
  lemma PushedToItsTenant(run: seq<Incoming>, p: (string, Fix), data: string)
    requires p in After(run).pushes
    ensures HubLoop.Routed(p.0, HubLoop.Payload(p.1.device, data)) == Some(Hub.Msg(p.1.tenant, p.1.device, data))
  {
    hide After;
    PublishedIsStored(run);
    HubLoop.RoutedToItsTenant(p.1.tenant, HubLoop.Payload(p.1.device, data));
  }

  /** The delivery brings this record, with the tenant found for its device, and its write succeeds. */
  predicate Announces(m: Incoming, f: Fix) {
    Found(m, f.tenant) && m.record.value.(tenant := f.tenant) == f && m.write == Fine
  }

  function EventsAt(run: seq<Incoming>, f: Fix): set<nat> {
    set i: nat | i < |run| && Announces(run[i], f) && run[i].event != FailedWithoutEffect
  }

  function PushesAt(run: seq<Incoming>, f: Fix): set<nat> {
    set i: nat | i < |run| && Announces(run[i], f) && run[i].push != FailedWithoutEffect
  }

  lemma AnnouncedSoFar(run: seq<Incoming>, f: Fix)
    requires run != []
    ensures var n := |run| - 1;
            && EventsAt(run, f) ==
               EventsAt(run[..n], f) + (if Announces(run[n], f) && run[n].event != FailedWithoutEffect then {n} else {})
            && PushesAt(run, f) ==
               PushesAt(run[..n], f) + (if Announces(run[n], f) && run[n].push != FailedWithoutEffect then {n} else {})
            && n !in EventsAt(run[..n], f) && n !in PushesAt(run[..n], f)
  {
    hide Announces;
  }

  lemma AnnouncesNow(db: Database, m: Incoming, f: Fix)
    ensures var db', push := Handle(db, m).0, ("pubsub:device:" + f.tenant, f);
            && multiset(db'.events)[f] ==
               multiset(db.events)[f] + (if Announces(m, f) && m.event != FailedWithoutEffect then 1 else 0)
            && multiset(db'.pushes)[push] ==
               multiset(db.pushes)[push] + (if Announces(m, f) && m.push != FailedWithoutEffect then 1 else 0)
  {
    hide Step, SetLive, InsertIfAbsent;
    FoundIs(m, f.tenant);
  }

  /**
   Over any run: a record is in the event stream, and on its channel, once for each of its deliveries that found its
   tenant, wrote it without error, and whose publication took effect, and not otherwise.
   */
  lemma {:induction false} AnnouncedExactly(run: seq<Incoming>, f: Fix)
    ensures multiset(After(run).events)[f] == |EventsAt(run, f)|
    ensures multiset(After(run).pushes)[("pubsub:device:" + f.tenant, f)] == |PushesAt(run, f)|
  {
    hide Handle, EventsAt, PushesAt, Announces;
    if run == [] {
      assert EventsAt(run, f) == {} && PushesAt(run, f) == {} by { NothingAt(run, f); }
    } else {
      var n := |run| - 1;
      AnnouncedExactly(run[..n], f);
      AnnouncedSoFar(run, f);
      AnnouncesNow(After(run[..n]), run[n], f);
    }
  }

  lemma NothingAt(run: seq<Incoming>, f: Fix)
    requires run == []
    ensures EventsAt(run, f) == {} && PushesAt(run, f) == {}
  {
  }

  // ----- the attempts at one message, one right after another -----

  function HandleAll(db: Database, ms: seq<Incoming>): Database {
    if ms == [] then db else Handle(HandleAll(db, ms[..|ms| - 1]), ms[|ms| - 1]).0
  }

  function VerdictAt(db: Database, ms: seq<Incoming>, i: nat): Verdict
    requires i < |ms|
  {
    Handle(HandleAll(db, ms[..i]), ms[i]).1
  }

  /** Deliveries of one message with a tenant found; all but the last are refused. */
  predicate Attempts(db: Database, ms: seq<Incoming>, f: Fix) {
    && ms != [] && f.tenant != ""
    && (forall i :: 0 <= i < |ms| ==> ms[i].record.Some? && Enriched(ms[i]) == f)
    && (forall i :: 0 <= i < |ms| - 1 ==> VerdictAt(db, ms, i) == Nak)
  }

  lemma FewerAttempts(db: Database, ms: seq<Incoming>, f: Fix)
    requires Attempts(db, ms, f) && |ms| > 1
    ensures Attempts(db, ms[..|ms| - 1], f) && VerdictAt(db, ms[..|ms| - 1], |ms| - 2) == Nak
  {
    hide Handle, HandleAll;
    var before := ms[..|ms| - 1];
    forall i | 0 <= i < |before| ensures VerdictAt(db, before, i) == Nak {
      assert before[..i] == ms[..i] && VerdictAt(db, ms, i) == Nak;
    }
  }

  /** The first attempt whose row the database took, though it may have reported an error. */
  predicate FirstTaken(ms: seq<Incoming>, i: int) {
    0 <= i < |ms| && TookEffect(ms[i].write) && forall j :: 0 <= j < i ==> !TookEffect(ms[j].write)
  }

  lemma LastAttempt(db: Database, ms: seq<Incoming>, f: Fix)
    requires Attempts(db, ms, f)
    ensures var before, m, db' := HandleAll(db, ms[..|ms| - 1]), ms[|ms| - 1], HandleAll(db, ms);
            && db'.trips == Step(before.trips, f, m.outcomes, m.tripId).0
            && db'.avl == InsertIfAbsent(before.avl, Row(f, m.receivedAt), m.write)
            && (VerdictAt(db, ms, |ms| - 1) == Ack ==>
                  && m.write.Fine?
                  && db'.live == SetLive(before.live, f, m.live) && db'.events == Published(before.events, f, m.event)
                  && db'.pushes == Published(before.pushes, (KeyPubSubDevice(f.tenant), f), m.push))
            && (VerdictAt(db, ms, |ms| - 1) == Nak ==>
                  db'.live == before.live && db'.events == before.events && db'.pushes == before.pushes)
  {
    hide Step;
  }

  /** However often a message is refused, it is announced once, when it is acknowledged; refused for good, never. */
  lemma {:induction false} AnnouncedOnce(db: Database, ms: seq<Incoming>, f: Fix)
    requires Attempts(db, ms, f)
    ensures var m, db' := ms[|ms| - 1], HandleAll(db, ms);
            if VerdictAt(db, ms, |ms| - 1) == Ack then
              && db'.live == SetLive(db.live, f, m.live) && db'.events == Published(db.events, f, m.event)
              && db'.pushes == Published(db.pushes, (KeyPubSubDevice(f.tenant), f), m.push)
            else db'.live == db.live && db'.events == db.events && db'.pushes == db.pushes
  {
    hide HandleAll, Handle, SetLive, Published, VerdictAt, Attempts;
    LastAttempt(db, ms, f);
    if |ms| > 1 {
      FewerAttempts(db, ms, f);
      AnnouncedOnce(db, ms[..|ms| - 1], f);
    } else {
      OneAttempt(db, ms, f);
    }
  }

  lemma OneAttempt(db: Database, ms: seq<Incoming>, f: Fix)
    requires Attempts(db, ms, f) && |ms| <= 1
    ensures |ms| == 1 && HandleAll(db, ms[..|ms| - 1]) == db
  {
  }

  /**
   Its row is stored once, by the first attempt that the database took, unless the key was there before; so an
   acknowledged message is stored, and a message refused for good is stored only by an error that came after the effect.
   */
  lemma {:induction false} StoredOnce(db: Database, ms: seq<Incoming>, f: Fix)
    requires Attempts(db, ms, f)
    ensures KeyOf(f) in db.avl || (forall i :: 0 <= i < |ms| ==> !TookEffect(ms[i].write)) ==>
              HandleAll(db, ms).avl == db.avl
    ensures forall i :: FirstTaken(ms, i) && KeyOf(f) !in db.avl ==>
              HandleAll(db, ms).avl == db.avl[KeyOf(f) := Row(f, ms[i].receivedAt)]
    ensures VerdictAt(db, ms, |ms| - 1) == Ack ==> KeyOf(f) in HandleAll(db, ms).avl
  {
    hide HandleAll, Handle, VerdictAt, Attempts;
    LastAttempt(db, ms, f);
    var n := |ms| - 1;
    if n > 0 {
      FewerAttempts(db, ms, f);
      StoredOnce(db, ms[..n], f);
      forall i | FirstTaken(ms, i) && i < n ensures FirstTaken(ms[..n], i) {
      }
    } else {
      OneAttempt(db, ms, f);
    }
  }

  /** And if the operations of the trip machine succeed, the trips are as after one attempt. */
  lemma {:induction false} DrivenOnce(db: Database, ms: seq<Incoming>, f: Fix)
    requires Attempts(db, ms, f) && forall i :: 0 <= i < |ms| ==> ms[i].outcomes == ALL_FINE
    ensures HandleAll(db, ms).trips == Step(db.trips, f, ALL_FINE, ms[0].tripId).0
  {
    hide HandleAll, Handle, Step, VerdictAt, Attempts;
    LastAttempt(db, ms, f);
    var n := |ms| - 1;
    if n > 0 {
      FewerAttempts(db, ms, f);
      DrivenOnce(db, ms[..n], f);
      TripCut.Replayed(db.trips, f, ms[0].tripId, ms[n].tripId);
    } else {
      OneAttempt(db, ms, f);
    }
  }

  /** A message redelivered at once, with its operations succeeding, leaves trips and records as they are. */
  lemma RedeliveredAtOnce(db: Database, m: Incoming, again: Incoming)
    requires m.outcomes == ALL_FINE && TookEffect(m.write)
    requires again.record == m.record && TenantOf(again) == TenantOf(m) && again.outcomes == ALL_FINE
    ensures var db' := Handle(db, m).0;
            Handle(db', again).0.trips == db'.trips && Handle(db', again).0.avl == db'.avl
  {
    hide Step;
    if m.record.Some? { TripCut.Replayed(db.trips, Enriched(m), m.tripId, again.tripId); }
  }

  // ----- trips as the processor drives them -----

  /** The run the trip machine sees. */
  function TripRun(run: seq<Incoming>): seq<Delivery> {
    if run == [] then []
    else
      var m := run[|run| - 1];
      TripRun(run[..|run| - 1]) + if m.record.Some? then [Delivery(Enriched(m), m.outcomes, m.tripId)] else []
  }

  /** The trip machine gets every record that parses, with the tenant found for its device or with none. */
  lemma TripRunIs(run: seq<Incoming>, m: Incoming, tenant: string)
    requires if tenant == "" then forall t :: !Found(m, t) else Found(m, tenant)
    ensures TripRun(run + [m]) ==
            TripRun(run) + match m.record
                           case None => []
                           case Some(f) => [Delivery(f.(tenant := tenant), m.outcomes, m.tripId)]
  {
    assert (run + [m])[..|run|] == run;
    FoundIs(m, tenant);
  }

  lemma {:induction false} TripsOfRun(run: seq<Incoming>)
    ensures After(run).trips == Trips.After(TripRun(run))
  {
    hide Step;
    if run != [] {
      TripsOfRun(run[..|run| - 1]);
      var m, before := run[|run| - 1], TripRun(run[..|run| - 1]);
      if m.record.Some? {
        TripCut.AfterOneMore(before, Delivery(Enriched(m), m.outcomes, m.tripId));
      } else {
        assert TripRun(run) == before;
      }
    }
  }

  /** Device ids in the table are UUIDs, which have no colon. */
  predicate UuidTable(m: Incoming) { forall d :: d in m.devices ==> ':' !in d }

  predicate UuidTables(run: seq<Incoming>) { forall i :: 0 <= i < |run| ==> UuidTable(run[i]) }

  lemma NothingInserted(s: Store, x: Delivery, device: string)
    requires x.fix.device == device ==> x.fix.tenant == ""
    requires OpenCount(s.trips, device) == 0 && Unique(s.trips)
    ensures OpenCount(Step(s, x.fix, x.outcomes, x.id).0.trips, device) == 0
  {
    hide OpenCount, IsOpen, Ended, StateKey, TripIdKey;
    OpenAppend(s.trips, NewRow(x.fix, x.id), device);
    OpenAfterEnd(s.trips, TripIdSeen(s, x.fix.device, x.outcomes.getTripId), PointOf(x.fix), device);
  }

  lemma {:induction false} NoTripsWithoutTenant(run: seq<Delivery>, device: string)
    requires Trips.IsRun(run) && forall i :: 0 <= i < |run| && run[i].fix.device == device ==> run[i].fix.tenant == ""
    ensures OpenCount(Trips.After(run).trips, device) == 0
  {
    hide Step, OpenCount, Unique;
    if run == [] {
      TripCut.NoneAtFirst(device);
    } else {
      var n := |run| - 1;
      NoTripsWithoutTenant(run[..n], device);
      IdsUnique(run[..n]);
      NothingInserted(Trips.After(run[..n]), run[n], device);
    }
  }

  /** A device id that is no UUID is not in the table, so no tenant is found for it. */
  lemma {:induction false} NoTenantForOthers(run: seq<Incoming>, device: string)
    requires UuidTables(run) && ':' in device
    ensures forall i :: 0 <= i < |TripRun(run)| && TripRun(run)[i].fix.device == device ==> TripRun(run)[i].fix.tenant == ""
  {
    if run != [] {
      NoTenantForOthers(run[..|run| - 1], device);
      assert UuidTable(run[|run| - 1]);
    }
  }

  /** In the pipeline the bound on open trips holds of every device, whatever the ids. */
  lemma OpenTripsBoundInPipeline(run: seq<Incoming>, device: string)
    requires Trips.IsRun(TripRun(run)) && UuidTables(run)
    ensures OpenCount(After(run).trips.trips, device) <= 1 + Failures(TripRun(run), device)
  {
    hide After, TripRun, Trips.After, Trips.IsRun, Disturbs, OpenCount;
    TripsOfRun(run);
    if ':' in device {
      NoTenantForOthers(run, device);
      NoTripsWithoutTenant(TripRun(run), device);
    } else {
      forall d ensures !Disturbs(d, device) { UuidsAreUndisturbed(d, device); }
      OpenTripsBound(TripRun(run), device);
    }
  }

  /**
   A record that was refused and comes again later, its operations succeeding, changes trips or records exactly when its
   speed makes the trip machine act on the trip now under way, or its key is not stored yet.
   */
  lemma LateRedeliveryActsExactly(run: seq<Incoming>, m: Incoming)
    requires m.record.Some? && TenantOf(m) != "" && m.outcomes == ALL_FINE && TookEffect(m.write)
    requires var f := Enriched(m);
             Trips.IsRun(TripRun(run)) && TripCut.Smooth(TripRun(run), f.device) && Undisturbed(TripRun(run), f.device)
    ensures var f, db, db' := Enriched(m), After(run), Handle(After(run), m).0;
            db'.trips != db.trips || db'.avl != db.avl <==>
              || KeyOf(f) !in db.avl
              || if TripCut.Underway(TripCut.Cut(TripCut.Own(TripRun(run), f.device), 0)) then f.speed < 2 else f.speed > 5
  {
    hide After, TripRun, Trips.After, Trips.IsRun, TripCut.Cut, TripCut.Own, Step;
    TripsOfRun(run);
    TripCut.LateRecordActsExactly(TripRun(run), Enriched(m), m.tripId);
  }

  /** The delivery sets the live snapshot of this device of this tenant. */
  predicate SetsLive(m: Incoming, tenant: string, device: string) {
    Found(m, tenant) && m.record.value.device == device && m.write == Fine && m.live != FailedWithoutEffect
  }

  predicate LastLive(run: seq<Incoming>, i: int, tenant: string, device: string) {
    0 <= i < |run| && SetsLive(run[i], tenant, device) && forall j :: i < j < |run| ==> !SetsLive(run[j], tenant, device)
  }

  lemma LiveStep(db: Database, m: Incoming, tenant: string, device: string)
    requires ':' !in tenant
    ensures var live, key := Handle(db, m).0.live, KeyDeviceLive(tenant, device);
            if SetsLive(m, tenant, device) then key in live && live[key] == m.record.value.(tenant := tenant)
            else (key in live <==> key in db.live) && (key in live ==> live[key] == db.live[key])
  {
    hide Step, KeyDeviceLive;
    FoundIs(m, tenant);
    if m.record.Some? && TenantOf(m) != "" {
      FoundIs(m, TenantOf(m));
      LiveKeysDiffer(tenant, device, TenantOf(m), m.record.value.device);
    }
  }

  /**
   The live snapshot of a device of a tenant is its record last acknowledged, which need not be the newest; no other
   device and no other tenant touches it.
   */
  lemma {:induction false} LiveIsLastAcknowledged(run: seq<Incoming>, tenant: string, device: string)
    requires ':' !in tenant
    ensures var live, key := After(run).live, "device:live:" + tenant + ":" + device;
            && (key in live <==> exists i :: LastLive(run, i, tenant, device))
            && forall i :: LastLive(run, i, tenant, device) ==>
                 key in live && live[key] == run[i].record.value.(tenant := tenant)
  {
    hide Handle, SetsLive, KeyDeviceLive;
    assert "device:live:" + tenant + ":" + device == KeyDeviceLive(tenant, device) by { LiveKey(tenant, device); }
    if run != [] {
      var n := |run| - 1;
      LiveIsLastAcknowledged(run[..n], tenant, device);
      LiveStep(After(run[..n]), run[n], tenant, device);
      if SetsLive(run[n], tenant, device) {
        assert LastLive(run, n, tenant, device);
      } else {
        forall i ensures LastLive(run[..n], i, tenant, device) <==> LastLive(run, i, tenant, device) {
          SameLast(run, i, tenant, device);
        }
      }
    }
  }

  lemma LiveKey(tenant: string, device: string)
    ensures KeyDeviceLive(tenant, device) == "device:live:" + tenant + ":" + device
  {
  }

  lemma SameLast(run: seq<Incoming>, i: int, tenant: string, device: string)
    requires run != [] && !SetsLive(run[|run| - 1], tenant, device)
    ensures LastLive(run[..|run| - 1], i, tenant, device) <==> LastLive(run, i, tenant, device)
  {
    hide SetsLive;
    var n := |run| - 1;
    if LastLive(run[..n], i, tenant, device) {
      forall j | i < j < |run| ensures !SetsLive(run[j], tenant, device) {
        if j < n { assert run[..n][j] == run[j]; }
      }
    }
    if LastLive(run, i, tenant, device) {
      forall j | i < j < n ensures !SetsLive(run[..n][j], tenant, device) {
        assert run[..n][j] == run[j];
      }
    }
  }

  lemma AfterOneMore(run: seq<Incoming>, m: Incoming)
    ensures After(run + [m]) == Handle(After(run), m).0
  {
    hide Handle;
    assert (run + [m])[..|run|] == run;
  }

  /** A record of speed 0 is refused, a faster and later one opens a trip, and the first is delivered again. */
  const SLOW := Incoming(
    Some(Fix("d", "", 10, 0, 0, 0)), map["d" := "t"], Fine, 11, ALL_FINE, "1", FailedWithoutEffect, Fine, Fine, Fine)
  const FAST := Incoming(
    Some(Fix("d", "", 20, 0, 0, 9)), map["d" := "t"], Fine, 21, ALL_FINE, "2", Fine, Fine, Fine, Fine)
  const SLOW_AGAIN := SLOW.(receivedAt := 31, tripId := "3", write := Fine)

  lemma StepsOfLate()
    ensures var s1 := Step(EMPTY, Enriched(SLOW), ALL_FINE, "1").0;
            var s2 := Step(s1, Enriched(FAST), ALL_FINE, "2").0;
            s1 == EMPTY && Step(s2, Enriched(SLOW_AGAIN), ALL_FINE, "3").0.trips ==
                           [NewRow(Enriched(FAST), "2").(end := Some(Point(10, 0, 0)))]
  {
    hide StateKey, TripIdKey, Ended, Opened, Closed;
    KeysCollide("d", "d");
    var x, y := Delivery(Enriched(FAST), ALL_FINE, "2"), Delivery(Enriched(SLOW_AGAIN), ALL_FINE, "3");
    TripCut.Opening(EMPTY, x);
    TripCut.Ending(Step(EMPTY, x.fix, ALL_FINE, "2").0, y);
  }

  /** So a trip ends before it starts, and the live position is older than one stored before, though all is well. */
  lemma LateRedelivery()
    ensures var run := [] + [SLOW] + [FAST] + [SLOW_AGAIN];
            var db := After(run);
            && VerdictAt(NOTHING, run, 0) == Nak && VerdictAt(NOTHING, run, 1) == Ack && VerdictAt(NOTHING, run, 2) == Ack
            && TripCut.Backwards(TripCut.Rows(db.trips.trips, "d"))
            && ("d", 20) in db.avl && "device:live:t:d" in db.live && db.live["device:live:t:d"].time == 10
  {
    hide Step, KeyDeviceLive, Handle, TripCut.Rows, After, HandleAll;
    var run := [] + [SLOW] + [FAST] + [SLOW_AGAIN];
    StepsOfLate();
    AfterOneMore([], SLOW);
    AfterOneMore([] + [SLOW], FAST);
    AfterOneMore([] + [SLOW] + [FAST], SLOW_AGAIN);
    HandleParts(After([]), SLOW);
    HandleParts(After([] + [SLOW]), FAST);
    HandleParts(After([] + [SLOW] + [FAST]), SLOW_AGAIN);
    HandleParts(HandleAll(NOTHING, run[..0]), SLOW);
    HandleParts(HandleAll(NOTHING, run[..1]), FAST);
    HandleParts(HandleAll(NOTHING, run[..2]), SLOW_AGAIN);
    assert After([]).trips == EMPTY by { NothingHandled(); }
    LiveIsLastAcknowledged(run, "t", "d");
    assert LastLive(run, 2, "t", "d");
    assert "device:live:t:d" == "device:live:" + "t" + ":" + "d";
    FirstCommitWins(run, ("d", 20));
    assert CommitsAt(run, 1, ("d", 20));
    BackwardsRow(NewRow(Enriched(FAST), "2").(end := Some(Point(10, 0, 0))));
  }

  lemma BackwardsRow(row: Trip)
    requires row.device == "d" && !TripCut.EndsForward(row)
    ensures TripCut.Backwards(TripCut.Rows([row], "d"))
  {
    hide TripCut.Rows;
    TripCut.RowsAppend([], row, "d");
    TripCut.NoneAtFirst("d");
    assert [] + [row] == [row];
    assert TripCut.Rows([row], "d") == [row];
    assert !TripCut.EndsForward([row][0]);
  }

  /**
   A message that comes again before any other record of its device leaves the trips as they are, whatever messages of other
   devices came between.
   */
  lemma DrivenOnceAmongOthers(run: seq<Incoming>, m: Incoming)
    requires m.record.Some? && m.outcomes == ALL_FINE
    requires var f := Enriched(m);
             && Trips.IsRun(TripRun(run)) && TripCut.Smooth(TripRun(run), f.device) && Undisturbed(TripRun(run), f.device)
             && var own := TripCut.Own(TripRun(run), f.device); own != [] && own[|own| - 1] == f
    ensures Handle(After(run), m).0.trips == After(run).trips
  {
    hide After, TripRun, Trips.After, Trips.IsRun, TripCut.Own, Step, TripCut.Smooth, Undisturbed;
    TripsOfRun(run);
    TripCut.RepeatDoesNothing(TripRun(run), Enriched(m), m.tripId);
  }
}
