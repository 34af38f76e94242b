/**
 The trip machine in several processes at once. The operations of a call are separate steps, any number of calls may be
 under way, of one device or of many, and any operation may fail; Trips takes a call as one step.
 */
module TripOverlap {
  import opened Options
  import opened Trips
  import TripCut

  type CallId = nat

  /** The operation a call makes next, with the trip id it has in hand. */
  datatype Pc =
    | Reading | Inserting | Activating(id: string) | Linking(id: string)
    | Fetching | Updating(id: string) | Idling | Unlinking

  datatype Call = Call(fix: Fix, pc: Pc)

  /** A call arrives with a record; or it makes its next operation. `id` is what the database draws for an insert. */
  datatype Event = Begin(call: CallId, fix: Fix) | Operate(call: CallId, op: Op, id: string)

  /**
   History of one device's busy period, the time in which at least one of its calls is under way: what its trip-id key
   held at the beginning if the device was in a trip, failures and overlaps by then, calls begun since, those that decided to
   open or to close a trip, operations failed, and whether a state was set back to IDLE or a trip id was set.
   */
  datatype Period = Period(
    held: Option<string>, base: nat, begun: nat, openers: nat, closers: nat, failed: nat, idled: bool, linked: bool)

  /**
   The store and the calls under way. For one device: the operations that failed on its records, and the calls that began
   while another one of it was under way.
   */
  datatype World = World(store: Store, calls: map<CallId, Call>, failures: nat, overlaps: nat, period: Period)

  const START := World(EMPTY, map[], 0, 0, Period(None, 0, 0, 0, 0, 0, false, false))

  // ----- steps -----

  /** How an operation of a call turns out: two of them pass a string to a UUID column. */
  function Outcome(c: Call, op: Op): Op {
    match c.pc
    case Inserting => Accepted(c.fix.tenant, op)
    case Updating(row) => Accepted(row, op)
    case _ => op
  }

  /** The effect of a call's next operation, and what the call does after it, if anything. */
  function Perform(s: Store, c: Call, attempt: Op, id: string): (Store, Option<Pc>) {
    var f, op := c.fix, Outcome(c, attempt);
    match c.pc
    case Reading =>
      var state := StateSeen(s, f.device, op);
      (s, if state == "IDLE" && f.speed > 5 then Some(Inserting)
          else if state == "ACTIVE" && f.speed < 2 then Some(Fetching)
          else None)
    case Inserting => (Insert(s, NewRow(f, id), op), if op.Fine? then Some(Activating(id)) else None)
    case Activating(row) => (Put(s, StateKey(f.device), "ACTIVE", op), Some(Linking(row)))
    case Linking(row) => (Put(s, TripIdKey(f.device), row, op), None)
    case Fetching =>
      var row := TripIdSeen(s, f.device, op);
      (s, Some(if row != "" then Updating(row) else Idling))
    case Updating(row) => (Update(s, row, PointOf(f), op), Some(Idling))
    case Idling => (Put(s, StateKey(f.device), "IDLE", op), Some(Unlinking))
    case Unlinking => (Delete(s, TripIdKey(f.device), op), None)
  }

  /** The database draws ids that are real and not in the table. */
  predicate Enabled(w: World, e: Event) {
    match e
    case Begin(c, _) => c !in w.calls
    case Operate(c, _, id) =>
      c in w.calls && (w.calls[c].pc.Inserting? ==> RealId(id) && !HasId(w.store.trips, id))
  }

  function Active(w: World, device: string): set<CallId> {
    set c | c in w.calls && w.calls[c].fix.device == device
  }

  predicate StateIs(s: Store, device: string, state: string) {
    StateKey(device) in s.redis && s.redis[StateKey(device)] == state
  }

  predicate LinkIs(s: Store, device: string, row: string) {
    TripIdKey(device) in s.redis && s.redis[TripIdKey(device)] == row
  }

  /** The trip id has been overwritten with a state, by the device whose state key that is. */
  predicate Garbled(s: Store, device: string) { LinkIs(s, device, "IDLE") || LinkIs(s, device, "ACTIVE") }

  /** The next slow record ends the row that the keys hold, or fails to, for its UPDATE is refused. */
  predicate Keeps(s: Store, device: string) {
    KeysHoldOpen(s, device) || (StateIs(s, device, "ACTIVE") && Garbled(s, device))
  }

  function Held(s: Store, device: string): Option<string> {
    if Keeps(s, device) && TripIdKey(device) in s.redis then Some(s.redis[TripIdKey(device)]) else None
  }

  /** The history after an operation of the device. */
  function Noted(p: Period, pc: Pc, op: Op, next: Option<Pc>): Period {
    p.(openers := p.openers + (if pc.Reading? && next == Some(Inserting) then 1 else 0),
       closers := p.closers + (if pc.Reading? && next == Some(Fetching) then 1 else 0),
       failed := p.failed + Cost(op), idled := p.idled || pc.Idling?, linked := p.linked || pc.Linking?)
  }

  function Begun(w: World, c: CallId, f: Fix, device: string): World {
    var calls := w.calls[c := Call(f, Reading)];
    if f.device != device then w.(calls := calls)
    else if Active(w, device) == {} then
      w.(calls := calls,
         period := Period(Held(w.store, device), w.failures + w.overlaps, 1, 0, 0, 0, false, false))
    else w.(calls := calls, overlaps := w.overlaps + 1, period := w.period.(begun := w.period.begun + 1))
  }

  function Operated(w: World, c: CallId, op: Op, id: string, device: string): World
    requires c in w.calls
  {
    var call := w.calls[c];
    var (s, next) := Perform(w.store, call, op, id);
    var w' := w.(store := s, calls := if next.Some? then w.calls[c := call.(pc := next.value)] else w.calls - {c});
    if call.fix.device != device then w'
    else
      var result := Outcome(call, op);
      w'.(failures := w.failures + Cost(result), period := Noted(w.period, call.pc, result, next))
  }

  function Next(w: World, e: Event, device: string): World
    requires Enabled(w, e)
  {
    match e
    case Begin(c, f) => Begun(w, c, f, device)
    case Operate(c, op, id) => Operated(w, c, op, id, device)
  }

  function After(es: seq<Event>, device: string): Option<World> {
    if es == [] then Some(START)
    else
      var before, e := After(es[..|es| - 1], device), es[|es| - 1];
      if before.Some? && Enabled(before.value, e) then Some(Next(before.value, e, device)) else None
  }

  predicate IsRun(es: seq<Event>, device: string) { After(es, device).Some? }

  function At(es: seq<Event>, device: string): World
    requires IsRun(es, device)
  {
    After(es, device).value
  }

  /** No call of the run disturbs the device. */
  predicate Undisturbed(es: seq<Event>, device: string) {
    forall i :: 0 <= i < |es| && es[i].Begin? ==> !Disturbs(es[i].fix.device, device)
  }

  // ----- a call alone is a step of the sequential machine -----

  function Rank(pc: Pc): nat {
    match pc
    case Reading => 5
    case Inserting => 3
    case Activating(_) => 2
    case Linking(_) => 1
    case Fetching => 4
    case Updating(_) => 3
    case Idling => 2
    case Unlinking => 1
  }

  function OutcomeOf(pc: Pc, o: Outcomes): Op {
    match pc
    case Reading => o.getState
    case Inserting => o.insert
    case Activating(_) => o.setActive
    case Linking(_) => o.setTripId
    case Fetching => o.getTripId
    case Updating(_) => o.update
    case Idling => o.setIdle
    case Unlinking => o.delTripId
  }

  /** The store and the number of failures once a call has made its operations without interruption. */
  function Uninterrupted(s: Store, c: Call, o: Outcomes, id: string): (Store, nat)
    decreases Rank(c.pc)
  {
    var op := OutcomeOf(c.pc, o);
    var (s', next) := Perform(s, c, op, id);
    if next.None? then (s', Cost(Outcome(c, op)))
    else
      var (t, n) := Uninterrupted(s', c.(pc := next.value), o, id);
      (t, Cost(Outcome(c, op)) + n)
  }

  lemma AloneOpens(s: Store, f: Fix, o: Outcomes, id: string)
    ensures Uninterrupted(s, Call(f, Inserting), o, id) == Opened(s, f, o, id)
  {
    hide StateKey, TripIdKey;
    var s1 := Insert(s, NewRow(f, id), Accepted(f.tenant, o.insert));
    var s2 := Put(s1, StateKey(f.device), "ACTIVE", o.setActive);
    assert Uninterrupted(s2, Call(f, Linking(id)), o, id) == (Put(s2, TripIdKey(f.device), id, o.setTripId), Cost(o.setTripId));
  }

  lemma AloneCloses(s: Store, f: Fix, o: Outcomes, id: string)
    ensures Uninterrupted(s, Call(f, Fetching), o, id) == Closed(s, f, o)
  {
    hide StateKey, TripIdKey, Ended;
    var row := TripIdSeen(s, f.device, o.getTripId);
    var s1 := if row != "" then Update(s, row, PointOf(f), Accepted(row, o.update)) else s;
    var s2 := Put(s1, StateKey(f.device), "IDLE", o.setIdle);
    assert Uninterrupted(s2, Call(f, Unlinking), o, id) == (Delete(s2, TripIdKey(f.device), o.delTripId), Cost(o.delTripId));
    assert Uninterrupted(s1, Call(f, Idling), o, id) ==
           (Delete(s2, TripIdKey(f.device), o.delTripId), Cost(o.setIdle) + Cost(o.delTripId));
  }

  /** A call that nothing interrupts does exactly what the sequential machine does in one step. */
  lemma AloneIsStep(s: Store, f: Fix, o: Outcomes, id: string)
    ensures Uninterrupted(s, Call(f, Reading), o, id) == Step(s, f, o, id)
  {
    hide StateKey, TripIdKey, Opened, Closed;
    AloneOpens(s, f, o, id);
    AloneCloses(s, f, o, id);
  }

  // ----- what holds of all calls -----

  /** A row a call has in hand is a row of its device. */
  ghost predicate CallSound(s: Store, c: Call) {
    match c.pc
    case Activating(row) => RowIn(s, row, c.fix.device)
    case Linking(row) => RowIn(s, row, c.fix.device)
    case Updating(row) => RealId(row) ==> RowIn(s, row, c.fix.device)
    case _ => true
  }

  predicate RowIn(s: Store, row: string, device: string) { TripCut.RowOf(s.trips, row, device) }

  ghost predicate Sound(w: World) {
    && Unique(w.store.trips) && RealIds(w.store.trips)
    && (forall device :: TripCut.Owned(w.store, device))
    && (forall c | c in w.calls :: CallSound(w.store, w.calls[c]))
  }

  /** The rows after an operation: the same, one more, or one ended. */
  lemma RowsOfPerform(s: Store, c: Call, op: Op, id: string)
    ensures var ts := Perform(s, c, op, id).0.trips;
            || ts == s.trips
            || (c.pc.Inserting? && ts == s.trips + [NewRow(c.fix, id)])
            || (c.pc.Updating? && ts == Ended(s.trips, c.pc.id, PointOf(c.fix)))
  {
    hide StateKey, TripIdKey, Ended, NewRow;
  }

  lemma RowsStay(s: Store, c: Call, op: Op, id: string, row: string, device: string)
    requires RowIn(s, row, device)
    ensures RowIn(Perform(s, c, op, id).0, row, device)
  {
    hide Perform;
    RowsOfPerform(s, c, op, id);
    var i :| 0 <= i < |s.trips| && s.trips[i].id == row && s.trips[i].device == device;
    assert Perform(s, c, op, id).0.trips[i].id == row && Perform(s, c, op, id).0.trips[i].device == device;
  }

  lemma IdsStay(s: Store, c: Call, op: Op, id: string)
    requires Unique(s.trips) && RealIds(s.trips)
    requires c.pc.Inserting? ==> RealId(id) && !HasId(s.trips, id)
    ensures Unique(Perform(s, c, op, id).0.trips) && RealIds(Perform(s, c, op, id).0.trips)
  {
    hide Perform, RealId;
    RowsOfPerform(s, c, op, id);
  }

  /** A trip-id key holds what it held, a string that is no id, or the row that a call of its device had in hand. */
  lemma KeyOfPerform(s: Store, c: Call, op: Op, id: string, device: string)
    ensures var s', k := Perform(s, c, op, id).0, TripIdKey(device);
            k in s'.redis && RealId(s'.redis[k]) ==>
              || (k in s.redis && s'.redis[k] == s.redis[k])
              || (c.pc.Linking? && c.fix.device == device && s'.redis[k] == c.pc.id)
  {
    hide StateKey, TripIdKey, Ended;
    KeysCollide(c.fix.device, device);
  }

  lemma OwnedStays(s: Store, c: Call, op: Op, id: string, device: string)
    requires TripCut.Owned(s, device) && CallSound(s, c)
    ensures TripCut.Owned(Perform(s, c, op, id).0, device)
  {
    hide Perform, TripIdKey, RealId, TripCut.RowOf;
    KeyOfPerform(s, c, op, id, device);
    var k := TripIdKey(device);
    if k in s.redis && RealId(s.redis[k]) { RowsStay(s, c, op, id, s.redis[k], device); }
    if c.pc.Linking? { RowsStay(s, c, op, id, c.pc.id, c.fix.device); }
  }

  lemma CallStaysSound(s: Store, c: Call, op: Op, id: string, other: Call)
    requires CallSound(s, other)
    ensures CallSound(Perform(s, c, op, id).0, other)
  {
    hide Perform, RowIn, RealId;
    match other.pc
    case Activating(row) => RowsStay(s, c, op, id, row, other.fix.device);
    case Linking(row) => RowsStay(s, c, op, id, row, other.fix.device);
    case Updating(row) => if RealId(row) { RowsStay(s, c, op, id, row, other.fix.device); }
    case _ =>
  }

  lemma OwnNextSound(s: Store, c: Call, op: Op, id: string)
    requires CallSound(s, c) && TripCut.Owned(s, c.fix.device)
    ensures var (s', next) := Perform(s, c, op, id); next.Some? ==> CallSound(s', c.(pc := next.value))
  {
    hide StateKey, TripIdKey, Ended, TripCut.RowOf;
    if c.pc.Inserting? { TripCut.NewIsRowOf(s.trips, c.fix, id); }
  }

  lemma SoundKept(w: World, e: Event, device: string)
    requires Sound(w) && Enabled(w, e)
    ensures Sound(Next(w, e, device))
  {
    hide Perform, CallSound, TripCut.Owned, Unique, RealIds;
    match e
    case Begin(c, f) => assert CallSound(w.store, Call(f, Reading)) by { NewCallSound(w.store, f); }
    case Operate(c, op, id) =>
      var call := w.calls[c];
      IdsStay(w.store, call, op, id);
      forall d ensures TripCut.Owned(Perform(w.store, call, op, id).0, d) { OwnedStays(w.store, call, op, id, d); }
      forall o | o in w.calls ensures CallSound(Perform(w.store, call, op, id).0, w.calls[o]) {
        CallStaysSound(w.store, call, op, id, w.calls[o]);
      }
      OwnNextSound(w.store, call, op, id);
  }

  lemma NewCallSound(s: Store, f: Fix)
    ensures CallSound(s, Call(f, Reading))
  {
  }

  // ----- the invariant for one device -----

  function OpenRows(w: World, device: string): nat { OpenCount(w.store.trips, device) }

  function KeepsOne(s: Store, device: string): nat { if Keeps(s, device) then 1 else 0 }

  /** No call of the device is under way: its open rows are paid for, except one that the keys account for. */
  ghost predicate Quiet(w: World, device: string) {
    OpenRows(w, device) <= w.failures + w.overlaps + KeepsOne(w.store, device)
  }

  function Unread(w: World, device: string): set<CallId> { set c | c in Active(w, device) && w.calls[c].pc.Reading? }

  function Pending(w: World, device: string): set<CallId> { set c | c in Active(w, device) && w.calls[c].pc.Inserting? }

  predicate Opens(pc: Pc) { pc.Inserting? || pc.Activating? || pc.Linking? }

  function Opening(w: World, device: string): set<CallId> { set c | c in Active(w, device) && Opens(w.calls[c].pc) }

  /** The row held at the beginning of the busy period has been ended. */
  predicate HeldClosed(w: World, device: string) {
    w.period.held.Some? && RealId(w.period.held.value) && !IsOpen(w.store.trips, w.period.held.value, device)
  }

  /** Rows and calls add up. */
  ghost predicate Counted(w: World, device: string) {
    var p := w.period;
    && OpenRows(w, device) + |Pending(w, device)| + (if HeldClosed(w, device) then 1 else 0)
       <= p.base + p.openers + (if p.held.Some? then 1 else 0)
    && p.openers + p.closers + |Unread(w, device)| <= p.begun
    && w.failures + w.overlaps + 1 == p.base + p.failed + p.begun
    && p.begun >= 1
  }

  /** What a call may be doing before any has set the state back, if the keys held a row at the beginning. */
  predicate HoldingCall(w: World, pc: Pc, device: string) {
    && (!pc.Reading? ==> w.period.closers >= 1)
    && match pc
       case Reading => true
       case Fetching => true
       case Updating(row) => Some(row) == w.period.held || !RealId(row)
       case Idling => HeldClosed(w, device) || w.period.failed >= 1
       case _ => false
  }

  predicate HeldInTable(w: World, device: string) {
    w.period.held.Some? && RealId(w.period.held.value) ==> RowIn(w.store, w.period.held.value, device)
  }

  predicate StillLinked(s: Store, device: string, held: string) { LinkIs(s, device, held) || Garbled(s, device) }

  /** The device was in a trip at the beginning: until some call has closed it, or failed to, nothing is opened. */
  ghost predicate Holding(w: World, device: string) {
    var p := w.period;
    p.held.Some? ==>
      && p.held.value != "" && HeldInTable(w, device)
      && (if p.idled then p.closers >= 1 && (HeldClosed(w, device) || p.failed >= 1)
          else
            && p.openers == 0 && StateIs(w.store, device, "ACTIVE") && StillLinked(w.store, device, p.held.value)
            && forall c | c in Active(w, device) :: HoldingCall(w, w.calls[c].pc, device))
  }

  predicate OpeningCall(s: Store, pc: Pc, device: string) {
    match pc
    case Reading => true
    case Inserting => true
    case Activating(row) => IsOpen(s.trips, row, device)
    case Linking(row) => IsOpen(s.trips, row, device) && StateIs(s, device, "ACTIVE")
    case _ => false
  }

  /** The device was in no trip: as long as no call closes and nothing fails, the last to open leaves the keys in one. */
  ghost predicate Free(w: World, device: string) {
    var p := w.period;
    p.held.None? && p.closers == 0 && p.failed == 0 ==>
      && (forall c | c in Active(w, device) :: OpeningCall(w.store, w.calls[c].pc, device))
      && (p.linked ==> Keeps(w.store, device))
      && (p.linked || p.openers <= |Opening(w, device)|)
  }

  ghost predicate Busy(w: World, device: string) { Counted(w, device) && Holding(w, device) && Free(w, device) }

  ghost predicate Invariant(w: World, device: string) {
    Sound(w) && if Active(w, device) == {} then Quiet(w, device) else Busy(w, device)
  }

  // ----- what it says -----

  lemma BusyBound(w: World, device: string)
    requires Busy(w, device)
    ensures OpenRows(w, device) <= 1 + w.failures + w.overlaps
  {
    hide HeldClosed, RowIn, StateIs, LinkIs, HoldingCall, OpenRows, Unread, Pending;
  }

  lemma BusyEnds(w: World, device: string)
    requires Busy(w, device) && Active(w, device) == {}
    ensures Quiet(w, device)
  {
    hide RowIn, OpenRows, IsOpen, StateKey, TripIdKey;
    assert Opening(w, device) == {} && Pending(w, device) == {} && Unread(w, device) == {};
  }

  // ----- calls of other devices -----

  /** Nothing of the device has changed, but its trip id may have been overwritten with a state. */
  ghost predicate SameFor(s: Store, t: Store, device: string) {
    && OpenCount(t.trips, device) == OpenCount(s.trips, device)
    && (forall row :: IsOpen(t.trips, row, device) <==> IsOpen(s.trips, row, device))
    && (forall state :: StateIs(t, device, state) <==> StateIs(s, device, state))
    && (forall row :: LinkIs(s, device, row) ==> StillLinked(t, device, row))
  }

  lemma OtherKeys(s: Store, c: Call, op: Op, id: string, device: string)
    requires c.fix.device != device && !Disturbs(c.fix.device, device)
    ensures var s' := Perform(s, c, op, id).0;
            && (forall state :: StateIs(s', device, state) <==> StateIs(s, device, state))
            && (forall row :: LinkIs(s, device, row) ==> StillLinked(s', device, row))
  {
    hide StateKey, TripIdKey, Ended;
    KeysCollide(c.fix.device, device);
    KeysCollide(device, c.fix.device);
  }

  /** Ending a row of another device, or none, ends no row of this one. */
  lemma EndsNoneOf(ts: seq<Trip>, row: string, p: Point, other: string, device: string)
    requires Unique(ts) && RealIds(ts) && other != device && (RealId(row) ==> TripCut.RowOf(ts, row, other))
    ensures !IsOpen(ts, row, device)
    ensures OpenCount(Ended(ts, row, p), device) == OpenCount(ts, device)
    ensures forall id :: IsOpen(Ended(ts, row, p), id, device) <==> IsOpen(ts, id, device)
  {
    hide OpenCount, Ended;
    assert !IsOpen(ts, row, device);
    OpenAfterEnd(ts, row, p, device);
    forall id ensures IsOpen(Ended(ts, row, p), id, device) <==> IsOpen(ts, id, device) {
      if id != row { OpenOthers(ts, row, p, id, device); } else { EndedIsClosed(ts, row, p, device); }
    }
  }

  lemma EndedIsClosed(ts: seq<Trip>, row: string, p: Point, device: string)
    ensures !IsOpen(Ended(ts, row, p), row, device)
  {
  }

  lemma AppendsNoneOf(ts: seq<Trip>, t: Trip, device: string)
    requires t.device != device
    ensures OpenCount(ts + [t], device) == OpenCount(ts, device)
    ensures forall id :: IsOpen(ts + [t], id, device) <==> IsOpen(ts, id, device)
  {
    hide OpenCount;
    OpenAppend(ts, t, device);
  }

  lemma OtherSame(s: Store, c: Call, op: Op, id: string, device: string)
    requires Unique(s.trips) && RealIds(s.trips) && CallSound(s, c)
    requires c.fix.device != device && !Disturbs(c.fix.device, device)
    ensures SameFor(s, Perform(s, c, op, id).0, device)
  {
    hide Perform, OpenCount, IsOpen, Ended, StateIs, LinkIs, RealIds, Unique, TripCut.RowOf;
    OtherKeys(s, c, op, id, device);
    RowsOfPerform(s, c, op, id);
    if c.pc.Inserting? { AppendsNoneOf(s.trips, NewRow(c.fix, id), device); }
    if c.pc.Updating? { EndsNoneOf(s.trips, c.pc.id, PointOf(c.fix), c.fix.device, device); }
  }

  /** The device's calls are the same in both worlds. */
  ghost predicate SameCalls(w: World, w': World, device: string) {
    Active(w, device) == Active(w', device) && forall c | c in Active(w, device) :: w.calls[c] == w'.calls[c]
  }

  /** Nothing that matters to the device has changed. */
  ghost predicate SameWorld(w: World, w': World, device: string) {
    && SameFor(w.store, w'.store, device) && SameCalls(w, w', device)
    && w'.failures == w.failures && w'.overlaps == w.overlaps && w'.period == w.period
    && (w.period.held.Some? && RowIn(w.store, w.period.held.value, device) ==>
          RowIn(w'.store, w.period.held.value, device))
  }

  lemma SameCounted(w: World, w': World, device: string)
    requires SameWorld(w, w', device) && Counted(w, device)
    ensures Counted(w', device)
  {
    hide RowIn, IsOpen, OpenCount, StateIs, LinkIs;
    assert Unread(w, device) == Unread(w', device) && Pending(w, device) == Pending(w', device);
  }

  lemma SameHolding(w: World, w': World, device: string)
    requires SameWorld(w, w', device) && Holding(w, device)
    ensures Holding(w', device)
  {
    hide RowIn, IsOpen, OpenCount, StateIs, LinkIs, RealId;
    if w.period.held.Some? && !w.period.idled {
      forall c | c in Active(w', device) ensures HoldingCall(w', w'.calls[c].pc, device) {
        assert HoldingCall(w, w.calls[c].pc, device);
      }
    }
  }

  lemma SameFree(w: World, w': World, device: string)
    requires SameWorld(w, w', device) && Free(w, device)
    ensures Free(w', device)
  {
    hide RowIn, IsOpen, OpenCount, StateIs, LinkIs, Keeps;
    assert Opening(w, device) == Opening(w', device);
    if Keeps(w.store, device) { KeepsAsBefore(w.store, w'.store, device); }
    if w.period.held.None? && w.period.closers == 0 && w.period.failed == 0 {
      forall c | c in Active(w', device) ensures OpeningCall(w'.store, w'.calls[c].pc, device) {
        assert OpeningCall(w.store, w.calls[c].pc, device);
      }
    }
  }

  lemma SameKeeps(w: World, w': World, device: string)
    requires SameWorld(w, w', device)
    ensures Quiet(w, device) ==> Quiet(w', device)
    ensures Busy(w, device) ==> Busy(w', device)
  {
    hide RowIn, IsOpen, OpenCount, StateIs, LinkIs, Counted, Holding, Free, Keeps;
    if Keeps(w.store, device) { KeepsAsBefore(w.store, w'.store, device); }
    if Busy(w, device) {
      SameCounted(w, w', device);
      SameHolding(w, w', device);
      SameFree(w, w', device);
    }
  }

  lemma KeepsAsBefore(s: Store, t: Store, device: string)
    requires SameFor(s, t, device) && Keeps(s, device)
    ensures Keeps(t, device)
  {
    hide IsOpen, OpenCount, StateKey, TripIdKey, KeysHoldOpen, LinkIs, StateIs;
    HoldsIs(s, device);
    HoldsIs(t, device);
  }

  lemma HoldsIs(s: Store, device: string)
    ensures KeysHoldOpen(s, device) <==>
            StateIs(s, device, "ACTIVE") && exists row :: LinkIs(s, device, row) && IsOpen(s.trips, row, device)
  {
    hide IsOpen, StateKey, TripIdKey;
    if KeysHoldOpen(s, device) {
      var row := s.redis[TripIdKey(device)];
      assert LinkIs(s, device, row) && IsOpen(s.trips, row, device);
    }
  }

  lemma OtherKeeps(w: World, e: Event, device: string)
    requires Sound(w) && Enabled(w, e)
    requires match e
             case Begin(_, f) => f.device != device
             case Operate(c, _, _) => w.calls[c].fix.device != device && !Disturbs(w.calls[c].fix.device, device)
    ensures SameWorld(w, Next(w, e, device), device)
  {
    hide Perform, CallSound, TripCut.Owned, Unique, RealIds, IsOpen, OpenCount, StateIs, LinkIs, RowIn, Disturbs;
    var w' := Next(w, e, device);
    match e
    case Begin(c, f) =>
      SameForSelf(w.store, device);
    case Operate(c, op, id) =>
      var call := w.calls[c];
      OtherSame(w.store, call, op, id, device);
      if w.period.held.Some? && RowIn(w.store, w.period.held.value, device) {
        RowsStay(w.store, call, op, id, w.period.held.value, device);
      }
  }

  lemma SameForSelf(s: Store, device: string)
    ensures SameFor(s, s, device)
  {
  }

  // ----- calls of the device -----

  lemma HeldIs(s: Store, device: string)
    requires RealIds(s.trips)
    ensures var h := Held(s, device);
            if h.Some? then
              && h.value != "" && (RealId(h.value) ==> TripCut.RowOf(s.trips, h.value, device) && IsOpen(s.trips, h.value, device))
              && StateIs(s, device, "ACTIVE") && LinkIs(s, device, h.value) && KeepsOne(s, device) == 1
            else KeepsOne(s, device) == 0
  {
    hide StateKey, TripIdKey;
  }

  lemma FirstBegins(w: World, c: CallId, f: Fix)
    requires Sound(w) && c !in w.calls && Active(w, f.device) == {} && Quiet(w, f.device)
    ensures Busy(Begun(w, c, f, f.device), f.device)
  {
    hide IsOpen, OpenCount, StateIs, LinkIs, TripCut.RowOf, TripCut.Owned, CallSound, RealId, RealIds, Held, KeepsOne;
    var device, w' := f.device, Begun(w, c, f, f.device);
    HeldIs(w.store, device);
    assert Active(w', device) == {c};
    assert Unread(w', device) == {c} && Pending(w', device) == {} && Opening(w', device) == {};
  }

  lemma BegunSets(w: World, c: CallId, f: Fix)
    requires c !in w.calls && Active(w, f.device) != {}
    ensures var device, w' := f.device, Begun(w, c, f, f.device);
            && Active(w', device) == Active(w, device) + {c}
            && |Unread(w', device)| == |Unread(w, device)| + 1 && |Pending(w', device)| == |Pending(w, device)|
            && |Opening(w', device)| == |Opening(w, device)|
  {
    var device, w' := f.device, Begun(w, c, f, f.device);
    assert Unread(w', device) == Unread(w, device) + {c} && Pending(w', device) == Pending(w, device);
    assert Opening(w', device) == Opening(w, device);
  }

  lemma AnotherBegins(w: World, c: CallId, f: Fix)
    requires c !in w.calls && Active(w, f.device) != {} && Busy(w, f.device)
    ensures Busy(Begun(w, c, f, f.device), f.device)
  {
    hide IsOpen, OpenCount, StateIs, LinkIs, RowIn, RealId, Keeps, Unread, Pending, Opening;
    var device, w' := f.device, Begun(w, c, f, f.device);
    BegunSets(w, c, f);
    if w.period.held.Some? && !w.period.idled {
      forall o | o in Active(w', device) ensures HoldingCall(w', w'.calls[o].pc, device) {
        if o != c { assert HoldingCall(w, w.calls[o].pc, device); }
      }
    }
  }

  lemma SetsGoOn(w: World, w': World, c: CallId, pc: Pc, device: string)
    requires c in Active(w, device) && w'.calls == w.calls[c := w.calls[c].(pc := pc)] && !pc.Reading?
    ensures Active(w', device) == Active(w, device) && Unread(w', device) == Unread(w, device) - {c}
    ensures Pending(w', device) == (Pending(w, device) - {c}) + (if pc.Inserting? then {c} else {})
    ensures Opening(w', device) == (Opening(w, device) - {c}) + (if Opens(pc) then {c} else {})
  {
  }

  lemma SetsFinish(w: World, w': World, c: CallId, device: string)
    requires c in Active(w, device) && w'.calls == w.calls - {c}
    ensures Active(w', device) == Active(w, device) - {c} && Unread(w', device) == Unread(w, device) - {c}
    ensures Pending(w', device) == Pending(w, device) - {c} && Opening(w', device) == Opening(w, device) - {c}
  {
  }

  lemma NeverBackToReading(s: Store, c: Call, op: Op, id: string)
    ensures Perform(s, c, op, id).1 != Some(Reading)
  {
    hide StateSeen, TripIdSeen;
  }

  function ClosedCount(ts: seq<Trip>, held: Option<string>, device: string): nat {
    if held.Some? && RealId(held.value) && !IsOpen(ts, held.value, device) then 1 else 0
  }

  /** An operation opens a row only by an insert, and closes the row held only by making one less open. */
  lemma RowsMove(s: Store, c: Call, op: Op, id: string, held: Option<string>)
    requires Unique(s.trips) && (c.pc.Inserting? ==> !HasId(s.trips, id))
    requires held.Some? && RealId(held.value) ==> TripCut.RowOf(s.trips, held.value, c.fix.device)
    ensures var device, ts, ts' := c.fix.device, s.trips, Perform(s, c, op, id).0.trips;
            OpenCount(ts', device) + ClosedCount(ts', held, device)
            <= OpenCount(ts, device) + ClosedCount(ts, held, device) + if c.pc.Inserting? then 1 else 0
  {
    hide Perform, OpenCount, IsOpen, Ended, Unique;
    RowsOfPerform(s, c, op, id);
    var device := c.fix.device;
    if c.pc.Inserting? {
      OpenAppend(s.trips, NewRow(c.fix, id), device);
    }
    if c.pc.Updating? {
      var p := PointOf(c.fix);
      OpenAfterEnd(s.trips, c.pc.id, p, device);
      if held.Some? && held.value != c.pc.id { OpenOthers(s.trips, c.pc.id, p, held.value, device); }
    }
  }

  lemma SizesGoOn(w: World, w': World, c: CallId, pc: Pc, device: string)
    requires c in Active(w, device) && w'.calls == w.calls[c := w.calls[c].(pc := pc)] && !pc.Reading?
    ensures |Unread(w', device)| + (if w.calls[c].pc.Reading? then 1 else 0) == |Unread(w, device)|
    ensures |Pending(w', device)| + (if w.calls[c].pc.Inserting? then 1 else 0)
            == |Pending(w, device)| + (if pc.Inserting? then 1 else 0)
    ensures |Opening(w', device)| + (if Opens(w.calls[c].pc) then 1 else 0)
            == |Opening(w, device)| + (if Opens(pc) then 1 else 0)
  {
    hide Unread, Pending, Opening;
    InSets(w, c, device);
    SetsGoOn(w, w', c, pc, device);
  }

  lemma SizesFinish(w: World, w': World, c: CallId, device: string)
    requires c in Active(w, device) && w'.calls == w.calls - {c}
    ensures |Unread(w', device)| + (if w.calls[c].pc.Reading? then 1 else 0) == |Unread(w, device)|
    ensures |Pending(w', device)| + (if w.calls[c].pc.Inserting? then 1 else 0) == |Pending(w, device)|
    ensures |Opening(w', device)| + (if Opens(w.calls[c].pc) then 1 else 0) == |Opening(w, device)|
  {
    hide Unread, Pending, Opening;
    InSets(w, c, device);
    SetsFinish(w, w', c, device);
  }

  lemma OwnCalls(w: World, c: CallId, op: Op, id: string, device: string)
    requires c in w.calls && w.calls[c].fix.device == device
    ensures var w', next := Operated(w, c, op, id, device), Perform(w.store, w.calls[c], op, id).1;
            w'.calls == (if next.Some? then w.calls[c := w.calls[c].(pc := next.value)] else w.calls - {c})
    ensures c in Active(w, device)
  {
    hide Perform, Noted;
  }

  lemma OwnSizes(w: World, c: CallId, op: Op, id: string, device: string)
    requires c in w.calls && w.calls[c].fix.device == device
    ensures var w', pc, next := Operated(w, c, op, id, device), w.calls[c].pc, Perform(w.store, w.calls[c], op, id).1;
            && |Unread(w', device)| + (if pc.Reading? then 1 else 0) == |Unread(w, device)|
            && |Pending(w', device)| + (if pc.Inserting? then 1 else 0)
               == |Pending(w, device)| + (if next == Some(Inserting) then 1 else 0)
            && |Opening(w', device)| + (if Opens(pc) then 1 else 0)
               == |Opening(w, device)| + (if next.Some? && Opens(next.value) then 1 else 0)
  {
    hide Perform, Operated, Active, Unread, Pending, Opening;
    OwnCalls(w, c, op, id, device);
    NeverBackToReading(w.store, w.calls[c], op, id);
    var w', next := Operated(w, c, op, id, device), Perform(w.store, w.calls[c], op, id).1;
    if next.Some? { SizesGoOn(w, w', c, next.value, device); } else { SizesFinish(w, w', c, device); }
  }

  lemma InSets(w: World, c: CallId, device: string)
    requires c in w.calls && w.calls[c].fix.device == device
    ensures c in Active(w, device) && (w.calls[c].pc.Reading? <==> c in Unread(w, device))
    ensures w.calls[c].pc.Inserting? <==> c in Pending(w, device)
    ensures Opens(w.calls[c].pc) <==> c in Opening(w, device)
  {
  }

  lemma OwnCounted(w: World, c: CallId, op: Op, id: string, device: string)
    requires c in w.calls && w.calls[c].fix.device == device && Sound(w) && Enabled(w, Operate(c, op, id))
    requires Counted(w, device) && HeldInTable(w, device)
    ensures Counted(Operated(w, c, op, id, device), device)
  {
    hide Perform, IsOpen, OpenCount, CallSound, TripCut.Owned, Unique, RealIds, TripCut.RowOf, HasId, RealId,
         Active, Unread, Pending, Opening;
    OwnSizes(w, c, op, id, device);
    RowsMove(w.store, w.calls[c], op, id, w.period.held);
    NextPc(w.store, w.calls[c], op, id);
  }

  /** Where a call may go. */
  lemma NextPc(s: Store, c: Call, op: Op, id: string)
    ensures var next := Perform(s, c, op, id).1;
            && (next == Some(Inserting) ==>
                  c.pc.Reading? && op.Fine? && StateSeen(s, c.fix.device, Fine) == "IDLE")
            && (next == Some(Fetching) ==> c.pc.Reading?)
            && (c.pc.Reading? ==> next in {None, Some(Inserting), Some(Fetching)})
  {
    hide TripIdSeen, Insert, Update, Put, Delete;
  }

  // ----- the device's own operations, if it was in a trip -----

  /** What an operation does to the device's two keys. */
  lemma OwnKeys(s: Store, c: Call, op: Op, id: string)
    ensures var s', device := Perform(s, c, op, id).0, c.fix.device;
            && (!c.pc.Activating? && !c.pc.Idling? ==>
                  forall state :: StateIs(s', device, state) <==> StateIs(s, device, state))
            && (!c.pc.Linking? && !c.pc.Unlinking? ==>
                  forall row :: LinkIs(s', device, row) <==> LinkIs(s, device, row))
            && (c.pc.Activating? && (op.Fine? || StateIs(s, device, "ACTIVE")) ==> StateIs(s', device, "ACTIVE"))
            && (c.pc.Linking? && op.Fine? ==> LinkIs(s', device, c.pc.id))
  {
    hide StateKey, TripIdKey, Ended, NewRow;
    KeysCollide(c.fix.device, c.fix.device);
  }

  /** What the call sees while the device is in a trip. */
  lemma SeesHeld(s: Store, c: Call, op: Op, id: string, held: string)
    requires held != "" && StateIs(s, c.fix.device, "ACTIVE") && StillLinked(s, c.fix.device, held)
    ensures c.pc.Reading? ==> Perform(s, c, op, id).1 in {None, Some(Fetching)}
    ensures c.pc.Fetching? ==>
              if op.Fine? then
                Perform(s, c, op, id).1 == Some(Updating(held)) ||
                (exists word :: !RealId(word) && Perform(s, c, op, id).1 == Some(Updating(word)))
              else Perform(s, c, op, id).1 == Some(Idling)
  {
    hide StateKey, TripIdKey;
  }

  lemma ClosedStaysClosed(s: Store, c: Call, op: Op, id: string, held: string, device: string)
    requires TripCut.RowOf(s.trips, held, device) && (c.pc.Inserting? ==> !HasId(s.trips, id))
    requires !IsOpen(s.trips, held, device)
    ensures !IsOpen(Perform(s, c, op, id).0.trips, held, device)
  {
    hide Perform, Ended;
    RowsOfPerform(s, c, op, id);
    if c.pc.Updating? {
      if c.pc.id == held {
        EndedIsClosed(s.trips, held, PointOf(c.fix), device);
      } else {
        OpenOthers(s.trips, c.pc.id, PointOf(c.fix), held, device);
      }
    }
  }

  lemma UpdateCloses(s: Store, c: Call, op: Op, id: string)
    requires c.pc.Updating?
    ensures Perform(s, c, op, id).1 == Some(Idling)
    ensures Outcome(c, op).Fine? ==> RealId(c.pc.id) && !IsOpen(Perform(s, c, op, id).0.trips, c.pc.id, c.fix.device)
  {
    hide Ended;
    EndedIsClosed(s.trips, c.pc.id, PointOf(c.fix), c.fix.device);
  }

  /** While no state has been set back, the call itself goes on as one that closes the row held. */
  lemma HoldingGoesOn(w: World, c: CallId, op: Op, id: string, device: string)
    requires c in w.calls && w.calls[c].fix.device == device && w.period.held.Some? && w.period.held.value != ""
    requires StateIs(w.store, device, "ACTIVE") && StillLinked(w.store, device, w.period.held.value)
    requires HoldingCall(w, w.calls[c].pc, device) && !w.calls[c].pc.Idling?
    requires HeldClosed(w, device) ==> HeldClosed(Operated(w, c, op, id, device), device)
    ensures var w', next := Operated(w, c, op, id, device), Perform(w.store, w.calls[c], op, id).1;
            && (next.Some? ==> HoldingCall(w', next.value, device)) && w'.period.openers == w.period.openers
            && next != Some(Inserting)
  {
    hide Perform, IsOpen, RowIn, RealId, StateIs, StillLinked;
    var call := w.calls[c];
    SeesHeld(w.store, call, op, id, w.period.held.value);
    NextPc(w.store, call, op, id);
    if call.pc.Updating? { UpdateCloses(w.store, call, op, id); }
  }

  lemma OwnHolding(w: World, c: CallId, op: Op, id: string, device: string)
    requires c in w.calls && w.calls[c].fix.device == device && Enabled(w, Operate(c, op, id))
    requires Holding(w, device)
    ensures Holding(Operated(w, c, op, id, device), device)
  {
    hide Perform, IsOpen, TripCut.RowOf, RealId, StateIs, LinkIs, HasId, Unread, Pending, Opening;
    if w.period.held.Some? {
      var call, held, w' := w.calls[c], w.period.held.value, Operated(w, c, op, id, device);
      if RealId(held) {
        RowsStay(w.store, call, op, id, held, device);
        if HeldClosed(w, device) { ClosedStaysClosed(w.store, call, op, id, held, device); }
      }
      if !w.period.idled {
        assert HoldingCall(w, call.pc, device);
        OwnKeys(w.store, call, op, id);
        if !call.pc.Idling? {
          HoldingGoesOn(w, c, op, id, device);
          forall o | o in Active(w', device) ensures HoldingCall(w', w'.calls[o].pc, device) {
            if o != c { assert HoldingCall(w, w.calls[o].pc, device); }
          }
        }
      }
    }
  }

  // ----- the device's own operations, if it was in none -----

  lemma OpenStaysOpen(s: Store, c: Call, op: Op, id: string, row: string, device: string)
    requires !c.pc.Updating? && IsOpen(s.trips, row, device)
    ensures IsOpen(Perform(s, c, op, id).0.trips, row, device)
  {
    hide Perform, IsOpen, OpenCount;
    RowsOfPerform(s, c, op, id);
    OpenAppend(s.trips, NewRow(c.fix, id), device);
  }

  /** The call itself goes on opening: its row is open once inserted, and the state ACTIVE once set. */
  lemma OpeningGoesOn(s: Store, c: Call, op: Op, id: string)
    requires OpeningCall(s, c.pc, c.fix.device) && Outcome(c, op).Fine?
    ensures var (s', next) := Perform(s, c, op, id);
            && (next.Some? && next.value != Fetching ==> OpeningCall(s', next.value, c.fix.device))
            && (next.Some? && !c.pc.Reading? ==> Opens(next.value))
            && (c.pc.Linking? ==> next.None?)
  {
    hide IsOpen, StateKey, TripIdKey, OpenCount, StateSeen;
    if c.pc.Inserting? { OpenAppend(s.trips, NewRow(c.fix, id), c.fix.device); }
  }

  lemma OthersGoOn(s: Store, c: Call, op: Op, id: string, pc: Pc)
    requires OpeningCall(s, c.pc, c.fix.device) && Outcome(c, op).Fine? && OpeningCall(s, pc, c.fix.device)
    ensures OpeningCall(Perform(s, c, op, id).0, pc, c.fix.device)
  {
    hide Perform, IsOpen, StateIs, LinkIs;
    OwnKeys(s, c, op, id);
    match pc
    case Activating(row) => OpenStaysOpen(s, c, op, id, row, c.fix.device);
    case Linking(row) => OpenStaysOpen(s, c, op, id, row, c.fix.device);
    case _ =>
  }

  /** Once a trip id has been set, the keys hold an open row. */
  lemma LinkedHolds(s: Store, c: Call, op: Op, id: string)
    requires OpeningCall(s, c.pc, c.fix.device) && Outcome(c, op).Fine?
    requires c.pc.Linking? || Keeps(s, c.fix.device)
    ensures Keeps(Perform(s, c, op, id).0, c.fix.device)
  {
    hide Perform, IsOpen, StateIs, LinkIs, KeysHoldOpen;
    var s', device := Perform(s, c, op, id).0, c.fix.device;
    OwnKeys(s, c, op, id);
    HoldsIs(s, device);
    HoldsIs(s', device);
    if c.pc.Linking? {
      OpenStaysOpen(s, c, op, id, c.pc.id, device);
    } else {
      if row :| LinkIs(s, device, row) && IsOpen(s.trips, row, device) {
        OpenStaysOpen(s, c, op, id, row, device);
      }
    }
  }

  lemma OwnFree(w: World, c: CallId, op: Op, id: string, device: string)
    requires c in w.calls && w.calls[c].fix.device == device && Enabled(w, Operate(c, op, id))
    requires Free(w, device)
    ensures Free(Operated(w, c, op, id, device), device)
  {
    hide Perform, Keeps, OpeningCall, HasId, RealId, Opening, Unread, Pending;
    var call, w' := w.calls[c], Operated(w, c, op, id, device);
    var next := Perform(w.store, call, op, id).1;
    if w'.period.held.None? && w'.period.closers == 0 && w'.period.failed == 0 {
      assert Outcome(call, op).Fine? && OpeningCall(w.store, call.pc, device);
      OpeningGoesOn(w.store, call, op, id);
      OpeningNext(w.store, call, op, id);
      OwnSizes(w, c, op, id, device);
      forall o | o in Active(w', device) ensures OpeningCall(w'.store, w'.calls[o].pc, device) {
        if o != c { OthersGoOn(w.store, call, op, id, w.calls[o].pc); }
      }
      if w'.period.linked { LinkedHolds(w.store, call, op, id); }
    }
  }

  /** Only a call that sets the trip id leaves the openers. */
  lemma OpeningNext(s: Store, c: Call, op: Op, id: string)
    requires OpeningCall(s, c.pc, c.fix.device) && Outcome(c, op).Fine?
    ensures var next := Perform(s, c, op, id).1;
            && (c.pc.Reading? ==> next in {None, Some(Inserting), Some(Fetching)})
            && (Opens(c.pc) && !c.pc.Linking? ==> next.Some? && Opens(next.value))
            && (!c.pc.Reading? ==> next != Some(Inserting) && next != Some(Fetching))
  {
    hide StateSeen, IsOpen, StateKey, TripIdKey;
  }

  // ----- every run -----

  lemma StepKeeps(w: World, e: Event, device: string)
    requires Invariant(w, device) && Enabled(w, e)
    requires e.Begin? ==> !Disturbs(e.fix.device, device)
    requires forall c | c in w.calls :: !Disturbs(w.calls[c].fix.device, device)
    ensures Invariant(Next(w, e, device), device)
  {
    hide Sound, Quiet, Counted, Holding, Free, Perform, Disturbs, SameWorld, HasId, RealId;
    SoundKept(w, e, device);
    var w' := Next(w, e, device);
    match e
    case Begin(c, f) =>
      if f.device != device {
        OtherKeeps(w, e, device);
        SameKeeps(w, w', device);
        SameActive(w, w', device);
      } else if Active(w, device) == {} {
        FirstBegins(w, c, f);
        assert c in Active(w', device);
      } else {
        AnotherBegins(w, c, f);
        assert c in Active(w', device);
      }
    case Operate(c, op, id) =>
      if w.calls[c].fix.device != device {
        OtherKeeps(w, e, device);
        SameKeeps(w, w', device);
        SameActive(w, w', device);
      } else {
        assert c in Active(w, device);
        assert HeldInTable(w, device) by { HoldingHeld(w, device); }
        OwnCounted(w, c, op, id, device);
        OwnHolding(w, c, op, id, device);
        OwnFree(w, c, op, id, device);
        if Active(w', device) == {} { BusyEnds(w', device); }
      }
  }

  lemma SameActive(w: World, w': World, device: string)
    requires SameWorld(w, w', device)
    ensures Active(w', device) == Active(w, device)
  {
  }

  lemma HoldingHeld(w: World, device: string)
    requires Holding(w, device)
    ensures HeldInTable(w, device)
  {
  }

  lemma NextCalls(w: World, e: Event, device: string, c: CallId)
    requires Enabled(w, e) && c in Next(w, e, device).calls
    ensures var f := Next(w, e, device).calls[c].fix;
            e == Begin(c, f) || (c in w.calls && w.calls[c].fix == f)
  {
    hide Perform, Noted, Active, Held;
  }

  lemma {:induction false} CallsUndisturbing(es: seq<Event>, device: string)
    requires IsRun(es, device) && Undisturbed(es, device)
    ensures forall c | c in At(es, device).calls :: !Disturbs(At(es, device).calls[c].fix.device, device)
  {
    hide Next, Enabled, Disturbs;
    if es != [] {
      var n := |es| - 1;
      CallsUndisturbing(es[..n], device);
      forall c | c in At(es, device).calls ensures !Disturbs(At(es, device).calls[c].fix.device, device) {
        NextCalls(At(es[..n], device), es[n], device, c);
      }
    }
  }

  lemma {:induction false} RunKeeps(es: seq<Event>, device: string)
    requires IsRun(es, device) && Undisturbed(es, device)
    ensures Invariant(At(es, device), device)
  {
    hide Invariant, Next, Enabled, Disturbs;
    if es == [] {
      StartHolds(device);
    } else {
      var n := |es| - 1;
      RunKeeps(es[..n], device);
      CallsUndisturbing(es[..n], device);
      StepKeeps(At(es[..n], device), es[n], device);
    }
  }

  lemma StartHolds(device: string)
    ensures Invariant(START, device)
  {
  }

  /**
   However many processes share the consumer, and however operations fail, a device never has more open trips than one
   plus the operations that failed on its records plus the calls that began while another of its calls was under way.
   */
  lemma OverlapBound(es: seq<Event>, device: string)
    requires IsRun(es, device) && Undisturbed(es, device)
    ensures var w := At(es, device); OpenCount(w.store.trips, device) <= 1 + w.failures + w.overlaps
  {
    hide IsRun, After, Sound, Busy, OpenCount;
    RunKeeps(es, device);
    if Active(At(es, device), device) != {} { BusyBound(At(es, device), device); }
  }

  lemma OneMore(es: seq<Event>, e: Event, device: string, w: World)
    requires After(es, device) == Some(w) && Enabled(w, e)
    ensures After(es + [e], device) == Some(Next(w, e, device))
  {
    hide Next, Enabled;
    assert (es + [e])[..|es|] == es;
  }

  // ----- the bound is reached -----

  function Fast(device: string): Fix { Fix(device, "t", 0, 0, 0, 9) }

  /** Different ids for different numbers. */
  function IdNumber(k: nat): string { seq(k, i requires 0 <= i < k => 'a') }

  function FastRows(device: string, n: nat): seq<Trip> {
    seq(n, k requires 0 <= k < n => NewRow(Fast(device), IdNumber(k + 1)))
  }

  /** Of `n` calls with a fast record, `r` have read the state and `i` of these have inserted their row. */
  ghost predicate Crowd(w: World, device: string, n: nat, r: nat, i: nat) {
    && i <= r <= n && w.failures == 0 && w.overlaps == (if n == 0 then 0 else n - 1)
    && w.store == Store(map[], FastRows(device, i))
    && (forall c: CallId :: c in w.calls <==> c < n)
    && (forall c: CallId | c < n :: w.calls[c] == Call(Fast(device), if c < i then Activating(IdNumber(c + 1))
                                                             else if c < r then Inserting else Reading))
  }

  ghost predicate Reached(device: string, n: nat, r: nat, i: nat) {
    exists es :: IsRun(es, device) && Undisturbed(es, device) && Crowd(At(es, device), device, n, r, i)
  }

  lemma Extended(es: seq<Event>, e: Event, device: string, n: nat, r: nat, i: nat)
    requires IsRun(es, device) && Undisturbed(es, device) && Enabled(At(es, device), e)
    requires e.Begin? ==> !Disturbs(e.fix.device, device)
    requires Crowd(Next(At(es, device), e, device), device, n, r, i)
    ensures Reached(device, n, r, i)
  {
    hide Next, Enabled, After, Crowd, Disturbs;
    OneMore(es, e, device, At(es, device));
    assert At(es + [e], device) == Next(At(es, device), e, device);
  }

  lemma CrowdArrives(w: World, device: string, n: nat)
    requires Crowd(w, device, n, 0, 0)
    ensures Enabled(w, Begin(n, Fast(device))) && Crowd(Next(w, Begin(n, Fast(device)), device), device, n + 1, 0, 0)
  {
    hide FastRows, IdNumber, Held;
    if n > 0 { assert 0 in Active(w, device); } else { assert Active(w, device) == {}; }
  }

  lemma CrowdReads(w: World, device: string, n: nat, r: nat)
    requires Crowd(w, device, n, r, 0) && r < n
    ensures Enabled(w, Operate(r, Fine, "")) && Crowd(Next(w, Operate(r, Fine, ""), device), device, n, r + 1, 0)
  {
    hide FastRows, IdNumber;
  }

  lemma FreshNumber(device: string, i: nat)
    ensures !HasId(FastRows(device, i), IdNumber(i + 1)) && RealId(IdNumber(i + 1))
    ensures FastRows(device, i + 1) == FastRows(device, i) + [NewRow(Fast(device), IdNumber(i + 1))]
  {
    assert IdNumber(i + 1)[0] == 'a';
    forall k | 0 <= k < i ensures FastRows(device, i)[k].id != IdNumber(i + 1) {
      assert |FastRows(device, i)[k].id| == k + 1 && |IdNumber(i + 1)| == i + 1;
    }
  }

  lemma CrowdInserts(w: World, device: string, n: nat, i: nat)
    requires Crowd(w, device, n, n, i) && i < n
    ensures var e := Operate(i, Fine, IdNumber(i + 1)); Enabled(w, e) && Crowd(Next(w, e, device), device, n, n, i + 1)
  {
    hide FastRows, IdNumber, HasId;
    FreshNumber(device, i);
  }

  lemma {:induction false} CrowdIsReached(device: string, n: nat, r: nat, i: nat)
    requires i <= r <= n && (i > 0 ==> r == n)
    ensures Reached(device, n, r, i)
    decreases n + r + i
  {
    hide Next, Enabled, After, Crowd, Disturbs;
    if n == 0 {
      assert Reached(device, 0, 0, 0) by { NobodyYet(device); }
    } else if i > 0 {
      CrowdIsReached(device, n, n, i - 1);
      var es :| IsRun(es, device) && Undisturbed(es, device) && Crowd(At(es, device), device, n, n, i - 1);
      CrowdInserts(At(es, device), device, n, i - 1);
      Extended(es, Operate(i - 1, Fine, IdNumber(i)), device, n, n, i);
    } else if r > 0 {
      CrowdIsReached(device, n, r - 1, 0);
      var es :| IsRun(es, device) && Undisturbed(es, device) && Crowd(At(es, device), device, n, r - 1, 0);
      CrowdReads(At(es, device), device, n, r - 1);
      Extended(es, Operate(r - 1, Fine, ""), device, n, r, 0);
    } else {
      CrowdIsReached(device, n - 1, 0, 0);
      var es :| IsRun(es, device) && Undisturbed(es, device) && Crowd(At(es, device), device, n - 1, 0, 0);
      CrowdArrives(At(es, device), device, n - 1);
      NotByItself(device);
      Extended(es, Begin(n - 1, Fast(device)), device, n, 0, 0);
    }
  }

  lemma NotByItself(device: string)
    ensures !Disturbs(device, device)
  {
  }

  lemma NobodyYet(device: string)
    ensures Reached(device, 0, 0, 0)
  {
    assert FastRows(device, 0) == [];
    assert IsRun([], device) && Undisturbed([], device) && Crowd(START, device, 0, 0, 0);
    assert At([], device) == START;
  }

  lemma {:induction false} AllOpen(device: string, n: nat)
    ensures OpenCount(FastRows(device, n), device) == n
  {
    if n > 0 {
      AllOpen(device, n - 1);
      assert FastRows(device, n)[..n - 1] == FastRows(device, n - 1);
    }
  }

  /** For every number of overlaps the bound is reached, though nothing fails: all calls read IDLE before any inserts. */
  lemma BoundIsReached(device: string, overlaps: nat)
    ensures exists es :: IsRun(es, device) && Undisturbed(es, device) && var w := At(es, device);
              w.failures == 0 && w.overlaps == overlaps && OpenCount(w.store.trips, device) == 1 + overlaps
  {
    hide After, FastRows, OpenCount;
    CrowdIsReached(device, overlaps + 1, overlaps + 1, overlaps + 1);
    AllOpen(device, overlaps + 1);
  }

  // ----- sequential runs are runs -----

  predicate Over(es: seq<Event>, devices: set<string>) {
    forall i :: 0 <= i < |es| && es[i].Begin? ==> es[i].fix.device in devices
  }

  /** A run that ends with this store, these calls under way, and these numbers of failures and overlaps. */
  ghost predicate Possible(
    devices: set<string>, device: string, s: Store, calls: map<CallId, Call>, failures: nat, overlaps: nat)
  {
    exists es :: IsRun(es, device) && Over(es, devices) && var w := At(es, device);
      w.store == s && w.calls == calls && w.failures == failures && w.overlaps == overlaps
  }

  lemma PossibleNext(
    devices: set<string>, device: string, w: World, e: Event, es: seq<Event>)
    requires IsRun(es, device) && Over(es, devices) && At(es, device) == w && Enabled(w, e)
    requires e.Begin? ==> e.fix.device in devices
    ensures var w' := Next(w, e, device); Possible(devices, device, w'.store, w'.calls, w'.failures, w'.overlaps)
  {
    hide Next, Enabled, After;
    OneMore(es, e, device, w);
    assert At(es + [e], device) == Next(w, e, device);
  }

  /** A call under way makes one operation. */
  lemma OneOperation(
    devices: set<string>, device: string, s: Store, calls: map<CallId, Call>, failures: nat, overlaps: nat,
    c: CallId, op: Op, id: string)
    requires Possible(devices, device, s, calls, failures, overlaps) && c in calls
    requires calls[c].pc.Inserting? ==> RealId(id) && !HasId(s.trips, id)
    ensures var (s', next) := Perform(s, calls[c], op, id);
            Possible(devices, device, s', if next.Some? then calls[c := calls[c].(pc := next.value)] else calls - {c},
                     failures + (if calls[c].fix.device == device then Cost(Outcome(calls[c], op)) else 0), overlaps)
  {
    hide Perform, After, Noted, RealId, HasId, IsRun, At;
    var es :| IsRun(es, device) && Over(es, devices) && var w := At(es, device);
      w.store == s && w.calls == calls && w.failures == failures && w.overlaps == overlaps;
    PossibleNext(devices, device, At(es, device), Operate(c, op, id), es);
  }

  /** A call under way goes on without interruption until it is done. */
  lemma {:induction false} RunsThrough(
    devices: set<string>, device: string, s: Store, calls: map<CallId, Call>, failures: nat, overlaps: nat,
    c: CallId, o: Outcomes, id: string)
    requires Possible(devices, device, s, calls, failures, overlaps) && c in calls
    requires RealId(id) && !HasId(s.trips, id)
    ensures var (t, n) := Uninterrupted(s, calls[c], o, id);
            Possible(devices, device, t, calls - {c}, failures + (if calls[c].fix.device == device then n else 0), overlaps)
    decreases Rank(calls[c].pc)
  {
    hide Perform, Possible, RealId, HasId, OutcomeOf, Rank;
    var call := calls[c];
    var op := OutcomeOf(call.pc, o);
    OneOperation(devices, device, s, calls, failures, overlaps, c, op, id);
    var (s', next) := Perform(s, call, op, id);
    if next.Some? {
      var calls' := calls[c := call.(pc := next.value)];
      RankFalls(s, call, op, id);
      NeverBackToReading(s, call, op, id);
      assert calls' - {c} == calls - {c};
      if next.value.Fetching? || next.value.Inserting? {
        SameStore(s, call, op, id);
        RunsThrough(devices, device, s', calls', failures + (if call.fix.device == device then Cost(Outcome(call, op)) else 0), overlaps,
                    c, o, id);
      } else {
        RunsToEnd(devices, device, s', calls', failures + (if call.fix.device == device then Cost(Outcome(call, op)) else 0), overlaps,
                  c, o, id);
      }
    }
  }

  /** The same of a call that inserts no more. */
  lemma {:induction false} RunsToEnd(
    devices: set<string>, device: string, s: Store, calls: map<CallId, Call>, failures: nat, overlaps: nat,
    c: CallId, o: Outcomes, id: string)
    requires Possible(devices, device, s, calls, failures, overlaps) && c in calls
    requires !calls[c].pc.Reading? && !calls[c].pc.Inserting?
    ensures var (t, n) := Uninterrupted(s, calls[c], o, id);
            Possible(devices, device, t, calls - {c}, failures + (if calls[c].fix.device == device then n else 0), overlaps)
    decreases Rank(calls[c].pc)
  {
    hide Perform, Possible, RealId, HasId, OutcomeOf, Rank;
    var call := calls[c];
    var op := OutcomeOf(call.pc, o);
    OneOperation(devices, device, s, calls, failures, overlaps, c, op, id);
    var (s', next) := Perform(s, call, op, id);
    if next.Some? {
      var calls' := calls[c := call.(pc := next.value)];
      RankFalls(s, call, op, id);
      NextPc(s, call, op, id);
      NeverBackToReading(s, call, op, id);
      assert calls' - {c} == calls - {c};
      RunsToEnd(devices, device, s', calls', failures + (if call.fix.device == device then Cost(Outcome(call, op)) else 0), overlaps,
                c, o, id);
    }
  }

  lemma RankFalls(s: Store, c: Call, op: Op, id: string)
    ensures var next := Perform(s, c, op, id).1; next.Some? ==> Rank(next.value) < Rank(c.pc)
  {
    hide StateSeen, TripIdSeen;
  }

  lemma SameStore(s: Store, c: Call, op: Op, id: string)
    requires Perform(s, c, op, id).1 in {Some(Fetching), Some(Inserting)}
    ensures Perform(s, c, op, id).0 == s
  {
    hide StateSeen, TripIdSeen, Insert, Update, Put, Delete;
  }

  /** A call that comes while no other of its device is under way, and is not interrupted, is one step of the machine. */
  lemma WholeCall(
    devices: set<string>, device: string, s: Store, calls: map<CallId, Call>, failures: nat, overlaps: nat,
    c: CallId, f: Fix, o: Outcomes, id: string)
    requires Possible(devices, device, s, calls, failures, overlaps) && c !in calls && f.device in devices
    requires forall x | x in calls :: calls[x].fix.device != f.device
    requires RealId(id) && !HasId(s.trips, id)
    ensures var (t, n) := Step(s, f, o, id);
            Possible(devices, device, t, calls, failures + (if f.device == device then n else 0), overlaps)
  {
    hide Step, Uninterrupted, RealId, HasId, Possible;
    Arrives(devices, device, s, calls, failures, overlaps, c, f);
    var calls' := calls[c := Call(f, Reading)];
    RunsThrough(devices, device, s, calls', failures, overlaps, c, o, id);
    AloneIsStep(s, f, o, id);
    assert calls' - {c} == calls;
  }

  lemma Arrives(
    devices: set<string>, device: string, s: Store, calls: map<CallId, Call>, failures: nat, overlaps: nat,
    c: CallId, f: Fix)
    requires Possible(devices, device, s, calls, failures, overlaps) && c !in calls && f.device in devices
    requires forall x | x in calls :: calls[x].fix.device != f.device
    ensures Possible(devices, device, s, calls[c := Call(f, Reading)], failures, overlaps)
  {
    hide After, IsRun, At, Held;
    var es :| IsRun(es, device) && Over(es, devices) && var w := At(es, device);
      w.store == s && w.calls == calls && w.failures == failures && w.overlaps == overlaps;
    PossibleNext(devices, device, At(es, device), Begin(c, f), es);
  }

  lemma AtFirst(devices: set<string>, device: string)
    ensures Possible(devices, device, EMPTY, map[], 0, 0)
  {
    assert IsRun([], device) && Over([], devices) && At([], device) == START;
  }

  /** Every run of the sequential machine is a run without overlaps, with the same store and failures. */
  lemma {:induction false} SequentialIsPossible(run: seq<Delivery>, devices: set<string>, device: string)
    requires Trips.IsRun(run) && TripCut.Within(run, devices)
    ensures Possible(devices, device, Trips.After(run), map[], Failures(run, device), 0)
  {
    hide Step, Possible;
    if run == [] {
      AtFirst(devices, device);
    } else {
      var n := |run| - 1;
      var x, before := run[n], run[..n];
      SequentialIsPossible(before, devices, device);
      IdsUnique(before);
      NotDrawnYet(run);
      WholeCall(devices, device, Trips.After(before), map[], Failures(before, device), 0, 0, x.fix, x.outcomes, x.id);
    }
  }

  lemma NotDrawnYet(run: seq<Delivery>)
    requires run != [] && Trips.IsRun(run) && AllDrawn(Trips.After(run[..|run| - 1]).trips, run[..|run| - 1])
    ensures !HasId(Trips.After(run[..|run| - 1]).trips, run[|run| - 1].id)
  {
    hide Trips.After;
    var ts, before, id := Trips.After(run[..|run| - 1]).trips, run[..|run| - 1], run[|run| - 1].id;
    if HasId(ts, id) {
      var i :| 0 <= i < |ts| && ts[i].id == id;
      assert DrawnIn(ts[i], before);
      FreshId(ts[i], run);
    }
  }

  // ----- why a device must be undisturbed -----

  /** In every run over these devices, the device's open trips stay within one plus failures plus overlaps. */
  ghost predicate AlwaysBounded(devices: set<string>, device: string) {
    forall es :: IsRun(es, device) && Over(es, devices) ==>
      var w := At(es, device); OpenCount(w.store.trips, device) <= 1 + w.failures + w.overlaps
  }

  lemma Unbounded(devices: set<string>, device: string, s: Store, calls: map<CallId, Call>)
    requires Possible(devices, device, s, calls, 0, 0) && OpenCount(s.trips, device) == 2
    ensures !AlwaysBounded(devices, device)
  {
    hide After, OpenCount;
  }

  /** Among any set of devices, the bound holds of a device in all runs exactly when none of them disturbs it. */
  lemma BoundedExactlyIfUndisturbed(devices: set<string>, device: string)
    requires device in devices
    ensures AlwaysBounded(devices, device) <==> forall x | x in devices :: !Disturbs(x, device)
  {
    hide After, OpenCount, Possible, Trips.After, Failures, Trips.IsRun, TripCut.Smooth, TripCut.Collision;
    if forall x | x in devices :: !Disturbs(x, device) {
      forall es | IsRun(es, device) && Over(es, devices)
        ensures var w := At(es, device); OpenCount(w.store.trips, device) <= 1 + w.failures + w.overlaps
      {
        OverlapBound(es, device);
      }
    } else {
      var x :| x in devices && Disturbs(x, device);
      TripCut.CollisionOpensTwice(x);
      var run := TripCut.Collision(x);
      SequentialIsPossible(run, devices, device);
      Unbounded(devices, device, Trips.After(run), map[]);
    }
  }
}
