/**
 The WebSocket hub: one event loop fed by three queues, bounded per-client buffers, and pumps that run beside it. The model
 is the set of all interleavings of their steps; a broadcast offers its message to one client at a time, in any order.
 */
module Hub {
  import opened Options

  type ClientId = nat

  datatype Msg = Msg(tenant: string, device: string, data: string)

  const CAPACITY := 256

  /**
   A client: tenant, subscribed devices (none means all), send buffer and whether it is closed; `exited` once its read
   pump has finished. The rest is history: the initial filter, the messages offered to it, accepted into its buffer and
   taken out by its write pump, how many had been offered before the first one was dropped, how many were dropped, and how
   many unregister requests for it the loop has taken.
   */
  datatype Client = Client(
    tenant: string, devices: set<string>, buffer: seq<Msg>, closed: bool, exited: bool,
    initial: set<string>, offered: seq<Msg>, accepted: seq<Msg>, delivered: seq<Msg>, firstDrop: Option<nat>,
    drops: nat, handled: nat)

  /** The loop is waiting for an event, or going through the clients with a message. */
  datatype Phase = Waiting | Sending(msg: Msg, todo: set<ClientId>)

  datatype Entry = Joined(id: ClientId) | Left(id: ClientId) | Filtered(id: ClientId, devices: set<string>) | Sent(msg: Msg)

  /**
   `table` holds every client ever created, `clients` those in the hub's map. The queues hold the pending sends on the
   hub's channels. `fault` records a send on, or a close of, a closed channel.
   */
  datatype State = State(
    table: map<ClientId, Client>, clients: set<ClientId>,
    registering: set<ClientId>, unregistering: multiset<ClientId>, queue: multiset<Msg>,
    phase: Phase, fault: bool, log: seq<Entry>)

  const START := State(map[], {}, {}, multiset{}, multiset{}, Waiting, false, [])

  datatype Event =
    | Connect(id: ClientId, tenant: string, devices: set<string>)
    | Register(id: ClientId)
    | Exit(id: ClientId)
    | Unregister(id: ClientId)
    | Publish(msg: Msg)
    | Begin(msg: Msg)
    | Offer(id: ClientId)
    | Finish
    | Subscribe(id: ClientId, devices: set<string>)
    | Drain(id: ClientId)

  // ----- one message and one client -----

  predicate Wants(devices: set<string>, m: Msg) { devices == {} || m.device in devices }

  predicate Matches(c: Client, m: Msg) { c.tenant == m.tenant && Wants(c.devices, m) }

  predicate Drops(c: Client, m: Msg) { Matches(c, m) && !c.closed && |c.buffer| >= CAPACITY }

  /** The non-blocking send: into the buffer if there is room, else dropped. */
  function Offered(c: Client, m: Msg): Client {
    if !Matches(c, m) || c.closed then c
    else if |c.buffer| < CAPACITY then
      c.(buffer := c.buffer + [m], accepted := c.accepted + [m], offered := c.offered + [m])
    else
      c.(offered := c.offered + [m], drops := c.drops + 1,
         firstDrop := if c.firstDrop.None? then Some(|c.offered|) else c.firstDrop)
  }

  // ----- steps -----

  function NewClient(tenant: string, devices: set<string>): Client {
    Client(tenant, devices, [], false, false, devices, [], [], [], None, 0, 0)
  }

  predicate Enabled(s: State, e: Event) {
    match e
    case Connect(id, _, _) => id !in s.table
    case Register(id) => s.phase.Waiting? && id in s.registering && id in s.table
    case Exit(id) => id in s.table && !s.table[id].exited
    case Unregister(id) => s.phase.Waiting? && id in s.unregistering && id in s.table
    case Publish(_) => true
    case Begin(m) => s.phase.Waiting? && m in s.queue
    case Offer(id) => s.phase.Sending? && id in s.phase.todo && id in s.table
    case Finish => s.phase.Sending? && s.phase.todo == {}
    case Subscribe(id, _) => s.phase.Waiting? && id in s.table && !s.table[id].exited
    case Drain(id) => id in s.table && s.table[id].buffer != []
  }

  /** The loop takes an unregister request: a client in its map is deleted and its channel closed. */
  function Unregistered(s: State, id: ClientId): State
    requires id in s.table
  {
    var c := s.table[id].(handled := s.table[id].handled + 1);
    var pending := s.unregistering - multiset{id};
    if id in s.clients then
      s.(unregistering := pending, clients := s.clients - {id}, table := s.table[id := c.(closed := true)],
         fault := s.fault || c.closed, log := s.log + [Left(id)])
    else s.(unregistering := pending, table := s.table[id := c])
  }

  /** The message under way is offered to one client; a slow one is dropped and an unregister sent for it. */
  function OfferedTo(s: State, id: ClientId): State
    requires s.phase.Sending? && id in s.table
  {
    var c, m := s.table[id], s.phase.msg;
    s.(phase := Sending(m, s.phase.todo - {id}), table := s.table[id := Offered(c, m)],
       unregistering := if Drops(c, m) then s.unregistering + multiset{id} else s.unregistering,
       fault := s.fault || (Matches(c, m) && c.closed))
  }

  function Next(s: State, e: Event): State
    requires Enabled(s, e)
  {
    match e
    case Connect(id, tenant, devices) =>
      s.(table := s.table[id := NewClient(tenant, devices)], registering := s.registering + {id})
    case Register(id) =>
      s.(registering := s.registering - {id}, clients := s.clients + {id}, log := s.log + [Joined(id)])
    case Exit(id) =>
      s.(table := s.table[id := s.table[id].(exited := true)], unregistering := s.unregistering + multiset{id})
    case Unregister(id) => Unregistered(s, id)
    case Publish(m) => s.(queue := s.queue + multiset{m})
    case Begin(m) =>
      s.(queue := s.queue - multiset{m}, phase := Sending(m, s.clients), log := s.log + [Sent(m)])
    case Offer(id) => OfferedTo(s, id)
    case Finish => s.(phase := Waiting)
    case Subscribe(id, devices) =>
      s.(table := s.table[id := s.table[id].(devices := devices)], log := s.log + [Filtered(id, devices)])
    case Drain(id) =>
      var c := s.table[id];
      s.(table := s.table[id := c.(buffer := c.buffer[1..], delivered := c.delivered + [c.buffer[0]])])
  }

  function After(es: seq<Event>): Option<State> {
    if es == [] then Some(START)
    else
      var before, e := After(es[..|es| - 1]), es[|es| - 1];
      if before.Some? && Enabled(before.value, e) then Some(Next(before.value, e)) else None
  }

  predicate IsRun(es: seq<Event>) { After(es).Some? }

  function At(es: seq<Event>): State
    requires IsRun(es)
  {
    After(es).value
  }

  // ----- what the log entitles a client to -----

  /** Registered and not removed. */
  predicate Present(log: seq<Entry>, id: ClientId) {
    log != [] &&
    match log[|log| - 1]
    case Joined(i) => i == id || Present(log[..|log| - 1], id)
    case Left(i) => i != id && Present(log[..|log| - 1], id)
    case _ => Present(log[..|log| - 1], id)
  }

  /** The filter in force. */
  function FilterOf(log: seq<Entry>, id: ClientId, initial: set<string>): set<string> {
    if log == [] then initial
    else
      match log[|log| - 1]
      case Filtered(i, devices) => if i == id then devices else FilterOf(log[..|log| - 1], id, initial)
      case _ => FilterOf(log[..|log| - 1], id, initial)
  }

  /** The broadcasts of the client's tenant, while it was present, that matched the filter then in force; in order. */
  function Entitled(log: seq<Entry>, id: ClientId, tenant: string, initial: set<string>): seq<Msg> {
    if log == [] then []
    else
      var before := log[..|log| - 1];
      Entitled(before, id, tenant, initial) +
      match log[|log| - 1]
      case Sent(m) =>
        if Present(before, id) && m.tenant == tenant && Wants(FilterOf(before, id, initial), m) then [m] else []
      case _ => []
  }

  lemma LogGrows(log: seq<Entry>, x: Entry, id: ClientId, tenant: string, initial: set<string>)
    ensures Present(log + [x], id) == (if x.Joined? && x.id == id then true
                                       else if x.Left? && x.id == id then false else Present(log, id))
    ensures FilterOf(log + [x], id, initial) ==
            if x.Filtered? && x.id == id then x.devices else FilterOf(log, id, initial)
    ensures Entitled(log + [x], id, tenant, initial) ==
            Entitled(log, id, tenant, initial) +
            if x.Sent? && Present(log, id) && x.msg.tenant == tenant && Wants(FilterOf(log, id, initial), x.msg)
            then [x.msg] else []
  {
    assert (log + [x])[..|log|] == log;
  }

  predicate Mentions(x: Entry, id: ClientId) { !x.Sent? && x.id == id }

  lemma {:induction false} NotMentioned(log: seq<Entry>, id: ClientId, tenant: string, initial: set<string>)
    requires forall i :: 0 <= i < |log| ==> !Mentions(log[i], id)
    ensures !Present(log, id) && FilterOf(log, id, initial) == initial && Entitled(log, id, tenant, initial) == []
  {
    if log != [] {
      var n := |log| - 1;
      NotMentioned(log[..n], id, tenant, initial);
      assert !Mentions(log[n], id);
    }
  }

  // ----- what holds of one client -----

  ghost predicate Subsequence(a: seq<Msg>, b: seq<Msg>) {
    if a == [] then true
    else if b == [] then false
    else
      || (a[|a| - 1] == b[|b| - 1] && Subsequence(a[..|a| - 1], b[..|b| - 1]))
      || Subsequence(a, b[..|b| - 1])
  }

  /** The client's books: what it was offered, kept, and handed on. */
  ghost predicate Books(c: Client) {
    && Subsequence(c.accepted, c.offered)
    && (c.firstDrop.None? ==> c.accepted == c.offered)
    && (c.firstDrop.Some? ==>
          && CAPACITY <= c.firstDrop.value < |c.offered| && c.firstDrop.value <= |c.accepted|
          && c.accepted[..c.firstDrop.value] == c.offered[..c.firstDrop.value])
    && c.delivered + c.buffer == c.accepted
    && |c.buffer| <= CAPACITY
  }

  /** What the message under way still owes a client. */
  function Owed(s: State, id: ClientId): seq<Msg>
    requires id in s.table
  {
    if s.phase.Sending? && id in s.phase.todo && Matches(s.table[id], s.phase.msg) then [s.phase.msg] else []
  }

  ghost predicate Entitlement(s: State, id: ClientId)
    requires id in s.table
  {
    var c := s.table[id];
    && (id in s.clients <==> Present(s.log, id))
    && c.devices == FilterOf(s.log, id, c.initial)
    && Entitled(s.log, id, c.tenant, c.initial) == c.offered + Owed(s, id)
  }

  /**
   A closed client is out of the map and the register queue; a dropped one has an unregister pending or is closed. Every
   unregister request sent, by the read pump at its exit or for a drop, is either pending or has been taken.
   */
  ghost predicate Lifecycle(s: State, id: ClientId)
    requires id in s.table
  {
    var c := s.table[id];
    && (c.closed ==> id !in s.clients && id !in s.registering)
    && !(id in s.clients && id in s.registering)
    && (c.firstDrop.Some? ==> c.closed || (id in s.clients && id in s.unregistering))
    && (c.firstDrop.Some? <==> c.drops > 0)
    && s.unregistering[id] + c.handled == c.drops + (if c.exited then 1 else 0)
    && (!c.closed ==> c.handled <= if c.exited then 1 else 0)
  }

  ghost predicate ClientOk(s: State, id: ClientId)
    requires id in s.table
  {
    Books(s.table[id]) && Entitlement(s, id) && Lifecycle(s, id)
  }

  ghost predicate Placed(s: State) {
    && s.clients <= s.table.Keys && s.registering <= s.table.Keys
    && (forall id :: id in s.unregistering ==> id in s.table)
    && (s.phase.Sending? ==> s.phase.todo <= s.clients)
  }

  ghost predicate LogKnown(s: State) {
    forall i, id :: 0 <= i < |s.log| && Mentions(s.log[i], id) ==> id in s.table
  }

  ghost predicate Global(s: State) { Placed(s) && LogKnown(s) && !s.fault }

  ghost predicate Invariant(s: State) {
    Global(s) && forall id | id in s.table :: ClientOk(s, id)
  }

  // ----- every step keeps it -----

  lemma SubsequenceGrows(a: seq<Msg>, b: seq<Msg>, m: Msg)
    requires Subsequence(a, b)
    ensures Subsequence(a, b + [m]) && Subsequence(a + [m], b + [m])
  {
    assert (b + [m])[..|b|] == b && (a + [m])[..|a|] == a;
  }

  lemma PrefixKept(a: seq<Msg>, m: Msg, k: nat)
    requires k <= |a|
    ensures (a + [m])[..k] == a[..k]
  {
  }

  lemma AcceptKeepsBooks(c: Client, m: Msg)
    requires Books(c) && |c.buffer| < CAPACITY
    ensures Books(c.(buffer := c.buffer + [m], accepted := c.accepted + [m], offered := c.offered + [m]))
  {
    hide Subsequence;
    SubsequenceGrows(c.accepted, c.offered, m);
    assert c.delivered + (c.buffer + [m]) == c.accepted + [m];
    if c.firstDrop.Some? {
      PrefixKept(c.offered, m, c.firstDrop.value);
      PrefixKept(c.accepted, m, c.firstDrop.value);
    }
  }

  lemma DropKeepsBooks(c: Client, m: Msg)
    requires Books(c) && |c.buffer| >= CAPACITY
    ensures Books(c.(offered := c.offered + [m], drops := c.drops + 1,
                     firstDrop := if c.firstDrop.None? then Some(|c.offered|) else c.firstDrop))
  {
    hide Subsequence;
    SubsequenceGrows(c.accepted, c.offered, m);
    var k := if c.firstDrop.None? then |c.offered| else c.firstDrop.value;
    assert (c.offered + [m])[..k] == c.offered[..k];
    assert c.offered[..|c.offered|] == c.offered;
  }

  lemma OfferKeepsBooks(c: Client, m: Msg)
    requires Books(c)
    ensures Books(Offered(c, m))
  {
    hide Books, Matches;
    if |c.buffer| < CAPACITY { AcceptKeepsBooks(c, m); } else { DropKeepsBooks(c, m); }
  }

  lemma DrainKeepsBooks(c: Client)
    requires Books(c) && c.buffer != []
    ensures Books(c.(buffer := c.buffer[1..], delivered := c.delivered + [c.buffer[0]]))
  {
    hide Subsequence;
    assert c.delivered + c.buffer == (c.delivered + [c.buffer[0]]) + c.buffer[1..];
  }

  lemma PlacedByOffer(s: State, e: Event)
    requires Placed(s) && Enabled(s, e) && e.Offer?
    ensures Placed(Next(s, e))
  {
    hide Offered, Drops, Matches;
  }

  lemma PlacedByUnregister(s: State, e: Event)
    requires Placed(s) && Enabled(s, e) && e.Unregister?
    ensures Placed(Next(s, e))
  {
  }

  lemma PlacedByLoop(s: State, e: Event)
    requires Placed(s) && Enabled(s, e) && (e.Register? || e.Begin? || e.Finish?)
    ensures Placed(Next(s, e))
  {
    hide Unregistered, OfferedTo;
  }

  lemma PlacedByOthers(s: State, e: Event)
    requires Placed(s) && Enabled(s, e) && (e.Connect? || e.Exit? || e.Publish? || e.Subscribe? || e.Drain?)
    ensures Placed(Next(s, e))
  {
    hide Unregistered, OfferedTo;
  }

  lemma PlacedKept(s: State, e: Event)
    requires Placed(s) && Enabled(s, e)
    ensures Placed(Next(s, e))
  {
    hide Next, Placed, Enabled;
    match e
    case Offer(_) => PlacedByOffer(s, e);
    case Unregister(_) => PlacedByUnregister(s, e);
    case Register(_) => PlacedByLoop(s, e);
    case Begin(_) => PlacedByLoop(s, e);
    case Finish => PlacedByLoop(s, e);
    case _ => PlacedByOthers(s, e);
  }

  /** What a step writes in the log. */
  function Logged(s: State, e: Event): seq<Entry> {
    match e
    case Register(id) => [Joined(id)]
    case Unregister(id) => if id in s.clients then [Left(id)] else []
    case Begin(m) => [Sent(m)]
    case Subscribe(id, devices) => [Filtered(id, devices)]
    case _ => []
  }

  lemma NextLog(s: State, e: Event)
    requires Enabled(s, e)
    ensures Next(s, e).log == s.log + Logged(s, e) && s.table.Keys <= Next(s, e).table.Keys
  {
    hide Offered, Drops, Matches;
    assert s.log + [] == s.log;
  }

  lemma LogKnownKept(s: State, e: Event)
    requires LogKnown(s) && Enabled(s, e)
    ensures LogKnown(Next(s, e))
  {
    hide Next;
    NextLog(s, e);
    var s' := Next(s, e);
    forall i, id | 0 <= i < |s'.log| && Mentions(s'.log[i], id) ensures id in s'.table {
      if i < |s.log| { assert s'.log[i] == s.log[i]; }
    }
  }

  lemma NoFaultKept(s: State, e: Event)
    requires Invariant(s) && Enabled(s, e)
    ensures !Next(s, e).fault
  {
    hide Books, Entitlement;
    if e.Unregister? || e.Offer? { assert ClientOk(s, e.id); }
  }

  lemma GlobalKept(s: State, e: Event)
    requires Invariant(s) && Enabled(s, e)
    ensures Global(Next(s, e))
  {
    hide Placed, LogKnown, Next, Enabled, ClientOk;
    PlacedKept(s, e);
    LogKnownKept(s, e);
    NoFaultKept(s, e);
  }

  predicate SameBooks(c: Client, d: Client) {
    && c.buffer == d.buffer && c.offered == d.offered && c.accepted == d.accepted && c.delivered == d.delivered
    && c.firstDrop == d.firstDrop
  }

  /** What a step does to one client's record: `c` becomes `d`. */
  predicate Moved(s: State, e: Event, id: ClientId, c: Client, d: Client) {
    && (c.closed ==> d.closed)
    && (if e == Offer(id) then s.phase.Sending? && d == Offered(c, s.phase.msg)
        else if e == Drain(id) then
          c.buffer != [] && d == c.(buffer := c.buffer[1..], delivered := c.delivered + [c.buffer[0]])
        else SameBooks(c, d))
  }

  lemma MovedByOffer(s: State, e: Event, id: ClientId)
    requires Enabled(s, e) && id in s.table && e.Offer?
    ensures Moved(s, e, id, s.table[id], Next(s, e).table[id])
  {
    hide Drops, Matches;
  }

  lemma MovedByUnregister(s: State, e: Event, id: ClientId)
    requires Enabled(s, e) && id in s.table && e.Unregister?
    ensures Moved(s, e, id, s.table[id], Next(s, e).table[id])
  {
    hide OfferedTo;
  }

  lemma MovedByPumps(s: State, e: Event, id: ClientId)
    requires Enabled(s, e) && id in s.table && (e.Exit? || e.Subscribe? || e.Drain?)
    ensures Moved(s, e, id, s.table[id], Next(s, e).table[id])
  {
    hide OfferedTo, Unregistered;
  }

  lemma NextClient(s: State, e: Event, id: ClientId)
    requires Enabled(s, e) && id in s.table
    ensures Moved(s, e, id, s.table[id], Next(s, e).table[id])
  {
    hide OfferedTo, Unregistered;
    if e.Offer? {
      MovedByOffer(s, e, id);
    } else if e.Unregister? {
      MovedByUnregister(s, e, id);
    } else if e.Exit? || e.Subscribe? || e.Drain? {
      MovedByPumps(s, e, id);
    } else {
      assert Next(s, e).table[id] == s.table[id];
    }
  }

  lemma BooksKept(s: State, e: Event, id: ClientId)
    requires Enabled(s, e) && id in s.table && Books(s.table[id])
    ensures Books(Next(s, e).table[id])
  {
    hide Subsequence, Next, Offered;
    NextClient(s, e, id);
    if e == Offer(id) { OfferKeepsBooks(s.table[id], s.phase.msg); }
    if e == Drain(id) { DrainKeepsBooks(s.table[id]); }
  }

  lemma LifecycleOffered(s: State, e: Event, id: ClientId)
    requires Placed(s) && Enabled(s, e) && id in s.table && Lifecycle(s, id) && e.Offer?
    ensures Lifecycle(Next(s, e), id)
  {
    hide Matches;
  }

  lemma LifecycleUnregistered(s: State, e: Event, id: ClientId)
    requires Enabled(s, e) && id in s.table && Lifecycle(s, id) && e.Unregister?
    ensures Lifecycle(Next(s, e), id)
  {
  }

  lemma LifecycleMoved(s: State, e: Event, id: ClientId)
    requires Enabled(s, e) && id in s.table && Lifecycle(s, id) && (e.Connect? || e.Register? || e.Exit?)
    ensures Lifecycle(Next(s, e), id)
  {
  }

  lemma LifecycleKept(s: State, e: Event, id: ClientId)
    requires Placed(s) && Enabled(s, e) && id in s.table && Lifecycle(s, id)
    ensures Lifecycle(Next(s, e), id)
  {
    hide OfferedTo, Unregistered;
    if e.Offer? {
      LifecycleOffered(s, e, id);
    } else if e.Unregister? {
      LifecycleUnregistered(s, e, id);
    } else if e.Connect? || e.Register? || e.Exit? {
      LifecycleMoved(s, e, id);
    }
  }

  lemma EntitlementLogged(s: State, e: Event, id: ClientId)
    requires Placed(s) && Enabled(s, e) && id in s.table && Entitlement(s, id)
    requires e.Register? || e.Begin? || e.Subscribe?
    ensures Entitlement(Next(s, e), id)
  {
    hide Present, FilterOf, Entitled, Wants;
    var c := s.table[id];
    LogGrows(s.log, Logged(s, e)[0], id, c.tenant, c.initial);
  }

  lemma EntitlementUnregistered(s: State, e: Event, id: ClientId)
    requires Placed(s) && Enabled(s, e) && id in s.table && Entitlement(s, id) && e.Unregister?
    ensures Entitlement(Next(s, e), id)
  {
    hide Present, FilterOf, Entitled, Wants;
    var c := s.table[id];
    LogGrows(s.log, Left(e.id), id, c.tenant, c.initial);
    assert Entitled(s.log, id, c.tenant, c.initial) + [] == Entitled(s.log, id, c.tenant, c.initial);
  }

  lemma EntitlementOffered(s: State, e: Event, id: ClientId)
    requires Global(s) && Enabled(s, e) && id in s.table && Lifecycle(s, id) && Entitlement(s, id) && e.Offer?
    ensures Entitlement(Next(s, e), id)
  {
    hide Present, FilterOf, Entitled, Wants;
    var c, m := s.table[id], s.phase.msg;
    if e.id == id && Matches(c, m) { assert (c.offered + [m]) + [] == c.offered + [m]; }
  }

  lemma EntitlementKept(s: State, e: Event, id: ClientId)
    requires Global(s) && Enabled(s, e) && id in s.table && Lifecycle(s, id) && Entitlement(s, id)
    ensures Entitlement(Next(s, e), id)
  {
    hide Present, FilterOf, Entitled, Wants, OfferedTo, Unregistered;
    if e.Register? || e.Begin? || e.Subscribe? {
      EntitlementLogged(s, e, id);
    } else if e.Unregister? {
      EntitlementUnregistered(s, e, id);
    } else if e.Offer? {
      EntitlementOffered(s, e, id);
    }
  }

  lemma ConnectKeeps(s: State, e: Event)
    requires Invariant(s) && Enabled(s, e) && e.Connect?
    ensures ClientOk(Next(s, e), e.id)
  {
    hide Present, FilterOf, Entitled;
    NotMentioned(s.log, e.id, e.tenant, e.devices);
  }

  lemma StepKeeps(s: State, e: Event)
    requires Invariant(s) && Enabled(s, e)
    ensures Invariant(Next(s, e))
  {
    hide Books, Entitlement, Lifecycle, Placed, LogKnown;
    var s' := Next(s, e);
    GlobalKept(s, e);
    forall id | id in s'.table ensures ClientOk(s', id) {
      if id in s.table {
        BooksKept(s, e, id);
        LifecycleKept(s, e, id);
        EntitlementKept(s, e, id);
      } else {
        ConnectKeeps(s, e);
      }
    }
  }

  /** Every reachable state satisfies the invariant. */
  lemma {:induction false} RunKeeps(es: seq<Event>)
    requires IsRun(es)
    ensures Invariant(At(es))
  {
    hide Invariant, Next, Enabled;
    if es == [] {
      StartHolds();
    } else {
      RunKeeps(es[..|es| - 1]);
      StepKeeps(At(es[..|es| - 1]), es[|es| - 1]);
    }
  }

  lemma StartHolds()
    ensures Invariant(START)
  {
  }

  // ----- safety -----

  /** In no interleaving does the hub send on a closed channel or close one twice. */
  lemma NeverFaults(es: seq<Event>)
    requires IsRun(es)
    ensures !At(es).fault
  {
    RunKeeps(es);
  }

  lemma ClosedIsOut(s: State, id: ClientId)
    requires Invariant(s) && id in s.table && s.table[id].closed
    ensures id !in s.clients && id !in s.registering
  {
    hide Books, Entitlement;
    assert ClientOk(s, id);
  }

  /** Once a client is removed its channel stays closed and it never comes back, whatever happens next. */
  lemma {:induction false} RemovedForGood(es: seq<Event>, n: nat, id: ClientId)
    requires n <= |es| && IsRun(es) && IsRun(es[..n]) && id in At(es[..n]).table && At(es[..n]).table[id].closed
    ensures id in At(es).table && At(es).table[id].closed
    ensures id !in At(es).clients && id !in At(es).registering
  {
    hide Invariant, Next, Enabled;
    if n == |es| {
      assert es[..n] == es;
    } else {
      assert es[..|es| - 1][..n] == es[..n];
      RemovedForGood(es[..|es| - 1], n, id);
      NextClient(At(es[..|es| - 1]), es[|es| - 1], id);
      NextLog(At(es[..|es| - 1]), es[|es| - 1]);
    }
    RunKeeps(es);
    ClosedIsOut(At(es), id);
  }

  /** After a drop an unregister stays pending until the client is removed. */
  lemma DroppedIsLeaving(es: seq<Event>, id: ClientId)
    requires IsRun(es) && id in At(es).table && At(es).table[id].firstDrop.Some?
    ensures At(es).table[id].closed || (id in At(es).clients && id in At(es).unregistering)
  {
    RunKeeps(es);
    assert ClientOk(At(es), id);
  }

  /** The loop took an unregister request of the client before its registration. */
  ghost predicate LeftBeforeJoining(es: seq<Event>, id: ClientId) {
    exists i, j :: 0 <= i < j < |es| && es[i] == Unregister(id) && es[j] == Register(id)
  }

  lemma NextMap(s: State, e: Event, id: ClientId)
    requires Enabled(s, e) && id in Next(s, e).clients
    ensures e != Unregister(id) && (e == Register(id) || id in s.clients)
  {
    hide Offered, Drops, Matches;
  }

  ghost predicate JoinedLast(es: seq<Event>, j: int, id: ClientId) {
    0 <= j < |es| && es[j] == Register(id) && forall k :: j < k < |es| ==> es[k] != Unregister(id)
  }

  /** A client in the map has been registered, and none of its unregister requests has been taken since. */
  lemma {:induction false} InMapJoined(es: seq<Event>, id: ClientId)
    requires IsRun(es) && id in At(es).clients
    ensures exists j :: JoinedLast(es, j, id)
  {
    hide Next, Enabled;
    if es != [] {
      var n := |es| - 1;
      NextMap(At(es[..n]), es[n], id);
      if es[n] == Register(id) {
        assert JoinedLast(es, n, id);
      } else {
        InMapJoined(es[..n], id);
        var j :| JoinedLast(es[..n], j, id);
        assert JoinedLast(es, j, id);
      }
    }
  }

  lemma NextHandled(s: State, e: Event, id: ClientId)
    requires Enabled(s, e) && id in Next(s, e).table
    ensures e == Unregister(id) ==> id in s.table
    ensures Next(s, e).table[id].handled ==
            (if id in s.table then s.table[id].handled else 0) + if e == Unregister(id) then 1 else 0
  {
    hide Drops, Matches;
  }

  /** The loop has taken an unregister request of a client exactly if its count says so. */
  lemma {:induction false} HandledExactly(es: seq<Event>, id: ClientId)
    requires IsRun(es)
    ensures Unregister(id) in es <==> id in At(es).table && At(es).table[id].handled > 0
  {
    hide Next, Enabled;
    if es != [] {
      var n := |es| - 1;
      HandledExactly(es[..n], id);
      NextLog(At(es[..n]), es[n]);
      if id in At(es).table {
        NextHandled(At(es[..n]), es[n], id);
      } else {
        NotTaken(At(es[..n]), es[n], id);
      }
      assert es == es[..n] + [es[n]];
    }
  }

  lemma NotTaken(s: State, e: Event, id: ClientId)
    requires Enabled(s, e) && id !in s.table
    ensures e != Unregister(id)
  {
  }

  /**
   A client whose read pump has exited is stranded in the map, with nothing pending to remove it, exactly when its one
   unregister request was taken before its registration, and it has never been too slow for a message.
   */
  lemma StrandedExactly(es: seq<Event>, id: ClientId)
    requires IsRun(es) && id in At(es).clients && id in At(es).table && At(es).table[id].exited
    ensures id !in At(es).unregistering <==> LeftBeforeJoining(es, id) && At(es).table[id].firstDrop.None?
  {
    hide IsRun, After, Books, Entitlement;
    RunKeeps(es);
    assert ClientOk(At(es), id);
    HandledExactly(es, id);
    InMapJoined(es, id);
    var j :| JoinedLast(es, j, id);
    if Unregister(id) in es {
      var i :| 0 <= i < |es| && es[i] == Unregister(id);
      assert !(j < i);
    }
  }

  lemma ExtendRun(es: seq<Event>, e: Event, s: State)
    requires After(es) == Some(s) && Enabled(s, e)
    ensures After(es + [e]) == Some(Next(s, e))
  {
    assert (es + [e])[..|es|] == es;
  }

  /** It happens: exit, unregister, and only then register. */
  lemma StrandedClient(tenant: string)
    ensures exists es :: IsRun(es) && var s := At(es);
              0 in s.table && 0 in s.clients && s.table[0].exited && s.unregistering == multiset{} && s.registering == {}
  {
    var e1, e2, e3, e4 := Connect(0, tenant, {}), Exit(0), Unregister(0), Register(0);
    var s1 := Next(START, e1);
    var s2 := Next(s1, e2);
    var s3 := Next(s2, e3);
    ExtendRun([], e1, START);
    ExtendRun([] + [e1], e2, s1);
    ExtendRun([] + [e1] + [e2], e3, s2);
    ExtendRun([] + [e1] + [e2] + [e3], e4, s3);
    assert At([] + [e1] + [e2] + [e3] + [e4]) == Next(s3, e4);
  }

  // ----- delivery -----

  /**
   What a client accepts is an in-order subsequence of the broadcasts it is entitled to; there is no gap between its
   registration and its first drop; and what its write pump hands on is an initial part of what it accepted.
   */
  lemma Delivery(es: seq<Event>, id: ClientId)
    requires IsRun(es) && id in At(es).table
    ensures var s := At(es);
            var c := s.table[id];
            var entitled := Entitled(s.log, id, c.tenant, c.initial);
            && Subsequence(c.accepted, entitled)
            && c.delivered <= c.accepted
            && (c.firstDrop.None? ==> c.accepted + Owed(s, id) == entitled)
            && (c.firstDrop.Some? ==> c.firstDrop.value < |entitled| && c.firstDrop.value <= |c.accepted|
                                      && c.accepted[..c.firstDrop.value] == entitled[..c.firstDrop.value])
  {
    hide Present, FilterOf, Entitled, IsRun, After, Subsequence;
    RunKeeps(es);
    var s := At(es);
    assert ClientOk(s, id);
    var c := s.table[id];
    SubsequenceWidens(c.accepted, c.offered, Owed(s, id));
    if c.firstDrop.Some? {
      assert (c.offered + Owed(s, id))[..c.firstDrop.value] == c.offered[..c.firstDrop.value];
    }
  }

  lemma {:induction false} SubsequenceWidens(a: seq<Msg>, b: seq<Msg>, c: seq<Msg>)
    requires Subsequence(a, b)
    ensures Subsequence(a, b + c)
  {
    hide Subsequence;
    if c == [] {
      assert b + c == b;
    } else {
      var n := |c| - 1;
      SubsequenceWidens(a, b, c[..n]);
      SubsequenceGrows(a, b + c[..n], c[n]);
      assert (b + c[..n]) + [c[n]] == b + c;
    }
  }

  // ----- tenants -----

  lemma {:induction false} SubsequenceMember(a: seq<Msg>, b: seq<Msg>, m: Msg)
    requires Subsequence(a, b) && m in a
    ensures m in b
  {
    if a != [] && b != [] {
      var x, y := a[..|a| - 1], b[..|b| - 1];
      if Subsequence(a, y) {
        SubsequenceMember(a, y, m);
      } else if m != a[|a| - 1] {
        assert m in x;
        SubsequenceMember(x, y, m);
      }
    }
  }

  lemma {:induction false} EntitledTenant(log: seq<Entry>, id: ClientId, tenant: string, initial: set<string>, m: Msg)
    requires m in Entitled(log, id, tenant, initial)
    ensures m.tenant == tenant && Sent(m) in log
  {
    if log != [] && m in Entitled(log[..|log| - 1], id, tenant, initial) {
      EntitledTenant(log[..|log| - 1], id, tenant, initial, m);
    }
  }

  lemma NewsIsPublished(s: State, e: Event, m: Msg)
    requires Enabled(s, e) && (m in Next(s, e).queue || Sent(m) in Next(s, e).log)
    ensures e == Publish(m) || m in s.queue || Sent(m) in s.log
  {
    hide Offered, Drops, Matches;
  }

  /** What is sent, or waits to be, was published. */
  lemma {:induction false} SentWasPublished(es: seq<Event>, m: Msg)
    requires IsRun(es) && (m in At(es).queue || Sent(m) in At(es).log)
    ensures Publish(m) in es
  {
    hide Next, Enabled;
    if es != [] {
      var n := |es| - 1;
      var s := At(es[..n]);
      NewsIsPublished(s, es[n], m);
      if m in s.queue || Sent(m) in s.log { SentWasPublished(es[..n], m); }
    }
  }

  /** A client accepts only messages published for its own tenant. */
  lemma OnlyOwnTenant(es: seq<Event>, id: ClientId, m: Msg)
    requires IsRun(es) && id in At(es).table && m in At(es).table[id].accepted
    ensures m.tenant == At(es).table[id].tenant && Publish(m) in es
  {
    hide IsRun, After, Entitled, Subsequence;
    var s := At(es);
    var c := s.table[id];
    Delivery(es, id);
    SubsequenceMember(c.accepted, Entitled(s.log, id, c.tenant, c.initial), m);
    EntitledTenant(s.log, id, c.tenant, c.initial, m);
    SentWasPublished(es, m);
  }
}
