/** The hub as an object: the cases of its event loop and the calls the pumps make, each proved to be steps of Hub. */
module HubLoop {
  import opened Options
  import opened Hub
  import opened HubDelivery
  import opened Keys

  /** The devices named by a list. */
  function Named(names: seq<string>): set<string> { set d | d in names }

  /** The clients in the map, other than those still to come, that have no room for a message. */
  function Slow(s: State, todo: set<ClientId>, m: Msg): set<ClientId>
    requires s.clients <= s.table.Keys
  {
    set id | id in s.clients && id !in todo && Drops(s.table[id], m)
  }

  /** One of them matches the message and is closed. */
  ghost predicate HitsClosed(s: State, todo: set<ClientId>, m: Msg)
    requires s.clients <= s.table.Keys
  {
    exists id :: id in s.clients && id !in todo && Matches(s.table[id], m) && s.table[id].closed
  }

  /** The effect of a whole broadcast: every client in the map is offered the message once. */
  ghost function Broadcasted(s: State, m: Msg): State
    requires s.clients <= s.table.Keys
  {
    s.(table := map id | id in s.table :: if id in s.clients then Offered(s.table[id], m) else s.table[id],
       unregistering := s.unregistering + multiset(Slow(s, {}, m)),
       queue := s.queue - multiset{m},
       fault := s.fault || HitsClosed(s, {}, m),
       log := s.log + [Sent(m)])
  }

  /** The loop of a broadcast begun in state `s`, with the clients in `t.phase.todo` still to come. */
  ghost predicate Halfway(s: State, t: State, m: Msg) {
    && s.clients <= s.table.Keys
    && t.phase.Sending? && t.phase.msg == m && t.phase.todo <= s.clients
    && t.table.Keys == s.table.Keys
    && (forall id | id in s.table ::
          t.table[id] == if id in s.clients && id !in t.phase.todo then Offered(s.table[id], m) else s.table[id])
    && t.unregistering == s.unregistering + multiset(Slow(s, t.phase.todo, m))
    && (t.fault <==> s.fault || HitsClosed(s, t.phase.todo, m))
    && t.clients == s.clients && t.registering == s.registering
    && t.queue == s.queue - multiset{m} && t.log == s.log + [Sent(m)]
  }

  lemma StartOfLoop(s: State, m: Msg)
    requires Enabled(s, Begin(m)) && s.clients <= s.table.Keys
    ensures Halfway(s, Next(s, Begin(m)), m)
  {
    hide Offered, Drops, Matches;
    assert Slow(s, s.clients, m) == {};
  }

  lemma SlowGrows(s: State, todo: set<ClientId>, m: Msg, id: ClientId)
    requires s.clients <= s.table.Keys && todo <= s.clients && id in todo
    ensures multiset(Slow(s, todo - {id}, m)) ==
            multiset(Slow(s, todo, m)) + if Drops(s.table[id], m) then multiset{id} else multiset{}
    ensures HitsClosed(s, todo - {id}, m) <==>
            HitsClosed(s, todo, m) || (Matches(s.table[id], m) && s.table[id].closed)
  {
    hide Drops, Matches;
    if Drops(s.table[id], m) {
      assert Slow(s, todo - {id}, m) == Slow(s, todo, m) + {id};
    } else {
      assert Slow(s, todo - {id}, m) == Slow(s, todo, m);
    }
    if HitsClosed(s, todo, m) {
      var i :| i in s.clients && i !in todo && Matches(s.table[i], m) && s.table[i].closed;
      assert i !in todo - {id};
    }
  }

  lemma TurnOfLoop(s: State, t: State, m: Msg, id: ClientId)
    requires Halfway(s, t, m) && id in t.phase.todo && id in t.table
    ensures Halfway(s, OfferedTo(t, id), m)
    ensures OfferedTo(t, id).phase == Sending(m, t.phase.todo - {id}) && OfferedTo(t, id).table.Keys == t.table.Keys
  {
    hide Offered, Drops, Matches, Slow, HitsClosed;
    SlowGrows(s, t.phase.todo, m, id);
    assert t.table[id] == s.table[id];
  }

  lemma EndOfLoop(s: State, t: State, m: Msg)
    requires Halfway(s, t, m) && t.phase.todo == {} && s.phase.Waiting?
    ensures t.(phase := Waiting) == Broadcasted(s, m)
  {
    hide Offered, Slow, HitsClosed;
    assert t.table == Broadcasted(s, m).table;
  }

  // ----- a whole broadcast as a run -----

  function Offers(order: seq<ClientId>): seq<Event> { seq(|order|, i requires 0 <= i < |order| => Offer(order[i])) }

  ghost predicate Distinct(order: seq<ClientId>) { forall i, j :: 0 <= i < j < |order| ==> order[i] != order[j] }

  /** Each client of a set once. */
  ghost predicate Enumerates(order: seq<ClientId>, ids: set<ClientId>) {
    Distinct(order) && forall id :: id in order <==> id in ids
  }

  /** The steps of one broadcast that goes through the clients in the given order. */
  function Broadcasting(m: Msg, order: seq<ClientId>): seq<Event> { [Begin(m)] + Offers(order) + [Finish] }

  /** Part of the way through: the clients in `order` have had their turn. */
  ghost predicate PartWay(s: State, t: State, m: Msg, order: seq<ClientId>) {
    && Halfway(s, t, m)
    && (forall id :: id in t.phase.todo <==> id in s.clients && id !in order)
    && (forall id | id in order :: id in s.clients)
  }

  lemma NextTurn(s: State, t: State, m: Msg, order: seq<ClientId>, id: ClientId)
    requires PartWay(s, t, m, order) && t.phase.Sending? && id in t.phase.todo
    ensures Enabled(t, Offer(id))
    ensures var t' := Next(t, Offer(id));
            t'.phase == Sending(m, t.phase.todo - {id}) && PartWay(s, t', m, order + [id]) && id !in order
  {
    hide OfferedTo, Slow, HitsClosed, Offered;
    TurnOfLoop(s, t, m, id);
  }

  lemma StillToCome(s: State, t: State, m: Msg, order: seq<ClientId>, id: ClientId)
    requires PartWay(s, t, m, order) && id in s.clients && id !in order
    ensures t.phase.Sending? && id in t.phase.todo
  {
  }

  lemma NoOffers(es: seq<Event>, m: Msg)
    ensures es + [Begin(m)] == es + [Begin(m)] + Offers([])
  {
    assert Offers([]) == [];
  }

  lemma OneMoreOffer(es: seq<Event>, m: Msg, order: seq<ClientId>, id: ClientId)
    ensures es + [Begin(m)] + Offers(order + [id]) == es + [Begin(m)] + Offers(order) + [Offer(id)]
    ensures Distinct(order) && id !in order ==> Distinct(order + [id])
  {
    assert Offers(order + [id]) == Offers(order) + [Offer(id)];
  }

  lemma WholeBroadcast(es: seq<Event>, m: Msg, order: seq<ClientId>)
    ensures es + [Begin(m)] + Offers(order) + [Finish] == es + Broadcasting(m, order)
  {
    hide Offers;
  }

  lemma {:induction false} PartOfBroadcast(es: seq<Event>, s: State, m: Msg, order: seq<ClientId>, n: nat)
    requires After(es) == Some(s) && Enabled(s, Begin(m)) && Enumerates(order, s.clients)
    requires n <= |order|
    ensures var run := es + [Begin(m)] + Offers(order[..n]); IsRun(run) && PartWay(s, At(run), m, order[..n])
  {
    hide After, Halfway, Enabled, Next;
    if n == 0 {
      NoOffers(es, m);
      FirstOfBroadcast(es, s, m);
    } else {
      PartOfBroadcast(es, s, m, order, n - 1);
      var before := es + [Begin(m)] + Offers(order[..n - 1]);
      var id := order[n - 1];
      assert order[..n] == order[..n - 1] + [id];
      OneMoreOffer(es, m, order[..n - 1], id);
      StillToCome(s, At(before), m, order[..n - 1], id);
      NextTurn(s, At(before), m, order[..n - 1], id);
      ExtendRun(before, Offer(id), At(before));
    }
  }

  lemma FirstOfBroadcast(es: seq<Event>, s: State, m: Msg)
    requires After(es) == Some(s) && Enabled(s, Begin(m))
    ensures s.clients <= s.table.Keys
    ensures var run := es + [Begin(m)]; IsRun(run) && PartWay(s, At(run), m, [])
  {
    hide Halfway, After, Books, Entitlement, Lifecycle;
    RunKeeps(es);
    ExtendRun(es, Begin(m), s);
    StartOfLoop(s, m);
  }

  lemma LastOfBroadcast(es: seq<Event>, s: State, t: State, m: Msg, order: seq<ClientId>)
    requires After(es) == Some(t) && PartWay(s, t, m, order) && s.phase.Waiting? && Distinct(order)
    requires t.phase.Sending? ==> t.phase.todo == {}
    ensures s.clients <= s.table.Keys && t.(phase := Waiting) == Broadcasted(s, m) && Enumerates(order, s.clients)
    ensures After(es + [Finish]) == Some(Broadcasted(s, m))
  {
    hide After, Broadcasted, Slow, HitsClosed, Offered;
    EndOfLoop(s, t, m);
    ExtendRun(es, Finish, t);
  }

  lemma NoneToCome(s: State, t: State, m: Msg, order: seq<ClientId>)
    requires PartWay(s, t, m, order) && Enumerates(order, s.clients)
    ensures t.phase.Sending? && t.phase.todo == {}
  {
  }

  /**
   In any run, a broadcast that begins and goes through the clients in any order is a run too, and its end is the same
   whatever the order: every client in the map has been offered the message once.
   */
  lemma BroadcastIsRun(es: seq<Event>, m: Msg, order: seq<ClientId>)
    requires IsRun(es) && Enabled(At(es), Begin(m)) && Enumerates(order, At(es).clients)
    ensures At(es).clients <= At(es).table.Keys
    ensures IsRun(es + Broadcasting(m, order)) && At(es + Broadcasting(m, order)) == Broadcasted(At(es), m)
  {
    hide After, PartWay, Broadcasted, Enabled;
    var s := At(es);
    FirstOfBroadcast(es, s, m);
    PartOfBroadcast(es, s, m, order, |order|);
    assert order[..|order|] == order;
    var run := es + [Begin(m)] + Offers(order);
    BeginsWaiting(s, m);
    NoneToCome(s, At(run), m, order);
    LastOfBroadcast(run, s, At(run), m, order);
    WholeBroadcast(es, m, order);
  }

  lemma BeginsWaiting(s: State, m: Msg)
    requires Enabled(s, Begin(m))
    ensures s.phase.Waiting?
    ensures Next(s, Begin(m)) ==
            s.(queue := s.queue - multiset{m}, phase := Sending(m, s.clients), log := s.log + [Sent(m)])
  {
  }

  // ----- the object -----

  lemma UnregisterStep(s: State, id: ClientId)
    requires Enabled(s, Event.Unregister(id))
    ensures id in s.table
    ensures var c, here := s.table[id].(handled := s.table[id].handled + 1), id in s.clients;
            Next(s, Event.Unregister(id)) ==
            State(s.table[id := if here then c.(closed := true) else c], s.clients - {id}, s.registering,
                  s.unregistering - multiset{id}, s.queue, s.phase, s.fault || (here && c.closed),
                  if here then s.log + [Left(id)] else s.log)
  {
  }

  lemma OfferStep(s: State, id: ClientId)
    requires Enabled(s, Offer(id))
    ensures s.phase.Sending? && id in s.table && Next(s, Offer(id)) == OfferedTo(s, id)
  {
  }

  /**
   The hub. `history` is what has happened so far, and the object is in the state of that run; so what holds of every run
   holds of the object.
   */
  class Loop {
    var table: map<ClientId, Client>
    var clients: set<ClientId>
    var registering: set<ClientId>
    var unregistering: multiset<ClientId>
    var queue: multiset<Msg>
    var phase: Phase
    var fault: bool
    ghost var log: seq<Entry>
    ghost var history: seq<Event>

    ghost function Abs(): State
      reads this
    {
      State(table, clients, registering, unregistering, queue, phase, fault, log)
    }

    ghost predicate Valid()
      reads this
    {
      After(history) == Some(Abs())
    }

    constructor ()
      ensures Valid() && Abs() == START && history == []
    {
      table, clients, registering, unregistering, queue := map[], {}, {}, multiset{}, multiset{};
      phase, fault, log, history := Waiting, false, [], [];
    }

    /** What the object has just done is one more event of its history. */
    ghost method Record(e: Event, before: State)
      requires After(history) == Some(before) && Enabled(before, e) && Abs() == Next(before, e)
      modifies `history
      ensures Valid() && history == old(history) + [e]
    {
      hide After, Next, Enabled;
      ExtendRun(history, e, before);
      history := history + [e];
    }

    /** The object never sends on a closed channel nor closes one twice. */
    lemma SafeAlways()
      requires Valid()
      ensures !fault
    {
      NeverFaults(history);
    }

    /** What each client accepts is, in order, among the messages it is due; and all of them if none was dropped. */
    lemma DeliversInOrder(id: ClientId)
      requires Valid() && id in table
      ensures exists ks, ms :: AllDue(history, ks, ms, id, table[id].tenant) && Subsequence(table[id].accepted, ms)
                               && (table[id].firstDrop.None? && phase.Waiting? ==> table[id].accepted == ms)
      ensures forall m | m in table[id].accepted :: m.tenant == table[id].tenant && Publish(m) in history
    {
      hide After, Subsequence, AllDue;
      DeliveredAsDue(history, id);
      forall m | m in table[id].accepted ensures m.tenant == table[id].tenant && Publish(m) in history {
        OnlyOwnTenant(history, id, m);
      }
    }

    method DeviceSet(names: seq<string>) returns (devices: set<string>)
      ensures devices == Named(names) && forall d :: d in devices <==> d in names
    {
      devices := {};
      for i := 0 to |names|
        invariant devices == Named(names[..i])
      {
        assert names[..i + 1] == names[..i] + [names[i]];
        devices := devices + {names[i]};
      }
      assert names[..|names|] == names;
    }

    /** `id` stands for the newly allocated client. */
    method Register(id: ClientId, tenant: string, deviceFilter: seq<string>)
      requires Valid() && id !in table
      modifies this
      ensures Valid() && history == old(history) + [Connect(id, tenant, Named(deviceFilter))]
    {
      hide After;
      ghost var s := Abs();
      var devices := DeviceSet(deviceFilter);
      table := table[id := NewClient(tenant, devices)];
      registering := registering + {id};
      Record(Connect(id, tenant, devices), s);
    }

    /** The read pump's last call. */
    method Unregister(id: ClientId)
      requires Valid() && Enabled(Abs(), Exit(id))
      modifies this
      ensures Valid() && history == old(history) + [Exit(id)]
    {
      hide After;
      ghost var s := Abs();
      table := table[id := table[id].(exited := true)];
      unregistering := unregistering + multiset{id};
      Record(Exit(id), s);
    }

    method Broadcast(m: Msg)
      requires Valid()
      modifies this
      ensures Valid() && history == old(history) + [Publish(m)]
    {
      hide After;
      ghost var s := Abs();
      queue := queue + multiset{m};
      Record(Publish(m), s);
    }

    method SubscribeTo(id: ClientId, names: seq<string>)
      requires Valid() && Enabled(Abs(), Subscribe(id, Named(names)))
      modifies this
      ensures Valid() && history == old(history) + [Subscribe(id, Named(names))]
    {
      hide After;
      ghost var s := Abs();
      var devices := DeviceSet(names);
      table := table[id := table[id].(devices := devices)];
      log := log + [Filtered(id, devices)];
      Record(Subscribe(id, devices), s);
    }

    method RunRegister(id: ClientId)
      requires Valid() && Enabled(Abs(), Event.Register(id))
      modifies this
      ensures Valid() && history == old(history) + [Event.Register(id)]
    {
      hide After;
      ghost var s := Abs();
      registering := registering - {id};
      clients := clients + {id};
      log := log + [Joined(id)];
      Record(Event.Register(id), s);
    }

    method RunUnregister(id: ClientId)
      requires Valid() && Enabled(Abs(), Event.Unregister(id))
      modifies this
      ensures Valid() && history == old(history) + [Event.Unregister(id)]
    {
      hide After, Next, Enabled;
      ghost var s := Abs();
      UnregisterStep(s, id);
      var c := table[id];
      unregistering := unregistering - multiset{id};
      c := c.(handled := c.handled + 1);
      if id in clients {
        clients := clients - {id};
        fault := fault || c.closed;
        c := c.(closed := true);
        log := log + [Left(id)];
      }
      table := table[id := c];
      Record(Event.Unregister(id), s);
    }

    /** One turn of the loop over the clients. */
    method OfferTo(id: ClientId)
      requires Valid() && Enabled(Abs(), Offer(id))
      modifies this
      ensures Valid() && history == old(history) + [Offer(id)] && Abs() == Next(old(Abs()), Offer(id))
    {
      hide After, Next, Enabled;
      ghost var s := Abs();
      OfferStep(s, id);
      var c, m := table[id], phase.msg;
      phase := Sending(m, phase.todo - {id});
      if c.tenant == m.tenant && !(|c.devices| > 0 && m.device !in c.devices) {
        if c.closed {
          fault := true;
        } else if |c.buffer| < CAPACITY {
          c := c.(buffer := c.buffer + [m], accepted := c.accepted + [m], offered := c.offered + [m]);
        } else {
          c := c.(offered := c.offered + [m], drops := c.drops + 1,
                  firstDrop := if c.firstDrop.None? then Some(|c.offered|) else c.firstDrop);
          unregistering := unregistering + multiset{id};
        }
      }
      table := table[id := c];
      Record(Offer(id), s);
    }

    /** The broadcast case: begin, one offer to every client in the map, in whatever order it is walked, and finish. */
    method RunBroadcast(m: Msg)
      requires Valid() && Enabled(Abs(), Begin(m))
      modifies this
      ensures Valid() && old(clients) <= old(table).Keys && Abs() == Broadcasted(old(Abs()), m)
      ensures exists order :: Enumerates(order, old(clients)) && history == old(history) + Broadcasting(m, order)
    {
      hide Broadcasted, PartWay, After, Next, Offers, Enabled, Enumerates, Halfway;
      ghost var s, es, order: seq<ClientId> := Abs(), history, [];
      FirstOfBroadcast(es, s, m);
      BeginsWaiting(s, m);
      queue := queue - multiset{m};
      phase := Sending(m, clients);
      log := log + [Sent(m)];
      Record(Begin(m), s);
      NoOffers(es, m);
      while phase.Sending? && phase.todo != {}
        invariant Valid() && PartWay(s, Abs(), m, order)
        invariant history == es + [Begin(m)] + Offers(order)
        invariant Distinct(order)
        decreases if phase.Sending? then phase.todo else {}
      {
        ghost var t := Abs();
        var id :| id in phase.todo;
        NextTurn(s, t, m, order, id);
        OfferTo(id);
        OneMoreOffer(es, m, order, id);
        order := order + [id];
      }
      LastOfBroadcast(history, s, Abs(), m, order);
      phase := Waiting;
      history := history + [Finish];
      WholeBroadcast(es, m, order);
    }

    /** The write pump takes one message. */
    method WriteOne(id: ClientId) returns (m: Msg)
      requires Valid() && Enabled(Abs(), Drain(id))
      modifies this
      ensures Valid() && history == old(history) + [Drain(id)]
      ensures m == old(table[id].buffer[0])
    {
      ExtendRun(history, Drain(id), Abs());
      var c := table[id];
      m := c.buffer[0];
      table := table[id := c.(buffer := c.buffer[1..], delivered := c.delivered + [m])];
      history := history + [Drain(id)];
    }
  }

  // ----- from Redis channels to tenants -----

  /** A payload and the device id its JSON names ("" if none). */
  datatype Payload = Payload(device: string, data: string)

  /** What is broadcast for a message on a channel, if anything. */
  function Routed(channel: string, p: Payload): Option<Msg> {
    if |channel| > |KeyPubSubDevice("")| then Some(Msg(channel[|KeyPubSubDevice("")|..], p.device, p.data)) else None
  }

  method HandleMessage(loop: Loop, channel: string, p: Payload)
    requires loop.Valid()
    modifies loop
    ensures loop.Valid()
    ensures match Routed(channel, p)
            case None => loop.history == old(loop.history)
            case Some(m) => loop.history == old(loop.history) + [Publish(m)]
  {
    var tenantID, deviceID := "", "";
    if |channel| > |KeyPubSubDevice("")| {
      tenantID := channel[|KeyPubSubDevice("")|..];
    } else {
      return;
    }
    deviceID := p.device;
    loop.Broadcast(Msg(tenantID, deviceID, p.data));
  }

  /** Both kinds of channel give back the tenant they were made for, and only the empty tenant is dropped. */
  lemma RoutedToItsTenant(tenant: string, p: Payload)
    ensures Routed(KeyPubSubDevice(tenant), p) == if tenant == "" then None else Some(Msg(tenant, p.device, p.data))
    ensures Routed(KeyPubSubAlerts(tenant), p) == Routed(KeyPubSubDevice(tenant), p)
  {
    assert |DEVICE_PREFIX| == 14 && |ALERT_PREFIX| == 14;
    assert DEVICE_PREFIX + "" == DEVICE_PREFIX;
    assert KeyPubSubDevice(tenant)[14..] == tenant && KeyPubSubAlerts(tenant)[14..] == tenant;
  }

  /** A position published for a tenant is accepted only by clients registered under that tenant, in every run. */
  lemma PositionStaysInTenant(es: seq<Event>, id: ClientId, tenant: string, p: Payload)
    requires IsRun(es) && id in At(es).table
    requires Routed(KeyPubSubDevice(tenant), p).Some?
    requires Routed(KeyPubSubDevice(tenant), p).value in At(es).table[id].accepted
    ensures At(es).table[id].tenant == tenant
    ensures Publish(Routed(KeyPubSubDevice(tenant), p).value) in es
  {
    hide IsRun, After;
    RoutedToItsTenant(tenant, p);
    OnlyOwnTenant(es, id, Routed(KeyPubSubDevice(tenant), p).value);
  }
}
