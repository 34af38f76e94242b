/** Which messages reach which client, told by the events of a run alone. */
module HubDelivery {
  import opened Options
  import opened Hub

  // ----- the map, the filter and the closed channels after a run -----

  /** Registered, and no unregister request of it taken since. */
  ghost predicate JoinedBefore(es: seq<Event>, id: ClientId) {
    exists j :: JoinedLast(es, j, id)
  }

  predicate SetsFilter(e: Event, id: ClientId) { (e.Connect? || e.Subscribe?) && e.id == id }

  /** The filter the client connected with, or the last one it asked for. */
  ghost predicate FilterLast(es: seq<Event>, j: int, id: ClientId, devices: set<string>) {
    0 <= j < |es| && SetsFilter(es[j], id) && es[j].devices == devices && forall k :: j < k < |es| ==> !SetsFilter(es[k], id)
  }

  lemma NextInMap(s: State, e: Event, id: ClientId)
    requires Enabled(s, e)
    ensures id in Next(s, e).clients <==> e == Event.Register(id) || (id in s.clients && e != Event.Unregister(id))
  {
    hide Unregistered, OfferedTo;
    if e.Unregister? { MapByUnregister(s, e.id, id); }
    if e.Offer? { MapByOffer(s, e.id); }
  }

  lemma MapByUnregister(s: State, i: ClientId, id: ClientId)
    requires i in s.table
    ensures id in Unregistered(s, i).clients <==> id in s.clients && id != i
  {
  }

  lemma MapByOffer(s: State, i: ClientId)
    requires s.phase.Sending? && i in s.table
    ensures OfferedTo(s, i).clients == s.clients
  {
    hide Offered, Drops, Matches;
  }

  /** The clients in the hub's map. */
  lemma {:induction false} InMapExactly(es: seq<Event>, id: ClientId)
    requires IsRun(es)
    ensures id in At(es).clients <==> JoinedBefore(es, id)
  {
    hide Next, Enabled;
    if es != [] {
      var n := |es| - 1;
      InMapExactly(es[..n], id);
      NextInMap(At(es[..n]), es[n], id);
      if es[n] == Event.Register(id) { assert JoinedLast(es, n, id); }
      if JoinedBefore(es[..n], id) && es[n] != Event.Unregister(id) {
        var j :| JoinedLast(es[..n], j, id);
        assert JoinedLast(es, j, id);
      }
      if JoinedBefore(es, id) && es[n] != Event.Register(id) {
        var j :| JoinedLast(es, j, id);
        assert JoinedLast(es[..n], j, id);
      }
    }
  }

  /** What a step leaves of a client's tenant and filter. */
  predicate Settled(s: State, e: Event, id: ClientId, d: Client) {
    if e.Connect? && e.id == id then
      id !in s.table && d.devices == e.devices && d.tenant == e.tenant
    else
      && id in s.table && d.tenant == s.table[id].tenant && d.initial == s.table[id].initial
      && d.devices == if SetsFilter(e, id) then e.devices else s.table[id].devices
  }

  lemma FilterByOffer(s: State, e: Event, id: ClientId)
    requires Enabled(s, e) && id in Next(s, e).table && e.Offer?
    ensures Settled(s, e, id, Next(s, e).table[id])
  {
    hide Drops, Matches;
  }

  lemma FilterByUnregister(s: State, e: Event, id: ClientId)
    requires Enabled(s, e) && id in Next(s, e).table && e.Unregister?
    ensures Settled(s, e, id, Next(s, e).table[id])
  {
    hide OfferedTo;
  }

  lemma FilterByConnect(s: State, e: Event, id: ClientId)
    requires Enabled(s, e) && id in Next(s, e).table && e.Connect?
    ensures Settled(s, e, id, Next(s, e).table[id])
  {
  }

  lemma FilterByPumps(s: State, e: Event, id: ClientId)
    requires Enabled(s, e) && id in Next(s, e).table && (e.Subscribe? || e.Exit? || e.Drain?)
    ensures Settled(s, e, id, Next(s, e).table[id])
  {
  }

  lemma FilterByLoop(s: State, e: Event, id: ClientId)
    requires Enabled(s, e) && id in Next(s, e).table && (e.Register? || e.Publish? || e.Begin? || e.Finish?)
    ensures Settled(s, e, id, Next(s, e).table[id])
  {
  }

  lemma NextFilter(s: State, e: Event, id: ClientId)
    requires Enabled(s, e) && id in Next(s, e).table
    ensures Settled(s, e, id, Next(s, e).table[id])
  {
    hide Next, Enabled, Settled;
    match e
    case Offer(_) => FilterByOffer(s, e, id);
    case Unregister(_) => FilterByUnregister(s, e, id);
    case Connect(_, _, _) => FilterByConnect(s, e, id);
    case Subscribe(_, _) => FilterByPumps(s, e, id);
    case Exit(_) => FilterByPumps(s, e, id);
    case Drain(_) => FilterByPumps(s, e, id);
    case _ => FilterByLoop(s, e, id);
  }

  /** The filter and the tenant of a client. */
  lemma {:induction false} FilterExactly(es: seq<Event>, id: ClientId)
    requires IsRun(es) && id in At(es).table
    ensures exists j :: FilterLast(es, j, id, At(es).table[id].devices)
    ensures exists devices :: Connect(id, At(es).table[id].tenant, devices) in es
  {
    hide Next, Enabled;
    if es != [] {
      var n := |es| - 1;
      NextFilter(At(es[..n]), es[n], id);
      if SetsFilter(es[n], id) { assert FilterLast(es, n, id, es[n].devices); }
      if !es[n].Connect? || es[n].id != id {
        FilterExactly(es[..n], id);
        var j :| FilterLast(es[..n], j, id, At(es[..n]).table[id].devices);
        if !SetsFilter(es[n], id) { assert FilterLast(es, j, id, At(es).table[id].devices); }
        var devices :| Connect(id, At(es[..n]).table[id].tenant, devices) in es[..n];
        assert Connect(id, At(es).table[id].tenant, devices) in es;
      } else {
        assert Connect(id, At(es).table[id].tenant, es[n].devices) in es;
      }
    }
  }

  lemma FilterUnique(es: seq<Event>, i: int, j: int, id: ClientId, x: set<string>, y: set<string>)
    requires FilterLast(es, i, id, x) && FilterLast(es, j, id, y)
    ensures x == y
  {
  }

  // ----- what a client is due -----

  /**
   Moment `k` begins a broadcast for the client's tenant, while the client is in the map, of a device that its filter
   admits.
   */
  ghost predicate Due(es: seq<Event>, k: nat, id: ClientId, tenant: string) {
    && k < |es| && es[k].Begin? && es[k].msg.tenant == tenant
    && JoinedBefore(es[..k], id)
    && exists j, devices :: FilterLast(es[..k], j, id, devices) && (devices == {} || es[k].msg.device in devices)
  }

  /** The moments at which a client is due a message, in order, and the messages. */
  ghost predicate AllDue(es: seq<Event>, ks: seq<nat>, ms: seq<Msg>, id: ClientId, tenant: string) {
    && (forall i, j :: 0 <= i < j < |ks| ==> ks[i] < ks[j])
    && (forall k: nat :: k in ks <==> Due(es, k, id, tenant))
    && |ks| == |ms| && (forall i :: 0 <= i < |ks| ==> ks[i] < |es| && es[ks[i]] == Begin(ms[i]))
  }

  lemma DueBefore(es: seq<Event>, k: nat, id: ClientId, tenant: string)
    requires es != [] && k < |es| - 1
    ensures Due(es[..|es| - 1], k, id, tenant) <==> Due(es, k, id, tenant)
  {
    hide JoinedBefore, FilterLast;
    assert es[..|es| - 1][..k] == es[..k];
  }

  lemma DueInside(es: seq<Event>, k: nat, id: ClientId, tenant: string)
    ensures Due(es, k, id, tenant) ==> k < |es| && es[k].Begin?
  {
  }

  lemma AllDueGrows(es: seq<Event>, ks: seq<nat>, ms: seq<Msg>, id: ClientId, tenant: string)
    requires es != [] && AllDue(es[..|es| - 1], ks, ms, id, tenant)
    ensures !Due(es, |es| - 1, id, tenant) ==> AllDue(es, ks, ms, id, tenant)
    ensures Due(es, |es| - 1, id, tenant) && es[|es| - 1].Begin? ==>
              AllDue(es, ks + [|es| - 1], ms + [es[|es| - 1].msg], id, tenant)
  {
    hide JoinedBefore, FilterLast, Due;
    var n := |es| - 1;
    forall k: nat
      ensures k < n ==> (Due(es[..n], k, id, tenant) <==> Due(es, k, id, tenant))
      ensures k >= n ==> !Due(es[..n], k, id, tenant)
      ensures k > n ==> !Due(es, k, id, tenant)
    {
      DueInside(es, k, id, tenant);
      DueInside(es[..n], k, id, tenant);
      if k < n { DueBefore(es, k, id, tenant); }
    }
  }

  lemma DueNow(es: seq<Event>, id: ClientId)
    requires IsRun(es) && es != [] && id in At(es[..|es| - 1]).table
    ensures var n, s := |es| - 1, At(es[..|es| - 1]);
            Due(es, n, id, s.table[id].tenant) <==>
              && es[n].Begin? && es[n].msg.tenant == s.table[id].tenant && id in s.clients
              && (s.table[id].devices == {} || es[n].msg.device in s.table[id].devices)
  {
    hide Next, Enabled, JoinedBefore, FilterLast;
    var n := |es| - 1;
    InMapExactly(es[..n], id);
    FilterExactly(es[..n], id);
    var d := At(es[..n]).table[id].devices;
    var i :| FilterLast(es[..n], i, id, d);
    forall j, x | FilterLast(es[..n], j, id, x) ensures x == d { FilterUnique(es[..n], i, j, id, d, x); }
  }

  lemma EntitledStep(s: State, e: Event, id: ClientId)
    requires Invariant(s) && Enabled(s, e) && id in s.table
    ensures var c := s.table[id];
            Entitled(Next(s, e).log, id, c.tenant, c.initial) ==
            Entitled(s.log, id, c.tenant, c.initial) +
            if e.Begin? && e.msg.tenant == c.tenant && id in s.clients && (c.devices == {} || e.msg.device in c.devices)
            then [e.msg] else []
  {
    hide Entitled, Present, FilterOf, Books, Lifecycle, Next, Enabled;
    NextLog(s, e);
    assert ClientOk(s, id);
    var c := s.table[id];
    var added := Logged(s, e);
    if added == [] {
      assert s.log + [] == s.log;
    } else {
      LogGrows(s.log, added[0], id, c.tenant, c.initial);
      assert added == [added[0]];
    }
  }

  lemma {:induction false} TableGrows(es: seq<Event>, k: nat)
    requires IsRun(es) && k <= |es|
    ensures IsRun(es[..k]) && forall id | id in At(es[..k]).table :: id in At(es).table
  {
    hide Next, Enabled;
    if k == |es| {
      assert es[..k] == es;
    } else {
      var n := |es| - 1;
      assert es[..n][..k] == es[..k];
      TableGrows(es[..n], k);
      NextLog(At(es[..n]), es[n]);
    }
  }

  lemma NothingDue(es: seq<Event>, id: ClientId, tenant: string, k: nat)
    requires IsRun(es) && es != [] && id !in At(es[..|es| - 1]).table && !es[|es| - 1].Begin?
    ensures !Due(es, k, id, tenant)
  {
    hide After, Next, Enabled, FilterLast, JoinedBefore, LogKnown, ClientOk;
    if Due(es, k, id, tenant) {
      var n := |es| - 1;
      TableGrows(es, n);
      TableGrows(es[..n], k);
      assert es[..n][..k] == es[..k];
      InMapExactly(es[..k], id);
      RunKeeps(es[..k]);
    }
  }

  lemma NothingLogged(es: seq<Event>, id: ClientId, tenant: string, initial: set<string>)
    requires IsRun(es) && id !in At(es).table
    ensures Entitled(At(es).log, id, tenant, initial) == []
  {
    hide After, Entitled, ClientOk, Placed;
    RunKeeps(es);
    NotMentioned(At(es).log, id, tenant, initial);
  }

  /** The log of a run entitles a client to what the run says it is due. */
  lemma {:induction false} EntitledIsDue(es: seq<Event>, id: ClientId)
    requires IsRun(es) && id in At(es).table
    ensures var c := At(es).table[id];
            exists ks :: AllDue(es, ks, Entitled(At(es).log, id, c.tenant, c.initial), id, c.tenant)
  {
    hide Next, Enabled, Entitled, AllDue, Due, Invariant;
    assert es != [];
    var n := |es| - 1;
    var s, e := At(es[..n]), es[n];
    NextFilter(s, e, id);
    NextLog(s, e);
    if id in s.table {
      EntitledIsDue(es[..n], id);
      RunKeeps(es[..n]);
      EntitledStep(s, e, id);
      DueNow(es, id);
      var c := s.table[id];
      var before := Entitled(s.log, id, c.tenant, c.initial);
      var ks :| AllDue(es[..n], ks, before, id, c.tenant);
      AllDueGrows(es, ks, before, id, c.tenant);
      assert before + [] == before;
    } else {
      NotYet(es, id);
    }
  }

  lemma NotYet(es: seq<Event>, id: ClientId)
    requires IsRun(es) && es != [] && id in At(es).table && id !in At(es[..|es| - 1]).table
    ensures var c := At(es).table[id];
            AllDue(es, [], Entitled(At(es).log, id, c.tenant, c.initial), id, c.tenant)
  {
    hide Next, Enabled, Entitled, Due;
    var n := |es| - 1;
    var s, e, c := At(es[..n]), es[n], At(es).table[id];
    NextFilter(s, e, id);
    NextLog(s, e);
    NothingLogged(es[..n], id, c.tenant, c.initial);
    assert s.log + [] == s.log;
    forall k: nat ensures !Due(es, k, id, c.tenant) { NothingDue(es, id, c.tenant, k); }
  }

  /**
   What a client gets, in any run: the messages it is due, in order, and no others; all of them up to its first drop, which
   takes 256 messages that it has accepted and not handed on.
   */
  lemma DeliveredAsDue(es: seq<Event>, id: ClientId)
    requires IsRun(es) && id in At(es).table
    ensures var s := At(es);
            var c := s.table[id];
            exists ks, ms :: AllDue(es, ks, ms, id, c.tenant)
              && Subsequence(c.accepted, ms) && c.delivered <= c.accepted && |c.accepted| - |c.delivered| <= 256
              && (c.firstDrop.None? ==> c.accepted <= ms && |ms| - |c.accepted| <= if s.phase.Sending? then 1 else 0)
              && (c.firstDrop.Some? ==> 256 <= c.firstDrop.value < |ms| && c.firstDrop.value <= |c.accepted|
                                        && c.accepted[..c.firstDrop.value] == ms[..c.firstDrop.value])
  {
    hide After, Subsequence, Entitled, AllDue;
    Delivery(es, id);
    EntitledIsDue(es, id);
    BufferOf(es, id);
    var s := At(es);
    var c := s.table[id];
    var entitled := Entitled(s.log, id, c.tenant, c.initial);
    var ks :| AllDue(es, ks, entitled, id, c.tenant);
    assert AllDue(es, ks, entitled, id, c.tenant) && Subsequence(c.accepted, entitled);
  }

  lemma BufferOf(es: seq<Event>, id: ClientId)
    requires IsRun(es) && id in At(es).table
    ensures var c := At(es).table[id];
            && c.delivered + c.buffer == c.accepted && |c.buffer| <= 256
            && (c.firstDrop.Some? ==> c.firstDrop.value >= 256)
    ensures |Owed(At(es), id)| <= if At(es).phase.Sending? then 1 else 0
  {
    hide After, Subsequence, Entitlement, Lifecycle;
    RunKeeps(es);
    assert ClientOk(At(es), id);
  }

  // ----- one offer -----

  /**
   One turn of a broadcast, by a client's own numbers: with its tenant and a device it subscribes to, or no subscription, it
   gets the message if fewer than 256 wait and it is dropped otherwise; and nothing happens to it without them.
   */
  lemma OfferIs(s: State, id: ClientId)
    requires Invariant(s) && Enabled(s, Offer(id))
    ensures s.phase.Sending? && id in s.table && !s.table[id].closed
    ensures var c, m, s' := s.table[id], s.phase.msg, Next(s, Offer(id));
            var wanted := c.tenant == m.tenant && (|c.devices| == 0 || m.device in c.devices);
            && s'.table[id].buffer == c.buffer + (if wanted && |c.buffer| < 256 then [m] else [])
            && s'.unregistering[id] == s.unregistering[id] + (if wanted && |c.buffer| >= 256 then 1 else 0)
            && s'.clients == s.clients && s'.table[id].closed == c.closed
  {
    hide Books, Entitlement;
    assert ClientOk(s, id);
    var c := s.table[id];
    assert c.buffer + [] == c.buffer;
  }

  // ----- closed channels -----

  /** An unregister request was taken while the client was in the map. */
  ghost predicate TakenFromMap(es: seq<Event>, k: int, id: ClientId) {
    0 <= k < |es| && es[k] == Event.Unregister(id) && JoinedBefore(es[..k], id)
  }

  lemma OfferCloses(s: State, e: Event, id: ClientId)
    requires Enabled(s, e) && id in Next(s, e).table && e.Offer?
    ensures id in s.table && Next(s, e).table[id].closed == s.table[id].closed
  {
    hide Drops, Matches;
  }

  lemma UnregisterCloses(s: State, e: Event, id: ClientId)
    requires Enabled(s, e) && id in Next(s, e).table && e.Unregister?
    ensures id in s.table && Next(s, e).table[id].closed == (s.table[id].closed || (e.id == id && id in s.clients))
  {
    hide OfferedTo;
  }

  lemma NextClosed(s: State, e: Event, id: ClientId)
    requires Enabled(s, e) && id in Next(s, e).table
    ensures Next(s, e).table[id].closed <==>
            id in s.table && (s.table[id].closed || (e == Event.Unregister(id) && id in s.clients))
  {
    hide OfferedTo, Unregistered;
    if e.Offer? { OfferCloses(s, e, id); }
    if e.Unregister? { UnregisterCloses(s, e, id); }
  }

  /** A client's channel is closed exactly if the loop has taken an unregister request while it was in the map. */
  lemma {:induction false} ClosedExactly(es: seq<Event>, id: ClientId)
    requires IsRun(es) && id in At(es).table
    ensures At(es).table[id].closed <==> exists k :: TakenFromMap(es, k, id)
  {
    hide Next, Enabled, JoinedBefore;
    assert es != [];
    var n := |es| - 1;
    var s, e := At(es[..n]), es[n];
    NextClosed(s, e, id);
    InMapExactly(es[..n], id);
    if id in s.table {
      ClosedExactly(es[..n], id);
      forall k ensures k != n ==> (TakenFromMap(es, k, id) <==> TakenFromMap(es[..n], k, id)) {
        if 0 <= k < n { assert es[..n][..k] == es[..k]; }
      }
      if exists k :: TakenFromMap(es[..n], k, id) {
        var k :| TakenFromMap(es[..n], k, id);
        assert TakenFromMap(es, k, id);
      }
      if e == Event.Unregister(id) && id in s.clients { assert TakenFromMap(es, n, id); }
    } else {
      forall k ensures !TakenFromMap(es, k, id) { NeverTaken(es, id, k); }
    }
  }

  lemma NeverTaken(es: seq<Event>, id: ClientId, k: int)
    requires IsRun(es) && es != [] && id !in At(es[..|es| - 1]).table
    ensures !TakenFromMap(es, k, id)
  {
    hide After, Next, Enabled, JoinedBefore, LogKnown, ClientOk;
    if TakenFromMap(es, k, id) {
      var n := |es| - 1;
      TableGrows(es, n);
      TableGrows(es[..n], k);
      assert es[..n][..k] == es[..k];
      InMapExactly(es[..k], id);
      RunKeeps(es[..k]);
    }
  }

  /** Whatever the loop does next, it sends on no closed channel and closes none twice. */
  lemma SafeNext(es: seq<Event>, id: ClientId)
    requires IsRun(es)
    ensures Enabled(At(es), Offer(id)) ==> !At(es).table[id].closed
    ensures Enabled(At(es), Event.Unregister(id)) && id in At(es).clients ==> !At(es).table[id].closed
    ensures !At(es).fault
  {
    hide After, Books, Entitlement;
    RunKeeps(es);
    if id in At(es).table { assert ClientOk(At(es), id); }
  }

  // ----- it does happen -----

  /** A client subscribed to d1, while positions of d1 and of d2 are published, gets the first and hands it on. */
  lemma OneOfTwo(tenant: string)
    ensures exists es :: IsRun(es) && 0 in At(es).table && At(es).table[0].delivered == [Msg(tenant, "d1", "x")]
                         && Publish(Msg(tenant, "d2", "y")) in es && At(es).queue == multiset{} && At(es).phase.Waiting?
  {
    hide After, Next, Enabled, Offered;
    var a, b := Msg(tenant, "d1", "x"), Msg(tenant, "d2", "y");
    var c := Client(tenant, {"d1"}, [], false, false, {"d1"}, [], [], [], None, 0, 0);
    var c' := c.(buffer := [a], offered := [a], accepted := [a]);
    assert c' == Offered(c, a) && c' == Offered(c', b) by { FirstOnly(c, a, b); }
    var s := State(map[0 := c], {0}, {}, multiset{}, multiset{a, b}, Waiting, false, [Joined(0)]);
    var s' := s.(table := s.table[0 := c'], queue := s.queue - multiset{a}, log := s.log + [Sent(a)]);
    var s'' := s'.(table := s'.table[0 := c'], queue := s'.queue - multiset{b}, log := s'.log + [Sent(b)]);
    var es := Published(a, b, c);
    Sends(es, s, a, s');
    var es' := es + [Begin(a)] + [Offer(0)] + [Finish];
    assert b in s'.queue && s''.queue == multiset{};
    Sends(es', s', b, s'');
    var es'' := es' + [Begin(b)] + [Offer(0)] + [Finish];
    DrainsOne(es'', s'', a);
    var end := es'' + [Drain(0)];
    assert end[3] == Publish(b);
    assert IsRun(end);
  }

  lemma FirstOnly(c: Client, a: Msg, b: Msg)
    requires c.tenant == a.tenant == b.tenant && c.devices == {"d1"} && a.device == "d1" && b.device == "d2"
    requires c.buffer == c.offered == c.accepted == [] && !c.closed
    ensures Offered(c, a) == c.(buffer := [a], offered := [a], accepted := [a])
    ensures Offered(Offered(c, a), b) == Offered(c, a)
  {
    assert "d1"[1] != "d2"[1];
  }

  lemma DrainsOne(es: seq<Event>, s: State, m: Msg)
    requires After(es) == Some(s) && 0 in s.table && s.table[0].buffer == [m] && s.table[0].delivered == []
    ensures IsRun(es + [Drain(0)])
    ensures var s' := At(es + [Drain(0)]);
            0 in s'.table && s'.table[0].delivered == [m] && s'.queue == s.queue && s'.phase == s.phase
  {
    hide After;
    ExtendRun(es, Drain(0), s);
  }

  lemma Published(a: Msg, b: Msg, c: Client) returns (es: seq<Event>)
    requires c == NewClient(c.tenant, c.initial)
    ensures After(es) == Some(State(map[0 := c], {0}, {}, multiset{}, multiset{a, b}, Waiting, false, [Joined(0)]))
    ensures |es| == 4 && es[3] == Publish(b)
  {
    hide After;
    var connect := Connect(0, c.tenant, c.initial);
    var s1 := State(map[0 := c], {}, {0}, multiset{}, multiset{}, Waiting, false, []);
    var s2 := s1.(clients := {0}, registering := {}, log := [Joined(0)]);
    var s3 := s2.(queue := multiset{a});
    assert After([]) == Some(START) by { Nothing(); }
    assert Next(START, connect) == s1;
    ExtendRun([], connect, START);
    assert Next(s1, Event.Register(0)) == s2;
    ExtendRun([] + [connect], Event.Register(0), s1);
    assert Next(s2, Publish(a)) == s3;
    ExtendRun([] + [connect] + [Event.Register(0)], Publish(a), s2);
    assert multiset{a} + multiset{b} == multiset{a, b};
    ExtendRun([] + [connect] + [Event.Register(0)] + [Publish(a)], Publish(b), s3);
    es := [] + [connect] + [Event.Register(0)] + [Publish(a)] + [Publish(b)];
  }

  lemma Nothing()
    ensures After([]) == Some(START)
  {
  }

  lemma OneOffer(s: State, m: Msg, s': State)
    requires s.phase == Sending(m, {0}) && 0 in s.table && !s.table[0].closed && |s.table[0].buffer| < 256
    requires s' == s.(phase := Sending(m, {}), table := s.table[0 := Offered(s.table[0], m)])
    ensures Enabled(s, Offer(0)) && Next(s, Offer(0)) == s'
  {
    hide Offered;
    assert {0} - {0} == {};
  }

  /** One broadcast to the one client there is. */
  lemma Sends(es: seq<Event>, s: State, m: Msg, s': State)
    requires After(es) == Some(s) && s.phase.Waiting? && m in s.queue && s.clients == {0} && 0 in s.table
    requires !s.table[0].closed && |s.table[0].buffer| < 256
    requires s' == s.(table := s.table[0 := Offered(s.table[0], m)], queue := s.queue - multiset{m},
                      log := s.log + [Sent(m)])
    ensures After(es + [Begin(m)] + [Offer(0)] + [Finish]) == Some(s')
  {
    hide After, Offered, OfferedTo;
    var s1 := s.(queue := s.queue - multiset{m}, phase := Sending(m, {0}), log := s.log + [Sent(m)]);
    ExtendRun(es, Begin(m), s);
    var s2 := s'.(phase := Sending(m, {}));
    OneOffer(s1, m, s2);
    ExtendRun(es + [Begin(m)], Offer(0), s1);
    ExtendRun(es + [Begin(m)] + [Offer(0)], Finish, s2);
  }
}
