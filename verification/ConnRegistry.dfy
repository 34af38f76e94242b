/**
 The registry of device connections under reconnects. Every accepted connection has its own handler; handlers share the
 registry, and a handler leaves by unregistering its device (not its connection) and then closing its connection.
 */
module ConnRegistry {
  import opened Options

  type ConnId = nat

  /** The connection a registration pushes out, which it closes. */
  function PushedOut(conns: map<string, ConnId>, device: string): set<ConnId> {
    if device in conns then {conns[device]} else {}
  }

  // ----- all handlers together -----

  /** Where a connection's handler is; both deferred calls run on the way from Serving to Gone. */
  datatype Handler = Authenticating | Refused | Serving(device: string) | Leaving(device: string) | Gone

  datatype Event =
    | Accept(conn: ConnId)
    | AuthFailed(conn: ConnId)
    | Register(conn: ConnId, device: string)
    | Unregister(conn: ConnId)
    | Close(conn: ConnId)

  /** What has been done to the registry, oldest first. */
  datatype Entry = Registered(device: string, conn: ConnId) | Unregistered(device: string, conn: ConnId)

  datatype World = World(
    conns: map<string, ConnId>, closed: set<ConnId>, handlers: map<ConnId, Handler>, log: seq<Entry>)

  const START := World(map[], {}, map[], [])

  predicate Enabled(w: World, e: Event) {
    match e
    case Accept(c) => c !in w.handlers
    case AuthFailed(c) => c in w.handlers && w.handlers[c].Authenticating?
    case Register(c, _) => c in w.handlers && w.handlers[c].Authenticating?
    case Unregister(c) => c in w.handlers && w.handlers[c].Serving?
    case Close(c) => c in w.handlers && (w.handlers[c].Leaving? || w.handlers[c].Refused?)
  }

  function Next(w: World, e: Event): World
    requires Enabled(w, e)
  {
    match e
    case Accept(c) => w.(handlers := w.handlers[c := Authenticating])
    case AuthFailed(c) => w.(handlers := w.handlers[c := Refused])
    case Register(c, d) =>
      World(w.conns[d := c], w.closed + PushedOut(w.conns, d), w.handlers[c := Serving(d)], w.log + [Registered(d, c)])
    case Unregister(c) =>
      var d := w.handlers[c].device;
      w.(conns := w.conns - {d}, handlers := w.handlers[c := Leaving(d)], log := w.log + [Unregistered(d, c)])
    case Close(c) => w.(closed := w.closed + {c}, handlers := w.handlers[c := Gone])
  }

  /** The state after a sequence of events, if each was possible when it happened. */
  function After(es: seq<Event>): Option<World> {
    if es == [] then Some(START)
    else
      var before, e := After(es[..|es| - 1]), es[|es| - 1];
      if before.Some? && Enabled(before.value, e) then Some(Next(before.value, e)) else None
  }

  predicate IsRun(es: seq<Event>) { After(es).Some? }

  function State(es: seq<Event>): World
    requires IsRun(es)
  {
    After(es).value
  }

  // ----- what the log says -----

  /** The connection a device has according to the last entry about it. */
  function Current(log: seq<Entry>, device: string): Option<ConnId> {
    if log == [] then None
    else if log[|log| - 1].device == device then
      match log[|log| - 1]
      case Registered(_, c) => Some(c)
      case Unregistered(_, _) => None
    else Current(log[..|log| - 1], device)
  }

  /** The connections that were current when another one registered for their device. */
  function Displaced(log: seq<Entry>): set<ConnId> {
    if log == [] then {}
    else
      var before := log[..|log| - 1];
      var e := log[|log| - 1];
      Displaced(before) +
      if e.Registered? && Current(before, e.device).Some? then {Current(before, e.device).value} else {}
  }

  predicate RegisteredAt(log: seq<Entry>, i: int, device: string, conn: ConnId) {
    0 <= i < |log| && log[i] == Registered(device, conn)
  }

  // ----- the invariant -----

  ghost predicate LogAgrees(w: World) {
    && (forall d :: d in w.conns <==> Current(w.log, d).Some?)
    && (forall d | d in w.conns :: Current(w.log, d) == Some(w.conns[d]))
  }

  ghost predicate RegisteredAreServed(w: World) {
    forall d | d in w.conns ::
      w.conns[d] in w.handlers && w.handlers[w.conns[d]] == Serving(d) && w.conns[d] !in w.closed
  }

  ghost predicate ClosedExactly(w: World) {
    forall c :: c in w.closed <==> c in Displaced(w.log) || (c in w.handlers && w.handlers[c].Gone?)
  }

  predicate Started(h: Handler) { !h.Authenticating? && !h.Refused? }

  /** Entries belong to handlers that have got that far. */
  ghost predicate EntriesStarted(w: World) {
    forall i | 0 <= i < |w.log| ::
      && w.log[i].conn in w.handlers
      && Started(w.handlers[w.log[i].conn])
      && (w.log[i].Unregistered? ==>
            w.handlers[w.log[i].conn] == Leaving(w.log[i].device) || w.handlers[w.log[i].conn].Gone?)
  }

  ghost predicate RegisteredBefore(log: seq<Entry>, i: int, device: string, conn: ConnId) {
    exists k :: k < i && RegisteredAt(log, k, device, conn)
  }

  /** An unregistration follows its own registration. */
  ghost predicate Paired(w: World) {
    forall i | 0 <= i < |w.log| && w.log[i].Unregistered? ::
      RegisteredBefore(w.log, i, w.log[i].device, w.log[i].conn)
  }

  ghost predicate ServingLogged(w: World) {
    forall c | c in w.handlers && w.handlers[c].Serving? :: RegisteredBefore(w.log, |w.log|, w.handlers[c].device, c)
  }

  ghost predicate RegistersOnce(log: seq<Entry>) {
    forall i, j, c, d, d' :: RegisteredAt(log, i, d, c) && RegisteredAt(log, j, d', c) ==> i == j
  }

  ghost predicate LogJustified(w: World) {
    EntriesStarted(w) && Paired(w) && ServingLogged(w) && RegistersOnce(w.log)
  }

  ghost predicate Invariant(w: World) {
    LogAgrees(w) && RegisteredAreServed(w) && ClosedExactly(w) && LogJustified(w)
  }

  lemma {:induction false} CurrentMentioned(log: seq<Entry>, device: string)
    requires Current(log, device).Some?
    ensures exists i :: RegisteredAt(log, i, device, Current(log, device).value)
  {
    var n := |log| - 1;
    if log[n].device == device {
      assert RegisteredAt(log, n, device, log[n].conn);
    } else {
      CurrentMentioned(log[..n], device);
      var i :| RegisteredAt(log[..n], i, device, Current(log, device).value);
      assert RegisteredAt(log, i, device, Current(log, device).value);
    }
  }

  /** A displaced connection registered, and another one registered for its device later. */
  lemma {:induction false} DisplacedLater(log: seq<Entry>, c: ConnId)
    requires c in Displaced(log)
    ensures exists k, n, d, c' :: k < n && RegisteredAt(log, k, d, c) && RegisteredAt(log, n, d, c')
  {
    var m := |log| - 1;
    if c in Displaced(log[..m]) {
      DisplacedLater(log[..m], c);
      var k, n, d, c' :| k < n && RegisteredAt(log[..m], k, d, c) && RegisteredAt(log[..m], n, d, c');
      assert RegisteredAt(log, k, d, c) && RegisteredAt(log, n, d, c');
    } else {
      var d := log[m].device;
      CurrentMentioned(log[..m], d);
      var k :| RegisteredAt(log[..m], k, d, c);
      assert RegisteredAt(log, k, d, c) && RegisteredAt(log, m, d, log[m].conn);
    }
  }

  lemma LogGrows(log: seq<Entry>, e: Entry)
    ensures Displaced(log + [e]) == Displaced(log) +
            if e.Registered? && Current(log, e.device).Some? then {Current(log, e.device).value} else {}
    ensures forall d :: Current(log + [e], d) ==
                        if d != e.device then Current(log, d) else if e.Registered? then Some(e.conn) else None
  {
    assert (log + [e])[..|log|] == log;
  }

  lemma BeforeGrows(log: seq<Entry>, e: Entry, i: int, device: string, conn: ConnId)
    requires RegisteredBefore(log, i, device, conn)
    ensures RegisteredBefore(log + [e], i, device, conn)
    ensures RegisteredBefore(log + [e], |log| + 1, device, conn)
  {
    var k :| k < i && RegisteredAt(log, k, device, conn);
    assert RegisteredAt(log + [e], k, device, conn);
  }

  lemma OnceGrows(w: World, e: Entry)
    requires EntriesStarted(w) && RegistersOnce(w.log)
    requires e.Registered? ==> e.conn in w.handlers && w.handlers[e.conn].Authenticating?
    ensures RegistersOnce(w.log + [e])
  {
    var log := w.log + [e];
    forall i, j, c, d, d' | RegisteredAt(log, i, d, c) && RegisteredAt(log, j, d', c) ensures i == j {
      if i < |w.log| { assert RegisteredAt(w.log, i, d, c) && w.log[i].conn == c; }
      if j < |w.log| { assert RegisteredAt(w.log, j, d', c) && w.log[j].conn == c; }
    }
  }

  lemma PairedGrows(w: World, w': World, e: Entry)
    requires Paired(w) && w'.log == w.log + [e]
    requires e.Unregistered? ==> RegisteredBefore(w.log, |w.log|, e.device, e.conn)
    ensures Paired(w')
  {
    hide RegisteredBefore;
    forall i | 0 <= i < |w'.log| && w'.log[i].Unregistered?
      ensures RegisteredBefore(w'.log, i, w'.log[i].device, w'.log[i].conn)
    {
      BeforeGrows(w.log, e, i, w'.log[i].device, w'.log[i].conn);
    }
  }

  lemma ServingGrows(w: World, w': World, e: Entry)
    requires ServingLogged(w) && w'.log == w.log + [e] && w'.handlers.Keys == w.handlers.Keys
    requires forall c | c in w.handlers && c != e.conn :: w'.handlers[c] == w.handlers[c]
    requires e.conn in w.handlers && (e.Registered? ==> w'.handlers[e.conn] == Serving(e.device))
    requires e.Unregistered? ==> !w'.handlers[e.conn].Serving?
    ensures ServingLogged(w')
  {
    forall c | c in w'.handlers && w'.handlers[c].Serving?
      ensures RegisteredBefore(w'.log, |w'.log|, w'.handlers[c].device, c)
    {
      if c == e.conn {
        assert RegisteredAt(w'.log, |w.log|, e.device, c);
      } else {
        BeforeGrows(w.log, e, |w.log|, w.handlers[c].device, c);
      }
    }
  }

  lemma AuthenticatingIsOpen(w: World, c: ConnId)
    requires Invariant(w) && c in w.handlers && w.handlers[c].Authenticating?
    ensures c !in w.closed && forall d | d in w.conns :: w.conns[d] != c
  {
    hide Current, Displaced;
    if c in Displaced(w.log) { DisplacedLater(w.log, c); }
  }

  lemma RegisterKeepsTable(w: World, c: ConnId, d: string)
    requires Invariant(w) && Enabled(w, Register(c, d))
    ensures LogAgrees(Next(w, Register(c, d))) && RegisteredAreServed(Next(w, Register(c, d)))
  {
    hide Current, Displaced, LogJustified, ClosedExactly;
    AuthenticatingIsOpen(w, c);
    LogGrows(w.log, Registered(d, c));
  }

  lemma RegisterKeepsClosed(w: World, c: ConnId, d: string)
    requires Invariant(w) && Enabled(w, Register(c, d))
    ensures ClosedExactly(Next(w, Register(c, d)))
  {
    hide Current, Displaced, LogJustified, RegisteredAreServed;
    LogGrows(w.log, Registered(d, c));
  }

  lemma RegisterKeeps(w: World, c: ConnId, d: string)
    requires Invariant(w) && Enabled(w, Register(c, d))
    ensures Invariant(Next(w, Register(c, d)))
  {
    hide LogAgrees, RegisteredAreServed, ClosedExactly, Paired, ServingLogged, RegistersOnce;
    var w' := Next(w, Register(c, d));
    RegisterKeepsTable(w, c, d);
    RegisterKeepsClosed(w, c, d);
    OnceGrows(w, Registered(d, c));
    PairedGrows(w, w', Registered(d, c));
    ServingGrows(w, w', Registered(d, c));
    assert EntriesStarted(w');
  }

  lemma UnregisterKeeps(w: World, c: ConnId)
    requires Invariant(w) && Enabled(w, Unregister(c))
    ensures Invariant(Next(w, Unregister(c)))
  {
    hide Current, Displaced, Paired, RegistersOnce, RegisteredBefore;
    var w' := Next(w, Unregister(c));
    var e := Unregistered(w.handlers[c].device, c);
    LogGrows(w.log, e);
    assert LogAgrees(w') && RegisteredAreServed(w');
    assert ClosedExactly(w');
    OnceGrows(w, e);
    PairedGrows(w, w', e);
    ServingGrows(w, w', e);
    assert EntriesStarted(w');
  }

  lemma OthersKeep(w: World, e: Event)
    requires Invariant(w) && Enabled(w, e) && !e.Register? && !e.Unregister?
    ensures Invariant(Next(w, e))
  {
    hide Current, Displaced, RegisteredBefore, RegistersOnce;
    var w' := Next(w, e);
    assert LogAgrees(w') && RegisteredAreServed(w');
    assert ClosedExactly(w');
    assert EntriesStarted(w') && Paired(w') && ServingLogged(w');
  }

  /** Every state of every interleaving satisfies the invariant. */
  lemma {:induction false} RunKeeps(es: seq<Event>)
    requires IsRun(es)
    ensures Invariant(State(es))
  {
    hide Invariant, Next, Enabled;
    if es == [] {
      StartHolds();
    } else {
      RunKeeps(es[..|es| - 1]);
      var w, e := State(es[..|es| - 1]), es[|es| - 1];
      match e
      case Register(c, d) => RegisterKeeps(w, c, d);
      case Unregister(c) => UnregisterKeeps(w, c);
      case _ => OthersKeep(w, e);
    }
  }

  lemma StartHolds()
    ensures Invariant(START)
  {
  }

  // ----- what the registry guarantees -----

  /**
   A registered connection is open as far as the server is concerned and its handler has not unregistered; and the server
   has closed exactly the displaced connections and those whose handler has finished.
   */
  lemma RegisteredIsOpen(es: seq<Event>)
    requires IsRun(es)
    ensures var w := State(es);
            && (forall d | d in w.conns :: w.conns[d] in w.handlers && w.handlers[w.conns[d]] == Serving(d)
                                           && w.conns[d] !in w.closed)
            && (forall c :: c in w.closed <==> c in Displaced(w.log) || (c in w.handlers && w.handlers[c].Gone?))
  {
    RunKeeps(es);
  }

  /** `conn` is the last connection to have registered for `device`. */
  ghost predicate Latest(log: seq<Entry>, i: int, device: string, conn: ConnId) {
    RegisteredAt(log, i, device, conn) && forall j, c :: i < j ==> !RegisteredAt(log, j, device, c)
  }

  ghost predicate UnregisteredAfter(log: seq<Entry>, i: int, device: string, other: ConnId) {
    exists j :: 0 <= j < |log| && i < j && log[j] == Unregistered(device, other)
  }

  lemma {:induction false} CurrentAfterLatest(log: seq<Entry>, i: int, device: string, conn: ConnId)
    requires Latest(log, i, device, conn)
    ensures Current(log, device) == if exists other :: UnregisteredAfter(log, i, device, other) then None else Some(conn)
  {
    var n := |log| - 1;
    if i < n && log[n].device == device {
      assert !RegisteredAt(log, n, device, log[n].conn);
      assert UnregisteredAfter(log, i, device, log[n].conn);
    } else if i < n {
      assert forall j, c :: RegisteredAt(log[..n], j, device, c) ==> RegisteredAt(log, j, device, c);
      CurrentAfterLatest(log[..n], i, device, conn);
      forall other ensures UnregisteredAfter(log[..n], i, device, other) <==> UnregisteredAfter(log, i, device, other) {
        if UnregisteredAfter(log, i, device, other) {
          var j :| 0 <= j < |log| && i < j && log[j] == Unregistered(device, other);
          assert log[..n][j] == log[j];
        }
        if UnregisteredAfter(log[..n], i, device, other) {
          var j :| 0 <= j < n && i < j && log[..n][j] == Unregistered(device, other);
          assert log[j] == log[..n][j];
        }
      }
    }
  }

  /**
   The last connection to register for a device, while its handler still serves it, is in the registry unless an earlier
   handler of the same device unregistered after it registered; then the device is missing, though connected.
   */
  lemma LatestIsMissingExactly(es: seq<Event>, i: int, device: string, conn: ConnId)
    requires IsRun(es) && Latest(State(es).log, i, device, conn)
    requires conn in State(es).handlers && State(es).handlers[conn].Serving?
    ensures var w := State(es);
            && conn !in w.closed
            && (device !in w.conns <==> exists other :: UnregisteredAfter(w.log, i, device, other))
            && (device in w.conns ==> w.conns[device] == conn)
            && (forall other | UnregisteredAfter(w.log, i, device, other) ::
                  other != conn && RegisteredBefore(w.log, i, device, other))
  {
    hide Current, Displaced;
    var w := State(es);
    RunKeeps(es);
    CurrentAfterLatest(w.log, i, device, conn);
    forall other | UnregisteredAfter(w.log, i, device, other)
      ensures other != conn && RegisteredBefore(w.log, i, device, other)
    {
      var j :| 0 <= j < |w.log| && i < j && w.log[j] == Unregistered(device, other);
      var k :| k < j && RegisteredAt(w.log, k, device, other);
      assert k != i && !(i < k);
    }
    if conn in Displaced(w.log) { DisplacedLater(w.log, conn); }
  }

  lemma OneMore(es: seq<Event>, e: Event, w: World)
    requires After(es) == Some(w) && Enabled(w, e)
    ensures After(es + [e]) == Some(Next(w, e))
  {
    assert (es + [e])[..|es|] == es;
  }

  /** A reconnect whose old handler leaves last: the device is being served on an open connection, and not registered. */
  lemma ReconnectRace()
    ensures exists es :: IsRun(es) && var w := State(es);
              w.handlers == map[1 := Leaving("d"), 2 := Serving("d")] && w.closed == {1} && w.conns == map[]
  {
    var e1, e2, e3, e4, e5 := Accept(1), Register(1, "d"), Accept(2), Register(2, "d"), Unregister(1);
    var w1 := Next(START, e1);
    var w2 := Next(w1, e2);
    var w3 := Next(w2, e3);
    var w4 := Next(w3, e4);
    OneMore([], e1, START);
    OneMore([] + [e1], e2, w1);
    OneMore([] + [e1] + [e2], e3, w2);
    OneMore([] + [e1] + [e2] + [e3], e4, w3);
    OneMore([] + [e1] + [e2] + [e3] + [e4], e5, w4);
    var es := [] + [e1] + [e2] + [e3] + [e4] + [e5];
    assert IsRun(es) && State(es) == Next(w4, e5);
    assert State(es).conns == map[];
  }

  function Handlers(w: World): set<ConnId> { set c | c in w.handlers && w.handlers[c].Serving? }

  /** The connections of some registered devices. */
  function ConnsOf(devices: set<string>, conns: map<string, ConnId>): set<ConnId>
    requires devices <= conns.Keys
  {
    set d | d in devices :: conns[d]
  }

  lemma OneDeviceLess(devices: set<string>, w: World, d: string)
    requires devices <= w.conns.Keys && RegisteredAreServed(w) && d in devices
    ensures ConnsOf(devices, w.conns) == ConnsOf(devices - {d}, w.conns) + {w.conns[d]}
    ensures w.conns[d] !in ConnsOf(devices - {d}, w.conns)
  {
  }

  lemma {:induction false} AsManyDevices(devices: set<string>, w: World)
    requires devices <= w.conns.Keys && RegisteredAreServed(w)
    ensures |ConnsOf(devices, w.conns)| == |devices|
  {
    hide ConnsOf, RegisteredAreServed;
    if devices != {} {
      var d :| d in devices;
      AsManyDevices(devices - {d}, w);
      OneDeviceLess(devices, w, d);
    } else {
      assert ConnsOf({}, w.conns) == {} by { NoConns(w.conns); }
    }
  }

  lemma NoConns(conns: map<string, ConnId>)
    ensures ConnsOf({}, conns) == {}
  {
  }

  /** Count never exceeds the number of handlers that have registered and not yet unregistered. */
  lemma CountBound(es: seq<Event>)
    requires IsRun(es)
    ensures |State(es).conns| <= |Handlers(State(es))|
  {
    hide IsRun, After;
    RunKeeps(es);
    var w := State(es);
    AsManyDevices(w.conns.Keys, w);
    assert ConnsOf(w.conns.Keys, w.conns) <= Handlers(w);
    Inside(ConnsOf(w.conns.Keys, w.conns), Handlers(w));
  }

  lemma {:induction false} Inside(a: set<ConnId>, b: set<ConnId>)
    requires a <= b
    ensures |a| <= |b|
  {
    if a != {} {
      var x :| x in a;
      Inside(a - {x}, b - {x});
    }
  }

  // ----- the registry object -----

  /** `d` is one of the devices registered, according to the log. */
  ghost predicate AllCurrent(devices: set<string>, log: seq<Entry>) {
    forall d :: d in devices <==> Current(log, d).Some?
  }

  /**
   The registry, shared by all handlers. `history` is what the handlers have done so far; while they keep to their order
   (accept, authenticate, register, unregister, close) the object is in the state of that run.
   */
  class Registry {
    var conns: map<string, ConnId>
    var closed: set<ConnId> // the connections this server has closed
    ghost var handlers: map<ConnId, Handler>
    ghost var log: seq<Entry>
    ghost var history: seq<Event>

    ghost function Abs(): World
      reads this
    {
      World(conns, closed, handlers, log)
    }

    ghost predicate Valid()
      reads this
    {
      After(history) == Some(Abs())
    }

    constructor ()
      ensures Valid() && history == []
    {
      conns, closed := map[], {};
      handlers, log, history := map[], [], [];
    }

    /** A handler starts; the registry is not touched. */
    ghost method Accept(conn: ConnId)
      requires Valid() && conn !in handlers
      modifies `handlers, `history
      ensures Valid() && history == old(history) + [Event.Accept(conn)]
    {
      OneMore(history, Event.Accept(conn), Abs());
      handlers := handlers[conn := Authenticating];
      history := history + [Event.Accept(conn)];
    }

    /** It returns without registering; the registry is not touched. */
    ghost method FailAuth(conn: ConnId)
      requires Valid() && conn in handlers && handlers[conn].Authenticating?
      modifies `handlers, `history
      ensures Valid() && history == old(history) + [AuthFailed(conn)]
    {
      OneMore(history, AuthFailed(conn), Abs());
      handlers := handlers[conn := Refused];
      history := history + [AuthFailed(conn)];
    }

    /** The last deferred call of a handler. */
    method Close(conn: ConnId)
      requires Valid() && Enabled(Abs(), Event.Close(conn))
      modifies this
      ensures Valid() && history == old(history) + [Event.Close(conn)]
    {
      OneMore(history, Event.Close(conn), Abs());
      closed := closed + {conn};
      handlers := handlers[conn := Gone];
      history := history + [Event.Close(conn)];
    }

    method Register(device: string, conn: ConnId)
      modifies this
      ensures conns == old(conns)[device := conn] && closed == old(closed) + PushedOut(old(conns), device)
      ensures old(Valid() && Enabled(Abs(), Event.Register(conn, device))) ==>
                Valid() && history == old(history) + [Event.Register(conn, device)]
    {
      ghost var e := Event.Register(conn, device);
      if Valid() && Enabled(Abs(), e) {
        OneMore(history, e, Abs());
        handlers := handlers[conn := Serving(device)];
        log := log + [Registered(device, conn)];
        history := history + [e];
      }
      if device in conns {
        closed := closed + {conns[device]};
      }
      conns := conns[device := conn];
    }

    /** `conn` is the connection of the handler that calls; the registry is not told. */
    method Unregister(device: string, ghost conn: ConnId)
      modifies this
      ensures conns == old(conns) - {device} && closed == old(closed)
      ensures old(Valid() && conn in handlers && handlers[conn] == Serving(device)) ==>
                Valid() && history == old(history) + [Event.Unregister(conn)]
    {
      ghost var e := Event.Unregister(conn);
      if Valid() && conn in handlers && handlers[conn] == Serving(device) {
        OneMore(history, e, Abs());
        handlers := handlers[conn := Leaving(device)];
        log := log + [Unregistered(device, conn)];
        history := history + [e];
      }
      conns := conns - {device};
    }

    /**
     Whether the last thing that happened to the device is a registration; if so that connection is open, and its handler
     is serving the device.
     */
    method Connected(device: string) returns (ok: bool)
      requires Valid()
      ensures ok <==> Current(log, device).Some?
      ensures ok ==> var c := Current(log, device).value; c in handlers && handlers[c] == Serving(device) && c !in closed
    {
      hide After, Current, Displaced;
      RunKeeps(history);
      ok := device in conns;
    }

    /** How many devices were last registered rather than unregistered; never more than there are handlers serving. */
    method Count() returns (n: nat)
      requires Valid()
      ensures exists devices :: AllCurrent(devices, log) && |devices| == n
      ensures n <= |Handlers(Abs())|
    {
      hide After, Current, Displaced;
      RunKeeps(history);
      CountBound(history);
      n := |conns|;
      assert AllCurrent(conns.Keys, log);
      assert |conns| == |conns.Keys|;
    }
  }
}
