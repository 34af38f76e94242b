/**
 The request limit with its two Redis calls as separate steps: other requests of the tenant may come between the INCR that
 creates a counter and the EXPIRE that follows it, and the EXPIRE may come late or never.
 */
module RateInterleaved {
  import opened Options
  import opened RateLimit

  /** A request makes its INCR, which decides whether it passes; or the EXPIRE of an earlier one arrives. */
  datatype Event = Count(request: Request) | Expire(time: int, ok: bool)

  /** The tenant's counter, and how many requests have still to send their EXPIRE. */
  datatype State = State(key: Key, owing: nat)

  const START := State(Absent, 0)

  function TimeOf(e: Event): int { if e.Count? then e.request.time else e.time }

  predicate Enabled(s: State, e: Event) { e.Expire? ==> s.owing > 0 }

  /** The request goes on to send an EXPIRE. */
  predicate Owes(k: Key, r: Request) { r.incr.Done? && Incremented(k, r).count == 1 }

  function Next(s: State, e: Event): State
    requires Enabled(s, e)
  {
    match e
    case Count(r) =>
      if r.incr.Lost? then s
      else State(Incremented(s.key, r), s.owing + if Owes(s.key, r) then 1 else 0)
    case Expire(time, ok) =>
      State(if ok && s.key.Counter? then s.key.(expiry := At(time + WINDOW)) else s.key, s.owing - 1)
  }

  predicate Lets(k: Key, r: Request) { !r.incr.Done? || Incremented(k, r).count <= LIMIT }

  function After(es: seq<Event>): Option<State> {
    if es == [] then Some(START)
    else
      var before, e := After(es[..|es| - 1]), es[|es| - 1];
      if before.Some? && Enabled(before.value, e) then Some(Next(before.value, e)) else None
  }

  predicate IsRun(es: seq<Event>) { After(es).Some? }

  predicate Chronological(es: seq<Event>) {
    forall i, j :: 0 <= i < j < |es| ==> TimeOf(es[i]) <= TimeOf(es[j])
  }

  /** Requests that make their INCR in the minute starting at `from` and pass. */
  function Passed(es: seq<Event>, from: int): nat
    requires IsRun(es)
  {
    if es == [] then 0
    else
      var n := |es| - 1;
      Passed(es[..n], from)
      + if es[n].Count? && InSpan(es[n].request, from) && Lets(After(es[..n]).value.key, es[n].request) then 1 else 0
  }

  /** Requests in that minute whose INCR reported an error. */
  function Failed(es: seq<Event>, from: int): nat {
    if es == [] then 0
    else
      var n := |es| - 1;
      Failed(es[..n], from) + if es[n].Count? && InSpan(es[n].request, from) && !es[n].request.incr.Done? then 1 else 0
  }

  // ----- at most 1999 in any minute -----

  /** How many counted passes the state of the counter allows within the minute. */
  function Allowance(k: Key, from: int): int {
    if k.Absent? then 0
    else
      var current := if k.count <= LIMIT then k.count else LIMIT;
      if k.created < from then current - 1
      else if k.created < from + WINDOW then LIMIT - 1 + current
      else 2 * LIMIT - 1
  }

  /**
   A counter outlives the minute after its creation; at most the request that created it owes an EXPIRE, and until that
   comes the counter has no expiry.
   */
  predicate Sound(s: State, now: int) {
    && (s.key.Counter? ==>
          && s.key.count >= 1 && s.key.created <= now
          && (s.key.expiry.Never? || s.key.expiry.time >= s.key.created + WINDOW))
    && s.owing <= 1 && (s.owing == 1 ==> s.key.Counter? && s.key.expiry.Never?)
  }

  lemma StepKeeps(s: State, e: Event)
    requires Sound(s, TimeOf(e)) && Enabled(s, e)
    ensures Sound(Next(s, e), TimeOf(e))
  {
  }

  lemma PassStep(s: State, e: Event, from: int, passed: nat, failed: nat)
    requires Sound(s, TimeOf(e)) && Enabled(s, e)
    requires passed <= Allowance(s.key, from) + failed && (TimeOf(e) < from ==> passed == 0)
    ensures passed + (if e.Count? && InSpan(e.request, from) && Lets(s.key, e.request) then 1 else 0)
            <= Allowance(Next(s, e).key, from) + failed
               + if e.Count? && InSpan(e.request, from) && !e.request.incr.Done? then 1 else 0
  {
  }

  lemma {:induction false} CountedPasses(es: seq<Event>, from: int)
    requires IsRun(es) && Chronological(es)
    ensures es != [] ==> Sound(After(es).value, TimeOf(es[|es| - 1]))
    ensures es != [] && TimeOf(es[|es| - 1]) < from ==> Passed(es, from) == 0
    ensures Passed(es, from) <= Allowance(After(es).value.key, from) + Failed(es, from)
  {
    hide Sound, Allowance, Next, Enabled, Lets;
    if es == [] {
      NothingYet(from);
    } else {
      var n := |es| - 1;
      var s := After(es[..n]).value;
      CountedPasses(es[..n], from);
      if n > 0 {
        assert TimeOf(es[n - 1]) <= TimeOf(es[n]);
        SoundLater(s, TimeOf(es[n - 1]), TimeOf(es[n]));
      } else {
        StartIsSound(TimeOf(es[n]));
      }
      StepKeeps(s, es[n]);
      PassStep(s, es[n], from, Passed(es[..n], from), Failed(es[..n], from));
    }
  }

  lemma NothingYet(from: int)
    ensures Passed([], from) == 0 && Failed([], from) == 0 && Allowance(After([]).value.key, from) == 0
  {
  }

  lemma StartIsSound(now: int)
    ensures Sound(START, now)
  {
  }

  lemma SoundLater(s: State, now: int, later: int)
    requires Sound(s, now) && now <= later
    ensures Sound(s, later)
  {
  }

  lemma AllowanceIs(k: Key, from: int)
    ensures Allowance(k, from) <= 1999
  {
  }

  /** In any minute at most 1999 requests of a tenant pass, besides those let through because Redis failed. */
  lemma MinuteBound(es: seq<Event>, from: int)
    requires IsRun(es) && Chronological(es)
    ensures Passed(es, from) <= 1999 + Failed(es, from)
  {
    hide After, Passed, Failed, Allowance, Sound;
    CountedPasses(es, from);
    AllowanceIs(After(es).value.key, from);
  }

  // ----- the first thousand on a counter -----

  /** Requests among the events from `a` to `b`. */
  function Requests(es: seq<Event>, a: nat, b: nat): nat
    requires a <= b <= |es|
    decreases b
  {
    if a == b then 0 else Requests(es, a, b - 1) + if es[b - 1].Count? then 1 else 0
  }

  /** From event `a`, which finds no counter, to `b` all requests come within a minute and their INCR succeeds. */
  predicate OneMinute(es: seq<Event>, a: nat, b: nat)
    requires a < b <= |es| && IsRun(es[..a])
  {
    && es[a].Count? && !Alive(After(es[..a]).value.key, es[a].request)
    && forall j :: a <= j < b && es[j].Count? ==>
         es[j].request.incr.Done? && es[j].request.time < es[a].request.time + 60_000
  }

  lemma RunOfPart(es: seq<Event>, n: nat)
    requires IsRun(es) && n < |es|
    ensures IsRun(es[..n]) && Enabled(After(es[..n]).value, es[n])
    ensures After(es[..n + 1]) == Some(Next(After(es[..n]).value, es[n]))
    decreases |es| - n
  {
    hide Next, Enabled;
    RunOfPrefix(es, n + 1);
    assert es[..n + 1][..n] == es[..n];
  }

  lemma {:induction false} RunOfPrefix(es: seq<Event>, n: nat)
    requires IsRun(es) && n <= |es|
    ensures IsRun(es[..n])
  {
    hide Next, Enabled;
    if n == |es| {
      assert es[..n] == es;
    } else {
      RunOfPrefix(es[..|es| - 1], n);
      assert es[..|es| - 1][..n] == es[..n];
    }
  }

  /** The counter of that minute after `count` requests. */
  predicate Counts(k: Key, count: nat, created: int) {
    k.Counter? && k.count == count && k.created == created
    && (k.expiry.Never? || k.expiry.time >= created + WINDOW)
  }

  lemma CountsOn(s: State, e: Event, count: nat, created: int)
    requires Enabled(s, e) && Counts(s.key, count, created) && count >= 1 && TimeOf(e) >= created
    requires e.Count? ==> e.request.incr.Done? && e.request.time < created + WINDOW
    ensures Counts(Next(s, e).key, count + (if e.Count? then 1 else 0), created)
    ensures e.Count? ==> (Lets(s.key, e.request) <==> count < 1000)
  {
  }

  lemma CountsFirst(s: State, e: Event)
    requires e.Count? && e.request.incr.Done? && !Alive(s.key, e.request)
    ensures Counts(Next(s, e).key, 1, e.request.time) && Lets(s.key, e.request)
  {
  }

  /** Of the requests in the minute after a counter is created exactly the first 1000 pass, whenever its EXPIRE comes. */
  lemma {:induction false} FirstThousand(es: seq<Event>, a: nat, n: nat)
    requires IsRun(es) && Chronological(es) && a <= n < |es| && IsRun(es[..a]) && IsRun(es[..n]) && OneMinute(es, a, n + 1)
    ensures IsRun(es[..n + 1])
    ensures Counts(After(es[..n + 1]).value.key, Requests(es, a, n + 1), es[a].request.time)
    ensures es[n].Count? ==> (Lets(After(es[..n]).value.key, es[n].request) <==> Requests(es, a, n) < 1000)
  {
    hide After, Next, Enabled, Lets, Counts;
    RunOfPart(es, n);
    if n == a {
      CountsFirst(After(es[..a]).value, es[a]);
      assert Requests(es, a, a) == 0;
    } else {
      RunOfPart(es, n - 1);
      FirstThousand(es, a, n - 1);
      FirstCounted(es, a, n);
      CountsOn(After(es[..n]).value, es[n], Requests(es, a, n), es[a].request.time);
    }
  }

  lemma {:induction false} FirstCounted(es: seq<Event>, a: nat, b: nat)
    requires a < b <= |es| && es[a].Count?
    ensures Requests(es, a, b) >= 1
  {
    if b > a + 1 { FirstCounted(es, a, b - 1); } else { assert Requests(es, a, a) == 0; }
  }

  // ----- requests that come one after another -----

  /** The steps of requests each of which is finished before the next one comes. */
  function Steps(rs: seq<Request>): seq<Event> {
    if rs == [] then []
    else
      var n := |rs| - 1;
      Steps(rs[..n]) + [Count(rs[n])]
      + if Owes(Run(Absent, rs[..n]), rs[n]) then [Expire(rs[n].time, rs[n].expireOk)] else []
  }

  lemma OneMore(es: seq<Event>, e: Event)
    requires IsRun(es) && Enabled(After(es).value, e)
    ensures After(es + [e]) == Some(Next(After(es).value, e))
    ensures forall from :: Failed(es + [e], from) == Failed(es, from)
                           + if e.Count? && InSpan(e.request, from) && !e.request.incr.Done? then 1 else 0
    ensures forall from :: Passed(es + [e], from) == Passed(es, from)
                           + if e.Count? && InSpan(e.request, from) && Lets(After(es).value.key, e.request) then 1 else 0
  {
    hide Next, Enabled, Lets;
    assert (es + [e])[..|es|] == es;
  }

  lemma StepIsSteps(k: Key, r: Request)
    ensures var s := Next(State(k, 0), Count(r));
            && (RateLimit.Step(k, r).1 <==> Lets(k, r))
            && s.owing == (if Owes(k, r) then 1 else 0)
            && (Owes(k, r) ==> Next(s, Expire(r.time, r.expireOk)).owing == 0)
            && RateLimit.Step(k, r).0 == if Owes(k, r) then Next(s, Expire(r.time, r.expireOk)).key else s.key
  {
  }

  /** The limiter that makes both calls at once is a special case: same counter, same verdicts. */
  lemma {:induction false} SequentialIsInterleaved(rs: seq<Request>, from: int)
    ensures After(Steps(rs)) == Some(State(Run(Absent, rs), 0))
    ensures Passed(Steps(rs), from) == RateLimit.Passed(rs, from) && Failed(Steps(rs), from) == RateLimit.Failed(rs, from)
  {
    hide After, Passed, Failed, Next, Owes, Lets, RateLimit.Step;
    if rs == [] {
      NothingYet(from);
      assert After([]) == Some(START) by { NoEvents(); }
    } else {
      var n := |rs| - 1;
      var k, r := Run(Absent, rs[..n]), rs[n];
      SequentialIsInterleaved(rs[..n], from);
      StepIsSteps(k, r);
      OneMore(Steps(rs[..n]), Count(r));
      var counted := Steps(rs[..n]) + [Count(r)];
      if Owes(k, r) {
        OneMore(counted, Expire(r.time, r.expireOk));
      } else {
        assert counted + [] == counted;
      }
    }
  }

  lemma NoEvents()
    ensures After([]) == Some(START)
  {
  }

  lemma OneLater(es: seq<Event>, e: Event)
    requires Chronological(es) && (es != [] ==> TimeOf(es[|es| - 1]) <= TimeOf(e))
    ensures Chronological(es + [e])
  {
    hide TimeOf;
    forall i | 0 <= i < |es| ensures TimeOf(es[i]) <= TimeOf(e) {
      if i < |es| - 1 { assert TimeOf(es[i]) <= TimeOf(es[|es| - 1]); }
    }
  }

  lemma {:induction false} StepsInOrder(rs: seq<Request>)
    requires InOrder(rs)
    ensures Chronological(Steps(rs)) && (Steps(rs) == [] <==> rs == [])
    ensures rs != [] ==> TimeOf(Steps(rs)[|Steps(rs)| - 1]) == rs[|rs| - 1].time
  {
    hide Owes, Run, Chronological;
    if rs == [] {
      assert Chronological([]) by { NoneInDisorder(); }
    } else {
      var n := |rs| - 1;
      StepsInOrder(rs[..n]);
      if n > 0 { assert rs[n - 1].time <= rs[n].time; }
      var counted := Steps(rs[..n]) + [Count(rs[n])];
      OneLater(Steps(rs[..n]), Count(rs[n]));
      OneLater(counted, Expire(rs[n].time, rs[n].expireOk));
      assert counted + [] == counted;
    }
  }

  lemma NoneInDisorder()
    ensures Chronological([])
  {
  }

  /** The bound is reached. */
  lemma BoundIsReached()
    ensures exists es :: IsRun(es) && Chronological(es) && Passed(es, 1) == 1999 && Failed(es, 1) == 0
  {
    hide After, Passed, Failed, Steps, RateLimit.Passed, RateLimit.Failed, Chronological;
    RateLimit.BoundIsReached();
    SequentialIsInterleaved(Rush(), 1);
    StepsInOrder(Rush());
    assert IsRun(Steps(Rush()));
  }
}
