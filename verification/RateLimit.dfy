/** The per-tenant request limit of the API: a Redis counter that expires one minute after it was created. */
module RateLimit {

  const WINDOW := 60_000 // milliseconds
  const LIMIT := 1000

  /** A counter, when it was created, and when it expires (never, if setting the expiry failed). */
  datatype Key = Absent | Counter(count: nat, created: int, expiry: Expiry)

  datatype Expiry = Never | At(time: int)

  /** INCR succeeds, fails without effect, or fails after taking effect. */
  datatype Incr = Done | Lost | DoneButFailed

  /** One request of a tenant; `edge` says whether a counter is still there at its very expiry time. */
  datatype Request = Request(time: int, incr: Incr, expireOk: bool, edge: bool)

  predicate Alive(k: Key, r: Request) {
    k.Counter? && (k.expiry.Never? || r.time < k.expiry.time || (r.time == k.expiry.time && r.edge))
  }

  function Incremented(k: Key, r: Request): (k': Key)
    ensures k'.Counter? && k'.count >= 1
  {
    if Alive(k, r) then k.(count := k.count + 1) else Counter(1, r.time, Never)
  }

  /** The counter after a request, and whether the request passes. */
  function Step(k: Key, r: Request): (Key, bool) {
    if r.incr.Lost? then (k, true)
    else
      var k' := Incremented(k, r);
      if r.incr.DoneButFailed? then (k', true)
      else
        var k'' := if k'.count == 1 && r.expireOk then k'.(expiry := At(r.time + WINDOW)) else k';
        (k'', k'.count <= LIMIT)
  }

  // ----- the middleware over all tenants -----

  function KeyOf(tenant: string): string { "ratelimit:api:" + tenant }

  function Lookup(redis: map<string, Key>, name: string): Key {
    if name in redis then redis[name] else Absent
  }

  class Limiter {
    var redis: map<string, Key>

    constructor ()
      ensures redis == map[]
    {
      redis := map[];
    }

    /** `remaining` is the X-RateLimit-Remaining header, where one is set. */
    method Handle(tenant: string, r: Request) returns (passed: bool, remaining: string)
      modifies this
      ensures tenant == "" ==> passed && redis == old(redis)
      ensures tenant != "" ==>
                var (k, ok) := Step(Lookup(old(redis), KeyOf(tenant)), r);
                && passed == ok
                && Lookup(redis, KeyOf(tenant)) == k
                && forall name :: name != KeyOf(tenant) ==> Lookup(redis, name) == Lookup(old(redis), name)
      ensures tenant != "" && r.incr.Done? ==>
                var count := Incremented(Lookup(old(redis), KeyOf(tenant)), r).count;
                remaining != "" && IntValue(remaining) == if count <= LIMIT then LIMIT - count else 0
    {
      passed, remaining := true, "";
      if tenant == "" {
        return;
      }
      var key := KeyOf(tenant);
      if r.incr.Lost? {
        return;
      }
      var counter := Incremented(Lookup(redis, key), r);
      redis := redis[key := counter];
      if r.incr.DoneButFailed? {
        return;
      }
      if counter.count == 1 {
        if r.expireOk {
          redis := redis[key := counter.(expiry := At(r.time + WINDOW))];
        }
      }
      remaining := Itoa(Max(0, LIMIT - counter.count));
      if counter.count > LIMIT {
        passed := false;
      }
    }
  }

  function Max(a: int, b: int): int { if a > b then a else b }

  // ----- one tenant's runs -----

  function Run(k: Key, rs: seq<Request>): Key {
    if rs == [] then k else Step(Run(k, rs[..|rs| - 1]), rs[|rs| - 1]).0
  }

  predicate Passes(k: Key, rs: seq<Request>, i: nat)
    requires i < |rs|
  {
    Step(Run(k, rs[..i]), rs[i]).1
  }

  predicate InOrder(rs: seq<Request>) {
    forall i, j :: 0 <= i < j < |rs| ==> rs[i].time <= rs[j].time
  }

  predicate InSpan(r: Request, from: int) { from <= r.time < from + 60_000 }

  /** Requests in the minute starting at `from` that pass. */
  function Passed(rs: seq<Request>, from: int): nat {
    if rs == [] then 0
    else
      var n := |rs| - 1;
      Passed(rs[..n], from) + if InSpan(rs[n], from) && Passes(Absent, rs, n) then 1 else 0
  }

  /** Requests in that minute whose INCR reported an error. */
  function Failed(rs: seq<Request>, from: int): nat {
    if rs == [] then 0
    else
      var n := |rs| - 1;
      Failed(rs[..n], from) + if InSpan(rs[n], from) && !rs[n].incr.Done? then 1 else 0
  }

  /** With Redis working, of the requests in the minute after a counter is created exactly the first 1000 pass. */
  lemma {:induction false} FirstThousand(k: Key, rs: seq<Request>, i: nat)
    requires InOrder(rs) && i < |rs| && !Alive(k, rs[0])
    requires forall j :: 0 <= j < |rs| ==> rs[j].incr.Done? && rs[j].expireOk && rs[j].time < rs[0].time + 60_000
    ensures Run(k, rs[..i + 1]) == Counter(i + 1, rs[0].time, At(rs[0].time + 60_000))
    ensures Passes(k, rs, i) <==> i < 1000
  {
    if i == 0 {
      assert Run(k, rs[..0]) == k;
    } else {
      FirstThousand(k, rs, i - 1);
      assert Alive(Run(k, rs[..i]), rs[i]);
    }
    assert rs[..i + 1][..i] == rs[..i];
  }

  /** One request opens a window, 1000 follow at its very end, 1000 more when the next one opens. */
  function Rush(): (rs: seq<Request>)
    ensures |rs| == 2001
    ensures forall i :: 0 <= i < 2001 ==>
              rs[i] == Request(if i == 0 then 0 else if i <= 1000 then 59_999 else 60_000, Done, true, false)
  {
    seq(2001, i => Request(if i == 0 then 0 else if i <= 1000 then 59_999 else 60_000, Done, true, false))
  }

  lemma RushEarly(i: nat)
    requires i <= 1000
    ensures Passes(Absent, Rush(), i) <==> i < 1000
    ensures Run(Absent, Rush()[..i + 1]) == Counter(i + 1, 0, At(WINDOW))
  {
    hide Run;
    var rs := Rush();
    var first := rs[..1001];
    FirstThousand(Absent, first, i);
    assert first[..i] == rs[..i] && first[..i + 1] == rs[..i + 1];
  }

  lemma RushLate(i: nat)
    requires 1000 < i < 2001
    ensures Passes(Absent, Rush(), i)
  {
    hide Run;
    var rs := Rush();
    var first, second := rs[..1001], rs[1001..];
    RushEarly(1000);
    FirstThousand(Run(Absent, first), second, i - 1001);
    RunSplit(Absent, first, second[..i - 1001]);
    assert rs[..i] == first + second[..i - 1001];
  }

  lemma RushPasses(i: nat)
    requires i < 2001
    ensures Passes(Absent, Rush(), i) <==> i != 1000
  {
    hide Passes;
    if i <= 1000 { RushEarly(i); } else { RushLate(i); }
  }

  lemma PassedOneMore(rs: seq<Request>, k: nat, from: int)
    requires 0 < k <= |rs|
    ensures Passed(rs[..k], from) ==
            Passed(rs[..k - 1], from) + if InSpan(rs[k - 1], from) && Passes(Absent, rs, k - 1) then 1 else 0
  {
    hide Run;
    assert rs[..k][..k - 1] == rs[..k - 1];
  }

  lemma {:induction false} RushPassed(k: nat)
    requires k <= 2001
    ensures Passed(Rush()[..k], 1) == if k == 0 then 0 else if k <= 1000 then k - 1 else k - 2
  {
    hide Passes, Passed;
    if k == 0 {
      NonePassed(Rush()[..0], 1);
    } else {
      RushPassed(k - 1);
      RushPasses(k - 1);
      PassedOneMore(Rush(), k, 1);
    }
  }

  lemma NonePassed(rs: seq<Request>, from: int)
    requires rs == []
    ensures Passed(rs, from) == 0
  {
  }

  /** The bound is reached. */
  lemma BoundIsReached()
    ensures InOrder(Rush()) && Passed(Rush(), 1) == 1999 && Failed(Rush(), 1) == 0
  {
    hide Passed, Failed;
    RushPassed(2001);
    assert Rush()[..2001] == Rush();
    NoneFailed(Rush(), 1);
  }

  lemma {:induction false} NoneFailed(rs: seq<Request>, from: int)
    requires forall i :: 0 <= i < |rs| ==> rs[i].incr.Done?
    ensures Failed(rs, from) == 0
  {
    if rs != [] { NoneFailed(rs[..|rs| - 1], from); }
  }

  lemma {:induction false} RunSplit(k: Key, a: seq<Request>, b: seq<Request>)
    ensures Run(k, a + b) == Run(Run(k, a), b)
  {
    if b == [] {
      assert a + b == a;
    } else {
      RunSplit(k, a, b[..|b| - 1]);
      assert (a + b)[..|a + b| - 1] == a + b[..|b| - 1];
    }
  }

  // ----- a counter without an expiry -----

  /** Whatever comes from `now` on, no request whose increment succeeds passes. */
  ghost predicate RefusedForever(k: Key, now: int) {
    forall rs: seq<Request>, i | InOrder(rs) && 0 <= i < |rs| && rs[0].time >= now && rs[i].incr.Done? ::
      !Passes(k, rs, i)
  }

  lemma {:induction false} NeverStays(k: Key, rs: seq<Request>)
    requires k.Counter? && k.expiry.Never? && k.count >= 1
    ensures Run(k, rs).Counter? && Run(k, rs).expiry.Never? && Run(k, rs).count >= k.count
  {
    if rs != [] { NeverStays(k, rs[..|rs| - 1]); }
  }

  /** A tenant is refused for good exactly when its counter has reached the limit and never expires. */
  lemma RefusedForeverExactly(k: Key, now: int)
    ensures RefusedForever(k, now) <==> k.Counter? && k.expiry.Never? && k.count >= LIMIT
  {
    if k.Counter? && k.expiry.Never? && k.count >= LIMIT {
      forall rs: seq<Request>, i | InOrder(rs) && 0 <= i < |rs| && rs[0].time >= now && rs[i].incr.Done?
        ensures !Passes(k, rs, i)
      {
        NeverStays(k, rs[..i]);
      }
    } else {
      var time := if k.Counter? && k.expiry.At? && k.expiry.time >= now then k.expiry.time + 1 else now;
      var rs := [Request(time, Done, true, false)];
      assert InOrder(rs);
      assert rs[..0] == [];
      assert Passes(k, rs, 0);
    }
  }

  /** If the first request's expiry is lost, the counter only counts. */
  lemma {:induction false} LostExpiry(rs: seq<Request>)
    requires rs != [] && (rs[0].incr.DoneButFailed? || (rs[0].incr.Done? && !rs[0].expireOk))
    requires forall i :: 0 <= i < |rs| ==> !rs[i].incr.Lost?
    ensures Run(Absent, rs) == Counter(|rs|, rs[0].time, Never)
  {
    var n := |rs| - 1;
    if n == 0 {
      assert rs[..0] == [];
      assert Run(Absent, rs[..0]) == Absent;
    } else {
      LostExpiry(rs[..n]);
    }
  }

  /** And then the tenant is locked out after its thousandth request. */
  lemma LostExpiryLocksOut(rs: seq<Request>, now: int)
    requires rs != [] && (rs[0].incr.DoneButFailed? || (rs[0].incr.Done? && !rs[0].expireOk))
    requires forall i :: 0 <= i < |rs| ==> !rs[i].incr.Lost?
    ensures RefusedForever(Run(Absent, rs), now) <==> |rs| >= 1000
  {
    LostExpiry(rs);
    RefusedForeverExactly(Run(Absent, rs), now);
  }

  /** A request whose INCR reports an error passes, whatever the counter; and nothing sets an expiry on that counter. */
  lemma FailsOpen(k: Key, r: Request)
    requires r.incr != Done
    ensures Step(k, r).1 && Step(k, r).0 == if r.incr == Lost then k else Incremented(k, r)
    ensures Incremented(k, r).expiry == if Alive(k, r) then k.expiry else Never
  {
  }

  // ----- other tenants have no effect -----

  datatype Call = Call(tenant: string, request: Request)

  function After(redis: map<string, Key>, calls: seq<Call>): map<string, Key> {
    if calls == [] then redis
    else
      var c := calls[|calls| - 1];
      var before := After(redis, calls[..|calls| - 1]);
      if c.tenant == "" then before
      else before[KeyOf(c.tenant) := Step(Lookup(before, KeyOf(c.tenant)), c.request).0]
  }

  /** Whether the last call passes. */
  predicate Verdict(redis: map<string, Key>, calls: seq<Call>)
    requires calls != []
  {
    var c := calls[|calls| - 1];
    c.tenant == "" || Step(Lookup(After(redis, calls[..|calls| - 1]), KeyOf(c.tenant)), c.request).1
  }

  function OfTenant(calls: seq<Call>, tenant: string): seq<Request> {
    if calls == [] then []
    else
      OfTenant(calls[..|calls| - 1], tenant)
      + if calls[|calls| - 1].tenant == tenant then [calls[|calls| - 1].request] else []
  }

  lemma KeyIs()
    ensures KeyOf("t1") == "ratelimit:api:t1"
  {
  }

  lemma {:induction false} TenantsIndependent(redis: map<string, Key>, calls: seq<Call>, tenant: string)
    requires tenant != ""
    ensures Lookup(After(redis, calls), KeyOf(tenant)) == Run(Lookup(redis, KeyOf(tenant)), OfTenant(calls, tenant))
    ensures calls != [] && calls[|calls| - 1].tenant == tenant ==>
              var mine := OfTenant(calls, tenant);
              mine != [] && (Verdict(redis, calls) <==> Passes(Lookup(redis, KeyOf(tenant)), mine, |mine| - 1))
  {
    hide Step;
    if calls != [] {
      var n := |calls| - 1;
      TenantsIndependent(redis, calls[..n], tenant);
      var mine := OfTenant(calls[..n], tenant);
      if calls[n].tenant == tenant {
        assert (mine + [calls[n].request])[..|mine|] == mine;
      } else {
        assert KeyOf(calls[n].tenant)[14..] == calls[n].tenant && KeyOf(tenant)[14..] == tenant;
        assert mine + [] == mine;
      }
    }
  }

  // ----- itoa -----

  const MIN_INT := -0x8000_0000_0000_0000
  const MAX_INT := 0x7FFF_FFFF_FFFF_FFFF

  predicate IsDigit(c: char) { '0' <= c <= '9' }

  predicate IsNumeral(s: string) { forall i :: 0 <= i < |s| ==> IsDigit(s[i]) }

  function Digits(s: string): nat
    requires IsNumeral(s)
  {
    if s == [] then 0 else 10 * Digits(s[..|s| - 1]) + (s[|s| - 1] as int - '0' as int)
  }

  /** The integer a string denotes: an optional minus sign and digits; 0 if it is anything else. */
  function IntValue(s: string): int {
    if s != [] && s[0] == '-' && IsNumeral(s[1..]) then -(Digits(s[1..]) as int)
    else if IsNumeral(s) then Digits(s)
    else 0
  }

  function Power10(n: nat): nat { if n == 0 then 1 else 10 * Power10(n - 1) }

  lemma Regroup(d: nat, p: nat)
    ensures 10 * (d * p) == d * (10 * p)
  {
  }

  lemma {:induction false} DigitsPrepend(c: char, s: string)
    requires IsDigit(c) && IsNumeral(s)
    ensures IsNumeral([c] + s)
    ensures Digits([c] + s) == (c as int - '0' as int) * Power10(|s|) + Digits(s)
  {
    if s == [] {
      assert [c] + s == [c];
      assert [c][..0] == [];
      assert Digits([c]) == 10 * Digits([]) + (c as int - '0' as int);
    } else {
      DigitsPrepend(c, s[..|s| - 1]);
      assert ([c] + s)[..|s|] == [c] + s[..|s| - 1];
      Regroup(c as int - '0' as int, Power10(|s| - 1));
    }
  }

  lemma Distribute(q: nat, d: nat, p: nat)
    ensures (10 * q + d) * p == q * (10 * p) + d * p
  {
    assert (10 * q + d) * p == 10 * q * p + d * p;
    assert 10 * q * p == q * (10 * p);
  }

  lemma ItoaStep(abs: int, m: nat, s: string, c: char)
    requires m > 0 && IsNumeral(s) && abs == m * Power10(|s|) + Digits(s) && c == '0' + (m % 10) as char
    ensures IsNumeral([c] + s) && abs == (m / 10) * Power10(|[c] + s|) + Digits([c] + s)
  {
    hide Digits;
    DigitsPrepend(c, s);
    Distribute(m / 10, m % 10, Power10(|s|));
    assert c as int - '0' as int == m % 10;
    assert m == 10 * (m / 10) + m % 10;
  }

  /** The negation of the smallest int64 is itself. */
  function Negated(n: int): int { if n == MIN_INT then MIN_INT else -n }

  /** Decimal digits without leading zeros, and exact for every int64 except the smallest, which prints as "-". */
  method Itoa(n: int) returns (s: string)
    requires MIN_INT <= n <= MAX_INT
    ensures n != MIN_INT ==> IntValue(s) == n
    ensures n != MIN_INT ==> s != "" && s != "-"
    ensures n > 0 ==> IsNumeral(s) && s[0] != '0'
    ensures n == MIN_INT ==> s == "-"
  {
    if n == 0 {
      assert "0"[..0] == "";
      return "0";
    }
    var neg := n < 0;
    var abs := if neg then Negated(n) else n;
    s := DigitsOf(abs);
    if neg {
      ghost var t := s;
      s := ['-'] + s;
      assert s[1..] == t;
    }
  }

  /** The digit loop, which a non-positive number skips. */
  method DigitsOf(abs: int) returns (s: string)
    ensures IsNumeral(s)
    ensures abs > 0 ==> Digits(s) == abs && s != "" && s[0] != '0'
    ensures abs <= 0 ==> s == ""
  {
    hide Digits, Power10;
    var m := abs;
    s := "";
    EmptyDigits(abs);
    while m > 0
      invariant IsNumeral(s)
      invariant abs <= 0 ==> s == "" && m == abs
      invariant abs > 0 ==> 0 <= m && abs == m * Power10(|s|) + Digits(s)
      invariant abs > 0 && m == 0 ==> s != "" && s[0] != '0'
      decreases m
    {
      var c := '0' + (m % 10) as char;
      ItoaStep(abs, m, s, c);
      s := [c] + s;
      m := m / 10;
    }
  }

  lemma EmptyDigits(n: int)
    ensures n == n * Power10(0) + Digits("")
  {
  }
}
