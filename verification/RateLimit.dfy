/** The token bucket per client address (server/ratelimit.go), over the reals. */
module RateLimit {
  datatype Limits = Limits(rate: real, burst: int, maxAge: real)

  datatype Bucket = Bucket(tokens: real, lastUpdate: real, lastAccess: real)

  function Capped(limits: Limits, tokens: real): real {
    if tokens > limits.burst as real then limits.burst as real else tokens
  }

  /** The bucket's tokens at a later time. */
  function Refilled(limits: Limits, b: Bucket, now: real): real {
    Capped(limits, b.tokens + (now - b.lastUpdate) * limits.rate)
  }

  predicate Allows(limits: Limits, clients: map<string, Bucket>, ip: string, now: real) {
    ip in clients ==> Refilled(limits, clients[ip], now) >= 1.0
  }

  function Charged(limits: Limits, clients: map<string, Bucket>, ip: string, now: real): map<string, Bucket> {
    var tokens := if ip in clients then Refilled(limits, clients[ip], now) else limits.burst as real;
    clients[ip := Bucket(if Allows(limits, clients, ip, now) then tokens - 1.0 else tokens, now, now)]
  }

  function Cleaned(limits: Limits, clients: map<string, Bucket>, now: real): map<string, Bucket> {
    map ip | ip in clients && now - clients[ip].lastAccess <= limits.maxAge :: clients[ip]
  }

  class RateLimiter {
    const limits: Limits
    var clients: map<string, Bucket>

    constructor (limits: Limits)
      ensures this.limits == limits && clients == map[]
    {
      this.limits, clients := limits, map[];
    }

    method Allow(ip: string, now: real) returns (ok: bool)
      modifies this
      ensures ok == Allows(limits, old(clients), ip, now) && clients == Charged(limits, old(clients), ip, now)
      ensures ip !in old(clients) ==> ok && clients == old(clients)[ip := Bucket(limits.burst as real - 1.0, now, now)]
      ensures ip in old(clients) ==>
        var b, burst := old(clients)[ip], limits.burst as real;
        var grown := b.tokens + (now - b.lastUpdate) * limits.rate;
        var held := if grown > burst then burst else grown;
        && (ok <==> held >= 1.0)
        && clients == old(clients)[ip := Bucket(if ok then held - 1.0 else held, now, now)]
    {
      if ip !in clients {
        clients := clients[ip := Bucket(limits.burst as real - 1.0, now, now)];
        return true;
      }
      var bucket := clients[ip];
      var elapsed := now - bucket.lastUpdate;
      bucket := bucket.(tokens := bucket.tokens + elapsed * limits.rate);
      if bucket.tokens > limits.burst as real {
        bucket := bucket.(tokens := limits.burst as real);
      }
      assert bucket.tokens == Refilled(limits, clients[ip], now);
      bucket := bucket.(lastUpdate := now, lastAccess := now);
      ok := bucket.tokens >= 1.0;
      if ok {
        bucket := bucket.(tokens := bucket.tokens - 1.0);
      }
      clients := clients[ip := bucket];
    }

    method Cleanup(now: real)
      modifies this
      ensures clients == Cleaned(limits, old(clients), now)
      ensures forall ip :: ip in clients <==>
        ip in old(clients) && now - old(clients)[ip].lastAccess <= limits.maxAge
      ensures forall ip :: ip in clients ==> clients[ip] == old(clients)[ip]
    {
      var todo := clients.Keys;
      while todo != {}
        invariant todo <= old(clients).Keys
        invariant clients == map ip | ip in old(clients)
          && (ip in todo || now - old(clients)[ip].lastAccess <= limits.maxAge) :: old(clients)[ip]
        decreases todo
      {
        var ip :| ip in todo;
        todo := todo - {ip};
        if now - clients[ip].lastAccess > limits.maxAge {
          clients := clients - {ip};
        }
      }
    }
  }

  // ---- schedules ----

  datatype Step = Ask(ip: string, at: real) | CleanUp(at: real)

  predicate Monotone(steps: seq<Step>) { forall i, j :: 0 <= i < j < |steps| ==> steps[i].at <= steps[j].at }

  /** The buckets after a schedule, with its cleanups or as if there were none. */
  function After(limits: Limits, cleaning: bool, steps: seq<Step>): map<string, Bucket> {
    if steps == [] then map[]
    else
      var before := After(limits, cleaning, steps[..|steps| - 1]);
      match steps[|steps| - 1]
      case Ask(ip, at) => Charged(limits, before, ip, at)
      case CleanUp(at) => if cleaning then Cleaned(limits, before, at) else before
  }

  /** Was the request at step `i` allowed? */
  predicate Answer(limits: Limits, cleaning: bool, steps: seq<Step>, i: int)
    requires 0 <= i < |steps| && steps[i].Ask?
  {
    Allows(limits, After(limits, cleaning, steps[..i]), steps[i].ip, steps[i].at)
  }

  /** How many requests of `ip` from time `from` on were allowed. */
  function Allowed(limits: Limits, cleaning: bool, steps: seq<Step>, ip: string, from: real): int {
    if steps == [] then 0
    else
      var s := steps[|steps| - 1];
      Allowed(limits, cleaning, steps[..|steps| - 1], ip, from)
        + if s.Ask? && s.ip == ip && s.at >= from && Answer(limits, cleaning, steps, |steps| - 1) then 1 else 0
  }

  predicate Sensible(limits: Limits) { limits.burst >= 1 && limits.rate >= 0.0 && limits.maxAge >= 0.0 }

  function End(steps: seq<Step>): real
    requires steps != []
  {
    steps[|steps| - 1].at
  }

  lemma Scale(a: real, b: real, r: real)
    requires a <= b && r >= 0.0
    ensures a * r <= b * r
  {
  }

  /** Buckets hold between no tokens and a full burst, and were last touched no later than now. */
  ghost predicate Sane(limits: Limits, clients: map<string, Bucket>, now: real) {
    forall ip {:trigger ip in clients} :: ip in clients ==>
      0.0 <= clients[ip].tokens <= limits.burst as real && clients[ip].lastUpdate == clients[ip].lastAccess <= now
  }

  lemma RefillIsSane(limits: Limits, b: Bucket, now: real)
    requires Sensible(limits) && 0.0 <= b.tokens <= limits.burst as real && b.lastUpdate <= now
    ensures 0.0 <= b.tokens <= Refilled(limits, b, now) <= limits.burst as real
  {
    var elapsed := now - b.lastUpdate;
    Scale(0.0, elapsed, limits.rate);
    assert elapsed * limits.rate >= 0.0;
  }

  lemma {:induction false} RunsAreSane(limits: Limits, cleaning: bool, steps: seq<Step>, now: real)
    requires Sensible(limits) && Monotone(steps) && (steps != [] ==> End(steps) <= now)
    ensures Sane(limits, After(limits, cleaning, steps), now)
  {
    hide Refilled;
    if steps != [] {
      var past, s := steps[..|steps| - 1], steps[|steps| - 1];
      RunsAreSane(limits, cleaning, past, s.at);
      var before := After(limits, cleaning, past);
      if s.Ask? && s.ip in before {
        RefillIsSane(limits, before[s.ip], s.at);
      }
    }
  }

  // ---- the bound ----

  /** Tokens a client could still spend at `now`. */
  function Credit(limits: Limits, clients: map<string, Bucket>, ip: string, now: real): real {
    if ip in clients then Refilled(limits, clients[ip], now) else limits.burst as real
  }

  lemma CreditGrows(limits: Limits, clients: map<string, Bucket>, ip: string, then_: real, now: real)
    requires Sensible(limits) && Sane(limits, clients, then_) && then_ <= now
    ensures Credit(limits, clients, ip, now) <= Credit(limits, clients, ip, then_) + (now - then_) * limits.rate
  {
    Scale(0.0, now - then_, limits.rate);
    if ip in clients {
      var b := clients[ip];
      assert (now - b.lastUpdate) * limits.rate == (then_ - b.lastUpdate) * limits.rate + (now - then_) * limits.rate;
    }
  }

  lemma AskSpends(limits: Limits, clients: map<string, Bucket>, asker: string, ip: string, now: real)
    requires Sensible(limits) && Sane(limits, clients, now)
    ensures Credit(limits, Charged(limits, clients, asker, now), ip, now) ==
            Credit(limits, clients, ip, now) - if asker == ip && Allows(limits, clients, ip, now) then 1.0 else 0.0
  {
    hide Refilled;
    if asker == ip {
      if ip in clients { RefillIsSane(limits, clients[ip], now); }
      NotAged(limits, Charged(limits, clients, asker, now)[ip], now);
    }
  }

  lemma NotAged(limits: Limits, b: Bucket, now: real)
    requires b.lastUpdate == now && b.tokens <= limits.burst as real
    ensures Refilled(limits, b, now) == b.tokens
  {
    var idle := now - b.lastUpdate;
    assert idle * limits.rate == 0.0;
  }

  lemma Spans(from: real, mid: real, now: real, rate: real)
    ensures (now - from) * rate == (mid - from) * rate + (now - mid) * rate
  {
  }

  /** What was allowed since `from`, and what could still be, never exceeds a burst plus the rate. */
  lemma {:induction false} SpentPlusCredit(limits: Limits, steps: seq<Step>, ip: string, from: real, now: real)
    requires Sensible(limits) && Monotone(steps) && (steps != [] ==> End(steps) <= now) && from <= now
    ensures Allowed(limits, false, steps, ip, from) as real + Credit(limits, After(limits, false, steps), ip, now)
            <= limits.burst as real + (now - from) * limits.rate
  {
    hide Refilled, Allows, Charged, Cleaned;
    Scale(0.0, now - from, limits.rate);
    RunsAreSane(limits, false, steps, now);
    if steps == [] {
    } else if End(steps) < from {
      NothingBefore(limits, steps, ip, from);
      CreditIsCapped(limits, After(limits, false, steps), ip, now);
    } else {
      var past, s := steps[..|steps| - 1], steps[|steps| - 1];
      SpentPlusCredit(limits, past, ip, from, s.at);
      RunsAreSane(limits, false, past, s.at);
      RunsAreSane(limits, false, steps, s.at);
      if s.Ask? {
        AskSpends(limits, After(limits, false, past), s.ip, ip, s.at);
      }
      CreditGrows(limits, After(limits, false, steps), ip, s.at, now);
      Spans(from, s.at, now, limits.rate);
    }
  }

  lemma CreditIsCapped(limits: Limits, clients: map<string, Bucket>, ip: string, now: real)
    ensures Credit(limits, clients, ip, now) <= limits.burst as real
  {
  }

  lemma {:induction false} NothingBefore(limits: Limits, steps: seq<Step>, ip: string, from: real)
    requires Monotone(steps) && steps != [] && End(steps) < from
    ensures Allowed(limits, false, steps, ip, from) == 0
  {
    if |steps| > 1 {
      NothingBefore(limits, steps[..|steps| - 1], ip, from);
    }
  }

  // ---- cleanups ----

  /** The same clients, but for some whose bucket would be full again anyway. */
  ghost predicate SameCredit(limits: Limits, clients: map<string, Bucket>, all: map<string, Bucket>, now: real) {
    forall ip {:trigger ip in all} {:trigger ip in clients} ::
      (ip in clients ==> ip in all && all[ip] == clients[ip])
      && (ip in all && ip !in clients ==> Full(limits, all[ip], now))
  }

  predicate Full(limits: Limits, b: Bucket, now: real) {
    b.tokens + (now - b.lastUpdate) * limits.rate >= limits.burst as real
  }

  lemma StaysFull(limits: Limits, b: Bucket, then_: real, now: real)
    requires Sensible(limits) && then_ <= now && Full(limits, b, then_)
    ensures Full(limits, b, now) && Refilled(limits, b, now) == limits.burst as real
  {
    Scale(then_ - b.lastUpdate, now - b.lastUpdate, limits.rate);
  }

  lemma StaleIsFull(limits: Limits, b: Bucket, now: real)
    requires Sensible(limits) && limits.maxAge * limits.rate >= limits.burst as real
    requires b.tokens >= 0.0 && b.lastUpdate == b.lastAccess && now - b.lastAccess > limits.maxAge
    ensures Full(limits, b, now)
  {
    var gained := (now - b.lastUpdate) * limits.rate;
    Scale(limits.maxAge, now - b.lastUpdate, limits.rate);
    assert b.tokens + gained >= limits.burst as real;
  }

  lemma {:induction false} CleanupsKeepCredit(limits: Limits, steps: seq<Step>, now: real)
    requires Sensible(limits) && Monotone(steps) && limits.maxAge * limits.rate >= limits.burst as real
    requires steps != [] ==> End(steps) <= now
    ensures SameCredit(limits, After(limits, true, steps), After(limits, false, steps), now)
  {
    hide Full, Refilled;
    if steps != [] {
      var past, s := steps[..|steps| - 1], steps[|steps| - 1];
      CleanupsKeepCredit(limits, past, s.at);
      RunsAreSane(limits, false, past, s.at);
      var clients, all := After(limits, true, past), After(limits, false, past);
      forall ip | ip in all
        ensures Full(limits, all[ip], s.at) ==>
          Full(limits, all[ip], now) && Refilled(limits, all[ip], s.at) == limits.burst as real
        ensures s.CleanUp? && s.at - all[ip].lastAccess > limits.maxAge ==> Full(limits, all[ip], s.at)
      {
        if Full(limits, all[ip], s.at) {
          StaysFull(limits, all[ip], s.at, now);
          StaysFull(limits, all[ip], s.at, s.at);
        }
        if s.CleanUp? && s.at - all[ip].lastAccess > limits.maxAge {
          StaleIsFull(limits, all[ip], s.at);
          StaysFull(limits, all[ip], s.at, now);
        }
      }
    }
  }

  /** If a full burst refills within maxAge, no schedule of cleanups changes any answer. */
  lemma CleanupsAreInvisible(limits: Limits, steps: seq<Step>, i: int)
    requires Sensible(limits) && Monotone(steps) && limits.maxAge * limits.rate >= limits.burst as real
    requires 0 <= i < |steps| && steps[i].Ask?
    ensures Answer(limits, true, steps, i) == Answer(limits, false, steps, i)
  {
    CleanupsKeepCredit(limits, steps[..i], steps[i].at);
    var all := After(limits, false, steps[..i]);
    if steps[i].ip in all && Full(limits, all[steps[i].ip], steps[i].at) {
      StaysFull(limits, all[steps[i].ip], steps[i].at, steps[i].at);
    }
  }

  lemma {:induction false} SameAllowed(limits: Limits, steps: seq<Step>, ip: string, from: real)
    requires Sensible(limits) && Monotone(steps) && limits.maxAge * limits.rate >= limits.burst as real
    ensures Allowed(limits, true, steps, ip, from) == Allowed(limits, false, steps, ip, from)
  {
    hide Answer;
    if steps != [] {
      SameAllowed(limits, steps[..|steps| - 1], ip, from);
      if steps[|steps| - 1].Ask? {
        CleanupsAreInvisible(limits, steps, |steps| - 1);
      }
    }
  }

  /** Every window: since `from`, no client was allowed more than a burst plus what the rate brings. */
  ghost predicate Bounded(limits: Limits) {
    forall steps, ip, from :: Monotone(steps) && steps != [] && from <= End(steps) ==>
      WithinBound(limits, steps, ip, from)
  }

  ghost predicate WithinBound(limits: Limits, steps: seq<Step>, ip: string, from: real)
    requires steps != []
  {
    Allowed(limits, true, steps, ip, from) as real <= limits.burst as real + (End(steps) - from) * limits.rate
  }

  lemma BoundHolds(limits: Limits, steps: seq<Step>, ip: string, from: real)
    requires Sensible(limits) && limits.maxAge * limits.rate >= limits.burst as real
    requires Monotone(steps) && steps != [] && from <= End(steps)
    ensures WithinBound(limits, steps, ip, from)
  {
    hide After, Allowed, Monotone, Refilled;
    SameAllowed(limits, steps, ip, from);
    SpentPlusCredit(limits, steps, ip, from, End(steps));
    RunsAreSane(limits, false, steps, End(steps));
    CreditIsPositive(limits, After(limits, false, steps), ip, End(steps));
  }

  lemma CreditIsPositive(limits: Limits, clients: map<string, Bucket>, ip: string, now: real)
    requires Sensible(limits) && Sane(limits, clients, now)
    ensures Credit(limits, clients, ip, now) >= 0.0
  {
    if ip in clients {
      RefillIsSane(limits, clients[ip], now);
    }
  }

  // ---- when cleanups come too early ----

  function Asks(n: nat, at: real): seq<Step> { seq(n, _ => Ask("a", at)) }

  /** A whole burst at once, then a cleanup as soon as the bucket is stale, then a burst again. */
  function TwoBursts(burst: nat, later: real): seq<Step> { Asks(burst, 0.0) + [CleanUp(later)] + Asks(burst, later) }

  function Spent(limits: Limits, n: nat, at: real): map<string, Bucket> {
    if n == 0 then map[] else map["a" := Bucket((limits.burst - n) as real, at, at)]
  }

  lemma OneMoreOfBurst(limits: Limits, n: nat, at: real)
    requires n < limits.burst
    ensures Allows(limits, Spent(limits, n, at), "a", at)
      && Charged(limits, Spent(limits, n, at), "a", at) == Spent(limits, n + 1, at)
  {
    var clients, left := Spent(limits, n, at), (limits.burst - n) as real;
    assert left - 1.0 == (limits.burst - (n + 1)) as real && left <= limits.burst as real;
    hide Refilled;
    if n > 0 { NotAged(limits, clients["a"], at); }
    assert Charged(limits, clients, "a", at)["a"] == Bucket(left - 1.0, at, at);
    assert Charged(limits, clients, "a", at).Keys == {"a"};
  }

  lemma {:induction false} BurstIsAllowed(limits: Limits, before: seq<Step>, n: nat, at: real)
    requires n <= limits.burst && After(limits, true, before) == map[] && at >= 0.0
    ensures var steps := before + Asks(n, at);
      && After(limits, true, steps) == Spent(limits, n, at)
      && Allowed(limits, true, steps, "a", 0.0) == Allowed(limits, true, before, "a", 0.0) + n
  {
    hide Allows, Charged;
    var steps := before + Asks(n, at);
    if n == 0 {
      assert steps == before;
    } else {
      BurstIsAllowed(limits, before, n - 1, at);
      OneMoreOfBurst(limits, n - 1, at);
      hide Spent;
      assert steps[..|steps| - 1] == before + Asks(n - 1, at);
      assert steps[|steps| - 1] == Ask("a", at);
    }
  }

  lemma TwoBurstsAreAllowed(limits: Limits, later: real)
    requires Sensible(limits) && later > limits.maxAge
    ensures Allowed(limits, true, TwoBursts(limits.burst, later), "a", 0.0) == 2 * limits.burst
  {
    hide Charged, Allows, Monotone;
    var first := Asks(limits.burst, 0.0);
    assert [] + first == first;
    BurstIsAllowed(limits, [], limits.burst, 0.0);
    var cleaned := first + [CleanUp(later)];
    assert cleaned[..|cleaned| - 1] == first;
    assert After(limits, true, cleaned) == map[];
    hide Cleaned;
    BurstIsAllowed(limits, cleaned, limits.burst, later);
  }

  lemma TwoBurstsAreOrdered(limits: Limits, later: real)
    requires Sensible(limits) && later > limits.maxAge
    ensures Monotone(TwoBursts(limits.burst, later)) && End(TwoBursts(limits.burst, later)) == later
  {
  }

  lemma TooMany(limits: Limits)
    requires Sensible(limits) && limits.maxAge * limits.rate < limits.burst as real
    ensures !Bounded(limits)
  {
    hide Allowed, Monotone, End;
    var later := Early(limits);
    TwoBurstsAreAllowed(limits, later);
    TwoBurstsAreOrdered(limits, later);
    var steps := TwoBursts(limits.burst, later);
    assert !WithinBound(limits, steps, "a", 0.0);
  }

  /** The bound holds on every schedule exactly if a full burst refills within maxAge. */
  lemma BoundedExactlyIfRefilled(limits: Limits)
    requires Sensible(limits)
    ensures Bounded(limits) <==> limits.maxAge * limits.rate >= limits.burst as real
  {
    hide Allowed, Monotone, TwoBursts, End;
    if limits.maxAge * limits.rate >= limits.burst as real {
      hide Sensible, WithinBound;
      forall steps, ip, from | Monotone(steps) && steps != [] && from <= End(steps)
        ensures WithinBound(limits, steps, ip, from) {
        BoundHolds(limits, steps, ip, from);
      }
    } else {
      TooMany(limits);
    }
  }

  /** A moment after maxAge, but before a full burst has been refilled. */
  lemma Early(limits: Limits) returns (later: real)
    requires Sensible(limits) && limits.maxAge * limits.rate < limits.burst as real
    ensures later > limits.maxAge && later * limits.rate < limits.burst as real
  {
    if limits.rate == 0.0 {
      later := limits.maxAge + 1.0;
    } else {
      var full := limits.burst as real / limits.rate;
      assert full * limits.rate == limits.burst as real;
      if full <= limits.maxAge { Scale(full, limits.maxAge, limits.rate); }
      later := (limits.maxAge + full) / 2.0;
      assert later * limits.rate == (limits.maxAge * limits.rate + full * limits.rate) / 2.0;
    }
  }
}
