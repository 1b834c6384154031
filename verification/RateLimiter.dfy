/** Per-IP token buckets and the eviction of idle ones
    (internal/infrastructure/adapters/rest/ratelimit.go).

    Tokens are counted in units of which a bucket earns one per nanosecond: at 100 requests per second a
    request costs ten million units, and a burst of 20 is two hundred million. */
module RateLimiter {
  import opened Events

  const RATE_LIMIT := 100                       // requests per second
  const BURST_LIMIT := 20
  const COST := SECOND / RATE_LIMIT             // units of one request
  const FULL := BURST_LIMIT * COST              // units of a full bucket
  const CLEANUP_AGE := 10 * MINUTE

  datatype Bucket = Bucket(units: nat, last: Instant)
  datatype Entry = Entry(bucket: Bucket, lastSeen: Instant)
  type Limiters = map<string, Entry>

  function Min(a: int, b: int): int { if a < b then a else b }

  /** Units in the bucket at a time; a clock that ran backwards earns nothing. */
  function Level(b: Bucket, now: Instant): nat {
    Min(FULL, b.units + if now > b.last then now - b.last else 0)
  }

  function Fresh(): Bucket { Bucket(FULL, 0) }

  /** A denied request leaves the bucket as it was. */
  function Spend(b: Bucket, now: Instant): (bool, Bucket) {
    if Level(b, now) >= COST then (true, Bucket(Level(b, now) - COST, now)) else (false, b)
  }

  function BucketOf(m: Limiters, ip: string): Bucket {
    if ip in m then m[ip].bucket else Fresh()
  }

  function Requested(m: Limiters, ip: string, now: Instant): Limiters {
    m[ip := Entry(Spend(BucketOf(m, ip), now).1, now)]
  }

  predicate Stale(e: Entry, now: Instant) {
    e.lastSeen < now - CLEANUP_AGE
  }

  function Cleaned(m: Limiters, now: Instant): Limiters {
    map ip | ip in m && !Stale(m[ip], now) :: m[ip]
  }

  /** A bucket earns a unit per nanosecond up to 20 requests' worth; a request is let through exactly when
      its ten million units are there, and then takes them. */
  predicate Asked(b: Bucket, now: Instant, ok: bool, after: Bucket) {
    var earned := b.units + if now > b.last then now - b.last else 0;
    && (ok <==> earned >= 10_000_000)
    && (ok ==> after.last == now &&
               after.units == (if earned > 200_000_000 then 200_000_000 else earned) - 10_000_000)
    && (!ok ==> after == b)
  }

  /** The limiter object; looking an entry up and asking it are one step. */
  class Limiter {
    var limiters: Limiters

    constructor ()
      ensures limiters == map[]
    {
      limiters := map[];
    }

    method Allow(ip: string, now: Instant) returns (ok: bool)
      modifies this
      ensures ok == Spend(BucketOf(old(limiters), ip), now).0
      ensures limiters == Requested(old(limiters), ip, now)
      ensures ip !in old(limiters) ==> ok && limiters[ip].bucket == Bucket(190_000_000, now)
      ensures ip in old(limiters) ==> Asked(old(limiters)[ip].bucket, now, ok, limiters[ip].bucket)
      ensures ip in limiters && limiters[ip].lastSeen == now && limiters - {ip} == old(limiters) - {ip}
    {
      var entry := Entry(Fresh(), now);
      if ip in limiters {
        entry := Entry(limiters[ip].bucket, now);
      }
      var spent := Spend(entry.bucket, now);
      limiters := limiters[ip := entry.(bucket := spent.1)];
      ok := spent.0;
    }

    /** One tick of the cleanup loop. */
    method Cleanup(now: Instant)
      modifies this
      ensures limiters == Cleaned(old(limiters), now)
      ensures forall ip :: ip in limiters <==>
                ip in old(limiters) && old(limiters)[ip].lastSeen + 600_000_000_000 >= now
      ensures forall ip :: ip in limiters ==> limiters[ip] == old(limiters)[ip]
    {
      var todo := limiters.Keys;
      ghost var before := limiters;
      while todo != {}
        invariant todo <= before.Keys
        invariant limiters == map ip | ip in before && (ip in todo || !Stale(before[ip], now)) :: before[ip]
        decreases |todo|
      {
        var ip :| ip in todo;
        if Stale(limiters[ip], now) {
          limiters := limiters - {ip};
        }
        todo := todo - {ip};
      }
    }
  }

  // ---- Histories ----

  datatype Event = Request(ip: string, at: Instant) | Tick(at: Instant)

  function After(m: Limiters, e: Event, evict: bool): Limiters {
    match e
    case Request(ip, at) => Requested(m, ip, at)
    case Tick(at) => if evict then Cleaned(m, at) else m
  }

  /** The answers given to the requests of a history, with or without eviction. */
  function Decisions(m: Limiters, history: seq<Event>, evict: bool): seq<bool>
    decreases |history|
  {
    if history == [] then []
    else
      (match history[0]
       case Request(ip, at) => [Spend(BucketOf(m, ip), at).0]
       case Tick(_) => []) +
      Decisions(After(m, history[0], evict), history[1..], evict)
  }

  predicate Ordered(history: seq<Event>, from: Instant)
    decreases |history|
  {
    history == [] || (from <= history[0].at && Ordered(history[1..], history[0].at))
  }

  /** Buckets were last touched no later than their entries were seen, and not in the future. */
  ghost predicate Sound(m: Limiters, now: Instant) {
    forall ip :: ip in m ==>
      m[ip].bucket.units <= FULL && m[ip].bucket.last <= m[ip].lastSeen <= now
  }

  /** The evicting map has the same entries, or has dropped one whose bucket is full again. */
  ghost predicate Agree(evicting: Limiters, keeping: Limiters, now: Instant) {
    && (forall ip :: ip in evicting ==> ip in keeping && evicting[ip] == keeping[ip])
    && (forall ip :: ip in keeping && ip !in evicting ==> Level(keeping[ip].bucket, now) == FULL)
  }

  /** Ten minutes without a request fill any bucket, so a stale entry stands for a fresh one. */
  lemma StaleIsFull(e: Entry, now: Instant)
    requires e.bucket.last <= e.lastSeen && Stale(e, now)
    ensures Level(e.bucket, now) == FULL
  {
  }

  lemma FullStaysFull(b: Bucket, now: Instant, later: Instant)
    requires Level(b, now) == FULL && now <= later
    ensures Level(b, later) == FULL
  {
  }

  lemma FullBucketsSpendAlike(a: Bucket, b: Bucket, at: Instant)
    requires Level(a, at) == FULL && Level(b, at) == FULL
    ensures Spend(a, at) == Spend(b, at)
  {
    assert FULL >= COST;
  }

  lemma RequestAgrees(evicting: Limiters, keeping: Limiters, now: Instant, ip: string)
    requires Agree(evicting, keeping, now)
    ensures Agree(Requested(evicting, ip, now), Requested(keeping, ip, now), now)
    ensures Spend(BucketOf(evicting, ip), now).0 == Spend(BucketOf(keeping, ip), now).0
  {
    if ip in keeping && ip !in evicting {
      FullBucketsSpendAlike(Fresh(), keeping[ip].bucket, now);
    }
  }

  lemma StepSound(m: Limiters, now: Instant, e: Event, evict: bool)
    requires Sound(m, now) && now <= e.at
    ensures Sound(After(m, e, evict), e.at)
  {
  }

  lemma StepAgrees(evicting: Limiters, keeping: Limiters, now: Instant, e: Event)
    requires Agree(evicting, keeping, now) && Sound(evicting, now) && now <= e.at
    ensures Agree(After(evicting, e, true), After(keeping, e, false), e.at)
    ensures e.Request? ==>
              Spend(BucketOf(evicting, e.ip), e.at).0 == Spend(BucketOf(keeping, e.ip), e.at).0
  {
    forall ip | ip in keeping && ip !in evicting ensures Level(keeping[ip].bucket, e.at) == FULL {
      FullStaysFull(keeping[ip].bucket, now, e.at);
    }
    match e
    case Request(ip, at) => RequestAgrees(evicting, keeping, at, ip);
    case Tick(at) =>
      forall ip | ip in evicting && Stale(evicting[ip], at) ensures Level(evicting[ip].bucket, at) == FULL {
        StaleIsFull(evicting[ip], at);
      }
  }

  lemma {:induction false} DecisionsAgree(evicting: Limiters, keeping: Limiters, history: seq<Event>, now: Instant)
    requires Agree(evicting, keeping, now) && Sound(evicting, now) && Sound(keeping, now)
    requires Ordered(history, now)
    ensures Decisions(evicting, history, true) == Decisions(keeping, history, false)
    decreases |history|
  {
    if history != [] {
      var e := history[0];
      StepAgrees(evicting, keeping, now, e);
      StepSound(evicting, now, e, true);
      StepSound(keeping, now, e, false);
      DecisionsAgree(After(evicting, e, true), After(keeping, e, false), history[1..], e.at);
    }
  }

  /** For every history of requests and cleanup ticks, evicting idle entries changes no answer. */
  lemma CleanupIsUnobservable(history: seq<Event>)
    requires Ordered(history, 0)
    ensures Decisions(map[], history, true) == Decisions(map[], history, false)
  {
    DecisionsAgree(map[], map[], history, 0);
  }

  // ---- Rate bound ----

  function Run(m: Limiters, history: seq<Event>): Limiters
    decreases |history|
  {
    if history == [] then m else Run(After(m, history[0], true), history[1..])
  }

  /** 1 when the event is a request of the IP that is let through. */
  function Passed(m: Limiters, e: Event, ip: string): nat {
    if e.Request? && e.ip == ip && Spend(BucketOf(m, ip), e.at).0 then 1 else 0
  }

  /** Requests of one IP that are let through. */
  function Admitted(m: Limiters, history: seq<Event>, ip: string): nat
    decreases |history|
  {
    if history == [] then 0
    else Passed(m, history[0], ip) + Admitted(After(m, history[0], true), history[1..], ip)
  }

  /** What a request pays for, and what a denied one keeps. */
  lemma SpendIsPaid(b: Bucket, at: Instant)
    ensures (if Spend(b, at).0 then COST else 0) + Level(Spend(b, at).1, at) == Level(b, at)
  {
  }

  /** One event: what passes, plus what is left, is covered by the level before and the time earned. */
  lemma StepIsPaid(m: Limiters, e: Event, ip: string, now: Instant)
    requires Sound(m, now) && now <= e.at
    ensures COST * Passed(m, e, ip) + Level(BucketOf(After(m, e, true), ip), e.at) <=
            Level(BucketOf(m, ip), now) + e.at - now
  {
    var b := BucketOf(m, ip);
    assert Level(b, e.at) <= Level(b, now) + e.at - now;
    SpendIsPaid(b, e.at);
    assert COST * Passed(m, e, ip) == if Passed(m, e, ip) == 1 then COST else 0;
    if e.Tick? && ip in m && Stale(m[ip], e.at) {
      StaleIsFull(m[ip], e.at);
    }
  }

  lemma CostAdds(a: nat, b: nat)
    ensures COST * (a + b) == COST * a + COST * b
  {
  }

  /** What an IP is let through is paid from the level it starts with and what it earns meanwhile. */
  lemma {:induction false} AdmittedIsPaid(m: Limiters, history: seq<Event>, ip: string, now: Instant, end: Instant)
    requires Sound(m, now) && Ordered(history, now) && now <= end
    requires forall e :: e in history ==> e.at <= end
    ensures COST * Admitted(m, history, ip) <= Level(BucketOf(m, ip), now) + end - now
    decreases |history|
  {
    if history != [] {
      var e := history[0];
      var m' := After(m, e, true);
      assert e in history && forall x :: x in history[1..] ==> x in history;
      StepSound(m, now, e, true);
      StepIsPaid(m, e, ip, now);
      AdmittedIsPaid(m', history[1..], ip, e.at, end);
      var passed, more := Passed(m, e, ip), Admitted(m', history[1..], ip);
      CostAdds(passed, more);
    }
  }

  lemma {:induction false} RunSound(m: Limiters, history: seq<Event>, now: Instant, end: Instant)
    requires Sound(m, now) && Ordered(history, now) && now <= end
    requires forall e :: e in history ==> e.at <= end
    ensures Sound(Run(m, history), end)
    decreases |history|
  {
    if history != [] {
      StepSound(m, now, history[0], true);
      RunSound(After(m, history[0], true), history[1..], history[0].at, end);
    }
  }

  lemma InSeconds(admitted: nat, d: nat)
    requires COST * admitted <= FULL + d
    ensures SECOND * admitted <= BURST_LIMIT * SECOND + RATE_LIMIT * d
  {
    assert COST == 10_000_000 && FULL == 200_000_000;
    assert 10_000_000 * admitted <= 200_000_000 + d;
    assert 1_000_000_000 * admitted <= 20_000_000_000 + 100 * d;
  }

  /** In every history, a window of length d starting at any time lets through at most
      20 + 100 d requests of one IP, evictions included. */
  lemma WindowBound(before: seq<Event>, window: seq<Event>, ip: string, start: Instant, d: nat)
    requires Ordered(before, 0) && (forall e :: e in before ==> e.at <= start)
    requires Ordered(window, start) && (forall e :: e in window ==> e.at <= start + d)
    ensures SECOND * Admitted(Run(map[], before), window, ip) <= BURST_LIMIT * SECOND + RATE_LIMIT * d
  {
    RunSound(map[], before, 0, start);
    AdmittedIsPaid(Run(map[], before), window, ip, start, start + d);
    InSeconds(Admitted(Run(map[], before), window, ip), d);
  }

  // ---- What is let through ----

  function Requests(history: seq<Event>, ip: string): nat
    decreases |history|
  {
    if history == [] then 0
    else (if history[0].Request? && history[0].ip == ip then 1 else 0) + Requests(history[1..], ip)
  }

  /** No event lowers the level by more than a request that passes. */
  lemma StepKeepsLevel(m: Limiters, e: Event, ip: string, now: Instant)
    requires Sound(m, now) && now <= e.at
    ensures Level(BucketOf(After(m, e, true), ip), e.at) >=
            Level(BucketOf(m, ip), now) - (if Passed(m, e, ip) == 1 then COST else 0)
  {
    assert Level(BucketOf(m, ip), e.at) >= Level(BucketOf(m, ip), now);
    SpendIsPaid(BucketOf(m, ip), e.at);
  }

  /** Tokens are not withheld: of the requests of an IP at least as many pass as its bucket holds tokens for,
      or all of them, whatever the other IPs do and whatever is evicted. */
  lemma {:induction false} TokensAreGranted(m: Limiters, history: seq<Event>, ip: string, now: Instant, n: nat)
    requires Sound(m, now) && Ordered(history, now)
    requires n <= Requests(history, ip) && 10_000_000 * n <= Level(BucketOf(m, ip), now)
    ensures Admitted(m, history, ip) >= n
    decreases |history|
  {
    if n > 0 {
      var e := history[0];
      StepSound(m, now, e, true);
      StepKeepsLevel(m, e, ip, now);
      assert Level(BucketOf(m, ip), e.at) >= Level(BucketOf(m, ip), now) >= COST;
      TokensAreGranted(After(m, e, true), history[1..], ip, e.at, n - Passed(m, e, ip));
    }
  }

  /** The first 20 requests of an IP not seen before all pass, however fast they come. */
  lemma BurstPasses(m: Limiters, history: seq<Event>, ip: string, now: Instant)
    requires Sound(m, now) && Ordered(history, now) && ip !in m
    ensures Admitted(m, history, ip) >= Min(20, Requests(history, ip))
  {
    TokensAreGranted(m, history, ip, now, Min(20, Requests(history, ip)));
  }

  /** The requests of the IP come no earlier than the given time and at least 10 ms after one another. */
  predicate Spaced(history: seq<Event>, ip: string, earliest: nat)
    decreases |history|
  {
    history == [] ||
    if history[0].Request? && history[0].ip == ip
    then earliest <= history[0].at && Spaced(history[1..], ip, history[0].at + 10_000_000)
    else Spaced(history[1..], ip, earliest)
  }

  /** An IP that keeps to 100 requests per second is never refused. */
  lemma {:induction false} SpacedRequestsPass(m: Limiters, history: seq<Event>, ip: string, earliest: nat)
    requires Spaced(history, ip, earliest) && (ip in m ==> m[ip].bucket.last + 10_000_000 <= earliest)
    ensures Admitted(m, history, ip) == Requests(history, ip)
    decreases |history|
  {
    if history != [] {
      var e := history[0];
      var next := if e.Request? && e.ip == ip then e.at + 10_000_000 else earliest;
      SpacedRequestsPass(After(m, e, true), history[1..], ip, next);
    }
  }
}
