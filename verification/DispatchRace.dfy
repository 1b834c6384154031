/** The dispatcher and the aggregator at work on the same tables, statement by statement
    (internal/infrastructure/adapters/repositories/analytics_coordinator.go,
    internal/infrastructure/adapters/repositories/analytics_worker_repo.go).

    The two jobs hold different locks, so the aggregator may re-queue an item between any two statements
    the dispatcher spends on it. One dispatcher runs at a time (AdvisoryLocks). */
module DispatchRace {
  import opened Events
  import opened AnalyticsWorker
  import opened AnalyticsCoordinator

  /** An item as picked, with the time of the first failure of its round of attempts. */
  datatype Taken = Taken(key: StatsKey, attempts: nat, firstFail: Option<Instant>)

  /** Where the dispatch loop stands. raced: the item's statistics were recalculated since they were read.
      now: the clock as read before the two statements of a retry. */
  datatype Hand =
    | Idle
    | AtItem(todo: seq<Taken>)
    | HasStats(item: Taken, todo: seq<Taken>, row: StatsRow, raced: bool)
    | Delivered(item: Taken, todo: seq<Taken>, row: StatsRow, raced: bool)
    | Backing(item: Taken, todo: seq<Taken>, error: string, now: Instant)
    | Writing(item: Taken, todo: seq<Taken>, error: string, now: Instant, base: nat)

  datatype State = State(
    maxAttempts: int, clock: Instant, stats: Stats, queue: Queue, hand: Hand,
    delivered: map<StatsKey, StatsRow>,     // last payload the receiver took, per key
    stale: set<StatsKey>,                   // keys whose last SENT update was raced
    firstFail: map<StatsKey, Instant>)      // first failed attempt since the last re-queue

  type Fresh = map<StatsKey, (Option<Plant>, Metrics)>

  datatype Step =
    | Tick(d: nat)
    | Aggregate(rows: Fresh)
    | Pick(keys: seq<StatsKey>)
    | Exhaust(ok: bool)
    | ReadStats(error: Option<string>, ok: bool)
    | Send(error: Option<string>)
    | MarkSent(ok: bool)
    | ReadAttempts(ok: bool)
    | WriteRetry(ok: bool, jitter: nat)
    | Finish
    | Abandon

  predicate Distinct(keys: seq<StatsKey>) {
    forall i, j :: 0 <= i < j < |keys| ==> keys[i] != keys[j]
  }

  predicate Enabled(s: State, step: Step) {
    match step
    case Tick(_) => true
    case Aggregate(_) => true
    case Pick(keys) =>
      s.hand == Idle && Distinct(keys) && forall k :: k in keys ==> k in s.queue && Due(s.queue[k], s.clock)
    case Exhaust(_) => s.hand.AtItem? && s.hand.todo != [] && s.hand.todo[0].attempts >= s.maxAttempts
    case ReadStats(_, _) => s.hand.AtItem? && s.hand.todo != [] && s.hand.todo[0].attempts < s.maxAttempts
    case Send(_) => s.hand.HasStats?
    case MarkSent(_) => s.hand.Delivered?
    case ReadAttempts(_) => s.hand.Backing?
    case WriteRetry(_, jitter) => s.hand.Writing? && jitter <= s.hand.base / 3
    case Finish => s.hand == AtItem([])
    case Abandon => true
  }

  function Take(s: State, k: StatsKey): Taken {
    Taken(k, if k in s.queue then s.queue[k].attempts else 0,
          if k in s.firstFail then Some(s.firstFail[k]) else None)
  }

  /** An update of one row; without the row nothing happens. */
  function Marked(s: State, ok: bool, k: StatsKey, status: Status, error: string, now: Instant, seconds: nat): Queue {
    if ok && k in s.queue then s.queue[k := StatusUpdated(s.queue[k], status, error, now, seconds)] else s.queue
  }

  function Stamped(rows: Fresh, now: Instant): Stats {
    map k | k in rows :: StatsRow(rows[k].0, rows[k].1, now)
  }

  /** Recalculations are stamped with later and later times. */
  function Aggregated(s: State, rows: Fresh): State {
    var now := s.clock + 1;
    s.(clock := now, stats := s.stats + Stamped(rows, now), queue := Requeued(s.queue, rows.Keys, now),
       firstFail := s.firstFail - rows.Keys,
       hand := match s.hand
         case HasStats(x, todo, row, raced) => HasStats(x, todo, row, raced || x.key in rows)
         case Delivered(x, todo, row, raced) => Delivered(x, todo, row, raced || x.key in rows)
         case h => h)
  }

  function Retried(s: State, ok: bool, jitter: nat): State
    requires s.hand.Writing?
  {
    var h := s.hand;
    var k := h.item.key;
    s.(hand := AtItem(h.todo), queue := Marked(s, ok, k, Retrying, h.error, h.now, h.base + jitter),
       firstFail := if ok && k in s.queue && s.queue[k].attempts == 0 then s.firstFail[k := h.now] else s.firstFail)
  }

  function Apply(s: State, step: Step): State
    requires Enabled(s, step)
  {
    match step
    case Tick(d) => s.(clock := s.clock + d)
    case Aggregate(rows) => Aggregated(s, rows)
    case Pick(keys) => s.(hand := AtItem(seq(|keys|, i requires 0 <= i < |keys| => Take(s, keys[i]))))
    case Exhaust(ok) =>
      s.(hand := AtItem(s.hand.todo[1..]),
         queue := Marked(s, ok, s.hand.todo[0].key, Failed, "max attempts exceeded", s.clock, 0))
    case ReadStats(error, ok) =>
      var x, rest := s.hand.todo[0], s.hand.todo[1..];
      if error.Some? then s.(hand := Backing(x, rest, error.value, s.clock))
      else if x.key in s.stats then s.(hand := HasStats(x, rest, s.stats[x.key], false))
      else s.(hand := AtItem(rest), queue := Marked(s, ok, x.key, Failed, "stats not found", s.clock, 0))
    case Send(error) =>
      if error.Some? then s.(hand := Backing(s.hand.item, s.hand.todo, error.value, s.clock))
      else s.(hand := Delivered(s.hand.item, s.hand.todo, s.hand.row, s.hand.raced),
              delivered := s.delivered[s.hand.item.key := s.hand.row])
    case MarkSent(ok) =>
      var k := s.hand.item.key;
      s.(hand := AtItem(s.hand.todo), queue := Marked(s, ok, k, Sent, "", s.clock, 0),
         stale := if !ok then s.stale else if s.hand.raced then s.stale + {k} else s.stale - {k})
    case ReadAttempts(ok) =>
      var k := s.hand.item.key;
      if !ok || k !in s.queue then s.(hand := AtItem(s.hand.todo))
      else if BackoffBase(s.queue[k].attempts) < 0 then s.(hand := Idle)   // the random source panics
      else
        s.(hand := Writing(s.hand.item, s.hand.todo, s.hand.error, s.hand.now, BackoffBase(s.queue[k].attempts)))
    case WriteRetry(ok, jitter) => Retried(s, ok, jitter)
    case Finish => s.(hand := Idle)
    case Abandon => s.(hand := Idle)
  }

  function Init(maxAttempts: int, clock: Instant): State {
    State(maxAttempts, clock, map[], map[], Idle, map[], {}, map[])
  }

  predicate ValidRun(s: State, run: seq<Step>)
    decreases |run|
  {
    run == [] || (Enabled(s, run[0]) && ValidRun(Apply(s, run[0]), run[1..]))
  }

  function After(s: State, run: seq<Step>): State
    requires ValidRun(s, run)
    decreases |run|
  {
    if run == [] then s else After(Apply(s, run[0]), run[1..])
  }

  /** What a recalculation of AnalyticsWorker does to the view is such an aggregation step, with the full
      values of the dirty buckets (RecalculationRefreshes). */
  lemma RecalculationIsAggregation(
    stats: Stats, after: Stats, events: Samples, plants: map<Uuid, Plant>, dirty: set<StatsKey>, now: Instant,
    rows: Fresh)
    requires Refreshed(stats, after, events, plants, dirty, now)
    requires rows.Keys == dirty
    requires forall key :: key in dirty ==> rows[key] == (InfoOf(plants, key.plant), FullMetrics(events, key))
    ensures after == stats + Stamped(rows, now)
  {
    var sum := stats + Stamped(rows, now);
    assert after.Keys == sum.Keys;
    assert forall key :: key in after ==> after[key] == sum[key];
  }

  // ---- Invariant ----

  function Held(h: Hand): seq<Taken> {
    match h
    case Idle => []
    case AtItem(todo) => todo
    case HasStats(x, todo, _, _) => [x] + todo
    case Delivered(x, todo, _, _) => [x] + todo
    case Backing(x, todo, _, _) => [x] + todo
    case Writing(x, todo, _, _, _) => [x] + todo
  }

  /** Seconds of backoff behind an item with n failed attempts, at the least. */
  function Waited(n: nat): nat {
    if n == 0 then 0 else Waited(n - 1) + Backoff(n - 1)
  }

  const LONGEST_DELAY := 640 * SECOND

  /** With so many attempts the backoff stays inside the machine word. */
  predicate WordHolds(s: State) { s.maxAttempts <= 59 }

  /** What every queue row satisfies. */
  predicate ItemOk(s: State, k: StatsKey)
    requires k in s.queue
  {
    var item := s.queue[k];
    && (item.attempts <= s.maxAttempts || item.attempts == 0)
    && (item.lastAttempt.Some? ==> item.lastAttempt.value <= s.clock)
    && (item.nextRetryAt.Some? ==>
          item.lastAttempt.Some? && item.nextRetryAt.value <= item.lastAttempt.value + LONGEST_DELAY)
    && (WordHolds(s) && Live(item) && item.attempts > 0 ==>
          k in s.firstFail && item.nextRetryAt.Some? &&
          item.nextRetryAt.value >= s.firstFail[k] + Waited(item.attempts) * SECOND)
  }

  /** What the dispatcher knows of an item it has picked and not yet dealt with. */
  predicate TakenOk(s: State, x: Taken) {
    && x.key in s.queue && Live(s.queue[x.key])
    && (s.queue[x.key].attempts == x.attempts || s.queue[x.key].attempts == 0)
    && (WordHolds(s) && s.queue[x.key].attempts > 0 ==>
          s.queue[x.key].nextRetryAt.Some? && s.queue[x.key].nextRetryAt.value <= s.clock)
    && (WordHolds(s) && x.attempts > 0 ==>
          x.firstFail.Some? && s.clock >= x.firstFail.value + Waited(x.attempts) * SECOND)
  }

  /** The clock was read in this cycle, when the item was due. */
  predicate ReadBefore(s: State, k: StatsKey, now: Instant) {
    now <= s.clock &&
    (WordHolds(s) && k in s.queue && s.queue[k].attempts > 0 ==>
       s.queue[k].nextRetryAt.Some? && s.queue[k].nextRetryAt.value <= now)
  }

  predicate HandOk(s: State) {
    match s.hand
    case Idle => true
    case AtItem(_) => true
    case HasStats(x, _, row, raced) =>
      x.attempts < s.maxAttempts && x.key in s.stats && row.calculatedAt <= s.clock &&
      (raced <==> row != s.stats[x.key])
    case Delivered(x, _, row, raced) =>
      x.attempts < s.maxAttempts && x.key in s.stats && row.calculatedAt <= s.clock &&
      (raced <==> row != s.stats[x.key]) &&
      x.key in s.delivered && s.delivered[x.key] == row
    case Backing(x, _, _, now) => x.attempts < s.maxAttempts && ReadBefore(s, x.key, now)
    case Writing(x, _, _, now, base) =>
      x.attempts < s.maxAttempts && ReadBefore(s, x.key, now) && base <= 480 &&
      (WordHolds(s) ==> base >= 30) &&
      (WordHolds(s) && x.key in s.queue && s.queue[x.key].attempts > 0 ==> base == Backoff(s.queue[x.key].attempts))
  }

  /** A SENT item was last delivered its current row, unless its SENT update was raced. */
  predicate FreshOk(s: State, k: StatsKey)
    requires k in s.queue
  {
    s.queue[k].status == Sent ==>
      k in s.delivered && k in s.stats && (k in s.stale <==> s.delivered[k] != s.stats[k])
  }

  ghost predicate DistinctTaken(held: seq<Taken>) {
    forall i, j :: 0 <= i < j < |held| ==> held[i].key != held[j].key
  }

  ghost predicate Inv(s: State) {
    && s.stats.Keys == s.queue.Keys
    && (forall k :: k in s.stats ==> s.stats[k].calculatedAt <= s.clock)
    && (forall k :: k in s.queue ==> ItemOk(s, k))
    && (forall k :: k in s.queue ==> FreshOk(s, k))
    && (forall x :: x in Held(s.hand) ==> TakenOk(s, x))
    && DistinctTaken(Held(s.hand))
    && HandOk(s)
  }

  lemma TickKeepsInv(s: State, d: nat)
    requires Inv(s)
    ensures Inv(s.(clock := s.clock + d))
  {
    var t := s.(clock := s.clock + d);
    forall k | k in t.queue ensures ItemOk(t, k) && FreshOk(t, k) {
      assert ItemOk(s, k) && FreshOk(s, k);
    }
    forall x | x in Held(t.hand) ensures TakenOk(t, x) {
      assert TakenOk(s, x);
    }
  }

  lemma AggregateKeepsItems(s: State, rows: Fresh, k: StatsKey)
    requires Inv(s) && k in Aggregated(s, rows).queue
    ensures ItemOk(Aggregated(s, rows), k) && FreshOk(Aggregated(s, rows), k)
  {
    var t := Aggregated(s, rows);
    if k in s.queue {
      assert ItemOk(s, k) && FreshOk(s, k);
      if k !in rows {
        assert t.queue[k] == s.queue[k] && t.stats[k] == s.stats[k];
      }
    }
  }

  lemma AggregateKeepsTaken(s: State, rows: Fresh, x: Taken)
    requires TakenOk(s, x)
    ensures TakenOk(Aggregated(s, rows), x)
  {
    var t := Aggregated(s, rows);
    if x.key !in rows {
      assert t.queue[x.key] == s.queue[x.key];
    }
  }

  lemma AggregateKeepsHand(s: State, rows: Fresh)
    requires Inv(s)
    ensures HandOk(Aggregated(s, rows)) && Held(Aggregated(s, rows).hand) == Held(s.hand)
  {
    var t := Aggregated(s, rows);
    if s.hand.HasStats? || s.hand.Delivered? {
      var k := s.hand.item.key;
      assert t.stats[k] == if k in rows then StatsRow(rows[k].0, rows[k].1, t.clock) else s.stats[k];
    } else if s.hand.Writing? || s.hand.Backing? {
      var k := s.hand.item.key;
      assert s.hand.item in Held(s.hand);
      assert TakenOk(s, s.hand.item);
      assert t.queue[k].attempts == if k in rows then 0 else s.queue[k].attempts;
    }
  }

  lemma AggregateKeepsInv(s: State, rows: Fresh)
    requires Inv(s)
    ensures Inv(Aggregated(s, rows))
  {
    var t := Aggregated(s, rows);
    assert t.stats.Keys == s.stats.Keys + rows.Keys && t.queue.Keys == s.queue.Keys + rows.Keys;
    AggregateKeepsHand(s, rows);
    forall k | k in t.queue ensures ItemOk(t, k) && FreshOk(t, k) {
      AggregateKeepsItems(s, rows, k);
    }
    forall x | x in Held(t.hand) ensures TakenOk(t, x) {
      AggregateKeepsTaken(s, rows, x);
    }
    forall k | k in t.stats ensures t.stats[k].calculatedAt <= t.clock {
      if k !in rows { assert t.stats[k] == s.stats[k]; }
    }
  }

  lemma PickKeepsInv(s: State, keys: seq<StatsKey>)
    requires Inv(s) && Enabled(s, Pick(keys))
    ensures Inv(Apply(s, Pick(keys)))
  {
    var t := Apply(s, Pick(keys));
    forall i | 0 <= i < |keys| ensures TakenOk(t, Take(s, keys[i])) {
      assert keys[i] in keys;
      assert ItemOk(s, keys[i]);
    }
    forall k | k in t.queue ensures ItemOk(t, k) && FreshOk(t, k) {
      assert ItemOk(s, k) && FreshOk(s, k);
    }
  }

  /** A statement that ends the handling of the first held item, touching only its row. */
  lemma HeadDone(s: State, t: State)
    requires Inv(s) && Held(s.hand) != [] && t.hand == AtItem(Held(s.hand)[1..])
    requires t.maxAttempts == s.maxAttempts && t.clock == s.clock && t.stats == s.stats && t.delivered == s.delivered
    requires t.queue.Keys == s.queue.Keys
    requires Held(s.hand)[0].key in s.queue
    requires var k := Held(s.hand)[0].key;
             ItemOk(t, k) && FreshOk(t, k) &&
             forall x :: x != k ==>
               (x in t.queue ==> t.queue[x] == s.queue[x]) &&
               (x in t.firstFail <==> x in s.firstFail) && (x in s.firstFail ==> t.firstFail[x] == s.firstFail[x]) &&
               (x in t.stale <==> x in s.stale)
    ensures Inv(t)
  {
    var held := Held(s.hand);
    var k := held[0].key;
    forall x | x in t.queue ensures ItemOk(t, x) && FreshOk(t, x) {
      assert ItemOk(s, x) && FreshOk(s, x);
    }
    forall x | x in held[1..] ensures TakenOk(t, x) {
      var i :| 0 <= i < |held[1..]| && held[1..][i] == x;
      assert held[i + 1] == x && x in held;
      assert TakenOk(s, x) && x.key != k;
    }
  }

  lemma HeadKnown(s: State)
    requires Inv(s) && Held(s.hand) != []
    ensures TakenOk(s, Held(s.hand)[0]) && ItemOk(s, Held(s.hand)[0].key) && FreshOk(s, Held(s.hand)[0].key)
  {
    assert Held(s.hand)[0] in Held(s.hand);
  }

  lemma ExhaustKeepsInv(s: State, ok: bool)
    requires Inv(s) && Enabled(s, Exhaust(ok))
    ensures Inv(Apply(s, Exhaust(ok)))
  {
    HeadKnown(s);
    HeadDone(s, Apply(s, Exhaust(ok)));
  }

  lemma MarkSentKeepsInv(s: State, ok: bool)
    requires Inv(s) && Enabled(s, MarkSent(ok))
    ensures Inv(Apply(s, MarkSent(ok)))
  {
    HeadKnown(s);
    HeadDone(s, Apply(s, MarkSent(ok)));
  }

  /** A recorded retry pushes the next attempt beyond all delays of the round so far. */
  lemma RetriedItemOk(s: State, jitter: nat)
    requires Inv(s) && Enabled(s, WriteRetry(true, jitter))
    ensures s.hand.item.key in Retried(s, true, jitter).queue
    ensures ItemOk(Retried(s, true, jitter), s.hand.item.key)
  {
    HeadKnown(s);
    var t, k := Retried(s, true, jitter), s.hand.item.key;
    var n := s.queue[k].attempts;
    assert Waited(n + 1) == Waited(n) + Backoff(n);
    assert Backoff(0) == 30 by { assert Pow2(0) == 1; }
    if WordHolds(s) {
      assert s.hand.base >= Backoff(n);
      assert s.hand.now >= t.firstFail[k] + Waited(n) * SECOND;
    }
    assert t.queue[k].nextRetryAt == Some(s.hand.now + (s.hand.base + jitter) * SECOND);
  }

  lemma WriteRetryKeepsInv(s: State, ok: bool, jitter: nat)
    requires Inv(s) && Enabled(s, WriteRetry(ok, jitter))
    ensures Inv(Apply(s, WriteRetry(ok, jitter)))
  {
    HeadKnown(s);
    if ok {
      RetriedItemOk(s, jitter);
    }
    HeadDone(s, Retried(s, ok, jitter));
  }

  /** Statements that change no table: the held items stay as they are. */
  lemma HandMoved(s: State, t: State)
    requires Inv(s) && t == s.(hand := t.hand)
    requires Held(t.hand) == Held(s.hand) || Held(t.hand) == [] ||
             (Held(s.hand) != [] && Held(t.hand) == Held(s.hand)[1..])
    requires HandOk(t)
    ensures Inv(t)
  {
    var held := Held(s.hand);
    forall k | k in t.queue ensures ItemOk(t, k) && FreshOk(t, k) {
      assert ItemOk(s, k) && FreshOk(s, k);
    }
    forall x | x in Held(t.hand) ensures TakenOk(t, x) {
      assert x in held;
      assert TakenOk(s, x);
    }
    if held != [] && Held(t.hand) == held[1..] {
      assert forall i :: 0 <= i < |held[1..]| ==> held[1..][i] == held[i + 1];
    }
  }

  lemma ReadStatsKeepsInv(s: State, error: Option<string>, ok: bool)
    requires Inv(s) && Enabled(s, ReadStats(error, ok))
    ensures Inv(Apply(s, ReadStats(error, ok)))
  {
    HeadKnown(s);
    var todo := s.hand.todo;
    assert [todo[0]] + todo[1..] == todo;
    HandMoved(s, Apply(s, ReadStats(error, ok)));
  }

  lemma ReadAttemptsKeepsInv(s: State, ok: bool)
    requires Inv(s) && Enabled(s, ReadAttempts(ok))
    ensures Inv(Apply(s, ReadAttempts(ok)))
  {
    HeadKnown(s);
    var n := s.queue[s.hand.item.key].attempts;
    BackoffBaseExact(n);
    BackoffAtLeast(n);
    assert WordHolds(s) ==> n <= 58;
    HandMoved(s, Apply(s, ReadAttempts(ok)));
  }

  lemma BackoffAtLeast(n: nat)
    ensures 30 <= Backoff(n) <= 480
  {
    assert Pow2(0) == 1 && Pow2(1) == 2 && Pow2(2) == 4 && Pow2(3) == 8;
    assert n == 0 || n == 1 || n == 2 || n == 3 || n >= 4;
  }

  lemma SendKeepsInv(s: State, error: Option<string>)
    requires Inv(s) && Enabled(s, Send(error))
    ensures Inv(Apply(s, Send(error)))
  {
    var t := Apply(s, Send(error));
    HeadKnown(s);
    if error.Some? {
      HandMoved(s, t);
    } else {
      forall k | k in t.queue ensures ItemOk(t, k) && FreshOk(t, k) {
        assert ItemOk(s, k) && FreshOk(s, k);
      }
      forall x | x in Held(t.hand) ensures TakenOk(t, x) {
        assert TakenOk(s, x);
      }
    }
  }

  lemma StepKeepsInv(s: State, step: Step)
    requires Inv(s) && Enabled(s, step)
    ensures Inv(Apply(s, step))
  {
    match step
    case Tick(d) => TickKeepsInv(s, d);
    case Aggregate(rows) => AggregateKeepsInv(s, rows);
    case Pick(keys) => PickKeepsInv(s, keys);
    case Exhaust(ok) => ExhaustKeepsInv(s, ok);
    case ReadStats(error, ok) => ReadStatsKeepsInv(s, error, ok);
    case Send(error) => SendKeepsInv(s, error);
    case MarkSent(ok) => MarkSentKeepsInv(s, ok);
    case ReadAttempts(ok) => ReadAttemptsKeepsInv(s, ok);
    case WriteRetry(ok, jitter) => WriteRetryKeepsInv(s, ok, jitter);
    case Finish => HandMoved(s, Apply(s, step));
    case Abandon => HandMoved(s, Apply(s, step));
  }

  lemma {:induction false} RunKeepsInv(s: State, run: seq<Step>)
    requires Inv(s) && ValidRun(s, run)
    ensures Inv(After(s, run)) && After(s, run).maxAttempts == s.maxAttempts
    decreases |run|
  {
    if run != [] {
      StepKeepsInv(s, run[0]);
      RunKeepsInv(Apply(s, run[0]), run[1..]);
    }
  }

  // ---- Freshness of SENT ----

  /** In every run, an item in status SENT was last delivered a payload, and that payload equals its
      current statistics row exactly when no recalculation of the item fell between the reading of the
      row and the SENT update. */
  lemma SentIsFreshUnlessRaced(maxAttempts: int, clock: Instant, run: seq<Step>, k: StatsKey)
    requires ValidRun(Init(maxAttempts, clock), run)
    requires var s := After(Init(maxAttempts, clock), run);
             k in s.queue && s.queue[k].status == Sent
    ensures var s := After(Init(maxAttempts, clock), run);
            k in s.delivered && k in s.stats && (s.delivered[k] == s.stats[k] <==> k !in s.stale)
  {
    RunKeepsInv(Init(maxAttempts, clock), run);
  }

  lemma AggregationSendsNothing(s: State, rows: Fresh, k: StatsKey)
    requires k in Aggregated(s, rows).queue && Aggregated(s, rows).queue[k].status == Sent
    ensures k in s.queue && s.queue[k].status == Sent
  {
  }

  lemma MarkSendsNothing(s: State, ok: bool, key: StatsKey, status: Status, error: string, now: Instant, seconds: nat,
    k: StatsKey)
    requires status != Sent
    requires var queue := Marked(s, ok, key, status, error, now, seconds); k in queue && queue[k].status == Sent
    ensures k in s.queue && s.queue[k].status == Sent
  {
  }

  lemma ReadStatsSendsNothing(s: State, error: Option<string>, ok: bool, k: StatsKey)
    requires Enabled(s, ReadStats(error, ok))
    requires k in Apply(s, ReadStats(error, ok)).queue && Apply(s, ReadStats(error, ok)).queue[k].status == Sent
    ensures k in s.queue && s.queue[k].status == Sent
  {
    if error.None? && s.hand.todo[0].key !in s.stats {
      MarkSendsNothing(s, ok, s.hand.todo[0].key, Failed, "stats not found", s.clock, 0, k);
    }
  }

  lemma ExhaustSendsNothing(s: State, ok: bool, k: StatsKey)
    requires Enabled(s, Exhaust(ok))
    requires k in Apply(s, Exhaust(ok)).queue && Apply(s, Exhaust(ok)).queue[k].status == Sent
    ensures k in s.queue && s.queue[k].status == Sent
  {
    MarkSendsNothing(s, ok, s.hand.todo[0].key, Failed, "max attempts exceeded", s.clock, 0, k);
  }

  lemma RetrySendsNothing(s: State, ok: bool, jitter: nat, k: StatsKey)
    requires s.hand.Writing? && k in Retried(s, ok, jitter).queue && Retried(s, ok, jitter).queue[k].status == Sent
    ensures k in s.queue && s.queue[k].status == Sent
  {
    MarkSendsNothing(s, ok, s.hand.item.key, Retrying, s.hand.error, s.hand.now, s.hand.base + jitter, k);
  }

  lemma NothingElseSends(s: State, step: Step, k: StatsKey)
    requires Enabled(s, step) && !step.MarkSent?
    requires k in Apply(s, step).queue && Apply(s, step).queue[k].status == Sent
    ensures k in s.queue && s.queue[k].status == Sent
  {
    match step
    case Aggregate(rows) => AggregationSendsNothing(s, rows, k);
    case Exhaust(ok) => ExhaustSendsNothing(s, ok, k);
    case ReadStats(error, ok) => ReadStatsSendsNothing(s, error, ok, k);
    case WriteRetry(ok, jitter) => RetrySendsNothing(s, ok, jitter, k);
    case _ => assert Apply(s, step).queue == s.queue;
  }

  /** An item becomes SENT only by the update that follows a successful send of this cycle, of the row
      read in this cycle; the update counts as raced exactly when the item's row has changed since. */
  lemma SentOnlyAfterSend(s: State, step: Step, k: StatsKey)
    requires Inv(s) && Enabled(s, step)
    requires k in Apply(s, step).queue && Apply(s, step).queue[k].status == Sent
    requires !(k in s.queue && s.queue[k].status == Sent)
    ensures step == MarkSent(true) && s.hand.Delivered? && s.hand.item.key == k
    ensures s.delivered[k] == s.hand.row
    ensures k in Apply(s, step).stale <==> s.stats[k] != s.hand.row
  {
    if !step.MarkSent? {
      NothingElseSends(s, step, k);
    }
  }

  lemma Prepend(s: State, step: Step, rest: seq<Step>)
    requires Enabled(s, step) && ValidRun(Apply(s, step), rest)
    ensures ValidRun(s, [step] + rest) && After(s, [step] + rest) == After(Apply(s, step), rest)
  {
    assert ([step] + rest)[1..] == rest;
  }

  /** One new item, picked, its row just read. */
  function RowRead(k: StatsKey, a: Metrics): State {
    State(5, 1, map[k := StatsRow(None, a, 1)], map[k := QueueItem(Pending, 0, None, None, None, 1)],
          HasStats(Taken(k, 0, None), [], StatsRow(None, a, 1), false), map[], {}, map[])
  }

  lemma RowReadReachable(k: StatsKey, a: Metrics, tail: seq<Step>) returns (run: seq<Step>)
    requires ValidRun(RowRead(k, a), tail)
    ensures ValidRun(Init(5, 0), run) && After(Init(5, 0), run) == After(RowRead(k, a), tail)
  {
    var s0 := Init(5, 0);
    var s1 := Apply(s0, Aggregate(map[k := (None, a)]));
    assert s1 == RowRead(k, a).(hand := Idle);
    var s2 := Apply(s1, Pick([k]));
    assert s2.hand == AtItem([Taken(k, 0, None)]);
    var s3 := Apply(s2, ReadStats(None, true));
    assert s3.hand.todo == [];
    assert s3 == RowRead(k, a);
    Prepend(s2, ReadStats(None, true), tail);
    run := [ReadStats(None, true)] + tail;
    Prepend(s1, Pick([k]), run);
    run := [Pick([k])] + run;
    Prepend(s0, Aggregate(map[k := (None, a)]), run);
    run := [Aggregate(map[k := (None, a)])] + run;
  }

  /** SENT with payload a, while the current row says b. */
  predicate StaleSent(s: State, k: StatsKey, a: Metrics, b: Metrics) {
    k in s.queue && s.queue[k].status == Sent && k in s.delivered && k in s.stats &&
    s.delivered[k].metrics == a && s.stats[k].metrics == b
  }

  lemma RacedTail(k: StatsKey, a: Metrics, b: Metrics) returns (tail: seq<Step>)
    ensures ValidRun(RowRead(k, a), tail) && StaleSent(After(RowRead(k, a), tail), k, a, b)
  {
    var s3 := RowRead(k, a);
    var s4 := Apply(s3, Send(None));
    var s5 := Apply(s4, Aggregate(map[k := (None, b)]));
    assert s5.stats[k] == StatsRow(None, b, 2) && k in s5.queue;
    Prepend(s5, MarkSent(true), []);
    tail := [MarkSent(true)] + [];
    Prepend(s4, Aggregate(map[k := (None, b)]), tail);
    tail := [Aggregate(map[k := (None, b)])] + tail;
    Prepend(s3, Send(None), tail);
    tail := [Send(None)] + tail;
  }

  /** A run that leaves a stale SENT item: its row is recalculated while the request is on its way. */
  lemma StaleSentHappens(k: StatsKey, a: Metrics, b: Metrics)
    ensures exists run :: ValidRun(Init(5, 0), run) && StaleSent(After(Init(5, 0), run), k, a, b)
  {
    var tail := RacedTail(k, a, b);
    var run := RowReadReachable(k, a, tail);
  }

  // ---- Undisturbed, the race is the loop of the coordinator ----

  /** The statements the dispatcher makes for one item, given the replies. */
  function Statements(p: Picked, maxAttempts: int, stats: Stats, r: Reply): seq<Step> {
    if p.attempts >= maxAttempts then [Exhaust(r.writeOk)]
    else if r.statsError.Some? then [ReadStats(r.statsError, r.writeOk)] + Backoffs(r)
    else if p.key !in stats then [ReadStats(None, r.writeOk)]
    else if r.sendError.Some? then [ReadStats(None, r.writeOk)] + ([Send(r.sendError)] + Backoffs(r))
    else [ReadStats(None, r.writeOk)] + ([Send(None)] + [MarkSent(r.writeOk)])
  }

  function Backoffs(r: Reply): seq<Step> {
    if r.readOk then [ReadAttempts(true)] + [WriteRetry(r.writeOk, r.jitter)] else [ReadAttempts(false)]
  }

  lemma OneStep(s: State, step: Step)
    requires Enabled(s, step)
    ensures ValidRun(s, [step]) && After(s, [step]) == Apply(s, step)
  {
    Prepend(s, step, []);
    assert [step] + [] == [step];
  }

  lemma BackoffsAreRetry(s: State, r: Reply)
    requires s.hand.Backing? && s.hand.now == r.now && s.hand.item.key in s.queue
    requires r.readOk ==> JitterFor(BackoffBase(s.queue[s.hand.item.key].attempts), r.jitter)
    ensures ValidRun(s, Backoffs(r))
    ensures var t := After(s, Backoffs(r));
            var k := s.hand.item.key;
            t.hand == AtItem(s.hand.todo) && t.delivered == s.delivered && t.stats == s.stats &&
            t.queue == if r.readOk && r.writeOk
                       then s.queue[k := StatusUpdated(s.queue[k], Retrying, s.hand.error, r.now,
                                                       BackoffBase(s.queue[k].attempts) + r.jitter)]
                       else s.queue
  {
    if r.readOk {
      var t := Apply(s, ReadAttempts(true));
      OneStep(t, WriteRetry(r.writeOk, r.jitter));
      Prepend(s, ReadAttempts(true), [WriteRetry(r.writeOk, r.jitter)]);
    } else {
      OneStep(s, ReadAttempts(false));
    }
  }

  /** What a run of statements leaves, against what handling the item leaves. */
  predicate LeavesHandled(s: State, t: State, x: Taken, rest: seq<Taken>, r: Reply) {
    var p := Picked(x.key, x.attempts);
    && t.queue == Handled(s.queue, s.stats, s.maxAttempts, p, r)
    && t.hand == AtItem(rest) && t.stats == s.stats
    && t.delivered == if p.key in s.stats && EndsSent(p, s.maxAttempts, s.stats, r)
                      then s.delivered[x.key := s.stats[x.key]] else s.delivered
  }

  predicate AtFirst(s: State, x: Taken, rest: seq<Taken>, r: Reply) {
    && s.hand == AtItem([x] + rest) && x.key in s.queue && s.queue[x.key].attempts == x.attempts
    && s.clock == r.now && JitterDrawn(Picked(x.key, x.attempts), s.maxAttempts, s.stats, r)
    && ([x] + rest)[1..] == rest
  }

  lemma StatsErrorHandled(s: State, x: Taken, rest: seq<Taken>, r: Reply)
    requires AtFirst(s, x, rest, r) && x.attempts < s.maxAttempts && r.statsError.Some?
    ensures var run := [ReadStats(r.statsError, r.writeOk)] + Backoffs(r);
            ValidRun(s, run) && LeavesHandled(s, After(s, run), x, rest, r)
  {
    var t := Apply(s, ReadStats(r.statsError, r.writeOk));
    BackoffsAreRetry(t, r);
    Prepend(s, ReadStats(r.statsError, r.writeOk), Backoffs(r));
  }

  lemma SendErrorHandled(s: State, x: Taken, rest: seq<Taken>, r: Reply)
    requires AtFirst(s, x, rest, r) && x.attempts < s.maxAttempts && r.statsError.None? && x.key in s.stats
    requires r.sendError.Some?
    ensures var run := [ReadStats(None, r.writeOk)] + ([Send(r.sendError)] + Backoffs(r));
            ValidRun(s, run) && LeavesHandled(s, After(s, run), x, rest, r)
  {
    var t := Apply(s, ReadStats(None, r.writeOk));
    BackoffsAreRetry(Apply(t, Send(r.sendError)), r);
    Prepend(t, Send(r.sendError), Backoffs(r));
    Prepend(s, ReadStats(None, r.writeOk), [Send(r.sendError)] + Backoffs(r));
  }

  lemma SentHandled(s: State, x: Taken, rest: seq<Taken>, r: Reply)
    requires AtFirst(s, x, rest, r) && x.attempts < s.maxAttempts && r.statsError.None? && x.key in s.stats
    requires r.sendError.None?
    ensures var run := [ReadStats(None, r.writeOk)] + ([Send(None)] + [MarkSent(r.writeOk)]);
            ValidRun(s, run) && LeavesHandled(s, After(s, run), x, rest, r)
  {
    var t := Apply(s, ReadStats(None, r.writeOk));
    OneStep(Apply(t, Send(None)), MarkSent(r.writeOk));
    Prepend(t, Send(None), [MarkSent(r.writeOk)]);
    Prepend(s, ReadStats(None, r.writeOk), [Send(None)] + [MarkSent(r.writeOk)]);
  }

  lemma FailedHandled(s: State, x: Taken, rest: seq<Taken>, r: Reply)
    requires AtFirst(s, x, rest, r)
    requires x.attempts >= s.maxAttempts || (r.statsError.None? && x.key !in s.stats)
    ensures var run := [if x.attempts >= s.maxAttempts then Exhaust(r.writeOk) else ReadStats(None, r.writeOk)];
            ValidRun(s, run) && LeavesHandled(s, After(s, run), x, rest, r)
  {
    OneStep(s, if x.attempts >= s.maxAttempts then Exhaust(r.writeOk) else ReadStats(None, r.writeOk));
  }

  /** With nobody in between, the statements leave the queue that handling the item leaves, move on to the
      next item, and deliver the row exactly when the send succeeds. */
  lemma StatementsAreHandling(s: State, x: Taken, rest: seq<Taken>, r: Reply)
    requires s.hand == AtItem([x] + rest) && x.key in s.queue && s.queue[x.key].attempts == x.attempts
    requires s.clock == r.now && JitterDrawn(Picked(x.key, x.attempts), s.maxAttempts, s.stats, r)
    ensures var run := Statements(Picked(x.key, x.attempts), s.maxAttempts, s.stats, r);
            ValidRun(s, run) && LeavesHandled(s, After(s, run), x, rest, r)
  {
    assert ([x] + rest)[1..] == rest;
    if x.attempts >= s.maxAttempts {
      FailedHandled(s, x, rest, r);
    } else if r.statsError.Some? {
      StatsErrorHandled(s, x, rest, r);
    } else if x.key !in s.stats {
      FailedHandled(s, x, rest, r);
    } else if r.sendError.Some? {
      SendErrorHandled(s, x, rest, r);
    } else {
      SentHandled(s, x, rest, r);
    }
  }

  // ---- Backoff over a round of attempts ----

  lemma WaitedFive()
    ensures Waited(5) == 930
  {
    assert Pow2(0) == 1 && Pow2(1) == 2 && Pow2(2) == 4 && Pow2(3) == 8;
    assert Waited(1) == 30 && Waited(2) == 90 && Waited(3) == 210 && Waited(4) == 450;
  }

  lemma {:induction false} WaitedGrows(m: nat, n: nat)
    requires m <= n
    ensures Waited(m) <= Waited(n)
    decreases n
  {
    if m < n { WaitedGrows(m, n - 1); }
  }

  /** In every run, re-queues at any moment included: no retry time lies more
      than 640 seconds after the last attempt, no item has more attempts than the maximum, and every item
      has a statistics row. */
  lemma RetryTimesBounded(maxAttempts: int, clock: Instant, run: seq<Step>, k: StatsKey)
    requires ValidRun(Init(maxAttempts, clock), run)
    requires k in After(Init(maxAttempts, clock), run).queue
    ensures var s := After(Init(maxAttempts, clock), run);
            (s.queue[k].attempts <= maxAttempts || s.queue[k].attempts == 0) && k in s.stats &&
            (s.queue[k].nextRetryAt.Some? ==>
              s.queue[k].lastAttempt.Some? && s.queue[k].lastAttempt.value <= s.clock &&
              s.queue[k].nextRetryAt.value <= s.queue[k].lastAttempt.value + 640 * SECOND)
  {
    RunKeepsInv(Init(maxAttempts, clock), run);
    assert ItemOk(After(Init(maxAttempts, clock), run), k);
  }

  /** With the default of five attempts, whenever the dispatcher gives an item up for exhaustion, at least
      930 seconds have passed since the first failure of the round of attempts it was picked in. */
  lemma ExhaustionTakesTime(clock: Instant, run: seq<Step>, ok: bool)
    requires ValidRun(Init(5, clock), run) && Enabled(After(Init(5, clock), run), Exhaust(ok))
    ensures var s := After(Init(5, clock), run);
            s.hand.todo[0].firstFail.Some? && s.clock >= s.hand.todo[0].firstFail.value + 930 * SECOND
  {
    RunKeepsInv(Init(5, clock), run);
    var s := After(Init(5, clock), run);
    HeadKnown(s);
    WaitedFive();
    WaitedGrows(5, s.hand.todo[0].attempts);
  }
}
