/** Hourly statistics kept up to date by recomputing only recent buckets, and the webhook queue filled
    alongside (internal/infrastructure/adapters/repositories/analytics_worker_repo.go). */
module AnalyticsWorker {
  import opened Events

  // ---- Tables ----

  /** A JSON field cast to double precision: absent or null, a number, or text the cast rejects. */
  datatype Metric = Null | Number(value: real) | Malformed

  datatype Column = PowerGenerated | PowerConsumed | Efficiency | Temperature

  datatype Sample = Sample(plant: Uuid, gen: Metric, con: Metric, eff: Metric, temp: Metric)
  {
    function Get(c: Column): Metric {
      match c
      case PowerGenerated => gen
      case PowerConsumed => con
      case Efficiency => eff
      case Temperature => temp
    }
  }

  /** Primary key of analytical.events_ts. */
  datatype EventKey = EventKey(createdAt: Instant, id: Uuid)

  type Samples = map<EventKey, Sample>

  /** The columns copied from master.energy_plants. */
  datatype Plant = Plant(name: string, kind: string, latitude: Option<real>, longitude: Option<real>)

  /** Buckets are numbered hours. */
  datatype StatsKey = StatsKey(bucket: nat, plant: Uuid)

  datatype Metrics = Metrics(
    avgGen: Option<real>, avgCon: Option<real>, avgEff: Option<real>, avgTemp: Option<real>, count: nat)

  datatype StatsRow = StatsRow(info: Option<Plant>, metrics: Metrics, calculatedAt: Instant)

  datatype Status = Pending | Retrying | Sent | Failed

  datatype QueueItem = QueueItem(
    status: Status, attempts: nat, lastAttempt: Option<Instant>, nextRetryAt: Option<Instant>,
    error: Option<string>, createdAt: Instant)

  type Stats = map<StatsKey, StatsRow>
  type Queue = map<StatsKey, QueueItem>

  // ---- The query ----

  function KeyOf(k: EventKey, s: Sample): StatsKey { StatsKey(k.createdAt / HOUR, s.plant) }

  function Buckets(events: Samples): set<StatsKey> {
    set k | k in events :: KeyOf(k, events[k])
  }

  /** Whole minutes of a duration, rounded toward zero. */
  function WholeMinutes(lookback: int): int {
    if lookback >= 0 then lookback / MINUTE else -((-lookback) / MINUTE)
  }

  /** NOW() minus the interval. */
  function Cutoff(lookback: int, now: Instant): int { now - WholeMinutes(lookback) * MINUTE }

  function DirtyBuckets(events: Samples, cutoff: int): set<StatsKey> {
    set k | k in events && k.createdAt >= cutoff :: KeyOf(k, events[k])
  }

  /** LEFT JOIN on the primary key of the plants table. */
  function InfoOf(plants: map<Uuid, Plant>, id: Uuid): Option<Plant> {
    if id in plants then Some(plants[id]) else None
  }

  datatype GroupKey = GroupKey(key: StatsKey, info: Option<Plant>)

  /** GROUP BY bucket, plant id and the joined plant columns, over the dirty buckets. */
  function GroupKeys(events: Samples, plants: map<Uuid, Plant>, dirty: set<StatsKey>): set<GroupKey> {
    set k | k in events && KeyOf(k, events[k]) in dirty ::
      GroupKey(KeyOf(k, events[k]), InfoOf(plants, events[k].plant))
  }

  function GroupRows(events: Samples, plants: map<Uuid, Plant>, g: GroupKey): set<EventKey> {
    set k | k in events && KeyOf(k, events[k]) == g.key && InfoOf(plants, events[k].plant) == g.info
  }

  /** Rows whose column is not NULL. */
  function Present(events: Samples, rows: set<EventKey>, c: Column): set<EventKey> {
    set k | k in rows && k in events && events[k].Get(c).Number?
  }

  ghost function Sum(events: Samples, rows: set<EventKey>, c: Column): real
    requires forall k :: k in rows ==> k in events && events[k].Get(c).Number?
    decreases |rows|
  {
    if rows == {} then 0.0
    else
      var k :| k in rows;
      events[k].Get(c).value + Sum(events, rows - {k}, c)
  }

  /** AVG skips NULLs and is NULL without any value. */
  ghost function Avg(events: Samples, rows: set<EventKey>, c: Column): Option<real> {
    var present := Present(events, rows, c);
    if present == {} then None else Some(Sum(events, present, c) / |present| as real)
  }

  ghost function Aggregate(events: Samples, rows: set<EventKey>): Metrics {
    Metrics(Avg(events, rows, PowerGenerated), Avg(events, rows, PowerConsumed),
            Avg(events, rows, Efficiency), Avg(events, rows, Temperature), |rows|)
  }

  /** Some row that the query aggregates has a field the cast rejects: the statement fails. */
  ghost predicate Poisoned(events: Samples, dirty: set<StatsKey>) {
    exists k, c: Column :: k in events && KeyOf(k, events[k]) in dirty && events[k].Get(c) == Malformed
  }

  ghost function CalculatedStats(events: Samples, plants: map<Uuid, Plant>, dirty: set<StatsKey>)
    : map<GroupKey, Metrics>
  {
    map g | g in GroupKeys(events, plants, dirty) :: Aggregate(events, GroupRows(events, plants, g))
  }

  /** What the SELECT part yields, None for an error. */
  ghost function Evaluate(events: Samples, plants: map<Uuid, Plant>, cutoff: int): Option<map<GroupKey, Metrics>> {
    var dirty := DirtyBuckets(events, cutoff);
    if Poisoned(events, dirty) then None else Some(CalculatedStats(events, plants, dirty))
  }

  // ---- The full GROUP BY ----

  function BucketRows(events: Samples, key: StatsKey): set<EventKey> {
    set k | k in events && KeyOf(k, events[k]) == key
  }

  /** The value of a bucket computed over all events. */
  ghost function FullMetrics(events: Samples, key: StatsKey): Metrics {
    Aggregate(events, BucketRows(events, key))
  }

  /** The view holds exactly what a full GROUP BY over the events would give. */
  ghost predicate Matches(stats: Stats, events: Samples) {
    stats.Keys == Buckets(events) && forall key :: key in stats ==> stats[key].metrics == FullMetrics(events, key)
  }

  /** A sum does not depend on the order of its terms. */
  lemma {:induction false} SumAnyOrder(events: Samples, rows: set<EventKey>, c: Column, k: EventKey)
    requires forall x :: x in rows ==> x in events && events[x].Get(c).Number?
    requires k in rows
    ensures Sum(events, rows, c) == events[k].Get(c).value + Sum(events, rows - {k}, c)
    decreases |rows|
  {
    var first :| first in rows && Sum(events, rows, c) == events[first].Get(c).value + Sum(events, rows - {first}, c);
    if first != k {
      SumAnyOrder(events, rows - {first}, c, k);
      SumAnyOrder(events, rows - {k}, c, first);
      assert rows - {first} - {k} == rows - {k} - {first};
    }
  }

  /** Because the join is on a primary key, the plant columns split no bucket: every dirty bucket is one
      group, computed from all of its rows. */
  lemma OneGroupPerBucket(events: Samples, plants: map<Uuid, Plant>, dirty: set<StatsKey>)
    requires dirty <= Buckets(events)
    ensures GroupKeys(events, plants, dirty) == set key | key in dirty :: GroupKey(key, InfoOf(plants, key.plant))
    ensures forall key :: key in dirty ==>
              GroupRows(events, plants, GroupKey(key, InfoOf(plants, key.plant))) == BucketRows(events, key)
  {
    forall key | key in dirty ensures GroupKey(key, InfoOf(plants, key.plant)) in GroupKeys(events, plants, dirty) {
      var k :| k in events && KeyOf(k, events[k]) == key;
    }
  }

  // ---- Upserts ----

  /** Two rows for one key would make the upsert fail. */
  ghost predicate OneRowPerKey(groups: map<GroupKey, Metrics>) {
    forall g, h :: g in groups && h in groups && g.key == h.key ==> g == h
  }

  /** INSERT ... ON CONFLICT (bucket, plant_source_id) DO UPDATE. */
  function Upserted(stats: Stats, groups: map<GroupKey, Metrics>, now: Instant): Stats
    requires OneRowPerKey(groups)
  {
    stats + map g | g in groups :: g.key := StatsRow(g.info, groups[g], now)
  }

  function Keys(groups: map<GroupKey, Metrics>): set<StatsKey> {
    set g | g in groups :: g.key
  }

  /** A new item, or an old one made pending again: its id, last attempt, next retry time and creation
      time stay. */
  function Requeued(queue: Queue, keys: set<StatsKey>, now: Instant): Queue {
    queue + map k | k in keys ::
      if k in queue then queue[k].(status := Pending, attempts := 0, error := None)
      else QueueItem(Pending, 0, None, None, None, now)
  }

  /** The rows the query computes are one per dirty bucket, each the full value of its bucket. */
  lemma CalculatedRows(events: Samples, plants: map<Uuid, Plant>, cutoff: int)
    ensures var dirty := DirtyBuckets(events, cutoff);
            var groups := CalculatedStats(events, plants, dirty);
            OneRowPerKey(groups) && Keys(groups) == dirty &&
            forall g :: g in groups ==> groups[g] == FullMetrics(events, g.key)
  {
    var dirty := DirtyBuckets(events, cutoff);
    var groups := CalculatedStats(events, plants, dirty);
    OneGroupPerBucket(events, plants, dirty);
    forall key | key in dirty ensures key in Keys(groups) {
      assert GroupKey(key, InfoOf(plants, key.plant)) in groups;
    }
  }

  // ---- Incremental equals full ----

  ghost predicate Extends(more: Samples, events: Samples) {
    forall k :: k in events ==> k in more && more[k] == events[k]
  }

  /** Buckets without a new event keep their rows and so their value. */
  lemma UntouchedBucket(events: Samples, more: Samples, key: StatsKey)
    requires Extends(more, events)
    requires forall k :: k in more && k !in events ==> KeyOf(k, more[k]) != key
    ensures FullMetrics(more, key) == FullMetrics(events, key)
  {
    var rows := BucketRows(events, key);
    assert BucketRows(more, key) == rows;
    SameAvg(events, more, rows, PowerGenerated);
    SameAvg(events, more, rows, PowerConsumed);
    SameAvg(events, more, rows, Efficiency);
    SameAvg(events, more, rows, Temperature);
  }

  lemma SameAvg(events: Samples, more: Samples, rows: set<EventKey>, c: Column)
    requires Extends(more, events) && forall k :: k in rows ==> k in events
    ensures Avg(more, rows, c) == Avg(events, rows, c)
  {
    assert Present(more, rows, c) == Present(events, rows, c);
    SameSum(events, more, Present(events, rows, c), c);
  }

  lemma {:induction false} SameSum(events: Samples, more: Samples, rows: set<EventKey>, c: Column)
    requires Extends(more, events)
    requires forall k :: k in rows ==> k in events && events[k].Get(c).Number?
    ensures Sum(more, rows, c) == Sum(events, rows, c)
    decreases |rows|
  {
    if rows != {} {
      var k :| k in rows;
      SumAnyOrder(events, rows, c, k);
      SumAnyOrder(more, rows, c, k);
      SameSum(events, more, rows - {k}, c);
    }
  }

  /** A new event always changes the value of its bucket, if only the count. */
  lemma TouchedBucket(events: Samples, more: Samples, k: EventKey)
    requires Extends(more, events) && k in more && k !in events
    ensures FullMetrics(more, KeyOf(k, more[k])).count > FullMetrics(events, KeyOf(k, more[k])).count
  {
    var key := KeyOf(k, more[k]);
    assert BucketRows(events, key) < BucketRows(more, key) by {
      assert k in BucketRows(more, key) && k !in BucketRows(events, key);
    }
    SubsetIsSmaller(BucketRows(events, key), BucketRows(more, key));
  }

  lemma SubsetIsSmaller<T>(a: set<T>, b: set<T>)
    requires a < b
    ensures |a| < |b|
  {
    assert b == a + (b - a);
    assert |b| == |a| + |b - a|;
  }

  // ---- What the columns of a row say ----

  function GenOf(s: Sample): Metric { s.gen }
  function ConOf(s: Sample): Metric { s.con }
  function EffOf(s: Sample): Metric { s.eff }
  function TempOf(s: Sample): Metric { s.temp }

  /** The event happened in the hour and at the plant of the key. */
  predicate InBucket(events: Samples, key: StatsKey, k: EventKey) {
    k in events && k.createdAt / 3_600_000_000_000 == key.bucket && events[k].plant == key.plant
  }

  /** All events of a bucket with a value in the field, each once, in any order. */
  ghost predicate Lists(events: Samples, key: StatsKey, field: Sample -> Metric, listed: seq<EventKey>) {
    && Distinct(listed)
    && (forall i :: 0 <= i < |listed| ==> InBucket(events, key, listed[i]) && field(events[listed[i]]).Number?)
    && (forall k :: InBucket(events, key, k) && field(events[k]).Number? ==> k in listed)
  }

  function Values(events: Samples, field: Sample -> Metric, listed: seq<EventKey>): (values: seq<real>)
    requires forall i :: 0 <= i < |listed| ==> listed[i] in events && field(events[listed[i]]).Number?
    ensures |values| == |listed|
    ensures forall i :: 0 <= i < |listed| ==> values[i] == field(events[listed[i]]).value
  {
    seq(|listed|, i requires 0 <= i < |listed| => field(events[listed[i]]).value)
  }

  function Total(values: seq<real>): real {
    if values == [] then 0.0 else values[0] + Total(values[1..])
  }

  /** None without a value, else the number that times the count of values gives their total. */
  predicate IsMean(mean: Option<real>, values: seq<real>) {
    if values == [] then mean == None else mean.Some? && mean.value * |values| as real == Total(values)
  }

  ghost function KeysIn(listed: seq<EventKey>): set<EventKey> { set k | k in listed }

  predicate Distinct(listed: seq<EventKey>) {
    forall i, j :: 0 <= i < j < |listed| ==> listed[i] != listed[j]
  }

  lemma FirstKey(listed: seq<EventKey>)
    requires Distinct(listed) && listed != []
    ensures Distinct(listed[1..]) && listed[0] !in KeysIn(listed[1..])
    ensures KeysIn(listed) == KeysIn(listed[1..]) + {listed[0]} && KeysIn(listed) - {listed[0]} == KeysIn(listed[1..])
  {
    assert listed[0] !in listed[1..];
    assert forall k :: k in listed <==> k == listed[0] || k in listed[1..];
  }

  lemma {:induction false} ListSize(listed: seq<EventKey>)
    requires Distinct(listed)
    ensures |KeysIn(listed)| == |listed|
    decreases |listed|
  {
    if listed == [] {
      assert KeysIn(listed) == {};
    } else {
      FirstKey(listed);
      ListSize(listed[1..]);
    }
  }

  lemma {:induction false} SumIsTotal(events: Samples, c: Column, listed: seq<EventKey>, values: seq<real>)
    requires Distinct(listed) && |values| == |listed|
    requires forall k :: k in KeysIn(listed) ==> k in events && events[k].Get(c).Number?
    requires forall i :: 0 <= i < |listed| ==>
               listed[i] in KeysIn(listed) && values[i] == events[listed[i]].Get(c).value
    ensures Sum(events, KeysIn(listed), c) == Total(values)
    decreases |listed|
  {
    if listed == [] {
      assert KeysIn(listed) == {};
    } else {
      FirstKey(listed);
      assert forall i :: 0 <= i < |listed[1..]| ==> listed[1..][i] in listed[1..];
      SumIsTotal(events, c, listed[1..], values[1..]);
      SumAnyOrder(events, KeysIn(listed), c, listed[0]);
    }
  }

  lemma DivideBack(sum: real, n: real)
    requires n > 0.0
    ensures sum / n * n == sum
  {
  }

  lemma PresentIsListed(
    events: Samples, key: StatsKey, c: Column, field: Sample -> Metric, listed: seq<EventKey>)
    requires forall s: Sample :: field(s) == s.Get(c)
    requires Lists(events, key, field, listed)
    ensures Present(events, BucketRows(events, key), c) == KeysIn(listed)
  {
    forall k ensures k in Present(events, BucketRows(events, key), c) <==> k in KeysIn(listed) {
      if k in listed {
        var i :| 0 <= i < |listed| && listed[i] == k;
      }
    }
  }

  lemma AvgIsMean(events: Samples, rows: set<EventKey>, c: Column, listed: seq<EventKey>, values: seq<real>)
    requires Present(events, rows, c) == KeysIn(listed) && |KeysIn(listed)| == |listed| == |values|
    requires Sum(events, Present(events, rows, c), c) == Total(values)
    ensures IsMean(Avg(events, rows, c), values)
  {
    if values != [] {
      DivideBack(Total(values), |values| as real);
    }
  }

  lemma AverageIsMean(
    events: Samples, key: StatsKey, c: Column, field: Sample -> Metric, listed: seq<EventKey>)
    requires forall s: Sample :: field(s) == s.Get(c)
    requires Lists(events, key, field, listed)
    ensures IsMean(Avg(events, BucketRows(events, key), c), Values(events, field, listed))
  {
    var values := Values(events, field, listed);
    PresentIsListed(events, key, c, field, listed);
    assert forall i :: 0 <= i < |listed| ==> listed[i] in KeysIn(listed);
    ListSize(listed);
    SumIsTotal(events, c, listed, values);
    AvgIsMean(events, BucketRows(events, key), c, listed, values);
  }

  lemma BucketCount(events: Samples, key: StatsKey)
    ensures |BucketRows(events, key)| == |set k | k in events && InBucket(events, key, k)|
  {
    assert BucketRows(events, key) == set k | k in events && InBucket(events, key, k);
  }

  /** The full value of a bucket: each average is the mean of its own field over the events that have a
      value there, NULLs skipped, and the count is that of all events of the bucket. */
  lemma BucketColumns(
    events: Samples, key: StatsKey, gens: seq<EventKey>, cons: seq<EventKey>, effs: seq<EventKey>,
    temps: seq<EventKey>)
    requires Lists(events, key, GenOf, gens) && Lists(events, key, ConOf, cons)
    requires Lists(events, key, EffOf, effs) && Lists(events, key, TempOf, temps)
    ensures IsMean(FullMetrics(events, key).avgGen, Values(events, GenOf, gens))
    ensures IsMean(FullMetrics(events, key).avgCon, Values(events, ConOf, cons))
    ensures IsMean(FullMetrics(events, key).avgEff, Values(events, EffOf, effs))
    ensures IsMean(FullMetrics(events, key).avgTemp, Values(events, TempOf, temps))
    ensures FullMetrics(events, key).count == |set k | k in events && InBucket(events, key, k)|
  {
    AverageIsMean(events, key, PowerGenerated, GenOf, gens);
    AverageIsMean(events, key, PowerConsumed, ConOf, cons);
    AverageIsMean(events, key, Efficiency, EffOf, effs);
    AverageIsMean(events, key, Temperature, TempOf, temps);
    BucketCount(events, key);
  }

  lemma {:induction false} TotalBetween(values: seq<real>, low: real, high: real)
    requires forall v :: v in values ==> low <= v <= high
    ensures low * |values| as real <= Total(values) <= high * |values| as real
    decreases |values|
  {
    if values != [] {
      assert values[0] in values && forall v :: v in values[1..] ==> v in values;
      TotalBetween(values[1..], low, high);
      assert |values| as real == 1.0 + |values[1..]| as real;
    }
  }

  lemma Quotient(mean: real, n: real, low: real, high: real)
    requires n > 0.0 && low * n <= mean * n <= high * n
    ensures low <= mean <= high
  {
  }

  /** A mean lies between the smallest and the largest value; so one value is its own mean. */
  lemma MeanBetween(mean: Option<real>, values: seq<real>, low: real, high: real)
    requires IsMean(mean, values) && values != [] && forall v :: v in values ==> low <= v <= high
    ensures low <= mean.value <= high
  {
    TotalBetween(values, low, high);
    Quotient(mean.value, |values| as real, low, high);
  }

  /** An event without a value in a field leaves the average of that field as it was and adds to the count. */
  lemma NullOnlyCounts(events: Samples, key: StatsKey, k: EventKey, sample: Sample)
    requires k !in events && InBucket(events[k := sample], key, k)
    ensures var m, n := FullMetrics(events, key), FullMetrics(events[k := sample], key);
            (sample.gen == Null ==> n.avgGen == m.avgGen) && (sample.con == Null ==> n.avgCon == m.avgCon) &&
            (sample.eff == Null ==> n.avgEff == m.avgEff) && (sample.temp == Null ==> n.avgTemp == m.avgTemp) &&
            n.count == m.count + 1
  {
    assert BucketRows(events[k := sample], key) == BucketRows(events, key) + {k};
    NullSkipped(events, key, k, sample, PowerGenerated);
    NullSkipped(events, key, k, sample, PowerConsumed);
    NullSkipped(events, key, k, sample, Efficiency);
    NullSkipped(events, key, k, sample, Temperature);
  }

  lemma NullSkipped(events: Samples, key: StatsKey, k: EventKey, sample: Sample, c: Column)
    requires k !in events && BucketRows(events[k := sample], key) == BucketRows(events, key) + {k}
    ensures sample.Get(c) == Null ==>
              Avg(events[k := sample], BucketRows(events[k := sample], key), c) ==
              Avg(events, BucketRows(events, key), c)
  {
    if sample.Get(c) == Null {
      var present, more := Present(events, BucketRows(events, key), c), events[k := sample];
      assert Present(more, BucketRows(more, key), c) == present;
      SameSum(events, more, present, c);
    }
  }

  /** Dirty are the hours and plants with an event no older than the whole minutes of the lookback. */
  lemma DirtyIsRecent(events: Samples, lookback: int, now: Instant, minutes: int, key: StatsKey)
    requires lookback >= 0 ==> minutes * 60_000_000_000 <= lookback < (minutes + 1) * 60_000_000_000
    requires lookback < 0 ==> (minutes - 1) * 60_000_000_000 < lookback <= minutes * 60_000_000_000
    ensures key in DirtyBuckets(events, Cutoff(lookback, now)) <==>
            exists k :: InBucket(events, key, k) && k.createdAt >= now - minutes * 60_000_000_000
  {
    assert WholeMinutes(lookback) == minutes;
    if k :| InBucket(events, key, k) && k.createdAt >= now - minutes * 60_000_000_000 {
      assert KeyOf(k, events[k]) == key;
    }
    if key in DirtyBuckets(events, Cutoff(lookback, now)) {
      var k :| k in events && k.createdAt >= Cutoff(lookback, now) && KeyOf(k, events[k]) == key;
      assert InBucket(events, key, k);
    }
  }

  /** A re-queued item is pending with a clean slate; an old one keeps its times; the others stay. */
  lemma RequeuedItems(queue: Queue, keys: set<StatsKey>, now: Instant, key: StatsKey)
    ensures key in keys ==>
              key in Requeued(queue, keys, now) &&
              var item := Requeued(queue, keys, now)[key];
              item.status == Pending && item.attempts == 0 && item.error == None &&
              item.lastAttempt == (if key in queue then queue[key].lastAttempt else None) &&
              item.nextRetryAt == (if key in queue then queue[key].nextRetryAt else None) &&
              item.createdAt == (if key in queue then queue[key].createdAt else now)
    ensures key !in keys ==> (key in Requeued(queue, keys, now) <==> key in queue)
    ensures key !in keys && key in queue ==> Requeued(queue, keys, now)[key] == queue[key]
  {
  }

  ghost function Recalculated(stats: Stats, events: Samples, plants: map<Uuid, Plant>, cutoff: int, now: Instant)
    : Stats
  {
    CalculatedRows(events, plants, cutoff);
    Upserted(stats, CalculatedStats(events, plants, DirtyBuckets(events, cutoff)), now)
  }

  lemma UpsertedRows(stats: Stats, groups: map<GroupKey, Metrics>, now: Instant)
    requires OneRowPerKey(groups)
    ensures var after := Upserted(stats, groups, now);
            after.Keys == stats.Keys + Keys(groups) &&
            (forall g :: g in groups ==> after[g.key] == StatsRow(g.info, groups[g], now)) &&
            (forall key :: key in stats && key !in Keys(groups) ==> after[key] == stats[key])
  {
    var rows := map g | g in groups :: g.key := StatsRow(g.info, groups[g], now);
    assert rows.Keys == Keys(groups);
    assert forall g :: g in groups ==> g.key in rows.Keys;
  }

  /** The rows of dirty buckets are replaced by their full values, the others stay. */
  ghost predicate Refreshed(
    stats: Stats, after: Stats, events: Samples, plants: map<Uuid, Plant>, dirty: set<StatsKey>, now: Instant)
  {
    && after.Keys == stats.Keys + dirty
    && (forall key :: key in dirty ==>
          && after[key].metrics == FullMetrics(events, key) && after[key].calculatedAt == now
          && after[key].info == if key.plant in plants then Some(plants[key.plant]) else None)
    && (forall key :: key in stats && key !in dirty ==> after[key] == stats[key])
  }

  lemma RecalculationRefreshes(stats: Stats, events: Samples, plants: map<Uuid, Plant>, cutoff: int, now: Instant)
    ensures Refreshed(stats, Recalculated(stats, events, plants, cutoff, now), events, plants,
                      DirtyBuckets(events, cutoff), now)
  {
    var dirty := DirtyBuckets(events, cutoff);
    var groups := CalculatedStats(events, plants, dirty);
    CalculatedRows(events, plants, cutoff);
    OneGroupPerBucket(events, plants, dirty);
    UpsertedRows(stats, groups, now);
    assert forall key :: key in dirty ==> GroupKey(key, InfoOf(plants, key.plant)) in groups;
  }

  lemma RefreshedIsExact(
    stats: Stats, after: Stats, events: Samples, more: Samples, plants: map<Uuid, Plant>, cutoff: int, now: Instant)
    requires Matches(stats, events) && Extends(more, events)
    requires Refreshed(stats, after, more, plants, DirtyBuckets(more, cutoff), now)
    requires forall k :: k in more && k !in events ==> KeyOf(k, more[k]) in DirtyBuckets(more, cutoff)
    ensures Matches(after, more)
  {
    forall key ensures key in after.Keys <==> key in Buckets(more) {
      if key in Buckets(events) {
        var k :| k in events && KeyOf(k, events[k]) == key;
        assert k in more;
      }
    }
    forall key | key in after && key !in DirtyBuckets(more, cutoff)
      ensures after[key].metrics == FullMetrics(more, key)
    {
      UntouchedBucket(events, more, key);
    }
  }

  lemma MissedIsInexact(stats: Stats, after: Stats, events: Samples, more: Samples, dirty: set<StatsKey>, k: EventKey)
    requires Matches(stats, events) && Extends(more, events)
    requires after.Keys == stats.Keys + dirty
    requires forall key :: key in stats && key !in dirty ==> after[key] == stats[key]
    requires k in more && k !in events && KeyOf(k, more[k]) !in dirty
    ensures !Matches(after, more)
  {
    var key := KeyOf(k, more[k]);
    assert key in Buckets(more);
    if key in stats {
      TouchedBucket(events, more, k);
    }
  }

  /** One recalculation brings a view that was exact for the earlier events up to date with the present
      ones exactly when every event added since lies in a bucket that still has an event inside the
      lookback window. */
  lemma ExactAfterRecalculation(
    stats: Stats, events: Samples, more: Samples, plants: map<Uuid, Plant>, cutoff: int, now: Instant)
    requires Matches(stats, events) && Extends(more, events)
    ensures Matches(Recalculated(stats, more, plants, cutoff, now), more) <==>
            forall k :: k in more && k !in events ==> KeyOf(k, more[k]) in DirtyBuckets(more, cutoff)
  {
    var after, dirty := Recalculated(stats, more, plants, cutoff, now), DirtyBuckets(more, cutoff);
    RecalculationRefreshes(stats, more, plants, cutoff, now);
    if forall k :: k in more && k !in events ==> KeyOf(k, more[k]) in dirty {
      RefreshedIsExact(stats, after, events, more, plants, cutoff, now);
    } else {
      var k :| k in more && k !in events && KeyOf(k, more[k]) !in dirty;
      MissedIsInexact(stats, after, events, more, dirty, k);
    }
  }

  // ---- Status updates and backoff ----

  function Pow2(n: nat): nat { if n == 0 then 1 else 2 * Pow2(n - 1) }

  const INT64_SPAN := 0x1_0000_0000_0000_0000

  /** The 64-bit two's complement value of an integer. */
  function Wrap64(n: int): int {
    var low := n % INT64_SPAN;
    if low >= INT64_SPAN / 2 then low - INT64_SPAN else low
  }

  /** 1 << n on 64 bits. */
  function ShiftedOne(n: nat): int {
    if n >= 64 then 0 else Wrap64(Pow2(n))
  }

  /** Seconds before the next attempt, without jitter. */
  function BackoffBase(attempts: nat): int {
    var base := Wrap64(30 * ShiftedOne(attempts));
    if base > 480 then 480 else base
  }

  /** The jitter the random source may return; below zero the source is not defined. */
  predicate JitterFor(base: int, jitter: nat) {
    base >= 0 && jitter <= base / 3
  }

  /** The backoff written without a machine word. */
  function Backoff(attempts: nat): nat {
    if attempts >= 4 then 480 else 30 * Pow2(attempts)
  }

  lemma {:induction false} Pow2Grows(m: nat, n: nat)
    requires m <= n
    ensures Pow2(m) <= Pow2(n)
    decreases n
  {
    if m < n { Pow2Grows(m, n - 1); }
  }

  lemma Pow2Values()
    ensures Pow2(4) == 16 && Pow2(58) == 0x400_0000_0000_0000 && Pow2(59) == 0x800_0000_0000_0000
    ensures Pow2(60) == 0x1000_0000_0000_0000 && Pow2(61) == 0x2000_0000_0000_0000
    ensures Pow2(62) == 0x4000_0000_0000_0000 && Pow2(63) == 0x8000_0000_0000_0000
  {
    assert Pow2(8) == 0x100;
    assert Pow2(16) == 0x1_0000;
    assert Pow2(24) == 0x100_0000;
    assert Pow2(32) == 0x1_0000_0000;
    assert Pow2(40) == 0x100_0000_0000;
    assert Pow2(48) == 0x1_0000_0000_0000;
    assert Pow2(56) == 0x100_0000_0000_0000;
  }

  lemma WrapSmall(n: nat)
    requires n < 0x8000_0000_0000_0000
    ensures Wrap64(n) == n
  {
  }

  lemma NoWrap(attempts: nat)
    requires attempts <= 58
    ensures ShiftedOne(attempts) == Pow2(attempts) && Wrap64(30 * Pow2(attempts)) == 30 * Pow2(attempts)
  {
    var p := Pow2(attempts);
    assert p <= 0x400_0000_0000_0000 by {
      Pow2Values();
      Pow2Grows(attempts, 58);
    }
    WrapSmall(p);
    WrapSmall(30 * p);
  }

  lemma Wraps(attempts: nat)
    requires 59 <= attempts <= 63
    ensures Wrap64(30 * ShiftedOne(attempts)) < 0 <==> attempts <= 62
    ensures attempts == 63 ==> Wrap64(30 * ShiftedOne(attempts)) == 0
  {
    Pow2Values();
  }

  /** The word-sized computation doubles from thirty seconds and stays at eight minutes for up to 58
      attempts; with 59 to 62 it wraps below zero, where no jitter can be drawn, and from 63 on it is
      zero and the delay vanishes. */
  lemma BackoffBaseExact(attempts: nat)
    ensures attempts <= 58 ==> BackoffBase(attempts) == Backoff(attempts)
    ensures 59 <= attempts <= 62 ==> BackoffBase(attempts) < 0
    ensures attempts >= 63 ==> BackoffBase(attempts) == 0
  {
    if attempts <= 58 {
      NoWrap(attempts);
      Pow2Values();
      if attempts >= 4 { Pow2Grows(4, attempts); } else { Pow2Grows(attempts, 4); }
    } else if attempts <= 63 {
      Wraps(attempts);
    }
  }

  /** Each delay range lies above the one before until the cap, and none exceeds 640 seconds. */
  lemma DelayRanges(attempts: nat, jitter: nat)
    requires attempts <= 58 && JitterFor(BackoffBase(attempts), jitter)
    ensures Backoff(attempts) <= BackoffBase(attempts) + jitter <= 640
    ensures attempts < 4 ==> BackoffBase(attempts) + jitter < Backoff(attempts + 1)
  {
    BackoffBaseExact(attempts);
    Pow2Values();
    if attempts < 4 {
      assert Pow2(1) == 2 && Pow2(2) == 4 && Pow2(3) == 8;
      assert attempts == 0 || attempts == 1 || attempts == 2 || attempts == 3;
    }
  }

  function StatusUpdated(item: QueueItem, status: Status, error: string, now: Instant, seconds: nat): QueueItem {
    var updated := item.(
      status := status, lastAttempt := Some(now), error := if error == "" then None else Some(error));
    match status
    case Retrying => updated.(nextRetryAt := Some(now + seconds * SECOND), attempts := item.attempts + 1)
    case Sent => updated.(nextRetryAt := None)
    case _ => updated
  }

  /** The delays without jitter, in seconds. */
  lemma BackoffValues(attempts: nat)
    ensures Backoff(attempts) == if attempts == 0 then 30 else if attempts == 1 then 60 else
                                 if attempts == 2 then 120 else if attempts == 3 then 240 else 480
  {
    assert Pow2(0) == 1 && Pow2(1) == 2 && Pow2(2) == 4 && Pow2(3) == 8;
  }

  // ---- The repository ----

  lemma AnswerRows(
    stats: Stats, queue: Queue, events: Samples, plants: map<Uuid, Plant>, cutoff: int, now: Instant,
    groups: map<GroupKey, Metrics>)
    requires Evaluate(events, plants, cutoff) == Some(groups)
    ensures OneRowPerKey(groups) && Keys(groups) == DirtyBuckets(events, cutoff)
    ensures Upserted(stats, groups, now) == Recalculated(stats, events, plants, cutoff, now)
    ensures Requeued(queue, Keys(groups), now) == Requeued(queue, DirtyBuckets(events, cutoff), now)
  {
    CalculatedRows(events, plants, cutoff);
  }

  class AnalyticsWorkerRepo {
    var events: Samples
    var plants: map<Uuid, Plant>
    var stats: Stats
    var queue: Queue

    /** groups is the answer of the SELECT part, None if it failed; the upserts run in the same statement. */
    method RecalculateDirtyBuckets(lookback: int, now: Instant, dbOk: bool, groups: Option<map<GroupKey, Metrics>>)
      returns (count: Option<nat>)
      requires groups == Evaluate(events, plants, Cutoff(lookback, now))
      modifies this`stats, this`queue
      ensures count == if dbOk && groups.Some? then Some(|DirtyBuckets(events, Cutoff(lookback, now))|) else None
      ensures count.Some? ==> stats == Recalculated(old(stats), events, plants, Cutoff(lookback, now), now)
      ensures count.Some? ==> queue == Requeued(old(queue), DirtyBuckets(events, Cutoff(lookback, now)), now)
      ensures count.None? ==> stats == old(stats) && queue == old(queue)
    {
      if !dbOk || groups.None? {
        return None;
      }
      ghost var cutoff := Cutoff(lookback, now);
      AnswerRows(stats, queue, events, plants, cutoff, now, groups.value);
      count := Upsert(groups.value, now);
      assert stats == Recalculated(old(stats), events, plants, cutoff, now);
    }

    /** The two upserts and the count of keys, all from the same rows. */
    method Upsert(rows: map<GroupKey, Metrics>, now: Instant) returns (count: Option<nat>)
      requires OneRowPerKey(rows)
      modifies this`stats, this`queue
      ensures stats == Upserted(old(stats), rows, now)
      ensures queue == Requeued(old(queue), Keys(rows), now)
      ensures count == Some(|Keys(rows)|)
    {
      var keys := Keys(rows);
      stats := Upserted(stats, rows, now);
      queue := Requeued(queue, keys, now);
      count := Some(|keys|);
    }

    /** jitter is the draw of the random source. Without a queue row a retry is an error and any other
        update touches nothing. */
    method UpdateWebhookStatus(
      key: StatsKey, status: Status, error: string, now: Instant, readOk: bool, writeOk: bool, jitter: nat)
      returns (ok: bool)
      requires status == Retrying && readOk && key in queue ==> JitterFor(BackoffBase(queue[key].attempts), jitter)
      modifies this`queue
      ensures ok <==> writeOk && (status == Retrying ==> readOk && key in queue)
      ensures queue.Keys == old(queue).Keys
      ensures forall k :: k in queue && k != key ==> queue[k] == old(queue)[k]
      ensures key in queue ==>
                queue[key] ==
                if ok
                then StatusUpdated(old(queue)[key], status, error, now,
                                   if status == Retrying then BackoffBase(old(queue)[key].attempts) + jitter else 0)
                else old(queue)[key]
    {
      var seconds := 0;
      if status == Retrying {
        if !readOk || key !in queue {
          return false;
        }
        var base := Wrap64(30 * ShiftedOne(queue[key].attempts));
        if base > 480 {
          base := 480;
        }
        seconds := base + jitter;
      }
      if !writeOk {
        return false;
      }
      if key in queue {
        queue := queue[key := StatusUpdated(queue[key], status, error, now, seconds)];
      }
      return true;
    }
  }

  // ---- Runs ----

  /** The tables, with a history field: the events present at the last successful recalculation. */
  datatype Db = Db(events: Samples, plants: map<Uuid, Plant>, stats: Stats, queue: Queue, synced: Samples)

  datatype Step =
    | Ingest(rows: Samples, at: Instant)              // ON CONFLICT DO NOTHING
    | SetPlants(plants: map<Uuid, Plant>)
    | Recalculate(lookback: int, now: Instant, dbOk: bool)
    | Mark(key: StatsKey, status: Status, error: string, at: Instant, seconds: nat)

  ghost predicate Succeeds(db: Db, step: Step) {
    step.Recalculate? && step.dbOk && Evaluate(db.events, db.plants, Cutoff(step.lookback, step.now)).Some?
  }

  ghost function Apply(db: Db, step: Step): Db {
    match step
    case Ingest(rows, _) => db.(events := rows + db.events)
    case SetPlants(plants) => db.(plants := plants)
    case Recalculate(lookback, now, _) =>
      if !Succeeds(db, step) then db
      else
        var cutoff := Cutoff(lookback, now);
        db.(stats := Recalculated(db.stats, db.events, db.plants, cutoff, now),
            queue := Requeued(db.queue, DirtyBuckets(db.events, cutoff), now),
            synced := db.events)
    case Mark(key, status, error, at, seconds) =>
      if key in db.queue
      then db.(queue := db.queue[key := StatusUpdated(db.queue[key], status, error, at, seconds)])
      else db
  }

  ghost function After(db: Db, run: seq<Step>): Db
    decreases |run|
  {
    if run == [] then db else After(Apply(db, run[0]), run[1..])
  }

  function Empty(): Db { Db(map[], map[], map[], map[], map[]) }

  lemma StepKeepsKeys(db: Db, step: Step)
    requires db.queue.Keys == db.stats.Keys
    ensures Apply(db, step).queue.Keys == Apply(db, step).stats.Keys
  {
    if Succeeds(db, step) {
      RecalculationRefreshes(db.stats, db.events, db.plants, Cutoff(step.lookback, step.now), step.now);
    }
  }

  lemma {:induction false} KeysStayEqual(db: Db, run: seq<Step>)
    requires db.queue.Keys == db.stats.Keys
    ensures After(db, run).queue.Keys == After(db, run).stats.Keys
    decreases |run|
  {
    if run != [] {
      StepKeepsKeys(db, run[0]);
      KeysStayEqual(Apply(db, run[0]), run[1..]);
    }
  }

  /** In every reachable state the queue and the view have the same keys, so a picked item always has a
      statistics row and the dispatcher's "stats not found" branch cannot be taken. */
  lemma QueueAndStatsAgree(run: seq<Step>)
    ensures After(Empty(), run).queue.Keys == After(Empty(), run).stats.Keys
  {
    KeysStayEqual(Empty(), run);
  }

  /** A successful recalculation finds every event added since the last one in a recent bucket. */
  ghost predicate Timely(db: Db, step: Step) {
    Succeeds(db, step) ==>
      forall k :: k in db.events && k !in db.synced ==>
        KeyOf(k, db.events[k]) in DirtyBuckets(db.events, Cutoff(step.lookback, step.now))
  }

  ghost predicate TimelyRun(db: Db, run: seq<Step>)
    decreases |run|
  {
    run == [] || (Timely(db, run[0]) && TimelyRun(Apply(db, run[0]), run[1..]))
  }

  lemma StepKeepsView(db: Db, step: Step)
    requires Matches(db.stats, db.synced) && Extends(db.events, db.synced) && Timely(db, step)
    ensures Matches(Apply(db, step).stats, Apply(db, step).synced)
    ensures Extends(Apply(db, step).events, Apply(db, step).synced)
  {
    if Succeeds(db, step) {
      ExactAfterRecalculation(
        db.stats, db.synced, db.events, db.plants, Cutoff(step.lookback, step.now), step.now);
    }
  }

  lemma {:induction false} ViewStaysExact(db: Db, run: seq<Step>)
    requires Matches(db.stats, db.synced) && Extends(db.events, db.synced) && TimelyRun(db, run)
    ensures Matches(After(db, run).stats, After(db, run).synced)
    ensures Extends(After(db, run).events, After(db, run).synced)
    decreases |run|
  {
    if run != [] {
      StepKeepsView(db, run[0]);
      ViewStaysExact(Apply(db, run[0]), run[1..]);
    }
  }

  /** Along every timely run of inserts, plant changes, queue updates and recalculations, failed ones
      included, the view equals the full GROUP BY over the events of the last successful recalculation,
      and none of those events has been lost since. */
  lemma IncrementalEqualsFull(run: seq<Step>)
    requires TimelyRun(Empty(), run)
    ensures Matches(After(Empty(), run).stats, After(Empty(), run).synced)
    ensures Extends(After(Empty(), run).events, After(Empty(), run).synced)
  {
    ViewStaysExact(Empty(), run);
  }

  /** Events are stored within `delay` of their timestamp, and successful recalculations follow each other
      within `gap`, starting from one at time `last`. */
  ghost predicate PunctualRun(db: Db, run: seq<Step>, last: Instant, delay: nat, gap: nat)
    decreases |run|
  {
    run == [] ||
    (match run[0]
     case Ingest(rows, at) =>
       at >= last && (forall k :: k in rows ==> k.createdAt + delay >= at) &&
       PunctualRun(Apply(db, run[0]), run[1..], last, delay, gap)
     case Recalculate(lookback, now, _) =>
       if Succeeds(db, run[0])
       then last <= now <= last + gap && WholeMinutes(lookback) * MINUTE >= delay + gap &&
            PunctualRun(Apply(db, run[0]), run[1..], now, delay, gap)
       else PunctualRun(Apply(db, run[0]), run[1..], last, delay, gap)
     case _ => PunctualRun(Apply(db, run[0]), run[1..], last, delay, gap))
  }

  /** If storing an event takes no longer than what the lookback window, in whole minutes, leaves over the
      time between successful recalculations, the run is timely. With the default ten and five minutes
      an event may take five minutes to be stored. */
  lemma {:induction false} PunctualIsTimely(db: Db, run: seq<Step>, last: Instant, delay: nat, gap: nat)
    requires PunctualRun(db, run, last, delay, gap)
    requires forall k :: k in db.events && k !in db.synced ==> k.createdAt + delay >= last
    ensures TimelyRun(db, run)
    decreases |run|
  {
    if run != [] {
      var step := run[0];
      var next := if Succeeds(db, step) then step.now else last;
      if Succeeds(db, step) {
        forall k | k in db.events && k !in db.synced
          ensures KeyOf(k, db.events[k]) in DirtyBuckets(db.events, Cutoff(step.lookback, step.now))
        {
          assert k.createdAt >= Cutoff(step.lookback, step.now);
        }
      }
      PunctualIsTimely(Apply(db, step), run[1..], next, delay, gap);
    }
  }
}
