/** One aggregation cycle and one dispatch cycle
    (internal/infrastructure/adapters/repositories/analytics_coordinator.go). */
module AnalyticsCoordinator {
  import opened Events
  import opened AnalyticsWorker

  /** A queue item as the dispatcher read it. */
  datatype Picked = Picked(key: StatsKey, attempts: nat)

  /** What the outside world answers while one item is handled. */
  datatype Reply = Reply(
    statsError: Option<string>, sendError: Option<string>, now: Instant, readOk: bool, writeOk: bool, jitter: nat)

  predicate Live(item: QueueItem) { item.status == Pending || item.status == Retrying }

  predicate Due(item: QueueItem, now: Instant) {
    Live(item) && (item.nextRetryAt.None? || item.nextRetryAt.value <= now)
  }

  ghost predicate PickedFrom(queue: Queue, picked: seq<Picked>) {
    && (forall i :: 0 <= i < |picked| ==>
          picked[i].key in queue && Live(queue[picked[i].key]) && queue[picked[i].key].attempts == picked[i].attempts)
    && (forall i, j :: 0 <= i < j < |picked| ==> picked[i].key != picked[j].key)
  }

  /** The answer to the query for pending webhooks: the oldest due items, as many as the limit allows. */
  ghost predicate ValidPick(queue: Queue, now: Instant, limit: nat, picked: seq<Picked>) {
    && PickedFrom(queue, picked) && |picked| <= limit
    && (forall i :: 0 <= i < |picked| ==> Due(queue[picked[i].key], now))
    && (forall i, j :: 0 <= i < j < |picked| ==>
          queue[picked[i].key].createdAt <= queue[picked[j].key].createdAt)
    && (forall k :: k in queue && Due(queue[k], now) ==>
          (exists i :: 0 <= i < |picked| && picked[i].key == k) ||
          (|picked| == limit && forall i :: 0 <= i < |picked| ==>
             queue[picked[i].key].createdAt <= queue[k].createdAt))
  }

  /** How one item ends, and whether a request went out. */
  datatype Verdict = Verdict(status: Status, error: string, sent: bool)

  function Decide(p: Picked, maxAttempts: int, stats: Stats, r: Reply): Verdict {
    if p.attempts >= maxAttempts then Verdict(Failed, "max attempts exceeded", false)
    else if r.statsError.Some? then Verdict(Retrying, r.statsError.value, false)
    else if p.key !in stats then Verdict(Failed, "stats not found", false)
    else if r.sendError.Some? then Verdict(Retrying, r.sendError.value, true)
    else Verdict(Sent, "", true)
  }

  /** A jitter is drawn for a retry whose queue row could be read, and only then. */
  predicate JitterDrawn(p: Picked, maxAttempts: int, stats: Stats, r: Reply) {
    Decide(p, maxAttempts, stats, r).status == Retrying && r.readOk ==> JitterFor(BackoffBase(p.attempts), r.jitter)
  }

  predicate Recorded(v: Verdict, r: Reply) {
    r.writeOk && (v.status == Retrying ==> r.readOk)
  }

  function Seconds(item: QueueItem, v: Verdict, r: Reply): nat {
    if v.status == Retrying && BackoffBase(item.attempts) >= 0 then BackoffBase(item.attempts) + r.jitter else 0
  }

  /** The queue after one item was handled. */
  function Handled(queue: Queue, stats: Stats, maxAttempts: int, p: Picked, r: Reply): Queue {
    var v := Decide(p, maxAttempts, stats, r);
    if p.key in queue && Recorded(v, r)
    then queue[p.key := StatusUpdated(queue[p.key], v.status, v.error, r.now, Seconds(queue[p.key], v, r))]
    else queue
  }

  // ---- What handling an item comes to ----

  /** The item is given up: no attempts are left, or its statistics row is missing. */
  predicate EndsFailed(p: Picked, maxAttempts: int, stats: Stats, r: Reply) {
    p.attempts >= maxAttempts || (r.statsError.None? && p.key !in stats)
  }

  /** The payload went out without an error. */
  predicate EndsSent(p: Picked, maxAttempts: int, stats: Stats, r: Reply) {
    p.attempts < maxAttempts && r.statsError.None? && p.key in stats && r.sendError.None?
  }

  /** Reading the statistics or sending failed. */
  predicate EndsRetrying(p: Picked, maxAttempts: int, stats: Stats, r: Reply) {
    p.attempts < maxAttempts && (r.statsError.Some? || (p.key in stats && r.sendError.Some?))
  }

  /** The row of an item, once its ending is recorded. */
  predicate FailedRow(was: QueueItem, row: QueueItem, exhausted: bool, now: Instant) {
    row == was.(status := Failed, lastAttempt := Some(now),
                error := Some(if exhausted then "max attempts exceeded" else "stats not found"))
  }

  predicate SentRow(was: QueueItem, row: QueueItem, now: Instant) {
    row == was.(status := Sent, lastAttempt := Some(now), nextRetryAt := None, error := None)
  }

  /** One more attempt, and the next one after the backoff and at most a third more. */
  predicate RetryingRow(was: QueueItem, row: QueueItem, text: string, now: Instant) {
    && row.status == Retrying && row.attempts == was.attempts + 1 && row.createdAt == was.createdAt
    && row.lastAttempt == Some(now) && row.error == (if text == "" then None else Some(text))
    && row.nextRetryAt.Some?
    && (was.attempts <= 58 ==>
          now + Backoff(was.attempts) * 1_000_000_000 <= row.nextRetryAt.value <=
          now + (Backoff(was.attempts) + Backoff(was.attempts) / 3) * 1_000_000_000)
  }

  /** The three endings exclude each other and leave no fourth. */
  lemma EndingsSplit(p: Picked, maxAttempts: int, stats: Stats, r: Reply)
    ensures EndsFailed(p, maxAttempts, stats, r) <==>
            !EndsSent(p, maxAttempts, stats, r) && !EndsRetrying(p, maxAttempts, stats, r)
    ensures !(EndsSent(p, maxAttempts, stats, r) && EndsRetrying(p, maxAttempts, stats, r))
  {
  }

  lemma DecideEnds(p: Picked, maxAttempts: int, stats: Stats, r: Reply)
    ensures var v := Decide(p, maxAttempts, stats, r);
            (v.status == Failed <==> EndsFailed(p, maxAttempts, stats, r)) &&
            (v.status == Sent <==> EndsSent(p, maxAttempts, stats, r)) &&
            (v.status == Retrying <==> EndsRetrying(p, maxAttempts, stats, r)) &&
            (v.sent <==> p.attempts < maxAttempts && r.statsError.None? && p.key in stats)
  {
  }

  /** What is left of the queue row of the item, and of the others, in each case. */
  lemma HandledRow(queue: Queue, stats: Stats, maxAttempts: int, p: Picked, r: Reply)
    requires p.key in queue && queue[p.key].attempts == p.attempts && JitterDrawn(p, maxAttempts, stats, r)
    ensures var after := Handled(queue, stats, maxAttempts, p, r);
            && after.Keys == queue.Keys && (forall k :: k in queue && k != p.key ==> after[k] == queue[k])
            && (EndsFailed(p, maxAttempts, stats, r) && r.writeOk ==>
                  FailedRow(queue[p.key], after[p.key], p.attempts >= maxAttempts, r.now))
            && (EndsSent(p, maxAttempts, stats, r) && r.writeOk ==> SentRow(queue[p.key], after[p.key], r.now))
            && (EndsRetrying(p, maxAttempts, stats, r) && r.readOk && r.writeOk ==>
                  RetryingRow(queue[p.key], after[p.key],
                              if r.statsError.Some? then r.statsError.value else r.sendError.value, r.now))
            && (!r.writeOk || (EndsRetrying(p, maxAttempts, stats, r) && !r.readOk) ==> after == queue)
  {
    DecideEnds(p, maxAttempts, stats, r);
    if EndsRetrying(p, maxAttempts, stats, r) && r.readOk && p.attempts <= 58 {
      BackoffBaseExact(p.attempts);
      DelayRanges(p.attempts, r.jitter);
    }
  }

  function Dispatched(queue: Queue, stats: Stats, maxAttempts: int, picked: seq<Picked>, replies: seq<Reply>): Queue
    requires |picked| == |replies|
    decreases |picked|
  {
    if picked == [] then queue
    else
      Dispatched(Handled(queue, stats, maxAttempts, picked[0], replies[0]), stats, maxAttempts,
                 picked[1..], replies[1..])
  }

  /** Items of the cycle that end with the given status, whether or not that could be recorded. */
  function Ending(status: Status, stats: Stats, maxAttempts: int, picked: seq<Picked>, replies: seq<Reply>): nat
    requires |picked| == |replies|
    decreases |picked|
  {
    if picked == [] then 0
    else
      (if Decide(picked[0], maxAttempts, stats, replies[0]).status == status then 1 else 0) +
      Ending(status, stats, maxAttempts, picked[1..], replies[1..])
  }

  lemma {:induction false} DispatchedExtends(
    queue: Queue, stats: Stats, maxAttempts: int, picked: seq<Picked>, replies: seq<Reply>, p: Picked, r: Reply)
    requires |picked| == |replies|
    ensures Dispatched(queue, stats, maxAttempts, picked + [p], replies + [r]) ==
            Handled(Dispatched(queue, stats, maxAttempts, picked, replies), stats, maxAttempts, p, r)
    ensures forall status ::
              Ending(status, stats, maxAttempts, picked + [p], replies + [r]) ==
              Ending(status, stats, maxAttempts, picked, replies) +
              if Decide(p, maxAttempts, stats, r).status == status then 1 else 0
    decreases |picked|
  {
    if picked == [] {
      assert [p][1..] == [] && [r][1..] == [];
    } else {
      assert (picked + [p])[1..] == picked[1..] + [p] && (replies + [r])[1..] == replies[1..] + [r];
      DispatchedExtends(Handled(queue, stats, maxAttempts, picked[0], replies[0]), stats, maxAttempts,
                        picked[1..], replies[1..], p, r);
    }
  }

  /** The row of a picked item after the cycle. */
  predicate ItemConcluded(was: QueueItem, row: QueueItem, p: Picked, maxAttempts: int, stats: Stats, r: Reply) {
    && (EndsFailed(p, maxAttempts, stats, r) && r.writeOk ==> FailedRow(was, row, p.attempts >= maxAttempts, r.now))
    && (EndsSent(p, maxAttempts, stats, r) && r.writeOk ==> SentRow(was, row, r.now))
    && (EndsRetrying(p, maxAttempts, stats, r) && r.readOk && r.writeOk ==>
          RetryingRow(was, row, if r.statsError.Some? then r.statsError.value else r.sendError.value, r.now))
    && (!r.writeOk || (EndsRetrying(p, maxAttempts, stats, r) && !r.readOk) ==> row == was)
  }

  /** After a cycle every picked item has the row its own reply calls for, and no other row has changed. */
  lemma {:induction false} DispatchedRows(
    queue: Queue, stats: Stats, maxAttempts: int, picked: seq<Picked>, replies: seq<Reply>, k: StatsKey)
    requires |picked| == |replies| && PickedFrom(queue, picked)
    requires forall i :: 0 <= i < |picked| ==> JitterDrawn(picked[i], maxAttempts, stats, replies[i])
    ensures var after := Dispatched(queue, stats, maxAttempts, picked, replies);
            after.Keys == queue.Keys &&
            (k in queue && (forall i :: 0 <= i < |picked| ==> picked[i].key != k) ==> after[k] == queue[k]) &&
            (forall i :: 0 <= i < |picked| && picked[i].key == k ==>
               ItemConcluded(queue[k], after[k], picked[i], maxAttempts, stats, replies[i]))
    decreases |picked|
  {
    if picked != [] {
      HandledRow(queue, stats, maxAttempts, picked[0], replies[0]);
      var next := Handled(queue, stats, maxAttempts, picked[0], replies[0]);
      assert forall i :: 0 <= i < |picked[1..]| ==>
               picked[1..][i] == picked[i + 1] && replies[1..][i] == replies[i + 1];
      DispatchedRows(next, stats, maxAttempts, picked[1..], replies[1..], k);
    }
  }

  function CountTrue(flags: seq<bool>): nat {
    if flags == [] then 0 else (if flags[0] then 1 else 0) + CountTrue(flags[1..])
  }

  /** The endings counted are those of the picked items. */
  lemma {:induction false} EndingsCounted(
    stats: Stats, maxAttempts: int, picked: seq<Picked>, replies: seq<Reply>, sent: seq<bool>, failed: seq<bool>)
    requires |picked| == |replies| == |sent| == |failed|
    requires forall i :: 0 <= i < |picked| ==> (sent[i] <==> EndsSent(picked[i], maxAttempts, stats, replies[i]))
    requires forall i :: 0 <= i < |picked| ==> (failed[i] <==> EndsFailed(picked[i], maxAttempts, stats, replies[i]))
    ensures Ending(Sent, stats, maxAttempts, picked, replies) == CountTrue(sent)
    ensures Ending(Failed, stats, maxAttempts, picked, replies) == CountTrue(failed)
    decreases |picked|
  {
    if picked != [] {
      DecideEnds(picked[0], maxAttempts, stats, replies[0]);
      assert forall i :: 0 <= i < |picked[1..]| ==>
               picked[1..][i] == picked[i + 1] && replies[1..][i] == replies[i + 1];
      EndingsCounted(stats, maxAttempts, picked[1..], replies[1..], sent[1..], failed[1..]);
    }
  }

  class Coordinator {
    const repo: AnalyticsWorkerRepo
    const maxAttempts: int
    const enabled: bool
    var bucketsProcessed: nat
    var webhooksSent: nat
    var webhooksFailed: nat
    var locksSkipped: nat

    constructor (repo: AnalyticsWorkerRepo, configuredAttempts: int, enabled: bool)
      ensures this.repo == repo && this.enabled == enabled
      ensures maxAttempts == if configuredAttempts == 0 then 5 else configuredAttempts
    {
      this.repo, this.enabled := repo, enabled;
      maxAttempts := if configuredAttempts == 0 then 5 else configuredAttempts;
      bucketsProcessed, webhooksSent, webhooksFailed, locksSkipped := 0, 0, 0, 0;
    }

    /** granted is the answer of the advisory lock. A failed query leaves the tables alone. */
    method DoAggregation(
      granted: bool, lookback: int, now: Instant, dbOk: bool, groups: Option<map<GroupKey, Metrics>>)
      requires groups == Evaluate(repo.events, repo.plants, Cutoff(lookback, now))
      modifies this`bucketsProcessed, this`locksSkipped, repo`stats, repo`queue
      ensures granted && dbOk && groups.Some? ==>
                repo.stats == Recalculated(old(repo.stats), repo.events, repo.plants, Cutoff(lookback, now), now) &&
                repo.queue == Requeued(old(repo.queue), DirtyBuckets(repo.events, Cutoff(lookback, now)), now)
      ensures !(granted && dbOk && groups.Some?) ==> repo.stats == old(repo.stats) && repo.queue == old(repo.queue)
      ensures locksSkipped == old(locksSkipped) + if granted then 0 else 1
      ensures bucketsProcessed == old(bucketsProcessed) +
                if granted && dbOk && groups.Some? then |DirtyBuckets(repo.events, Cutoff(lookback, now))| else 0
    {
      if !granted {
        locksSkipped := locksSkipped + 1;
        return;
      }
      var count := repo.RecalculateDirtyBuckets(lookback, now, dbOk, groups);
      if count.Some? {
        bucketsProcessed := bucketsProcessed + count.value;
      }
    }

    /** picked is the answer of the pending query, None if it failed; nobody else writes the queue
        meanwhile (DispatchRace lets the aggregator in). */
    method DoDispatch(granted: bool, picked: Option<seq<Picked>>, replies: seq<Reply>)
      requires picked.Some? ==> |replies| == |picked.value| && PickedFrom(repo.queue, picked.value)
      requires picked.Some? ==> forall i :: 0 <= i < |replies| ==>
                 JitterDrawn(picked.value[i], maxAttempts, repo.stats, replies[i])
      modifies this`webhooksSent, this`webhooksFailed, this`locksSkipped, repo`queue
      ensures enabled && granted && picked.Some? ==>
                repo.queue == Dispatched(old(repo.queue), repo.stats, maxAttempts, picked.value, replies) &&
                webhooksSent == old(webhooksSent) + Ending(Sent, repo.stats, maxAttempts, picked.value, replies) &&
                webhooksFailed == old(webhooksFailed) + Ending(Failed, repo.stats, maxAttempts, picked.value, replies)
      ensures !(enabled && granted && picked.Some?) ==>
                repo.queue == old(repo.queue) &&
                webhooksSent == old(webhooksSent) && webhooksFailed == old(webhooksFailed)
      ensures locksSkipped == old(locksSkipped) + if enabled && !granted then 1 else 0
    {
      if !enabled {
        return;
      }
      if !granted {
        locksSkipped := locksSkipped + 1;
        return;
      }
      if picked.None? {
        return;
      }
      DispatchAll(picked.value, replies);
    }

    /** The dispatch loop. */
    method DispatchAll(webhooks: seq<Picked>, replies: seq<Reply>)
      requires |replies| == |webhooks| && PickedFrom(repo.queue, webhooks)
      requires forall i :: 0 <= i < |replies| ==> JitterDrawn(webhooks[i], maxAttempts, repo.stats, replies[i])
      modifies this`webhooksSent, this`webhooksFailed, repo`queue
      ensures repo.queue == Dispatched(old(repo.queue), repo.stats, maxAttempts, webhooks, replies)
      ensures webhooksSent == old(webhooksSent) + Ending(Sent, repo.stats, maxAttempts, webhooks, replies)
      ensures webhooksFailed == old(webhooksFailed) + Ending(Failed, repo.stats, maxAttempts, webhooks, replies)
    {
      var i := 0;
      while i < |webhooks|
        invariant i <= |webhooks|
        invariant repo.queue == Dispatched(old(repo.queue), repo.stats, maxAttempts, webhooks[..i], replies[..i])
        invariant webhooksSent == old(webhooksSent) + Ending(Sent, repo.stats, maxAttempts, webhooks[..i], replies[..i])
        invariant webhooksFailed ==
                  old(webhooksFailed) + Ending(Failed, repo.stats, maxAttempts, webhooks[..i], replies[..i])
        invariant forall j :: i <= j < |webhooks| ==>
                    webhooks[j].key in repo.queue && repo.queue[webhooks[j].key] == old(repo.queue)[webhooks[j].key]
      {
        DispatchedExtends(old(repo.queue), repo.stats, maxAttempts, webhooks[..i], replies[..i],
                          webhooks[i], replies[i]);
        assert webhooks[..i + 1] == webhooks[..i] + [webhooks[i]] && replies[..i + 1] == replies[..i] + [replies[i]];
        HandleOne(webhooks[i], replies[i]);
        i := i + 1;
      }
      assert webhooks[..i] == webhooks && replies[..i] == replies;
    }

    /** The body of the dispatch loop. */
    method HandleOne(wh: Picked, r: Reply)
      requires wh.key in repo.queue && repo.queue[wh.key].attempts == wh.attempts
      requires JitterDrawn(wh, maxAttempts, repo.stats, r)
      modifies this`webhooksSent, this`webhooksFailed, repo`queue
      ensures repo.queue == Handled(old(repo.queue), repo.stats, maxAttempts, wh, r)
      ensures var status := Decide(wh, maxAttempts, repo.stats, r).status;
              webhooksSent == old(webhooksSent) + (if status == Sent then 1 else 0) &&
              webhooksFailed == old(webhooksFailed) + (if status == Failed then 1 else 0)
      ensures webhooksSent == old(webhooksSent) + if EndsSent(wh, maxAttempts, repo.stats, r) then 1 else 0
      ensures webhooksFailed == old(webhooksFailed) + if EndsFailed(wh, maxAttempts, repo.stats, r) then 1 else 0
      ensures forall k :: k in old(repo.queue) && k != wh.key ==>
                k in repo.queue && repo.queue[k] == old(repo.queue)[k]
      ensures wh.key in repo.queue
      ensures EndsFailed(wh, maxAttempts, repo.stats, r) && r.writeOk ==>
                FailedRow(old(repo.queue)[wh.key], repo.queue[wh.key], wh.attempts >= maxAttempts, r.now)
      ensures EndsSent(wh, maxAttempts, repo.stats, r) && r.writeOk ==>
                SentRow(old(repo.queue)[wh.key], repo.queue[wh.key], r.now)
      ensures EndsRetrying(wh, maxAttempts, repo.stats, r) && r.readOk && r.writeOk ==>
                RetryingRow(old(repo.queue)[wh.key], repo.queue[wh.key],
                            if r.statsError.Some? then r.statsError.value else r.sendError.value, r.now)
    {
      HandledRow(repo.queue, repo.stats, maxAttempts, wh, r);
      DecideEnds(wh, maxAttempts, repo.stats, r);
      var ok;
      if wh.attempts >= maxAttempts {
        ok := repo.UpdateWebhookStatus(wh.key, Failed, "max attempts exceeded", r.now, r.readOk, r.writeOk, r.jitter);
        webhooksFailed := webhooksFailed + 1;
      } else if r.statsError.Some? {
        ok := repo.UpdateWebhookStatus(wh.key, Retrying, r.statsError.value, r.now, r.readOk, r.writeOk, r.jitter);
      } else if wh.key !in repo.stats {
        ok := repo.UpdateWebhookStatus(wh.key, Failed, "stats not found", r.now, r.readOk, r.writeOk, r.jitter);
        webhooksFailed := webhooksFailed + 1;
      } else if r.sendError.Some? {
        ok := repo.UpdateWebhookStatus(wh.key, Retrying, r.sendError.value, r.now, r.readOk, r.writeOk, r.jitter);
      } else {
        ok := repo.UpdateWebhookStatus(wh.key, Sent, "", r.now, r.readOk, r.writeOk, r.jitter);
        webhooksSent := webhooksSent + 1;
      }
    }
  }

  // ---- Dispatch terminates ----

  function Max(a: int, b: int): int { if a >= b then a else b }

  /** The attempts an item may still go through, one slot each: from its present count to the maximum, and in
      any case the one in which it is given up. */
  function Slots(queue: Queue, maxAttempts: int): set<(StatsKey, nat)> {
    set k, n: nat | k in queue && Live(queue[k]) && queue[k].attempts <= n <= Max(maxAttempts, queue[k].attempts) ::
      (k, n)
  }

  lemma HandledUsesSlot(queue: Queue, stats: Stats, maxAttempts: int, p: Picked, r: Reply)
    requires PickedFrom(queue, [p]) && Recorded(Decide(p, maxAttempts, stats, r), r)
    ensures |Slots(Handled(queue, stats, maxAttempts, p, r), maxAttempts)| < |Slots(queue, maxAttempts)|
  {
    var after := Handled(queue, stats, maxAttempts, p, r);
    assert [p][0] == p;
    var slot := (p.key, p.attempts);
    assert slot in Slots(queue, maxAttempts) && slot !in Slots(after, maxAttempts);
    assert Slots(after, maxAttempts) <= Slots(queue, maxAttempts);
    SubsetIsSmaller(Slots(after, maxAttempts), Slots(queue, maxAttempts));
  }

  /** No attempt count grows beyond the maximum. */
  ghost predicate AttemptsWithin(queue: Queue, after: Queue, maxAttempts: int) {
    after.Keys == queue.Keys && forall k :: k in queue ==> after[k].attempts <= Max(maxAttempts, queue[k].attempts)
  }

  lemma HandledWithin(queue: Queue, stats: Stats, maxAttempts: int, p: Picked, r: Reply)
    requires PickedFrom(queue, [p])
    ensures AttemptsWithin(queue, Handled(queue, stats, maxAttempts, p, r), maxAttempts)
  {
    assert [p][0] == p;
  }

  /** One cycle of the dispatcher, with the answers it got. */
  datatype Cycle = Cycle(picked: seq<Picked>, replies: seq<Reply>)

  ghost predicate RecordedCycle(queue: Queue, stats: Stats, maxAttempts: int, c: Cycle) {
    |c.picked| == |c.replies| && PickedFrom(queue, c.picked) &&
    forall i :: 0 <= i < |c.picked| ==> Recorded(Decide(c.picked[i], maxAttempts, stats, c.replies[i]), c.replies[i])
  }

  lemma {:induction false} CycleUsesSlots(queue: Queue, stats: Stats, maxAttempts: int, c: Cycle)
    requires RecordedCycle(queue, stats, maxAttempts, c)
    ensures var after := Dispatched(queue, stats, maxAttempts, c.picked, c.replies);
            AttemptsWithin(queue, after, maxAttempts) &&
            |Slots(after, maxAttempts)| + |c.picked| <= |Slots(queue, maxAttempts)|
    decreases |c.picked|
  {
    if c.picked != [] {
      var after := Handled(queue, stats, maxAttempts, c.picked[0], c.replies[0]);
      HandledUsesSlot(queue, stats, maxAttempts, c.picked[0], c.replies[0]);
      HandledWithin(queue, stats, maxAttempts, c.picked[0], c.replies[0]);
      CycleUsesSlots(after, stats, maxAttempts, Cycle(c.picked[1..], c.replies[1..]));
    }
  }

  ghost predicate RecordedCycles(queue: Queue, stats: Stats, maxAttempts: int, cycles: seq<Cycle>)
    decreases |cycles|
  {
    cycles == [] ||
    (RecordedCycle(queue, stats, maxAttempts, cycles[0]) &&
     RecordedCycles(Dispatched(queue, stats, maxAttempts, cycles[0].picked, cycles[0].replies), stats, maxAttempts,
                    cycles[1..]))
  }

  ghost function AfterCycles(queue: Queue, stats: Stats, maxAttempts: int, cycles: seq<Cycle>): Queue
    requires RecordedCycles(queue, stats, maxAttempts, cycles)
    decreases |cycles|
  {
    if cycles == [] then queue
    else
      AfterCycles(Dispatched(queue, stats, maxAttempts, cycles[0].picked, cycles[0].replies), stats, maxAttempts,
                  cycles[1..])
  }

  function Picks(cycles: seq<Cycle>): nat {
    if cycles == [] then 0 else |cycles[0].picked| + Picks(cycles[1..])
  }

  /** Slots of one item at the most. */
  function Width(maxAttempts: int): nat { Max(maxAttempts, 0) + 1 }

  lemma SlotsOfOne(queue: Queue, k: StatsKey, maxAttempts: int)
    requires k in queue
    ensures |Slots(queue, maxAttempts)| <= Width(maxAttempts) + |Slots(queue - {k}, maxAttempts)|
  {
    var low := queue[k].attempts;
    var own := set n: nat | low <= n <= Max(maxAttempts, low) :: (k, n);
    RangeSize(k, low, Max(maxAttempts, low));
    assert Slots(queue, maxAttempts) <= own + Slots(queue - {k}, maxAttempts);
    UnionIsNoLarger(Slots(queue, maxAttempts), own, Slots(queue - {k}, maxAttempts));
  }

  lemma {:induction false} SlotsBound(queue: Queue, maxAttempts: int)
    ensures |Slots(queue, maxAttempts)| <= |queue| * Width(maxAttempts)
    decreases |queue|
  {
    if queue == map[] {
      assert Slots(queue, maxAttempts) == {};
    } else {
      var k :| k in queue;
      var rest := queue - {k};
      assert rest.Keys == queue.Keys - {k};
      SlotsBound(rest, maxAttempts);
      SlotsOfOne(queue, k, maxAttempts);
      OneMore(|rest|, Width(maxAttempts));
    }
  }

  lemma OneMore(n: nat, w: nat)
    ensures (n + 1) * w == n * w + w
  {
  }

  lemma {:induction false} RangeSize(k: StatsKey, low: nat, top: nat)
    requires low <= top
    ensures |set n: nat | low <= n <= top :: (k, n)| == top - low + 1
    decreases top
  {
    var all := set n: nat | low <= n <= top :: (k, n);
    if top == low {
      assert all == {(k, low)};
    } else {
      RangeSize(k, low, top - 1);
      assert all == (set n: nat | low <= n <= top - 1 :: (k, n)) + {(k, top)};
    }
  }

  lemma UnionIsNoLarger<T>(a: set<T>, b: set<T>, c: set<T>)
    requires a <= b + c
    ensures |a| <= |b| + |c|
  {
    if a < b + c { SubsetIsSmaller(a, b + c); } else { assert a == b + c; }
    assert |b + c| + |b * c| == |b| + |c|;
  }

  /** With every status recorded and no re-queue, the slots of n items pay for all picks of all cycles:
      after at most (max + 1) n of them, or n under a maximum below zero, every item is sent or failed, and no
      attempt count grows beyond the maximum. The queue may have been written under another maximum. */
  lemma {:induction false} DispatchTerminates(queue: Queue, stats: Stats, maxAttempts: int, cycles: seq<Cycle>)
    requires RecordedCycles(queue, stats, maxAttempts, cycles)
    ensures var after := AfterCycles(queue, stats, maxAttempts, cycles);
            AttemptsWithin(queue, after, maxAttempts) &&
            |Slots(after, maxAttempts)| + Picks(cycles) <= |Slots(queue, maxAttempts)| &&
            |Slots(queue, maxAttempts)| <= |queue| * Width(maxAttempts) &&
            (Picks(cycles) == |queue| * Width(maxAttempts) ==>
               forall k :: k in after ==> after[k].status == Sent || after[k].status == Failed)
    decreases |cycles|
  {
    SlotsBound(queue, maxAttempts);
    if cycles != [] {
      var c := cycles[0];
      CycleUsesSlots(queue, stats, maxAttempts, c);
      var next := Dispatched(queue, stats, maxAttempts, c.picked, c.replies);
      DispatchTerminates(next, stats, maxAttempts, cycles[1..]);
    }
    var after := AfterCycles(queue, stats, maxAttempts, cycles);
    assert forall k :: k in after && Live(after[k]) ==> (k, after[k].attempts) in Slots(after, maxAttempts);
  }

  /** A cycle that has room for all and finds nothing at a time later than every retry time leaves
      nothing to do. */
  lemma IdleCycleMeansDone(queue: Queue, now: Instant, limit: nat, picked: seq<Picked>)
    requires ValidPick(queue, now, limit, picked) && limit > 0 && picked == []
    requires forall k :: k in queue && queue[k].nextRetryAt.Some? ==> queue[k].nextRetryAt.value <= now
    ensures forall k :: k in queue ==> queue[k].status == Sent || queue[k].status == Failed
  {
    forall k | k in queue ensures queue[k].status == Sent || queue[k].status == Failed {
      assert !Due(queue[k], now);
    }
  }

  // ---- Sends per item ----

  /** Requests sent for one key during a cycle. */
  function SendsIn(k: StatsKey, stats: Stats, maxAttempts: int, picked: seq<Picked>, replies: seq<Reply>): nat
    requires |picked| == |replies|
    decreases |picked|
  {
    if picked == [] then 0
    else
      (if picked[0].key == k && Decide(picked[0], maxAttempts, stats, replies[0]).sent then 1 else 0) +
      SendsIn(k, stats, maxAttempts, picked[1..], replies[1..])
  }

  function Sends(k: StatsKey, stats: Stats, maxAttempts: int, cycles: seq<Cycle>): nat
    requires forall c :: c in cycles ==> |c.picked| == |c.replies|
    decreases |cycles|
  {
    if cycles == [] then 0
    else
      assert cycles[0] in cycles;
      SendsIn(k, stats, maxAttempts, cycles[0].picked, cycles[0].replies) + Sends(k, stats, maxAttempts, cycles[1..])
  }

  /** Sends an item may still cause. */
  function Credit(queue: Queue, k: StatsKey, maxAttempts: int): nat {
    if k in queue && Live(queue[k]) && queue[k].attempts <= maxAttempts then maxAttempts - queue[k].attempts else 0
  }

  lemma {:induction false} CycleUsesCredit(queue: Queue, stats: Stats, maxAttempts: int, c: Cycle, k: StatsKey)
    requires RecordedCycle(queue, stats, maxAttempts, c)
    ensures SendsIn(k, stats, maxAttempts, c.picked, c.replies) +
            Credit(Dispatched(queue, stats, maxAttempts, c.picked, c.replies), k, maxAttempts) <=
            Credit(queue, k, maxAttempts)
    decreases |c.picked|
  {
    if c.picked != [] {
      var after := Handled(queue, stats, maxAttempts, c.picked[0], c.replies[0]);
      HandledUsesSlot(queue, stats, maxAttempts, c.picked[0], c.replies[0]);
      CycleUsesCredit(after, stats, maxAttempts, Cycle(c.picked[1..], c.replies[1..]), k);
    }
  }

  /** No item is sent more than the maximum number of times before it is SENT or FAILED. */
  lemma {:induction false} SendsBounded(queue: Queue, stats: Stats, maxAttempts: int, cycles: seq<Cycle>, k: StatsKey)
    requires RecordedCycles(queue, stats, maxAttempts, cycles)
    requires forall c :: c in cycles ==> |c.picked| == |c.replies|
    ensures Sends(k, stats, maxAttempts, cycles) +
            Credit(AfterCycles(queue, stats, maxAttempts, cycles), k, maxAttempts) <=
            Credit(queue, k, maxAttempts) <= Max(maxAttempts, 0)
    decreases |cycles|
  {
    if cycles != [] {
      var c := cycles[0];
      CycleUsesSlots(queue, stats, maxAttempts, c);
      CycleUsesCredit(queue, stats, maxAttempts, c, k);
      assert forall x :: x in cycles[1..] ==> x in cycles;
      SendsBounded(Dispatched(queue, stats, maxAttempts, c.picked, c.replies), stats, maxAttempts, cycles[1..], k);
    }
  }
}
