/** The dual-pipeline batch writer as a protocol: any number of producers, two bounded channels, two
    worker pools and one Stop, interleaved step by step
    (internal/infrastructure/adapters/repositories/dual_event_writer.go).

    A run is a list of steps. The history fields of the state (multisets of attempts and outcomes, times)
    are never tested by a step's guard except where the code tests the same thing. */
module DualEventWriter {
  import opened Events
  import opened EventStore

  const PIPELINE_BUFFER_SIZE := 1000
  const BATCH_SIZE := 500
  const DEFAULT_WORKERS := 2

  /** One enqueue attempt: the row it carries, when its call read the stopping flag, when it reached
      the channel. Times are step numbers. */
  datatype Item = Item(model: EventModel, checkedAt: nat, attemptedAt: nat)

  /** Running: the outer select loop. Draining: the loop entered after the stop signal.
      Finishing: the drain loop saw an empty channel and the last flush is due. */
  datatype Mode = Running | Draining | Finishing | Exited

  datatype Worker = Worker(mode: Mode, batch: seq<Item>)

  datatype Line = Line(
    pipeline: Pipeline,
    channel: seq<Item>,
    workers: seq<Worker>,
    table: Table,
    attempted: multiset<Item>,
    dropped: multiset<Item>,
    written: multiset<Item>,
    lost: multiset<Item>,
    drawn: set<Uuid>,         // ids the database generated for written items with the nil id
    lastEmptyAt: Option<nat>)

  /** A SaveEventAsyncWithRaw call that has read stopping = false. */
  datatype Call = Call(model: EventModel, hasRaw: bool, checkedAt: nat)

  /** Stop's program counter; the stopping flag is raised in every phase but NotStopped. */
  datatype StopPhase = NotStopped | FlagRaised | SignalClosed | Returned

  datatype State = State(
    op: Line, an: Line,
    checked: seq<Call>,       // calls about to enqueue to the operational channel
    half: seq<Call>,          // calls about to enqueue to the analytical channel
    spilled: multiset<Item>,  // what reached the spillover callback
    hasCallback: bool,
    stop: StopPhase,
    clock: nat,
    stoppedAt: nat,           // when the flag was raised
    quiet: bool)              // whether no call was in flight at that moment

  datatype Action =
    | Take                                   // receive one item and append it to the batch
    | Flush(ok: bool, scan: seq<Item>, via: Via)    // a full batch, or a tick
    | SeeStop
    | SeeEmpty                               // default branch of the drain loop
    | Finish(ok: bool, scan: seq<Item>, via: Via)   // last flush and return

  datatype Step =
    | BeginCall(model: EventModel, hasRaw: bool)
    | RejectCall
    | EnqueueOp(i: nat)
    | EnqueueAn(i: nat)
    | Work(onOp: bool, w: nat, act: Action)
    | RaiseFlag
    | CloseSignal
    | StopReturns

  // ---- Steps ----

  function Rows(items: seq<Item>): (rows: seq<EventRow>)
    ensures |rows| == |items|
    ensures forall i :: 0 <= i < |items| ==> rows[i] == ToRow(items[i].model)
  {
    seq(|items|, i requires 0 <= i < |items| => ToRow(items[i].model))
  }

  /** Non-blocking send: the item joins the channel, or is dropped when the buffer is full. */
  function Enqueue(p: Line, item: Item): Line {
    if |p.channel| < PIPELINE_BUFFER_SIZE
    then p.(channel := p.channel + [item], attempted := p.attempted + multiset{item})
    else p.(dropped := p.dropped + multiset{item}, attempted := p.attempted + multiset{item})
  }

  predicate CanAct(p: Line, w: nat, act: Action, signalled: bool) {
    w < |p.workers| &&
    var worker := p.workers[w];
    match act
    case Take =>
      (worker.mode == Running || worker.mode == Draining) && |worker.batch| < BATCH_SIZE && p.channel != []
    case Flush(ok, scan, via) =>
      multiset(scan) == multiset(worker.batch) && ViaFor(via, |scan|) &&
      ((worker.mode == Draining && |worker.batch| >= BATCH_SIZE) || (worker.mode == Running && worker.batch != []))
    case SeeStop =>
      worker.mode == Running && |worker.batch| < BATCH_SIZE && signalled
    case SeeEmpty =>
      worker.mode == Draining && |worker.batch| < BATCH_SIZE && p.channel == []
    case Finish(ok, scan, via) =>
      worker.mode == Finishing && multiset(scan) == multiset(worker.batch) && ViaFor(via, |scan|)
  }

  function Models(items: seq<Item>): (models: seq<EventModel>)
    ensures |models| == |items| && forall i :: 0 <= i < |items| ==> models[i] == items[i].model
  {
    seq(|items|, i requires 0 <= i < |items| => items[i].model)
  }

  function Drawn(items: seq<Item>, via: Via): set<Uuid>
    requires ViaFor(via, |items|)
  {
    if via.Copied? then {} else set n | 0 <= n < |items| && items[n].model.id == NIL_ID :: via.ids[n]
  }

  /** The batch is cleared whether or not it was written. */
  function FlushBatch(p: Line, w: nat, ok: bool, scan: seq<Item>, via: Via, mode: Mode): Line
    requires w < |p.workers| && ViaFor(via, |scan|)
  {
    var batch := p.workers[w].batch;
    var cleared := p.(workers := p.workers[w := Worker(mode, [])]);
    if ok
    then cleared.(table := InsertAll(p.pipeline, p.table, StoredRows(Models(scan), via)),
                  written := p.written + multiset(batch), drawn := p.drawn + Drawn(scan, via))
    else cleared.(lost := p.lost + multiset(batch))
  }

  function Act(p: Line, w: nat, act: Action, signalled: bool, now: nat): Line
    requires CanAct(p, w, act, signalled)
  {
    var worker := p.workers[w];
    match act
    case Take =>
      p.(channel := p.channel[1..],
         workers := p.workers[w := Worker(worker.mode, worker.batch + [p.channel[0]])])
    case Flush(ok, scan, via) => FlushBatch(p, w, ok, scan, via, worker.mode)
    case SeeStop => p.(workers := p.workers[w := Worker(Draining, worker.batch)])
    case SeeEmpty => p.(workers := p.workers[w := Worker(Finishing, worker.batch)], lastEmptyAt := Some(now))
    case Finish(ok, scan, via) => FlushBatch(p, w, ok, scan, via, Exited)
  }

  predicate Signalled(s: State) { s.stop == SignalClosed || s.stop == Returned }

  predicate AllExited(p: Line) {
    forall w :: 0 <= w < |p.workers| ==> p.workers[w].mode == Exited
  }

  predicate Enabled(s: State, step: Step) {
    match step
    case BeginCall(_, _) => s.stop == NotStopped
    case RejectCall => s.stop != NotStopped
    case EnqueueOp(i) => i < |s.checked|
    case EnqueueAn(i) => i < |s.half|
    case Work(onOp, w, act) => CanAct(if onOp then s.op else s.an, w, act, Signalled(s))
    case RaiseFlag => s.stop == NotStopped
    case CloseSignal => s.stop == FlagRaised
    case StopReturns => s.stop == SignalClosed && AllExited(s.op) && AllExited(s.an)
  }

  function Without<T>(q: seq<T>, i: nat): seq<T>
    requires i < |q|
  {
    q[..i] + q[i + 1..]
  }

  function ItemOf(c: Call, now: nat): Item { Item(c.model, c.checkedAt, now) }

  function Apply(s: State, step: Step): State
    requires Enabled(s, step)
  {
    var t := s.(clock := s.clock + 1);
    match step
    case BeginCall(model, hasRaw) => t.(checked := s.checked + [Call(model, hasRaw, s.clock)])
    case RejectCall => t
    case EnqueueOp(i) =>
      var c := s.checked[i];
      var item := ItemOf(c, s.clock);
      t.(checked := Without(s.checked, i), half := s.half + [c], op := Enqueue(s.op, item),
         spilled := if |s.op.channel| >= PIPELINE_BUFFER_SIZE && s.hasCallback && c.hasRaw
                    then s.spilled + multiset{item} else s.spilled)
    case EnqueueAn(i) =>
      t.(half := Without(s.half, i), an := Enqueue(s.an, ItemOf(s.half[i], s.clock)))
    case Work(onOp, w, act) =>
      if onOp then t.(op := Act(s.op, w, act, Signalled(s), s.clock))
      else t.(an := Act(s.an, w, act, Signalled(s), s.clock))
    case RaiseFlag => t.(stop := FlagRaised, stoppedAt := s.clock, quiet := s.checked == [] && s.half == [])
    case CloseSignal => t.(stop := SignalClosed)
    case StopReturns => t.(stop := Returned)
  }

  /** The workers of a pipeline. */
  function Crew(configured: int): (n: nat)
    ensures configured <= 0 ==> n == 2
    ensures configured > 0 ==> n == configured
  {
    if configured <= 0 then DEFAULT_WORKERS else configured
  }

  function InitLine(p: Pipeline, configured: int, table: Table): Line {
    Line(p, [], seq(Crew(configured), i => Worker(Running, [])),
         table, multiset{}, multiset{}, multiset{}, multiset{}, {}, None)
  }

  function Init(opWorkers: int, anWorkers: int, hasCallback: bool, opTable: Table, anTable: Table): State {
    State(InitLine(Operational, opWorkers, opTable), InitLine(Analytical, anWorkers, anTable),
          [], [], multiset{}, hasCallback, NotStopped, 0, 0, false)
  }

  predicate ValidRun(s: State, run: seq<Step>)
    decreases |run|
  {
    run == [] || (Enabled(s, run[0]) && ValidRun(Apply(s, run[0]), run[1..]))
  }

  function After(s: State, run: seq<Step>): State
    requires ValidRun(s, run)
    decreases |run|
  {
    if run == [] then s else After(Apply(s, run[0]), run[1..])
  }

  lemma Prepend(s: State, step: Step, rest: seq<Step>)
    requires Enabled(s, step) && ValidRun(Apply(s, step), rest)
    ensures ValidRun(s, [step] + rest) && After(s, [step] + rest) == After(Apply(s, step), rest)
  {
    assert ([step] + rest)[1..] == rest;
  }

  // ---- Conservation ----

  function InBatches(workers: seq<Worker>): multiset<Item> {
    if workers == [] then multiset{} else multiset(workers[0].batch) + InBatches(workers[1..])
  }

  lemma {:induction false} InBatchesUpdate(workers: seq<Worker>, w: nat, worker: Worker, x: Item)
    requires w < |workers|
    ensures InBatches(workers[w := worker])[x] + multiset(workers[w].batch)[x] ==
            InBatches(workers)[x] + multiset(worker.batch)[x]
  {
    var updated := workers[w := worker];
    if w == 0 {
      assert updated[1..] == workers[1..];
    } else {
      InBatchesUpdate(workers[1..], w - 1, worker, x);
      assert updated[1..] == workers[1..][w - 1 := worker];
    }
  }

  lemma {:induction false} InBatchesSize(workers: seq<Worker>)
    requires forall w :: 0 <= w < |workers| ==> |workers[w].batch| <= BATCH_SIZE
    ensures |InBatches(workers)| <= BATCH_SIZE * |workers|
  {
    if workers != [] {
      InBatchesSize(workers[1..]);
      assert |multiset(workers[0].batch)| == |workers[0].batch|;
    }
  }

  lemma {:induction false} EmptyBatches(workers: seq<Worker>)
    requires forall w :: 0 <= w < |workers| ==> workers[w].batch == []
    ensures InBatches(workers) == multiset{}
  {
    if workers != [] {
      EmptyBatches(workers[1..]);
    }
  }

  /** Every attempted enqueue is in exactly one place. */
  ghost predicate Conserved(p: Line) {
    p.attempted == p.dropped + multiset(p.channel) + InBatches(p.workers) + p.written + p.lost
  }

  ghost predicate Bounded(p: Line) {
    |p.channel| <= PIPELINE_BUFFER_SIZE &&
    forall w :: 0 <= w < |p.workers| ==>
      |p.workers[w].batch| <= BATCH_SIZE && (p.workers[w].mode == Exited ==> p.workers[w].batch == [])
  }

  lemma EnqueueConserves(p: Line, item: Item)
    requires Conserved(p) && Bounded(p)
    ensures Conserved(Enqueue(p, item)) && Bounded(Enqueue(p, item))
  {
  }

  /** Where an item is, as a count: the total of a line for one item. */
  ghost function Total(p: Line, x: Item): nat {
    p.dropped[x] + multiset(p.channel)[x] + InBatches(p.workers)[x] + p.written[x] + p.lost[x]
  }

  lemma ConservedByCount(p: Line)
    ensures Conserved(p) <==> forall x :: p.attempted[x] == Total(p, x)
  {
    var all := p.dropped + multiset(p.channel) + InBatches(p.workers) + p.written + p.lost;
    assert forall x :: all[x] == Total(p, x);
  }

  lemma FlushKeepsTotal(p: Line, w: nat, ok: bool, scan: seq<Item>, via: Via, mode: Mode, x: Item)
    requires w < |p.workers| && ViaFor(via, |scan|)
    ensures Total(FlushBatch(p, w, ok, scan, via, mode), x) == Total(p, x)
  {
    InBatchesUpdate(p.workers, w, Worker(mode, []), x);
  }

  lemma TakeKeepsTotal(p: Line, w: nat, signalled: bool, now: nat, x: Item)
    requires CanAct(p, w, Take, signalled)
    ensures Total(Act(p, w, Take, signalled, now), x) == Total(p, x)
  {
    var first, batch := p.channel[0], p.workers[w].batch;
    InBatchesUpdate(p.workers, w, Worker(p.workers[w].mode, batch + [first]), x);
    assert p.channel == [first] + p.channel[1..];
    assert multiset(p.channel)[x] == multiset([first])[x] + multiset(p.channel[1..])[x];
    assert multiset(batch + [first])[x] == multiset(batch)[x] + multiset([first])[x];
  }

  lemma ModeKeepsTotal(p: Line, q: Line, w: nat, mode: Mode, x: Item)
    requires w < |p.workers| && q.workers == p.workers[w := Worker(mode, p.workers[w].batch)]
    requires q.channel == p.channel && q.dropped == p.dropped && q.written == p.written && q.lost == p.lost
    ensures Total(q, x) == Total(p, x)
  {
    InBatchesUpdate(p.workers, w, Worker(mode, p.workers[w].batch), x);
  }

  lemma ActKeepsTotal(p: Line, w: nat, act: Action, signalled: bool, now: nat, x: Item)
    requires CanAct(p, w, act, signalled)
    ensures Total(Act(p, w, act, signalled, now), x) == Total(p, x)
  {
    match act
    case Take => TakeKeepsTotal(p, w, signalled, now, x);
    case Flush(ok, scan, via) => FlushKeepsTotal(p, w, ok, scan, via, p.workers[w].mode, x);
    case SeeStop => ModeKeepsTotal(p, Act(p, w, act, signalled, now), w, Draining, x);
    case SeeEmpty => ModeKeepsTotal(p, Act(p, w, act, signalled, now), w, Finishing, x);
    case Finish(ok, scan, via) => FlushKeepsTotal(p, w, ok, scan, via, Exited, x);
  }

  lemma ActStaysBounded(p: Line, w: nat, act: Action, signalled: bool, now: nat)
    requires Bounded(p) && CanAct(p, w, act, signalled)
    ensures Bounded(Act(p, w, act, signalled, now))
  {
    var q := Act(p, w, act, signalled, now);
    var worker := q.workers[w];
    assert q.workers == p.workers[w := worker];
    assert |worker.batch| <= BATCH_SIZE && (worker.mode == Exited ==> worker.batch == []);
    assert |q.channel| <= |p.channel|;
  }

  lemma ActConserves(p: Line, w: nat, act: Action, signalled: bool, now: nat)
    requires Conserved(p) && CanAct(p, w, act, signalled)
    ensures Conserved(Act(p, w, act, signalled, now))
  {
    var q := Act(p, w, act, signalled, now);
    ConservedByCount(p);
    forall x ensures q.attempted[x] == Total(q, x) {
      ActKeepsTotal(p, w, act, signalled, now, x);
    }
    ConservedByCount(q);
  }

  ghost predicate LinesSound(s: State) {
    Conserved(s.op) && Bounded(s.op) && Conserved(s.an) && Bounded(s.an)
  }

  lemma StepConserves(s: State, step: Step)
    requires LinesSound(s) && Enabled(s, step)
    ensures LinesSound(Apply(s, step))
  {
    match step
    case EnqueueOp(i) => EnqueueConserves(s.op, ItemOf(s.checked[i], s.clock));
    case EnqueueAn(i) => EnqueueConserves(s.an, ItemOf(s.half[i], s.clock));
    case Work(onOp, w, act) =>
      ActConserves(if onOp then s.op else s.an, w, act, Signalled(s), s.clock);
      ActStaysBounded(if onOp then s.op else s.an, w, act, Signalled(s), s.clock);
    case _ =>
  }

  lemma {:induction false} RunConserves(s: State, run: seq<Step>)
    requires LinesSound(s) && ValidRun(s, run)
    ensures LinesSound(After(s, run))
    decreases |run|
  {
    if run != [] {
      StepConserves(s, run[0]);
      RunConserves(Apply(s, run[0]), run[1..]);
    }
  }

  lemma InitSound(opWorkers: int, anWorkers: int, hasCallback: bool, opTable: Table, anTable: Table)
    ensures LinesSound(Init(opWorkers, anWorkers, hasCallback, opTable, anTable))
  {
    var s := Init(opWorkers, anWorkers, hasCallback, opTable, anTable);
    EmptyBatches(s.op.workers);
    EmptyBatches(s.an.workers);
  }

  /** Accepted and neither written nor given up. */
  function Unwritten(p: Line): multiset<Item> {
    multiset(p.channel) + InBatches(p.workers)
  }

  /** In every reachable state of every interleaving, each pipeline accounts for every attempt exactly
      once, and accepted but unwritten events stay below one buffer plus one batch per worker. */
  lemma EveryAttemptAccountedFor(
    opWorkers: int, anWorkers: int, hasCallback: bool, opTable: Table, anTable: Table, run: seq<Step>)
    requires ValidRun(Init(opWorkers, anWorkers, hasCallback, opTable, anTable), run)
    ensures var s := After(Init(opWorkers, anWorkers, hasCallback, opTable, anTable), run);
            s.op.attempted == s.op.dropped + Unwritten(s.op) + s.op.written + s.op.lost &&
            s.an.attempted == s.an.dropped + Unwritten(s.an) + s.an.written + s.an.lost &&
            |Unwritten(s.op)| <= 1000 + 500 * Crew(opWorkers) && |Unwritten(s.an)| <= 1000 + 500 * Crew(anWorkers)
  {
    var s0 := Init(opWorkers, anWorkers, hasCallback, opTable, anTable);
    InitSound(opWorkers, anWorkers, hasCallback, opTable, anTable);
    RunConserves(s0, run);
    CrewStays(s0, run);
    var s := After(s0, run);
    InBatchesSize(s.op.workers);
    InBatchesSize(s.an.workers);
    assert |multiset(s.op.channel)| == |s.op.channel| && |multiset(s.an.channel)| == |s.an.channel|;
  }

  // ---- What the tables hold ----

  /** The row an item is stored as: its own, or, for the nil id, the same under a generated id. */
  predicate StoredAs(drawn: set<Uuid>, i: Item, r: EventRow) {
    r == ToRow(i.model) || (i.model.id == NIL_ID && r.id in drawn && r == ToRow(i.model.(id := r.id)))
  }

  /** The table of a line holds its initial rows, unchanged, plus the keys of the items whose flush was
      reported successful, each with the row of one such item. Where the nil id met the ORM, a generated id
      stands in for it. */
  ghost predicate TableMatches(p: Line, initial: Table) {
    && (forall k :: k in initial ==> k in p.table && p.table[k] == initial[k])
    && (forall i {:trigger KeyOf(p.pipeline, ToRow(i.model))} ::
          i in p.written && (i.model.id != NIL_ID || p.drawn == {}) ==> KeyOf(p.pipeline, ToRow(i.model)) in p.table)
    && (forall k :: k in p.table && k !in initial ==>
          KeyOf(p.pipeline, p.table[k]) == k && exists i :: i in p.written && StoredAs(p.drawn, i, p.table[k]))
    && (forall d :: d in p.drawn ==> exists k :: k in p.table && k.id == d)
  }

  lemma SameTableMatches(p: Line, q: Line, initial: Table)
    requires TableMatches(p, initial) && q.pipeline == p.pipeline && q.table == p.table
    requires q.written == p.written && q.drawn == p.drawn
    ensures TableMatches(q, initial)
  {
  }

  lemma RowsOfItem(items: seq<Item>, r: EventRow)
    requires r in Rows(items)
    ensures exists i :: i in items && ToRow(i.model) == r
  {
    var n :| 0 <= n < |items| && Rows(items)[n] == r;
    assert items[n] in items;
  }

  lemma FlushedRow(p: Line, scan: seq<Item>, via: Via, r: EventRow) returns (i: Item)
    requires ViaFor(via, |scan|) && r in StoredRows(Models(scan), via) && Drawn(scan, via) <= p.drawn
    ensures i in multiset(scan) && StoredAs(p.drawn, i, r)
  {
    var n :| 0 <= n < |scan| && StoredRows(Models(scan), via)[n] == r;
    i := scan[n];
    assert i in scan;
  }

  /** A flushed item has its key, unless it has the nil id and a generated one was stored. */
  lemma FlushedKey(p: Line, table: Table, scan: seq<Item>, via: Via, i: Item)
    requires ViaFor(via, |scan|) && i in scan && (i.model.id != NIL_ID || Drawn(scan, via) == {})
    ensures KeyOf(p.pipeline, ToRow(i.model)) in InsertAll(p.pipeline, table, StoredRows(Models(scan), via))
  {
    var rows := StoredRows(Models(scan), via);
    InsertAllKeys(p.pipeline, table, rows);
    var n :| 0 <= n < |scan| && scan[n] == i;
    assert rows[n] in rows;
    assert via.Created? ==> via.ids[n] in Drawn(scan, via) || i.model.id != NIL_ID;
  }

  lemma DrawnKey(p: Line, table: Table, scan: seq<Item>, via: Via, d: Uuid)
    requires ViaFor(via, |scan|) && d in Drawn(scan, via)
    ensures exists k :: k in InsertAll(p.pipeline, table, StoredRows(Models(scan), via)) && k.id == d
  {
    var rows := StoredRows(Models(scan), via);
    InsertAllKeys(p.pipeline, table, rows);
    var n :| 0 <= n < |scan| && scan[n].model.id == NIL_ID && via.ids[n] == d;
    assert rows[n] in rows;
    assert KeyOf(p.pipeline, rows[n]) in KeySet(p.pipeline, rows);
  }

  lemma FlushMatches(p: Line, w: nat, ok: bool, scan: seq<Item>, via: Via, mode: Mode, initial: Table)
    requires TableMatches(p, initial) && w < |p.workers| && multiset(scan) == multiset(p.workers[w].batch)
    requires ViaFor(via, |scan|)
    ensures TableMatches(FlushBatch(p, w, ok, scan, via, mode), initial)
  {
    if ok {
      WriteMatches(p, FlushBatch(p, w, ok, scan, via, mode), scan, via, initial);
    } else {
      SameTableMatches(p, FlushBatch(p, w, ok, scan, via, mode), initial);
    }
  }

  lemma WriteMatches(p: Line, q: Line, scan: seq<Item>, via: Via, initial: Table)
    requires TableMatches(p, initial) && ViaFor(via, |scan|) && q.pipeline == p.pipeline
    requires q.table == InsertAll(p.pipeline, p.table, StoredRows(Models(scan), via))
    requires q.written == p.written + multiset(scan) && q.drawn == p.drawn + Drawn(scan, via)
    ensures TableMatches(q, initial)
  {
    var rows := StoredRows(Models(scan), via);
    InsertAllFirstWins(p.pipeline, p.table, rows);
    forall i | i in q.written && (i.model.id != NIL_ID || q.drawn == {})
      ensures KeyOf(p.pipeline, ToRow(i.model)) in q.table
    {
      if i !in p.written {
        assert i in multiset(scan);
        FlushedKey(p, p.table, scan, via, i);
      }
    }
    forall k | k in q.table && k !in initial
      ensures KeyOf(p.pipeline, q.table[k]) == k && exists i :: i in q.written && StoredAs(q.drawn, i, q.table[k])
    {
      if k in p.table {
        var i :| i in p.written && StoredAs(p.drawn, i, p.table[k]);
        assert i in q.written && StoredAs(q.drawn, i, q.table[k]);
      } else {
        InsertAllSources(p.pipeline, p.table, rows, k);
        var i := FlushedRow(q, scan, via, q.table[k]);
        assert i in q.written;
      }
    }
    forall d | d in q.drawn ensures exists k :: k in q.table && k.id == d {
      if d in p.drawn {
        var k :| k in p.table && k.id == d;
        assert k in q.table;
      } else {
        DrawnKey(p, p.table, scan, via, d);
      }
    }
  }

  lemma ActMatches(p: Line, w: nat, act: Action, signalled: bool, now: nat, initial: Table)
    requires CanAct(p, w, act, signalled) && TableMatches(p, initial)
    ensures TableMatches(Act(p, w, act, signalled, now), initial)
  {
    match act
    case Flush(ok, scan, via) => FlushMatches(p, w, ok, scan, via, p.workers[w].mode, initial);
    case Finish(ok, scan, via) => FlushMatches(p, w, ok, scan, via, Exited, initial);
    case _ => SameTableMatches(p, Act(p, w, act, signalled, now), initial);
  }

  lemma OperationalMatches(s: State, step: Step, initial: Table)
    requires Enabled(s, step) && TableMatches(s.op, initial)
    ensures TableMatches(Apply(s, step).op, initial)
  {
    if step.Work? && step.onOp {
      ActMatches(s.op, step.w, step.act, Signalled(s), s.clock, initial);
    } else {
      SameTableMatches(s.op, Apply(s, step).op, initial);
    }
  }

  lemma AnalyticalMatches(s: State, step: Step, initial: Table)
    requires Enabled(s, step) && TableMatches(s.an, initial)
    ensures TableMatches(Apply(s, step).an, initial)
  {
    if step.Work? && !step.onOp {
      ActMatches(s.an, step.w, step.act, Signalled(s), s.clock, initial);
    } else {
      SameTableMatches(s.an, Apply(s, step).an, initial);
    }
  }

  lemma StepMatches(s: State, step: Step, op0: Table, an0: Table)
    requires Enabled(s, step) && TableMatches(s.op, op0) && TableMatches(s.an, an0)
    ensures TableMatches(Apply(s, step).op, op0) && TableMatches(Apply(s, step).an, an0)
  {
    OperationalMatches(s, step, op0);
    AnalyticalMatches(s, step, an0);
  }

  lemma {:induction false} RunMatches(s: State, run: seq<Step>, op0: Table, an0: Table)
    requires ValidRun(s, run) && TableMatches(s.op, op0) && TableMatches(s.an, an0)
    ensures TableMatches(After(s, run).op, op0) && TableMatches(After(s, run).an, an0)
    decreases |run|
  {
    if run != [] {
      StepMatches(s, run[0], op0, an0);
      RunMatches(Apply(s, run[0]), run[1..], op0, an0);
    }
  }

  lemma {:induction false} PipelinesStay(s: State, run: seq<Step>)
    requires ValidRun(s, run)
    ensures After(s, run).op.pipeline == s.op.pipeline && After(s, run).an.pipeline == s.an.pipeline
    decreases |run|
  {
    if run != [] {
      PipelinesStay(Apply(s, run[0]), run[1..]);
    }
  }

  ghost predicate Keeps(before: Table, after: Table) {
    forall k :: k in before ==> k in after && after[k] == before[k]
  }

  /** Once in the tables, a row stays and never changes. */
  lemma RowsStay(s: State, run: seq<Step>, op0: Table, an0: Table)
    requires ValidRun(s, run) && TableMatches(s.op, op0) && TableMatches(s.an, an0)
    ensures Keeps(s.op.table, After(s, run).op.table) && Keeps(s.an.table, After(s, run).an.table)
  {
    RunMatches(s, run, s.op.table, s.an.table);
  }

  lemma StepKeepsRows(s: State, step: Step, op0: Table, an0: Table)
    requires Enabled(s, step) && TableMatches(s.op, op0) && TableMatches(s.an, an0)
    ensures Keeps(s.op.table, Apply(s, step).op.table) && Keeps(s.an.table, Apply(s, step).an.table)
  {
    OneStep(s, step);
    RowsStay(s, [step], op0, an0);
  }

  lemma OneStep(s: State, step: Step)
    requires Enabled(s, step)
    ensures ValidRun(s, [step]) && After(s, [step]) == Apply(s, step)
  {
    Prepend(s, step, []);
    assert [step] + [] == [step];
  }

  lemma ActAttemptsNothing(p: Line, w: nat, act: Action, signalled: bool, now: nat)
    requires CanAct(p, w, act, signalled)
    ensures Act(p, w, act, signalled, now).attempted == p.attempted
  {
  }

  lemma AttemptsGrow(s: State, step: Step)
    requires Enabled(s, step)
    ensures s.op.attempted <= Apply(s, step).op.attempted && s.an.attempted <= Apply(s, step).an.attempted
  {
    match step
    case Work(onOp, w, act) => ActAttemptsNothing(if onOp then s.op else s.an, w, act, Signalled(s), s.clock);
    case _ =>
  }

  /** Generated ids meet no other id of the line. */
  ghost predicate DrawnApart(p: Line, initial: Table) {
    forall d :: d in p.drawn ==>
      (forall k :: k in initial ==> k.id != d) && (forall i :: i in p.written ==> i.model.id != d)
  }

  /** The keys that inserting items one by one would give, whatever their order. */
  lemma SinglesKeys(p: Line, initial: Table, singles: seq<Item>, k: Key)
    requires multiset(singles) == p.written
    ensures k in InsertAll(p.pipeline, initial, Rows(singles)) <==>
            k in initial || exists i :: i in p.written && KeyOf(p.pipeline, ToRow(i.model)) == k
  {
    var rows := Rows(singles);
    InsertAllKeys(p.pipeline, initial, rows);
    if k in KeySet(p.pipeline, rows) {
      var r :| r in rows && KeyOf(p.pipeline, r) == k;
      RowsOfItem(singles, r);
      var i :| i in singles && ToRow(i.model) == r;
      assert i in multiset(singles);
    }
    if i :| i in p.written && KeyOf(p.pipeline, ToRow(i.model)) == k {
      assert i in multiset(singles);
      var n :| 0 <= n < |singles| && singles[n] == i;
      assert rows[n] in rows;
    }
  }

  lemma NothingDrawnKey(p: Line, initial: Table, k: Key)
    requires TableMatches(p, initial) && p.drawn == {}
    ensures k in p.table <==> k in initial || exists i :: i in p.written && KeyOf(p.pipeline, ToRow(i.model)) == k
  {
    if k in p.table && k !in initial {
      var i :| i in p.written && StoredAs(p.drawn, i, p.table[k]);
      assert KeyOf(p.pipeline, ToRow(i.model)) == k;
    }
    if i :| i in p.written && KeyOf(p.pipeline, ToRow(i.model)) == k {
      assert k in p.table;
    }
  }

  lemma DrawnApartFromSingles(p: Line, initial: Table, singles: seq<Item>, k: Key)
    requires multiset(singles) == p.written && DrawnApart(p, initial) && k.id in p.drawn
    ensures k !in InsertAll(p.pipeline, initial, Rows(singles))
  {
    SinglesKeys(p, initial, singles, k);
  }

  lemma DrawnDiffers(p: Line, initial: Table, singles: seq<Item>)
    requires TableMatches(p, initial) && multiset(singles) == p.written && p.drawn != {} && DrawnApart(p, initial)
    ensures !RefinesSingles(p, initial, singles)
  {
    var d :| d in p.drawn;
    var k :| k in p.table && k.id == d;
    DrawnApartFromSingles(p, initial, singles, k);
    assert k in p.table.Keys;
  }

  /** For any interleaving of any number of workers, the keys of a line's table are those that inserting
      its successfully flushed items one by one, in any order, would have produced, as long as no id was
      generated; and when generated ids meet no other id, only then. */
  lemma InterleavedBatchesRefineSingles(p: Line, initial: Table, singles: seq<Item>)
    requires TableMatches(p, initial) && multiset(singles) == p.written
    ensures p.drawn == {} ==> RefinesSingles(p, initial, singles)
    ensures DrawnApart(p, initial) ==> (RefinesSingles(p, initial, singles) <==> p.drawn == {})
  {
    if p.drawn == {} {
      forall k ensures k in p.table.Keys <==> k in InsertAll(p.pipeline, initial, Rows(singles)).Keys {
        SinglesKeys(p, initial, singles, k);
        NothingDrawnKey(p, initial, k);
      }
    } else if DrawnApart(p, initial) {
      DrawnDiffers(p, initial, singles);
    }
  }

  ghost predicate RefinesSingles(p: Line, initial: Table, singles: seq<Item>) {
    p.table.Keys == InsertAll(p.pipeline, initial, Rows(singles)).Keys
  }

  /** In every run the two tables end with the keys of their successful items inserted one at a time, as long
      as the ORM met no nil id; and when generated ids meet no other id, only then. */
  lemma RunRefinesSingles(
    opWorkers: int, anWorkers: int, hasCallback: bool, opTable: Table, anTable: Table, run: seq<Step>,
    opSingles: seq<Item>, anSingles: seq<Item>)
    requires ValidRun(Init(opWorkers, anWorkers, hasCallback, opTable, anTable), run)
    requires var s := After(Init(opWorkers, anWorkers, hasCallback, opTable, anTable), run);
             multiset(opSingles) == s.op.written && multiset(anSingles) == s.an.written
    ensures var s := After(Init(opWorkers, anWorkers, hasCallback, opTable, anTable), run);
            (s.op.drawn == {} ==> RefinesSingles(s.op, opTable, opSingles)) &&
            (s.an.drawn == {} ==> RefinesSingles(s.an, anTable, anSingles)) &&
            (DrawnApart(s.op, opTable) ==> (RefinesSingles(s.op, opTable, opSingles) <==> s.op.drawn == {})) &&
            (DrawnApart(s.an, anTable) ==> (RefinesSingles(s.an, anTable, anSingles) <==> s.an.drawn == {}))
  {
    var s0 := Init(opWorkers, anWorkers, hasCallback, opTable, anTable);
    RunMatches(s0, run, opTable, anTable);
    InterleavedBatchesRefineSingles(After(s0, run).op, opTable, opSingles);
    InterleavedBatchesRefineSingles(After(s0, run).an, anTable, anSingles);
  }

  // ---- The stop and drain race ----

  /** Times of a line's items against the drain. */
  ghost predicate ChannelTimes(s: State, p: Line) {
    && (forall i :: i in p.channel ==> i.checkedAt < i.attemptedAt < s.clock)
    && (p.lastEmptyAt.Some? ==>
          p.lastEmptyAt.value < s.clock && forall i :: i in p.channel ==> i.attemptedAt > p.lastEmptyAt.value)
    && (forall w :: 0 <= w < |p.workers| ==>
          (p.workers[w].mode != Running ==> Signalled(s)) &&
          (p.workers[w].mode == Finishing || p.workers[w].mode == Exited ==> p.lastEmptyAt.Some?))
  }

  ghost predicate StopTimes(s: State, p: Line) {
    && (s.stop != NotStopped ==> forall i :: i in p.channel ==> i.checkedAt < s.stoppedAt)
    && (s.stop != NotStopped && s.quiet ==> forall i :: i in p.channel ==> i.attemptedAt < s.stoppedAt)
    && (p.lastEmptyAt.Some? ==> s.stop != NotStopped && s.stoppedAt < p.lastEmptyAt.value)
  }

  ghost predicate CallTimes(s: State, calls: seq<Call>) {
    && (forall c :: c in calls ==> c.checkedAt < s.clock)
    && (s.stop != NotStopped ==> forall c :: c in calls ==> c.checkedAt < s.stoppedAt)
    && (s.stop != NotStopped && s.quiet ==> calls == [])
  }

  ghost predicate Timed(s: State) {
    && (s.stop != NotStopped ==> s.stoppedAt < s.clock)
    && ChannelTimes(s, s.op) && ChannelTimes(s, s.an)
    && StopTimes(s, s.op) && StopTimes(s, s.an)
    && CallTimes(s, s.checked) && CallTimes(s, s.half)
    && (s.stop == Returned ==> AllExited(s.op) && AllExited(s.an))
    && |s.op.workers| > 0 && |s.an.workers| > 0
  }

  lemma EnqueueTimed(s: State, p: Line, c: Call)
    requires ChannelTimes(s, p) && StopTimes(s, p)
    requires c.checkedAt < s.clock && (s.stop != NotStopped ==> !s.quiet && c.checkedAt < s.stoppedAt)
    ensures var t, q := s.(clock := s.clock + 1), Enqueue(p, ItemOf(c, s.clock));
            ChannelTimes(t, q) && StopTimes(t, q)
  {
  }

  lemma ActTimed(s: State, p: Line, w: nat, act: Action)
    requires ChannelTimes(s, p) && StopTimes(s, p) && CanAct(p, w, act, Signalled(s))
    requires s.stop != NotStopped ==> s.stoppedAt < s.clock
    ensures var t, q := s.(clock := s.clock + 1), Act(p, w, act, Signalled(s), s.clock);
            ChannelTimes(t, q) && StopTimes(t, q)
  {
    var q := Act(p, w, act, Signalled(s), s.clock);
    assert q.workers == p.workers[w := q.workers[w]];
    assert q.channel == p.channel || q.channel == p.channel[1..];
    assert forall i :: i in q.channel ==> i in p.channel;
  }

  lemma LineTimesOnlyOfClock(s: State, t: State, p: Line)
    requires ChannelTimes(s, p) && StopTimes(s, p)
    requires t.clock == s.clock + 1 && t.stop == s.stop && t.stoppedAt == s.stoppedAt && t.quiet == s.quiet
    ensures ChannelTimes(t, p) && StopTimes(t, p)
  {
  }

  lemma LineTimesSame(s: State, t: State, p: Line)
    requires ChannelTimes(s, p) && StopTimes(s, p)
    requires t.clock == s.clock && t.stop == s.stop && t.stoppedAt == s.stoppedAt && t.quiet == s.quiet
    ensures ChannelTimes(t, p) && StopTimes(t, p)
  {
  }

  /** Raising the flag, sending the signal and returning leave the lines alone. */
  lemma StopStepTimed(s: State, step: Step, p: Line)
    requires ChannelTimes(s, p) && StopTimes(s, p) && Enabled(s, step)
    requires step.RaiseFlag? || step.CloseSignal? || step.StopReturns? || step.BeginCall? || step.RejectCall?
    ensures ChannelTimes(Apply(s, step), p) && StopTimes(Apply(s, step), p)
  {
  }

  /** Calls that were there before, or that started while the writer was not stopping. */
  lemma CallTimesKept(s: State, t: State, calls: seq<Call>, others: seq<Call>, left: seq<Call>)
    requires CallTimes(s, calls) && CallTimes(s, others)
    requires t.clock == s.clock + 1 && t.stop == s.stop && t.stoppedAt == s.stoppedAt && t.quiet == s.quiet
    requires forall c :: c in left ==> c in calls || c in others
    ensures CallTimes(t, left)
  {
    assert left == [] || left[0] in left;
  }

  lemma CallsTimed(s: State, step: Step)
    requires CallTimes(s, s.checked) && CallTimes(s, s.half) && Enabled(s, step)
    requires s.stop != NotStopped ==> s.stoppedAt < s.clock
    requires !step.RaiseFlag? && !step.CloseSignal? && !step.StopReturns? && !step.BeginCall?
    ensures CallTimes(Apply(s, step), Apply(s, step).checked) && CallTimes(Apply(s, step), Apply(s, step).half)
  {
    var t := Apply(s, step);
    assert step.EnqueueOp? ==> s.checked[step.i] in s.checked;
    CallTimesKept(s, t, s.checked, s.half, t.checked);
    CallTimesKept(s, t, s.checked, s.half, t.half);
  }

  lemma StopCallsTimed(s: State, step: Step)
    requires CallTimes(s, s.checked) && CallTimes(s, s.half) && Enabled(s, step)
    requires s.stop != NotStopped ==> s.stoppedAt < s.clock
    requires step.RaiseFlag? || step.CloseSignal? || step.StopReturns? || step.BeginCall?
    ensures CallTimes(Apply(s, step), Apply(s, step).checked) && CallTimes(Apply(s, step), Apply(s, step).half)
  {
  }

  lemma ActKeepsWorkers(p: Line, w: nat, act: Action, signalled: bool, now: nat)
    requires CanAct(p, w, act, signalled)
    ensures |Act(p, w, act, signalled, now).workers| == |p.workers| && !AllExited(p)
  {
    assert p.workers[w].mode != Exited;
  }

  lemma WorkersStay(s: State, step: Step)
    requires Enabled(s, step)
    ensures var t := Apply(s, step);
            |t.op.workers| == |s.op.workers| && |t.an.workers| == |s.an.workers| &&
            ((s.stop == Returned ==> AllExited(s.op) && AllExited(s.an)) ==>
             t.stop == Returned ==> AllExited(t.op) && AllExited(t.an))
  {
    if step.Work? {
      ActKeepsWorkers(if step.onOp then s.op else s.an, step.w, step.act, Signalled(s), s.clock);
    }
  }

  lemma {:induction false} CrewStays(s: State, run: seq<Step>)
    requires ValidRun(s, run)
    ensures |After(s, run).op.workers| == |s.op.workers| && |After(s, run).an.workers| == |s.an.workers|
    decreases |run|
  {
    if run != [] {
      WorkersStay(s, run[0]);
      CrewStays(Apply(s, run[0]), run[1..]);
    }
  }

  lemma LinesTimed(s: State, step: Step)
    requires Timed(s) && Enabled(s, step)
    ensures var t := Apply(s, step);
            ChannelTimes(t, t.op) && ChannelTimes(t, t.an) && StopTimes(t, t.op) && StopTimes(t, t.an)
  {
    var t := Apply(s, step);
    match step
    case EnqueueOp(i) =>
      assert s.checked[i] in s.checked;
      EnqueueTimed(s, s.op, s.checked[i]);
      LineTimesOnlyOfClock(s, t, s.an);
      LineTimesSame(s.(clock := s.clock + 1), t, t.op);
    case EnqueueAn(i) =>
      assert s.half[i] in s.half;
      EnqueueTimed(s, s.an, s.half[i]);
      LineTimesOnlyOfClock(s, t, s.op);
      LineTimesSame(s.(clock := s.clock + 1), t, t.an);
    case Work(onOp, w, act) =>
      ActTimed(s, if onOp then s.op else s.an, w, act);
      LineTimesOnlyOfClock(s, t, if onOp then s.an else s.op);
      LineTimesSame(s.(clock := s.clock + 1), t, if onOp then t.op else t.an);
    case _ =>
      StopStepTimed(s, step, s.op);
      StopStepTimed(s, step, s.an);
  }

  lemma StepTimed(s: State, step: Step)
    requires Timed(s) && Enabled(s, step)
    ensures Timed(Apply(s, step))
  {
    LinesTimed(s, step);
    if step.RaiseFlag? || step.CloseSignal? || step.StopReturns? || step.BeginCall? {
      StopCallsTimed(s, step);
    } else {
      CallsTimed(s, step);
    }
    WorkersStay(s, step);
  }

  lemma {:induction false} RunTimed(s: State, run: seq<Step>)
    requires Timed(s) && ValidRun(s, run)
    ensures Timed(After(s, run))
    decreases |run|
  {
    if run != [] {
      StepTimed(s, run[0]);
      RunTimed(Apply(s, run[0]), run[1..]);
    }
  }

  /** No batch holds anything, and whatever is still in the channel came from a call that had read
      stopping = false before Stop raised the flag and that reached the channel after the last worker of
      the line had seen it empty. With no call in flight when the flag was raised, nothing is left. */
  ghost predicate Drained(s: State, p: Line) {
    && InBatches(p.workers) == multiset{}
    && p.lastEmptyAt.Some? && s.stoppedAt < p.lastEmptyAt.value
    && (forall i :: i in p.channel ==> i.checkedAt < s.stoppedAt && p.lastEmptyAt.value < i.attemptedAt)
    && (s.quiet ==> p.channel == [])
  }

  lemma ExitedLineDrained(s: State, p: Line)
    requires s.stop == Returned && Bounded(p) && ChannelTimes(s, p) && StopTimes(s, p)
    requires AllExited(p) && |p.workers| > 0
    ensures Drained(s, p)
  {
    EmptyBatches(p.workers);
    assert p.workers[0].mode == Exited;
    if p.channel != [] {
      assert p.channel[0] in p.channel;
      assert p.channel[0].attemptedAt > s.stoppedAt;
    }
  }

  /** In every run, Stop returns only with both lines drained. */
  lemma DrainedWhenStopReturns(
    opWorkers: int, anWorkers: int, hasCallback: bool, opTable: Table, anTable: Table, run: seq<Step>)
    requires ValidRun(Init(opWorkers, anWorkers, hasCallback, opTable, anTable), run)
    ensures var s := After(Init(opWorkers, anWorkers, hasCallback, opTable, anTable), run);
            s.stop == Returned ==> Drained(s, s.op) && Drained(s, s.an)
  {
    var s0 := Init(opWorkers, anWorkers, hasCallback, opTable, anTable);
    InitSound(opWorkers, anWorkers, hasCallback, opTable, anTable);
    RunConserves(s0, run);
    RunTimed(s0, run);
    var s := After(s0, run);
    if s.stop == Returned {
      ExitedLineDrained(s, s.op);
      ExitedLineDrained(s, s.an);
    }
  }

  // ---- Stop terminates ----

  function Rank(m: Mode): nat {
    match m case Running => 3 case Draining => 2 case Finishing => 1 case Exited => 0
  }

  function WorkLeft(workers: seq<Worker>): nat {
    if workers == [] then 0 else |workers[0].batch| + Rank(workers[0].mode) + WorkLeft(workers[1..])
  }

  function LineLeft(p: Line): nat { 2 * |p.channel| + WorkLeft(p.workers) }

  /** Queued items, items in batches, worker phases and in-flight calls that a stopping writer still has
      to get through. */
  function Left(s: State): nat {
    LineLeft(s.op) + LineLeft(s.an) + 6 * |s.checked| + 3 * |s.half| +
    (match s.stop case NotStopped => 3 case FlagRaised => 2 case SignalClosed => 1 case Returned => 0)
  }

  lemma {:induction false} WorkLeftUpdate(workers: seq<Worker>, w: nat, worker: Worker)
    requires w < |workers|
    ensures WorkLeft(workers[w := worker]) + |workers[w].batch| + Rank(workers[w].mode) ==
            WorkLeft(workers) + |worker.batch| + Rank(worker.mode)
  {
    var updated := workers[w := worker];
    if w == 0 {
      assert updated[1..] == workers[1..];
    } else {
      WorkLeftUpdate(workers[1..], w - 1, worker);
      assert updated[1..] == workers[1..][w - 1 := worker];
    }
  }

  lemma ActShrinks(p: Line, w: nat, act: Action, signalled: bool, now: nat)
    requires CanAct(p, w, act, signalled)
    ensures LineLeft(Act(p, w, act, signalled, now)) < LineLeft(p)
  {
    var q := Act(p, w, act, signalled, now);
    assert q.workers == p.workers[w := q.workers[w]];
    WorkLeftUpdate(p.workers, w, q.workers[w]);
  }

  /** Once the flag is up, every step but the rejection of a new call uses up some of the work left. */
  lemma StoppingStepShrinks(s: State, step: Step)
    requires s.stop != NotStopped && Enabled(s, step)
    ensures Apply(s, step).stop != NotStopped
    ensures step == RejectCall ==> Left(Apply(s, step)) == Left(s)
    ensures step != RejectCall ==> Left(Apply(s, step)) < Left(s)
  {
    if step.Work? {
      ActShrinks(if step.onOp then s.op else s.an, step.w, step.act, Signalled(s), s.clock);
    }
  }

  function Effective(run: seq<Step>): nat {
    if run == [] then 0 else (if run[0] == RejectCall then 0 else 1) + Effective(run[1..])
  }

  lemma {:induction false} StoppingRunBounded(s: State, run: seq<Step>)
    requires s.stop != NotStopped && ValidRun(s, run)
    ensures After(s, run).stop != NotStopped
    ensures Effective(run) + Left(After(s, run)) <= Left(s)
    decreases |run|
  {
    if run != [] {
      StoppingStepShrinks(s, run[0]);
      StoppingRunBounded(Apply(s, run[0]), run[1..]);
    }
  }

  /** A worker that has not exited can move, once the signal is sent. */
  lemma WorkerCanMove(p: Line, w: nat) returns (act: Action)
    requires Bounded(p) && w < |p.workers| && p.workers[w].mode != Exited
    ensures CanAct(p, w, act, true)
  {
    var worker := p.workers[w];
    match worker.mode
    case Running => act := if |worker.batch| >= BATCH_SIZE then Flush(true, worker.batch, Copied) else SeeStop;
    case Draining =>
      act := if |worker.batch| >= BATCH_SIZE then Flush(true, worker.batch, Copied)
             else if p.channel == [] then SeeEmpty else Take;
    case Finishing => act := Finish(true, worker.batch, Copied);
  }

  /** A stopping writer is never stuck: until Stop has returned, Stop or a worker can take a step. With
      StoppingRunBounded, Stop returns after at most Left(s) such steps. */
  lemma StoppingNeverStuck(s: State) returns (step: Step)
    requires LinesSound(s) && s.stop != NotStopped && s.stop != Returned
    ensures Enabled(s, step) && (step == CloseSignal || step.Work? || step == StopReturns)
  {
    if s.stop == FlagRaised {
      step := CloseSignal;
    } else if !AllExited(s.op) {
      var w :| 0 <= w < |s.op.workers| && s.op.workers[w].mode != Exited;
      var act := WorkerCanMove(s.op, w);
      step := Work(true, w, act);
    } else if !AllExited(s.an) {
      var w :| 0 <= w < |s.an.workers| && s.an.workers[w].mode != Exited;
      var act := WorkerCanMove(s.an, w);
      step := Work(false, w, act);
    } else {
      step := StopReturns;
    }
  }

  // ---- Exactly when events can be left behind ----

  lemma LastStep(s: State, step: Step, last: Step) returns (run: seq<Step>)
    requires Enabled(s, step) && Enabled(Apply(s, step), last)
    ensures ValidRun(s, run) && After(s, run) == Apply(Apply(s, step), last)
  {
    Prepend(Apply(s, step), last, []);
    Prepend(s, step, [last] + []);
    run := [step] + ([last] + []);
  }

  /** Neither Stop nor a worker fills a channel or takes part in a call. */
  lemma StoppingStepFrame(s: State, step: Step)
    requires Enabled(s, step) && (step == CloseSignal || step.Work?)
    ensures var t := Apply(s, step);
            t.checked == s.checked && t.half == s.half && (s.stop != Returned ==> t.stop != Returned) &&
            (s.op.channel == [] ==> t.op.channel == []) && (s.an.channel == [] ==> t.an.channel == [])
  {
  }

  /** A call that has passed the flag can wait with its operational enqueue until the workers are gone. */
  lemma {:induction false} OperationalLeftBehind(s: State) returns (run: seq<Step>)
    requires LinesSound(s) && s.stop != NotStopped && s.stop != Returned && s.checked != []
    ensures ValidRun(s, run)
    ensures var t := After(s, run);
            t.stop == Returned && t.op.channel != [] &&
            (s.op.channel == [] ==> |t.op.channel| == 1 && t.op.channel[0].model == s.checked[0].model)
    decreases Left(s)
  {
    var step := StoppingNeverStuck(s);
    if step == StopReturns {
      run := LastStep(s, EnqueueOp(0), StopReturns);
    } else {
      StepConserves(s, step);
      StoppingStepShrinks(s, step);
      StoppingStepFrame(s, step);
      var rest := OperationalLeftBehind(Apply(s, step));
      Prepend(s, step, rest);
      run := [step] + rest;
    }
  }

  /** A call between its two enqueues can do the same with the analytical one. */
  lemma {:induction false} AnalyticalLeftBehind(s: State) returns (run: seq<Step>)
    requires LinesSound(s) && s.stop != NotStopped && s.stop != Returned && s.half != []
    ensures ValidRun(s, run)
    ensures var t := After(s, run);
            t.stop == Returned && t.an.channel != [] &&
            (s.an.channel == [] ==> |t.an.channel| == 1 && t.an.channel[0].model == s.half[0].model)
    decreases Left(s)
  {
    var step := StoppingNeverStuck(s);
    if step == StopReturns {
      run := LastStep(s, EnqueueAn(0), StopReturns);
    } else {
      StepConserves(s, step);
      StoppingStepShrinks(s, step);
      StoppingStepFrame(s, step);
      var rest := AnalyticalLeftBehind(Apply(s, step));
      Prepend(s, step, rest);
      run := [step] + rest;
    }
  }

  /** The smallest case, with any number of workers: one call reads the flag, Stop raises it and runs to
      its end, and the event of the call is still in the operational channel when Stop returns. */
  lemma EventLeftBehind(opWorkers: int, anWorkers: int, hasCallback: bool, m: EventModel)
    ensures exists run ::
              ValidRun(Init(opWorkers, anWorkers, hasCallback, map[], map[]), run) &&
              var s := After(Init(opWorkers, anWorkers, hasCallback, map[], map[]), run);
              s.stop == Returned && |s.op.channel| == 1 && s.op.channel[0].model == m
  {
    var s0 := Init(opWorkers, anWorkers, hasCallback, map[], map[]);
    InitSound(opWorkers, anWorkers, hasCallback, map[], map[]);
    var s1 := Apply(s0, BeginCall(m, false));
    StepConserves(s0, BeginCall(m, false));
    var s2 := Apply(s1, RaiseFlag);
    StepConserves(s1, RaiseFlag);
    assert s2.checked == [Call(m, false, 0)] && s2.op.channel == [];
    var rest := OperationalLeftBehind(s2);
    Prepend(s1, RaiseFlag, rest);
    Prepend(s0, BeginCall(m, false), [RaiseFlag] + rest);
  }

  lemma {:induction false} QuietStays(s: State, run: seq<Step>)
    requires s.stop != NotStopped && ValidRun(s, run)
    ensures After(s, run).quiet == s.quiet
    decreases |run|
  {
    if run != [] {
      assert Apply(s, run[0]).quiet == s.quiet && Apply(s, run[0]).stop != NotStopped;
      QuietStays(Apply(s, run[0]), run[1..]);
    }
  }

  /** Nothing is left in either channel, however the shutdown goes on from here. */
  ghost predicate AlwaysEmptied(s: State) {
    forall rest :: ValidRun(s, rest) && After(s, rest).stop == Returned ==>
      After(s, rest).op.channel == [] && After(s, rest).an.channel == []
  }

  lemma QuietIsEmptied(s: State, rest: seq<Step>)
    requires LinesSound(s) && Timed(s) && s.stop != NotStopped && s.quiet
    requires ValidRun(s, rest) && After(s, rest).stop == Returned
    ensures After(s, rest).op.channel == [] && After(s, rest).an.channel == []
  {
    var t := After(s, rest);
    RunConserves(s, rest);
    RunTimed(s, rest);
    QuietStays(s, rest);
    ExitedLineDrained(t, t.op);
    ExitedLineDrained(t, t.an);
  }

  lemma RaisedSound(s: State, run: seq<Step>)
    requires LinesSound(s) && Timed(s) && ValidRun(s, run) && After(s, run).stop == NotStopped
    ensures LinesSound(Apply(After(s, run), RaiseFlag)) && Timed(Apply(After(s, run), RaiseFlag))
  {
    RunConserves(s, run);
    RunTimed(s, run);
    StepConserves(After(s, run), RaiseFlag);
    StepTimed(After(s, run), RaiseFlag);
  }

  /** From the moment Stop raises the flag, every way on that reaches its return empties both channels if
      and only if no call is in flight at that moment. */
  lemma EmptiedIffNoCallInFlight(
    opWorkers: int, anWorkers: int, hasCallback: bool, opTable: Table, anTable: Table, run: seq<Step>)
    requires ValidRun(Init(opWorkers, anWorkers, hasCallback, opTable, anTable), run)
    requires After(Init(opWorkers, anWorkers, hasCallback, opTable, anTable), run).stop == NotStopped
    ensures var s := After(Init(opWorkers, anWorkers, hasCallback, opTable, anTable), run);
            AlwaysEmptied(Apply(s, RaiseFlag)) <==> s.checked == [] && s.half == []
  {
    var s0 := Init(opWorkers, anWorkers, hasCallback, opTable, anTable);
    var s := After(s0, run);
    var t := Apply(s, RaiseFlag);
    InitSound(opWorkers, anWorkers, hasCallback, opTable, anTable);
    RaisedSound(s0, run);
    if s.checked != [] {
      var rest := OperationalLeftBehind(t);
      assert !AlwaysEmptied(t);
    } else if s.half != [] {
      var rest := AnalyticalLeftBehind(t);
      assert !AlwaysEmptied(t);
    } else {
      forall rest | ValidRun(t, rest) && After(t, rest).stop == Returned
        ensures After(t, rest).op.channel == [] && After(t, rest).an.channel == []
      {
        QuietIsEmptied(t, rest);
      }
    }
  }

  // ---- Spillover ----

  function AnyRaw(run: seq<Step>): bool {
    run != [] && ((run[0].BeginCall? && run[0].hasRaw) || AnyRaw(run[1..]))
  }

  /** The ingestion service enqueues without raw data, so a full channel drops its events: nothing
      reaches the spillover callback, whatever callback is configured. */
  lemma {:induction false} NoRawNoSpillover(s: State, run: seq<Step>)
    requires ValidRun(s, run) && !AnyRaw(run) && forall c :: c in s.checked ==> !c.hasRaw
    ensures After(s, run).spilled == s.spilled
    decreases |run|
  {
    if run != [] {
      var t := Apply(s, run[0]);
      if run[0].EnqueueOp? {
        assert s.checked[run[0].i] in s.checked;
        assert forall c :: c in Without(s.checked, run[0].i) ==> c in s.checked;
      }
      NoRawNoSpillover(t, run[1..]);
    }
  }
}
