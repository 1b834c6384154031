/** The objects behind one line of the writer: the bounded channel and a worker with its loop, proved to
    make only the moves that DualEventWriter interleaves
    (internal/infrastructure/adapters/repositories/dual_event_writer.go). */
module BatchWorker {
  import opened Events
  import opened EventStore
  import opened DualEventWriter

  class Channel {
    var buffer: seq<EventModel>

    constructor ()
      ensures buffer == []
    {
      buffer := [];
    }

    /** select with a default branch: never blocks, refuses when the buffer is full. */
    method TrySend(m: EventModel) returns (sent: bool)
      requires |buffer| <= PIPELINE_BUFFER_SIZE
      modifies this
      ensures |buffer| <= PIPELINE_BUFFER_SIZE
      ensures sent <==> |old(buffer)| < PIPELINE_BUFFER_SIZE
      ensures buffer == if sent then old(buffer) + [m] else old(buffer)
    {
      if |buffer| < PIPELINE_BUFFER_SIZE {
        buffer := buffer + [m];
        return true;
      }
      return false;
    }
  }

  // ---- Moves of one worker ----

  /** What a worker has and sees: where it stands, its batch, the channel and the table. */
  datatype View = View(mode: Mode, batch: seq<EventModel>, queue: seq<EventModel>, table: Table)

  /** The protocol's actions on a view; a batch is read back in the order it was staged. */
  datatype Move = TakeFirst | FlushAll(ok: bool, via: Via) | HeedStop | FindEmpty | Leave(ok: bool, via: Via)

  predicate CanMove(v: View, m: Move) {
    match m
    case TakeFirst => (v.mode == Running || v.mode == Draining) && |v.batch| < BATCH_SIZE && v.queue != []
    case FlushAll(_, via) =>
      ViaFor(via, |v.batch|) &&
      ((v.mode == Draining && |v.batch| >= BATCH_SIZE) || (v.mode == Running && v.batch != []))
    case HeedStop => v.mode == Running && |v.batch| < BATCH_SIZE
    case FindEmpty => v.mode == Draining && |v.batch| < BATCH_SIZE && v.queue == []
    case Leave(_, via) => ViaFor(via, |v.batch|) && v.mode == Finishing
  }

  function Moved(p: Pipeline, v: View, m: Move): View
    requires CanMove(v, m)
  {
    match m
    case TakeFirst => v.(batch := v.batch + [v.queue[0]], queue := v.queue[1..])
    case FlushAll(ok, via) => v.(batch := [], table := Written(p, v, ok, via))
    case HeedStop => v.(mode := Draining)
    case FindEmpty => v.(mode := Finishing)
    case Leave(ok, via) => v.(mode := Exited, batch := [], table := Written(p, v, ok, via))
  }

  function Written(p: Pipeline, v: View, ok: bool, via: Via): Table
    requires ViaFor(via, |v.batch|)
  {
    if ok then InsertAll(p, v.table, StoredRows(v.batch, via)) else v.table
  }

  function ViewOf(p: Line, w: nat): View
    requires w < |p.workers|
  {
    View(p.workers[w].mode, Models(p.workers[w].batch), Models(p.channel), p.table)
  }

  function ActionOf(p: Line, w: nat, m: Move): Action
    requires w < |p.workers|
  {
    match m
    case TakeFirst => Take
    case FlushAll(ok, via) => Flush(ok, p.workers[w].batch, via)
    case HeedStop => SeeStop
    case FindEmpty => SeeEmpty
    case Leave(ok, via) => Finish(ok, p.workers[w].batch, via)
  }

  /** On every line that looks so to the worker, a move is an action the protocol allows, with the same
      outcome. */
  lemma MovesAreActions(p: Line, w: nat, m: Move, signalled: bool, now: nat)
    requires w < |p.workers| && CanMove(ViewOf(p, w), m) && (m == HeedStop ==> signalled)
    ensures CanAct(p, w, ActionOf(p, w, m), signalled)
    ensures ViewOf(Act(p, w, ActionOf(p, w, m), signalled, now), w) == Moved(p.pipeline, ViewOf(p, w), m)
  {
    var batch := p.workers[w].batch;
    if m == TakeFirst {
      assert Models(batch + [p.channel[0]]) == Models(batch) + [p.channel[0].model];
      assert Models(p.channel[1..]) == Models(p.channel)[1..];
    }
  }

  /** A move and the view it was made on. */
  datatype Seen = Seen(view: View, move: Move)

  /** The moves lead from one place and batch to another. In between, others may do anything to the
      channel and the table. */
  predicate Follows(
    p: Pipeline, mode: Mode, batch: seq<EventModel>, trace: seq<Seen>, mode': Mode, batch': seq<EventModel>)
    decreases |trace|
  {
    if trace == [] then mode == mode' && batch == batch'
    else
      var v := trace[0].view;
      v.mode == mode && v.batch == batch && CanMove(v, trace[0].move) &&
      var next := Moved(p, v, trace[0].move);
      Follows(p, next.mode, next.batch, trace[1..], mode', batch')
  }

  lemma {:induction false} ExtendTrace(
    p: Pipeline, mode: Mode, batch: seq<EventModel>, trace: seq<Seen>, v: View, m: Move)
    requires Follows(p, mode, batch, trace, v.mode, v.batch) && CanMove(v, m)
    ensures Follows(p, mode, batch, trace + [Seen(v, m)], Moved(p, v, m).mode, Moved(p, v, m).batch)
    decreases |trace|
  {
    var longer := trace + [Seen(v, m)];
    if trace == [] {
      assert longer[1..] == [];
    } else {
      var next := Moved(p, trace[0].view, trace[0].move);
      ExtendTrace(p, next.mode, next.batch, trace[1..], v, m);
      assert longer[1..] == trace[1..] + [Seen(v, m)];
    }
  }

  /** Models received along a trace. */
  function Received(trace: seq<Seen>): nat {
    if trace == [] then 0 else (if trace[0].move == TakeFirst then 1 else 0) + Received(trace[1..])
  }

  lemma {:induction false} ReceivedOneMore(trace: seq<Seen>, seen: Seen)
    ensures Received(trace + [seen]) == Received(trace) + if seen.move == TakeFirst then 1 else 0
  {
    if trace == [] {
      assert [seen][1..] == [];
    } else {
      ReceivedOneMore(trace[1..], seen);
      assert (trace + [seen])[1..] == trace[1..] + [seen];
    }
  }

  /** One event received: the batch is written at once when that fills it. */
  function AfterReceive(p: Pipeline, v: View, db: CopyAnswers): View
    requires CanMove(v, TakeFirst)
  {
    var taken := Moved(p, v, TakeFirst);
    if |taken.batch| >= BATCH_SIZE then taken.(batch := [], table := AfterWrite(p, taken, db)) else taken
  }

  /** The table after a flush with these answers of the database. */
  function AfterWrite(p: Pipeline, v: View, db: CopyAnswers): Table {
    Written(p, v, db.Verdict() == None, db.Route(|v.batch|))
  }

  /** The rows of the models arrive as they are: by COPY, or because no id is nil. */
  predicate Plain(db: CopyAnswers, models: seq<EventModel>) {
    (db.acquired && db.begun) || NoNil(models)
  }

  // ---- The worker ----

  datatype Ready = StopSignal | TickFired | EventArrived

  /** One turn of the select: channel and table as others left them, the case chosen, and the database's
      answers should the batch be written. */
  datatype Turn = Turn(queue: seq<EventModel>, table: Table, ready: Ready, db: CopyAnswers)

  /** A batch written into a table: its rows, if no step of the database failed. */
  function Inserted(p: Pipeline, table: Table, batch: seq<EventModel>, db: CopyAnswers): Table {
    if batch != [] && db.Verdict() == None then InsertAll(p, table, StoredRows(batch, db.Route(|batch|))) else table
  }

  /** The loop returns: the stop signal comes, and in a later turn the channel is empty. */
  predicate Ends(script: seq<Turn>, draining: bool) {
    script != [] &&
    if draining then script[0].queue == [] || Ends(script[1..], true)
    else Ends(script[1..], script[0].ready == StopSignal)
  }

  /** Turns in which the worker takes an event. */
  function Offers(script: seq<Turn>, draining: bool): nat {
    if script == [] then 0
    else if draining then if script[0].queue == [] then 0 else 1 + Offers(script[1..], true)
    else
      (if script[0].ready == EventArrived && script[0].queue != [] then 1 else 0) +
      Offers(script[1..], script[0].ready == StopSignal)
  }

  /** No stop signal comes. */
  predicate Ticking(script: seq<Turn>) {
    forall i :: 0 <= i < |script| ==> script[i].ready != StopSignal
  }

  class Worker {
    const channel: Channel
    const store: Store
    const conn: Connection
    var batch: seq<EventModel>
    var processed: nat   // rows reported written
    var lost: nat        // rows of failed flushes
    ghost var mode: Mode
    ghost var trace: seq<Seen>

    /** Between statements: a clean session, and only moves of the protocol so far. */
    ghost predicate Valid()
      reads this, conn
    {
      conn.Idle() && Follows(store.pipeline, Running, [], trace, mode, batch) &&
      processed + lost + |batch| == Received(trace)
    }

    ghost function Sees(): View
      reads this, channel, store
    {
      View(mode, batch, channel.buffer, store.table)
    }

    constructor (channel: Channel, store: Store, conn: Connection)
      requires conn.Idle()
      ensures this.channel == channel && this.store == store && this.conn == conn
      ensures Valid() && mode == Running && batch == [] && trace == [] && processed == 0 && lost == 0
    {
      this.channel, this.store, this.conn := channel, store, conn;
      batch, processed, lost, mode, trace := [], 0, 0, Running, [];
    }

    /** Write the batch and forget it, written or not. The staged rows are read back in staging order. */
    method Flush(db: CopyAnswers)
      requires conn.Idle()
      modifies this`batch, this`processed, this`lost, store`table, conn
      ensures conn.Idle() && batch == []
      ensures processed + lost == old(processed) + old(lost) + |old(batch)|
      ensures store.table == AfterWrite(store.pipeline, old(Sees()), db)
      ensures old(batch) == [] || db.Verdict() == None ==> lost == old(lost)
      ensures old(batch) != [] && db.Verdict() != None ==> processed == old(processed)
    {
      ghost var via := db.Route(|batch|);
      if |batch| == 0 {
        assert StoredRows(batch, via) == [];
        return;
      }
      assert conn.staged + ToRows(batch) == ToRows(batch);
      if via.Copied? {
        StoredAsGiven(batch, via);
      }
      var err := store.CopyBatch(conn, batch, db, ToRows(batch));
      if err == None {
        processed := processed + |batch|;
      } else {
        lost := lost + |batch|;
      }
      batch := [];
    }

    /** Write the batch down as a move. */
    ghost method Record(v: View, m: Move)
      requires CanMove(v, m) && Follows(store.pipeline, Running, [], trace, v.mode, v.batch)
      modifies this`trace
      ensures trace == old(trace) + [Seen(v, m)]
      ensures var next := Moved(store.pipeline, v, m);
              Follows(store.pipeline, Running, [], trace, next.mode, next.batch)
      ensures Received(trace) == Received(old(trace)) + if m == TakeFirst then 1 else 0
    {
      ExtendTrace(store.pipeline, Running, [], trace, v, m);
      ReceivedOneMore(trace, Seen(v, m));
      trace := trace + [Seen(v, m)];
    }

    /** case <-ticker.C, and the flush of a full batch. */
    method FlushNow(db: CopyAnswers)
      requires Valid() && (batch == [] || CanMove(Sees(), FlushAll(db.Verdict() == None, db.Route(|batch|))))
      modifies this`batch, this`processed, this`lost, this`trace, store`table, conn
      ensures Valid() && batch == [] && Received(trace) == Received(old(trace))
      ensures store.table == AfterWrite(store.pipeline, old(Sees()), db)
      ensures store.table == Inserted(store.pipeline, old(store.table), old(batch), db)
      ensures db.Verdict() == None ==> lost == old(lost)
    {
      assert StoredRows([], db.Route(0)) == [];
      ghost var v := Sees();
      if batch != [] {
        Record(v, FlushAll(db.Verdict() == None, db.Route(|batch|)));
      }
      Flush(db);
    }

    /** case ev := <-channel. */
    method Receive(db: CopyAnswers)
      requires Valid() && CanMove(Sees(), TakeFirst)
      modifies this`batch, this`processed, this`lost, this`trace, store`table, conn, channel
      ensures Valid() && |batch| < BATCH_SIZE
      ensures Sees() == AfterReceive(store.pipeline, old(Sees()), db)
      ensures ReceivedFirst(old(channel.buffer), old(store.table), db)
      ensures db.Verdict() == None ==> lost == old(lost)
      ensures db.Verdict() == None && Plain(db, old(batch) + [old(channel.buffer)[0]]) ==>
                InsertAll(store.pipeline, store.table, ToRows(batch)) ==
                InsertAll(store.pipeline, old(store.table), ToRows(old(batch) + [old(channel.buffer)[0]]))
    {
      Record(Sees(), TakeFirst);
      batch := batch + [channel.buffer[0]];
      channel.buffer := channel.buffer[1..];
      if |batch| >= BATCH_SIZE {
        if Plain(db, batch) {
          StoredAsGiven(batch, db.Route(|batch|));
        }
        FlushNow(db);
      }
    }

    /** The default branch of the drain loop: last flush and return. */
    method Exit(db: CopyAnswers)
      requires Valid() && CanMove(Sees(), FindEmpty)
      modifies this`batch, this`processed, this`lost, this`mode, this`trace, store`table, conn
      ensures Valid() && batch == [] && mode == Exited && Received(trace) == Received(old(trace))
      ensures store.table == AfterWrite(store.pipeline, old(Sees()), db)
      ensures store.table == Inserted(store.pipeline, old(store.table), old(batch), db)
      ensures db.Verdict() == None ==> lost == old(lost)
    {
      assert StoredRows([], db.Route(0)) == [];
      Record(Sees(), FindEmpty);
      mode := Finishing;
      Record(Sees(), Leave(db.Verdict() == None, db.Route(|batch|)));
      mode := Exited;
      Flush(db);
    }

    /** The drain loop with nobody else at the channel. It leaves nothing in the channel or the batch; if
        no flush fails and the ORM meets no nil id, the table gets what inserting the batch and then the
        channel row by row would have given. */
    method Drain(db: nat -> CopyAnswers)
      requires Valid() && mode == Draining && |batch| < BATCH_SIZE
      modifies this`batch, this`processed, this`lost, this`mode, this`trace, store`table, conn, channel
      ensures Valid() && mode == Exited && channel.buffer == [] && batch == []
      ensures (forall n :: db(n).Verdict() == None) ==> lost == old(lost)
      ensures (forall n :: db(n).Verdict() == None && Plain(db(n), old(batch) + old(channel.buffer))) ==>
                store.table ==
                InsertAll(store.pipeline, old(store.table), ToRows(old(batch) + old(channel.buffer)))
    {
      ghost var pending := batch + channel.buffer;
      var n := 0;
      while channel.buffer != []
        invariant Valid() && mode == Draining && |batch| < BATCH_SIZE
        invariant Within(batch + channel.buffer, pending)
        invariant (forall n :: db(n).Verdict() == None) ==> lost == old(lost)
        invariant (forall n :: db(n).Verdict() == None && Plain(db(n), pending)) ==>
                    InsertAll(store.pipeline, store.table, ToRows(batch + channel.buffer)) ==
                    InsertAll(store.pipeline, old(store.table), ToRows(pending))
        decreases |channel.buffer|
      {
        ghost var t0, b0, c0 := store.table, batch, channel.buffer;
        Receive(db(n));
        WithinAfterReceive(b0, c0, batch, pending);
        if db(n).Verdict() == None && Plain(db(n), pending) {
          OneReceived(store.pipeline, t0, b0, c0, store.table, batch);
        }
        n := n + 1;
      }
      assert batch + channel.buffer == batch;
      if Plain(db(n), pending) {
        StoredAsGiven(batch, db(n).Route(|batch|));
      }
      Exit(db(n));
    }

    /** One turn of the select, others having left the channel and the table as the turn says. A tick writes
        the batch. An event is appended, and the batch written when that fills it. The stop signal writes
        nothing. A failed write loses the batch and changes no row. */
    method OneTurn(turn: Turn)
      requires Valid() && mode == Running && |batch| < BATCH_SIZE
      modifies this`batch, this`processed, this`lost, this`mode, this`trace, store`table, conn, channel
      ensures Valid() && |batch| < BATCH_SIZE
      ensures mode == if turn.ready == StopSignal then Draining else Running
      ensures turn.ready == TickFired ==>
                batch == [] && channel.buffer == turn.queue && Received(trace) == Received(old(trace)) &&
                store.table == Inserted(store.pipeline, turn.table, old(batch), turn.db)
      ensures turn.ready == EventArrived && turn.queue == [] ==>
                batch == old(batch) && channel.buffer == [] && store.table == turn.table &&
                Received(trace) == Received(old(trace))
      ensures turn.ready == EventArrived && turn.queue != [] ==> ReceivedFirst(turn.queue, turn.table, turn.db)
      ensures turn.ready == StopSignal ==>
                batch == old(batch) && channel.buffer == turn.queue && store.table == turn.table &&
                Received(trace) == Received(old(trace))
    {
      channel.buffer, store.table := turn.queue, turn.table;
      match turn.ready {
        case StopSignal =>
          Record(Sees(), HeedStop);
          mode := Draining;
        case TickFired => FlushNow(turn.db);
        case EventArrived =>
          if channel.buffer != [] {
            Receive(turn.db);
          }
      }
    }

    /** One turn of the drain loop: the first event, or, with the channel empty, the last batch. */
    method DrainTurn(turn: Turn) returns (done: bool)
      requires Valid() && mode == Draining && |batch| < BATCH_SIZE
      modifies this`batch, this`processed, this`lost, this`mode, this`trace, store`table, conn, channel
      ensures Valid() && |batch| < BATCH_SIZE
      ensures done <==> turn.queue == []
      ensures mode == if done then Exited else Draining
      ensures done ==>
                batch == [] && Received(trace) == Received(old(trace)) &&
                store.table == Inserted(store.pipeline, turn.table, old(batch), turn.db)
      ensures !done ==> ReceivedFirst(turn.queue, turn.table, turn.db)
    {
      channel.buffer, store.table := turn.queue, turn.table;
      done := channel.buffer == [];
      if done {
        Exit(turn.db);
      } else {
        Receive(turn.db);
      }
    }

    /** The first event of the queue joined the batch, and a batch of 500 was written and cleared. */
    twostate predicate ReceivedFirst(queue: seq<EventModel>, table: Table, db: CopyAnswers)
      requires queue != []
      reads this, channel, store
    {
      var longer := old(batch) + [queue[0]];
      && channel.buffer == queue[1..]
      && Received(trace) == Received(old(trace)) + 1
      && batch == (if |longer| >= 500 then [] else longer)
      && store.table == if |longer| >= 500 then Inserted(store.pipeline, table, longer, db) else table
    }

    /** The whole loop, for as many turns as the script has, with others at work between any two turns. Its
        every execution makes only moves of the protocol. It receives one event in each turn that offers one,
        counts each as processed, lost or in the batch, leaves nothing in the batch after a tick, and stops
        exactly when the stop signal has come and then the channel is found empty. */
    method Run(script: seq<Turn>) returns (stopped: bool)
      requires Valid() && mode == Running && |batch| < BATCH_SIZE
      modifies this`batch, this`processed, this`lost, this`mode, this`trace, store`table, conn, channel
      ensures Valid()
      ensures stopped <==> mode == Exited
      ensures stopped <==> Ends(script, false)
      ensures stopped ==> batch == []
      ensures Received(trace) == Received(old(trace)) + Offers(script, false)
      ensures script != [] && Ticking(script) && script[|script| - 1].ready == TickFired ==>
                batch == [] &&
                processed + lost == old(processed) + old(lost) + |old(batch)| + Offers(script, false)
    {
      var i := 0;
      while i < |script|
        invariant i <= |script| && Valid() && mode == Running && |batch| < BATCH_SIZE
        invariant Ends(script, false) <==> Ends(script[i..], false)
        invariant Received(trace) + Offers(script[i..], false) == Received(old(trace)) + Offers(script, false)
        invariant i > 0 && script[i - 1].ready == TickFired ==> batch == []
      {
        var turn := script[i];
        OneTurn(turn);
        assert script[i..][0] == turn && script[i..][1..] == script[i + 1..];
        i := i + 1;
        if turn.ready == StopSignal {
          stopped := DrainAmongOthers(script[i..]);
          return;
        }
      }
      return false;
    }

    /** The drain loop with others still at work. */
    method DrainAmongOthers(script: seq<Turn>) returns (stopped: bool)
      requires Valid() && mode == Draining && |batch| < BATCH_SIZE
      modifies this`batch, this`processed, this`lost, this`mode, this`trace, store`table, conn, channel
      ensures Valid()
      ensures stopped <==> mode == Exited
      ensures stopped <==> Ends(script, true)
      ensures stopped ==> batch == []
      ensures Received(trace) == Received(old(trace)) + Offers(script, true)
    {
      var i := 0;
      while i < |script|
        invariant i <= |script| && Valid() && mode == Draining && |batch| < BATCH_SIZE
        invariant Ends(script, true) <==> Ends(script[i..], true)
        invariant Received(trace) + Offers(script[i..], true) == Received(old(trace)) + Offers(script, true)
      {
        assert script[i..][0] == script[i] && script[i..][1..] == script[i + 1..];
        stopped := DrainTurn(script[i]);
        if stopped {
          return;
        }
        i := i + 1;
      }
      return false;
    }
  }

  // ---- The producer's side ----

  function Offered(queue: seq<EventModel>, m: EventModel): seq<EventModel> {
    if |queue| < PIPELINE_BUFFER_SIZE then queue + [m] else queue
  }

  class Writer {
    const op: Channel
    const an: Channel
    const hasCallback: bool
    var stopping: bool
    var spilled: seq<string>   // raw data handed to the spillover callback

    constructor (op: Channel, an: Channel, hasCallback: bool)
      ensures this.op == op && this.an == an && this.hasCallback == hasCallback
      ensures !stopping && spilled == []
    {
      this.op, this.an, this.hasCallback, stopping, spilled := op, an, hasCallback, false, [];
    }

    /** A call that no other call interrupts. Each channel takes or drops the event on its own; only a
        full operational channel spills, and only with raw data and a callback. */
    method SaveEventAsyncWithRaw(m: EventModel, raw: Option<string>) returns (ok: bool)
      requires op != an && |op.buffer| <= PIPELINE_BUFFER_SIZE && |an.buffer| <= PIPELINE_BUFFER_SIZE
      modifies this`spilled, op, an
      ensures ok <==> !stopping
      ensures |op.buffer| <= PIPELINE_BUFFER_SIZE && |an.buffer| <= PIPELINE_BUFFER_SIZE
      ensures op.buffer == if ok then Offered(old(op.buffer), m) else old(op.buffer)
      ensures an.buffer == if ok then Offered(old(an.buffer), m) else old(an.buffer)
      ensures spilled == if ok && |old(op.buffer)| >= PIPELINE_BUFFER_SIZE && hasCallback && raw.Some?
                         then old(spilled) + [raw.value] else old(spilled)
    {
      if stopping {
        return false;
      }
      var sent := op.TrySend(m);
      if !sent {
        HandleSpillover(raw);
      }
      sent := an.TrySend(m);
      return true;
    }

    method HandleSpillover(raw: Option<string>)
      modifies this`spilled
      ensures spilled == if hasCallback && raw.Some? then old(spilled) + [raw.value] else old(spilled)
    {
      if hasCallback && raw.Some? {
        spilled := spilled + [raw.value];
      }
    }

    /** The call as the ingestion service makes it. */
    method SaveEventAsync(m: EventModel) returns (ok: bool)
      requires op != an && |op.buffer| <= PIPELINE_BUFFER_SIZE && |an.buffer| <= PIPELINE_BUFFER_SIZE
      modifies this`spilled, op, an
      ensures ok <==> !stopping
      ensures |op.buffer| <= PIPELINE_BUFFER_SIZE && |an.buffer| <= PIPELINE_BUFFER_SIZE
      ensures op.buffer == if ok then Offered(old(op.buffer), m) else old(op.buffer)
      ensures an.buffer == if ok then Offered(old(an.buffer), m) else old(an.buffer)
      ensures spilled == old(spilled)
    {
      ok := SaveEventAsyncWithRaw(m, None);
    }
  }

  lemma EnqueueOffers(p: Line, item: Item)
    ensures Models(Enqueue(p, item).channel) == Offered(Models(p.channel), item.model)
  {
  }

  /** What both channels and the callback see of a call that nothing interrupts. */
  ghost predicate CallDone(s: State, t: State, m: EventModel, hasRaw: bool) {
    && Models(t.op.channel) == Offered(Models(s.op.channel), m)
    && Models(t.an.channel) == Offered(Models(s.an.channel), m)
    && t.checked == [] && t.half == []
    && (t.spilled != s.spilled <==> |s.op.channel| >= PIPELINE_BUFFER_SIZE && s.hasCallback && hasRaw)
  }

  lemma ThreeSteps(s: State, s1: State, s2: State, m: EventModel, hasRaw: bool)
    requires s.stop == NotStopped && s.checked == [] && s.half == []
    requires s1 == Apply(s, BeginCall(m, hasRaw)) && |s1.checked| == 1 && s2 == Apply(s1, EnqueueOp(0))
    ensures |s2.half| == 1 && CallDone(s, Apply(s2, EnqueueAn(0)), m, hasRaw)
  {
    var c := Call(m, hasRaw, s.clock);
    assert s1.checked == [c] && s2.half == [c] && s2.checked == [];
    EnqueueOffers(s.op, ItemOf(c, s1.clock));
    EnqueueOffers(s.an, ItemOf(c, s2.clock));
    assert |s.spilled + multiset{ItemOf(c, s1.clock)}| == |s.spilled| + 1;
  }

  /** The protocol's three steps of a call give, when nothing comes in between, what the method gives. */
  lemma CallIsThreeSteps(s: State, m: EventModel, hasRaw: bool)
    requires s.stop == NotStopped && s.checked == [] && s.half == []
    ensures var run := [BeginCall(m, hasRaw)] + ([EnqueueOp(0)] + [EnqueueAn(0)]);
            ValidRun(s, run) && CallDone(s, After(s, run), m, hasRaw)
  {
    var s1 := Apply(s, BeginCall(m, hasRaw));
    assert |s1.checked| == 1;
    var s2 := Apply(s1, EnqueueOp(0));
    ThreeSteps(s, s1, s2, m, hasRaw);
    assert [EnqueueAn(0)] == [EnqueueAn(0)] + [];
    Prepend(s2, EnqueueAn(0), []);
    Prepend(s1, EnqueueOp(0), [EnqueueAn(0)]);
    Prepend(s, BeginCall(m, hasRaw), [EnqueueOp(0)] + [EnqueueAn(0)]);
  }

  predicate Within(models: seq<EventModel>, all: seq<EventModel>) {
    forall m :: m in models ==> m in all
  }

  lemma WithinAfterReceive(
    batch: seq<EventModel>, queue: seq<EventModel>, batch': seq<EventModel>, all: seq<EventModel>)
    requires queue != [] && Within(batch + queue, all) && (batch' == [] || batch' == batch + [queue[0]])
    ensures Within(batch' + queue[1..], all) && Within(batch + [queue[0]], all)
  {
  }

  /** Moving the first queued model into the batch leaves the rows to be inserted as they were. */
  lemma OneReceived(
    p: Pipeline, t: Table, batch: seq<EventModel>, queue: seq<EventModel>, t': Table, batch': seq<EventModel>)
    requires queue != []
    requires InsertAll(p, t', ToRows(batch')) == InsertAll(p, t, ToRows(batch + [queue[0]]))
    ensures InsertAll(p, t', ToRows(batch' + queue[1..])) == InsertAll(p, t, ToRows(batch + queue))
  {
    RowsSplit(p, t, batch + [queue[0]], queue[1..]);
    RowsSplit(p, t', batch', queue[1..]);
    assert batch + [queue[0]] + queue[1..] == batch + queue;
  }

  lemma RowsSplit(p: Pipeline, t: Table, a: seq<EventModel>, b: seq<EventModel>)
    ensures InsertAll(p, t, ToRows(a + b)) == InsertAll(p, InsertAll(p, t, ToRows(a)), ToRows(b))
  {
    assert ToRows(a + b) == ToRows(a) + ToRows(b);
    InsertAllConcat(p, t, ToRows(a), ToRows(b));
  }
}
