/** The consumer and the asynchronous writer of one process after another: what became of a message whose
    offset is committed (internal/api/kafka_service.go, internal/domain/services/event_ingestion_service.go,
    internal/infrastructure/adapters/repositories/dual_event_writer.go). */
module EndToEnd {
  import opened Events
  import opened EventStore
  import K = KafkaConsumer
  import W = DualEventWriter

  /** The writer of a process, with the tables as it found them. */
  datatype Process = Process(writer: W.State, opBase: Table, anBase: Table)

  /** How far the handler of the message in hand has come with storing its event. */
  datatype Call = NoCall | Begun(event: EventModel) | HalfDone(event: EventModel) | Done(event: EventModel)

  datatype State = State(
    consumer: K.State,
    past: seq<Process>,                  // processes that have ended
    now: Process,
    call: Call,
    accepted: map<K.Place, EventModel>,  // messages handled successfully, and the event each became
    setAside: set<K.Place>)              // messages with a dead-letter attempt

  datatype Step =
    | Consume(k: K.Step)                 // reading, committing, giving up, stopping
    | SetAside                           // a permanent error, or the retries are used up
    | Begin(event: EventModel)           // the handler calls the writer, which is not stopping
    | OfferOp(i: nat)
    | OfferAn(i: nat)
    | Succeed                            // the handler returns without an error
    | Write(w: W.Step)                   // a worker, or Stop
    | Crash                              // the process ends, a new one starts

  predicate OfWriter(w: W.Step) {
    w.Work? || w.RaiseFlag? || w.CloseSignal? || w.StopReturns? || w.RejectCall?
  }

  predicate Enabled(s: State, step: Step) {
    match step
    case Consume(k) =>
      K.Enabled(s.consumer, k) && k != K.Restart && k != K.Handle(K.Settled) &&
      (k == K.Handle(K.Cancelled) ==> s.call == NoCall)
    case SetAside => s.consumer.counter.Handling? && s.call == NoCall
    case Begin(event) => s.consumer.counter.Handling? && s.call == NoCall && s.now.writer.stop == W.NotStopped
    case OfferOp(i) =>
      s.call.Begun? && i < |s.now.writer.checked| && s.now.writer.checked[i].model == s.call.event
    case OfferAn(i) =>
      s.call.HalfDone? && i < |s.now.writer.half| && s.now.writer.half[i].model == s.call.event
    case Succeed => s.consumer.counter.Handling? && s.call.Done?
    case Write(w) => OfWriter(w) && W.Enabled(s.now.writer, w)
    case Crash => true
  }

  function Wrote(s: State, w: W.Step): State
    requires W.Enabled(s.now.writer, w)
  {
    s.(now := s.now.(writer := W.Apply(s.now.writer, w)))
  }

  function NewProcess(opTable: Table, anTable: Table): Process {
    Process(W.Init(W.DEFAULT_WORKERS, W.DEFAULT_WORKERS, true, opTable, anTable), opTable, anTable)
  }

  function Apply(s: State, step: Step): State
    requires Enabled(s, step)
  {
    match step
    case Consume(k) => s.(consumer := K.Apply(s.consumer, k))
    case SetAside =>
      s.(consumer := K.Apply(s.consumer, K.Handle(K.Settled)), setAside := s.setAside + {s.consumer.counter.place})
    case Begin(event) => Wrote(s, W.BeginCall(event, false)).(call := Begun(event))
    case OfferOp(i) => Wrote(s, W.EnqueueOp(i)).(call := HalfDone(s.call.event))
    case OfferAn(i) => Wrote(s, W.EnqueueAn(i)).(call := Done(s.call.event))
    case Succeed =>
      s.(consumer := K.Apply(s.consumer, K.Handle(K.Settled)), call := NoCall,
         accepted := s.accepted[s.consumer.counter.place := s.call.event])
    case Write(w) => Wrote(s, w)
    case Crash =>
      s.(consumer := K.Apply(s.consumer, K.Restart), past := s.past + [s.now], call := NoCall,
         now := NewProcess(s.now.writer.op.table, s.now.writer.an.table))
  }

  function Init(handlers: set<string>, committed: map<K.Partition, nat>, opTable: Table, anTable: Table): State {
    State(K.Init(handlers, committed), [], NewProcess(opTable, anTable), NoCall, map[], {})
  }

  predicate ValidRun(s: State, run: seq<Step>)
    decreases |run|
  {
    run == [] || (Enabled(s, run[0]) && ValidRun(Apply(s, run[0]), run[1..]))
  }

  function After(s: State, run: seq<Step>): State
    requires ValidRun(s, run)
    decreases |run|
  {
    if run == [] then s else After(Apply(s, run[0]), run[1..])
  }

  // ---- Invariant ----

  ghost predicate ProcessOk(p: Process) {
    && W.LinesSound(p.writer) && W.Timed(p.writer)
    && W.TableMatches(p.writer.op, p.opBase) && W.TableMatches(p.writer.an, p.anBase)
  }

  ghost predicate Attempted(p: W.Line, event: EventModel) {
    exists i :: i in p.attempted && i.model == event
  }

  /** The event was offered to both lines of the process. */
  ghost predicate Offered(p: Process, event: EventModel) {
    Attempted(p.writer.op, event) && Attempted(p.writer.an, event)
  }

  function Processes(s: State): seq<Process> { s.past + [s.now] }

  ghost predicate CallOk(s: State) {
    match s.call
    case NoCall => true
    case Begun(_) => true
    case HalfDone(event) => Attempted(s.now.writer.op, event)
    case Done(event) => Offered(s.now, event)
  }

  ghost predicate Routed(s: State) {
    forall x :: x in s.consumer.log.settled ==>
      x in s.accepted || x in s.setAside || x.partition.topic !in s.consumer.handlers
  }

  ghost predicate PastOk(s: State) {
    forall n :: 0 <= n < |s.past| ==>
      ProcessOk(s.past[n]) &&
      W.Keeps(s.past[n].writer.op.table, s.now.writer.op.table) &&
      W.Keeps(s.past[n].writer.an.table, s.now.writer.an.table)
  }

  ghost predicate AcceptedOk(s: State) {
    forall x :: x in s.accepted ==> exists n :: 0 <= n < |Processes(s)| && Offered(Processes(s)[n], s.accepted[x])
  }

  ghost predicate Inv(s: State) {
    K.Inv(s.consumer) && ProcessOk(s.now) && PastOk(s) && CallOk(s) && Routed(s) && AcceptedOk(s)
  }

  lemma NewProcessOk(opTable: Table, anTable: Table)
    ensures ProcessOk(NewProcess(opTable, anTable))
  {
    W.InitSound(W.DEFAULT_WORKERS, W.DEFAULT_WORKERS, true, opTable, anTable);
  }

  lemma WriterStepOk(p: Process, w: W.Step)
    requires ProcessOk(p) && W.Enabled(p.writer, w)
    ensures ProcessOk(p.(writer := W.Apply(p.writer, w)))
    ensures W.Keeps(p.writer.op.table, W.Apply(p.writer, w).op.table)
    ensures W.Keeps(p.writer.an.table, W.Apply(p.writer, w).an.table)
  {
    W.StepConserves(p.writer, w);
    W.StepTimed(p.writer, w);
    W.StepMatches(p.writer, w, p.opBase, p.anBase);
    W.StepKeepsRows(p.writer, w, p.opBase, p.anBase);
  }

  /** What was attempted stays attempted. */
  lemma WriterStepAttempts(w: W.State, step: W.Step, event: EventModel)
    requires W.Enabled(w, step)
    ensures Attempted(w.op, event) ==> Attempted(W.Apply(w, step).op, event)
    ensures Attempted(w.an, event) ==> Attempted(W.Apply(w, step).an, event)
  {
    W.AttemptsGrow(w, step);
    var t := W.Apply(w, step);
    if i :| i in w.op.attempted && i.model == event {
      assert i in t.op.attempted;
    }
    if i :| i in w.an.attempted && i.model == event {
      assert i in t.an.attempted;
    }
  }

  lemma KeepsChain(a: Table, b: Table, c: Table)
    requires W.Keeps(a, b) && W.Keeps(b, c)
    ensures W.Keeps(a, c)
  {
  }

  lemma PastStays(s: State, t: State)
    requires PastOk(s) && t.past == s.past
    requires W.Keeps(s.now.writer.op.table, t.now.writer.op.table)
    requires W.Keeps(s.now.writer.an.table, t.now.writer.an.table)
    ensures PastOk(t)
  {
    forall n | 0 <= n < |t.past|
      ensures W.Keeps(t.past[n].writer.op.table, t.now.writer.op.table)
      ensures W.Keeps(t.past[n].writer.an.table, t.now.writer.an.table)
    {
      KeepsChain(s.past[n].writer.op.table, s.now.writer.op.table, t.now.writer.op.table);
      KeepsChain(s.past[n].writer.an.table, s.now.writer.an.table, t.now.writer.an.table);
    }
  }

  lemma WroteKeepsPast(s: State, w: W.Step)
    requires ProcessOk(s.now) && PastOk(s) && W.Enabled(s.now.writer, w)
    ensures ProcessOk(Wrote(s, w).now) && PastOk(Wrote(s, w))
  {
    WriterStepOk(s.now, w);
    PastStays(s, Wrote(s, w));
  }

  /** An event offered to a process stays offered to it while processes go on and end. */
  lemma AcceptedStays(s: State, t: State)
    requires AcceptedOk(s) && t.accepted == s.accepted && |Processes(s)| <= |Processes(t)|
    requires forall n, event :: 0 <= n < |Processes(s)| && Offered(Processes(s)[n], event) ==>
               Offered(Processes(t)[n], event)
    ensures AcceptedOk(t)
  {
    forall x | x in t.accepted ensures exists n :: 0 <= n < |Processes(t)| && Offered(Processes(t)[n], t.accepted[x]) {
      var n :| 0 <= n < |Processes(s)| && Offered(Processes(s)[n], s.accepted[x]);
      assert Offered(Processes(t)[n], t.accepted[x]);
    }
  }

  lemma WroteKeepsAccepted(s: State, w: W.Step)
    requires AcceptedOk(s) && W.Enabled(s.now.writer, w)
    ensures AcceptedOk(Wrote(s, w))
  {
    var t := Wrote(s, w);
    forall n, event | 0 <= n < |Processes(s)| && Offered(Processes(s)[n], event)
      ensures Offered(Processes(t)[n], event)
    {
      if n < |s.past| {
        assert Processes(t)[n] == Processes(s)[n];
      } else {
        WriterStepAttempts(s.now.writer, w, event);
      }
    }
    AcceptedStays(s, t);
  }

  lemma WroteKeepsCall(s: State, w: W.Step)
    requires CallOk(s) && W.Enabled(s.now.writer, w)
    ensures CallOk(Wrote(s, w))
  {
    if s.call != NoCall {
      WriterStepAttempts(s.now.writer, w, s.call.event);
    }
  }

  lemma OfferKeepsCall(s: State, step: Step)
    requires CallOk(s) && Enabled(s, step) && (step.OfferOp? || step.OfferAn?)
    ensures CallOk(Apply(s, step))
  {
    var w := s.now.writer;
    WriterStepAttempts(w, if step.OfferOp? then W.EnqueueOp(step.i) else W.EnqueueAn(step.i), s.call.event);
    if step.OfferOp? {
      var item := W.ItemOf(w.checked[step.i], w.clock);
      assert item in Apply(s, step).now.writer.op.attempted && item.model == s.call.event;
    } else {
      var item := W.ItemOf(w.half[step.i], w.clock);
      assert item in Apply(s, step).now.writer.an.attempted && item.model == s.call.event;
    }
  }

  lemma WriteKeepsInv(s: State, step: Step)
    requires Inv(s) && Enabled(s, step) && (step.Begin? || step.OfferOp? || step.OfferAn? || step.Write?)
    ensures Inv(Apply(s, step))
  {
    var w := match step
      case Begin(event) => W.BeginCall(event, false)
      case OfferOp(i) => W.EnqueueOp(i)
      case OfferAn(i) => W.EnqueueAn(i)
      case Write(w) => w
      case _ => W.RejectCall;
    assert W.Enabled(s.now.writer, w) && Apply(s, step) == Wrote(s, w).(call := Apply(s, step).call);
    WroteKeepsPast(s, w);
    WroteKeepsAccepted(s, w);
    WroteKeepsCall(s, w);
    if step.OfferOp? || step.OfferAn? {
      OfferKeepsCall(s, step);
    }
    assert Processes(Apply(s, step)) == Processes(Wrote(s, w));
  }

  /** A consumer step settles at most the message in hand, or one without a handler. */
  lemma ConsumerSettles(c: K.State, k: K.Step, x: K.Place)
    requires K.Enabled(c, k) && x in K.Apply(c, k).log.settled && x !in c.log.settled
    ensures (k == K.Handle(K.Settled) && x == c.counter.place) || x.partition.topic !in c.handlers
  {
  }

  lemma ConsumeKeepsRoutes(s: State, k: K.Step)
    requires Routed(s) && Enabled(s, Consume(k))
    ensures Routed(Apply(s, Consume(k)))
  {
    var t := Apply(s, Consume(k));
    ConsumerKeepsHandlers(s.consumer, k);
    forall x | x in t.consumer.log.settled
      ensures x in t.accepted || x in t.setAside || x.partition.topic !in t.consumer.handlers
    {
      if x !in s.consumer.log.settled {
        ConsumerSettles(s.consumer, k, x);
      }
    }
  }

  lemma ConsumerKeepsHandlers(c: K.State, k: K.Step)
    requires K.Enabled(c, k)
    ensures K.Apply(c, k).handlers == c.handlers
  {
  }

  lemma ConsumeKeepsInv(s: State, k: K.Step)
    requires Inv(s) && Enabled(s, Consume(k))
    ensures Inv(Apply(s, Consume(k)))
  {
    var t := Apply(s, Consume(k));
    K.StepKeepsInv(s.consumer, k);
    ConsumeKeepsRoutes(s, k);
    assert t == s.(consumer := t.consumer);
    SameProcesses(s, t);
  }

  lemma SameProcesses(s: State, t: State)
    requires ProcessOk(s.now) && PastOk(s) && CallOk(s) && AcceptedOk(s)
    requires t.past == s.past && t.now == s.now && t.accepted == s.accepted && t.call == s.call
    ensures ProcessOk(t.now) && PastOk(t) && CallOk(t) && AcceptedOk(t)
  {
    assert Processes(t) == Processes(s);
    AcceptedStays(s, t);
  }

  lemma SetAsideKeepsInv(s: State)
    requires Inv(s) && Enabled(s, SetAside)
    ensures Inv(Apply(s, SetAside))
  {
    K.StepKeepsInv(s.consumer, K.Handle(K.Settled));
    SameProcesses(s, Apply(s, SetAside));
  }

  lemma SucceedKeepsInv(s: State)
    requires Inv(s) && Enabled(s, Succeed)
    ensures Inv(Apply(s, Succeed))
  {
    var t := Apply(s, Succeed);
    K.StepKeepsInv(s.consumer, K.Handle(K.Settled));
    forall x | x in t.accepted ensures exists n :: 0 <= n < |Processes(t)| && Offered(Processes(t)[n], t.accepted[x]) {
      if x == s.consumer.counter.place {
        assert Offered(Processes(t)[|s.past|], t.accepted[x]);
      } else {
        var n :| 0 <= n < |Processes(s)| && Offered(Processes(s)[n], s.accepted[x]);
        assert Offered(Processes(t)[n], t.accepted[x]);
      }
    }
  }

  lemma CrashKeepsPast(s: State)
    requires ProcessOk(s.now) && PastOk(s)
    ensures ProcessOk(Apply(s, Crash).now) && PastOk(Apply(s, Crash))
  {
    var t := Apply(s, Crash);
    NewProcessOk(s.now.writer.op.table, s.now.writer.an.table);
    assert t.now.writer.op.table == s.now.writer.op.table && t.now.writer.an.table == s.now.writer.an.table;
    forall n | 0 <= n < |t.past|
      ensures ProcessOk(t.past[n])
      ensures W.Keeps(t.past[n].writer.op.table, t.now.writer.op.table)
      ensures W.Keeps(t.past[n].writer.an.table, t.now.writer.an.table)
    {
      assert t.past[n] == if n < |s.past| then s.past[n] else s.now;
    }
  }

  lemma CrashKeepsAccepted(s: State)
    requires AcceptedOk(s)
    ensures AcceptedOk(Apply(s, Crash))
  {
    var t := Apply(s, Crash);
    assert forall n :: 0 <= n < |Processes(s)| ==> Processes(t)[n] == Processes(s)[n];
    AcceptedStays(s, t);
  }

  lemma CrashKeepsInv(s: State)
    requires Inv(s)
    ensures Inv(Apply(s, Crash))
  {
    K.StepKeepsInv(s.consumer, K.Restart);
    CrashKeepsPast(s);
    CrashKeepsAccepted(s);
  }

  lemma StepKeepsInv(s: State, step: Step)
    requires Inv(s) && Enabled(s, step)
    ensures Inv(Apply(s, step))
  {
    match step
    case Consume(k) => ConsumeKeepsInv(s, k);
    case SetAside => SetAsideKeepsInv(s);
    case Succeed => SucceedKeepsInv(s);
    case Crash => CrashKeepsInv(s);
    case _ => WriteKeepsInv(s, step);
  }

  lemma {:induction false} RunKeepsInv(s: State, run: seq<Step>)
    requires Inv(s) && ValidRun(s, run)
    ensures Inv(After(s, run))
    decreases |run|
  {
    if run != [] {
      StepKeepsInv(s, run[0]);
      RunKeepsInv(Apply(s, run[0]), run[1..]);
    }
  }

  // ---- What became of a committed message ----

  /** Where an offered event is: dropped at a full channel, given up with a failed batch, still in the memory
      of its process, or written, and then its key is in the table of today, unless an id was generated. */
  ghost predicate HasFate(p: W.Line, event: EventModel, today: Table) {
    exists i: W.Item :: i.model == event &&
      (i in p.dropped || i in p.lost || i in W.Unwritten(p) ||
       (i in p.written && (event.id != NIL_ID || p.drawn == {} ==> KeyOf(p.pipeline, ToRow(event)) in today)))
  }

  lemma AttemptedHasFate(p: W.Line, base: Table, event: EventModel, today: Table)
    requires Attempted(p, event) && W.Conserved(p) && W.TableMatches(p, base) && W.Keeps(p.table, today)
    ensures HasFate(p, event, today)
  {
    var i :| i in p.attempted && i.model == event;
    assert p.dropped + multiset(p.channel) + W.InBatches(p.workers) + p.written + p.lost ==
           p.dropped + W.Unwritten(p) + p.written + p.lost;
    assert i in p.dropped || i in W.Unwritten(p) || i in p.written || i in p.lost;
    if i in p.written && (event.id != NIL_ID || p.drawn == {}) {
      assert KeyOf(p.pipeline, ToRow(event)) in p.table;
    }
  }

  /** If Stop has returned, and no call was in flight when it began, the process holds nothing in memory. */
  ghost predicate StopEmptied(p: Process) {
    p.writer.stop == W.Returned && p.writer.quiet ==>
      W.Unwritten(p.writer.op) == multiset{} && W.Unwritten(p.writer.an) == multiset{}
  }

  lemma StoppedHoldsNothing(p: Process)
    requires ProcessOk(p)
    ensures StopEmptied(p)
  {
    if p.writer.stop == W.Returned && p.writer.quiet {
      W.ExitedLineDrained(p.writer, p.writer.op);
      W.ExitedLineDrained(p.writer, p.writer.an);
    }
  }

  ghost predicate Stored(s: State, event: EventModel) {
    exists n :: 0 <= n < |Processes(s)| && Offered(Processes(s)[n], event) &&
      HasFate(Processes(s)[n].writer.op, event, s.now.writer.op.table) &&
      HasFate(Processes(s)[n].writer.an, event, s.now.writer.an.table)
  }

  /** Every process was sound, and its rows are in the tables of today. */
  lemma ProcessAt(s: State, n: nat)
    requires ProcessOk(s.now) && PastOk(s) && n < |Processes(s)|
    ensures ProcessOk(Processes(s)[n])
    ensures W.Keeps(Processes(s)[n].writer.op.table, s.now.writer.op.table)
    ensures W.Keeps(Processes(s)[n].writer.an.table, s.now.writer.an.table)
  {
    assert Processes(s)[n] == if n < |s.past| then s.past[n] else s.now;
  }

  lemma OfferedHasFate(p: Process, event: EventModel, opToday: Table, anToday: Table)
    requires ProcessOk(p) && Offered(p, event)
    requires W.Keeps(p.writer.op.table, opToday) && W.Keeps(p.writer.an.table, anToday)
    ensures HasFate(p.writer.op, event, opToday) && HasFate(p.writer.an, event, anToday)
  {
    AttemptedHasFate(p.writer.op, p.opBase, event, opToday);
    AttemptedHasFate(p.writer.an, p.anBase, event, anToday);
  }

  lemma AcceptedIsStored(s: State, x: K.Place)
    requires ProcessOk(s.now) && PastOk(s) && AcceptedOk(s)
    ensures x in s.accepted ==> Stored(s, s.accepted[x])
  {
    if x in s.accepted {
      var event := s.accepted[x];
      var n :| 0 <= n < |Processes(s)| && Offered(Processes(s)[n], event);
      ProcessAt(s, n);
      OfferedHasFate(Processes(s)[n], event, s.now.writer.op.table, s.now.writer.an.table);
    }
  }

  /** What a committed message may have come to. */
  ghost predicate Explained(s: State, x: K.Place) {
    || x in s.consumer.log.gap || x in s.consumer.log.skipped
    || x.partition.topic !in s.consumer.handlers
    || x in s.setAside
    || (x in s.accepted && Stored(s, s.accepted[x]))
  }

  lemma CommittedExplained(s: State, x: K.Place)
    requires Inv(s) && K.Between(s.consumer.log.start, x, s.consumer.committed)
    ensures Explained(s, x)
  {
    assert x in K.Accounted(s.consumer);
    AcceptedIsStored(s, x);
  }

  lemma StopsEmptied(s: State, n: nat)
    requires ProcessOk(s.now) && PastOk(s) && n < |Processes(s)|
    ensures StopEmptied(Processes(s)[n])
  {
    ProcessAt(s, n);
    StoppedHoldsNothing(Processes(s)[n]);
  }

  lemma InitInv(handlers: set<string>, committed: map<K.Partition, nat>, opTable: Table, anTable: Table)
    ensures Inv(Init(handlers, committed, opTable, anTable))
  {
    NewProcessOk(opTable, anTable);
  }

  /** In every joint run of consumers and writers, process after process, whatever crashes: a message below
      a partition's committed offset, from the first offset taken up on, had no handler, had a dead-letter
      attempt, fell to one of the two exceptions of the consumer, or became an event that was offered to both
      lines of one process and there was written and is in the table to this day, dropped at a full channel,
      given up with a failed batch, or in the memory of that process. After a stop with no call in flight the
      last of these is excluded. */
  lemma CommittedMessagesExplained(
    handlers: set<string>, committed: map<K.Partition, nat>, opTable: Table, anTable: Table, run: seq<Step>)
    requires ValidRun(Init(handlers, committed, opTable, anTable), run)
    ensures var s := After(Init(handlers, committed, opTable, anTable), run);
            (forall x: K.Place :: K.Between(s.consumer.log.start, x, s.consumer.committed) ==> Explained(s, x)) &&
            (forall n :: 0 <= n < |Processes(s)| ==> StopEmptied(Processes(s)[n]))
  {
    var s0 := Init(handlers, committed, opTable, anTable);
    InitInv(handlers, committed, opTable, anTable);
    RunKeepsInv(s0, run);
    var s := After(s0, run);
    forall x: K.Place | K.Between(s.consumer.log.start, x, s.consumer.committed) ensures Explained(s, x) {
      CommittedExplained(s, x);
    }
    forall n | 0 <= n < |Processes(s)| ensures StopEmptied(Processes(s)[n]) {
      StopsEmptied(s, n);
    }
  }
}
