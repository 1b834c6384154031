/** The Kafka consume, retry and commit loop with its two-step stop (internal/api/kafka_service.go).

    The broker is a log per topic partition, read in offset order from the consumer's position; a commit
    of offset o moves the partition's committed offset to o + 1. A process that starts takes up a
    partition at its committed offset, or at the log's end when it has none
    (internal/infrastructure/conf/kafkaconf/factory.go, main.go). */
module KafkaConsumer {
  import opened Events

  const MAX_RETRIES := 3
  const CONNECTION_ERROR_LIMIT := 10

  // ---- One message ----

  datatype HandlerResult = Success | Permanent | Transient

  /** A dead-letter attempt counts as handled whichever way it ends. */
  datatype DlqResult = Delivered | SendFailed | MarshalFailed

  /** What the handler returns at its k-th call, whether the wait before the k-th retry ends by
      cancellation, and how a dead-letter attempt would end. */
  datatype Answers = Answers(result: nat -> HandlerResult, cancelled: nat -> bool, dlq: DlqResult)

  /** Call number k (from 0) of the handler takes place. */
  ghost predicate Reaches(a: Answers, k: nat) {
    (forall j: nat :: j < k ==> a.result(j) == Transient) && (forall j :: 1 <= j <= k ==> !a.cancelled(j))
  }

  /** A wait between two calls of the handler is reached and ends by cancellation. */
  ghost predicate WaitCancelled(a: Answers) {
    exists k: nat :: 1 <= k <= 3 && a.cancelled(k) && forall j: nat :: j < k ==> a.result(j) == Transient
  }

  /** One of the first four calls succeeds after transient errors only. */
  ghost predicate Succeeds(a: Answers) {
    exists k: nat :: k <= 3 && a.result(k) == Success && forall j: nat :: j < k ==> a.result(j) == Transient
  }

  /** At most four calls; the message is given up to the dead-letter topic at most once, exactly when the
      last call failed and no cancellation intervened, and the outcome of that attempt does not matter;
      false comes exactly from a cancelled wait. */
  method HandleWithRetry(a: Answers) returns (success: bool, calls: nat, dlqAttempts: seq<DlqResult>)
    ensures 1 <= calls <= 4
    ensures forall k: nat :: k <= 3 ==> (k < calls <==> Reaches(a, k))
    ensures !success <==> calls <= 3 && a.result(calls - 1) == Transient
    ensures success <==> !WaitCancelled(a)
    ensures dlqAttempts == if success && a.result(calls - 1) != Success then [a.dlq] else []
    ensures success ==> dlqAttempts == if Succeeds(a) then [] else [a.dlq]
  {
    var err := a.result(0);
    calls, dlqAttempts := 1, [];
    if err == Success {
      return true, calls, dlqAttempts;
    }
    if err == Permanent {
      return true, calls, [a.dlq];
    }
    var attempt := 1;
    while attempt <= MAX_RETRIES
      invariant 1 <= attempt <= MAX_RETRIES + 1 && calls == attempt && dlqAttempts == []
      invariant Reaches(a, attempt - 1) && a.result(attempt - 1) == Transient && err == Transient
    {
      if a.cancelled(attempt) {
        return false, calls, dlqAttempts;
      }
      err := a.result(attempt);
      calls := calls + 1;
      if err == Success {
        return true, calls, dlqAttempts;
      }
      if err == Permanent {
        return true, calls, [a.dlq];
      }
      attempt := attempt + 1;
    }
    return true, calls, [a.dlq];
  }

  // ---- The loop as a protocol ----

  datatype Partition = Partition(topic: string, number: nat)
  datatype Place = Place(partition: Partition, offset: nat)

  /** StopConsuming cancels the context and then closes the stop channel. */
  datatype StopPhase = NotStopped | ContextCancelled | ChannelClosed

  datatype Counter = AtTop | Reading | Handling(place: Place) | Committing(place: Place) | Exited

  datatype ReadError = TimedOut | ConnectionError | OtherError

  /** What has been done with the messages so far. seen bounds the log's end, and nothing else of the
      history is looked at by a step. */
  datatype History = History(
    seen: map<Partition, nat>,       // the log is known to reach this far
    start: map<Partition, nat>,      // where the run took the partition up first
    settled: set<Place>,             // no handler, handled, or a dead-letter attempt
    gap: set<Place>,                 // given up by cancellation while the stop channel was still open
    skipped: set<Place>)             // unsettled, below a log end at which a partition was taken up again

  datatype State = State(
    handlers: set<string>,
    committed: map<Partition, nat>,  // commits the broker has
    position: map<Partition, nat>,   // next offset to read, for the partitions this process has taken up
    log: History,
    counter: Counter, stop: StopPhase, errors: nat, healthy: bool)

  datatype Outcome = Settled | Cancelled

  datatype Step =
    | Cancel | CloseChannel | CancelAndClose
    | CheckStop
    | ReadFails(e: ReadError)
    | TakeUp(partition: Partition, at: nat)   // assigned without a commit: begin at the log's end
    | Read(partition: Partition)
    | Handle(o: Outcome)
    | Commit(ok: bool)
    | Restart                        // a new process of the group, after an exit or a crash

  function OffsetIn(m: map<Partition, nat>, p: Partition): nat {
    if p in m then m[p] else 0
  }

  predicate Enabled(s: State, step: Step) {
    match step
    case Cancel => s.stop == NotStopped
    case CloseChannel => s.stop == ContextCancelled
    case CancelAndClose => s.stop == NotStopped
    case CheckStop => s.counter == AtTop
    case ReadFails(_) => s.counter == Reading
    case TakeUp(p, at) => p !in s.position && at >= OffsetIn(s.log.seen, p)
    case Read(p) => s.counter == Reading && p in s.position
    case Handle(o) => s.counter.Handling? && (o == Cancelled ==> s.stop != NotStopped)
    case Commit(_) => s.counter.Committing?
    case Restart => true
  }

  function AfterReadError(s: State, e: ReadError): State {
    if e != ConnectionError then s.(counter := AtTop)
    else if s.errors + 1 > CONNECTION_ERROR_LIMIT
    then s.(errors := s.errors + 1, healthy := false, counter := Exited)
    else s.(errors := s.errors + 1, counter := AtTop)
  }

  /** The unsettled messages of a partition between two offsets. */
  function Unsettled(p: Partition, low: nat, high: nat, settled: set<Place>): set<Place> {
    if high <= low then {}
    else
      var rest := Unsettled(p, low, high - 1, settled);
      if Place(p, high - 1) in settled then rest else rest + {Place(p, high - 1)}
  }

  lemma {:induction false} UnsettledAre(p: Partition, low: nat, high: nat, settled: set<Place>, x: Place)
    ensures x in Unsettled(p, low, high, settled) <==> x.partition == p && low <= x.offset < high && x !in settled
  {
    if high > low {
      UnsettledAre(p, low, high - 1, settled, x);
    }
  }

  /** What taking a partition up at an offset leaves behind. */
  function Skipped(s: State, p: Partition, at: nat): set<Place> {
    if p in s.log.start then Unsettled(p, s.log.start[p], at, s.log.settled) else {}
  }

  function TakenUp(s: State, p: Partition, at: nat): State {
    s.(position := s.position[p := at],
       log := s.log.(
         seen := s.log.seen[p := at],
         start := if p in s.log.start then s.log.start else s.log.start[p := at],
         skipped := s.log.skipped + Skipped(s, p, at)))
  }

  function Max(a: nat, b: nat): nat { if a >= b then a else b }

  /** The position moves past a message before anything is done with it. */
  function Advanced(s: State, p: Partition): State
    requires p in s.position
  {
    s.(errors := 0, position := s.position[p := s.position[p] + 1],
       log := s.log.(seen := s.log.seen[p := Max(OffsetIn(s.log.seen, p), s.position[p] + 1)]))
  }

  function Settle(s: State, place: Place): State {
    s.(counter := Committing(place), log := s.log.(settled := s.log.settled + {place}))
  }

  /** A message without handler counts as settled. */
  function AfterRead(s: State, p: Partition): State
    requires p in s.position
  {
    var place := Place(p, s.position[p]);
    if p.topic in s.handlers then Advanced(s, p).(counter := Handling(place)) else Settle(Advanced(s, p), place)
  }

  function Apply(s: State, step: Step): State
    requires Enabled(s, step)
  {
    match step
    case Cancel => s.(stop := ContextCancelled)
    case CloseChannel => s.(stop := ChannelClosed)
    case CancelAndClose => s.(stop := ChannelClosed)
    case CheckStop =>
      if s.stop == ChannelClosed then s.(counter := Exited, healthy := false) else s.(counter := Reading)
    case ReadFails(e) => AfterReadError(s, e)
    case TakeUp(p, at) => TakenUp(s, p, at)
    case Read(p) => AfterRead(s, p)
    case Handle(o) =>
      var place := s.counter.place;
      if o == Settled then Settle(s, place)
      else if s.stop == ChannelClosed then s.(counter := AtTop)
      else s.(counter := AtTop, log := s.log.(gap := s.log.gap + {place}))
    case Commit(ok) =>
      var place := s.counter.place;
      if ok then s.(counter := AtTop, committed := s.committed[place.partition := place.offset + 1])
      else s.(counter := AtTop)
    case Restart =>
      s.(counter := AtTop, position := s.committed, stop := NotStopped, errors := 0, healthy := true)
  }

  /** committed: what the broker has when the run begins. */
  function Init(handlers: set<string>, committed: map<Partition, nat>): State {
    State(handlers, committed, committed, History(committed, committed, {}, {}, {}), AtTop, NotStopped, 0, true)
  }

  predicate ValidRun(s: State, run: seq<Step>)
    decreases |run|
  {
    run == [] || (Enabled(s, run[0]) && ValidRun(Apply(s, run[0]), run[1..]))
  }

  function After(s: State, run: seq<Step>): State
    requires ValidRun(s, run)
    decreases |run|
  {
    if run == [] then s else After(Apply(s, run[0]), run[1..])
  }

  // ---- Commit safety ----

  /** The message in hand, if any. */
  function InHand(s: State): Option<Place> {
    if s.counter.Handling? || s.counter.Committing? then Some(s.counter.place) else None
  }

  function Accounted(s: State): set<Place> { s.log.settled + s.log.gap + s.log.skipped }

  predicate Between(low: map<Partition, nat>, place: Place, high: map<Partition, nat>) {
    place.partition in low && place.partition in high &&
    low[place.partition] <= place.offset < high[place.partition]
  }

  /** Every place from the start offsets up to the given ones is in the set, but for one. */
  ghost predicate Covered(
    start: map<Partition, nat>, below: map<Partition, nat>, places: set<Place>, but: Option<Place>)
  {
    forall place: Place :: Between(start, place, below) && but != Some(place) ==> place in places
  }

  /** The loop can still commit, in this process. */
  predicate Live(s: State) {
    s.counter != Exited && !(s.counter == AtTop && s.stop == ChannelClosed)
  }

  /** A partition of a is in b, and not further there. */
  ghost predicate NotBehind(a: map<Partition, nat>, b: map<Partition, nat>) {
    forall p :: p in a ==> p in b && a[p] <= b[p]
  }

  ghost predicate Inv(s: State) {
    && Covered(s.log.start, s.committed, Accounted(s), None)
    && NotBehind(s.committed, s.position) && s.position.Keys <= s.log.start.Keys
    && (Live(s) ==> Covered(s.log.start, s.position, Accounted(s), InHand(s)))
    && (InHand(s).Some? ==>
          s.counter.place.partition in s.position &&
          s.counter.place.offset + 1 == s.position[s.counter.place.partition])
    && (s.counter.Committing? ==> s.counter.place in s.log.settled)
  }

  lemma CoveredGrows(
    start: map<Partition, nat>, below: map<Partition, nat>, places: set<Place>, but: Option<Place>,
    more: set<Place>, but': Option<Place>)
    requires Covered(start, below, places, but) && places <= more
    requires but == but' || but.None? || but.value in more
    ensures Covered(start, below, more, but')
  {
  }

  /** Reading the next message of a partition leaves one place open. */
  lemma ReadCovers(s: State, p: Partition)
    requires Inv(s) && Enabled(s, Read(p))
    ensures var t := Advanced(s, p);
            Covered(t.log.start, t.position, Accounted(t), Some(Place(p, s.position[p])))
  {
    var t := Advanced(s, p);
    forall x: Place | Between(t.log.start, x, t.position) && x != Place(p, s.position[p]) ensures x in Accounted(t) {
      assert Between(s.log.start, x, s.position);
    }
  }

  lemma ReadKeepsInv(s: State, p: Partition)
    requires Inv(s) && Enabled(s, Read(p))
    ensures Inv(Apply(s, Read(p)))
  {
    var t, u := Apply(s, Read(p)), Advanced(s, p);
    var place := Place(p, s.position[p]);
    ReadCovers(s, p);
    assert InHand(t) == Some(place);
    CoveredGrows(u.log.start, u.committed, Accounted(u), None, Accounted(t), None);
    CoveredGrows(u.log.start, u.position, Accounted(u), Some(place), Accounted(t), Some(place));
  }

  /** What lies below the place where a partition is taken up is settled, skipped or before the start. */
  lemma TakeUpKeepsInv(s: State, p: Partition, at: nat)
    requires Inv(s) && Enabled(s, TakeUp(p, at))
    ensures Inv(Apply(s, TakeUp(p, at)))
  {
    var t := Apply(s, TakeUp(p, at));
    if Live(s) {
      forall x: Place | Between(t.log.start, x, t.position) && InHand(t) != Some(x) ensures x in Accounted(t) {
        if x.partition != p {
          assert Between(s.log.start, x, s.position);
        } else if p in s.log.start {
          UnsettledAre(p, s.log.start[p], at, s.log.settled, x);
        }
      }
    }
    forall x: Place | Between(t.log.start, x, t.committed) ensures x in Accounted(t) {
      assert Between(s.log.start, x, s.committed);
    }
  }

  lemma HandleKeepsInv(s: State, o: Outcome)
    requires Inv(s) && Enabled(s, Handle(o))
    ensures Inv(Apply(s, Handle(o)))
  {
    var t := Apply(s, Handle(o));
    CoveredGrows(s.log.start, s.committed, Accounted(s), None, Accounted(t), None);
    if Live(t) {
      CoveredGrows(s.log.start, s.position, Accounted(s), InHand(s), Accounted(t), InHand(t));
    }
  }

  lemma CommitKeepsInv(s: State, ok: bool)
    requires Inv(s) && Enabled(s, Commit(ok))
    ensures Inv(Apply(s, Commit(ok)))
  {
    var t := Apply(s, Commit(ok));
    CoveredGrows(s.log.start, s.position, Accounted(s), InHand(s), Accounted(t), None);
    assert NotBehind(t.committed, t.position);
    forall x: Place | Between(t.log.start, x, t.committed) ensures x in Accounted(t) {
      assert Between(t.log.start, x, t.position);
    }
  }

  /** What a step without message leaves as it was. */
  lemma IdleKeepsInv(s: State, t: State)
    requires Inv(s) && t.log.start == s.log.start && t.committed == s.committed && Accounted(t) == Accounted(s)
    requires t.log.settled == s.log.settled
    requires (t.position == s.position && (Live(t) ==> Live(s)) && InHand(t) == InHand(s) &&
              (t.counter.Committing? ==> s.counter.Committing?)) ||
             (t.position == s.committed && InHand(t) == None)
    ensures Inv(t)
  {
  }

  lemma OtherStepKeepsInv(s: State, step: Step)
    requires Inv(s) && Enabled(s, step) && !step.TakeUp? && !step.Read? && !step.Handle? && !step.Commit?
    ensures Inv(Apply(s, step))
  {
    IdleKeepsInv(s, Apply(s, step));
  }

  lemma StepKeepsInv(s: State, step: Step)
    requires Inv(s) && Enabled(s, step)
    ensures Inv(Apply(s, step))
  {
    match step
    case TakeUp(p, at) => TakeUpKeepsInv(s, p, at);
    case Read(p) => ReadKeepsInv(s, p);
    case Handle(o) => HandleKeepsInv(s, o);
    case Commit(ok) => CommitKeepsInv(s, ok);
    case _ => OtherStepKeepsInv(s, step);
  }

  lemma {:induction false} RunKeepsInv(s: State, run: seq<Step>)
    requires Inv(s) && ValidRun(s, run)
    ensures Inv(After(s, run))
    decreases |run|
  {
    if run != [] {
      StepKeepsInv(s, run[0]);
      RunKeepsInv(Apply(s, run[0]), run[1..]);
    }
  }

  /** Over every run, restarts and crashes included, an offset below a partition's committed offset
      belongs to a message that had no handler, was handled or had a dead-letter attempt, or was given up
      in the gap between the cancellation and the close of the stop channel, or lay below the log end
      at which a restart took up a partition without a commit. */
  lemma CommittedMeansAccounted(handlers: set<string>, committed: map<Partition, nat>, run: seq<Step>)
    requires ValidRun(Init(handlers, committed), run)
    ensures var s := After(Init(handlers, committed), run);
            Covered(s.log.start, s.committed, s.log.settled + s.log.gap + s.log.skipped, None)
  {
    RunKeepsInv(Init(handlers, committed), run);
  }

  // ---- Without restarts of uncommitted partitions, without the gap ----

  /** Every partition the run has taken up is committed whenever a process starts anew. */
  predicate RestartsCommitted(s: State, run: seq<Step>)
    requires ValidRun(s, run)
    decreases |run|
  {
    run == [] ||
    ((run[0] == Restart ==> s.log.start.Keys <= s.committed.Keys) && RestartsCommitted(Apply(s, run[0]), run[1..]))
  }

  lemma StepSkipsNothing(s: State, step: Step)
    requires Enabled(s, step) && s.log.start.Keys <= s.position.Keys
    requires step == Restart ==> s.log.start.Keys <= s.committed.Keys
    ensures Apply(s, step).log.skipped == s.log.skipped && Apply(s, step).log.start.Keys <= Apply(s, step).position.Keys
  {
    if step.TakeUp? {
      assert Skipped(s, step.partition, step.at) == {};
    }
  }

  lemma {:induction false} NothingSkipped(s: State, run: seq<Step>)
    requires ValidRun(s, run) && RestartsCommitted(s, run) && s.log.start.Keys <= s.position.Keys
    ensures After(s, run).log.skipped == s.log.skipped
    decreases |run|
  {
    if run != [] {
      StepSkipsNothing(s, run[0]);
      NothingSkipped(Apply(s, run[0]), run[1..]);
    }
  }

  /** If every partition taken up is committed before each restart, only the gap of the two-step stop makes
      exceptions. */
  lemma CommittedMeansHandled(handlers: set<string>, committed: map<Partition, nat>, run: seq<Step>)
    requires ValidRun(Init(handlers, committed), run) && RestartsCommitted(Init(handlers, committed), run)
    ensures var s := After(Init(handlers, committed), run);
            Covered(s.log.start, s.committed, s.log.settled + s.log.gap, None)
  {
    CommittedMeansAccounted(handlers, committed, run);
    NothingSkipped(Init(handlers, committed), run);
    var s := After(Init(handlers, committed), run);
    assert s.log.settled + s.log.gap + s.log.skipped == s.log.settled + s.log.gap;
  }

  predicate StopsAtOnce(run: seq<Step>) {
    Cancel !in run
  }

  lemma StepOutsideGap(s: State, step: Step)
    requires Enabled(s, step) && step != Cancel && s.stop != ContextCancelled
    ensures Apply(s, step).log.gap == s.log.gap && Apply(s, step).stop != ContextCancelled
  {
  }

  lemma {:induction false} NoGapNoException(s: State, run: seq<Step>)
    requires ValidRun(s, run) && StopsAtOnce(run) && s.stop != ContextCancelled
    ensures After(s, run).log.gap == s.log.gap
    decreases |run|
  {
    if run != [] {
      assert run[0] in run && forall x :: x in run[1..] ==> x in run;
      StepOutsideGap(s, run[0]);
      NoGapNoException(Apply(s, run[0]), run[1..]);
    }
  }

  /** If moreover cancellation and close were one step, no cancelled message would ever be passed over. */
  lemma AtomicStopNeverSkips(handlers: set<string>, committed: map<Partition, nat>, run: seq<Step>)
    requires ValidRun(Init(handlers, committed), run) && RestartsCommitted(Init(handlers, committed), run)
    requires StopsAtOnce(run)
    ensures var s := After(Init(handlers, committed), run);
            Covered(s.log.start, s.committed, s.log.settled, None)
  {
    CommittedMeansHandled(handlers, committed, run);
    NoGapNoException(Init(handlers, committed), run);
    var s := After(Init(handlers, committed), run);
    assert s.log.settled + s.log.gap == s.log.settled;
  }

  // ---- Exactly when a cancelled message is passed over ----

  predicate SameProcess(run: seq<Step>) { Restart !in run }

  lemma {:induction false} NothingAfterClose(s: State, run: seq<Step>)
    requires ValidRun(s, run) && SameProcess(run) && s.stop == ChannelClosed && !Live(s)
    ensures After(s, run).committed == s.committed
    decreases |run|
  {
    if run != [] {
      assert run[0] in run && forall x :: x in run[1..] ==> x in run;
      NothingAfterClose(Apply(s, run[0]), run[1..]);
    }
  }

  lemma Prepend(s: State, step: Step, rest: seq<Step>)
    requires Enabled(s, step) && ValidRun(Apply(s, step), rest)
    ensures ValidRun(s, [step] + rest) && After(s, [step] + rest) == After(Apply(s, step), rest)
  {
    assert ([step] + rest)[1..] == rest;
  }

  /** The message in hand, handled and committed. */
  lemma FinishMessage(s: State, place: Place) returns (run: seq<Step>)
    requires s.counter == Handling(place) || (s.counter == Committing(place) && place in s.log.settled)
    ensures ValidRun(s, run) && SameProcess(run) && StopsAtOnce(run)
    ensures After(s, run) ==
            Settle(s, place).(counter := AtTop, committed := s.committed[place.partition := place.offset + 1])
  {
    run := [Commit(true)] + [];
    if s.counter.Handling? {
      Prepend(Apply(s, Handle(Settled)), Commit(true), []);
      Prepend(s, Handle(Settled), run);
      run := [Handle(Settled)] + run;
    } else {
      Prepend(s, Commit(true), []);
      assert s.log.settled + {place} == s.log.settled;
    }
  }

  /** One more message read and handled from the loop's top, while the channel is open. */
  lemma NextMessage(s: State, p: Partition) returns (run: seq<Step>)
    requires s.counter == AtTop && s.stop != ChannelClosed && p in s.position
    ensures ValidRun(s, run) && SameProcess(run) && StopsAtOnce(run)
    ensures After(s, run) ==
            Settle(Advanced(s, p), Place(p, s.position[p])).(
              counter := AtTop, committed := s.committed[p := s.position[p] + 1])
  {
    var place := Place(p, s.position[p]);
    var s1 := Apply(s, CheckStop);
    var s2 := Apply(s1, Read(p));
    run := FinishMessage(s2, place);
    assert s2.log.settled + {place} == s.log.settled + {place};
    Prepend(s1, Read(p), run);
    run := [Read(p)] + run;
    Prepend(s, CheckStop, run);
    run := [CheckStop] + run;
  }

  /** The same for a partition that has yet to be taken up. */
  lemma FirstMessage(s: State, p: Partition, at: nat) returns (run: seq<Step>)
    requires s.counter == AtTop && s.stop != ChannelClosed && Enabled(s, TakeUp(p, at))
    ensures ValidRun(s, run) && SameProcess(run) && StopsAtOnce(run)
    ensures var t := TakenUp(s, p, at);
            After(s, run) ==
            Settle(Advanced(t, p), Place(p, at)).(counter := AtTop, committed := s.committed[p := at + 1])
  {
    run := NextMessage(TakenUp(s, p, at), p);
    Prepend(s, TakeUp(p, at), run);
    run := [TakeUp(p, at)] + run;
  }

  /** A message given up by cancellation is at the loop's top, its offset not committed. Some
      continuation of the same process commits past it exactly when the stop channel is still open. */
  lemma PassedOverIffChannelOpen(s: State, place: Place)
    requires Inv(s) && s.counter == AtTop && place.partition in s.position
    requires OffsetIn(s.committed, place.partition) <= place.offset < s.position[place.partition]
    ensures (exists run :: ValidRun(s, run) && SameProcess(run) &&
               OffsetIn(After(s, run).committed, place.partition) > place.offset)
            <==> s.stop != ChannelClosed
  {
    if s.stop == ChannelClosed {
      forall run | ValidRun(s, run) && SameProcess(run)
        ensures OffsetIn(After(s, run).committed, place.partition) <= place.offset
      {
        NothingAfterClose(s, run);
      }
    } else {
      var run := NextMessage(s, place.partition);
      assert OffsetIn(After(s, run).committed, place.partition) > place.offset;
    }
  }

  /** Offset 0 of p was read and given up in the gap. */
  function GivenUpInGap(p: Partition): State {
    State({p.topic}, map[], map[p := 1], History(map[p := 1], map[p := 0], {}, {Place(p, 0)}, {}),
          AtTop, ContextCancelled, 0, true)
  }

  lemma GivenUpInGapReachable(p: Partition, tail: seq<Step>) returns (run: seq<Step>)
    requires ValidRun(GivenUpInGap(p), tail) && SameProcess(tail)
    ensures ValidRun(Init({p.topic}, map[]), run) && SameProcess(run)
    ensures After(Init({p.topic}, map[]), run) == After(GivenUpInGap(p), tail)
  {
    var s0 := Init({p.topic}, map[]);
    var s1 := Apply(s0, TakeUp(p, 0));
    assert s1.log == History(map[p := 0], map[p := 0], {}, {}, {});
    var s2 := Apply(s1, CheckStop);
    var s3 := Apply(s2, Read(p));
    assert s3.log == History(map[p := 1], map[p := 0], {}, {}, {}) && s3.counter == Handling(Place(p, 0));
    var s4 := Apply(s3, Cancel);
    assert Apply(s4, Handle(Cancelled)) == GivenUpInGap(p);
    Prepend(s4, Handle(Cancelled), tail);
    run := [Handle(Cancelled)] + tail;
    Prepend(s3, Cancel, run);
    run := [Cancel] + run;
    Prepend(s2, Read(p), run);
    run := [Read(p)] + run;
    Prepend(s1, CheckStop, run);
    run := [CheckStop] + run;
    Prepend(s0, TakeUp(p, 0), run);
    run := [TakeUp(p, 0)] + run;
  }

  /** A run that loses a message: cancelled in the gap, then passed over by the next one. */
  lemma GapLosesMessage(p: Partition)
    ensures exists run :: ValidRun(Init({p.topic}, map[]), run) && SameProcess(run) &&
              var s := After(Init({p.topic}, map[]), run);
              s.log.start == map[p := 0] && s.committed == map[p := 2] && Place(p, 0) !in s.log.settled
  {
    var tail := NextMessage(GivenUpInGap(p), p);
    var run := GivenUpInGapReachable(p, tail);
  }

  // ---- Exactly when a restart passes messages over ----

  /** A message of the history was read before, so the log reaches beyond it. */
  predicate WasSeen(s: State, x: Place) {
    x.partition in s.log.start && x.offset < OffsetIn(s.log.seen, x.partition)
  }

  /** Once the partition is taken up again, positions and commits lie above what was skipped. */
  predicate LiesBehind(s: State, x: Place) {
    && x.partition in s.log.start && s.log.start[x.partition] <= x.offset
    && (x.partition in s.position ==> x.offset < s.position[x.partition])
    && (x.partition in s.committed ==> x.offset < s.committed[x.partition])
  }

  /** How far the history sets reach. */
  ghost predicate Reach(s: State) {
    && NotBehind(s.log.start, s.log.seen) && NotBehind(s.position, s.log.seen)
    && (forall x :: x in s.log.settled ==> WasSeen(s, x))
    && (forall x :: x in s.log.gap ==> WasSeen(s, x))
    && (forall x :: x in s.log.skipped ==> WasSeen(s, x) && LiesBehind(s, x))
  }

  lemma TakenUpReach(s: State, p: Partition, at: nat)
    requires Inv(s) && Reach(s) && Enabled(s, TakeUp(p, at))
    ensures Reach(TakenUp(s, p, at))
  {
    var t := TakenUp(s, p, at);
    forall x | x in s.log.settled + s.log.gap ensures WasSeen(t, x) {
      assert WasSeen(s, x);
    }
    forall x | x in t.log.skipped ensures WasSeen(t, x) && LiesBehind(t, x) {
      if x in s.log.skipped {
        assert WasSeen(s, x) && LiesBehind(s, x);
      } else {
        UnsettledAre(p, s.log.start[p], at, s.log.settled, x);
      }
    }
  }

  lemma AdvancedReach(s: State, p: Partition)
    requires Inv(s) && Reach(s) && p in s.position
    ensures Reach(Advanced(s, p)) && WasSeen(Advanced(s, p), Place(p, s.position[p]))
  {
    var t := Advanced(s, p);
    forall x | x in s.log.settled + s.log.gap ensures WasSeen(t, x) {
      assert WasSeen(s, x);
    }
    forall x | x in t.log.skipped ensures WasSeen(t, x) && LiesBehind(t, x) {
      assert WasSeen(s, x) && LiesBehind(s, x);
    }
  }

  /** Settling or giving up a message that was read. */
  lemma HistoryReach(s: State, t: State, place: Place)
    requires Reach(s) && WasSeen(s, place) && t.committed == s.committed && t.position == s.position
    requires t.log == s.log.(settled := s.log.settled + {place}) || t.log == s.log.(gap := s.log.gap + {place})
    ensures Reach(t)
  {
    forall x | x in t.log.settled + t.log.gap ensures WasSeen(t, x) {
      assert x != place ==> WasSeen(s, x);
    }
    forall x | x in t.log.skipped ensures WasSeen(t, x) && LiesBehind(t, x) {
      assert WasSeen(s, x) && LiesBehind(s, x);
    }
  }

  /** Committing the position of a partition, or going back to the commits. */
  lemma OffsetsReach(s: State, t: State)
    requires Inv(s) && Reach(s) && t.log == s.log
    requires t.position == s.position || t.position == s.committed
    requires forall p :: p in t.committed && p !in s.committed ==> p in s.position
    requires forall p :: p in t.committed ==>
               (p in s.committed && t.committed[p] == s.committed[p]) || t.committed[p] == OffsetIn(s.position, p)
    ensures Reach(t)
  {
    forall x | x in t.log.settled + t.log.gap ensures WasSeen(t, x) {
      assert WasSeen(s, x);
    }
    forall x | x in t.log.skipped ensures WasSeen(t, x) && LiesBehind(t, x) {
      assert WasSeen(s, x) && LiesBehind(s, x);
    }
  }

  lemma ReadKeepsReach(s: State, p: Partition)
    requires Inv(s) && Reach(s) && Enabled(s, Read(p))
    ensures Reach(Apply(s, Read(p)))
  {
    AdvancedReach(s, p);
    if p.topic !in s.handlers {
      HistoryReach(Advanced(s, p), Apply(s, Read(p)), Place(p, s.position[p]));
    }
  }

  lemma HandleKeepsReach(s: State, o: Outcome)
    requires Inv(s) && Reach(s) && Enabled(s, Handle(o))
    ensures Reach(Apply(s, Handle(o)))
  {
    if o == Settled || s.stop != ChannelClosed {
      HistoryReach(s, Apply(s, Handle(o)), s.counter.place);
    }
  }

  lemma StepKeepsReach(s: State, step: Step)
    requires Inv(s) && Reach(s) && Enabled(s, step)
    ensures Reach(Apply(s, step))
  {
    match step
    case TakeUp(p, at) => TakenUpReach(s, p, at);
    case Read(p) => ReadKeepsReach(s, p);
    case Handle(o) => HandleKeepsReach(s, o);
    case _ => OffsetsReach(s, Apply(s, step));
  }

  lemma {:induction false} RunKeepsReach(s: State, run: seq<Step>)
    requires Inv(s) && Reach(s) && ValidRun(s, run)
    ensures Inv(After(s, run)) && Reach(After(s, run))
    decreases |run|
  {
    if run != [] {
      StepKeepsInv(s, run[0]);
      StepKeepsReach(s, run[0]);
      RunKeepsReach(Apply(s, run[0]), run[1..]);
    }
  }

  /** Some committed-past message of the partition was neither settled nor given up in the gap. */
  ghost predicate Loses(s: State, p: Partition) {
    exists x: Place :: x.partition == p && Between(s.log.start, x, s.committed) && x !in s.log.settled + s.log.gap
  }

  lemma StepSkipsElsewhere(s: State, step: Step, x: Place)
    requires Enabled(s, step) && step != Restart && x !in s.log.skipped
    requires x.partition in s.position || x.partition !in s.log.start
    ensures var t := Apply(s, step);
            x !in t.log.skipped && (x.partition in t.position || x.partition !in t.log.start)
  {
    if step.TakeUp? && step.partition in s.log.start {
      UnsettledAre(step.partition, s.log.start[step.partition], step.at, s.log.settled, x);
    }
  }

  /** A partition that this process has taken up, or that nobody has taken up before, is not skipped in. */
  lemma {:induction false} SkippedInStays(s: State, run: seq<Step>, x: Place)
    requires ValidRun(s, run) && SameProcess(run) && x !in s.log.skipped
    requires x.partition in s.position || x.partition !in s.log.start
    ensures x !in After(s, run).log.skipped
    decreases |run|
  {
    if run != [] {
      assert run[0] in run && forall y :: y in run[1..] ==> y in run;
      StepSkipsElsewhere(s, run[0], x);
      SkippedInStays(Apply(s, run[0]), run[1..], x);
    }
  }

  lemma StepGrows(s: State, step: Step)
    requires Enabled(s, step)
    ensures s.log.settled <= Apply(s, step).log.settled && s.log.gap <= Apply(s, step).log.gap
  {
  }

  lemma {:induction false} SetsGrow(s: State, run: seq<Step>)
    requires ValidRun(s, run)
    ensures s.log.settled <= After(s, run).log.settled && s.log.gap <= After(s, run).log.gap
    decreases |run|
  {
    if run != [] {
      StepGrows(s, run[0]);
      SetsGrow(Apply(s, run[0]), run[1..]);
    }
  }

  lemma CommittedStaysSafe(s: State, run: seq<Step>, p: Partition)
    requires Inv(s) && Reach(s) && !Loses(s, p) && (p in s.committed || p !in s.log.start)
    requires ValidRun(Apply(s, Restart), run) && SameProcess(run)
    ensures !Loses(After(Apply(s, Restart), run), p)
  {
    var t := Apply(s, Restart);
    var u := After(t, run);
    StepKeepsInv(s, Restart);
    RunKeepsInv(t, run);
    SetsGrow(t, run);
    forall x: Place | x.partition == p && Between(u.log.start, x, u.committed) ensures x in u.log.settled + u.log.gap {
      assert x in Accounted(u);
      if x in s.log.skipped {
        assert Between(s.log.start, x, s.committed);
      } else {
        SkippedInStays(t, run, x);
      }
    }
  }

  /** With the log's end moved on by one message, the next one read and committed loses it. */
  lemma UncommittedIsSkipped(s: State, p: Partition) returns (run: seq<Step>)
    requires Inv(s) && Reach(s) && p in s.log.start && p !in s.committed
    ensures ValidRun(Apply(s, Restart), run) && SameProcess(run) && StopsAtOnce(run)
    ensures Loses(After(Apply(s, Restart), run), p)
  {
    var t, end := Apply(s, Restart), s.log.seen[p];
    run := FirstMessage(t, p, end + 1);
    var u := After(t, run);
    var x := Place(p, end);
    assert Between(u.log.start, x, u.committed) && x !in u.log.settled + u.log.gap;
  }

  /** A process starts anew, and so far the commits of partition p lie above accounted messages only. Some
      continuation of the new process commits past a message of p that nobody handled or gave up if and
      only if p has been taken up before, read or not, and has no commit. */
  lemma RestartLosesIffUncommitted(
    handlers: set<string>, committed: map<Partition, nat>, before: seq<Step>, p: Partition)
    requires ValidRun(Init(handlers, committed), before)
    requires !Loses(After(Init(handlers, committed), before), p)
    ensures var s := After(Init(handlers, committed), before);
            (exists run ::
               ValidRun(Apply(s, Restart), run) && SameProcess(run) && Loses(After(Apply(s, Restart), run), p))
            <==> p in s.log.start && p !in s.committed
  {
    var s := After(Init(handlers, committed), before);
    RunKeepsReach(Init(handlers, committed), before);
    if p in s.log.start && p !in s.committed {
      var run := UncommittedIsSkipped(s, p);
    } else {
      forall run | ValidRun(Apply(s, Restart), run) && SameProcess(run)
        ensures !Loses(After(Apply(s, Restart), run), p)
      {
        CommittedStaysSafe(s, run, p);
      }
    }
  }

  /** A new process; the one before it took p up at offset 0, and the log is known to reach `seen`. */
  function TakenUpOnce(p: Partition, seen: nat): State {
    State({p.topic}, map[], map[], History(map[p := seen], map[p := 0], {}, {}, {}), AtTop, NotStopped, 0, true)
  }

  lemma GivenUpOnceReachable(p: Partition, tail: seq<Step>) returns (run: seq<Step>)
    requires ValidRun(TakenUpOnce(p, 1), tail) && StopsAtOnce(tail)
    ensures ValidRun(Init({p.topic}, map[]), run) && StopsAtOnce(run)
    ensures After(Init({p.topic}, map[]), run) == After(TakenUpOnce(p, 1), tail)
  {
    var s0 := Init({p.topic}, map[]);
    var s1 := Apply(s0, TakeUp(p, 0));
    assert s1.log == History(map[p := 0], map[p := 0], {}, {}, {});
    var s2 := Apply(s1, CheckStop);
    var s3 := Apply(s2, Read(p));
    assert s3.log == History(map[p := 1], map[p := 0], {}, {}, {}) && s3.counter == Handling(Place(p, 0));
    var s4 := Apply(s3, CancelAndClose);
    var s5 := Apply(s4, Handle(Cancelled));
    assert Apply(s5, Restart) == TakenUpOnce(p, 1);
    Prepend(s5, Restart, tail);
    run := [Restart] + tail;
    Prepend(s4, Handle(Cancelled), run);
    run := [Handle(Cancelled)] + run;
    Prepend(s3, CancelAndClose, run);
    run := [CancelAndClose] + run;
    Prepend(s2, Read(p), run);
    run := [Read(p)] + run;
    Prepend(s1, CheckStop, run);
    run := [CheckStop] + run;
    Prepend(s0, TakeUp(p, 0), run);
    run := [TakeUp(p, 0)] + run;
  }

  /** A run with an atomic stop that loses two messages: the first of a partition is cancelled, the second
      arrives while no process is there, and the new process starts behind both. */
  lemma LatestLosesMessages(p: Partition)
    ensures exists run :: ValidRun(Init({p.topic}, map[]), run) && StopsAtOnce(run) &&
              var s := After(Init({p.topic}, map[]), run);
              s.log.start == map[p := 0] && s.committed == map[p := 3] && s.log.settled == {Place(p, 2)}
  {
    var tail := FirstMessage(TakenUpOnce(p, 1), p, 2);
    assert {} + {Place(p, 2)} == {Place(p, 2)};
    var run := GivenUpOnceReachable(p, tail);
  }

  /** A run that loses a message nobody stopped for: a partition is taken up and not read before the process
      crashes, and the next process takes it up behind the message that arrived meanwhile. */
  lemma UnreadLosesMessage(p: Partition)
    ensures exists run :: ValidRun(Init({p.topic}, map[]), run) && StopsAtOnce(run) &&
              var s := After(Init({p.topic}, map[]), run);
              s.log.start == map[p := 0] && s.committed == map[p := 2] && s.log.settled == {Place(p, 1)} &&
              s.log.gap == {} && s.log.skipped == {Place(p, 0)}
  {
    var s0 := Init({p.topic}, map[]);
    var s1 := Apply(s0, TakeUp(p, 0));
    assert s1.log == History(map[p := 0], map[p := 0], {}, {}, {});
    assert Apply(s1, Restart) == TakenUpOnce(p, 0);
    var tail := FirstMessage(TakenUpOnce(p, 0), p, 1);
    assert {} + {Place(p, 1)} == {Place(p, 1)};
    assert Unsettled(p, 0, 0, {}) == {};
    assert Unsettled(p, 0, 1, {}) == {Place(p, 0)};
    Prepend(s1, Restart, tail);
    Prepend(s0, TakeUp(p, 0), [Restart] + tail);
  }

  // ---- Health ----

  /** Connection errors since the last message was read, counting on from acc. */
  function Streak(run: seq<Step>, acc: nat): nat {
    if run == [] then acc
    else match run[0]
      case ReadFails(ConnectionError) => Streak(run[1..], acc + 1)
      case Read(_) => Streak(run[1..], 0)
      case Restart => Streak(run[1..], 0)
      case _ => Streak(run[1..], acc)
  }

  ghost predicate HealthInv(s: State) {
    && (s.healthy <==> s.counter != Exited)
    && (s.counter == Exited <==> s.errors > CONNECTION_ERROR_LIMIT || (s.counter == Exited && s.stop == ChannelClosed))
    && s.errors <= CONNECTION_ERROR_LIMIT + 1
  }

  lemma {:induction false} HealthFollowsErrors(s: State, run: seq<Step>)
    requires ValidRun(s, run) && HealthInv(s)
    ensures HealthInv(After(s, run)) && After(s, run).errors == Streak(run, s.errors)
    decreases |run|
  {
    if run != [] {
      HealthFollowsErrors(Apply(s, run[0]), run[1..]);
    }
  }

  /** The consumer is reported unhealthy exactly when its loop has ended, and it ends only after the stop
      channel was closed or on the eleventh connection error without a message read in between;
      time-outs and other errors count neither way. */
  lemma UnhealthyExactlyWhenLoopEnded(handlers: set<string>, committed: map<Partition, nat>, run: seq<Step>)
    requires ValidRun(Init(handlers, committed), run)
    ensures var s := After(Init(handlers, committed), run);
            (s.healthy <==> s.counter != Exited) &&
            (Streak(run, 0) > CONNECTION_ERROR_LIMIT ==> !s.healthy) &&
            (!s.healthy ==> Streak(run, 0) == CONNECTION_ERROR_LIMIT + 1 || s.stop == ChannelClosed)
  {
    HealthFollowsErrors(Init(handlers, committed), run);
  }
}
