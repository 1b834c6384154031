/** The consumer object: its loop, written out, proved to follow the protocol of KafkaConsumer
    (internal/api/kafka_service.go). */
module KafkaService {
  import opened Events
  import opened KafkaConsumer

  lemma {:induction false} ExtendRun(s: State, run: seq<Step>, step: Step)
    requires ValidRun(s, run) && Enabled(After(s, run), step)
    ensures ValidRun(s, run + [step]) && After(s, run + [step]) == Apply(After(s, run), step)
    decreases |run|
  {
    if run == [] {
      assert [step][1..] == [];
    } else {
      ExtendRun(Apply(s, run[0]), run[1..], step);
      assert (run + [step])[1..] == run[1..] + [step];
    }
  }

  datatype ReadAnswer = Failed(e: ReadError) | Got(from: Assignment)

  /** A partition and the log's end at which it begins, should it have no position yet. */
  datatype Assignment = Assignment(partition: Partition, at: nat)

  /** What happens around one turn of the loop: partitions assigned and stop steps before the check, the
      answer to the read, the handler's answers and stop steps while handling, the answer to the commit. */
  datatype Turn = Turn(
    taken: seq<Assignment>, stopsBefore: nat, read: ReadAnswer, answers: Answers, stopsWhile: nat, commitOk: bool)

  /** Where a StopConsuming stands n steps later. */
  function StopAfter(stop: StopPhase, n: nat): StopPhase {
    if n == 0 || stop == ChannelClosed then stop
    else if n == 1 && stop == NotStopped then ContextCancelled
    else ChannelClosed
  }

  lemma StopTwice(stop: StopPhase, m: nat, n: nat)
    ensures StopAfter(StopAfter(stop, m), n) == StopAfter(stop, m + n)
  {
  }

  /** A turn without anything to stop, fail or refuse: a message or a poll that times out. */
  predicate Calm(turn: Turn) {
    turn.stopsBefore == 0 && turn.stopsWhile == 0 && turn.commitOk && turn.read != Failed(ConnectionError)
  }

  /** Messages of a partition that a script delivers. */
  function Messages(script: seq<Turn>, p: Partition): nat {
    if script == [] then 0
    else (if script[0].read.Got? && script[0].read.from.partition == p then 1 else 0) + Messages(script[1..], p)
  }

  lemma {:induction false} OneMoreMessage(script: seq<Turn>, turn: Turn, p: Partition)
    ensures Messages(script + [turn], p) ==
            Messages(script, p) + if turn.read.Got? && turn.read.from.partition == p then 1 else 0
  {
    if script == [] {
      assert [turn][1..] == [];
    } else {
      OneMoreMessage(script[1..], turn, p);
      assert (script + [turn])[1..] == script[1..] + [turn];
    }
  }

  lemma GatedWait(a: Answers, stopped: bool)
    ensures var gated := a.(cancelled := (k: nat) => stopped && a.cancelled(k));
            (WaitCancelled(gated) <==> stopped && WaitCancelled(a)) && (Succeeds(gated) <==> Succeeds(a))
  {
    var gated := a.(cancelled := (k: nat) => stopped && a.cancelled(k));
    if k: nat :| k <= 3 && a.result(k) == Success && forall j: nat :: j < k ==> a.result(j) == Transient {
      assert gated.result(k) == Success;
    }
    if stopped && WaitCancelled(a) {
      var k: nat :| 1 <= k <= 3 && a.cancelled(k) && forall j: nat :: j < k ==> a.result(j) == Transient;
      assert gated.cancelled(k);
    }
  }

  /** Why a message counts as settled: no handler, a dead-letter attempt, or a success of the handler. */
  ghost predicate Answered(
    handlers: set<string>, deadLetters: seq<(Place, DlqResult)>, script: seq<Turn>, x: Place)
  {
    || x.partition.topic !in handlers
    || (exists d :: d in deadLetters && d.0 == x)
    || (exists turn :: turn in script && turn.read.Got? && turn.read.from.partition == x.partition &&
                       Succeeds(turn.answers))
  }

  ghost predicate AllAnswered(
    handlers: set<string>, settled0: set<Place>, settled: set<Place>, deadLetters: seq<(Place, DlqResult)>,
    script: seq<Turn>)
  {
    forall x :: x in settled && x !in settled0 ==> Answered(handlers, deadLetters, script, x)
  }

  ghost predicate AllCalm(script: seq<Turn>) {
    forall turn :: turn in script ==> Calm(turn)
  }

  /** A partition with a position, after so many of its messages and no disturbance. */
  ghost predicate ReadOn(
    from: nat, p: Partition, messages: nat, position: map<Partition, nat>, committed: map<Partition, nat>,
    settled: set<Place>)
  {
    && p in position && position[p] == from + messages
    && (messages > 0 ==> p in committed && committed[p] == position[p])
    && (forall o: nat :: from <= o < position[p] ==> Place(p, o) in settled)
  }

  ghost predicate AllRead(
    position0: map<Partition, nat>, position: map<Partition, nat>, committed: map<Partition, nat>,
    settled: set<Place>, script: seq<Turn>)
  {
    forall p :: p in position0 ==> ReadOn(position0[p], p, Messages(script, p), position, committed, settled)
  }

  datatype Values = Values(
    position: map<Partition, nat>, committed: map<Partition, nat>, settled: set<Place>,
    deadLetters: seq<(Place, DlqResult)>)

  lemma AnsweredStep(
    handlers: set<string>, settled0: set<Place>, script: seq<Turn>, turn: Turn, before: Values, after: Values)
    requires AllAnswered(handlers, settled0, before.settled, before.deadLetters, script) && turn in script
    requires forall d :: d in before.deadLetters ==> d in after.deadLetters
    requires forall x :: x in after.settled && x !in before.settled ==>
               x.partition.topic !in handlers || (exists d :: d in after.deadLetters && d.0 == x) ||
               (turn.read.Got? && turn.read.from.partition == x.partition && Succeeds(turn.answers))
    ensures AllAnswered(handlers, settled0, after.settled, after.deadLetters, script)
  {
    forall x | x in after.settled && x !in settled0 ensures Answered(handlers, after.deadLetters, script, x) {
      if x in before.settled {
        assert Answered(handlers, before.deadLetters, script, x);
      }
    }
  }

  lemma ReadStep(position0: map<Partition, nat>, script: seq<Turn>, turn: Turn, before: Values, after: Values)
    requires AllRead(position0, before.position, before.committed, before.settled, script)
    requires before.settled <= after.settled && before.position.Keys <= after.position.Keys
    requires forall p :: p in before.position && !(turn.read.Got? && turn.read.from.partition == p) ==>
               after.position[p] == before.position[p] &&
               (p in before.committed ==> p in after.committed && after.committed[p] == before.committed[p])
    requires turn.read.Got? && turn.read.from.partition in before.position ==>
               var p := turn.read.from.partition;
               after.position[p] == before.position[p] + 1 && Place(p, before.position[p]) in after.settled &&
               p in after.committed && after.committed[p] == after.position[p]
    ensures AllRead(position0, after.position, after.committed, after.settled, script + [turn])
  {
    forall p | p in position0
      ensures ReadOn(position0[p], p, Messages(script + [turn], p), after.position, after.committed, after.settled)
    {
      OneMoreMessage(script, turn, p);
      assert ReadOn(position0[p], p, Messages(script, p), before.position, before.committed, before.settled);
    }
  }

  class Service {
    const handlers: set<string>
    var committed: map<Partition, nat>
    var position: map<Partition, nat>
    var stop: StopPhase
    var connectionErrCount: nat
    var healthy: bool
    var deadLetters: seq<(Place, DlqResult)>   // dead-letter attempts and how they ended
    ghost var log: History
    ghost var counter: Counter

    ghost function Abs(): State
      reads this
    {
      State(handlers, committed, position, log, counter, stop, connectionErrCount, healthy)
    }

    /** The log of a partition without a position reaches at least as far as is known. */
    ghost predicate Plausible(a: Assignment)
      reads this
    {
      a.partition in position || a.at >= OffsetIn(log.seen, a.partition)
    }

    ghost predicate PlausibleTurn(turn: Turn)
      reads this
    {
      (forall a :: a in turn.taken ==> Plausible(a)) && (turn.read.Got? ==> Plausible(turn.read.from))
    }

    /** Positions are only added, and only partitions with a position become known better. */
    twostate predicate Progress()
      reads this
    {
      old(position).Keys <= position.Keys &&
      forall p :: p !in position ==> OffsetIn(log.seen, p) == OffsetIn(old(log.seen), p)
    }

    /** No message has come to anything. */
    twostate predicate Untouched()
      reads this
    {
      committed == old(committed) && log.settled == old(log.settled) && log.gap == old(log.gap) &&
      deadLetters == old(deadLetters)
    }

    /** What a message comes to, with so many steps of StopConsuming before it was read. Without a handler it
        is settled at once. With one, it is given up when the service is stopping and a wait of the handler is
        cancelled: then nothing is committed or sent, and the message falls into the gap if the channel is still
        open. Otherwise it is settled, by a success or by one dead-letter attempt. A settled message is committed
        if the broker accepts. */
    twostate predicate Concluded(place: Place, turn: Turn, before: nat)
      reads this
    {
      var handled := place.partition.topic in handlers;
      var givenUp := handled && stop != NotStopped && WaitCancelled(turn.answers);
      && stop == StopAfter(old(stop), before + if handled then turn.stopsWhile else 0)
      && log.settled == old(log.settled) + (if givenUp then {} else {place})
      && log.gap == old(log.gap) + (if givenUp && stop != ChannelClosed then {place} else {})
      && committed == (if !givenUp && turn.commitOk then old(committed)[place.partition := place.offset + 1]
                       else old(committed))
      && deadLetters == old(deadLetters) +
                        (if handled && !givenUp && !Succeeds(turn.answers) then [(place, turn.answers.dlq)] else [])
    }

    constructor (handlers: set<string>, committed: map<Partition, nat>)
      ensures Abs() == Init(handlers, committed) && deadLetters == []
    {
      this.handlers, this.committed, position := handlers, committed, committed;
      stop, connectionErrCount, healthy, deadLetters := NotStopped, 0, true, [];
      log, counter := History(committed, committed, {}, {}, {}), AtTop;
    }

    /** The next steps of a StopConsuming running beside the loop. */
    method StopSteps(n: nat, ghost s: State, ghost run: seq<Step>) returns (ghost run': seq<Step>)
      requires ValidRun(s, run) && Abs() == After(s, run)
      modifies this`stop
      ensures ValidRun(s, run') && Abs() == After(s, run')
      ensures stop == StopAfter(old(stop), n)
    {
      run' := run;
      var left := n;
      if left > 0 && stop == NotStopped {
        ExtendRun(s, run', Cancel);
        run' := run' + [Cancel];
        stop := ContextCancelled;
        left := left - 1;
      }
      if left > 0 && stop == ContextCancelled {
        ExtendRun(s, run', CloseChannel);
        run' := run' + [CloseChannel];
        stop := ChannelClosed;
      }
    }

    /** One message: retries, then the commit unless the processing was cancelled. */
    method Process(place: Place, turn: Turn, ghost s: State, ghost run: seq<Step>) returns (ghost run': seq<Step>)
      requires ValidRun(s, run) && Abs() == After(s, run) && counter == Handling(place)
      requires place.partition.topic in handlers
      modifies this`stop, this`log, this`counter, this`committed, this`deadLetters
      ensures log.seen == old(log.seen)
      ensures ValidRun(s, run') && Abs() == After(s, run') && counter == AtTop
      ensures Concluded(place, turn, 0)
    {
      run' := StopSteps(turn.stopsWhile, s, run);
      var stopped := stop != NotStopped;
      GatedWait(turn.answers, stopped);
      var success, calls, dlq :=
        HandleWithRetry(turn.answers.(cancelled := (k: nat) => stopped && turn.answers.cancelled(k)));
      if dlq != [] {
        deadLetters := deadLetters + [(place, dlq[0])];
      }
      if success {
        run' := SettleMessage(place, turn.commitOk, s, run');
      } else {
        run' := GiveUpMessage(place, s, run');
      }
    }

    method SettleMessage(place: Place, commitOk: bool, ghost s: State, ghost run: seq<Step>)
      returns (ghost run': seq<Step>)
      requires ValidRun(s, run) && Abs() == After(s, run) && counter == Handling(place)
      modifies this`log, this`counter, this`committed
      ensures ValidRun(s, run') && Abs() == After(s, run') && counter == AtTop
      ensures log == old(log).(settled := old(log).settled + {place})
      ensures committed == if commitOk then old(committed)[place.partition := place.offset + 1] else old(committed)
    {
      ExtendRun(s, run, Handle(Settled));
      run' := run + [Handle(Settled)];
      log, counter := log.(settled := log.settled + {place}), Committing(place);
      run' := CommitOffset(place, commitOk, s, run');
    }

    method GiveUpMessage(place: Place, ghost s: State, ghost run: seq<Step>) returns (ghost run': seq<Step>)
      requires ValidRun(s, run) && Abs() == After(s, run) && counter == Handling(place) && stop != NotStopped
      modifies this`log, this`counter
      ensures ValidRun(s, run') && Abs() == After(s, run') && counter == AtTop
      ensures log == if stop == ChannelClosed then old(log) else old(log).(gap := old(log).gap + {place})
    {
      ExtendRun(s, run, Handle(Cancelled));
      run' := run + [Handle(Cancelled)];
      counter := AtTop;
      if stop != ChannelClosed {
        log := log.(gap := log.gap + {place});
      }
    }

    /** A refused commit is only logged. */
    method CommitOffset(place: Place, ok: bool, ghost s: State, ghost run: seq<Step>) returns (ghost run': seq<Step>)
      requires ValidRun(s, run) && Abs() == After(s, run) && counter == Committing(place)
      modifies this`committed, this`counter
      ensures ValidRun(s, run') && Abs() == After(s, run') && counter == AtTop
      ensures committed == if ok then old(committed)[place.partition := place.offset + 1] else old(committed)
    {
      ExtendRun(s, run, Commit(ok));
      run' := run + [Commit(ok)];
      if ok {
        committed := committed[place.partition := place.offset + 1];
      }
      counter := AtTop;
    }

    /** The error branch of a turn: only connection errors are counted, and the eleventh ends the loop. */
    method ReadFailed(e: ReadError, ghost s: State, ghost run: seq<Step>)
      returns (ended: bool, ghost run': seq<Step>)
      requires ValidRun(s, run) && Abs() == After(s, run) && counter == Reading
      modifies this`connectionErrCount, this`healthy, this`counter
      ensures ValidRun(s, run') && Abs() == After(s, run') && counter == if ended then Exited else AtTop
      ensures connectionErrCount == old(connectionErrCount) + if e == ConnectionError then 1 else 0
      ensures ended <==> e == ConnectionError && old(connectionErrCount) >= 10
      ensures healthy == (old(healthy) && !ended)
    {
      ExtendRun(s, run, ReadFails(e));
      run' := run + [ReadFails(e)];
      ended, counter := false, AtTop;
      if e == ConnectionError {
        connectionErrCount := connectionErrCount + 1;
        if connectionErrCount > CONNECTION_ERROR_LIMIT {
          ended, counter, healthy := true, Exited, false;
        }
      }
    }

    /** The broker's assignment: a partition with a position keeps it. */
    method TakeUpPartition(a: Assignment, ghost s: State, ghost run: seq<Step>) returns (ghost run': seq<Step>)
      requires ValidRun(s, run) && Abs() == After(s, run) && Plausible(a)
      modifies this`position, this`log
      ensures ValidRun(s, run') && Abs() == After(s, run') && Progress()
      ensures position == if a.partition in old(position) then old(position) else old(position)[a.partition := a.at]
      ensures log.settled == old(log.settled) && log.gap == old(log.gap)
    {
      run' := run;
      if a.partition !in position {
        ExtendRun(s, run, TakeUp(a.partition, a.at));
        run' := run + [TakeUp(a.partition, a.at)];
        log := TakenUp(Abs(), a.partition, a.at).log;
        position := position[a.partition := a.at];
      }
    }

    method TakeUpAll(taken: seq<Assignment>, ghost s: State, ghost run: seq<Step>) returns (ghost run': seq<Step>)
      requires ValidRun(s, run) && Abs() == After(s, run) && forall a :: a in taken ==> Plausible(a)
      modifies this`position, this`log
      ensures ValidRun(s, run') && Abs() == After(s, run') && Progress()
      ensures forall p :: p in old(position) ==> position[p] == old(position)[p]
      ensures forall a :: a in taken ==> a.partition in position
      ensures log.settled == old(log.settled) && log.gap == old(log.gap)
    {
      run' := run;
      for i := 0 to |taken|
        invariant ValidRun(s, run') && Abs() == After(s, run') && Progress()
        invariant forall p :: p in old(position) ==> position[p] == old(position)[p]
        invariant forall j :: 0 <= j < i ==> taken[j].partition in position
        invariant log.settled == old(log.settled) && log.gap == old(log.gap)
      {
        assert old(Plausible(taken[i]));
        run' := TakeUpPartition(taken[i], s, run');
      }
    }

    /** The message branch of a turn. */
    method MessageRead(from: Assignment, turn: Turn, ghost s: State, ghost run: seq<Step>)
      returns (place: Place, ghost run': seq<Step>)
      requires ValidRun(s, run) && Abs() == After(s, run) && counter == Reading && Plausible(from)
      modifies this
      ensures ValidRun(s, run') && Abs() == After(s, run') && counter == AtTop && Progress()
      ensures place == Place(from.partition,
                             if from.partition in old(position) then old(position)[from.partition] else from.at)
      ensures position == old(position)[from.partition := place.offset + 1]
      ensures connectionErrCount == 0 && healthy == old(healthy) && Concluded(place, turn, 0)
    {
      run' := TakeUpPartition(from, s, run);
      place, run' := Deliver(from.partition, turn, s, run');
    }

    /** ReadMessage with a message: the error count starts anew and the position moves on. */
    method Fetch(p: Partition, ghost s: State, ghost run: seq<Step>) returns (place: Place, ghost run': seq<Step>)
      requires ValidRun(s, run) && Abs() == After(s, run) && counter == Reading && p in position
      modifies this`connectionErrCount, this`position, this`log, this`counter
      ensures ValidRun(s, run') && Abs() == After(s, run') && Progress()
      ensures place == Place(p, old(position)[p]) && position == old(position)[p := place.offset + 1]
      ensures connectionErrCount == 0 && log.gap == old(log.gap)
      ensures counter == if p.topic in handlers then Handling(place) else Committing(place)
      ensures log.settled == old(log.settled) + if p.topic in handlers then {} else {place}
    {
      ExtendRun(s, run, Read(p));
      run' := run + [Read(p)];
      place := Place(p, position[p]);
      ghost var after := AfterRead(Abs(), p);
      connectionErrCount, position := 0, position[p := place.offset + 1];
      log, counter := after.log, after.counter;
    }

    /** The next message of a partition: unhandled topics are committed, others processed. */
    method Deliver(p: Partition, turn: Turn, ghost s: State, ghost run: seq<Step>)
      returns (place: Place, ghost run': seq<Step>)
      requires ValidRun(s, run) && Abs() == After(s, run) && counter == Reading && p in position
      modifies this
      ensures ValidRun(s, run') && Abs() == After(s, run') && counter == AtTop && Progress()
      ensures place == Place(p, old(position)[p]) && position == old(position)[p := place.offset + 1]
      ensures connectionErrCount == 0 && healthy == old(healthy) && Concluded(place, turn, 0)
    {
      place, run' := Fetch(p, s, run);
      if p.topic !in handlers {
        run' := CommitOffset(place, turn.commitOk, s, run');
      } else {
        run' := Process(place, turn, s, run');
      }
    }

    /** The top of the loop: partitions are assigned, and the loop ends if the channel is closed. */
    method CheckStopChannel(turn: Turn, ghost s: State, ghost run: seq<Step>)
      returns (ended: bool, ghost run': seq<Step>)
      requires ValidRun(s, run) && Abs() == After(s, run) && counter == AtTop
      requires forall a :: a in turn.taken ==> Plausible(a)
      modifies this`position, this`log, this`stop, this`counter, this`healthy
      ensures ValidRun(s, run') && Abs() == After(s, run') && Progress() && Untouched()
      ensures stop == StopAfter(old(stop), turn.stopsBefore)
      ensures ended <==> stop == ChannelClosed
      ensures counter == (if ended then Exited else Reading) && healthy == (old(healthy) && !ended)
      ensures forall p :: p in old(position) ==> position[p] == old(position)[p]
    {
      run' := TakeUpAll(turn.taken, s, run);
      run' := StopSteps(turn.stopsBefore, s, run');
      ExtendRun(s, run', CheckStop);
      run' := run' + [CheckStop];
      ended := stop == ChannelClosed;
      if ended {
        counter, healthy := Exited, false;
      } else {
        counter := Reading;
      }
    }

    /** The rest of a turn, with so many stop steps behind it. */
    method ReadNext(turn: Turn, ghost s: State, ghost run: seq<Step>) returns (ended: bool, ghost run': seq<Step>)
      requires ValidRun(s, run) && Abs() == After(s, run) && counter == Reading
      requires turn.read.Got? ==> Plausible(turn.read.from)
      modifies this
      ensures ValidRun(s, run') && Abs() == After(s, run') && Progress()
      ensures counter == if ended then Exited else AtTop
      ensures turn.read.Failed? ==>
                Untouched() && stop == old(stop) && position == old(position) &&
                connectionErrCount == old(connectionErrCount) + (if turn.read.e == ConnectionError then 1 else 0) &&
                (ended <==> turn.read.e == ConnectionError && old(connectionErrCount) >= 10) &&
                healthy == (old(healthy) && !ended)
      ensures turn.read.Got? ==>
                var p := turn.read.from.partition;
                !ended && healthy == old(healthy) && connectionErrCount == 0 &&
                p in position && position[p] > 0 && (p in old(position) ==> position[p] == old(position)[p] + 1) &&
                Concluded(Place(p, position[p] - 1), turn, 0)
      ensures forall p :: p in old(position) && !(turn.read.Got? && turn.read.from.partition == p) ==>
                position[p] == old(position)[p]
    {
      ended := false;
      match turn.read {
        case Failed(e) => ended, run' := ReadFailed(e, s, run);
        case Got(from) =>
          var place;
          place, run' := MessageRead(from, turn, s, run);
      }
    }

    /** One turn of the loop: nothing more with the channel closed; else a failed read changes at most the
        error count and the health; else the next message of the partition is read and concluded. */
    method OneTurn(turn: Turn, ghost s: State, ghost run: seq<Step>) returns (ended: bool, ghost run': seq<Step>)
      requires ValidRun(s, run) && Abs() == After(s, run) && counter == AtTop && PlausibleTurn(turn)
      modifies this
      ensures ValidRun(s, run') && Abs() == After(s, run') && Progress()
      ensures counter == if ended then Exited else AtTop
      ensures StopAfter(old(stop), turn.stopsBefore) == ChannelClosed ==> ended && !healthy && Untouched()
      ensures StopAfter(old(stop), turn.stopsBefore) != ChannelClosed && turn.read.Failed? ==>
                Untouched() && stop == StopAfter(old(stop), turn.stopsBefore) &&
                connectionErrCount == old(connectionErrCount) + (if turn.read.e == ConnectionError then 1 else 0) &&
                (ended <==> turn.read.e == ConnectionError && old(connectionErrCount) >= 10) &&
                healthy == (old(healthy) && !ended)
      ensures StopAfter(old(stop), turn.stopsBefore) != ChannelClosed && turn.read.Got? ==>
                var p := turn.read.from.partition;
                !ended && healthy == old(healthy) && connectionErrCount == 0 &&
                p in position && position[p] > 0 && (p in old(position) ==> position[p] == old(position)[p] + 1) &&
                Concluded(Place(p, position[p] - 1), turn, turn.stopsBefore)
      ensures forall p :: p in old(position) && !(turn.read.Got? && turn.read.from.partition == p) ==>
                position[p] == old(position)[p]
    {
      ended, run' := CheckStopChannel(turn, s, run);
      if !ended {
        StopTwice(old(stop), turn.stopsBefore, turn.stopsWhile);
        ended, run' := ReadNext(turn, s, run');
      }
    }

    /** What a turn adds to the account of a script. */
    method TurnOf(
      script: seq<Turn>, i: nat, ghost s: State, ghost run: seq<Step>, ghost position0: map<Partition, nat>,
      ghost settled0: set<Place>)
      returns (ended: bool, ghost run': seq<Step>)
      requires i < |script| && PlausibleTurn(script[i])
      requires ValidRun(s, run) && Abs() == After(s, run) && counter == AtTop
      requires AllAnswered(handlers, settled0, log.settled, deadLetters, script)
      modifies this
      ensures ValidRun(s, run') && Abs() == After(s, run') && Progress()
      ensures counter == if ended then Exited else AtTop
      ensures AllAnswered(handlers, settled0, log.settled, deadLetters, script)
      ensures AllCalm(script) && old(stop) == NotStopped ==>
                !ended && stop == NotStopped && healthy == old(healthy) &&
                (AllRead(position0, old(position), old(committed), old(log.settled), script[..i]) ==>
                   AllRead(position0, position, committed, log.settled, script[..i + 1]))
    {
      var turn := script[i];
      ghost var before := Values(position, committed, log.settled, deadLetters);
      ended, run' := OneTurn(turn, s, run);
      ghost var after := Values(position, committed, log.settled, deadLetters);
      AnsweredStep(handlers, settled0, script, turn, before, after);
      if AllCalm(script) && old(stop) == NotStopped {
        assert Calm(turn);
        assert script[..i + 1] == script[..i] + [turn];
        if AllRead(position0, before.position, before.committed, before.settled, script[..i]) {
          ReadStep(position0, script[..i], turn, before, after);
        }
      }
    }

    /** The loop, for as many turns as the script has. Its every execution is a run of the protocol, so
        what is proved of all runs holds of it. Without topics or a subscription it never starts and
        stays reported healthy. Whatever happens, every message settled had no handler, a dead-letter
        attempt or a success; and through calm turns every message delivered is settled and committed. */
    method ConsumeEvents(subscribed: bool, script: seq<Turn>) returns (ghost run: seq<Step>)
      requires counter == AtTop && forall turn :: turn in script ==> PlausibleTurn(turn)
      modifies this
      ensures ValidRun(old(Abs()), run) && Abs() == After(old(Abs()), run)
      ensures handlers == {} || !subscribed ==> run == []
      ensures AllAnswered(handlers, old(log.settled), log.settled, deadLetters, script)
      ensures handlers != {} && subscribed && old(stop) == NotStopped && AllCalm(script) ==>
                counter == AtTop && stop == NotStopped && healthy == old(healthy) &&
                AllRead(old(position), position, committed, log.settled, script)
    {
      ghost var s := Abs();
      run := [];
      if handlers == {} || !subscribed {
        return;
      }
      var i := 0;
      while i < |script|
        invariant i <= |script| && counter == AtTop && Progress()
        invariant ValidRun(s, run) && Abs() == After(s, run)
        invariant AllAnswered(handlers, old(log.settled), log.settled, deadLetters, script)
        invariant old(stop) == NotStopped && AllCalm(script) ==>
                    stop == NotStopped && healthy == old(healthy) &&
                    AllRead(old(position), position, committed, log.settled, script[..i])
      {
        assert old(PlausibleTurn(script[i]));
        var ended;
        ended, run := TurnOf(script, i, s, run, old(position), old(log.settled));
        if ended {
          return;
        }
        i := i + 1;
      }
      assert script[..i] == script;
    }
  }
}
