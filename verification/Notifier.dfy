/** The Telegram notifier's queue under concurrent enqueue, worker and Stop
    (internal/infrastructure/adapters/telegram/notifier.go). */
module Notifier {

  const QUEUE_SIZE := 100

  /** Who holds stopMu. An enqueue has either just taken it or has read stopped = false. */
  datatype Holder = Free | Entered(text: string) | Cleared(text: string) | Stopper

  datatype WorkerState = Waiting | Sending(text: string) | Exited

  datatype StopPhase = NotStopped | Locked | FlagSet | Unlocked | Closed | Returned

  datatype State = State(
    queue: seq<string>, closed: bool, stopped: bool, holder: Holder, worker: WorkerState, stop: StopPhase,
    accepted: seq<string>,   // messages put in the queue, in order
    handed: seq<string>,     // messages given to sendMessage, in order
    panicked: bool)          // a send on the closed channel

  datatype Step =
    | Enter(text: string) | CheckStopped | TrySend
    | StopLock | SetStopped | StopUnlock | CloseQueue | StopReturns
    | Receive | SendDone | WorkerExits

  function Init(): State {
    State([], false, false, Free, Waiting, NotStopped, [], [], false)
  }

  predicate Enabled(s: State, step: Step) {
    match step
    case Enter(_) => s.holder == Free
    case CheckStopped => s.holder.Entered?
    case TrySend => s.holder.Cleared?
    case StopLock => s.stop == NotStopped && s.holder == Free
    case SetStopped => s.stop == Locked
    case StopUnlock => s.stop == FlagSet
    case CloseQueue => s.stop == Unlocked
    case StopReturns => s.stop == Closed && s.worker == Exited
    case Receive => s.worker == Waiting && s.queue != []
    case SendDone => s.worker.Sending?
    case WorkerExits => s.worker == Waiting && s.closed && s.queue == []
  }

  function Apply(s: State, step: Step): State
    requires Enabled(s, step)
  {
    match step
    case Enter(text) => s.(holder := Entered(text))
    case CheckStopped => s.(holder := if s.stopped then Free else Cleared(s.holder.text))
    case TrySend =>
      if s.closed then s.(holder := Free, panicked := true)
      else if |s.queue| < QUEUE_SIZE
      then s.(holder := Free, queue := s.queue + [s.holder.text], accepted := s.accepted + [s.holder.text])
      else s.(holder := Free)
    case StopLock => s.(holder := Stopper, stop := Locked)
    case SetStopped => s.(stopped := true, stop := FlagSet)
    case StopUnlock => s.(holder := Free, stop := Unlocked)
    case CloseQueue => s.(closed := true, stop := Closed)
    case StopReturns => s.(stop := Returned)
    case Receive => s.(queue := s.queue[1..], worker := Sending(s.queue[0]), handed := s.handed + [s.queue[0]])
    case SendDone => s.(worker := Waiting)
    case WorkerExits => s.(worker := Exited)
  }

  predicate ValidRun(s: State, run: seq<Step>)
    decreases |run|
  {
    run == [] || (Enabled(s, run[0]) && ValidRun(Apply(s, run[0]), run[1..]))
  }

  function After(s: State, run: seq<Step>): State
    requires ValidRun(s, run)
    decreases |run|
  {
    if run == [] then s else After(Apply(s, run[0]), run[1..])
  }

  ghost predicate Inv(s: State) {
    && !s.panicked
    && |s.queue| <= QUEUE_SIZE
    && s.accepted == s.handed + s.queue
    && (s.closed <==> s.stop == Closed || s.stop == Returned)
    && (s.stopped <==> s.stop != NotStopped && s.stop != Locked)
    && (s.holder == Stopper <==> s.stop == Locked || s.stop == FlagSet)
    && (s.holder.Cleared? ==> !s.stopped)
    && (s.worker == Exited ==> s.closed && s.queue == [])
    && (s.stop == Returned ==> s.worker == Exited)
  }

  lemma StepKeepsInv(s: State, step: Step)
    requires Inv(s) && Enabled(s, step)
    ensures Inv(Apply(s, step))
  {
    if step == Receive {
      assert s.queue == [s.queue[0]] + s.queue[1..];
    }
  }

  lemma {:induction false} RunKeepsInv(s: State, run: seq<Step>)
    requires Inv(s) && ValidRun(s, run)
    ensures Inv(After(s, run))
    decreases |run|
  {
    if run != [] {
      StepKeepsInv(s, run[0]);
      RunKeepsInv(Apply(s, run[0]), run[1..]);
    }
  }

  /** In every interleaving nothing is sent on the closed channel, the queue keeps its bound, messages
      are handed over in the order of acceptance, and when Stop has returned every accepted message has
      been handed over exactly once. */
  lemma ShutdownLosesNothing(run: seq<Step>)
    requires ValidRun(Init(), run)
    ensures var s := After(Init(), run);
            !s.panicked && |s.queue| <= QUEUE_SIZE && s.handed <= s.accepted &&
            (s.stop == Returned ==> s.handed == s.accepted)
  {
    RunKeepsInv(Init(), run);
  }

  /** What the worker and Stop still have to do once the channel is closed. */
  function Left(s: State): nat {
    3 * |s.queue| +
    (match s.worker case Waiting => 1 case Sending(_) => 2 case Exited => 0) +
    (if s.stop == Returned then 0 else 1)
  }

  predicate OfProducer(step: Step) { step.Enter? || step.CheckStopped? || step.TrySend? }

  /** After the close, producers change nothing the shutdown waits for, every other step brings it
      closer to its end, and until Stop has returned some such step can be taken. */
  lemma ShutdownAdvances(s: State, step: Step)
    requires Inv(s) && s.closed && Enabled(s, step)
    ensures OfProducer(step) ==> Left(Apply(s, step)) == Left(s) && Apply(s, step).accepted == s.accepted
    ensures !OfProducer(step) ==> Left(Apply(s, step)) < Left(s)
    ensures s.stop != Returned ==> exists next :: Enabled(s, next) && !OfProducer(next)
  {
    if s.stop != Returned {
      var next := match s.worker
        case Waiting => if s.queue == [] then WorkerExits else Receive
        case Sending(_) => SendDone
        case Exited => StopReturns;
      assert Enabled(s, next) && !OfProducer(next);
    }
  }

  lemma {:induction false} ExtendRun(s: State, run: seq<Step>, step: Step)
    requires ValidRun(s, run) && Enabled(After(s, run), step)
    ensures ValidRun(s, run + [step]) && After(s, run + [step]) == Apply(After(s, run), step)
    decreases |run|
  {
    if run == [] {
      assert [step][1..] == [];
    } else {
      ExtendRun(Apply(s, run[0]), run[1..], step);
      assert (run + [step])[1..] == run[1..] + [step];
    }
  }

  /** The object itself. Its methods are the parts of the program that one goroutine goes through at a time;
      each extends the run so far, so what is proved of all runs holds of every sequence of calls. */
  class Sender {
    var alertChan: seq<string>
    var stopped: bool
    var closed: bool
    var handed: seq<string>   // given to sendMessage
    ghost var state: State
    ghost var run: seq<Step>

    /** Nobody is inside a method. */
    ghost predicate Valid()
      reads this
    {
      && Follows()
      && alertChan == state.queue && stopped == state.stopped && closed == state.closed && handed == state.handed
      && state.holder == Free && !state.worker.Sending?
      && state.stop != Locked && state.stop != FlagSet
    }

    ghost predicate Follows()
      reads this
    {
      ValidRun(Init(), run) && After(Init(), run) == state && Inv(state)
    }

    constructor ()
      ensures Valid() && state == Init()
    {
      alertChan, stopped, closed, handed := [], false, false, [];
      state, run := Init(), [];
    }

    ghost method Do(step: Step)
      requires Follows() && Enabled(state, step)
      modifies this`state, this`run
      ensures Follows() && state == Apply(old(state), step) && run == old(run) + [step]
    {
      ExtendRun(Init(), run, step);
      StepKeepsInv(state, step);
      state, run := Apply(state, step), run + [step];
    }

    /** A message is queued exactly when the notifier is not stopped and the queue has room; the channel is
        open whenever it is sent on. */
    method Enqueue(text: string)
      requires Valid()
      modifies this`alertChan, this`state, this`run
      ensures Valid() && state.stop == old(state.stop) && state.worker == old(state.worker)
      ensures alertChan == if !stopped && |old(alertChan)| < 100 then old(alertChan) + [text] else old(alertChan)
    {
      Do(Enter(text));
      Do(CheckStopped);
      if stopped {
        return;
      }
      assert !closed;
      Do(TrySend);
      if |alertChan| < QUEUE_SIZE {
        alertChan := alertChan + [text];
      }
    }

    /** One message by the worker. */
    method Receive()
      requires Valid() && alertChan != []
      modifies this`alertChan, this`handed, this`state, this`run
      ensures Valid() && state.stop == old(state.stop)
      ensures alertChan == old(alertChan)[1..] && handed == old(handed) + [old(alertChan)[0]]
    {
      assert state.worker == Waiting;
      Do(Step.Receive);
      handed, alertChan := handed + [alertChan[0]], alertChan[1..];
      Do(SendDone);
    }

    /** What is left of the worker's loop once the channel is closed. */
    method FinishWork()
      requires Valid() && closed
      modifies this`alertChan, this`handed, this`state, this`run
      ensures Valid() && state.stop == old(state.stop) && state.worker == Exited
      ensures alertChan == [] && handed == old(handed) + old(alertChan)
    {
      while alertChan != []
        invariant Valid() && state.stop == old(state.stop)
        invariant handed + alertChan == old(handed) + old(alertChan)
        decreases |alertChan|
      {
        Receive();
      }
      if state.worker == Waiting {
        Do(WorkerExits);
      }
    }

    /** The first half of Stop, up to the close. */
    method Close()
      requires Valid() && state.stop == NotStopped
      modifies this`stopped, this`closed, this`state, this`run
      ensures Valid() && stopped && closed && state.stop == Closed
      ensures state.worker == old(state.worker)
    {
      Do(StopLock);
      Do(SetStopped);
      stopped := true;
      Do(StopUnlock);
      Do(CloseQueue);
      closed := true;
    }

    /** Stop as a whole: the close, calls that come too late, the worker's remaining work, the return. What
        was queued is handed over in order, the late messages are not. */
    method Stop(late: seq<string>)
      requires Valid() && state.stop == NotStopped
      modifies this
      ensures Valid() && stopped && closed && state.stop == Returned
      ensures alertChan == [] && handed == old(handed) + old(alertChan)
    {
      Close();
      for i := 0 to |late|
        invariant Valid() && stopped && closed && state.stop == Closed
        invariant alertChan == old(alertChan) && handed == old(handed)
      {
        Enqueue(late[i]);
      }
      FinishWork();
      Do(StopReturns);
    }
  }
}
