/** Replicas that guard a job with a PostgreSQL advisory lock taken and released through a connection
    pool (internal/infrastructure/adapters/repositories/analytics_coordinator.go).

    The lock belongs to the session that took it and is re-entrant there. Each acquire and each release
    uses whatever session of the replica's pool comes to hand. One lock id and the job it guards are
    modelled; the aggregator's and the dispatcher's locks do not interact. */
module AdvisoryLocks {
  import opened Events

  type Replica = nat
  type Session = nat

  /** inside[r] is the session through which replica r got the lock for the job it is running. */
  datatype State = State(
    owner: map<Session, Replica>,      // open sessions and the replica whose pool they are in
    used: set<Session>,                // sessions ever opened
    holder: Option<Session>, count: nat,
    inside: map<Replica, Session>)

  datatype Step =
    | Open(s: Session, r: Replica)
    | Close(s: Session)                // the pool retires a session; the server frees its locks
    | TryLock(r: Replica, s: Session)  // the start of a cycle of r
    | LockUnheard(r: Replica, s: Session)   // the attempt takes effect, but its answer is an error
    | Unlock(r: Replica, s: Session)   // the end of the cycle
    | UnlockFails(r: Replica)          // the end of the cycle, the release an error without effect

  function Init(): State { State(map[], {}, None, 0, map[]) }

  predicate CanLock(st: State, s: Session) {
    st.holder == None || st.holder == Some(s)
  }

  predicate Enabled(st: State, step: Step) {
    match step
    case Open(s, _) => s !in st.used
    case Close(s) => s in st.owner
    case TryLock(r, s) => r !in st.inside && s in st.owner && st.owner[s] == r
    case LockUnheard(r, s) => r !in st.inside && s in st.owner && st.owner[s] == r
    case Unlock(r, s) => r in st.inside && s in st.owner && st.owner[s] == r
    case UnlockFails(r) => r in st.inside
  }

  function Apply(st: State, step: Step): State
    requires Enabled(st, step)
  {
    match step
    case Open(s, r) => st.(owner := st.owner[s := r], used := st.used + {s})
    case Close(s) =>
      var kept := st.(owner := st.owner - {s});
      if st.holder == Some(s) then kept.(holder := None, count := 0) else kept
    case TryLock(r, s) =>
      if CanLock(st, s) then st.(holder := Some(s), count := st.count + 1, inside := st.inside[r := s])
      else st
    case LockUnheard(r, s) =>
      if CanLock(st, s) then st.(holder := Some(s), count := st.count + 1) else st
    case UnlockFails(r) => st.(inside := st.inside - {r})
    case Unlock(r, s) =>
      var left := st.(inside := st.inside - {r});
      if st.holder != Some(s) then left
      else if st.count > 1 then left.(count := st.count - 1)
      else left.(holder := None, count := 0)
  }

  predicate ValidRun(st: State, run: seq<Step>)
    decreases |run|
  {
    run == [] || (Enabled(st, run[0]) && ValidRun(Apply(st, run[0]), run[1..]))
  }

  function After(st: State, run: seq<Step>): State
    requires ValidRun(st, run)
    decreases |run|
  {
    if run == [] then st else After(Apply(st, run[0]), run[1..])
  }

  /** The step closes a session through which some replica is running its job. */
  predicate ClosesAcquirer(st: State, step: Step) {
    step.Close? && exists r :: r in st.inside && st.inside[r] == step.s
  }

  predicate AcquirersStayOpen(st: State, run: seq<Step>)
    requires ValidRun(st, run)
    decreases |run|
  {
    run == [] || (!ClosesAcquirer(st, run[0]) && AcquirersStayOpen(Apply(st, run[0]), run[1..]))
  }

  // ---- In every run ----

  ghost predicate Inv(st: State) {
    && (forall s :: s in st.owner ==> s in st.used)
    && (if st.holder.Some? then st.holder.value in st.owner && st.count > 0 else st.count == 0)
    && (forall r :: r in st.inside ==> st.inside[r] in st.used)
    && (forall r :: r in st.inside && st.inside[r] in st.owner ==>
          st.owner[st.inside[r]] == r && st.holder == Some(st.inside[r]))
  }

  lemma StepKeepsInv(st: State, step: Step)
    requires Inv(st) && Enabled(st, step)
    ensures Inv(Apply(st, step))
  {
  }

  lemma {:induction false} RunKeepsInv(st: State, run: seq<Step>)
    requires Inv(st) && ValidRun(st, run)
    ensures Inv(After(st, run))
    decreases |run|
  {
    if run != [] {
      StepKeepsInv(st, run[0]);
      RunKeepsInv(Apply(st, run[0]), run[1..]);
    }
  }

  /** In every reachable state, while replica r runs its job another replica's attempt fails through
      every session of its pool as long as the session r acquired through is open. */
  lemma ExclusionHoldsWhileAcquirerOpen(run: seq<Step>, r: Replica, r': Replica, s': Session)
    requires ValidRun(Init(), run)
    requires var st := After(Init(), run);
             r in st.inside && r' != r && Enabled(st, TryLock(r', s'))
    ensures var st := After(Init(), run);
            st.inside[r] in st.owner ==> r' !in Apply(st, TryLock(r', s')).inside
  {
    RunKeepsInv(Init(), run);
  }

  // ---- Runs in which no acquiring session is closed meanwhile ----

  ghost predicate AllHolding(st: State) {
    forall r :: r in st.inside ==> st.inside[r] in st.owner
  }

  lemma {:induction false} AcquirersHold(st: State, run: seq<Step>)
    requires Inv(st) && AllHolding(st) && ValidRun(st, run) && AcquirersStayOpen(st, run)
    ensures Inv(After(st, run)) && AllHolding(After(st, run))
    decreases |run|
  {
    if run != [] {
      StepKeepsInv(st, run[0]);
      AcquirersHold(Apply(st, run[0]), run[1..]);
    }
  }

  /** At most one replica runs the job. */
  lemma MutualExclusion(run: seq<Step>)
    requires ValidRun(Init(), run) && AcquirersStayOpen(Init(), run)
    ensures forall r, r' :: r in After(Init(), run).inside && r' in After(Init(), run).inside ==> r == r'
  {
    AcquirersHold(Init(), run);
  }

  /** Closing an acquiring session early lets two replicas in at once. */
  lemma EarlyCloseBreaksExclusion()
    ensures exists run :: ValidRun(Init(), run) && {0, 1} <= After(Init(), run).inside.Keys
  {
    var s1 := Apply(Init(), Open(0, 0));
    var s2 := Apply(s1, Open(1, 1));
    var s3 := Apply(s2, TryLock(0, 0));
    var s4 := Apply(s3, Close(0));
    var s5 := Apply(s4, TryLock(1, 1));
    Prepend(s4, TryLock(1, 1), []);
    Prepend(s3, Close(0), [TryLock(1, 1)]);
    Prepend(s2, TryLock(0, 0), [Close(0), TryLock(1, 1)]);
    Prepend(s1, Open(1, 1), [TryLock(0, 0), Close(0), TryLock(1, 1)]);
    Prepend(Init(), Open(0, 0), [Open(1, 1), TryLock(0, 0), Close(0), TryLock(1, 1)]);
    assert {0, 1} <= s5.inside.Keys;
  }

  lemma Prepend(st: State, step: Step, rest: seq<Step>)
    requires Enabled(st, step) && ValidRun(Apply(st, step), rest)
    ensures ValidRun(st, [step] + rest) && After(st, [step] + rest) == After(Apply(st, step), rest)
  {
    assert ([step] + rest)[1..] == rest;
  }

  // ---- A release through another session ----

  predicate TouchesLock(st: State, step: Step, holder: Session) {
    step == Close(holder) || ((step.TryLock? || step.LockUnheard? || step.Unlock?) && step.s == holder)
  }

  predicate LeavesHolderAlone(st: State, run: seq<Step>, holder: Session)
    requires ValidRun(st, run)
    decreases |run|
  {
    run == [] || (!TouchesLock(st, run[0], holder) && LeavesHolderAlone(Apply(st, run[0]), run[1..], holder))
  }

  /** A release through a session that does not hold the lock ends the cycle but frees nothing. From then
      on, until the holding session is used again or closed, nobody gets in: not even the same replica
      through another session. The leak costs progress, never exclusion. */
  lemma {:induction false} LeakedLockBlocksEveryone(st: State, run: seq<Step>, holder: Session)
    requires Inv(st) && ValidRun(st, run) && st.holder == Some(holder) && st.inside == map[]
    requires LeavesHolderAlone(st, run, holder)
    ensures After(st, run).inside == map[] && After(st, run).holder == Some(holder)
    decreases |run|
  {
    if run != [] {
      StepKeepsInv(st, run[0]);
      LeakedLockBlocksEveryone(Apply(st, run[0]), run[1..], holder);
    }
  }

  /** The cycle of r ends with the lock still held exactly when the release goes through another session
      than the one that holds it, or an earlier cycle's release did. */
  lemma ReleaseLeaks(st: State, r: Replica, s: Session)
    requires Inv(st) && AllHolding(st) && Enabled(st, Unlock(r, s))
    ensures var t := Apply(st, Unlock(r, s));
            r !in t.inside &&
            (t.holder != None <==> s != st.inside[r] || st.count > 1) &&
            (t.holder != None ==> t.holder == Some(st.inside[r]))
  {
  }

  /** Through one and the same session a cycle gets in whenever the lock is free or leaked on that session,
      and leaves it exactly as it was: a leak survives every such cycle, and only the end of the session
      undoes it. */
  lemma LeakSurvivesCycles(st: State, r: Replica, s: Session)
    requires Inv(st) && st.inside == map[] && s in st.owner && st.owner[s] == r
    requires st.holder == None || st.holder == Some(s)
    ensures ValidRun(st, [TryLock(r, s)]) && After(st, [TryLock(r, s)]).inside == map[r := s]
    ensures ValidRun(st, [TryLock(r, s), Unlock(r, s)]) && After(st, [TryLock(r, s), Unlock(r, s)]) == st
    ensures ValidRun(st, [Close(s)]) && After(st, [Close(s)]).holder == None
  {
    var s1 := Apply(st, TryLock(r, s));
    Prepend(s1, Unlock(r, s), []);
    Prepend(st, TryLock(r, s), []);
    Prepend(st, TryLock(r, s), [Unlock(r, s)]);
    Prepend(st, Close(s), []);
    assert s1.inside - {r} == st.inside;
  }
}
