/** What the live export batcher promises its callers, stated for every execution. */
module BatchingTheorems {
  import opened Batching
  import opened BatchingInvariants

  // ---------- admission ----------

  // The counters are exactly what was admitted and not yet settled, and never pass the limits.
  lemma CountersAreExact(p: Policy, states: seq<State>, actions: seq<Action>, n: nat)
    requires p.Valid() && Execution(p, states, actions) && n < |states|
    ensures var s := states[n];
            && |s.log.settled| <= |s.log.admitted|
            && s.shared.unresolvedExports == |s.log.admitted| - |s.log.settled|
            && s.shared.unresolvedBytes == Bytes(s.log.admitted[|s.log.settled|..])
            && s.shared.unresolvedExports <= p.admissionExports
            && s.shared.unresolvedBytes <= p.admissionBytes
  {
    var s := states[n];
    Reachable(p, states, actions, n);
    assert s.log.admitted[|s.log.settled|..] == Unsettled(s);
  }

  // ---------- results ----------

  ghost predicate AtMostOnce(settlements: seq<Settlement>) {
    forall j, k :: 0 <= j < k < |settlements| ==> settlements[j].request.caller != settlements[k].request.caller
  }

  // Results are sent in admission order, at most one to each caller, and no send ever waits.
  lemma ResultsAreSentOnce(p: Policy, states: seq<State>, actions: seq<Action>, n: nat)
    requires p.Valid() && Execution(p, states, actions) && n < |states|
    ensures var s := states[n];
            && Requests(s.log.delivered) <= s.log.admitted
            && AtMostOnce(s.log.delivered)
            && (s.worker.Flushing? && s.worker.stage.Deliver? ==> CanAdvance(s))
            && (s.worker.DrainDeliver? ==> CanAdvance(s))
  {
    var s := states[n];
    Reachable(p, states, actions, n);
    assert forall k :: 0 <= k < |s.log.delivered| ==> s.log.settled[k] == s.log.delivered[k];
    assert forall k :: 0 <= k < |s.log.delivered| ==> s.log.admitted[k] == s.log.delivered[k].request;
    if s.worker.Flushing? && s.worker.stage.Deliver? && s.worker.stage.left != [] {
      NextDelivery(p, s, s.worker.stage.left, s.worker.stage.result);
    }
    if s.worker.DrainDeliver? && s.worker.left != [] {
      NextDelivery(p, s, s.worker.left, Some(Canceled));
    }
  }

  // ---------- batches ----------

  function Concat(handed: seq<Batch>): seq<Request> {
    if handed == [] then [] else Concat(handed[..|handed| - 1]) + handed[|handed| - 1].requests
  }

  lemma {:induction false} GivenRequests(handed: seq<Batch>)
    ensures Requests(Given(handed)) == Concat(handed)
  {
    if handed != [] {
      GivenRequests(handed[..|handed| - 1]);
      RequestsOfConcat(Given(handed[..|handed| - 1]), handed[|handed| - 1].requests, handed[|handed| - 1].outcome);
    }
  }

  // The batches handed to the destination follow admission order without a gap, and each is
  // non-empty and within both window limits.
  lemma BatchesFollowAdmission(p: Policy, states: seq<State>, actions: seq<Action>, n: nat)
    requires p.Valid() && Execution(p, states, actions) && n < |states|
    ensures var s := states[n];
            && Concat(s.log.handed) <= s.log.admitted
            && (forall b :: 0 <= b < |s.log.handed| ==>
                  && 0 < |s.log.handed[b].requests| <= p.windowExports
                  && Bytes(s.log.handed[b].requests) <= p.windowBytes)
  {
    var s := states[n];
    Reachable(p, states, actions, n);
    GivenRequests(s.log.handed);
  }

  // The worker holds back a window only while it has room left.
  lemma WindowHasRoom(p: Policy, states: seq<State>, actions: seq<Action>, n: nat)
    requires p.Valid() && Execution(p, states, actions) && n < |states|
    requires states[n].worker.Select? || states[n].worker.Top? || states[n].worker.Take? || states[n].worker.Idle?
    ensures |states[n].window| < p.windowExports && Bytes(states[n].window) < p.windowBytes
  {
    Reachable(p, states, actions, n);
  }

  // next would not fit into the window any more.
  predicate Overflows(p: Policy, s: State, next: Request) {
    |s.window| >= p.windowExports || s.windowBytes + next.bytes > p.windowBytes
  }

  // Callers and closers leave the worker where it is.
  lemma OnlyWorkerMoves(p: Policy, s: State, a: Action)
    requires Enabled(s, a) && !a.WorkerActs?
    ensures Step(p, s, a).worker == s.worker
  {
    match a {
      case CallerActs(i, c) => assert CallerStep(p, s, i, c).worker == s.worker;
      case CloserActs(i, c) => assert CloserStep(s, i, c).worker == s.worker;
      case _ =>
    }
  }

  // Why a flush of the window begins, once it is t's.
  predicate HasReason(p: Policy, s: State, t: State, timer: bool) {
    || |t.window| >= p.windowExports || Bytes(t.window) >= p.windowBytes
    || (s.worker.Got? && Overflows(p, s, s.worker.next))
    || (timer && s.timer)
    || (!s.shared.accepting && s.shared.pending == [])
  }

  lemma AppendHasReason(p: Policy, s: State, next: Request)
    requires Inv(p, s) && s.worker == Append(next) && AppendStep(p, s, next).worker.Flushing?
    ensures var t := AppendStep(p, s, next); t.worker.stage.Check? && t.window != [] && HasReason(p, s, t, false)
  {
    BytesOfConcat(s.window, [next]);
    BytesOfOne(next);
  }

  lemma IdleHasReason(p: Policy, s: State)
    requires Inv(p, s) && s.worker.Idle? && AdvanceStep(p, s).worker.Flushing?
    ensures var t := AdvanceStep(p, s); t.worker.stage.Check? && t.window != [] && HasReason(p, s, t, false)
  {
  }

  lemma WorkerHasReason(p: Policy, s: State, a: WorkerAction)
    requires Inv(p, s) && WorkerEnabled(s, a) && !s.worker.Flushing? && WorkerStep(p, s, a).worker.Flushing?
    ensures var t := WorkerStep(p, s, a); t.worker.stage.Check? && t.window != [] && HasReason(p, s, t, a.SelectTimer?)
  {
    if s.worker.Append? {
      AppendHasReason(p, s, s.worker.next);
    } else if s.worker.Idle? {
      IdleHasReason(p, s);
    } else if s.worker.Got? {
      assert GotStep(p, s, s.worker.next).window == s.window;
    } else {
      assert s.worker.Select?;
    }
  }

  /** A flush begins only on a window that has requests, and for one of four reasons: it is full, the next request would
      not fit, its timer has run out, or admission is over and the queue empty. */
  lemma FlushHasReason(p: Policy, s: State, a: Action)
    requires Inv(p, s) && Enabled(s, a) && !s.worker.Flushing? && Step(p, s, a).worker.Flushing?
    ensures var t := Step(p, s, a);
            && t.worker.stage.Check? && t.window != []
            && (|| |t.window| >= p.windowExports || Bytes(t.window) >= p.windowBytes
                || (s.worker.Got? && Overflows(p, s, s.worker.next))
                || (s.timer && a == WorkerActs(SelectTimer))
                || (!s.shared.accepting && s.shared.pending == []))
  {
    if !a.WorkerActs? {
      OnlyWorkerMoves(p, s, a);
    } else {
      WorkerHasReason(p, s, a.workerAction);
    }
  }

  lemma FlushCommitIsChecked(s: State, stage: Stage, after: After)
    requires s.worker == Flushing(stage, after) && CanAdvance(s)
    ensures Committing(FlushStep(s, stage, after).worker) ==> !s.cancelled && stage.Check?
  {
  }

  lemma LoopNeverCommits(p: Policy, s: State)
    requires CanAdvance(s) && !s.worker.Flushing?
    ensures !Committing(AdvanceStep(p, s).worker)
  {
  }

  lemma WorkerCommitIsChecked(p: Policy, s: State, a: WorkerAction)
    requires WorkerEnabled(s, a) && !Committing(s.worker) && Committing(WorkerStep(p, s, a).worker)
    ensures !s.cancelled && s.worker.Flushing? && s.worker.stage.Check?
  {
    if a.Advance? && s.worker.Flushing? {
      FlushCommitIsChecked(s, s.worker.stage, s.worker.after);
    } else if a.Advance? {
      LoopNeverCommits(p, s);
    }
  }

  // The destination is called only for a window that was checked while the lifecycle context was alive.
  lemma CommitIsChecked(p: Policy, s: State, a: Action)
    requires Enabled(s, a) && !Committing(s.worker) && Committing(Step(p, s, a).worker)
    ensures !s.cancelled && s.worker.Flushing? && s.worker.stage.Check?
  {
    if !a.WorkerActs? {
      OnlyWorkerMoves(p, s, a);
    } else {
      WorkerCommitIsChecked(p, s, a.workerAction);
    }
  }

  // The outcome of the batch that carried request k, or Canceled when no batch did.
  function Verdict(log: Log, k: nat): Option<Error> {
    if k < |Given(log.handed)| then Given(log.handed)[k].outcome else Some(Canceled)
  }

  // A caller that returned an outcome was admitted, and the outcome is its batch's.
  lemma AnswersAreVerdicts(p: Policy, states: seq<State>, actions: seq<Action>, n: nat, i: nat) returns (k: nat)
    requires p.Valid() && Execution(p, states, actions) && n < |states|
    requires i < |states[n].callers| && states[n].callers[i].pc.Returned? && states[n].callers[i].pc.answer.Outcome?
    ensures k < |states[n].log.admitted| && states[n].log.admitted[k].caller == i
    ensures states[n].callers[i].pc.answer == Outcome(Verdict(states[n].log, k))
  {
    var s := states[n];
    Reachable(p, states, actions, n);
    assert IsAdmitted(s.log.admitted, i);
    k :| 0 <= k < |s.log.admitted| && s.log.admitted[k].caller == i;
    assert Holds(s.callers[i], s.log.admitted[k], ResultOf(s.log.delivered, k));
    assert k < |s.log.delivered| && s.log.settled[k] == s.log.delivered[k];
    var all := s.log.settled + InFlight(s.worker, s.window);
    assert all[k] == s.log.settled[k];
  }

  // ---------- refusals ----------

  // What a caller that was refused has been told, and why.
  predicate ToldTrue(p: Policy, accepting: bool, caller: Caller) {
    && (caller.pc == Returned(Closed) ==> !accepting)
    && (caller.pc == Returned(Expired) ==> caller.expired)
    && (caller.pc == Returned(TooLarge) <==> caller.bytes > p.windowBytes || caller.bytes > p.admissionBytes)
  }

  predicate Told(p: Policy, s: State) {
    forall i :: 0 <= i < |s.callers| ==> ToldTrue(p, s.shared.accepting, s.callers[i])
  }

  lemma OwnStepTells(p: Policy, s: State, i: nat, a: CallerAction)
    requires CallerEnabled(s, i, a) && ToldTrue(p, s.shared.accepting, s.callers[i])
    ensures var t := CallerStep(p, s, i, a);
            && t.shared.accepting == s.shared.accepting && |t.callers| == |s.callers|
            && ToldTrue(p, t.shared.accepting, t.callers[i])
            && t.callers == s.callers[i := t.callers[i]]
  {
    match a {
      case Attempt =>
      case _ => assert CallerStep(p, s, i, a).shared == s.shared;
    }
  }

  lemma CallerStepTells(p: Policy, s: State, i: nat, a: CallerAction)
    requires Told(p, s) && CallerEnabled(s, i, a)
    ensures Told(p, CallerStep(p, s, i, a))
  {
    var t := CallerStep(p, s, i, a);
    OwnStepTells(p, s, i, a);
    forall j | 0 <= j < |t.callers| ensures ToldTrue(p, t.shared.accepting, t.callers[j]) {
      assert ToldTrue(p, s.shared.accepting, s.callers[j]);
    }
  }

  // The worker does not reopen admission, and all it does to a caller is to fill its result channel.
  predicate OnlyDelivers(s: State, t: State) {
    && t.shared.accepting == s.shared.accepting && |t.callers| == |s.callers|
    && forall j :: 0 <= j < |s.callers| ==> t.callers[j] == s.callers[j].(inbox := t.callers[j].inbox)
  }

  lemma FlushOnlyDelivers(s: State, stage: Stage, after: After)
    requires s.worker == Flushing(stage, after) && CanAdvance(s)
    ensures OnlyDelivers(s, FlushStep(s, stage, after))
  {
    if !stage.Deliver? {
      assert FlushStep(s, stage, after).callers == s.callers;
    }
  }

  lemma DrainOnlyDelivers(s: State, left: seq<Request>)
    requires CanSend(s.callers, left)
    ensures OnlyDelivers(s, DrainDeliverStep(s, left))
  {
  }

  lemma AdvanceOnlyDelivers(p: Policy, s: State)
    requires CanAdvance(s)
    ensures OnlyDelivers(s, AdvanceStep(p, s))
  {
    if s.worker.Flushing? {
      FlushOnlyDelivers(s, s.worker.stage, s.worker.after);
    } else if s.worker.DrainDeliver? {
      DrainOnlyDelivers(s, s.worker.left);
    } else {
      assert AdvanceStep(p, s).callers == s.callers;
    }
  }

  lemma WorkerOnlyDelivers(p: Policy, s: State, a: WorkerAction)
    requires WorkerEnabled(s, a)
    ensures OnlyDelivers(s, WorkerStep(p, s, a))
  {
    if a.Advance? {
      AdvanceOnlyDelivers(p, s);
    } else {
      assert WorkerStep(p, s, a).callers == s.callers;
    }
  }

  lemma WorkerStepTells(p: Policy, s: State, a: WorkerAction)
    requires Told(p, s) && WorkerEnabled(s, a)
    ensures Told(p, WorkerStep(p, s, a))
  {
    var t := WorkerStep(p, s, a);
    WorkerOnlyDelivers(p, s, a);
    forall j | 0 <= j < |t.callers| ensures ToldTrue(p, t.shared.accepting, t.callers[j]) {
      assert ToldTrue(p, s.shared.accepting, s.callers[j]);
    }
  }

  lemma CallTells(p: Policy, s: State, bytes: nat)
    requires Told(p, s)
    ensures Told(p, CallStep(p, s, bytes))
  {
    var t := CallStep(p, s, bytes);
    forall j | 0 <= j < |t.callers| ensures ToldTrue(p, t.shared.accepting, t.callers[j]) {
      if j < |s.callers| {
        assert t.callers[j] == s.callers[j];
      }
    }
  }

  lemma CloserStepTells(p: Policy, s: State, i: nat, a: CloserAction)
    requires Told(p, s) && CloserEnabled(s, i, a)
    ensures Told(p, CloserStep(s, i, a))
  {
    var t := CloserStep(s, i, a);
    assert t.callers == s.callers && (t.shared.accepting ==> s.shared.accepting);
    forall j | 0 <= j < |t.callers| ensures ToldTrue(p, t.shared.accepting, t.callers[j]) {
      assert ToldTrue(p, s.shared.accepting, s.callers[j]);
    }
  }

  lemma StepTells(p: Policy, s: State, a: Action)
    requires Told(p, s) && Enabled(s, a)
    ensures Told(p, Step(p, s, a))
  {
    match a {
      case Call(bytes) => CallTells(p, s, bytes);
      case CallClose => assert Step(p, s, a).callers == s.callers;
      case CallerActs(i, c) => CallerStepTells(p, s, i, c);
      case CloserActs(i, c) => CloserStepTells(p, s, i, c);
      case WorkerActs(w) => WorkerStepTells(p, s, w);
    }
  }

  /** What a refused export is told is true: "closed" only once admission is over, the context's error only to a caller
      whose context has expired, and "too large" exactly to what exceeds a limit. */
  lemma {:induction false} RefusalsAreTrue(p: Policy, states: seq<State>, actions: seq<Action>, n: nat)
    requires Execution(p, states, actions) && n < |states|
    ensures Told(p, states[n])
  {
    if n > 0 {
      RefusalsAreTrue(p, states, actions, n - 1);
      StepTells(p, states[n - 1], actions[n - 1]);
    }
  }

  // ---------- Close ----------

  // Every admitted request was carried by a batch that the destination accepted.
  ghost predicate AllCommitted(s: State) {
    && Concat(s.log.handed) == s.log.admitted
    && forall b :: 0 <= b < |s.log.handed| ==> s.log.handed[b].outcome == None
  }

  lemma {:induction false} FirstErrorNone(handed: seq<Batch>)
    ensures FirstError(handed).None? <==> forall b :: 0 <= b < |handed| ==> handed[b].outcome == None
  {
    if handed != [] {
      FirstErrorNone(handed[..|handed| - 1]);
    }
  }

  // A Close reports the first error the destination answered with; without one, none, or the cancellation that a worker
  // met which had seen the lifecycle context canceled.
  lemma CloseReportsFirstError(p: Policy, states: seq<State>, actions: seq<Action>, n: nat, j: nat)
    requires p.Valid() && Execution(p, states, actions) && n < |states|
    requires j < |states[n].closers| && states[n].closers[j].pc.CloseReturned?
    ensures var commit, log := states[n].closers[j].pc.commit, states[n].log;
            && (FirstError(log.handed).Some? ==> commit == FirstError(log.handed))
            && (FirstError(log.handed).None? && commit.Some? ==> commit == Some(Canceled) && log.interrupted)
  {
    Reachable(p, states, actions, n);
    assert CloserSound(states[n].shared.accepting, states[n].done, states[n].shared.commitError, states[n].closers[j]);
  }

  ghost predicate NilClose(s: State, j: nat) {
    j < |s.closers| && s.closers[j].pc == CloseReturned(None, None)
  }

  /** A nil Close means everything admitted was committed exactly when the worker did not leave
      through its canceled branch with requests in its window or in the queue. */
  lemma NilCloseMeansCommitted(p: Policy, states: seq<State>, actions: seq<Action>, n: nat, j: nat)
    requires p.Valid() && Execution(p, states, actions) && n < |states|
    requires NilClose(states[n], j)
    ensures AllCommitted(states[n]) <==> states[n].log.abandoned == []
    ensures states[n].log.abandoned != [] ==>
              exists k :: 0 <= k < |states[n].closers| && states[n].closers[k].expired && states[n].log.cancelledBy == Some(k)
  {
    var s := states[n];
    Reachable(p, states, actions, n);
    GivenRequests(s.log.handed);
    FirstErrorNone(s.log.handed);
    assert CloserSound(s.shared.accepting, s.done, s.shared.commitError, s.closers[j]);
    assert s.worker.Done?;
    assert Unsettled(s) == [];
    assert |s.log.admitted| == |s.log.settled|;
    if s.log.abandoned != [] {
      assert PastCancel(s.closers[s.log.cancelledBy.value]);
    }
  }

  /** When the worker leaves, what was admitted is what it handed over, in batches and in order, and behind it what it
      abandoned. It abandons nothing unless a Close gave up, whether or not the destination accepted the batches. */
  lemma WorkerLeavesNothing(p: Policy, states: seq<State>, actions: seq<Action>, n: nat)
    requires p.Valid() && Execution(p, states, actions) && n < |states| && Leaving(states[n].worker)
    ensures states[n].log.admitted == Concat(states[n].log.handed) + states[n].log.abandoned
    ensures (forall j :: 0 <= j < |states[n].closers| ==> !states[n].closers[j].expired) ==>
              Concat(states[n].log.handed) == states[n].log.admitted
  {
    var s := states[n];
    Reachable(p, states, actions, n);
    GivenRequests(s.log.handed);
    assert Unsettled(s) == [] && InFlight(s.worker, s.window) == [];
    assert s.log.settled + [] == s.log.settled;
    assert Requests(s.log.settled) + [] == Requests(s.log.settled);
    if s.log.interrupted {
      assert PastCancel(s.closers[s.log.cancelledBy.value]);
    }
  }

  // ---------- a nil Close that hides a loss ----------

  // An execution and the state it has reached.
  datatype Trace = Trace(states: seq<State>, actions: seq<Action>)

  ghost predicate Reaches(p: Policy, trace: Trace, s: State) {
    Execution(p, trace.states, trace.actions) && trace.states[|trace.actions|] == s
  }

  lemma Then(p: Policy, trace: Trace, s: State, a: Action, t: State) returns (longer: Trace)
    requires Reaches(p, trace, s) && Enabled(s, a) && Step(p, s, a) == t
    ensures Reaches(p, longer, t)
  {
    longer := Trace(trace.states + [t], trace.actions + [a]);
  }

  const TINY := Policy(1, 1, 1, 1, 1)
  const EXPORT := Request(0, 0)

  function Waiting1(closer: Closer, cancelled: bool, log: Log): State {
    State(Shared(false, [EXPORT], 1, 0, 1, None), true, false, cancelled, Finished, Top, [], 0, false,
          [Caller(0, false, Signalling, None)], [closer], log)
  }

  // One export is admitted, and a Close whose context expires cancels the lifecycle context.
  lemma CloseGivesUp() returns (trace: Trace)
    ensures Reaches(TINY, trace, Waiting1(Closer(true, CancelSignalling), true, Log([EXPORT], [], [], [], Some(0), false, [])))
  {
    var s0 := Initial();
    var s1 := s0.(callers := [Caller(0, false, Trying, None)]);
    var log := Log([EXPORT], [], [], [], None, false, []);
    var s2 := s1.(callers := [Caller(0, false, Signalling, None)], shared := Shared(true, [EXPORT], 1, 0, 0, None), log := log);
    var s3 := s2.(closers := [Closer(false, Entering)]);
    var s4 := s3.(closers := [Closer(false, ClosedSignalling)], once := Running(0), shared := Shared(false, [EXPORT], 1, 0, 1, None));
    trace := Trace([s0], []);
    trace := Then(TINY, trace, s0, Call(0), s1);
    trace := Then(TINY, trace, s1, CallerActs(0, Attempt), s2);
    trace := Then(TINY, trace, s2, CallClose, s3);
    trace := Then(TINY, trace, s3, CloserActs(0, EnterClose), s4);
    trace := Then(TINY, trace, s4, CloserActs(0, SignalClosed), Waiting1(Closer(false, Selecting), false, log));
    trace := CloseCancels(trace, log);
  }

  lemma CloseCancels(before: Trace, log: Log) returns (trace: Trace)
    requires log == Log([EXPORT], [], [], [], None, false, [])
    requires Reaches(TINY, before, Waiting1(Closer(false, Selecting), false, log))
    ensures Reaches(TINY, trace, Waiting1(Closer(true, CancelSignalling), true, log.(cancelledBy := Some(0))))
  {
    var s0 := Waiting1(Closer(false, Selecting), false, log);
    var s1 := Waiting1(Closer(true, Selecting), false, log);
    var s2 := Waiting1(Closer(true, Cancelling), false, log);
    trace := Then(TINY, before, s0, CloserActs(0, ExpireCloser), s1);
    trace := Then(TINY, trace, s1, CloserActs(0, SeeExpired), s2);
    trace := Then(TINY, trace, s2, CloserActs(0, CancelLifecycle),
                  Waiting1(Closer(true, CancelSignalling), true, log.(cancelledBy := Some(0))));
  }

  function Left(closers: seq<Closer>, worker: WorkerPc, done: bool): State {
    State(Shared(false, [], 0, 0, 2, None), true, done, true, Finished, worker, [], 0, false,
          [Caller(0, false, Signalling, Some(Some(Canceled)))], closers,
          Log([EXPORT], [], [Settlement(EXPORT, Some(Canceled))], [Settlement(EXPORT, Some(Canceled))], Some(0), true, [EXPORT]))
  }

  // The worker sees the canceled context before it takes the export, and leaves.
  lemma WorkerLeaves() returns (trace: Trace)
    ensures Reaches(TINY, trace, Left([Closer(true, CancelSignalling)], Done, true))
  {
    var log := Log([EXPORT], [], [], [], Some(0), false, []);
    var closers := [Closer(true, CancelSignalling)];
    trace := CloseGivesUp();
    var s0 := Waiting1(closers[0], true, log);
    var s1 := s0.(worker := Drain);
    var s2 := s1.(worker := DrainSettle, window := [EXPORT], shared := s1.shared.(pending := []),
                  log := log.(interrupted := true, abandoned := [EXPORT]));
    var s3 := s2.(worker := DrainDeliver([EXPORT]), window := [], shared := Shared(false, [], 0, 0, 2, None),
                  log := s2.log.(settled := [Settlement(EXPORT, Some(Canceled))]));
    trace := Then(TINY, trace, s0, WorkerActs(Advance), s1);
    trace := Then(TINY, trace, s1, WorkerActs(Advance), s2);
    BytesOfOne(EXPORT);
    assert Settlements([EXPORT], Some(Canceled)) == [Settlement(EXPORT, Some(Canceled))];
    trace := Then(TINY, trace, s2, WorkerActs(Advance), s3);
    var sent := Left(closers, DrainDeliver([]), false);
    assert [EXPORT][1..] == [];
    assert s3.callers[0 := sent.callers[0]] == sent.callers;
    assert [] + sent.log.delivered == sent.log.delivered;
    trace := Then(TINY, trace, s3, WorkerActs(Advance), sent);
    trace := Then(TINY, trace, sent, WorkerActs(Advance), Left(closers, Exit, false));
    trace := Then(TINY, trace, Left(closers, Exit, false), WorkerActs(Advance), Left(closers, Closing, false));
    trace := Then(TINY, trace, Left(closers, Closing, false), WorkerActs(Advance), Left(closers, Done, true));
  }

  /** A second Close then returns nil, although the export was resolved as canceled: the canceled
      branch of the worker resolves what is queued without recording a commit error. */
  lemma NilCloseCanHideLoss() returns (trace: Trace)
    ensures Execution(TINY, trace.states, trace.actions)
    ensures NilClose(trace.states[|trace.actions|], 1) && !AllCommitted(trace.states[|trace.actions|])
  {
    var first := Closer(true, CancelSignalling);
    trace := WorkerLeaves();
    trace := Then(TINY, trace, Left([first], Done, true), CallClose, Left([first, Closer(false, Entering)], Done, true));
    trace := Then(TINY, trace, Left([first, Closer(false, Entering)], Done, true), CloserActs(1, EnterClose),
                  Left([first, Closer(false, Selecting)], Done, true));
    trace := Then(TINY, trace, Left([first, Closer(false, Selecting)], Done, true), CloserActs(1, SeeDone),
                  Left([first, Closer(false, Joining(None))], Done, true));
    trace := Then(TINY, trace, Left([first, Closer(false, Joining(None))], Done, true), CloserActs(1, JoinErrors),
                  Left([first, Closer(false, CloseReturned(None, None))], Done, true));
  }
}
