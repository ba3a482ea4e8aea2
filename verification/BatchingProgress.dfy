/** The live export batcher never loses a wake-up: when it can do nothing by itself, every call has been
    answered, whether or not a context ever expires, and once calls stop arriving nothing moves for ever. */
module BatchingProgress {
  import opened Batching
  import opened BatchingInvariants
  import opened BatchingTheorems

  // ---------- no state with unanswered work is stuck ----------

  lemma NoLostWakeUp(p: Policy, states: seq<State>, actions: seq<Action>, n: nat)
    requires p.Valid() && Execution(p, states, actions) && n < |states|
    ensures var s := states[n];
            && (s.worker.Select? && s.shared.pending != [] ==> s.ready || SomeoneSignalling(s.callers))
            && (s.worker.Select? && s.window != [] ==> s.timer)
            && (s.worker.Select? && !s.shared.accepting ==> s.ready || s.once.Running?)
            && (forall i :: 0 <= i < |s.callers| && s.callers[i].pc == Waiting(s.shared.generation) ==>
                  s.shared.accepting && !Fits(p, s.shared, s.callers[i].bytes))
  {
    Reachable(p, states, actions, n);
  }

  predicate Arrival(a: Action) {
    a.Call? || a.CallClose?
  }

  // What the callers decide: a new call, or the end of a context.
  predicate Outside(a: Action) {
    || Arrival(a)
    || (a.CallerActs? && a.callerAction.ExpireCaller?)
    || (a.CloserActs? && a.closerAction.ExpireCloser?)
  }

  // The batcher can do nothing by itself: every possible step is a new call or a context that expires.
  ghost predicate Quiescent(s: State) {
    forall a :: Enabled(s, a) ==> Outside(a)
  }

  predicate Answered(s: State) {
    && (forall i :: 0 <= i < |s.callers| ==> s.callers[i].pc.Returned?)
    && (forall j :: 0 <= j < |s.closers| ==> s.closers[j].pc.CloseReturned?)
  }

  lemma QuietWorker(p: Policy, s: State)
    requires p.Valid() && Inv(p, s) && Quiescent(s)
    ensures s.worker.Done? || (s.worker.Select? && !s.ready && !s.timer && !s.cancelled)
  {
    assert !Enabled(s, WorkerActs(Advance));
    assert !Enabled(s, WorkerActs(CommitBatch(None)));
    assert !Enabled(s, WorkerActs(SelectReady));
    assert !Enabled(s, WorkerActs(SelectTimer));
    assert !Enabled(s, WorkerActs(SelectCancelled));
    match s.worker {
      case Flushing(Deliver(outcome, left), after) => DeliverKeeps(p, s, outcome, left, after);
      case DrainDeliver(left) => DrainDeliverKeeps(p, s, left);
      case _ =>
    }
  }

  lemma QuietCallers(s: State, i: nat)
    requires Quiescent(s) && i < |s.callers|
    ensures match s.callers[i].pc
            case Returned(_) => true
            case Waiting(g) => g >= s.shared.generation
            case Awaiting => s.callers[i].inbox == None
            case _ => false
  {
    assert !Enabled(s, CallerActs(i, Attempt));
    assert !Enabled(s, CallerActs(i, Signal));
    assert !Enabled(s, CallerActs(i, Wake));
    assert !Enabled(s, CallerActs(i, Receive));
  }

  lemma QuietClosers(s: State, j: nat)
    requires Quiescent(s) && j < |s.closers|
    ensures match s.closers[j].pc
            case Entering => s.once.Running?
            case Selecting => !s.done
            case AwaitingDone => !s.done
            case CloseReturned(_, _) => true
            case _ => false
  {
    assert !Enabled(s, CloserActs(j, EnterClose));
    assert !Enabled(s, CloserActs(j, SignalClosed));
    assert !Enabled(s, CloserActs(j, SeeDone));
    assert !Enabled(s, CloserActs(j, CancelLifecycle));
    assert !Enabled(s, CloserActs(j, SignalCancel));
    assert !Enabled(s, CloserActs(j, JoinErrors));
  }

  // A quiet worker has nothing left to settle: its window and the queue are both empty.
  lemma QuietMeansSettled(p: Policy, s: State)
    requires p.Valid() && Inv(p, s) && Quiescent(s)
    ensures Unsettled(s) == [] && Undelivered(s.worker) == []
    ensures !s.shared.accepting ==> s.worker.Done?
  {
    QuietWorker(p, s);
    if SomeoneSignalling(s.callers) {
      var i :| 0 <= i < |s.callers| && s.callers[i].pc.Signalling?;
      QuietCallers(s, i);
    }
    if s.once.Running? {
      QuietClosers(s, s.once.runner);
    }
  }

  lemma AwaitedIsUnfinished(p: Policy, s: State, i: nat)
    requires Inv(p, s) && i < |s.callers|
    ensures s.callers[i].pc.Awaiting? && s.callers[i].inbox == None ==> Unsettled(s) != [] || Undelivered(s.worker) != []
  {
    if s.callers[i].pc.Awaiting? && s.callers[i].inbox == None {
      assert IsAdmitted(s.log.admitted, i);
      var k :| 0 <= k < |s.log.admitted| && s.log.admitted[k].caller == i;
      assert Holds(s.callers[i], s.log.admitted[k], ResultOf(s.log.delivered, k));
      assert k >= |s.log.delivered|;
    }
  }

  // When the batcher can do nothing by itself, every caller and every closer has its answer. No call needs its
  // context to expire: while one waits with a live context, some step of the batcher or of a call is possible.
  lemma NoCallIsStuck(p: Policy, s: State)
    requires p.Valid() && Inv(p, s) && Quiescent(s)
    ensures Answered(s)
  {
    QuietMeansSettled(p, s);
    assert Bytes([]) == 0;
    forall i | 0 <= i < |s.callers| ensures s.callers[i].pc.Returned? {
      AwaitedIsUnfinished(p, s, i);
      QuietCallers(s, i);
    }
    forall j | 0 <= j < |s.closers| ensures s.closers[j].pc.CloseReturned? {
      QuietClosers(s, j);
      if s.once.Running? {
        QuietClosers(s, s.once.runner);
      }
    }
  }

  // Once the batcher can do nothing by itself, every admitted request has had exactly one result, in order of admission.
  lemma OneResultForEach(p: Policy, states: seq<State>, actions: seq<Action>, n: nat)
    requires p.Valid() && Execution(p, states, actions) && n < |states| && Quiescent(states[n])
    ensures Requests(states[n].log.delivered) == states[n].log.admitted && AtMostOnce(states[n].log.delivered)
    ensures forall i :: 0 <= i < |states[n].callers| && IsAdmitted(states[n].log.admitted, i) ==>
              exists k :: 0 <= k < |states[n].log.delivered| && states[n].log.delivered[k].request.caller == i &&
                          states[n].callers[i].pc == Returned(Outcome(states[n].log.delivered[k].outcome))
  {
    var s := states[n];
    Reachable(p, states, actions, n);
    ResultsAreSentOnce(p, states, actions, n);
    QuietMeansSettled(p, s);
    assert s.log.settled == s.log.delivered;
    forall i | 0 <= i < |s.callers| && IsAdmitted(s.log.admitted, i)
      ensures exists k :: 0 <= k < |s.log.delivered| && s.log.delivered[k].request.caller == i &&
                          s.callers[i].pc == Returned(Outcome(s.log.delivered[k].outcome))
    {
      ReturnedItsResult(p, s, i);
    }
  }

  lemma ReturnedItsResult(p: Policy, s: State, i: nat)
    requires p.Valid() && Inv(p, s) && Quiescent(s) && i < |s.callers| && IsAdmitted(s.log.admitted, i)
    requires Requests(s.log.delivered) == s.log.admitted
    ensures exists k :: 0 <= k < |s.log.delivered| && s.log.delivered[k].request.caller == i &&
                        s.callers[i].pc == Returned(Outcome(s.log.delivered[k].outcome))
  {
    var k :| 0 <= k < |s.log.admitted| && s.log.admitted[k].caller == i;
    assert Holds(s.callers[i], s.log.admitted[k], ResultOf(s.log.delivered, k));
    NoCallIsStuck(p, s);
    assert s.log.delivered[k].request.caller == i;
  }

  // ---------- nothing moves for ever ----------

  function Seeking(callers: seq<Caller>): nat {
    if callers == [] then 0
    else Seeking(callers[..|callers| - 1]) + SeekingOne(callers[|callers| - 1])
  }

  function SeekingOne(caller: Caller): nat {
    if caller.pc.Trying? || caller.pc.Waiting? then 1 else 0
  }

  // How often the capacity channel can still be closed.
  function Bumps(s: State): nat {
    |Unsettled(s)| + Seeking(s.callers) + if s.shared.accepting then 1 else 0
  }

  function CallerRank(generation: nat, caller: Caller): nat {
    (if caller.expired then 0 else 1) +
    match caller.pc
    case Trying => 60
    case Waiting(g) => if g < generation then 70 else 50
    case Signalling => 30
    case Awaiting => 2
    case Returned(_) => 0
  }

  function CallersRank(generation: nat, callers: seq<Caller>): nat {
    if callers == [] then 0
    else CallersRank(generation, callers[..|callers| - 1]) + CallerRank(generation, callers[|callers| - 1])
  }

  function CloserRank(closer: Closer): nat {
    (if closer.expired then 0 else 1) +
    match closer.pc
    case Entering => 100
    case ClosedSignalling => 90
    case Selecting => 60
    case Cancelling => 55
    case CancelSignalling => 50
    case AwaitingDone => 20
    case Joining(_) => 1
    case CloseReturned(_, _) => 0
  }

  function ClosersRank(closers: seq<Closer>): nat {
    if closers == [] then 0 else ClosersRank(closers[..|closers| - 1]) + CloserRank(closers[|closers| - 1])
  }

  function StageRank(stage: Stage): nat {
    match stage
    case Check => 37
    case Commit => 36
    case Record(_) => 35
    case Settle(_) => 34
    case Deliver(_, left) => 60 + |left|
  }

  function WorkerRank(worker: WorkerPc, cancelled: bool): nat {
    match worker
    case Got(_) => 57
    case Append(_) => 55
    case Top => if cancelled then 29 else 40
    case Take => 39
    case Idle(_) => 38
    case Recheck => 31
    case Select => 30
    case Flushing(stage, _) => StageRank(stage)
    case Drain => 28
    case DrainSettle => 27
    case DrainDeliver(left) => 5 + |left|
    case Exit => 4
    case Closing => 3
    case Done => 2
  }

  function Rank(s: State): nat {
    20 * |s.shared.pending| + (if s.ready then 20 else 0) + (if s.timer then 10 else 0)
    + CallersRank(s.shared.generation, s.callers) + ClosersRank(s.closers) + WorkerRank(s.worker, s.cancelled)
  }

  predicate Less(t: State, s: State) {
    Bumps(t) < Bumps(s) || (Bumps(t) == Bumps(s) && Rank(t) < Rank(s))
  }

  lemma {:induction false} SeekingMoves(callers: seq<Caller>, i: nat, caller: Caller)
    requires i < |callers|
    ensures Seeking(callers[i := caller]) == Seeking(callers) - SeekingOne(callers[i]) + SeekingOne(caller)
  {
    var n := |callers| - 1;
    assert callers[i := caller][..n] == if i == n then callers[..n] else callers[..n][i := caller];
    if i < n {
      SeekingMoves(callers[..n], i, caller);
    }
  }

  lemma {:induction false} CallersRankMoves(generation: nat, callers: seq<Caller>, i: nat, caller: Caller)
    requires i < |callers|
    ensures CallersRank(generation, callers[i := caller])
         == CallersRank(generation, callers) - CallerRank(generation, callers[i]) + CallerRank(generation, caller)
  {
    var n := |callers| - 1;
    assert callers[i := caller][..n] == if i == n then callers[..n] else callers[..n][i := caller];
    if i < n {
      CallersRankMoves(generation, callers[..n], i, caller);
    }
  }

  lemma {:induction false} ClosersRankMoves(closers: seq<Closer>, i: nat, closer: Closer)
    requires i < |closers|
    ensures ClosersRank(closers[i := closer]) == ClosersRank(closers) - CloserRank(closers[i]) + CloserRank(closer)
  {
    var n := |closers| - 1;
    assert closers[i := closer][..n] == if i == n then closers[..n] else closers[..n][i := closer];
    if i < n {
      ClosersRankMoves(closers[..n], i, closer);
    }
  }

  lemma CallerMoveDescends(s: State, i: nat, caller: Caller, ready: bool)
    requires i < |s.callers| && SeekingOne(caller) <= SeekingOne(s.callers[i])
    requires CallerRank(s.shared.generation, caller) + (if ready then 20 else 0)
           < CallerRank(s.shared.generation, s.callers[i]) + (if s.ready then 20 else 0)
    ensures Less(s.(callers := s.callers[i := caller], ready := ready), s)
  {
    SeekingMoves(s.callers, i, caller);
    CallersRankMoves(s.shared.generation, s.callers, i, caller);
  }

  lemma AdmitDescends(s: State, i: nat)
    requires CallerEnabled(s, i, Attempt)
    ensures Less(AdmitStep(s, i), s)
  {
    var t := AdmitStep(s, i);
    SeekingMoves(s.callers, i, t.callers[i]);
    CallersRankMoves(s.shared.generation, s.callers, i, t.callers[i]);
  }

  lemma AttemptDescends(p: Policy, s: State, i: nat)
    requires CallerEnabled(s, i, Attempt)
    ensures Less(AttemptStep(p, s, i), s)
  {
    var caller := s.callers[i];
    if !s.shared.accepting {
      CallerMoveDescends(s, i, caller.(pc := Returned(Closed)), s.ready);
    } else if caller.expired {
      CallerMoveDescends(s, i, caller.(pc := Returned(Expired)), s.ready);
    } else if Fits(p, s.shared, caller.bytes) {
      AdmitDescends(s, i);
    } else {
      CallerMoveDescends(s, i, caller.(pc := Waiting(s.shared.generation)), s.ready);
    }
  }

  lemma CallerDescends(p: Policy, s: State, i: nat, a: CallerAction)
    requires CallerEnabled(s, i, a)
    ensures Less(CallerStep(p, s, i, a), s)
  {
    var caller := s.callers[i];
    match a {
      case ExpireCaller => CallerMoveDescends(s, i, caller.(expired := true), s.ready);
      case Attempt => AttemptDescends(p, s, i);
      case Signal => CallerMoveDescends(s, i, caller.(pc := Awaiting), true);
      case Wake => CallerMoveDescends(s, i, caller.(pc := Trying), s.ready);
      case GiveUp => CallerMoveDescends(s, i, caller.(pc := Returned(Expired)), s.ready);
      case Receive => CallerMoveDescends(s, i, ReceiveStep(s, i).callers[i], s.ready);
    }
  }

  lemma CloserMoveDescends(s: State, i: nat, closer: Closer, ready: bool, cancelled: bool)
    requires i < |s.closers| && (s.cancelled ==> cancelled)
    requires CloserRank(closer) + (if ready then 20 else 0) < CloserRank(s.closers[i]) + (if s.ready then 20 else 0)
    ensures Less(s.(closers := s.closers[i := closer], ready := ready, cancelled := cancelled), s)
  {
    ClosersRankMoves(s.closers, i, closer);
  }

  // The two parts of the state the ranks do not look at.
  lemma BookkeepingIsFree(s: State, t: State, log: Log, once: Once)
    requires Less(t, s)
    ensures Less(t.(log := log, once := once), s)
  {
    assert Unsettled(t.(log := log, once := once)) == Unsettled(t);
  }

  lemma CloseDescends(s: State, i: nat)
    requires CloserEnabled(s, i, EnterClose) && (s.once.Fresh? ==> s.shared.accepting)
    ensures Less(CloseStep(s, i), s)
  {
    if !s.once.Fresh? {
      CloserMoveDescends(s, i, CloseStep(s, i).closers[i], s.ready, s.cancelled);
    }
  }

  lemma SignalClosedDescends(s: State, i: nat)
    requires CloserEnabled(s, i, SignalClosed)
    ensures Less(CloserStep(s, i, SignalClosed), s)
  {
    var closer := s.closers[i].(pc := Selecting);
    CloserMoveDescends(s, i, closer, true, s.cancelled);
    BookkeepingIsFree(s, s.(closers := s.closers[i := closer], ready := true), s.log, Finished);
  }

  lemma CancelLifecycleDescends(s: State, i: nat)
    requires CloserEnabled(s, i, CancelLifecycle)
    ensures Less(CancelStep(s, i), s)
  {
    var closer := s.closers[i].(pc := CancelSignalling);
    CloserMoveDescends(s, i, closer, s.ready, true);
    BookkeepingIsFree(s, s.(closers := s.closers[i := closer], cancelled := true), CancelStep(s, i).log, s.once);
  }

  lemma CloserDescends(s: State, i: nat, a: CloserAction)
    requires CloserEnabled(s, i, a)
    requires s.once.Fresh? ==> s.shared.accepting
    ensures Less(CloserStep(s, i, a), s)
  {
    var closer := s.closers[i];
    match a {
      case EnterClose => CloseDescends(s, i);
      case SignalClosed => SignalClosedDescends(s, i);
      case CancelLifecycle => CancelLifecycleDescends(s, i);
      case ExpireCloser => CloserMoveDescends(s, i, closer.(expired := true), s.ready, s.cancelled);
      case SignalCancel => CloserMoveDescends(s, i, closer.(pc := AwaitingDone), true, s.cancelled);
      case _ => CloserMoveDescends(s, i, CloserStep(s, i, a).closers[i], s.ready, s.cancelled);
    }
  }

  lemma SettleDescends(s: State, outcome: Option<Error>, worker: WorkerPc)
    requires s.window != []
    requires Unsettled(s) == s.window + InHand(worker) + s.shared.pending
    ensures Less(SettleStep(s, outcome).(worker := worker), s)
  {
  }

  lemma SendDescends(s: State, left: seq<Request>, outcome: Option<Error>, worker: WorkerPc)
    requires left != [] && CanSend(s.callers, left)
    requires InHand(worker) == InHand(s.worker) && WorkerRank(worker, s.cancelled) < WorkerRank(s.worker, s.cancelled)
    ensures Less(Send(s, left, outcome).(worker := worker), s)
  {
    var i := left[0].caller;
    var caller := s.callers[i].(inbox := Some(outcome));
    SeekingMoves(s.callers, i, caller);
    CallersRankMoves(s.shared.generation, s.callers, i, caller);
    assert Unsettled(Send(s, left, outcome).(worker := worker)) == Unsettled(s);
  }

  lemma DeliverDescends(s: State, outcome: Option<Error>, left: seq<Request>, after: After)
    requires s.worker == Flushing(Deliver(outcome, left), after) && CanSend(s.callers, left)
    ensures Less(DeliverStep(s, outcome, left, after), s)
  {
    if left != [] {
      SendDescends(s, left, outcome, Flushing(Deliver(outcome, left[1..]), after));
    } else {
      assert Unsettled(s.(worker := Resume(after))) == Unsettled(s);
    }
  }

  lemma FlushDescends(s: State, stage: Stage, after: After)
    requires s.worker == Flushing(stage, after) && CanAdvance(s)
    requires !stage.Deliver? ==> s.window != []
    ensures Less(FlushStep(s, stage, after), s)
  {
    match stage {
      case Settle(outcome) => SettleDescends(s, outcome, Flushing(Deliver(outcome, s.window), after));
      case Deliver(outcome, left) => DeliverDescends(s, outcome, left, after);
      case Check => assert Unsettled(CheckStep(s, after)) == Unsettled(s);
      case Record(_) => assert Unsettled(FlushStep(s, stage, after)) == Unsettled(s);
      case Commit =>
    }
  }

  lemma DrainBeginsDescends(s: State)
    requires s.worker.Drain?
    ensures Less(DrainStep(s), s)
  {
    assert Unsettled(DrainStep(s)) == Unsettled(s);
  }

  lemma DrainSettleDescends(p: Policy, s: State)
    requires s.worker.DrainSettle?
    ensures Less(AdvanceStep(p, s), s)
  {
    if s.window != [] {
      SettleDescends(s, Some(Canceled), DrainDeliver(s.window));
    }
  }

  lemma DrainDeliverDescends(s: State, left: seq<Request>)
    requires s.worker == DrainDeliver(left) && CanSend(s.callers, left)
    ensures Less(DrainDeliverStep(s, left), s)
  {
    if left != [] {
      SendDescends(s, left, Some(Canceled), DrainDeliver(left[1..]));
    }
  }

  lemma TakeDescends(s: State)
    requires s.worker.Take?
    ensures Less(TakeStep(s), s)
  {
    assert Unsettled(TakeStep(s)) == Unsettled(s);
  }

  lemma AppendDescends(p: Policy, s: State, next: Request)
    requires s.worker == Append(next)
    ensures Less(AppendStep(p, s, next), s)
  {
    assert Unsettled(AppendStep(p, s, next)) == Unsettled(s);
  }

  lemma GotDescends(p: Policy, s: State, next: Request)
    requires s.worker == Got(next)
    ensures Less(GotStep(p, s, next), s)
  {
    var t := GotStep(p, s, next);
    assert InHand(t.worker) == [next] && WorkerRank(t.worker, t.cancelled) < WorkerRank(s.worker, s.cancelled);
    assert Unsettled(t) == Unsettled(s);
  }

  lemma LoopDescends(p: Policy, s: State)
    requires s.worker.Top? || s.worker.Idle? || s.worker.Recheck? || s.worker.Exit? || s.worker.Closing?
    requires s.worker.Recheck? ==> s.shared.unresolvedExports == 0
    ensures Less(AdvanceStep(p, s), s)
  {
    assert Unsettled(AdvanceStep(p, s)) == Unsettled(s);
  }

  lemma WorkerDescends(p: Policy, s: State, a: WorkerAction)
    requires Inv(p, s) && WorkerEnabled(s, a)
    ensures Less(WorkerStep(p, s, a), s)
  {
    if a.Advance? {
      match s.worker {
        case Flushing(stage, after) => FlushDescends(s, stage, after);
        case Drain => DrainBeginsDescends(s);
        case DrainSettle => DrainSettleDescends(p, s);
        case DrainDeliver(left) => DrainDeliverDescends(s, left);
        case Got(next) => GotDescends(p, s, next);
        case Take => TakeDescends(s);
        case Append(next) => AppendDescends(p, s, next);
        case Recheck => RecheckKeeps(p, s); LoopDescends(p, s);
        case _ => LoopDescends(p, s);
      }
    } else {
      ChoiceDescends(p, s, a);
    }
  }

  lemma CommitDescends(s: State, outcome: Option<Error>, after: After)
    requires s.worker == Flushing(Commit, after)
    ensures Less(CommitStep(s, outcome, after), s)
  {
    assert Unsettled(CommitStep(s, outcome, after)) == Unsettled(s);
  }

  lemma WakeDescends(s: State)
    requires s.worker.Select? && s.ready
    ensures Less(s.(ready := false, worker := Top), s)
  {
    assert Unsettled(s.(ready := false, worker := Top)) == Unsettled(s);
  }

  lemma TimerDescends(s: State)
    requires s.worker.Select? && s.timer && s.window != []
    ensures Less(s.(timer := false, worker := BeginFlush(s.window, ToTop)), s)
  {
    assert Unsettled(s.(timer := false, worker := BeginFlush(s.window, ToTop))) == Unsettled(s);
  }

  lemma CancelDescends(s: State)
    requires s.worker.Select? && s.cancelled
    ensures Less(s.(worker := Top), s)
  {
    assert Unsettled(s.(worker := Top)) == Unsettled(s);
  }

  lemma ChoiceDescends(p: Policy, s: State, a: WorkerAction)
    requires Inv(p, s) && WorkerEnabled(s, a) && !a.Advance?
    ensures Less(WorkerStep(p, s, a), s)
  {
    match a {
      case CommitBatch(outcome) => CommitDescends(s, outcome, s.worker.after);
      case SelectReady => WakeDescends(s);
      case SelectTimer => TimerDescends(s);
      case SelectCancelled => CancelDescends(s);
    }
  }

  // Every step that is not a new call comes closer to quiescence.
  lemma EveryStepDescends(p: Policy, s: State, a: Action)
    requires Inv(p, s) && Enabled(s, a) && !Arrival(a)
    ensures Less(Step(p, s, a), s)
  {
    match a {
      case CallerActs(i, c) => CallerDescends(p, s, i, c);
      case CloserActs(i, c) => CloserDescends(s, i, c);
      case WorkerActs(w) => WorkerDescends(p, s, w);
    }
  }

  // A scheduler picks, whenever the batcher can do something by itself, some step other than a new call. It may pick
  // the expiry of a context, and never has to.
  ghost predicate Schedules(pick: (nat, State) -> Action) {
    forall n: nat, s: State :: !Quiescent(s) ==> Enabled(s, pick(n, s)) && !Arrival(pick(n, s))
  }

  // The state n steps after s, from moment k on; a quiescent state stays as it is.
  ghost function Driven(p: Policy, s: State, pick: (nat, State) -> Action, k: nat, n: nat): State
    requires Schedules(pick)
    decreases n
  {
    if n == 0 || Quiescent(s) then s else Driven(p, Step(p, s, pick(k, s)), pick, k + 1, n - 1)
  }

  lemma DrivenUnfolds(p: Policy, s: State, pick: (nat, State) -> Action, k: nat, n: nat)
    requires Schedules(pick) && !Quiescent(s) && n > 0
    ensures Driven(p, s, pick, k, n) == Driven(p, Step(p, s, pick(k, s)), pick, k + 1, n - 1)
  {
  }

  // Whatever the scheduler does, every call made so far is answered after finitely many steps.
  lemma EverySchedulerAnswers(p: Policy, s: State, pick: (nat, State) -> Action, k: nat) returns (n: nat)
    requires p.Valid() && Inv(p, s) && Schedules(pick)
    ensures Inv(p, Driven(p, s, pick, k, n)) && Answered(Driven(p, s, pick, k, n))
    decreases Bumps(s), Rank(s)
  {
    if Quiescent(s) {
      NoCallIsStuck(p, s);
      n := 0;
    } else {
      StepKeeps(p, s, pick(k, s));
      EveryStepDescends(p, s, pick(k, s));
      var m := EverySchedulerAnswers(p, Step(p, s, pick(k, s)), pick, k + 1);
      n := m + 1;
      DrivenUnfolds(p, s, pick, k, n);
    }
  }
}
