/** What every step of the live export batcher keeps, and therefore what holds in every state of
    every execution, however callers, closers and the worker interleave. */
module BatchingInvariants {
  import opened Batching

  // ---------- vocabulary ----------

  // The request the worker has popped but not yet put in its window.
  function InHand(worker: WorkerPc): seq<Request> {
    match worker
    case Got(next) => [next]
    case Append(next) => [next]
    case Flushing(_, ToAppend(next)) => [next]
    case _ => []
  }

  // Admitted requests that have not been resolved, oldest first.
  function Unsettled(s: State): seq<Request> {
    s.window + InHand(s.worker) + s.shared.pending
  }

  // Settlements whose result is still to be sent.
  function Undelivered(worker: WorkerPc): seq<Settlement> {
    match worker
    case Flushing(Deliver(outcome, left), _) => Settlements(left, outcome)
    case DrainDeliver(left) => Settlements(left, Some(Canceled))
    case _ => []
  }

  function Requests(settlements: seq<Settlement>): (r: seq<Request>)
    ensures |r| == |settlements|
    ensures forall k :: 0 <= k < |r| ==> r[k] == settlements[k].request
  {
    seq(|settlements|, k requires 0 <= k < |settlements| => settlements[k].request)
  }

  // The settlements the destination's answers call for.
  function Given(handed: seq<Batch>): seq<Settlement> {
    if handed == [] then []
    else Given(handed[..|handed| - 1]) + Settlements(handed[|handed| - 1].requests, handed[|handed| - 1].outcome)
  }

  // The window while its outcome is known but not yet settled.
  function InFlight(worker: WorkerPc, window: seq<Request>): seq<Settlement> {
    match worker
    case Flushing(Record(err), _) => Settlements(window, Some(err))
    case Flushing(Settle(outcome), _) => Settlements(window, outcome)
    case DrainSettle => Settlements(window, Some(Canceled))
    case _ => []
  }

  predicate PastCancel(closer: Closer) {
    && closer.expired
    && match closer.pc
       case CancelSignalling => true
       case AwaitingDone => true
       case Joining(own) => own.Some?
       case CloseReturned(own, _) => own.Some?
       case _ => false
  }

  ghost predicate SomeoneSignalling(callers: seq<Caller>) {
    exists i :: 0 <= i < |callers| && callers[i].pc.Signalling?
  }

  predicate Rechecking(worker: WorkerPc) {
    worker.Recheck? || (worker.Flushing? && worker.after.ToRecheck?)
  }

  // The worker has seen an empty queue and has not yet been woken.
  predicate PastTake(worker: WorkerPc) {
    worker.Idle? || worker.Select? || Rechecking(worker)
  }

  predicate Leaving(worker: WorkerPc) {
    worker.Exit? || worker.Closing? || worker.Done?
  }

  predicate Committing(worker: WorkerPc) {
    worker.Flushing? && worker.stage.Commit?
  }

  predicate Recording(worker: WorkerPc) {
    worker.Flushing? && worker.stage.Record?
  }

  predicate Admissible(pc: CallerPc) {
    pc.Signalling? || pc.Awaiting? || (pc.Returned? && pc.answer.Outcome?)
  }

  // ---------- the invariant ----------

  predicate Accounting(p: Policy, shared: Shared, unsettled: seq<Request>) {
    && shared.unresolvedExports == |unsettled| <= p.admissionExports
    && shared.unresolvedBytes == Bytes(unsettled) <= p.admissionBytes
  }

  predicate Order(log: Log, unsettled: seq<Request>, undelivered: seq<Settlement>) {
    && log.admitted == Requests(log.settled) + unsettled
    && log.settled == log.delivered + undelivered
  }

  // A caller whose request was admitted, before and after its result was sent.
  predicate Holds(caller: Caller, request: Request, result: Option<Option<Error>>) {
    && caller.bytes == request.bytes
    && match result
       case None => caller.inbox == None && (caller.pc.Signalling? || caller.pc.Awaiting?)
       case Some(outcome) =>
         || (caller.inbox == Some(outcome) && (caller.pc.Signalling? || caller.pc.Awaiting?))
         || (caller.inbox == None && caller.pc == Returned(Outcome(outcome)))
  }

  function ResultOf(delivered: seq<Settlement>, k: nat): Option<Option<Error>> {
    if k < |delivered| then Some(delivered[k].outcome) else None
  }

  // Every admitted request belongs to one caller, and what that caller has got is its settlement.
  ghost predicate Roster(callers: seq<Caller>, admitted: seq<Request>, delivered: seq<Settlement>) {
    && (forall k :: 0 <= k < |admitted| ==>
          && admitted[k].caller < |callers|
          && Holds(callers[admitted[k].caller], admitted[k], ResultOf(delivered, k)))
    && (forall j, k :: 0 <= j < k < |admitted| ==> admitted[j].caller != admitted[k].caller)
    && (forall i :: 0 <= i < |callers| ==> if Admissible(callers[i].pc) then IsAdmitted(admitted, i) else callers[i].inbox == None)
  }

  ghost predicate IsAdmitted(admitted: seq<Request>, i: nat) {
    exists k :: 0 <= k < |admitted| && admitted[k].caller == i
  }

  predicate Sized(p: Policy, callers: seq<Caller>) {
    forall i :: 0 <= i < |callers| && callers[i].pc != Returned(TooLarge) ==>
      callers[i].bytes <= p.windowBytes && callers[i].bytes <= p.admissionBytes
  }

  predicate Room(p: Policy, window: seq<Request>, bytes: int) {
    |window| <= p.windowExports && bytes <= p.windowBytes
  }

  // The window's size, and the timer, at every point of the worker's loop.
  predicate Windowed(p: Policy, worker: WorkerPc, window: seq<Request>, bytes: int, timer: bool) {
    && (!worker.DrainSettle? ==> bytes == Bytes(window))
    && match worker
       case Append(next) => |window| + 1 <= p.windowExports && bytes + next.bytes <= p.windowBytes && (timer <==> window != [])
       case Flushing(stage, _) =>
         if stage.Deliver? then window == [] && !timer
         else window != [] && Room(p, window, bytes) && (!stage.Check? ==> !timer)
       case Recheck => window == [] && !timer
       case Drain => true
       case DrainSettle => true
       case DrainDeliver(_) => window == []
       case Exit => window == []
       case Closing => window == []
       case Done => window == []
       case _ => |window| < p.windowExports && bytes < p.windowBytes && (timer <==> window != [])
  }

  predicate BatchFits(p: Policy, batch: Batch) {
    batch.requests != [] && |batch.requests| <= p.windowExports && Bytes(batch.requests) <= p.windowBytes
  }

  // all begins with given, and what is beyond it was canceled.
  predicate Covers(all: seq<Settlement>, given: seq<Settlement>) {
    && given <= all
    && forall k :: |given| <= k < |all| ==> all[k].outcome == Some(Canceled)
  }

  predicate Handing(p: Policy, log: Log, worker: WorkerPc, inFlight: seq<Settlement>) {
    && Covers(log.settled + inFlight, Given(log.handed))
    && (!log.interrupted ==> log.settled + inFlight == Given(log.handed))
    && (log.interrupted ==> !Committing(worker))
    && (worker.DrainSettle? || worker.DrainDeliver? ==> log.interrupted)
    && (forall b :: 0 <= b < |log.handed| ==> BatchFits(p, log.handed[b]))
  }

  // The first error the destination answered with.
  function FirstError(handed: seq<Batch>): Option<Error> {
    if handed == [] then None
    else if FirstError(handed[..|handed| - 1]).Some? then FirstError(handed[..|handed| - 1])
    else handed[|handed| - 1].outcome
  }

  // The error kept for Close, once the worker has recorded the one in its hands.
  function Blamed(commitError: Option<Error>, worker: WorkerPc): Option<Error> {
    if commitError == None && Recording(worker) then Some(worker.stage.err) else commitError
  }

  // It is the first one; without one it can only be the cancellation.
  predicate Blame(commitError: Option<Error>, log: Log, worker: WorkerPc) {
    && (FirstError(log.handed).Some? ==> Blamed(commitError, worker) == FirstError(log.handed))
    && (FirstError(log.handed).None? && Blamed(commitError, worker).Some? ==>
          Blamed(commitError, worker) == Some(Canceled) && log.interrupted)
  }

  // What has an outcome was handed over or abandoned, in this order.
  predicate Abandoning(log: Log, inFlight: seq<Settlement>) {
    && (log.abandoned != [] ==> log.interrupted)
    && Requests(log.settled + inFlight) == Requests(Given(log.handed)) + log.abandoned
  }

  predicate CloserSound(accepting: bool, done: bool, commitError: Option<Error>, closer: Closer) {
    && (!closer.pc.Entering? ==> !accepting)
    && match closer.pc
       case Cancelling => closer.expired
       case CancelSignalling => closer.expired
       case AwaitingDone => closer.expired
       case Joining(own) => done && (own.Some? ==> closer.expired)
       case CloseReturned(own, commit) => done && commit == commitError && (own.Some? ==> closer.expired)
       case _ => true
  }

  // closeOnce: accepting is over once it has started, and its runner is the one signalling.
  predicate Closers(once: Once, accepting: bool, closers: seq<Closer>) {
    && (once.Fresh? <==> accepting)
    && (once.Running? ==> once.runner < |closers| && closers[once.runner].pc.ClosedSignalling?)
    && (forall j :: 0 <= j < |closers| && closers[j].pc.ClosedSignalling? ==> once == Running(j))
  }

  predicate ClosersSound(accepting: bool, done: bool, commitError: Option<Error>, closers: seq<Closer>) {
    forall j :: 0 <= j < |closers| ==> CloserSound(accepting, done, commitError, closers[j])
  }

  predicate Cancelled(cancelled: bool, accepting: bool, closing: bool, log: Log, closers: seq<Closer>) {
    && (cancelled ==> !accepting && (closing || log.cancelledBy.Some?))
    && (log.interrupted ==> cancelled && log.cancelledBy.Some?)
    && (log.cancelledBy.Some? ==> log.cancelledBy.value < |closers| && PastCancel(closers[log.cancelledBy.value]))
  }

  predicate Ending(s: State) {
    && (s.done <==> s.worker.Done?)
    && (s.worker.Drain? || s.worker.DrainSettle? || s.worker.DrainDeliver? || s.worker.Closing? || s.worker.Done? ==> s.cancelled)
    && (Leaving(s.worker) || s.worker == Idle(false) || Rechecking(s.worker) ==> !s.shared.accepting)
    && (Leaving(s.worker) || s.worker == Idle(false) || Rechecking(s.worker) || s.worker.DrainSettle? || s.worker.DrainDeliver? ==>
          s.shared.pending == [])
  }

  ghost predicate Wakeful(s: State) {
    && (PastTake(s.worker) && s.shared.pending != [] ==> s.ready || SomeoneSignalling(s.callers))
    && ((s.worker == Idle(true) || s.worker.Select?) && !s.shared.accepting ==> s.ready || s.once.Running?)
  }

  predicate Patient(p: Policy, shared: Shared, callers: seq<Caller>) {
    forall i :: 0 <= i < |callers| && callers[i].pc.Waiting? ==>
      && callers[i].pc.generation <= shared.generation
      && (callers[i].pc.generation == shared.generation ==> shared.accepting && !Fits(p, shared, callers[i].bytes))
  }

  // What is counted, ordered, windowed and handed over.
  ghost predicate Books(p: Policy, s: State) {
    && Accounting(p, s.shared, Unsettled(s))
    && Order(s.log, Unsettled(s), Undelivered(s.worker))
    && Roster(s.callers, s.log.admitted, s.log.delivered)
    && Sized(p, s.callers)
    && Windowed(p, s.worker, s.window, s.windowBytes, s.timer)
    && Handing(p, s.log, s.worker, InFlight(s.worker, s.window))
    && Blame(s.shared.commitError, s.log, s.worker)
    && Abandoning(s.log, InFlight(s.worker, s.window))
  }

  // How closing, cancelling, waking and waiting go together.
  ghost predicate Conduct(p: Policy, s: State) {
    && Closers(s.once, s.shared.accepting, s.closers)
    && ClosersSound(s.shared.accepting, s.done, s.shared.commitError, s.closers)
    && Cancelled(s.cancelled, s.shared.accepting, s.worker.Closing? || s.worker.Done?, s.log, s.closers)
    && Ending(s)
    && Wakeful(s)
    && Patient(p, s.shared, s.callers)
  }

  ghost predicate Inv(p: Policy, s: State) {
    Books(p, s) && Conduct(p, s)
  }

  // ---------- sums ----------

  lemma {:induction false} BytesOfConcat(a: seq<Request>, b: seq<Request>)
    ensures Bytes(a + b) == Bytes(a) + Bytes(b)
  {
    if b == [] {
      assert a + b == a;
    } else {
      BytesOfConcat(a, b[..|b| - 1]);
      assert (a + b)[..|a + b| - 1] == a + b[..|b| - 1];
    }
  }

  lemma BytesOfOne(r: Request)
    ensures Bytes([r]) == r.bytes
  {
    assert Bytes([r][..0]) == 0;
  }

  // ---------- what a step leaves alone ----------

  // Callers and closers do not touch the worker, its window or what has happened to the requests.
  lemma OthersKeepBooks(p: Policy, s: State, t: State)
    requires Books(p, s)
    requires t.worker == s.worker && t.window == s.window && t.windowBytes == s.windowBytes && t.timer == s.timer
    requires t.shared == s.shared.(accepting := t.shared.accepting, generation := t.shared.generation)
    requires t.log == s.log.(cancelledBy := t.log.cancelledBy)
    requires Roster(t.callers, s.log.admitted, s.log.delivered) && Sized(p, t.callers)
    ensures Books(p, t)
  {
    assert Unsettled(t) == Unsettled(s);
  }

  // The worker goes on and nobody's request changes hands.
  lemma WorkerKeepsBooks(p: Policy, s: State, t: State)
    requires Books(p, s) && t.callers == s.callers && t.log == s.log
    requires t.shared == s.shared.(pending := t.shared.pending)
    requires Unsettled(t) == Unsettled(s) && Undelivered(t.worker) == Undelivered(s.worker)
    requires InFlight(t.worker, t.window) == InFlight(s.worker, s.window)
    requires Windowed(p, t.worker, t.window, t.windowBytes, t.timer)
    requires !Recording(s.worker) && !Recording(t.worker) && (Committing(t.worker) ==> !s.log.interrupted)
    requires t.worker.DrainSettle? || t.worker.DrainDeliver? ==> s.log.interrupted
    ensures Books(p, t)
  {
  }

  lemma WorkerKeepsConduct(p: Policy, s: State, t: State)
    requires Conduct(p, s) && t.callers == s.callers && t.closers == s.closers && t.once == s.once
    requires t.done == s.done && t.cancelled == s.cancelled
    requires t.shared == s.shared.(pending := t.shared.pending)
    requires t.log.cancelledBy == s.log.cancelledBy && t.log.interrupted == s.log.interrupted
    requires s.worker.Closing? || s.worker.Done? ==> t.worker.Closing? || t.worker.Done?
    requires Ending(t) && Wakeful(t)
    ensures Conduct(p, t)
  {
  }

  lemma WorkerKeeps(p: Policy, s: State, t: State)
    requires Inv(p, s) && t.callers == s.callers && t.log == s.log && t.closers == s.closers && t.once == s.once
    requires t.done == s.done && t.cancelled == s.cancelled
    requires t.shared == s.shared.(pending := t.shared.pending)
    requires Unsettled(t) == Unsettled(s) && Undelivered(t.worker) == Undelivered(s.worker)
    requires InFlight(t.worker, t.window) == InFlight(s.worker, s.window)
    requires Windowed(p, t.worker, t.window, t.windowBytes, t.timer)
    requires !Recording(s.worker) && !Recording(t.worker) && (Committing(t.worker) ==> !s.log.interrupted)
    requires t.worker.DrainSettle? || t.worker.DrainDeliver? ==> s.log.interrupted
    requires s.worker.Closing? || s.worker.Done? ==> t.worker.Closing? || t.worker.Done?
    requires Ending(t) && Wakeful(t)
    ensures Inv(p, t)
  {
    WorkerKeepsBooks(p, s, t);
    WorkerKeepsConduct(p, s, t);
  }

  // ---------- callers ----------

  lemma RosterGrows(callers: seq<Caller>, caller: Caller, admitted: seq<Request>, delivered: seq<Settlement>)
    requires Roster(callers, admitted, delivered)
    requires !Admissible(caller.pc) && caller.inbox == None
    ensures Roster(callers + [caller], admitted, delivered)
  {
  }

  lemma CallKeepsConduct(p: Policy, s: State, bytes: nat)
    requires Conduct(p, s)
    ensures Conduct(p, CallStep(p, s, bytes))
  {
    var t := CallStep(p, s, bytes);
    assert forall i :: 0 <= i < |s.callers| ==> t.callers[i] == s.callers[i];
  }

  lemma CallKeeps(p: Policy, s: State, bytes: nat)
    requires Inv(p, s)
    ensures Inv(p, CallStep(p, s, bytes))
  {
    var t := CallStep(p, s, bytes);
    RosterGrows(s.callers, t.callers[|s.callers|], s.log.admitted, s.log.delivered);
    OthersKeepBooks(p, s, t);
    CallKeepsConduct(p, s, bytes);
  }

  lemma AdmitBalances(p: Policy, shared: Shared, log: Log, unsettled: seq<Request>, undelivered: seq<Settlement>, r: Request)
    requires Accounting(p, shared, unsettled) && Order(log, unsettled, undelivered)
    requires Fits(p, shared, r.bytes)
    ensures Accounting(p, Admitted(shared, r), unsettled + [r])
    ensures Order(log.(admitted := log.admitted + [r]), unsettled + [r], undelivered)
  {
    BytesOfConcat(unsettled, [r]);
    BytesOfOne(r);
  }

  lemma AdmitKeepsRoster(s: State, i: nat, t: State)
    requires Roster(s.callers, s.log.admitted, s.log.delivered)
    requires |s.log.delivered| <= |s.log.admitted|
    requires CallerEnabled(s, i, Attempt) && t == AdmitStep(s, i) && s.callers[i].inbox.None?
    ensures Roster(t.callers, t.log.admitted, t.log.delivered)
  {
    var n := |s.log.admitted|;
    assert t.log.admitted[n] == Request(i, s.callers[i].bytes);
    forall k | 0 <= k < |t.callers| && Admissible(t.callers[k].pc) ensures IsAdmitted(t.log.admitted, k) {
      if k == i {
        assert t.log.admitted[n].caller == k;
      } else {
        var m :| 0 <= m < n && s.log.admitted[m].caller == k;
        assert t.log.admitted[m].caller == k;
      }
    }
  }

  lemma AdmitKeepsBooks(p: Policy, s: State, i: nat)
    requires Books(p, s) && CallerEnabled(s, i, Attempt)
    requires s.shared.accepting && Fits(p, s.shared, s.callers[i].bytes)
    ensures Books(p, AdmitStep(s, i))
  {
    var t, r := AdmitStep(s, i), Request(i, s.callers[i].bytes);
    assert Unsettled(t) == Unsettled(s) + [r];
    AdmitBalances(p, s.shared, s.log, Unsettled(s), Undelivered(s.worker), r);
    AdmitKeepsRoster(s, i, t);
  }

  lemma AdmitKeepsConduct(p: Policy, s: State, i: nat)
    requires Conduct(p, s) && CallerEnabled(s, i, Attempt)
    requires s.shared.accepting && Fits(p, s.shared, s.callers[i].bytes)
    ensures Conduct(p, AdmitStep(s, i))
  {
    assert AdmitStep(s, i).callers[i].pc.Signalling?;
  }

  // Nobody else notices, and the caller keeps its request and its result.
  predicate Alike(before: Caller, after: Caller) {
    && after.bytes == before.bytes && after.inbox == before.inbox
    && Admissible(after.pc) == Admissible(before.pc)
    && (Admissible(before.pc) ==> (after.pc == before.pc || (!after.pc.Returned? && !before.pc.Returned?)))
    && (before.pc == Returned(TooLarge) ==> after.pc == before.pc)
  }

  lemma AlikeKeepsRoster(callers: seq<Caller>, i: nat, caller: Caller, admitted: seq<Request>, delivered: seq<Settlement>)
    requires Roster(callers, admitted, delivered) && i < |callers| && Alike(callers[i], caller)
    ensures Roster(callers[i := caller], admitted, delivered)
  {
    var after := callers[i := caller];
    forall k | 0 <= k < |admitted|
      ensures admitted[k].caller < |after| && Holds(after[admitted[k].caller], admitted[k], ResultOf(delivered, k))
    {
      assert Holds(callers[admitted[k].caller], admitted[k], ResultOf(delivered, k));
    }
  }

  // A caller that goes on signalling, or was not, leaves someone signalling.
  lemma StillSignalling(callers: seq<Caller>, i: nat, c: Caller)
    requires i < |callers| && (callers[i].pc.Signalling? ==> c.pc.Signalling?)
    ensures SomeoneSignalling(callers) ==> SomeoneSignalling(callers[i := c])
  {
    if j :| 0 <= j < |callers| && callers[j].pc.Signalling? {
      assert callers[i := c][j].pc.Signalling?;
    }
  }

  lemma CallerKeepsConduct(p: Policy, s: State, i: nat, caller: Caller, ready: bool)
    requires Conduct(p, s) && i < |s.callers|
    requires (s.ready ==> ready) && (s.callers[i].pc.Signalling? ==> caller.pc.Signalling? || ready)
    requires Patient(p, s.shared, [caller])
    ensures Conduct(p, s.(callers := s.callers[i := caller], ready := ready))
  {
    if !ready {
      StillSignalling(s.callers, i, caller);
    }
    assert [caller][0] == caller;
  }

  lemma CallerMoveKeeps(p: Policy, s: State, i: nat, caller: Caller, ready: bool)
    requires Inv(p, s) && i < |s.callers| && Alike(s.callers[i], caller)
    requires (s.ready ==> ready) && (s.callers[i].pc.Signalling? ==> caller.pc.Signalling? || ready)
    requires Patient(p, s.shared, [caller])
    ensures Inv(p, s.(callers := s.callers[i := caller], ready := ready))
  {
    AlikeKeepsRoster(s.callers, i, caller, s.log.admitted, s.log.delivered);
    OthersKeepBooks(p, s, s.(callers := s.callers[i := caller], ready := ready));
    CallerKeepsConduct(p, s, i, caller, ready);
  }

  lemma AttemptKeeps(p: Policy, s: State, i: nat)
    requires Inv(p, s) && CallerEnabled(s, i, Attempt)
    ensures Inv(p, AttemptStep(p, s, i))
  {
    var caller := s.callers[i];
    if !s.shared.accepting {
      CallerMoveKeeps(p, s, i, caller.(pc := Returned(Closed)), s.ready);
    } else if caller.expired {
      CallerMoveKeeps(p, s, i, caller.(pc := Returned(Expired)), s.ready);
    } else if Fits(p, s.shared, caller.bytes) {
      AdmitKeepsBooks(p, s, i);
      AdmitKeepsConduct(p, s, i);
    } else {
      CallerMoveKeeps(p, s, i, caller.(pc := Waiting(s.shared.generation)), s.ready);
    }
  }

  lemma ExpireCallerKeeps(p: Policy, s: State, i: nat)
    requires Inv(p, s) && CallerEnabled(s, i, ExpireCaller)
    ensures Inv(p, CallerStep(p, s, i, ExpireCaller))
  {
    CallerMoveKeeps(p, s, i, s.callers[i].(expired := true), s.ready);
  }

  lemma SignalKeeps(p: Policy, s: State, i: nat)
    requires Inv(p, s) && CallerEnabled(s, i, Signal)
    ensures Inv(p, CallerStep(p, s, i, Signal))
  {
    CallerMoveKeeps(p, s, i, s.callers[i].(pc := Awaiting), true);
  }

  lemma WakeKeeps(p: Policy, s: State, i: nat)
    requires Inv(p, s) && CallerEnabled(s, i, Wake)
    ensures Inv(p, CallerStep(p, s, i, Wake))
  {
    CallerMoveKeeps(p, s, i, s.callers[i].(pc := Trying), s.ready);
  }

  lemma GiveUpKeeps(p: Policy, s: State, i: nat)
    requires Inv(p, s) && CallerEnabled(s, i, GiveUp)
    ensures Inv(p, CallerStep(p, s, i, GiveUp))
  {
    CallerMoveKeeps(p, s, i, s.callers[i].(pc := Returned(Expired)), s.ready);
  }

  lemma ReceiveKeepsRoster(s: State, i: nat)
    requires Roster(s.callers, s.log.admitted, s.log.delivered) && CallerEnabled(s, i, Receive)
    ensures Roster(ReceiveStep(s, i).callers, s.log.admitted, s.log.delivered)
  {
    var after := ReceiveStep(s, i).callers;
    forall k | 0 <= k < |s.log.admitted|
      ensures s.log.admitted[k].caller < |after| &&
              Holds(after[s.log.admitted[k].caller], s.log.admitted[k], ResultOf(s.log.delivered, k))
    {
      assert Holds(s.callers[s.log.admitted[k].caller], s.log.admitted[k], ResultOf(s.log.delivered, k));
    }
  }

  lemma ReceiveKeeps(p: Policy, s: State, i: nat)
    requires Inv(p, s) && CallerEnabled(s, i, Receive)
    ensures Inv(p, ReceiveStep(s, i))
  {
    ReceiveKeepsRoster(s, i);
    OthersKeepBooks(p, s, ReceiveStep(s, i));
    CallerKeepsConduct(p, s, i, ReceiveStep(s, i).callers[i], s.ready);
  }

  // ---------- closers ----------

  lemma CallCloseKeepsConduct(p: Policy, s: State)
    requires Conduct(p, s)
    ensures Conduct(p, Step(p, s, CallClose))
  {
  }

  lemma CallCloseKeeps(p: Policy, s: State)
    requires Inv(p, s)
    ensures Inv(p, Step(p, s, CallClose))
  {
    OthersKeepBooks(p, s, Step(p, s, CallClose));
    CallCloseKeepsConduct(p, s);
  }

  lemma EnterCloseKeepsConduct(p: Policy, s: State, i: nat)
    requires Conduct(p, s) && CloserEnabled(s, i, EnterClose)
    ensures Conduct(p, CloserStep(s, i, EnterClose))
  {
  }

  lemma EnterCloseKeeps(p: Policy, s: State, i: nat)
    requires Inv(p, s) && CloserEnabled(s, i, EnterClose)
    ensures Inv(p, CloserStep(s, i, EnterClose))
  {
    OthersKeepBooks(p, s, CloserStep(s, i, EnterClose));
    EnterCloseKeepsConduct(p, s, i);
  }

  lemma SignalClosedKeepsConduct(p: Policy, s: State, i: nat)
    requires Conduct(p, s) && CloserEnabled(s, i, SignalClosed)
    ensures Conduct(p, CloserStep(s, i, SignalClosed))
  {
  }

  lemma SignalClosedKeeps(p: Policy, s: State, i: nat)
    requires Inv(p, s) && CloserEnabled(s, i, SignalClosed)
    ensures Inv(p, CloserStep(s, i, SignalClosed))
  {
    OthersKeepBooks(p, s, CloserStep(s, i, SignalClosed));
    SignalClosedKeepsConduct(p, s, i);
  }

  lemma CancelLifecycleKeepsConduct(p: Policy, s: State, i: nat)
    requires Conduct(p, s) && CloserEnabled(s, i, CancelLifecycle)
    ensures Conduct(p, CloserStep(s, i, CancelLifecycle))
  {
    assert PastCancel(CloserStep(s, i, CancelLifecycle).closers[i]);
  }

  lemma CancelLifecycleKeeps(p: Policy, s: State, i: nat)
    requires Inv(p, s) && CloserEnabled(s, i, CancelLifecycle)
    ensures Inv(p, CloserStep(s, i, CancelLifecycle))
  {
    OthersKeepBooks(p, s, CloserStep(s, i, CancelLifecycle));
    CancelLifecycleKeepsConduct(p, s, i);
  }

  lemma CloserKeepsConduct(p: Policy, s: State, i: nat, a: CloserAction)
    requires Conduct(p, s) && CloserEnabled(s, i, a)
    requires a.ExpireCloser? || a.SeeDone? || a.SeeExpired? || a.SignalCancel? || a.JoinErrors?
    ensures Conduct(p, CloserStep(s, i, a))
  {
  }

  lemma CloserKeeps(p: Policy, s: State, i: nat, a: CloserAction)
    requires Inv(p, s) && CloserEnabled(s, i, a)
    requires a.ExpireCloser? || a.SeeDone? || a.SeeExpired? || a.SignalCancel? || a.JoinErrors?
    ensures Inv(p, CloserStep(s, i, a))
  {
    OthersKeepBooks(p, s, CloserStep(s, i, a));
    CloserKeepsConduct(p, s, i, a);
  }

  // ---------- the worker's loop ----------

  lemma ConcatTakes(window: seq<Request>, pending: seq<Request>)
    requires pending != []
    ensures window + [] + pending == window + [pending[0]] + pending[1..]
  {
  }

  lemma TakeKeeps(p: Policy, s: State)
    requires Inv(p, s) && s.worker.Take?
    ensures Inv(p, TakeStep(s))
  {
    if s.shared.pending != [] {
      ConcatTakes(s.window, s.shared.pending);
    }
    WorkerKeeps(p, s, TakeStep(s));
  }

  // What the worker holds fits its window's limits by itself.
  lemma NextFits(p: Policy, s: State)
    requires Books(p, s) && InHand(s.worker) != []
    ensures InHand(s.worker)[0].bytes <= p.windowBytes
  {
    var k := |s.log.settled| + |s.window|;
    assert s.log.admitted[k] == Unsettled(s)[|s.window|] == InHand(s.worker)[0];
  }

  // Popping a request into a window that is full, and into one that has room.
  lemma GotFlushes(p: Policy, s: State, next: Request)
    requires p.Valid() && Inv(p, s) && s.worker == Got(next) && s.window != []
    ensures Inv(p, s.(worker := BeginFlush(s.window, ToAppend(next))))
  {
    WorkerKeeps(p, s, s.(worker := Flushing(Check, ToAppend(next))));
  }

  lemma GotAppends(p: Policy, s: State, next: Request)
    requires p.Valid() && Inv(p, s) && s.worker == Got(next)
    requires s.window == [] || (|s.window| < p.windowExports && s.windowBytes + next.bytes <= p.windowBytes)
    ensures Inv(p, s.(worker := Append(next)))
  {
    NextFits(p, s);
    WorkerKeeps(p, s, s.(worker := Append(next)));
  }

  lemma GotKeeps(p: Policy, s: State)
    requires p.Valid() && Inv(p, s) && s.worker.Got?
    ensures Inv(p, GotStep(p, s, s.worker.next))
  {
    var next := s.worker.next;
    if s.window != [] && (|s.window| >= p.windowExports || s.windowBytes + next.bytes > p.windowBytes) {
      GotFlushes(p, s, next);
    } else {
      GotAppends(p, s, next);
    }
  }

  lemma AppendKeeps(p: Policy, s: State)
    requires p.Valid() && Inv(p, s) && s.worker.Append?
    ensures Inv(p, AppendStep(p, s, s.worker.next))
  {
    var next := s.worker.next;
    var t := AppendStep(p, s, next);
    assert Unsettled(t) == Unsettled(s);
    BytesOfConcat(s.window, [next]);
    BytesOfOne(next);
    WorkerKeeps(p, s, t);
  }

  lemma TopKeeps(p: Policy, s: State)
    requires Inv(p, s) && s.worker.Top?
    ensures Inv(p, AdvanceStep(p, s))
  {
    WorkerKeeps(p, s, AdvanceStep(p, s));
  }

  lemma RecheckBegins(p: Policy, s: State)
    requires Inv(p, s) && s.worker == Idle(false)
    ensures Inv(p, s.(worker := BeginFlush(s.window, ToRecheck)))
  {
    WorkerKeeps(p, s, s.(worker := BeginFlush(s.window, ToRecheck)));
  }

  lemma IdleKeeps(p: Policy, s: State)
    requires Inv(p, s) && s.worker.Idle?
    ensures Inv(p, AdvanceStep(p, s))
  {
    if s.worker.accepting {
      WorkerKeeps(p, s, s.(worker := Select));
    } else {
      RecheckBegins(p, s);
    }
  }

  // Once accepting is over and the queue is empty, the flush leaves nothing unresolved.
  lemma RecheckKeeps(p: Policy, s: State)
    requires Inv(p, s) && s.worker.Recheck?
    ensures s.shared.unresolvedExports == 0
    ensures Inv(p, AdvanceStep(p, s))
  {
    assert Unsettled(s) == [];
    WorkerKeeps(p, s, AdvanceStep(p, s));
  }

  lemma SelectTopKeeps(p: Policy, s: State, ready: bool)
    requires Inv(p, s) && s.worker.Select?
    ensures Inv(p, s.(ready := ready, worker := Top))
  {
    WorkerKeeps(p, s, s.(ready := ready, worker := Top));
  }

  lemma SelectTimerKeeps(p: Policy, s: State)
    requires Inv(p, s) && s.worker.Select? && s.timer
    ensures Inv(p, s.(timer := false, worker := BeginFlush(s.window, ToTop)))
  {
    WorkerKeeps(p, s, s.(timer := false, worker := Flushing(Check, ToTop)));
  }

  lemma SelectKeeps(p: Policy, s: State, a: WorkerAction)
    requires Inv(p, s) && WorkerEnabled(s, a) && s.worker.Select?
    ensures Inv(p, WorkerStep(p, s, a))
  {
    match a {
      case SelectTimer => SelectTimerKeeps(p, s);
      case _ => SelectTopKeeps(p, s, s.ready && !a.SelectReady?);
    }
  }

  // ---------- flush ----------

  lemma RequestsOfConcat(settled: seq<Settlement>, requests: seq<Request>, outcome: Option<Error>)
    ensures Requests(settled + Settlements(requests, outcome)) == Requests(settled) + requests
  {
  }

  // Requests the worker gives up are abandoned behind everything that was handed over.
  lemma GivesUp(p: Policy, log: Log, before: WorkerPc, window: seq<Request>, worker: WorkerPc)
    requires Handing(p, log, before, []) && Abandoning(log, []) && !Committing(worker)
    ensures var after := log.(interrupted := true, abandoned := log.abandoned + window);
            Handing(p, after, worker, Settlements(window, Some(Canceled))) && Abandoning(after, Settlements(window, Some(Canceled)))
  {
    assert log.settled + [] == log.settled;
    RequestsOfConcat(log.settled, window, Some(Canceled));
    assert Requests(Given(log.handed)) + log.abandoned + window == Requests(Given(log.handed)) + (log.abandoned + window);
  }

  // The lifecycle context is canceled: the window will be resolved without the destination.
  lemma InterruptKeepsBooks(p: Policy, s: State, after: After)
    requires Books(p, s) && s.worker == Flushing(Check, after) && s.cancelled
    ensures Books(p, CheckStep(s, after))
  {
    var t := CheckStep(s, after);
    assert Unsettled(t) == Unsettled(s);
    GivesUp(p, s.log, s.worker, s.window, t.worker);
  }

  lemma InterruptKeepsConduct(p: Policy, s: State, after: After)
    requires Conduct(p, s) && s.worker == Flushing(Check, after) && s.cancelled && s.log.cancelledBy.Some?
    ensures Conduct(p, CheckStep(s, after))
  {
  }

  lemma InterruptKeeps(p: Policy, s: State, after: After)
    requires Inv(p, s) && s.worker == Flushing(Check, after) && s.cancelled
    ensures Inv(p, CheckStep(s, after))
  {
    InterruptKeepsBooks(p, s, after);
    InterruptKeepsConduct(p, s, after);
  }

  lemma BeginCommitKeeps(p: Policy, s: State, after: After)
    requires Inv(p, s) && s.worker == Flushing(Check, after) && !s.cancelled
    ensures Inv(p, CheckStep(s, after))
  {
    WorkerKeeps(p, s, s.(timer := false, worker := Flushing(Commit, after)));
  }

  lemma CheckKeeps(p: Policy, s: State, after: After)
    requires Inv(p, s) && s.worker == Flushing(Check, after)
    ensures Inv(p, CheckStep(s, after))
  {
    if s.cancelled {
      InterruptKeeps(p, s, after);
    } else {
      BeginCommitKeeps(p, s, after);
    }
  }

  // Only an uninterrupted worker commits, so everything settled before was handed over.
  lemma CommitHands(p: Policy, log: Log, window: seq<Request>, outcome: Option<Error>, worker: WorkerPc)
    requires Handing(p, log, Flushing(Commit, ToTop), []) && Abandoning(log, []) && BatchFits(p, Batch(window, outcome))
    requires !worker.DrainSettle? && !worker.DrainDeliver? && !Committing(worker)
    ensures var after := log.(handed := log.handed + [Batch(window, outcome)]);
            Handing(p, after, worker, Settlements(window, outcome)) && Abandoning(after, Settlements(window, outcome))
  {
    var after := log.(handed := log.handed + [Batch(window, outcome)]);
    assert after.handed[..|log.handed|] == log.handed;
    assert log.settled + [] == log.settled;
    assert Given(after.handed) == Given(log.handed) + Settlements(window, outcome);
  }

  lemma CommitKeepsBooks(p: Policy, s: State, outcome: Option<Error>, after: After)
    requires Books(p, s) && s.worker == Flushing(Commit, after)
    ensures Books(p, CommitStep(s, outcome, after))
  {
    var t := CommitStep(s, outcome, after);
    CommitHands(p, s.log, s.window, outcome, t.worker);
    assert InFlight(t.worker, t.window) == Settlements(s.window, outcome);
    assert Unsettled(t) == Unsettled(s);
    assert t.log.handed[..|s.log.handed|] == s.log.handed;
  }

  lemma CommitKeeps(p: Policy, s: State, outcome: Option<Error>, after: After)
    requires Inv(p, s) && s.worker == Flushing(Commit, after)
    ensures Inv(p, CommitStep(s, outcome, after))
  {
    CommitKeepsBooks(p, s, outcome, after);
    WorkerKeepsConduct(p, s, CommitStep(s, outcome, after));
  }

  lemma RecordKeepsBooks(p: Policy, s: State, err: Error, after: After)
    requires Books(p, s) && s.worker == Flushing(Record(err), after)
    ensures Books(p, FlushStep(s, Record(err), after))
  {
    assert Unsettled(FlushStep(s, Record(err), after)) == Unsettled(s);
  }

  lemma RecordKeepsConduct(p: Policy, s: State, err: Error, after: After)
    requires Conduct(p, s) && s.worker == Flushing(Record(err), after)
    ensures Conduct(p, FlushStep(s, Record(err), after))
  {
  }

  lemma RecordKeeps(p: Policy, s: State, err: Error, after: After)
    requires Inv(p, s) && s.worker == Flushing(Record(err), after)
    ensures Inv(p, FlushStep(s, Record(err), after))
  {
    RecordKeepsBooks(p, s, err, after);
    RecordKeepsConduct(p, s, err, after);
  }

  lemma SettleBalances(p: Policy, shared: Shared, log: Log, window: seq<Request>, rest: seq<Request>,
                       outcome: Option<Error>, undelivered: seq<Settlement>)
    requires Accounting(p, shared, window + rest)
    requires Order(log, window + rest, [])
    requires undelivered == Settlements(window, outcome)
    ensures Accounting(p, Resolved(shared, window), rest)
    ensures Order(log.(settled := log.settled + undelivered), rest, undelivered)
  {
    BytesOfConcat(window, rest);
    RequestsOfConcat(log.settled, window, outcome);
    assert Requests(log.settled) + (window + rest) == Requests(log.settled) + window + rest;
    assert log.delivered + [] == log.delivered;
  }

  // The window is resolved with the outcome that is known for it, and its results are sent next.
  lemma SettleKeepsBooks(p: Policy, s: State, outcome: Option<Error>, worker: WorkerPc)
    requires Books(p, s) && InFlight(s.worker, s.window) == Settlements(s.window, outcome) && Undelivered(s.worker) == []
    requires InFlight(worker, []) == [] && Undelivered(worker) == Settlements(s.window, outcome)
    requires InHand(worker) == InHand(s.worker) && !Recording(s.worker) && !Committing(worker)
    requires Windowed(p, worker, [], 0, s.timer) && (worker.DrainSettle? || worker.DrainDeliver? ==> s.log.interrupted)
    ensures Books(p, SettleStep(s, outcome).(worker := worker))
  {
    var t := SettleStep(s, outcome).(worker := worker);
    var rest := InHand(s.worker) + s.shared.pending;
    assert Unsettled(s) == s.window + rest;
    assert Unsettled(t) == rest;
    SettleBalances(p, s.shared, s.log, s.window, rest, outcome, Undelivered(worker));
    assert t.log.settled + [] == s.log.settled + InFlight(s.worker, s.window);
  }

  // Room grows, and whoever waits waits on a channel that has just been closed.
  lemma SettleKeepsConduct(p: Policy, s: State, outcome: Option<Error>, worker: WorkerPc)
    requires Conduct(p, s) && Accounting(p, s.shared, Unsettled(s))
    requires (s.worker.Flushing? && worker.Flushing? && worker.after == s.worker.after) || (s.worker.DrainSettle? && worker.DrainDeliver?)
    ensures Conduct(p, SettleStep(s, outcome).(worker := worker))
  {
  }

  lemma SettleKeeps(p: Policy, s: State, outcome: Option<Error>, after: After)
    requires Inv(p, s) && s.worker == Flushing(Settle(outcome), after)
    ensures Inv(p, FlushStep(s, Settle(outcome), after))
  {
    SettleKeepsBooks(p, s, outcome, Flushing(Deliver(outcome, s.window), after));
    SettleKeepsConduct(p, s, outcome, Flushing(Deliver(outcome, s.window), after));
  }

  lemma RosterDelivers(callers: seq<Caller>, admitted: seq<Request>, delivered: seq<Settlement>, outcome: Option<Error>)
    requires Roster(callers, admitted, delivered) && |delivered| < |admitted|
    ensures var i := admitted[|delivered|].caller;
            && callers[i].inbox.None?
            && Roster(callers[i := callers[i].(inbox := Some(outcome))], admitted,
                      delivered + [Settlement(admitted[|delivered|], outcome)])
  {
  }

  // The request at the head of the worker's list is the next admitted one without a result, so its
  // channel has room and the send never blocks.
  lemma NextDelivery(p: Policy, s: State, left: seq<Request>, outcome: Option<Error>)
    requires Books(p, s) && Undelivered(s.worker) == Settlements(left, outcome) && left != []
    ensures |s.log.delivered| < |s.log.admitted|
    ensures left[0] == s.log.admitted[|s.log.delivered|]
    ensures CanSend(s.callers, left)
    ensures s.log.settled == s.log.delivered + [Settlement(left[0], outcome)] + Settlements(left[1..], outcome)
  {
    assert s.log.settled[|s.log.delivered|] == Settlements(left, outcome)[0];
    assert Settlements(left, outcome) == [Settlement(left[0], outcome)] + Settlements(left[1..], outcome);
  }

  lemma SendKeepsBooks(p: Policy, s: State, left: seq<Request>, outcome: Option<Error>, worker: WorkerPc)
    requires Books(p, s) && left != [] && CanSend(s.callers, left)
    requires Undelivered(s.worker) == Settlements(left, outcome) && Undelivered(worker) == Settlements(left[1..], outcome)
    requires InFlight(worker, s.window) == InFlight(s.worker, s.window) && InHand(worker) == InHand(s.worker)
    requires Windowed(p, worker, s.window, s.windowBytes, s.timer)
    requires !Recording(s.worker) && !Committing(worker)
    requires worker.DrainSettle? || worker.DrainDeliver? ==> s.log.interrupted
    ensures Books(p, Send(s, left, outcome).(worker := worker))
  {
    NextDelivery(p, s, left, outcome);
    RosterDelivers(s.callers, s.log.admitted, s.log.delivered, outcome);
    assert Unsettled(Send(s, left, outcome).(worker := worker)) == Unsettled(s);
  }

  lemma SendKeepsConduct(p: Policy, s: State, left: seq<Request>, outcome: Option<Error>, worker: WorkerPc)
    requires Conduct(p, s) && left != [] && CanSend(s.callers, left)
    requires (s.worker.Flushing? && worker.Flushing? && worker.after == s.worker.after) || (s.worker.DrainDeliver? && worker.DrainDeliver?)
    ensures Conduct(p, Send(s, left, outcome).(worker := worker))
  {
    var i := left[0].caller;
    StillSignalling(s.callers, i, s.callers[i].(inbox := Some(outcome)));
  }

  lemma ResumeKeeps(p: Policy, s: State, outcome: Option<Error>, after: After)
    requires p.Valid() && Inv(p, s) && s.worker == Flushing(Deliver(outcome, []), after)
    ensures Inv(p, s.(worker := Resume(after)))
  {
    if after.ToAppend? {
      NextFits(p, s);
    }
    WorkerKeeps(p, s, s.(worker := Resume(after)));
  }

  lemma DeliverKeeps(p: Policy, s: State, outcome: Option<Error>, left: seq<Request>, after: After)
    requires p.Valid() && Inv(p, s) && s.worker == Flushing(Deliver(outcome, left), after)
    ensures CanSend(s.callers, left)
    ensures Inv(p, DeliverStep(s, outcome, left, after))
  {
    if left == [] {
      ResumeKeeps(p, s, outcome, after);
    } else {
      NextDelivery(p, s, left, outcome);
      SendKeepsBooks(p, s, left, outcome, Flushing(Deliver(outcome, left[1..]), after));
      SendKeepsConduct(p, s, left, outcome, Flushing(Deliver(outcome, left[1..]), after));
    }
  }

  // ---------- giving up ----------

  lemma DrainKeepsBooks(p: Policy, s: State)
    requires Books(p, s) && s.worker.Drain?
    ensures Books(p, DrainStep(s))
  {
    var t := DrainStep(s);
    assert Unsettled(t) == Unsettled(s);
    GivesUp(p, s.log, s.worker, t.window, t.worker);
  }

  lemma DrainKeepsConduct(p: Policy, s: State)
    requires Conduct(p, s) && s.worker.Drain?
    ensures Conduct(p, DrainStep(s))
  {
  }

  lemma DrainKeeps(p: Policy, s: State)
    requires Inv(p, s) && s.worker.Drain?
    ensures Inv(p, DrainStep(s))
  {
    DrainKeepsBooks(p, s);
    DrainKeepsConduct(p, s);
  }

  lemma DrainSettleKeeps(p: Policy, s: State)
    requires Inv(p, s) && s.worker.DrainSettle?
    ensures Inv(p, AdvanceStep(p, s))
  {
    SettleKeepsBooks(p, s, Some(Canceled), DrainDeliver(s.window));
    SettleKeepsConduct(p, s, Some(Canceled), DrainDeliver(s.window));
  }

  lemma DrainDeliverKeeps(p: Policy, s: State, left: seq<Request>)
    requires Inv(p, s) && s.worker == DrainDeliver(left)
    ensures CanSend(s.callers, left)
    ensures Inv(p, DrainDeliverStep(s, left))
  {
    if left == [] {
      WorkerKeeps(p, s, DrainDeliverStep(s, left));
    } else {
      NextDelivery(p, s, left, Some(Canceled));
      SendKeepsBooks(p, s, left, Some(Canceled), DrainDeliver(left[1..]));
      SendKeepsConduct(p, s, left, Some(Canceled), DrainDeliver(left[1..]));
    }
  }

  lemma LeaveKeepsConduct(p: Policy, s: State)
    requires Conduct(p, s) && (s.worker.Exit? || s.worker.Closing?)
    ensures Conduct(p, AdvanceStep(p, s))
  {
  }

  lemma LeaveKeeps(p: Policy, s: State)
    requires Inv(p, s) && (s.worker.Exit? || s.worker.Closing?)
    ensures Inv(p, AdvanceStep(p, s))
  {
    WorkerKeepsBooks(p, s, AdvanceStep(p, s));
    LeaveKeepsConduct(p, s);
  }

  // ---------- every step ----------

  lemma CallerStepKeeps(p: Policy, s: State, i: nat, a: CallerAction)
    requires Inv(p, s) && CallerEnabled(s, i, a)
    ensures Inv(p, CallerStep(p, s, i, a))
  {
    match a {
      case ExpireCaller => ExpireCallerKeeps(p, s, i);
      case Attempt => AttemptKeeps(p, s, i);
      case Signal => SignalKeeps(p, s, i);
      case Wake => WakeKeeps(p, s, i);
      case GiveUp => GiveUpKeeps(p, s, i);
      case Receive => ReceiveKeeps(p, s, i);
    }
  }

  lemma CloserStepKeeps(p: Policy, s: State, i: nat, a: CloserAction)
    requires Inv(p, s) && CloserEnabled(s, i, a)
    ensures Inv(p, CloserStep(s, i, a))
  {
    match a {
      case EnterClose => EnterCloseKeeps(p, s, i);
      case SignalClosed => SignalClosedKeeps(p, s, i);
      case CancelLifecycle => CancelLifecycleKeeps(p, s, i);
      case _ => CloserKeeps(p, s, i, a);
    }
  }

  lemma AdvanceKeeps(p: Policy, s: State)
    requires p.Valid() && Inv(p, s) && CanAdvance(s)
    ensures Inv(p, AdvanceStep(p, s))
  {
    match s.worker {
      case Top => TopKeeps(p, s);
      case Take => TakeKeeps(p, s);
      case Got(_) => GotKeeps(p, s);
      case Append(_) => AppendKeeps(p, s);
      case Idle(_) => IdleKeeps(p, s);
      case Recheck => RecheckKeeps(p, s);
      case Flushing(Check, after) => CheckKeeps(p, s, after);
      case Flushing(Record(err), after) => RecordKeeps(p, s, err, after);
      case Flushing(Settle(outcome), after) => SettleKeeps(p, s, outcome, after);
      case Flushing(Deliver(outcome, left), after) => DeliverKeeps(p, s, outcome, left, after);
      case Drain => DrainKeeps(p, s);
      case DrainSettle => DrainSettleKeeps(p, s);
      case DrainDeliver(left) => DrainDeliverKeeps(p, s, left);
      case _ => LeaveKeeps(p, s);
    }
  }

  lemma WorkerStepKeeps(p: Policy, s: State, a: WorkerAction)
    requires p.Valid() && Inv(p, s) && WorkerEnabled(s, a)
    ensures Inv(p, WorkerStep(p, s, a))
  {
    match a {
      case Advance => AdvanceKeeps(p, s);
      case CommitBatch(outcome) => CommitKeeps(p, s, outcome, s.worker.after);
      case _ => SelectKeeps(p, s, a);
    }
  }

  lemma StepKeeps(p: Policy, s: State, a: Action)
    requires p.Valid() && Inv(p, s) && Enabled(s, a)
    ensures Inv(p, Step(p, s, a))
  {
    match a {
      case Call(bytes) => CallKeeps(p, s, bytes);
      case CallClose => CallCloseKeeps(p, s);
      case CallerActs(i, c) => CallerStepKeeps(p, s, i, c);
      case CloserActs(i, c) => CloserStepKeeps(p, s, i, c);
      case WorkerActs(w) => WorkerStepKeeps(p, s, w);
    }
  }

  lemma InitialCounts(p: Policy)
    requires p.Valid()
    ensures var s := Initial();
            Accounting(p, s.shared, Unsettled(s)) && Order(s.log, Unsettled(s), Undelivered(s.worker)) &&
            Windowed(p, s.worker, s.window, s.windowBytes, s.timer)
  {
    assert Unsettled(Initial()) == [];
  }

  lemma InitialHanding(p: Policy)
    ensures var s := Initial();
            Handing(p, s.log, s.worker, InFlight(s.worker, s.window)) &&
            Abandoning(s.log, InFlight(s.worker, s.window)) && Blame(s.shared.commitError, s.log, s.worker)
  {}

  lemma InitialHoldsBooks(p: Policy)
    requires p.Valid()
    ensures Books(p, Initial())
  {
    InitialCounts(p);
    InitialHanding(p);
  }

  lemma InitialHoldsConduct(p: Policy)
    requires p.Valid()
    ensures Conduct(p, Initial())
  {
    assert Unsettled(Initial()) == [];
  }

  lemma InitialHolds(p: Policy)
    requires p.Valid()
    ensures Inv(p, Initial())
  {
    InitialHoldsBooks(p);
    InitialHoldsConduct(p);
  }

  lemma {:induction false} Reachable(p: Policy, states: seq<State>, actions: seq<Action>, n: nat)
    requires p.Valid() && Execution(p, states, actions) && n < |states|
    ensures Inv(p, states[n])
  {
    if n == 0 {
      InitialHolds(p);
    } else {
      Reachable(p, states, actions, n - 1);
      StepKeeps(p, states[n - 1], actions[n - 1]);
    }
  }
}
