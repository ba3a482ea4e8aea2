/** The live export batcher as a step system.

    Every region the source runs under its mutex, every channel operation and every call of the
    destination is one atomic step. Callers and closers are numbered in the order they arrive; the
    worker is the single goroutine started by the constructor. The log records what an observer
    outside the program would see; no step reads it. */
module Batching {

  datatype Option<+T> = None | Some(value: T)

  // An error a caller can be given by its batch, or that Close can join.
  datatype Error = Canceled | Destination(code: nat) | CloseExpired

  datatype Policy = Policy(windowExports: int, windowBytes: int, windowWait: int,
                           admissionExports: int, admissionBytes: int)
  {
    // batchingPolicy.validate
    predicate Valid() {
      && windowExports > 0 && windowBytes > 0 && windowWait > 0
      && admissionExports >= windowExports && admissionBytes >= windowBytes
    }
  }

  datatype Request = Request(caller: nat, bytes: nat)

  function Bytes(requests: seq<Request>): nat {
    if requests == [] then 0 else Bytes(requests[..|requests| - 1]) + requests[|requests| - 1].bytes
  }

  // The fields guarded by the mutex. The capacity channel is a generation number: closing it and
  // making a new one moves to the next generation.
  datatype Shared = Shared(accepting: bool, pending: seq<Request>, unresolvedExports: int, unresolvedBytes: int,
                           generation: nat, commitError: Option<Error>)

  predicate Fits(p: Policy, shared: Shared, bytes: nat) {
    shared.unresolvedExports < p.admissionExports && shared.unresolvedBytes + bytes <= p.admissionBytes
  }

  function Admitted(shared: Shared, request: Request): Shared {
    shared.(unresolvedExports := shared.unresolvedExports + 1,
            unresolvedBytes := shared.unresolvedBytes + request.bytes,
            pending := shared.pending + [request])
  }

  function Notified(shared: Shared): Shared {
    shared.(generation := shared.generation + 1)
  }

  function Resolved(shared: Shared, requests: seq<Request>): Shared {
    if requests == [] then shared
    else Notified(shared.(unresolvedExports := shared.unresolvedExports - |requests|,
                          unresolvedBytes := shared.unresolvedBytes - Bytes(requests)))
  }

  function Recorded(shared: Shared, err: Error): Shared {
    if shared.commitError == None then shared.(commitError := Some(err)) else shared
  }

  datatype Answer =
    | TooLarge
    | Closed
    | Expired
    | Outcome(err: Option<Error>)

  datatype CallerPc =
    | Trying
    | Waiting(generation: nat)
    | Signalling
    | Awaiting
    | Returned(answer: Answer)

  // inbox is the caller's one-slot result channel.
  datatype Caller = Caller(bytes: nat, expired: bool, pc: CallerPc, inbox: Option<Option<Error>>)

  datatype CloserPc =
    | Entering
    | ClosedSignalling
    | Selecting
    | Cancelling
    | CancelSignalling
    | AwaitingDone
    | Joining(own: Option<Error>)
    | CloseReturned(own: Option<Error>, commit: Option<Error>)

  datatype Closer = Closer(expired: bool, pc: CloserPc)

  datatype Once = Fresh | Running(runner: nat) | Finished

  // What the worker does once flush returns.
  datatype After = ToTop | ToAppend(next: Request) | ToRecheck

  // Where the worker is inside flush.
  datatype Stage =
    | Check
    | Commit
    | Record(err: Error)
    | Settle(outcome: Option<Error>)
    | Deliver(result: Option<Error>, left: seq<Request>)

  datatype WorkerPc =
    | Top
    | Take
    | Got(next: Request)
    | Append(next: Request)
    | Idle(accepting: bool)
    | Recheck
    | Select
    | Flushing(stage: Stage, after: After)
    | Drain
    | DrainSettle
    | DrainDeliver(left: seq<Request>)
    | Exit
    | Closing
    | Done

  datatype Batch = Batch(requests: seq<Request>, outcome: Option<Error>)

  datatype Settlement = Settlement(request: Request, outcome: Option<Error>)

  /** admitted: requests in the order they were appended to pending.
      handed: the batches passed to the destination, with its answer.
      settled: requests in the order they stopped counting as unresolved.
      delivered: the results sent, in order.
      cancelledBy: the closer that canceled the lifecycle context first.
      interrupted: the worker saw the lifecycle context canceled.
      abandoned: what it then resolved from its window and the queue without the destination. */
  datatype Log = Log(admitted: seq<Request>, handed: seq<Batch>, settled: seq<Settlement>,
                     delivered: seq<Settlement>, cancelledBy: Option<nat>, interrupted: bool,
                     abandoned: seq<Request>)

  datatype State = State(shared: Shared, ready: bool, done: bool, cancelled: bool, once: Once,
                         worker: WorkerPc, window: seq<Request>, windowBytes: int, timer: bool,
                         callers: seq<Caller>, closers: seq<Closer>, log: Log)

  function Initial(): State {
    State(Shared(true, [], 0, 0, 0, None), false, false, false, Fresh, Top, [], 0, false, [], [],
          Log([], [], [], [], None, false, []))
  }

  function Settlements(requests: seq<Request>, outcome: Option<Error>): (r: seq<Settlement>) {
    seq(|requests|, i requires 0 <= i < |requests| => Settlement(requests[i], outcome))
  }

  // ---------- steps ----------

  datatype CallerAction = ExpireCaller | Attempt | Signal | Wake | GiveUp | Receive

  datatype CloserAction =
    | ExpireCloser
    | EnterClose
    | SignalClosed
    | SeeDone
    | SeeExpired
    | CancelLifecycle
    | SignalCancel
    | JoinErrors

  datatype WorkerAction =
    | Advance
    | CommitBatch(outcome: Option<Error>)
    | SelectReady
    | SelectTimer
    | SelectCancelled

  datatype Action =
    | Call(bytes: nat)
    | CallClose
    | CallerActs(caller: nat, callerAction: CallerAction)
    | CloserActs(closer: nat, closerAction: CloserAction)
    | WorkerActs(workerAction: WorkerAction)

  predicate CallerReady(shared: Shared, caller: Caller, a: CallerAction) {
    match a
    case ExpireCaller => !caller.expired
    case Attempt => caller.pc.Trying?
    case Signal => caller.pc.Signalling?
    case Wake => caller.pc.Waiting? && caller.pc.generation < shared.generation
    case GiveUp => caller.pc.Waiting? && caller.expired
    case Receive => caller.pc.Awaiting? && caller.inbox.Some?
  }

  predicate CallerEnabled(s: State, i: nat, a: CallerAction) {
    i < |s.callers| && CallerReady(s.shared, s.callers[i], a)
  }

  predicate CloserReady(s: State, closer: Closer, a: CloserAction) {
    match a
    case ExpireCloser => !closer.expired
    // closeOnce lets one closer run and holds the others until it has finished
    case EnterClose => closer.pc.Entering? && !s.once.Running?
    case SignalClosed => closer.pc.ClosedSignalling?
    case SeeDone => (closer.pc.Selecting? || closer.pc.AwaitingDone?) && s.done
    case SeeExpired => closer.pc.Selecting? && closer.expired
    case CancelLifecycle => closer.pc.Cancelling?
    case SignalCancel => closer.pc.CancelSignalling?
    case JoinErrors => closer.pc.Joining?
  }

  predicate CloserEnabled(s: State, i: nat, a: CloserAction) {
    i < |s.closers| && CloserReady(s, s.closers[i], a)
  }

  // The buffered result channel has room for the next result.
  predicate CanSend(callers: seq<Caller>, left: seq<Request>) {
    left == [] || (left[0].caller < |callers| && callers[left[0].caller].inbox.None?)
  }

  // Advance is every worker step that offers no choice.
  predicate CanAdvance(s: State) {
    match s.worker
    case Select => false
    case Done => false
    case Flushing(Commit, _) => false
    case Flushing(Deliver(_, left), _) => CanSend(s.callers, left)
    case DrainDeliver(left) => CanSend(s.callers, left)
    case _ => true
  }

  predicate WorkerEnabled(s: State, a: WorkerAction) {
    match a
    case Advance => CanAdvance(s)
    case CommitBatch(_) => s.worker.Flushing? && s.worker.stage.Commit?
    case SelectReady => s.worker.Select? && s.ready
    case SelectTimer => s.worker.Select? && s.timer
    case SelectCancelled => s.worker.Select? && s.cancelled
  }

  predicate Enabled(s: State, a: Action) {
    match a
    case Call(_) => true
    case CallClose => true
    case CallerActs(i, c) => CallerEnabled(s, i, c)
    case CloserActs(i, c) => CloserEnabled(s, i, c)
    case WorkerActs(w) => WorkerEnabled(s, w)
  }

  function CallerMoves(s: State, i: nat, pc: CallerPc): State
    requires i < |s.callers|
  {
    s.(callers := s.callers[i := s.callers[i].(pc := pc)])
  }

  // The locked region of CommitExport.
  function AttemptStep(p: Policy, s: State, i: nat): State
    requires i < |s.callers|
  {
    if !s.shared.accepting then CallerMoves(s, i, Returned(Closed))
    else if s.callers[i].expired then CallerMoves(s, i, Returned(Expired))
    else if Fits(p, s.shared, s.callers[i].bytes) then AdmitStep(s, i)
    else CallerMoves(s, i, Waiting(s.shared.generation))
  }

  function AdmitStep(s: State, i: nat): State
    requires i < |s.callers|
  {
    var request := Request(i, s.callers[i].bytes);
    s.(callers := s.callers[i := s.callers[i].(pc := Signalling)],
       shared := Admitted(s.shared, request),
       log := s.log.(admitted := s.log.admitted + [request]))
  }

  function ReceiveStep(s: State, i: nat): State
    requires CallerEnabled(s, i, Receive)
  {
    s.(callers := s.callers[i := s.callers[i].(pc := Returned(Outcome(s.callers[i].inbox.value)), inbox := None)])
  }

  function CallerStep(p: Policy, s: State, i: nat, a: CallerAction): State
    requires CallerEnabled(s, i, a)
  {
    match a
    case ExpireCaller => s.(callers := s.callers[i := s.callers[i].(expired := true)])
    case Attempt => AttemptStep(p, s, i)
    case Signal => CallerMoves(s, i, Awaiting).(ready := true)
    case Wake => CallerMoves(s, i, Trying)
    case GiveUp => CallerMoves(s, i, Returned(Expired))
    case Receive => ReceiveStep(s, i)
  }

  function CloserMoves(s: State, i: nat, pc: CloserPc): State
    requires i < |s.closers|
  {
    s.(closers := s.closers[i := s.closers[i].(pc := pc)])
  }

  function CloseStep(s: State, i: nat): State
    requires i < |s.closers|
  {
    if s.once.Fresh?
    then CloserMoves(s, i, ClosedSignalling).(once := Running(i), shared := Notified(s.shared.(accepting := false)))
    else CloserMoves(s, i, Selecting)
  }

  function CancelStep(s: State, i: nat): State
    requires i < |s.closers|
  {
    CloserMoves(s, i, CancelSignalling).(cancelled := true,
      log := if s.log.cancelledBy == None then s.log.(cancelledBy := Some(i)) else s.log)
  }

  function CloserStep(s: State, i: nat, a: CloserAction): State
    requires CloserEnabled(s, i, a)
  {
    match a
    case ExpireCloser => s.(closers := s.closers[i := s.closers[i].(expired := true)])
    case EnterClose => CloseStep(s, i)
    case SignalClosed => CloserMoves(s, i, Selecting).(once := Finished, ready := true)
    case SeeDone => CloserMoves(s, i, Joining(if s.closers[i].pc.Selecting? then None else Some(CloseExpired)))
    case SeeExpired => CloserMoves(s, i, Cancelling)
    case CancelLifecycle => CancelStep(s, i)
    case SignalCancel => CloserMoves(s, i, AwaitingDone).(ready := true)
    case JoinErrors => CloserMoves(s, i, CloseReturned(s.closers[i].pc.own, s.shared.commitError))
  }

  function Resume(after: After): WorkerPc {
    match after
    case ToTop => Top
    case ToAppend(next) => Append(next)
    case ToRecheck => Recheck
  }

  // flush begins: nothing to do on an empty window, otherwise stop the timer and go on.
  function BeginFlush(window: seq<Request>, after: After): WorkerPc {
    if window == [] then Resume(after) else Flushing(Check, after)
  }

  function TakeStep(s: State): State {
    if s.shared.pending == [] then s.(worker := Idle(s.shared.accepting))
    else s.(worker := Got(s.shared.pending[0]), shared := s.shared.(pending := s.shared.pending[1..]))
  }

  function GotStep(p: Policy, s: State, next: Request): State {
    if s.window != [] && (|s.window| >= p.windowExports || s.windowBytes + next.bytes > p.windowBytes)
    then s.(worker := BeginFlush(s.window, ToAppend(next)))
    else s.(worker := Append(next))
  }

  function AppendStep(p: Policy, s: State, next: Request): State {
    var window, bytes := s.window + [next], s.windowBytes + next.bytes;
    s.(window := window, windowBytes := bytes, timer := s.timer || s.window == [],
       worker := if |window| >= p.windowExports || bytes >= p.windowBytes then BeginFlush(window, ToTop) else Top)
  }

  // resolve's locked region. The worker's local window is emptied here, in the step that stops
  // counting its requests; nothing but the worker can see that variable.
  function SettleStep(s: State, outcome: Option<Error>): State {
    s.(shared := Resolved(s.shared, s.window), window := [], windowBytes := 0,
       log := s.log.(settled := s.log.settled + Settlements(s.window, outcome)))
  }

  function Send(s: State, left: seq<Request>, outcome: Option<Error>): State
    requires left != [] && CanSend(s.callers, left)
  {
    s.(callers := s.callers[left[0].caller := s.callers[left[0].caller].(inbox := Some(outcome))],
       log := s.log.(delivered := s.log.delivered + [Settlement(left[0], outcome)]))
  }

  function CheckStep(s: State, after: After): State {
    if s.cancelled
    then s.(timer := false, worker := Flushing(Record(Canceled), after), log := s.log.(interrupted := true, abandoned := s.log.abandoned + s.window))
    else s.(timer := false, worker := Flushing(Commit, after))
  }

  function CommitStep(s: State, outcome: Option<Error>, after: After): State {
    s.(worker := Flushing(if outcome.Some? then Record(outcome.value) else Settle(None), after),
       log := s.log.(handed := s.log.handed + [Batch(s.window, outcome)]))
  }

  function DeliverStep(s: State, outcome: Option<Error>, left: seq<Request>, after: After): State
    requires CanSend(s.callers, left)
  {
    if left == [] then s.(worker := Resume(after))
    else Send(s, left, outcome).(worker := Flushing(Deliver(outcome, left[1..]), after))
  }

  function FlushStep(s: State, stage: Stage, after: After): State
    requires !stage.Commit?
    requires stage.Deliver? ==> CanSend(s.callers, stage.left)
  {
    match stage
    case Check => CheckStep(s, after)
    case Record(err) => s.(shared := Recorded(s.shared, err), worker := Flushing(Settle(Some(err)), after))
    case Settle(outcome) => SettleStep(s, outcome).(worker := Flushing(Deliver(outcome, s.window), after))
    case Deliver(outcome, left) => DeliverStep(s, outcome, left, after)
  }

  function DrainStep(s: State): State {
    s.(window := s.window + s.shared.pending, shared := s.shared.(pending := []), worker := DrainSettle,
       log := s.log.(interrupted := true, abandoned := s.log.abandoned + (s.window + s.shared.pending)))
  }

  function DrainDeliverStep(s: State, left: seq<Request>): State
    requires CanSend(s.callers, left)
  {
    if left == [] then s.(timer := false, worker := Exit)
    else Send(s, left, Some(Canceled)).(worker := DrainDeliver(left[1..]))
  }

  function AdvanceStep(p: Policy, s: State): State
    requires CanAdvance(s)
  {
    match s.worker
    case Top => s.(worker := if s.cancelled then Drain else Take)
    case Take => TakeStep(s)
    case Got(next) => GotStep(p, s, next)
    case Append(next) => AppendStep(p, s, next)
    case Idle(accepting) => s.(worker := if accepting then Select else BeginFlush(s.window, ToRecheck))
    case Recheck => s.(worker := if s.shared.unresolvedExports == 0 then Exit else Select)
    case Flushing(stage, after) => FlushStep(s, stage, after)
    case Drain => DrainStep(s)
    case DrainSettle => SettleStep(s, Some(Canceled)).(worker := DrainDeliver(s.window))
    case DrainDeliver(left) => DrainDeliverStep(s, left)
    // the deferred calls: the lifecycle context first, then the done channel
    case Exit => s.(cancelled := true, worker := Closing)
    case Closing => s.(done := true, worker := Done)
  }

  function WorkerStep(p: Policy, s: State, a: WorkerAction): State
    requires WorkerEnabled(s, a)
  {
    match a
    case Advance => AdvanceStep(p, s)
    case CommitBatch(outcome) => CommitStep(s, outcome, s.worker.after)
    case SelectReady => s.(ready := false, worker := Top)
    case SelectTimer => s.(timer := false, worker := BeginFlush(s.window, ToTop))
    case SelectCancelled => s.(worker := Top)
  }

  function CallStep(p: Policy, s: State, bytes: nat): State {
    // the size check before the loop
    var pc := if bytes > p.windowBytes || bytes > p.admissionBytes then Returned(TooLarge) else Trying;
    s.(callers := s.callers + [Caller(bytes, false, pc, None)])
  }

  function Step(p: Policy, s: State, a: Action): State
    requires Enabled(s, a)
  {
    match a
    case Call(bytes) => CallStep(p, s, bytes)
    case CallClose => s.(closers := s.closers + [Closer(false, Entering)])
    case CallerActs(i, c) => CallerStep(p, s, i, c)
    case CloserActs(i, c) => CloserStep(s, i, c)
    case WorkerActs(w) => WorkerStep(p, s, w)
  }

  // states is an execution of the program from its first state, driven by actions.
  ghost predicate Execution(p: Policy, states: seq<State>, actions: seq<Action>) {
    && |states| == |actions| + 1
    && states[0] == Initial()
    && forall i :: 0 <= i < |actions| ==> Enabled(states[i], actions[i]) && states[i + 1] == Step(p, states[i], actions[i])
  }
}
