/** A producer preparing batches while one writer commits them. */
module ReplayPipeline {
  import opened ReplayChunks

  // What an error says is of no interest here.
  datatype Error = ContextCancelled | PrepareError | InvalidBatch | CommitError | AdvanceError

  type Outcome = Option<Error>

  // A batch: its records, and whether it has an export for each of them.
  datatype Batch = Batch(records: seq<Record>, matched: bool)

  datatype Producer = Preparing | Offering(batch: Batch) | Returned(outcome: Outcome) | Reported | Closed

  datatype Writer =
    | Selecting | Got(batch: Batch) | Committing(batch: Batch) | Advancing(batch: Batch)
    | Leaving(error: Error) | Collecting(writeError: Outcome) | Done(writeError: Outcome, result: Outcome)

  datatype State = State(
    producer: Producer, writer: Writer, cancelled: bool, producerDone: Option<Outcome>,
    prepared: nat, handed: nat, committed: seq<Batch>, advanced: seq<Batch>, disturbed: bool)

  // The batches the source has: each has records.
  ghost predicate Source(batches: seq<Batch>) {
    forall k :: 0 <= k < |batches| ==> batches[k].records != []
  }

  ghost predicate Initial(s: State) {
    s == State(Preparing, Selecting, false, None, 0, 0, [], [], false)
  }

  datatype Action =
    | Prepare | PrepareEnd | PrepareFails(error: Error) | OfferCancelled | Report | CloseHandoff
    | HandOver | SeeCancelled | SeeClosed | Check | Commit | CommitFails | Advance | AdvanceFails | Leave | Collect
    | Cancel

  // ---------- steps ----------

  ghost predicate ProducerStep(source: seq<Batch>, s: State, a: Action, t: State) {
    match a
    case Prepare => s.producer.Preparing? && s.prepared < |source| &&
                    t == s.(producer := Offering(source[s.prepared]), prepared := s.prepared + 1)
    case PrepareEnd => s.producer.Preparing? && s.prepared == |source| && t == s.(producer := Returned(None))
    case PrepareFails(e) => s.producer.Preparing? && t == s.(producer := Returned(Some(e)), disturbed := true)
    case OfferCancelled => s.producer.Offering? && s.cancelled && t == s.(producer := Returned(Some(ContextCancelled)))
    case Report => s.producer.Returned? && t == s.(producer := Reported, producerDone := Some(s.producer.outcome))
    case CloseHandoff => s.producer.Reported? && t == s.(producer := Closed)
    case _ => false
  }

  ghost predicate WriterStep(s: State, a: Action, t: State) {
    match a
    case SeeCancelled => s.writer.Selecting? && s.cancelled && t == s.(writer := Leaving(ContextCancelled))
    case SeeClosed => s.writer.Selecting? && s.producer.Closed? && t == s.(writer := Collecting(None))
    case Check => s.writer.Got? &&
                  (if s.cancelled then t == s.(writer := Leaving(ContextCancelled))
                   else if !s.writer.batch.matched then t == s.(writer := Leaving(InvalidBatch), disturbed := true)
                   else t == s.(writer := Committing(s.writer.batch)))
    case Commit => s.writer.Committing? && t == s.(writer := Advancing(s.writer.batch), committed := s.committed + [s.writer.batch])
    case CommitFails => s.writer.Committing? && t == s.(writer := Leaving(CommitError), disturbed := true)
    case Advance => s.writer.Advancing? && t == s.(writer := Selecting, advanced := s.advanced + [s.writer.batch])
    case AdvanceFails => s.writer.Advancing? && t == s.(writer := Leaving(AdvanceError), disturbed := true)
    case Leave => s.writer.Leaving? && t == s.(writer := Collecting(Some(s.writer.error)), cancelled := true)
    case Collect => s.writer.Collecting? && s.producerDone.Some? &&
                    t == s.(writer := Done(s.writer.writeError,
                                           if s.writer.writeError.Some? then s.writer.writeError else s.producerDone.value))
    case _ => false
  }

  // The handoff is unbuffered: both sides move at once.
  ghost predicate HandOverStep(s: State, t: State) {
    s.producer.Offering? && s.writer.Selecting? &&
    t == s.(producer := Preparing, writer := Got(s.producer.batch), handed := s.handed + 1)
  }

  ghost predicate Step(source: seq<Batch>, s: State, a: Action, t: State) {
    match a
    case HandOver => HandOverStep(s, t)
    case Cancel => t == s.(cancelled := true, disturbed := true)
    case _ => ProducerStep(source, s, a, t) || WriterStep(s, a, t)
  }

  // ---------- what every step keeps ----------

  ghost predicate ProducerAt(source: seq<Batch>, s: State) {
    && s.handed <= s.prepared <= |source| && s.prepared <= s.handed + 1
    && (s.producer.Preparing? ==> s.prepared == s.handed && s.producerDone.None?)
    && (s.producer.Offering? ==> s.prepared == s.handed + 1 && s.producer.batch == source[s.handed] && s.producerDone.None?)
    && (s.producer.Returned? ==> s.producerDone.None? && (s.producer.outcome.None? ==> s.handed == |source|))
    && (s.producer.Reported? || s.producer.Closed? ==> s.producerDone.Some?)
    && (s.producerDone.Some? && s.producerDone.value.None? ==> s.handed == |source|)
  }

  ghost predicate WriterAt(source: seq<Batch>, s: State) {
    && |s.advanced| <= |s.committed| <= s.handed <= |source|
    && s.committed == source[..|s.committed|] && s.advanced == source[..|s.advanced|]
    && s.handed <= |s.committed| + 1 && |s.committed| <= |s.advanced| + 1
    && (s.writer.Selecting? ==> s.handed == |s.committed| == |s.advanced|)
    && (s.writer.Got? || s.writer.Committing? ==>
          s.handed == |s.committed| + 1 && |s.committed| == |s.advanced| && s.writer.batch == source[|s.committed|])
    && (s.writer.Advancing? ==> s.handed == |s.committed| == |s.advanced| + 1 && s.writer.batch == source[|s.advanced|])
    && (s.writer.Collecting? && s.writer.writeError.None? ==> s.handed == |s.committed| == |s.advanced| && s.producerDone.Some?)
    && (s.writer.Collecting? && s.writer.writeError.Some? ==> s.cancelled)
  }

  ghost predicate Finished(source: seq<Batch>, s: State) {
    s.writer.Done? ==>
      && s.producerDone.Some?
      && s.writer.result == (if s.writer.writeError.Some? then s.writer.writeError else s.producerDone.value)
      && (s.writer.writeError.None? ==> s.handed == |s.committed| == |s.advanced|)
  }

  // A failure is only ever reported where something went wrong.
  ghost predicate Blameless(s: State) {
    !s.disturbed ==>
      && !s.writer.Leaving?
      && (s.producer.Returned? ==> s.producer.outcome.None?)
      && (s.producerDone.Some? ==> s.producerDone.value.None?)
      && (s.writer.Collecting? ==> s.writer.writeError.None?)
      && (s.writer.Done? ==> s.writer.result.None?)
      && !s.cancelled
  }

  ghost predicate Inv(source: seq<Batch>, s: State) {
    ProducerAt(source, s) && WriterAt(source, s) && Finished(source, s) && Blameless(s)
  }

  lemma ProducerKeeps(source: seq<Batch>, s: State, a: Action, t: State)
    requires Inv(source, s) && ProducerStep(source, s, a, t)
    ensures Inv(source, t)
  {}

  lemma CommitKeeps(source: seq<Batch>, s: State, t: State)
    requires Inv(source, s) && (WriterStep(s, Commit, t) || WriterStep(s, Advance, t))
    ensures Inv(source, t)
  {
    if WriterStep(s, Commit, t) {
      assert source[..|t.committed|] == source[..|s.committed|] + [source[|s.committed|]];
    } else {
      assert source[..|t.advanced|] == source[..|s.advanced|] + [source[|s.advanced|]];
    }
  }

  lemma WriterKeeps(source: seq<Batch>, s: State, a: Action, t: State)
    requires Inv(source, s) && WriterStep(s, a, t) && a != Commit && a != Advance
    ensures Inv(source, t)
  {}

  lemma StepKeeps(source: seq<Batch>, s: State, a: Action, t: State)
    requires Inv(source, s) && Step(source, s, a, t)
    ensures Inv(source, t)
  {
    if ProducerStep(source, s, a, t) {
      ProducerKeeps(source, s, a, t);
    } else if a == Commit || a == Advance {
      CommitKeeps(source, s, t);
    } else if WriterStep(s, a, t) {
      WriterKeeps(source, s, a, t);
    }
  }

  // states[k + 1] follows states[k] by actions[k], from the start of a pipeline.
  ghost predicate Run(source: seq<Batch>, states: seq<State>, actions: seq<Action>) {
    && |states| == |actions| + 1 && Initial(states[0])
    && forall k: nat :: k < |actions| ==> Steps(source, states, actions, k)
  }

  ghost predicate Steps(source: seq<Batch>, states: seq<State>, actions: seq<Action>, k: nat)
    requires k < |actions| && |states| == |actions| + 1
  {
    Step(source, states[k], actions[k], states[k + 1])
  }

  lemma {:induction false} Reachable(source: seq<Batch>, states: seq<State>, actions: seq<Action>, k: nat)
    requires Run(source, states, actions) && k < |states|
    ensures Inv(source, states[k])
    decreases k
  {
    if k > 0 {
      Reachable(source, states, actions, k - 1);
      assert Steps(source, states, actions, k - 1);
      StepKeeps(source, states[k - 1], actions[k - 1], states[k]);
    }
  }

  // At every moment: what is committed is a prefix of the source in order, what was advanced over lags it by at most
  // one batch, and at most one batch is prepared beyond the one in the writer's hands.
  lemma CommitsPrefix(source: seq<Batch>, states: seq<State>, actions: seq<Action>, k: nat)
    requires Run(source, states, actions) && k < |states|
    ensures states[k].committed <= source && states[k].advanced <= states[k].committed
    ensures |states[k].committed| <= |states[k].advanced| + 1
    ensures states[k].prepared <= states[k].handed + 1 <= |states[k].committed| + 2
  {
    Reachable(source, states, actions, k);
  }

  // The producer has always returned when the pipeline does. Without an error everything was committed and advanced over;
  // a failure to prepare leaves no batch that was handed over uncommitted; without any failure there is no error.
  lemma ResultIsHonest(source: seq<Batch>, states: seq<State>, actions: seq<Action>, k: nat)
    requires Run(source, states, actions) && k < |states| && states[k].writer.Done?
    ensures states[k].producer.Reported? || states[k].producer.Closed?
    ensures states[k].writer.result.None? ==> states[k].committed == states[k].advanced == source
    ensures states[k].writer.writeError.None? ==> |states[k].advanced| == |states[k].committed| == states[k].handed
    ensures !states[k].disturbed ==> states[k].writer.result.None?
  {
    Reachable(source, states, actions, k);
    assert source[..|source|] == source;
  }

  // ---------- when the result is nil ----------

  predicate Failure(a: Action) {
    a.PrepareFails? || a.CommitFails? || a.AdvanceFails?
  }

  ghost predicate Matched(batches: seq<Batch>) {
    forall k :: 0 <= k < |batches| ==> batches[k].matched
  }

  // An error is on its way to the result.
  predicate Broken(s: State) {
    || s.writer.Leaving? || (s.writer.Collecting? && s.writer.writeError.Some?) || (s.writer.Done? && s.writer.writeError.Some?)
    || (s.producer.Returned? && s.producer.outcome.Some?) || (s.producerDone.Some? && s.producerDone.value.Some?)
  }

  lemma FailureBreaks(source: seq<Batch>, s: State, a: Action, t: State)
    requires Inv(source, s) && Step(source, s, a, t) && (Failure(a) || Broken(s))
    ensures Broken(t)
  {
  }

  // Nothing is committed unless its exports match.
  predicate CommitsMatched(s: State) {
    && (forall b :: b in s.committed ==> b.matched)
    && (s.writer.Committing? || s.writer.Advancing? ==> s.writer.batch.matched)
  }

  lemma MatchedStays(source: seq<Batch>, s: State, a: Action, t: State)
    requires Step(source, s, a, t) && CommitsMatched(s)
    ensures CommitsMatched(t)
  {
  }

  lemma CleanStays(source: seq<Batch>, s: State, a: Action, t: State)
    requires Inv(source, s) && Step(source, s, a, t) && Matched(source) && !s.disturbed && !Failure(a) && a != Cancel
    ensures !t.disturbed
  {
  }

  lemma {:induction false} Traced(source: seq<Batch>, states: seq<State>, actions: seq<Action>, k: nat)
    requires Run(source, states, actions) && k < |states|
    ensures CommitsMatched(states[k])
    ensures (exists i :: 0 <= i < k && Failure(actions[i])) ==> Broken(states[k])
    ensures Matched(source) && (forall i :: 0 <= i < k ==> !Failure(actions[i]) && actions[i] != Cancel) ==> !states[k].disturbed
    decreases k
  {
    if k > 0 {
      var s, a, t := states[k - 1], actions[k - 1], states[k];
      Traced(source, states, actions, k - 1);
      Reachable(source, states, actions, k - 1);
      assert Steps(source, states, actions, k - 1);
      MatchedStays(source, s, a, t);
      if Failure(a) || Broken(s) {
        FailureBreaks(source, s, a, t);
      }
      if Matched(source) && !s.disturbed && !Failure(a) && a != Cancel {
        CleanStays(source, s, a, t);
      }
    }
  }

  /** A pipeline nobody cancels returns nil exactly when no preparation, commit or advance failed and every batch has an
      export for each of its records. With a cancellation, nil still means both. */
  lemma NilMeansNothingFailed(source: seq<Batch>, states: seq<State>, actions: seq<Action>, k: nat)
    requires Run(source, states, actions) && k < |states| && states[k].writer.Done?
    ensures states[k].writer.result.None? ==> Matched(source) && forall i :: 0 <= i < k ==> !Failure(actions[i])
    ensures (forall i :: 0 <= i < k ==> actions[i] != Cancel) ==>
              (states[k].writer.result.None? <==> Matched(source) && forall i :: 0 <= i < k ==> !Failure(actions[i]))
  {
    Traced(source, states, actions, k);
    Reachable(source, states, actions, k);
    ResultIsHonest(source, states, actions, k);
    if states[k].writer.result.None? {
      forall j | 0 <= j < |source| ensures source[j].matched {
        assert source[j] in states[k].committed;
      }
    }
  }

  function RecordsOf(batches: seq<Batch>): seq<seq<Record>> {
    seq(|batches|, i requires 0 <= i < |batches| => batches[i].records)
  }

  lemma RecordsOfPrefix(source: seq<Batch>, n: nat)
    requires n <= |source|
    ensures RecordsOf(source[..n]) == RecordsOf(source)[..n]
  {
  }

  lemma {:induction false} RowsOfPrefix(batches: seq<seq<Record>>, n: nat)
    requires n <= |batches|
    ensures Rows(Concat(batches[..n])) <= Rows(Concat(batches))
    decreases |batches| - n
  {
    if n < |batches| {
      assert batches[..n + 1][..n] == batches[..n];
      RowsOfPrefix(batches, n + 1);
    } else {
      assert batches[..n] == batches;
    }
  }

  // A pipeline over these batches has committed the front of their records at every moment, and all of them when it
  // returns nil.
  lemma CommittedRecords(source: seq<Batch>, states: seq<State>, actions: seq<Action>, k: nat)
    requires Run(source, states, actions) && k < |states|
    ensures Rows(Concat(RecordsOf(states[k].committed))) <= Rows(Concat(RecordsOf(source)))
    ensures states[k].writer == Done(None, None) ==> states[k].committed == source
  {
    CommitsPrefix(source, states, actions, k);
    var n := |states[k].committed|;
    assert source[..n] == states[k].committed;
    RecordsOfPrefix(source, n);
    RowsOfPrefix(RecordsOf(source), n);
    if states[k].writer == Done(None, None) {
      ResultIsHonest(source, states, actions, k);
    }
  }

  ghost predicate Replays(batches: seq<seq<Record>>, source: seq<Batch>, states: seq<State>, actions: seq<Action>, k: nat) {
    RecordsOf(source) == batches && Run(source, states, actions) && k < |states|
  }

  /** Replaying a journal: whatever batches it is cut into, any pipeline over them has committed the front of the journal
      at every moment, record for record, and the whole journal if cutting did not fail and the pipeline returns nil. */
  method EverythingCommitted(rows: seq<Row>) returns (batches: seq<seq<Record>>, failed: bool)
    ensures forall source: seq<Batch>, states: seq<State>, actions: seq<Action>, k: nat :: Replays(batches, source, states, actions, k) ==>
              && Rows(Concat(RecordsOf(states[k].committed))) <= rows
              && (!failed && states[k].writer == Done(None, None) ==> Rows(Concat(RecordsOf(states[k].committed))) == rows)
  {
    var chunks := new ReplayChunkSource(rows);
    batches, failed := chunks.Drain();
    forall source: seq<Batch>, states: seq<State>, actions: seq<Action>, k: nat | Replays(batches, source, states, actions, k)
      ensures Rows(Concat(RecordsOf(states[k].committed))) <= rows
      ensures !failed && states[k].writer == Done(None, None) ==> Rows(Concat(RecordsOf(states[k].committed))) == rows
    {
      CommittedRecords(source, states, actions, k);
    }
  }

  // ---------- the pipeline always ends ----------

  function ProducerRank(p: Producer): nat {
    match p case Preparing => 3 case Offering(_) => 7 case Returned(_) => 2 case Reported => 1 case Closed => 0
  }

  function WriterRank(w: Writer): nat {
    match w
    case Selecting => 3 case Got(_) => 6 case Committing(_) => 5 case Advancing(_) => 4
    case Leaving(_) => 2 case Collecting(_) => 1 case Done(_, _) => 0
  }

  function Rank(source: seq<Batch>, s: State): int {
    6 * (|source| - s.prepared) + ProducerRank(s.producer) + WriterRank(s.writer)
  }

  // Every step but a cancellation brings the end nearer.
  lemma EveryStepDescends(source: seq<Batch>, s: State, a: Action, t: State)
    requires Inv(source, s) && Step(source, s, a, t) && a != Cancel
    ensures 0 <= Rank(source, t) < Rank(source, s)
  {
    StepKeeps(source, s, a, t);
    if a != HandOver && !WriterStep(s, a, t) {
      assert ProducerStep(source, s, a, t);
    }
  }

  ghost predicate CanMove(source: seq<Batch>, s: State) {
    exists a, t :: a != Cancel && Step(source, s, a, t)
  }

  lemma ProducerCanMove(source: seq<Batch>, s: State)
    requires Inv(source, s) && (s.producer.Preparing? || s.producer.Returned? || s.producer.Reported? || (s.producer.Offering? && s.cancelled))
    ensures CanMove(source, s)
  {
    match s.producer
    case Preparing =>
      if s.prepared < |source| {
        assert Step(source, s, Prepare, s.(producer := Offering(source[s.prepared]), prepared := s.prepared + 1));
      } else {
        assert Step(source, s, PrepareEnd, s.(producer := Returned(None)));
      }
    case Offering(_) => assert Step(source, s, OfferCancelled, s.(producer := Returned(Some(ContextCancelled))));
    case Returned(o) => assert Step(source, s, Report, s.(producer := Reported, producerDone := Some(o)));
    case Reported => assert Step(source, s, CloseHandoff, s.(producer := Closed));
    case Closed =>
  }

  lemma WriterCanMove(source: seq<Batch>, s: State)
    requires s.writer.Got? || s.writer.Committing? || s.writer.Advancing? || s.writer.Leaving?
    ensures CanMove(source, s)
  {
    match s.writer
    case Got(b) =>
      if s.cancelled {
        assert Step(source, s, Check, s.(writer := Leaving(ContextCancelled)));
      } else if !b.matched {
        assert Step(source, s, Check, s.(writer := Leaving(InvalidBatch), disturbed := true));
      } else {
        assert Step(source, s, Check, s.(writer := Committing(b)));
      }
    case Committing(b) => assert Step(source, s, Commit, s.(writer := Advancing(b), committed := s.committed + [b]));
    case Advancing(b) => assert Step(source, s, Advance, s.(writer := Selecting, advanced := s.advanced + [b]));
    case Leaving(e) => assert Step(source, s, Leave, s.(writer := Collecting(Some(e)), cancelled := true));
    case _ =>
  }

  // Until the pipeline returns, producer or writer can go on: nothing waits forever, whatever was cancelled.
  lemma NeverStuck(source: seq<Batch>, states: seq<State>, actions: seq<Action>, k: nat)
    requires Run(source, states, actions) && k < |states| && !states[k].writer.Done?
    ensures CanMove(source, states[k])
  {
    var s := states[k];
    Reachable(source, states, actions, k);
    if s.writer.Selecting? && s.producer.Offering? {
      assert Step(source, s, HandOver, s.(producer := Preparing, writer := Got(s.producer.batch), handed := s.handed + 1));
    } else if s.writer.Selecting? && s.producer.Closed? {
      assert Step(source, s, SeeClosed, s.(writer := Collecting(None)));
    } else if s.writer.Collecting? && s.producerDone.Some? {
      assert Step(source, s, Collect, s.(writer := Done(s.writer.writeError,
                                               if s.writer.writeError.Some? then s.writer.writeError else s.producerDone.value)));
    } else if s.writer.Selecting? || s.writer.Collecting? {
      ProducerCanMove(source, s);
    } else {
      WriterCanMove(source, s);
    }
  }

  function Cancellations(actions: seq<Action>): nat {
    if actions == [] then 0 else Cancellations(actions[..|actions| - 1]) + if actions[|actions| - 1] == Cancel then 1 else 0
  }

  // No run takes more than a fixed number of steps besides cancellations.
  lemma {:induction false} RunsAreShort(source: seq<Batch>, states: seq<State>, actions: seq<Action>, k: nat)
    requires Run(source, states, actions) && k < |states|
    ensures k - Cancellations(actions[..k]) + Rank(source, states[k]) <= 6 * |source| + 6
    decreases k
  {
    if k > 0 {
      RunsAreShort(source, states, actions, k - 1);
      Reachable(source, states, actions, k - 1);
      assert Steps(source, states, actions, k - 1);
      assert actions[..k][..k - 1] == actions[..k - 1];
      if actions[k - 1] != Cancel {
        EveryStepDescends(source, states[k - 1], actions[k - 1], states[k]);
      }
    }
  }
}
