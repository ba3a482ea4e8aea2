/** The batcher's fields and the code that touches them, each method being one locked region (or one
    channel operation) of the source. A ghost state stands for the rest of the program; every method
    carries the object from that state to the state its step leads to. */
module BatchingCommitter {
  import opened Batching

  const DEFAULT_POLICY := Policy(256, 32 * 0x10_0000, 25_000_000, 512, 64 * 0x10_0000)

  class BatchingExportCommitter {
    const policy: Policy
    var accepting: bool
    var pending: seq<Request>
    var unresolvedExports: int
    var unresolvedBytes: int
    var generation: nat
    var commitError: Option<Error>
    var ready: bool

    ghost predicate Implements(s: State)
      reads this
    {
      && s.shared == Shared(accepting, pending, unresolvedExports, unresolvedBytes, generation, commitError)
      && s.ready == ready
    }

    constructor (policy: Policy)
      ensures Implements(Initial()) && this.policy == policy
    {
      this.policy := policy;
      accepting, pending, unresolvedExports, unresolvedBytes := true, [], 0, 0;
      generation, commitError, ready := 0, None, false;
    }

    // newBatchingExportCommitter: without a destination, or with a policy that does not validate, there is no committer.
    static method Create(destination: bool, policy: Policy) returns (committer: BatchingExportCommitter?)
      ensures committer != null <==> destination && policy.Valid()
      ensures committer != null ==> fresh(committer) && committer.policy == policy && committer.Implements(Initial())
    {
      if !destination {
        return null;
      }
      if policy.windowExports <= 0 || policy.windowBytes <= 0 || policy.windowWait <= 0 {
        return null;
      }
      if policy.admissionExports < policy.windowExports || policy.admissionBytes < policy.windowBytes {
        return null;
      }
      committer := new BatchingExportCommitter(policy);
    }

    // NewBatchingExportCommitter: the default policy always makes one; without a destination the source panics.
    static method CreateDefault() returns (committer: BatchingExportCommitter)
      ensures fresh(committer) && committer.policy == DEFAULT_POLICY && committer.Implements(Initial())
    {
      var created := Create(true, DEFAULT_POLICY);
      committer := created;
    }

    // The locked region of CommitExport for caller i; pc is what the caller does next.
    method TryAdmit(i: nat, bytes: nat, expired: bool, ghost s: State) returns (pc: CallerPc)
      requires Implements(s) && CallerEnabled(s, i, Attempt)
      requires s.callers[i].bytes == bytes && s.callers[i].expired == expired
      modifies this
      ensures Implements(AttemptStep(policy, s, i))
      ensures pc == AttemptStep(policy, s, i).callers[i].pc
      ensures pc == Returned(Closed) <==> !old(accepting)
      ensures pc == Returned(Expired) <==> old(accepting) && expired
      ensures pc == Signalling <==> old(accepting) && !expired && old(unresolvedExports) < policy.admissionExports
                                    && old(unresolvedBytes) + bytes <= policy.admissionBytes
      ensures pc.Waiting? || pc == Signalling || pc == Returned(Closed) || pc == Returned(Expired)
      ensures pc.Waiting? ==> pc.generation == generation
      ensures pc == Signalling ==> pending == old(pending) + [Request(i, bytes)]
                                   && unresolvedExports == old(unresolvedExports) + 1 && unresolvedBytes == old(unresolvedBytes) + bytes
      ensures pc != Signalling ==> pending == old(pending) && unresolvedExports == old(unresolvedExports) && unresolvedBytes == old(unresolvedBytes)
      ensures accepting == old(accepting) && generation == old(generation) && commitError == old(commitError) && ready == old(ready)
    {
      if !accepting {
        return Returned(Closed);
      }
      if expired {
        return Returned(Expired);
      }
      if unresolvedExports < policy.admissionExports && unresolvedBytes + bytes <= policy.admissionBytes {
        unresolvedExports := unresolvedExports + 1;
        unresolvedBytes := unresolvedBytes + bytes;
        pending := pending + [Request(i, bytes)];
        return Signalling;
      }
      pc := Waiting(generation);
    }

    method SignalReady(ghost s: State)
      requires Implements(s)
      modifies this
      ensures Implements(s.(ready := true))
    {
      if !ready {
        ready := true;
      }
    }

    method NotifyCapacity(ghost s: State)
      requires Implements(s)
      modifies this
      ensures Implements(s.(shared := Notified(s.shared)))
    {
      generation := generation + 1;
    }

    // The locked region of closeOnce.
    method StopAccepting(i: nat, ghost s: State)
      requires Implements(s) && CloserEnabled(s, i, EnterClose) && s.once.Fresh?
      modifies this
      ensures Implements(CloseStep(s, i))
    {
      accepting := false;
      NotifyCapacity(s.(shared := s.shared.(accepting := false)));
    }

    // The locked region at the head of the worker's loop.
    method TakeNext(ghost s: State) returns (worker: WorkerPc)
      requires Implements(s) && s.worker.Take?
      modifies this
      ensures Implements(TakeStep(s)) && worker == TakeStep(s).worker
    {
      if |pending| > 0 {
        worker := Got(pending[0]);
        pending := pending[1..];
      } else {
        worker := Idle(accepting);
      }
    }

    method DrainPending(ghost s: State) returns (queued: seq<Request>)
      requires Implements(s) && s.worker.Drain?
      modifies this
      ensures Implements(DrainStep(s)) && DrainStep(s).window == s.window + queued
    {
      queued := pending;
      pending := [];
    }

    method RecordError(err: Error, ghost s: State, ghost after: After)
      requires Implements(s) && s.worker == Flushing(Record(err), after)
      modifies this
      ensures Implements(FlushStep(s, Record(err), after))
    {
      if commitError == None {
        commitError := Some(err);
      }
    }

    // resolve's locked region: one request at a time, then one notification for them all.
    method Resolve(requests: seq<Request>, ghost s: State, ghost outcome: Option<Error>)
      requires Implements(s) && requests == s.window
      modifies this
      ensures Implements(SettleStep(s, outcome))
    {
      if |requests| == 0 {
        return;
      }
      for k := 0 to |requests|
        invariant accepting == old(accepting) && pending == old(pending) && generation == old(generation)
        invariant commitError == old(commitError) && ready == old(ready)
        invariant unresolvedExports == old(unresolvedExports) - k
        invariant unresolvedBytes == old(unresolvedBytes) - Bytes(requests[..k])
      {
        unresolvedExports := unresolvedExports - 1;
        unresolvedBytes := unresolvedBytes - requests[k].bytes;
        assert requests[..k + 1][..k] == requests[..k];
      }
      assert requests[..|requests|] == requests;
      generation := generation + 1;
    }
  }
}
