/** Retry cycles, a failure, an edit and a retry, found in one pass. */
module ReworkCycles {
  import opened ReworkEvents

  // ---------- what a cycle is ----------

  predicate Attempts(e: Event, key: RetryKey) {
    Retryable(e.operation) && KeyOf(e) == Some(key)
  }

  predicate IsEditBy(e: Event, agentId: string) {
    e.operation.Edit? && e.agentId == agentId
  }

  // An edit by the same agent lies strictly between i and n.
  ghost predicate Corrected(events: seq<Event>, i: nat, n: nat)
    requires i < n <= |events|
  {
    exists e :: i < e < n && IsEditBy(events[e], events[i].agentId)
  }

  // i failed an attempt at key, and since then no attempt at key failed or came after an edit.
  ghost predicate Pending(events: seq<Event>, key: RetryKey, i: nat, n: nat)
    requires n <= |events|
  {
    && i < n && Attempts(events[i], key) && Failed(events[i])
    && forall m :: i < m < n && Attempts(events[m], key) ==> !Failed(events[m]) && !Corrected(events, i, m)
  }

  /** The pair (i, k): i is an explicit failure of a retry key, an edit by the same agent follows it, no
      failure of the same key lies between, and k is the first attempt at the key after that edit. */
  ghost predicate IsCycle(events: seq<Event>, key: RetryKey, i: nat, k: nat)
    requires k < |events|
  {
    Pending(events, key, i, k) && Attempts(events[k], key) && Corrected(events, i, k)
  }

  datatype Candidate = Candidate(index: nat, corrected: bool)

  // evidence holds the positions of the events the source lists by reference and by key.
  datatype Cycle = Cycle(first: nat, last: nat, agentId: string, operation: Operation, target: Target,
                         startedAt: int, endedAt: int, evidence: seq<nat>)

  // The agent's events from i on before n.
  function EvidenceOf(events: seq<Event>, agentId: string, i: nat, n: nat): seq<nat>
    requires n <= |events|
  {
    if n <= i then []
    else EvidenceOf(events, agentId, i, n - 1) + if events[n - 1].agentId == agentId then [n - 1] else []
  }

  // In order, each once, all of them and no others.
  lemma {:induction false} EvidenceExactly(events: seq<Event>, agentId: string, i: nat, n: nat)
    requires n <= |events|
    ensures forall j: nat :: j in EvidenceOf(events, agentId, i, n) <==> i <= j < n && events[j].agentId == agentId
    ensures forall a, b :: 0 <= a < b < |EvidenceOf(events, agentId, i, n)| ==>
              EvidenceOf(events, agentId, i, n)[a] < EvidenceOf(events, agentId, i, n)[b]
  {
    if n > i {
      EvidenceExactly(events, agentId, i, n - 1);
      var before := EvidenceOf(events, agentId, i, n - 1);
      forall a | 0 <= a < |before| ensures before[a] < n - 1 {
        assert before[a] in before;
      }
    }
  }

  function CycleOf(events: seq<Event>, i: nat, k: nat): Cycle
    requires i < |events| && k < |events|
  {
    Cycle(i, k, events[k].agentId, events[k].operation, events[k].target, EventTime(events[i]), EventEnd(events[k]),
          EvidenceOf(events, events[k].agentId, i, k + 1))
  }

  // ---------- the scan ----------

  type Candidates = map<RetryKey, Candidate>

  // The map holds exactly the pending failure of key, if there is one, with the right mark.
  ghost predicate TracksKey(events: seq<Event>, pending: Candidates, key: RetryKey, n: nat)
    requires n <= |events|
  {
    && (key in pending ==>
          && Pending(events, key, pending[key].index, n)
          && (pending[key].corrected <==> Corrected(events, pending[key].index, n)))
    && (forall i: nat :: Pending(events, key, i, n) ==> key in pending && pending[key].index == i)
  }

  ghost predicate Tracks(events: seq<Event>, pending: Candidates, n: nat)
    requires n <= |events|
  {
    forall key :: TracksKey(events, pending, key, n)
  }

  function MarkEdited(pending: Candidates, agentId: string): Candidates {
    map key | key in pending :: if key.agentId == agentId then pending[key].(corrected := true) else pending[key]
  }

  lemma CorrectedGrows(events: seq<Event>, i: nat, n: nat, n': nat)
    requires i < n < |events| && n' == n + 1
    ensures Corrected(events, i, n') <==> Corrected(events, i, n) || IsEditBy(events[n], events[i].agentId)
  {
  }

  // An event that is no attempt at key leaves its pending failure as it was, but for the mark.
  lemma OtherKeyTracks(events: seq<Event>, pending: Candidates, after: Candidates, key: RetryKey, n: nat, n': nat)
    requires n < |events| && n' == n + 1 && TracksKey(events, pending, key, n) && !Attempts(events[n], key)
    requires key in after <==> key in pending
    requires key in after ==>
               && after[key].index == pending[key].index
               && after[key].corrected == (pending[key].corrected || IsEditBy(events[n], key.agentId))
    ensures TracksKey(events, after, key, n')
  {
    forall i: nat | i < n ensures Pending(events, key, i, n') <==> Pending(events, key, i, n) {
    }
    if key in pending {
      CorrectedGrows(events, pending[key].index, n, n');
    }
  }

  lemma PlainEventTracks(events: seq<Event>, pending: Candidates, after: Candidates, n: nat, n': nat)
    requires n < |events| && n' == n + 1 && Tracks(events, pending, n)
    requires !Retryable(events[n].operation) || KeyOf(events[n]) == None
    requires after == if events[n].operation.Edit? then MarkEdited(pending, events[n].agentId) else pending
    ensures Tracks(events, after, n')
  {
    forall key ensures TracksKey(events, after, key, n') {
      OtherKeyTracks(events, pending, after, key, n, n');
    }
  }

  // What the scan does to the candidate of the attempted key.
  function AfterAttempt(pending: Candidates, key: RetryKey, n: nat, failed: bool): Candidates {
    var rest := if key in pending && pending[key].corrected then pending - {key} else pending;
    if failed then rest[key := Candidate(n, false)] else rest
  }

  lemma AttemptMovesOwn(events: seq<Event>, pending: Candidates, key: RetryKey, n: nat, n': nat)
    requires n < |events| && n' == n + 1 && TracksKey(events, pending, key, n) && Attempts(events[n], key)
    ensures TracksKey(events, AfterAttempt(pending, key, n, Failed(events[n])), key, n')
  {
    if key in pending {
      CorrectedGrows(events, pending[key].index, n, n');
    }
    forall i: nat | Pending(events, key, i, n')
      ensures i == n || (Pending(events, key, i, n) && !Failed(events[n]) && !Corrected(events, i, n))
    {
    }
  }

  lemma AttemptTracks(events: seq<Event>, pending: Candidates, key: RetryKey, n: nat, n': nat)
    requires n < |events| && n' == n + 1 && Tracks(events, pending, n) && Attempts(events[n], key)
    ensures Tracks(events, AfterAttempt(pending, key, n, Failed(events[n])), n')
  {
    var after := AfterAttempt(pending, key, n, Failed(events[n]));
    forall k ensures TracksKey(events, after, k, n') {
      if k == key {
        AttemptMovesOwn(events, pending, key, n, n');
      } else {
        OtherKeyTracks(events, pending, after, k, n, n');
      }
    }
  }

  // cycles are exactly the cycles that end before n.
  ghost predicate Found(events: seq<Event>, cycles: seq<Cycle>, n: nat)
    requires n <= |events|
  {
    && (forall c :: c in cycles ==> c.last < n && c.first < c.last && c == CycleOf(events, c.first, c.last))
    && (forall c :: c in cycles ==> exists key :: IsCycle(events, key, c.first, c.last))
    && (forall key, i: nat, k: nat :: k < n && IsCycle(events, key, i, k) ==> CycleOf(events, i, k) in cycles)
    && (forall a, b :: 0 <= a < b < |cycles| ==> cycles[a].last < cycles[b].last)
  }

  lemma NoCycleEnds(events: seq<Event>, pending: Candidates, cycles: seq<Cycle>, n: nat)
    requires n < |events| && Tracks(events, pending, n) && Found(events, cycles, n)
    requires forall key :: Attempts(events[n], key) ==> !(key in pending && pending[key].corrected)
    ensures Found(events, cycles, n + 1)
  {
    forall key, i: nat ensures !IsCycle(events, key, i, n) {
      var _ := TracksKey(events, pending, key, n);
    }
  }

  lemma CycleEnds(events: seq<Event>, pending: Candidates, cycles: seq<Cycle>, n: nat, key: RetryKey)
    requires n < |events| && Tracks(events, pending, n) && Found(events, cycles, n)
    requires Attempts(events[n], key) && key in pending && pending[key].corrected
    ensures pending[key].index < n
    ensures Found(events, cycles + [CycleOf(events, pending[key].index, n)], n + 1)
  {
    assert TracksKey(events, pending, key, n);
    var i := pending[key].index;
    assert IsCycle(events, key, i, n);
    var all := cycles + [CycleOf(events, i, n)];
    forall k, j: nat, m: nat | m < n + 1 && IsCycle(events, k, j, m) ensures CycleOf(events, j, m) in all {
      if m == n {
        assert k == key && j == i;
        assert all[|cycles|] == CycleOf(events, j, m);
      }
    }
  }

  method CollectEvidence(events: seq<Event>, agentId: string, i: nat, k: nat) returns (evidence: seq<nat>)
    requires i <= k < |events|
    ensures evidence == EvidenceOf(events, agentId, i, k + 1)
  {
    evidence := [];
    for j := i to k + 1
      invariant evidence == EvidenceOf(events, agentId, i, j)
    {
      if events[j].agentId != agentId {
        continue;
      }
      evidence := evidence + [j];
    }
  }

  // A cycle has the agent, the operation and the target of its retry, and lasts from the start of its failure to the end
  // of its retry.
  lemma CycleSpan(events: seq<Event>, key: RetryKey, i: nat, k: nat)
    requires k < |events| && IsCycle(events, key, i, k)
    ensures var c := CycleOf(events, i, k);
            && c.first == i && c.last == k && c.agentId == key.agentId == events[i].agentId && c.operation == key.operation
            && c.target == events[k].target
            && c.startedAt == (if events[i].startedAt != 0 then events[i].startedAt else events[i].observedAt)
            && c.endedAt == (if events[k].endedAt != 0 then events[k].endedAt else events[k].observedAt)
  {
  }

  lemma EndsOf(s: seq<nat>, i: nat, e: nat, k: nat)
    requires forall a, b :: 0 <= a < b < |s| ==> s[a] < s[b]
    requires i in s && e in s && k in s && i < e < k && forall j: nat :: j in s ==> i <= j <= k
    ensures |s| >= 3 && s[0] == i && s[|s| - 1] == k
  {
    var a, b, c :| 0 <= a < |s| && 0 <= b < |s| && 0 <= c < |s| && s[a] == i && s[b] == e && s[c] == k;
    assert s[0] in s && s[|s| - 1] in s;
  }

  // A cycle's evidence is its agent's events from its failure to its retry, both included, with an edit between.
  lemma CycleEvidence(events: seq<Event>, key: RetryKey, i: nat, k: nat)
    requires k < |events| && IsCycle(events, key, i, k)
    ensures var evidence := CycleOf(events, i, k).evidence;
            && (forall j: nat :: j in evidence <==> i <= j <= k && events[j].agentId == key.agentId)
            && |evidence| >= 3 && evidence[0] == i && evidence[|evidence| - 1] == k
            && (exists e: nat :: e in evidence && i < e < k && events[e].operation.Edit?)
            && (forall a, b :: 0 <= a < b < |evidence| ==> evidence[a] < evidence[b])
  {
    var agentId := events[k].agentId;
    var evidence := EvidenceOf(events, agentId, i, k + 1);
    EvidenceExactly(events, agentId, i, k + 1);
    var e :| i < e < k && IsEditBy(events[e], events[i].agentId);
    assert i in evidence && e in evidence && k in evidence;
    EndsOf(evidence, i, e, k);
  }

  // detectReworkCycles
  method DetectReworkCycles(events: seq<Event>) returns (cycles: seq<Cycle>)
    ensures Found(events, cycles, |events|)
  {
    var pending: Candidates := map[];
    cycles := [];
    for index := 0 to |events|
      invariant Tracks(events, pending, index)
      invariant Found(events, cycles, index)
    {
      var event := events[index];
      var key := KeyOf(event);
      if !Retryable(event.operation) || key == None {
        NoCycleEnds(events, pending, cycles, index);
        var after := if event.operation.Edit? then MarkEdited(pending, event.agentId) else pending;
        PlainEventTracks(events, pending, after, index, index + 1);
        pending := after;
      } else {
        AttemptTracks(events, pending, key.value, index, index + 1);
        if key.value in pending && pending[key.value].corrected {
          CycleEnds(events, pending, cycles, index, key.value);
          var first := pending[key.value].index;
          var evidence := CollectEvidence(events, event.agentId, first, index);
          cycles := cycles + [Cycle(first, index, event.agentId, event.operation, event.target,
                                    EventTime(events[first]), EventEnd(event), evidence)];
        } else {
          NoCycleEnds(events, pending, cycles, index);
        }
        pending := AfterAttempt(pending, key.value, index, Failed(event));
      }
    }
  }

  // A failure opens at most one cycle, and an attempt closes at most one.
  lemma CyclesAreOneToOne(events: seq<Event>, key: RetryKey, i: nat, k: nat, key': RetryKey, i': nat, k': nat)
    requires k < |events| && k' < |events|
    requires IsCycle(events, key, i, k) && IsCycle(events, key', i', k')
    ensures i == i' <==> k == k'
  {
  }
}
