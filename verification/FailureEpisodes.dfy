/** Failure episodes: runs of failed validations of one identity between successes, found in one pass. */
module FailureEpisodes {
  import opened Effort
  import opened ReworkEvents

  // The source joins the four parts with NUL bytes; here they stay a tuple.
  datatype Identity = Identity(agent: string, operation: Operation, workingDirectory: string, command: string)

  function IdentityOf(e: Event): Option<Identity> {
    if !IsValidation(e.operation) || e.target.command == "" then None
    else Some(Identity(EffortAgent(e.agentId), e.operation, e.target.workingDirectory, e.target.command))
  }

  // Two validations are of one identity exactly when agent, operation, directory and command agree; "main" is the agent
  // without an id.
  lemma IdentitiesAgree(e: Event, f: Event)
    requires IsValidation(e.operation) && e.target.command != ""
    ensures IdentityOf(e) == IdentityOf(f) <==>
              && e.operation == f.operation && e.target.workingDirectory == f.target.workingDirectory
              && e.target.command == f.target.command
              && (e.agentId == f.agentId || (e.agentId in {"", "main"} && f.agentId in {"", "main"}))
  {
  }

  // What the pass looks at: an attempt with an id, an identity and an outcome.
  predicate Tried(e: Event, id: Identity) {
    e.attemptId != "" && e.success.Some? && IdentityOf(e) == Some(id)
  }

  predicate Fails(e: Event, id: Identity) {
    Tried(e, id) && Failed(e)
  }

  predicate Succeeds(e: Event, id: Identity) {
    Tried(e, id) && !Failed(e)
  }

  // ---------- what an episode is ----------

  // No success of id lies strictly between i and n.
  ghost predicate Unbroken(events: seq<Event>, id: Identity, i: nat, n: nat)
    requires n <= |events|
  {
    forall j :: i < j < n ==> !Succeeds(events[j], id)
  }

  // i is the first failure of id since its last success.
  ghost predicate Opens(events: seq<Event>, id: Identity, i: nat) {
    && i < |events| && Fails(events[i], id)
    && forall j :: 0 <= j < i && Fails(events[j], id) ==> !Unbroken(events, id, j, i)
  }

  // The failure m belongs to the episode that i opens.
  ghost predicate Belongs(events: seq<Event>, id: Identity, i: nat, m: nat) {
    i <= m < |events| && Opens(events, id, i) && Fails(events[m], id) && Unbroken(events, id, i, m)
  }

  // How many failures of id there are from i on before n, and how many carry one fingerprint.
  function Failures(events: seq<Event>, id: Identity, i: nat, n: nat): nat
    requires n <= |events|
  {
    if n <= i then 0 else Failures(events, id, i, n - 1) + if Fails(events[n - 1], id) then 1 else 0
  }

  function Tally(events: seq<Event>, id: Identity, fingerprint: string, i: nat, n: nat): nat
    requires n <= |events|
  {
    if n <= i then 0
    else Tally(events, id, fingerprint, i, n - 1) +
         if Fails(events[n - 1], id) && events[n - 1].fingerprint == fingerprint then 1 else 0
  }

  // first stands for the event the source copies agent, operation, target, start and span from, last for the one it
  // copies the end from.
  datatype Episode = Episode(first: nat, last: nat, endedAt: int, resolved: bool, failures: int, fingerprints: map<string, int>)

  // The episode holds what lies between its first failure and n.
  ghost predicate Describes(events: seq<Event>, id: Identity, ep: Episode, n: nat)
    requires n <= |events|
  {
    && ep.first < n && Opens(events, id, ep.first) && Unbroken(events, id, ep.first, n)
    && ep.failures == Failures(events, id, ep.first, n)
    && (forall f :: f in ep.fingerprints ==> f != "" && ep.fingerprints[f] == Tally(events, id, f, ep.first, n))
    && (forall f :: f != "" && f !in ep.fingerprints ==> Tally(events, id, f, ep.first, n) == 0)
  }

  // Still open at n: it ends with its last failure.
  ghost predicate OpenAt(events: seq<Event>, id: Identity, ep: Episode, n: nat)
    requires n <= |events|
  {
    && Describes(events, id, ep, n) && !ep.resolved
    && LastFailure(events, id, ep.first, ep.last, n) && ep.endedAt == EventEnd(events[ep.last])
  }

  ghost predicate LastFailure(events: seq<Event>, id: Identity, first: nat, m: nat, n: nat)
    requires n <= |events|
  {
    first <= m < n && Fails(events[m], id) && forall j :: m < j < n ==> !Fails(events[j], id)
  }

  // Closed by the success at its end.
  ghost predicate Resolved(events: seq<Event>, id: Identity, ep: Episode) {
    && ep.last < |events| && Describes(events, id, ep, ep.last) && Succeeds(events[ep.last], id)
    && ep.resolved && ep.endedAt == EventEnd(events[ep.last])
  }

  // ---------- the pass ----------

  type Pendings = map<Identity, Episode>

  ghost predicate TracksId(events: seq<Event>, pending: Pendings, id: Identity, n: nat)
    requires n <= |events|
  {
    && (id in pending ==> OpenAt(events, id, pending[id], n))
    && (id !in pending ==> forall i :: 0 <= i < n && Fails(events[i], id) ==> !Unbroken(events, id, i, n))
  }

  ghost predicate Tracks(events: seq<Event>, pending: Pendings, n: nat)
    requires n <= |events|
  {
    forall id :: TracksId(events, pending, id, n)
  }

  function Extended(ep: Episode, e: Event, n: nat): Episode {
    ep.(last := n, endedAt := EventEnd(e), failures := ep.failures + 1,
        fingerprints := if e.fingerprint == "" then ep.fingerprints
                        else ep.fingerprints[e.fingerprint := (if e.fingerprint in ep.fingerprints then ep.fingerprints[e.fingerprint] else 0) + 1])
  }

  lemma UnbrokenNext(events: seq<Event>, id: Identity, i: nat, n: nat, n': nat)
    requires i < n < |events| && n' == n + 1
    ensures Unbroken(events, id, i, n') <==> Unbroken(events, id, i, n) && !Succeeds(events[n], id)
  {
  }

  // An event that does not try id adds nothing to its episode.
  lemma OtherDescribes(events: seq<Event>, id: Identity, ep: Episode, n: nat, n': nat)
    requires n < |events| && n' == n + 1 && Describes(events, id, ep, n) && !Tried(events[n], id)
    ensures Describes(events, id, ep, n')
  {
    UnbrokenNext(events, id, ep.first, n, n');
  }

  lemma OtherStaysOpen(events: seq<Event>, id: Identity, ep: Episode, n: nat, n': nat)
    requires n < |events| && n' == n + 1 && OpenAt(events, id, ep, n) && !Tried(events[n], id)
    ensures OpenAt(events, id, ep, n')
  {
    OtherDescribes(events, id, ep, n, n');
  }

  lemma OtherIdTracks(events: seq<Event>, pending: Pendings, after: Pendings, id: Identity, n: nat, n': nat)
    requires n < |events| && n' == n + 1 && TracksId(events, pending, id, n) && !Tried(events[n], id)
    requires id in after <==> id in pending
    requires id in pending ==> after[id] == pending[id]
    ensures TracksId(events, after, id, n')
  {
    if id in pending {
      OtherStaysOpen(events, id, pending[id], n, n');
    } else {
      forall i | 0 <= i < n && Fails(events[i], id) ensures !Unbroken(events, id, i, n') {
        UnbrokenNext(events, id, i, n, n');
      }
    }
  }

  lemma SuccessTracks(events: seq<Event>, pending: Pendings, id: Identity, n: nat, n': nat)
    requires n < |events| && n' == n + 1 && Succeeds(events[n], id)
    ensures TracksId(events, pending - {id}, id, n')
  {
    forall i | 0 <= i < n' && Fails(events[i], id) ensures !Unbroken(events, id, i, n') {
      assert i < n < n';
    }
  }

  lemma FailureExtends(events: seq<Event>, id: Identity, ep: Episode, n: nat, n': nat)
    requires n < |events| && n' == n + 1 && Describes(events, id, ep, n) && Fails(events[n], id)
    ensures Describes(events, id, Extended(ep, events[n], n), n')
  {
    UnbrokenNext(events, id, ep.first, n, n');
  }

  const FRESH := Episode(0, 0, 0, false, 0, map[])

  lemma NoneBefore(events: seq<Event>, id: Identity, f: string, i: nat)
    requires i <= |events|
    ensures Failures(events, id, i, i) == 0 && Tally(events, id, f, i, i) == 0
  {
  }

  lemma FailureOpens(events: seq<Event>, id: Identity, n: nat, n': nat)
    requires n < |events| && n' == n + 1 && Opens(events, id, n)
    ensures Describes(events, id, Extended(FRESH.(first := n), events[n], n), n')
  {
    forall f ensures Tally(events, id, f, n, n') == if events[n].fingerprint == f then 1 else 0 {
      NoneBefore(events, id, f, n);
    }
    NoneBefore(events, id, "", n);
  }

  // What the pass does with a failure.
  function AfterFailure(events: seq<Event>, pending: Pendings, id: Identity, n: nat): Pendings
    requires n < |events|
  {
    pending[id := Extended(if id in pending then pending[id] else FRESH.(first := n), events[n], n)]
  }

  lemma FailureTracks(events: seq<Event>, pending: Pendings, id: Identity, n: nat, n': nat)
    requires n < |events| && n' == n + 1 && TracksId(events, pending, id, n) && Fails(events[n], id)
    ensures TracksId(events, AfterFailure(events, pending, id, n), id, n')
  {
    if id in pending {
      FailureExtends(events, id, pending[id], n, n');
    } else {
      FailureOpens(events, id, n, n');
    }
    assert AfterFailure(events, pending, id, n)[id].last == n;
  }

  // The closed episodes are exactly those a success before n closed, in the order of these successes.
  ghost predicate Closed(events: seq<Event>, completed: seq<Episode>, n: nat)
    requires n <= |events|
  {
    && (forall c :: 0 <= c < |completed| ==> completed[c].last < n && WasResolved(events, completed[c]))
    && (forall a, b :: 0 <= a < b < |completed| ==> completed[a].last < completed[b].last)
    && (forall id, i: nat, k: nat :: Closes(events, id, i, k) && k < n ==> Holds(completed, i, k))
  }

  ghost predicate WasResolved(events: seq<Event>, ep: Episode) {
    exists id :: Resolved(events, id, ep)
  }

  ghost predicate Holds(episodes: seq<Episode>, i: nat, k: nat) {
    exists c :: 0 <= c < |episodes| && episodes[c].first == i && episodes[c].last == k
  }

  // The success at k ends the episode that i opens.
  ghost predicate Closes(events: seq<Event>, id: Identity, i: nat, k: nat) {
    i < k < |events| && Opens(events, id, i) && Succeeds(events[k], id) && Unbroken(events, id, i, k)
  }

  lemma NothingCloses(events: seq<Event>, pending: Pendings, completed: seq<Episode>, n: nat)
    requires n < |events| && Tracks(events, pending, n) && Closed(events, completed, n)
    requires forall id :: Succeeds(events[n], id) ==> id !in pending
    ensures Closed(events, completed, n + 1)
  {
    forall id, i: nat, k: nat | Closes(events, id, i, k) && k < n + 1 ensures Holds(completed, i, k) {
      var _ := TracksId(events, pending, id, n);
    }
  }

  lemma HoldsMore(completed: seq<Episode>, ep: Episode, i: nat, k: nat)
    requires Holds(completed, i, k) || (ep.first == i && ep.last == k)
    ensures Holds(completed + [ep], i, k)
  {
    var all := completed + [ep];
    if ep.first == i && ep.last == k {
      assert all[|completed|] == ep;
    } else {
      var c :| 0 <= c < |completed| && completed[c].first == i && completed[c].last == k;
      assert all[c] == completed[c];
    }
  }

  // Appending what the success at n closes.
  lemma ClosedAppend(events: seq<Event>, completed: seq<Episode>, id: Identity, ep: Episode, n: nat)
    requires n < |events| && Closed(events, completed, n) && Resolved(events, id, ep) && ep.last == n
    ensures Closed(events, completed + [ep], n + 1)
  {
    var all := completed + [ep];
    forall id', i: nat, k: nat | Closes(events, id', i, k) && k < n + 1 ensures Holds(all, i, k) {
      if k == n {
        OnlyOneOpen(events, id, ep.first, i, n);
      }
      HoldsMore(completed, ep, i, k);
    }
    forall c | 0 <= c < |all| ensures all[c].last < n + 1 && WasResolved(events, all[c]) {
      if c < |completed| {
        assert all[c] == completed[c];
      } else {
        assert Resolved(events, id, all[c]);
      }
    }
  }

  lemma SuccessCloses(events: seq<Event>, pending: Pendings, id: Identity, n: nat)
    requires n < |events| && Tracks(events, pending, n) && Succeeds(events[n], id) && id in pending
    ensures Resolved(events, id, pending[id].(last := n, endedAt := EventEnd(events[n]), resolved := true))
  {
    assert TracksId(events, pending, id, n);
  }

  // Two failures of one identity that are both still open at n open the same episode.
  lemma OnlyOneOpen(events: seq<Event>, id: Identity, i: nat, j: nat, n: nat)
    requires n <= |events| && i < n && j < n
    requires Opens(events, id, i) && Opens(events, id, j)
    requires Unbroken(events, id, i, n) && Unbroken(events, id, j, n)
    ensures i == j
  {
    if i < j {
      assert Unbroken(events, id, i, j);
    } else if j < i {
      assert Unbroken(events, id, j, i);
    }
  }

  lemma SkippedTracks(events: seq<Event>, pending: Pendings, n: nat, n': nat)
    requires n < |events| && n' == n + 1 && Tracks(events, pending, n) && forall id :: !Tried(events[n], id)
    ensures Tracks(events, pending, n')
  {
    forall id ensures TracksId(events, pending, id, n') {
      OtherIdTracks(events, pending, pending, id, n, n');
    }
  }

  lemma TriedTracks(events: seq<Event>, pending: Pendings, after: Pendings, key: Identity, n: nat, n': nat)
    requires n < |events| && n' == n + 1 && Tracks(events, pending, n) && Tried(events[n], key)
    requires after == if Failed(events[n]) then AfterFailure(events, pending, key, n) else pending - {key}
    ensures Tracks(events, after, n')
  {
    forall id ensures TracksId(events, after, id, n') {
      if id != key {
        OtherIdTracks(events, pending, after, id, n, n');
      } else if Failed(events[n]) {
        FailureTracks(events, pending, key, n, n');
      } else {
        SuccessTracks(events, pending, key, n, n');
      }
    }
  }

  // detectFailureEpisodes' loop: the closed episodes, and those still pending.
  method Scan(events: seq<Event>) returns (completed: seq<Episode>, pending: Pendings)
    ensures Tracks(events, pending, |events|) && Closed(events, completed, |events|)
  {
    pending, completed := map[], [];
    for n := 0 to |events|
      invariant Tracks(events, pending, n) && Closed(events, completed, n)
    {
      var event := events[n];
      var identity := IdentityOf(event);
      if event.success == None || event.attemptId == "" || identity == None {
        NothingCloses(events, pending, completed, n);
        SkippedTracks(events, pending, n, n + 1);
        continue;
      }
      var key := identity.value;
      var after := if event.success.value then pending - {key} else AfterFailure(events, pending, key, n);
      TriedTracks(events, pending, after, key, n, n + 1);
      if event.success.value && key in pending {
        var ep := pending[key].(last := n, endedAt := EventEnd(event), resolved := true);
        SuccessCloses(events, pending, key, n);
        ClosedAppend(events, completed, key, ep, n);
        completed := completed + [ep];
      } else {
        NothingCloses(events, pending, completed, n);
      }
      pending := after;
    }
  }

  // ---------- every episode ----------

  // The unresolved episodes that follow the closed ones, each with the identity it is pending for.
  ghost predicate Unresolved(events: seq<Event>, rest: seq<Episode>, ids: seq<Identity>, pending: Pendings) {
    && |ids| == |rest|
    && (forall u :: 0 <= u < |rest| ==> ids[u] in pending && rest[u] == pending[ids[u]])
    && (forall a, b :: 0 <= a < b < |ids| ==> ids[a] != ids[b])
  }

  // No two episodes open with the same event.
  predicate DistinctStarts(episodes: seq<Episode>) {
    forall a, b :: 0 <= a < b < |episodes| ==> episodes[a].first != episodes[b].first
  }

  /** episodes are the failure episodes of events: every opening failure has exactly one, which holds the
      failures up to the success that closes it, or to the end of events if none does. */
  ghost predicate Episodes(events: seq<Event>, episodes: seq<Episode>) {
    && DistinctStarts(episodes)
    && (forall c :: 0 <= c < |episodes| ==> IsEpisode(events, episodes[c]))
    && (forall id, i: nat :: Opens(events, id, i) ==> HasEpisode(episodes, i))
  }

  ghost predicate IsEpisode(events: seq<Event>, ep: Episode) {
    exists id :: IsEpisodeOf(events, id, ep)
  }

  ghost predicate IsEpisodeOf(events: seq<Event>, id: Identity, ep: Episode) {
    OpenAt(events, id, ep, |events|) || Resolved(events, id, ep)
  }

  ghost predicate HasEpisode(episodes: seq<Episode>, i: nat) {
    exists c :: 0 <= c < |episodes| && episodes[c].first == i
  }

  // The first success of id after i, if there is one.
  lemma {:induction false} FirstSuccess(events: seq<Event>, id: Identity, i: nat, n: nat) returns (k: nat)
    requires i < n <= |events| && !Unbroken(events, id, i, n)
    ensures i < k < n && Succeeds(events[k], id) && Unbroken(events, id, i, k)
    decreases n
  {
    if Unbroken(events, id, i, n - 1) {
      k := n - 1;
    } else {
      k := FirstSuccess(events, id, i, n - 1);
    }
  }

  lemma OpeningHasEpisode(events: seq<Event>, completed: seq<Episode>, pending: Pendings,
                          rest: seq<Episode>, ids: seq<Identity>, id: Identity, i: nat)
    requires Closed(events, completed, |events|) && Tracks(events, pending, |events|)
    requires Unresolved(events, rest, ids, pending) && forall x :: x in pending ==> x in ids
    requires Opens(events, id, i)
    ensures HasEpisode(completed + rest, i)
  {
    var all := completed + rest;
    if Unbroken(events, id, i, |events|) {
      assert TracksId(events, pending, id, |events|);
      OnlyOneOpen(events, id, i, pending[id].first, |events|);
      var u :| 0 <= u < |ids| && ids[u] == id;
      assert all[|completed| + u].first == i;
    } else {
      var k := FirstSuccess(events, id, i, |events|);
      assert Closes(events, id, i, k);
      var c :| 0 <= c < |completed| && completed[c].first == i && completed[c].last == k;
      assert all[c].first == i;
    }
  }

  // Whose episode a closed one is.
  lemma WhoseClosed(events: seq<Event>, completed: seq<Episode>, c: nat) returns (id: Identity)
    requires Closed(events, completed, |events|) && c < |completed|
    ensures Resolved(events, id, completed[c])
  {
    var ep := completed[c];
    assert WasResolved(events, ep);
    id :| Resolved(events, id, ep);
  }

  lemma FirstsDistinct(events: seq<Event>, completed: seq<Episode>, pending: Pendings,
                       rest: seq<Episode>, ids: seq<Identity>, a: nat, b: nat)
    requires Closed(events, completed, |events|) && Tracks(events, pending, |events|)
    requires Unresolved(events, rest, ids, pending)
    requires a < b < |completed + rest|
    ensures (completed + rest)[a].first != (completed + rest)[b].first
  {
    var n := |completed|;
    if b < n {
      var id := WhoseClosed(events, completed, a);
      var id' := WhoseClosed(events, completed, b);
    } else {
      assert TracksId(events, pending, ids[b - n], |events|);
      if a < n {
        var id := WhoseClosed(events, completed, a);
      } else {
        assert TracksId(events, pending, ids[a - n], |events|);
      }
    }
  }

  lemma ScanFindsEpisodes(events: seq<Event>, completed: seq<Episode>, pending: Pendings,
                          rest: seq<Episode>, ids: seq<Identity>)
    requires Closed(events, completed, |events|) && Tracks(events, pending, |events|)
    requires Unresolved(events, rest, ids, pending) && forall x :: x in pending ==> x in ids
    ensures Episodes(events, completed + rest)
  {
    var all := completed + rest;
    forall a, b | 0 <= a < b < |all| ensures all[a].first != all[b].first {
      FirstsDistinct(events, completed, pending, rest, ids, a, b);
    }
    forall c | 0 <= c < |all| ensures IsEpisode(events, all[c]) {
      if c >= |completed| {
        assert TracksId(events, pending, ids[c - |completed|], |events|);
        assert IsEpisodeOf(events, ids[c - |completed|], all[c]);
      } else {
        var id := WhoseClosed(events, completed, c);
        assert IsEpisodeOf(events, id, all[c]);
      }
    }
    forall id, i: nat | Opens(events, id, i) ensures HasEpisode(all, i) {
      OpeningHasEpisode(events, completed, pending, rest, ids, id, i);
    }
  }

  // ---------- the final order ----------

  function StartOf(events: seq<Event>, ep: Episode): int
    requires ep.first < |events|
  {
    EventTime(events[ep.first])
  }

  predicate Within(events: seq<Event>, episodes: seq<Episode>) {
    forall ep :: ep in episodes ==> ep.first < |events|
  }

  // a was completed before b: resolved ones by the success that closed them, then the others in any order.
  predicate CompletedBefore(a: Episode, b: Episode) {
    b.resolved ==> a.resolved && a.last < b.last
  }

  // By start, and those that start together as they were completed.
  predicate ByStart(events: seq<Event>, episodes: seq<Episode>)
    requires Within(events, episodes)
  {
    forall a, b :: 0 <= a < b < |episodes| ==>
      && StartOf(events, episodes[a]) <= StartOf(events, episodes[b])
      && (StartOf(events, episodes[a]) == StartOf(events, episodes[b]) ==> CompletedBefore(episodes[a], episodes[b]))
  }

  predicate ByCompletion(episodes: seq<Episode>) {
    forall a, b :: 0 <= a < b < |episodes| ==> CompletedBefore(episodes[a], episodes[b])
  }

  // Where ep goes: behind everything that does not start later.
  method Place(events: seq<Event>, sorted: seq<Episode>, ep: Episode) returns (at: nat)
    requires Within(events, sorted) && ByStart(events, sorted) && ep.first < |events|
    ensures at <= |sorted|
    ensures forall j :: 0 <= j < at ==> StartOf(events, sorted[j]) <= StartOf(events, ep)
    ensures forall j :: at <= j < |sorted| ==> StartOf(events, ep) < StartOf(events, sorted[j])
  {
    at := |sorted|;
    while at > 0 && StartOf(events, ep) < StartOf(events, sorted[at - 1])
      invariant at <= |sorted|
      invariant forall j :: at <= j < |sorted| ==> StartOf(events, ep) < StartOf(events, sorted[j])
    {
      at := at - 1;
    }
  }

  function Insert(sorted: seq<Episode>, ep: Episode, at: nat): seq<Episode>
    requires at <= |sorted|
  {
    sorted[..at] + [ep] + sorted[at..]
  }

  lemma InsertKeepsOrder(events: seq<Event>, sorted: seq<Episode>, ep: Episode, at: nat)
    requires Within(events, sorted) && ByStart(events, sorted) && ep.first < |events| && at <= |sorted|
    requires forall j :: 0 <= j < at ==> StartOf(events, sorted[j]) <= StartOf(events, ep)
    requires forall j :: at <= j < |sorted| ==> StartOf(events, ep) < StartOf(events, sorted[j])
    requires forall e :: e in sorted ==> CompletedBefore(e, ep)
    ensures Within(events, Insert(sorted, ep, at)) && ByStart(events, Insert(sorted, ep, at))
  {
    var after := Insert(sorted, ep, at);
    forall c | 0 <= c < |after| ensures after[c] == if c < at then sorted[c] else if c == at then ep else sorted[c - 1] {
    }
  }

  lemma InsertKeepsDistinct(sorted: seq<Episode>, ep: Episode, at: nat)
    requires DistinctStarts(sorted) && at <= |sorted| && forall e :: e in sorted ==> e.first != ep.first
    ensures DistinctStarts(Insert(sorted, ep, at))
    ensures forall e :: e in Insert(sorted, ep, at) <==> e in sorted + [ep]
  {
    assert sorted == sorted[..at] + sorted[at..];
    var after := Insert(sorted, ep, at);
    forall c | 0 <= c < |after| ensures after[c] == if c < at then sorted[c] else if c == at then ep else sorted[c - 1] {
    }
  }

  // sort.SliceStable by start
  method SortByStart(events: seq<Event>, all: seq<Episode>) returns (sorted: seq<Episode>)
    requires Within(events, all) && DistinctStarts(all) && ByCompletion(all)
    ensures Within(events, sorted) && ByStart(events, sorted) && DistinctStarts(sorted)
    ensures forall ep :: ep in sorted <==> ep in all
  {
    sorted := [];
    for k := 0 to |all|
      invariant Within(events, sorted) && ByStart(events, sorted) && DistinctStarts(sorted)
      invariant forall ep :: ep in sorted <==> ep in all[..k]
    {
      assert all[..k + 1] == all[..k] + [all[k]];
      var at := Place(events, sorted, all[k]);
      forall e | e in sorted ensures e.first != all[k].first && CompletedBefore(e, all[k]) {
        var j :| 0 <= j < k && all[j] == e;
      }
      InsertKeepsDistinct(sorted, all[k], at);
      InsertKeepsOrder(events, sorted, all[k], at);
      sorted := Insert(sorted, all[k], at);
    }
    assert all[..|all|] == all;
  }

  lemma OrderKeepsEpisodes(events: seq<Event>, all: seq<Episode>, sorted: seq<Episode>)
    requires Episodes(events, all) && DistinctStarts(sorted) && forall ep :: ep in sorted <==> ep in all
    ensures Episodes(events, sorted)
  {
    forall c | 0 <= c < |sorted| ensures IsEpisode(events, sorted[c]) {
      assert sorted[c] in all;
    }
    forall id, i: nat | Opens(events, id, i) ensures HasEpisode(sorted, i) {
      assert HasEpisode(all, i);
      var c :| 0 <= c < |all| && all[c].first == i;
      assert all[c] in sorted;
    }
  }

  // Closed episodes are resolved, pending ones are not.
  lemma CompletedFirst(events: seq<Event>, completed: seq<Episode>, pending: Pendings,
                       rest: seq<Episode>, ids: seq<Identity>)
    requires Closed(events, completed, |events|) && Tracks(events, pending, |events|)
    requires Unresolved(events, rest, ids, pending)
    ensures ByCompletion(completed + rest) && Within(events, completed + rest)
  {
    forall c | 0 <= c < |completed| ensures completed[c].resolved && completed[c].first < |events| {
      var id := WhoseClosed(events, completed, c);
    }
    forall u | 0 <= u < |rest| ensures !rest[u].resolved && rest[u].first < |events| {
      assert TracksId(events, pending, ids[u], |events|);
    }
  }

  // detectFailureEpisodes
  method DetectFailureEpisodes(events: seq<Event>) returns (episodes: seq<Episode>)
    ensures Episodes(events, episodes)
    ensures Within(events, episodes) && ByStart(events, episodes)
  {
    var completed, pending := Scan(events);
    var left := pending.Keys;
    var rest: seq<Episode> := [];
    ghost var ids: seq<Identity> := [];
    while left != {}
      invariant Unresolved(events, rest, ids, pending)
      invariant left <= pending.Keys && forall id :: id in ids <==> id in pending && id !in left
      decreases left
    {
      var id :| id in left;
      rest, ids := rest + [pending[id]], ids + [id];
      left := left - {id};
    }
    ScanFindsEpisodes(events, completed, pending, rest, ids);
    CompletedFirst(events, completed, pending, rest, ids);
    episodes := SortByStart(events, completed + rest);
    OrderKeepsEpisodes(events, completed + rest, episodes);
  }

  // ---------- consequences ----------

  // Every failure belongs to exactly one episode.
  lemma {:induction false} FailureHasOpening(events: seq<Event>, id: Identity, m: nat) returns (i: nat)
    requires m < |events| && Fails(events[m], id)
    ensures Belongs(events, id, i, m)
    decreases m
  {
    if Opens(events, id, m) {
      i := m;
    } else {
      var j :| 0 <= j < m && Fails(events[j], id) && Unbroken(events, id, j, m);
      i := FailureHasOpening(events, id, j);
    }
  }

  lemma FailureHasOneOpening(events: seq<Event>, id: Identity, m: nat, i: nat, j: nat)
    requires Belongs(events, id, i, m) && Belongs(events, id, j, m)
    ensures i == j
  {
    if i < m && j < m {
      OnlyOneOpen(events, id, i, j, m);
    }
  }

  // At most one episode of an identity stays unresolved.
  lemma OneUnresolved(events: seq<Event>, id: Identity, a: Episode, b: Episode)
    requires OpenAt(events, id, a, |events|) && OpenAt(events, id, b, |events|)
    ensures a.first == b.first
  {
    OnlyOneOpen(events, id, a.first, b.first, |events|);
  }

  predicate Recurring(ep: Episode) {
    exists f :: f in ep.fingerprints && ep.fingerprints[f] >= 2
  }

  lemma {:induction false} TallyWithin(events: seq<Event>, id: Identity, f: string, i: nat, n: nat)
    requires n <= |events|
    ensures Tally(events, id, f, i, n) <= Failures(events, id, i, n)
  {
    if n > i {
      TallyWithin(events, id, f, i, n - 1);
    }
  }

  // A recurring episode has at least two failures.
  lemma RecurringFailsTwice(events: seq<Event>, ep: Episode)
    requires IsEpisode(events, ep) && Recurring(ep)
    ensures ep.failures >= 2
  {
    var f :| f in ep.fingerprints && ep.fingerprints[f] >= 2;
    var id :| IsEpisodeOf(events, id, ep);
    if OpenAt(events, id, ep, |events|) {
      TallyWithin(events, id, f, ep.first, |events|);
    } else {
      TallyWithin(events, id, f, ep.first, ep.last);
    }
  }
}
