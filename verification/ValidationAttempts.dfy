/** Validation attempts: observations of one attempt merged in one pass. */
module ValidationAttempts {
  import opened Effort
  import opened ReworkEvents

  function OrElse(a: string, b: string): string {
    if a == "" then b else a
  }

  predicate Clash(a: string, b: string) {
    a != "" && b != "" && a != b
  }

  predicate Conflict(current: Event, observation: Event) {
    || (IsValidation(current.operation) && IsValidation(observation.operation) && current.operation != observation.operation)
    || Clash(current.target.command, observation.target.command)
    || Clash(current.agentId, observation.agentId)
  }

  // mergeValidationObservations, when there is no conflict
  function Merge(current: Event, observation: Event): Event {
    var clash := Clash(current.fingerprint, observation.fingerprint);
    current.(
      operation := if !IsValidation(current.operation) && IsValidation(observation.operation) then observation.operation
                   else current.operation,
      target := current.target.(
        command := OrElse(current.target.command, observation.target.command),
        workingDirectory := OrElse(current.target.workingDirectory, observation.target.workingDirectory)),
      agentId := OrElse(current.agentId, observation.agentId),
      fingerprint := if current.ambiguous then current.fingerprint
                     else if clash then ""
                     else OrElse(current.fingerprint, observation.fingerprint),
      ambiguous := current.ambiguous || clash,
      success := if current.success == None || Failed(observation) then observation.success else current.success,
      startedAt := if current.startedAt == 0 || (observation.startedAt != 0 && observation.startedAt < current.startedAt)
                   then observation.startedAt else current.startedAt,
      endedAt := if observation.endedAt > current.endedAt then observation.endedAt else current.endedAt,
      observedAt := if observation.observedAt > current.observedAt then observation.observedAt else current.observedAt)
  }

  // ---------- what a merged attempt says about its observations ----------

  ghost predicate Agrees(group: seq<Event>, r: Event) {
    && (Failed(r) <==> exists e :: e in group && Failed(e))
    && (r.success == None <==> forall e :: e in group ==> e.success == None)
    && (IsValidation(r.operation) <==> exists e :: e in group && IsValidation(e.operation))
  }

  // Ambiguous exactly when two observations carry different fingerprints; otherwise the only one.
  ghost predicate Fingerprinted(group: seq<Event>, r: Event) {
    && (r.ambiguous <==> exists e, f :: e in group && f in group && Clash(e.fingerprint, f.fingerprint))
    && (r.ambiguous ==> r.fingerprint == "")
    && (!r.ambiguous ==> forall e :: e in group && e.fingerprint != "" ==> e.fingerprint == r.fingerprint)
    && (r.fingerprint != "" ==> exists e :: e in group && e.fingerprint == r.fingerprint)
  }

  // The earliest start that was reported, and the latest end.
  ghost predicate Spans(group: seq<Event>, r: Event) {
    && (r.startedAt == 0 <==> forall e :: e in group ==> e.startedAt == 0)
    && (forall e :: e in group && e.startedAt != 0 ==> r.startedAt <= e.startedAt)
    && (exists e :: e in group && e.startedAt == r.startedAt)
    && (forall e :: e in group ==> e.endedAt <= r.endedAt && e.observedAt <= r.observedAt)
    && (exists e :: e in group && e.endedAt == r.endedAt)
    && (exists e :: e in group && e.observedAt == r.observedAt)
  }

  // What the observations identify is what the attempt identifies.
  ghost predicate Coherent(group: seq<Event>, r: Event) {
    forall e :: e in group ==>
      && (IsValidation(e.operation) ==> r.operation == e.operation)
      && (e.target.command != "" ==> r.target.command == e.target.command)
      && (e.agentId != "" ==> r.agentId == e.agentId)
  }

  // And the attempt identifies nothing else. Its directory is the first one named.
  ghost predicate Sourced(group: seq<Event>, r: Event) {
    && (r.target.command != "" ==> exists e :: e in group && e.target.command == r.target.command)
    && (r.agentId != "" ==> exists e :: e in group && e.agentId == r.agentId)
    && (r.target.workingDirectory == "" ==> forall e :: e in group ==> e.target.workingDirectory == "")
    && (r.target.workingDirectory != "" ==> exists k :: FirstNamed(group, r.target.workingDirectory, k))
  }

  ghost predicate FirstNamed(group: seq<Event>, directory: string, k: nat) {
    k < |group| && group[k].target.workingDirectory == directory && forall j :: 0 <= j < k ==> group[j].target.workingDirectory == ""
  }

  ghost predicate Summary(group: seq<Event>, r: Event) {
    Agrees(group, r) && Fingerprinted(group, r) && Spans(group, r) && Coherent(group, r) && Sourced(group, r)
  }

  // Two observations of one attempt that cannot both be right.
  predicate Differ(x: Event, e: Event) {
    || (IsValidation(x.operation) && IsValidation(e.operation) && x.operation != e.operation)
    || (x.target.command != "" && e.target.command != "" && x.target.command != e.target.command)
    || (x.agentId != "" && e.agentId != "" && x.agentId != e.agentId)
  }

  // An observation is rejected exactly when it differs from one that was merged: in the kind of validation, the command
  // or the agent.
  lemma ConflictExactly(group: seq<Event>, r: Event, e: Event)
    requires Summary(group, r)
    ensures Conflict(r, e) <==> exists x :: x in group && Differ(x, e)
  {
    if Conflict(r, e) {
      if IsValidation(r.operation) && IsValidation(e.operation) && r.operation != e.operation {
        var x :| x in group && IsValidation(x.operation);
        assert Differ(x, e);
      } else if Clash(r.target.command, e.target.command) {
        var x :| x in group && x.target.command == r.target.command;
        assert Differ(x, e);
      } else {
        var x :| x in group && x.agentId == r.agentId;
        assert Differ(x, e);
      }
    }
  }

  lemma SummaryOfOne(e: Event, r: Event)
    requires !e.ambiguous && r == e.(attemptId := r.attemptId)
    ensures Summary([e], r)
  {
    assert e in [e];
    assert FirstNamed([e], e.target.workingDirectory, 0);
  }

  lemma MergeSources(group: seq<Event>, r: Event, e: Event)
    requires Sourced(group, r)
    ensures Sourced(group + [e], Merge(r, e))
  {
    var more, m := group + [e], Merge(r, e);
    assert forall x :: x in more <==> x in group || x == e;
    if r.target.workingDirectory != "" {
      var k :| FirstNamed(group, r.target.workingDirectory, k);
      assert FirstNamed(more, m.target.workingDirectory, k);
    } else if m.target.workingDirectory != "" {
      assert forall j :: 0 <= j < |group| ==> group[j] in group;
      assert FirstNamed(more, m.target.workingDirectory, |group|);
    }
  }

  lemma MergeAgrees(group: seq<Event>, r: Event, e: Event)
    requires Agrees(group, r)
    ensures Agrees(group + [e], Merge(r, e))
  {
    assert forall x :: x in group + [e] <==> x in group || x == e;
  }

  lemma MergeFingerprints(group: seq<Event>, r: Event, e: Event)
    requires Fingerprinted(group, r)
    ensures Fingerprinted(group + [e], Merge(r, e))
  {
    assert forall x :: x in group + [e] <==> x in group || x == e;
    assert forall x, y :: Clash(x, y) <==> Clash(y, x);
  }

  lemma MergeSpans(group: seq<Event>, r: Event, e: Event)
    requires Spans(group, r)
    ensures Spans(group + [e], Merge(r, e))
  {
    assert forall x :: x in group + [e] <==> x in group || x == e;
  }

  lemma MergeCoheres(group: seq<Event>, r: Event, e: Event)
    requires Coherent(group, r) && !Conflict(r, e)
    ensures Coherent(group + [e], Merge(r, e))
  {
  }

  // An observation that conflicts goes on conflicting with whatever is merged later.
  lemma ConflictStays(r: Event, merged: Event, e: Event)
    requires Conflict(r, e) && !Conflict(r, merged)
    ensures Conflict(Merge(r, merged), e)
  {
  }

  // The verdict of an attempt depends on which observations were merged, not on their order.
  lemma MergeOrderIsFree(group: seq<Event>, group': seq<Event>, r: Event, r': Event)
    requires Summary(group, r) && Summary(group', r')
    requires forall e :: e in group <==> e in group'
    ensures r.success == r'.success && r.ambiguous == r'.ambiguous && r.fingerprint == r'.fingerprint
    ensures r.startedAt == r'.startedAt && r.endedAt == r'.endedAt && r.observedAt == r'.observedAt
    ensures IsValidation(r.operation) <==> IsValidation(r'.operation)
  {
    SameVerdict(group, group', r, r');
    SameSpan(group, group', r, r');
    SameFingerprint(group, group', r, r');
  }

  lemma SameVerdict(group: seq<Event>, group': seq<Event>, r: Event, r': Event)
    requires Agrees(group, r) && Agrees(group', r') && forall e :: e in group <==> e in group'
    ensures r.success == r'.success && (IsValidation(r.operation) <==> IsValidation(r'.operation))
  {
    assert Failed(r) <==> Failed(r');
    assert r.success == None <==> r'.success == None;
    if r.success.Some? && r'.success.Some? {
      assert r.success.value == r'.success.value;
    }
  }

  lemma SameSpan(group: seq<Event>, group': seq<Event>, r: Event, r': Event)
    requires Spans(group, r) && Spans(group', r') && forall e :: e in group <==> e in group'
    ensures r.startedAt == r'.startedAt && r.endedAt == r'.endedAt && r.observedAt == r'.observedAt
  {
  }

  lemma SameFingerprint(group: seq<Event>, group': seq<Event>, r: Event, r': Event)
    requires Fingerprinted(group, r) && Fingerprinted(group', r') && forall e :: e in group <==> e in group'
    ensures r.ambiguous == r'.ambiguous && r.fingerprint == r'.fingerprint
  {
  }

  // ---------- the pass over the events ----------

  predicate Relevant(e: Event) {
    e.attemptId != "" || IsValidation(e.operation)
  }

  function RelevantOf(events: seq<Event>): multiset<Event> {
    if events == [] then multiset{}
    else RelevantOf(events[..|events| - 1]) +
         (if Relevant(events[|events| - 1]) then multiset{events[|events| - 1]} else multiset{})
  }

  function Members(groups: seq<seq<Event>>): multiset<Event> {
    if groups == [] then multiset{} else Members(groups[..|groups| - 1]) + multiset(groups[|groups| - 1])
  }

  function Uncorrelated(observations: seq<Event>): nat {
    if observations == [] then 0
    else Uncorrelated(observations[..|observations| - 1]) + if observations[|observations| - 1].attemptId == "" then 1 else 0
  }

  lemma {:induction false} MembersGrow(groups: seq<seq<Event>>, i: nat, e: Event)
    requires i < |groups|
    ensures Members(groups[i := groups[i] + [e]]) == Members(groups) + multiset{e}
  {
    var n := |groups| - 1;
    var groups' := groups[i := groups[i] + [e]];
    var front, last := Members(groups[..n]), multiset(groups[n]);
    if i < n {
      assert groups'[..n] == groups[..n][i := groups[i] + [e]];
      MembersGrow(groups[..n], i, e);
      assert Members(groups') == (front + multiset{e}) + last == (front + last) + multiset{e};
    } else {
      assert groups'[..n] == groups[..n];
      assert Members(groups') == front + (last + multiset{e}) == (front + last) + multiset{e};
    }
  }

  lemma MembersAppend(groups: seq<seq<Event>>, e: Event)
    ensures Members(groups + [[e]]) == Members(groups) + multiset{e}
  {
    assert (groups + [[e]])[..|groups|] == groups;
  }

  lemma {:induction false} UncorrelatedStays(observations: seq<Event>, i: nat, r: Event)
    requires i < |observations| && r.attemptId == observations[i].attemptId
    ensures Uncorrelated(observations[i := r]) == Uncorrelated(observations)
  {
    var n := |observations| - 1;
    if i < n {
      assert observations[i := r][..n] == observations[..n][i := r];
      UncorrelatedStays(observations[..n], i, r);
    } else {
      assert observations[i := r][..n] == observations[..n];
    }
  }

  lemma UncorrelatedAppend(observations: seq<Event>, r: Event)
    ensures Uncorrelated(observations + [r]) == Uncorrelated(observations) + if r.attemptId == "" then 1 else 0
  {
    assert (observations + [r])[..|observations|] == observations;
  }

  type Indexes = map<string, nat>

  // The index finds the one observation of each attempt.
  predicate Indexed(observations: seq<Event>, indexes: Indexes) {
    && (forall id :: id in indexes ==> id != "" && indexes[id] < |observations| && observations[indexes[id]].attemptId == id)
    && (forall o :: 0 <= o < |observations| && observations[o].attemptId != "" ==>
          observations[o].attemptId in indexes && indexes[observations[o].attemptId] == o)
  }

  // Each observation summarises the events of its group, and these belong together.
  ghost predicate Grouped(observations: seq<Event>, groups: seq<seq<Event>>) {
    && |groups| == |observations|
    && forall o :: 0 <= o < |groups| ==> GroupOf(groups[o], observations[o])
  }

  ghost predicate GroupOf(group: seq<Event>, r: Event) {
    && Summary(group, r)
    && (r.attemptId != "" ==> forall e :: e in group ==> e.attemptId == r.attemptId)
    && (r.attemptId == "" ==> |group| == 1 && IsValidation(r.operation))
  }

  ghost predicate Counted(indexes: Indexes, groups: seq<seq<Event>>, counts: map<string, int>) {
    && counts.Keys == indexes.Keys
    && forall id :: id in indexes ==> indexes[id] < |groups| && counts[id] == |groups[indexes[id]]|
  }

  lemma GroupGrows(group: seq<Event>, r: Event, e: Event)
    requires GroupOf(group, r) && r.attemptId != "" && e.attemptId == r.attemptId && !Conflict(r, e)
    ensures GroupOf(group + [e], Merge(r, e))
  {
    MergeAgrees(group, r, e);
    MergeFingerprints(group, r, e);
    MergeSpans(group, r, e);
    MergeCoheres(group, r, e);
    MergeSources(group, r, e);
  }

  // Every relevant event is in one group, or was dropped because it conflicts and validates nothing.
  ghost predicate Conserved(events: seq<Event>, groups: seq<seq<Event>>, dropped: seq<Event>) {
    && RelevantOf(events) == Members(groups) + multiset(dropped)
    && forall e :: e in dropped ==> !IsValidation(e.operation)
  }

  datatype Projection = Projection(attempts: seq<Event>, idBacked: int, merged: int, uncorrelated: int,
                                   conflicting: int, ambiguous: int)

  function ValidationOnly(observations: seq<Event>): (r: seq<Event>)
    ensures forall e :: e in r <==> e in observations && IsValidation(e.operation)
  {
    if observations == [] then []
    else
      var last := observations[|observations| - 1];
      ValidationOnly(observations[..|observations| - 1]) + if IsValidation(last.operation) then [last] else []
  }

  function IdBacked(attempts: seq<Event>): nat {
    if attempts == [] then 0
    else IdBacked(attempts[..|attempts| - 1]) + if attempts[|attempts| - 1].attemptId != "" then 1 else 0
  }

  function Ambiguous(attempts: seq<Event>): nat {
    if attempts == [] then 0
    else Ambiguous(attempts[..|attempts| - 1]) + if attempts[|attempts| - 1].ambiguous then 1 else 0
  }

  // The validation attempts that came from several observations.
  function MergedCount(observations: seq<Event>, groups: seq<seq<Event>>): nat
    requires |groups| == |observations|
  {
    if observations == [] then 0
    else
      var n := |observations| - 1;
      MergedCount(observations[..n], groups[..n]) +
      if IsValidation(observations[n].operation) && observations[n].attemptId != "" && |groups[n]| > 1 then 1 else 0
  }

  // The state of the pass: what has been observed of the events so far.
  datatype Pass = Pass(observations: seq<Event>, indexes: Indexes, counts: map<string, int>,
                       uncorrelated: int, conflicting: int)

  ghost predicate Kept(pass: Pass, groups: seq<seq<Event>>) {
    && |groups| == |pass.observations|
    && Indexed(pass.observations, pass.indexes)
    && Counted(pass.indexes, groups, pass.counts)
    && pass.uncorrelated == Uncorrelated(pass.observations)
  }

  function Apart(pass: Pass, event: Event): Pass {
    pass.(observations := pass.observations + [event.(attemptId := "")], uncorrelated := pass.uncorrelated + 1)
  }

  function Opened(pass: Pass, event: Event): Pass {
    pass.(observations := pass.observations + [event],
          indexes := pass.indexes[event.attemptId := |pass.observations|],
          counts := pass.counts[event.attemptId := 1])
  }

  function Joined(pass: Pass, event: Event): Pass
    requires event.attemptId in pass.indexes && pass.indexes[event.attemptId] < |pass.observations|
    requires event.attemptId in pass.counts
  {
    var o := pass.indexes[event.attemptId];
    pass.(observations := pass.observations[o := Merge(pass.observations[o], event)],
          counts := pass.counts[event.attemptId := pass.counts[event.attemptId] + 1])
  }

  // The attempt the index finds for an event conflicts with it.
  ghost predicate Rejected(pass: Pass, e: Event) {
    && e.attemptId in pass.indexes && pass.indexes[e.attemptId] < |pass.observations|
    && Conflict(pass.observations[pass.indexes[e.attemptId]], e)
  }

  // Whatever carries an attempt id and was not merged with its attempt conflicts with it.
  ghost predicate Rejections(pass: Pass, groups: seq<seq<Event>>, dropped: seq<Event>) {
    && (forall e :: e in dropped ==> Rejected(pass, e))
    && (forall o :: 0 <= o < |groups| && o < |pass.observations| ==>
          forall e :: e in groups[o] && e.attemptId != pass.observations[o].attemptId ==> Rejected(pass, e))
  }

  lemma RejectedApart(pass: Pass, event: Event, e: Event)
    requires Rejected(pass, e)
    ensures Rejected(Apart(pass, event), e)
  {
  }

  lemma RejectionsApart(pass: Pass, groups: seq<seq<Event>>, dropped: seq<Event>, event: Event)
    requires Kept(pass, groups) && Rejections(pass, groups, dropped)
    requires event.attemptId != "" ==> Rejected(pass, event)
    ensures Rejections(Apart(pass, event), groups + [[event]], dropped)
  {
    forall e | Rejected(pass, e) ensures Rejected(Apart(pass, event), e) {
      RejectedApart(pass, event, e);
    }
  }

  lemma RejectedOpened(pass: Pass, event: Event, e: Event)
    requires Rejected(pass, e) && event.attemptId !in pass.indexes
    ensures Rejected(Opened(pass, event), e)
  {
  }

  lemma RejectionsOpened(pass: Pass, groups: seq<seq<Event>>, dropped: seq<Event>, event: Event)
    requires Kept(pass, groups) && Rejections(pass, groups, dropped) && event.attemptId !in pass.indexes
    ensures Rejections(Opened(pass, event), groups + [[event]], dropped)
  {
    forall e | Rejected(pass, e) ensures Rejected(Opened(pass, event), e) {
      RejectedOpened(pass, event, e);
    }
  }

  lemma RejectedJoined(pass: Pass, groups: seq<seq<Event>>, event: Event, e: Event)
    requires Kept(pass, groups) && Rejected(pass, e) && event.attemptId in pass.indexes
    requires !Conflict(pass.observations[pass.indexes[event.attemptId]], event)
    ensures Rejected(Joined(pass, event), e)
  {
    if e.attemptId == event.attemptId {
      ConflictStays(pass.observations[pass.indexes[event.attemptId]], event, e);
    }
  }

  lemma RejectionsJoined(pass: Pass, groups: seq<seq<Event>>, dropped: seq<Event>, event: Event)
    requires Kept(pass, groups) && Rejections(pass, groups, dropped) && event.attemptId in pass.indexes
    requires !Conflict(pass.observations[pass.indexes[event.attemptId]], event)
    ensures var o := pass.indexes[event.attemptId];
            Rejections(Joined(pass, event), groups[o := groups[o] + [event]], dropped)
  {
    var o := pass.indexes[event.attemptId];
    var groups' := groups[o := groups[o] + [event]];
    forall e | e in dropped ensures Rejected(Joined(pass, event), e) {
      RejectedJoined(pass, groups, event, e);
    }
    forall k: nat, e: Event | k < |groups'| && k < |pass.observations| && e in groups'[k] && e.attemptId != Joined(pass, event).observations[k].attemptId
      ensures Rejected(Joined(pass, event), e)
    {
      assert e in groups[k];
      RejectedJoined(pass, groups, event, e);
    }
  }

  // The groups set apart from the attempt their event names.
  function Detached(observations: seq<Event>, groups: seq<seq<Event>>): nat
    requires |groups| == |observations|
  {
    if observations == [] then 0
    else
      var n := |observations| - 1;
      Detached(observations[..n], groups[..n]) + if Named(groups[n]) && observations[n].attemptId == "" then 1 else 0
  }

  predicate Named(group: seq<Event>) {
    group != [] && group[0].attemptId != ""
  }

  lemma DetachedAppend(observations: seq<Event>, groups: seq<seq<Event>>, r: Event, group: seq<Event>)
    requires |groups| == |observations|
    ensures Detached(observations + [r], groups + [group])
         == Detached(observations, groups) + if Named(group) && r.attemptId == "" then 1 else 0
  {
    assert (observations + [r])[..|observations|] == observations && (groups + [group])[..|groups|] == groups;
  }

  lemma {:induction false} DetachedUpdate(observations: seq<Event>, groups: seq<seq<Event>>, o: nat, r: Event, group: seq<Event>)
    requires |groups| == |observations| && o < |groups|
    requires r.attemptId == observations[o].attemptId != ""
    ensures Detached(observations[o := r], groups[o := group]) == Detached(observations, groups)
  {
    var n := |observations| - 1;
    if o < n {
      assert observations[o := r][..n] == observations[..n][o := r];
      assert groups[o := group][..n] == groups[..n][o := group];
      DetachedUpdate(observations[..n], groups[..n], o, r, group);
    } else {
      assert observations[o := r][..n] == observations[..n] && groups[o := group][..n] == groups[..n];
    }
  }

  // Every conflict was counted.
  predicate Tallied(pass: Pass, groups: seq<seq<Event>>, dropped: seq<Event>) {
    |groups| == |pass.observations| && pass.conflicting == |dropped| + Detached(pass.observations, groups)
  }

  function Noted(pass: Pass, event: Event): Pass {
    if event.attemptId != "" then pass.(conflicting := pass.conflicting + 1) else pass
  }

  lemma RelevantLast(events: seq<Event>, event: Event)
    ensures RelevantOf(events + [event]) == RelevantOf(events) + if Relevant(event) then multiset{event} else multiset{}
  {
    assert (events + [event])[..|events|] == events;
  }

  lemma ConservesNewGroup(events: seq<Event>, groups: seq<seq<Event>>, dropped: seq<Event>, event: Event)
    requires Conserved(events, groups, dropped) && Relevant(event)
    ensures Conserved(events + [event], groups + [[event]], dropped)
  {
    RelevantLast(events, event);
    MembersAppend(groups, event);
  }

  lemma ConservesMember(events: seq<Event>, groups: seq<seq<Event>>, dropped: seq<Event>, event: Event, o: nat)
    requires Conserved(events, groups, dropped) && Relevant(event) && o < |groups|
    ensures Conserved(events + [event], groups[o := groups[o] + [event]], dropped)
  {
    RelevantLast(events, event);
    MembersGrow(groups, o, event);
  }

  lemma ConservesSkipped(events: seq<Event>, groups: seq<seq<Event>>, dropped: seq<Event>, event: Event)
    requires Conserved(events, groups, dropped) && !IsValidation(event.operation)
    ensures Conserved(events + [event], groups, if Relevant(event) then dropped + [event] else dropped)
  {
    RelevantLast(events, event);
    assert multiset(dropped + [event]) == multiset(dropped) + multiset{event};
  }

  lemma GroupsNew(observations: seq<Event>, groups: seq<seq<Event>>, event: Event, r: Event)
    requires Grouped(observations, groups) && !event.ambiguous
    requires r == event || (r == event.(attemptId := "") && IsValidation(event.operation))
    requires r.attemptId == "" ==> IsValidation(event.operation)
    ensures Grouped(observations + [r], groups + [[event]])
  {
    SummaryOfOne(event, r);
  }

  lemma GroupsMember(observations: seq<Event>, groups: seq<seq<Event>>, event: Event, o: nat)
    requires Grouped(observations, groups) && o < |groups|
    requires observations[o].attemptId == event.attemptId != "" && !Conflict(observations[o], event)
    ensures Grouped(observations[o := Merge(observations[o], event)], groups[o := groups[o] + [event]])
  {
    GroupGrows(groups[o], observations[o], event);
  }

  // An observation without an attempt id starts a group of its own.
  lemma ApartKeeps(pass: Pass, groups: seq<seq<Event>>, event: Event)
    requires Kept(pass, groups)
    ensures Kept(Apart(pass, event), groups + [[event]])
  {
    UncorrelatedAppend(pass.observations, event.(attemptId := ""));
  }

  lemma OpenedKeeps(pass: Pass, groups: seq<seq<Event>>, event: Event)
    requires Kept(pass, groups) && event.attemptId != "" && event.attemptId !in pass.indexes
    ensures Kept(Opened(pass, event), groups + [[event]])
  {
    UncorrelatedAppend(pass.observations, event);
  }

  lemma JoinedKeeps(pass: Pass, groups: seq<seq<Event>>, event: Event)
    requires Kept(pass, groups) && event.attemptId in pass.indexes
    ensures var o := pass.indexes[event.attemptId];
            Kept(Joined(pass, event), groups[o := groups[o] + [event]])
  {
    var o := pass.indexes[event.attemptId];
    UncorrelatedStays(pass.observations, o, Merge(pass.observations[o], event));
  }

  ghost predicate Observed(events: seq<Event>, pass: Pass, groups: seq<seq<Event>>, dropped: seq<Event>) {
    && Kept(pass, groups)
    && Grouped(pass.observations, groups)
    && Conserved(events, groups, dropped)
    && Rejections(pass, groups, dropped)
    && Tallied(pass, groups, dropped)
  }

  lemma ObservedOpened(events: seq<Event>, pass: Pass, groups: seq<seq<Event>>, dropped: seq<Event>, event: Event)
    requires Observed(events, pass, groups, dropped) && !event.ambiguous
    requires event.attemptId != "" && event.attemptId !in pass.indexes
    ensures Observed(events + [event], Opened(pass, event), groups + [[event]], dropped)
  {
    OpenedKeeps(pass, groups, event);
    DetachedAppend(pass.observations, groups, event, [event]);
    RejectionsOpened(pass, groups, dropped, event);
    GroupsNew(pass.observations, groups, event, event);
    ConservesNewGroup(events, groups, dropped, event);
  }

  lemma ObservedJoined(events: seq<Event>, pass: Pass, groups: seq<seq<Event>>, dropped: seq<Event>, event: Event)
    requires Observed(events, pass, groups, dropped) && event.attemptId in pass.indexes
    requires !Conflict(pass.observations[pass.indexes[event.attemptId]], event)
    ensures var o := pass.indexes[event.attemptId];
            Observed(events + [event], Joined(pass, event), groups[o := groups[o] + [event]], dropped)
  {
    var o := pass.indexes[event.attemptId];
    JoinedKeeps(pass, groups, event);
    DetachedUpdate(pass.observations, groups, o, Merge(pass.observations[o], event), groups[o] + [event]);
    RejectionsJoined(pass, groups, dropped, event);
    GroupsMember(pass.observations, groups, event, o);
    ConservesMember(events, groups, dropped, event, o);
  }

  lemma NotedKeeps(pass: Pass, groups: seq<seq<Event>>, dropped: seq<Event>, event: Event)
    requires Kept(pass, groups) && Rejections(pass, groups, dropped) && (event.attemptId != "" ==> Rejected(pass, event))
    ensures Kept(Noted(pass, event), groups) && Rejections(Noted(pass, event), groups, dropped)
    ensures event.attemptId != "" ==> Rejected(Noted(pass, event), event)
  {
    forall e | Rejected(pass, e) ensures Rejected(Noted(pass, event), e) {
    }
  }

  lemma ApartHolds(pass: Pass, groups: seq<seq<Event>>, dropped: seq<Event>, event: Event)
    requires Kept(pass, groups) && Rejections(pass, groups, dropped)
    requires event.attemptId != "" ==> Rejected(pass, event)
    ensures Kept(Apart(Noted(pass, event), event), groups + [[event]])
    ensures Rejections(Apart(Noted(pass, event), event), groups + [[event]], dropped)
  {
    NotedKeeps(pass, groups, dropped, event);
    ApartKeeps(Noted(pass, event), groups, event);
    RejectionsApart(Noted(pass, event), groups, dropped, event);
  }

  lemma ApartTallies(pass: Pass, groups: seq<seq<Event>>, dropped: seq<Event>, event: Event)
    requires |groups| == |pass.observations| && Tallied(pass, groups, dropped) && IsValidation(event.operation)
    ensures Tallied(Apart(Noted(pass, event), event), groups + [[event]], dropped)
  {
    DetachedAppend(pass.observations, groups, event.(attemptId := ""), [event]);
  }

  lemma ObservedApart(events: seq<Event>, pass: Pass, groups: seq<seq<Event>>, dropped: seq<Event>, event: Event)
    requires Observed(events, pass, groups, dropped) && !event.ambiguous && IsValidation(event.operation)
    requires event.attemptId != "" ==> Rejected(pass, event)
    ensures Observed(events + [event], Apart(Noted(pass, event), event), groups + [[event]], dropped)
  {
    ApartHolds(pass, groups, dropped, event);
    ApartTallies(pass, groups, dropped, event);
    GroupsNew(pass.observations, groups, event, event.(attemptId := ""));
    ConservesNewGroup(events, groups, dropped, event);
  }

  lemma ObservedSkipped(events: seq<Event>, pass: Pass, groups: seq<seq<Event>>, dropped: seq<Event>, event: Event)
    requires Observed(events, pass, groups, dropped) && !IsValidation(event.operation)
    requires event.attemptId != "" ==> Rejected(pass, event)
    ensures Observed(events + [event], Noted(pass, event), groups, if Relevant(event) then dropped + [event] else dropped)
  {
    ConservesSkipped(events, groups, dropped, event);
    if event.attemptId != "" {
      NotedKeeps(pass, groups, dropped, event);
      RejectionsDropped(Noted(pass, event), groups, dropped, event);
    }
  }

  lemma RejectionsDropped(pass: Pass, groups: seq<seq<Event>>, dropped: seq<Event>, event: Event)
    requires Rejections(pass, groups, dropped) && Rejected(pass, event)
    ensures Rejections(pass, groups, dropped + [event])
  {
  }

  lemma TakeNext(events: seq<Event>, n: nat)
    requires n < |events|
    ensures events[n] in events && events[..n + 1] == events[..n] + [events[n]]
  {
  }

  // projectValidationAttempts, first loop
  method Observe(events: seq<Event>) returns (pass: Pass, ghost groups: seq<seq<Event>>, ghost dropped: seq<Event>)
    requires forall e :: e in events ==> !e.ambiguous
    ensures Observed(events, pass, groups, dropped)
  {
    pass := Pass([], map[], map[], 0, 0);
    groups, dropped := [], [];
    for n := 0 to |events|
      invariant Observed(events[..n], pass, groups, dropped)
    {
      var event := events[n];
      TakeNext(events, n);
      if event.attemptId !in pass.indexes && event.attemptId != "" {
        ObservedOpened(events[..n], pass, groups, dropped, event);
        pass, groups := Opened(pass, event), groups + [[event]];
        continue;
      }
      if event.attemptId != "" {
        var o := pass.indexes[event.attemptId];
        if !Conflict(pass.observations[o], event) {
          ObservedJoined(events[..n], pass, groups, dropped, event);
          pass, groups := Joined(pass, event), groups[o := groups[o] + [event]];
          continue;
        }
      }
      if IsValidation(event.operation) {
        ObservedApart(events[..n], pass, groups, dropped, event);
        pass, groups := Apart(Noted(pass, event), event), groups + [[event]];
      } else {
        ObservedSkipped(events[..n], pass, groups, dropped, event);
        pass := Noted(pass, event);
        dropped := if Relevant(event) then dropped + [event] else dropped;
      }
    }
    assert events[..|events|] == events;
  }

  // What the projection counts, given the observations and the events each was merged from.
  ghost predicate Projects(p: Projection, observations: seq<Event>, groups: seq<seq<Event>>)
    requires |groups| == |observations|
  {
    && p.attempts == ValidationOnly(observations)
    && p.idBacked == IdBacked(p.attempts)
    && p.ambiguous == Ambiguous(p.attempts)
    && p.merged == MergedCount(observations, groups)
  }

  lemma Appended(s: seq<Event>, e: Event)
    ensures IdBacked(s + [e]) == IdBacked(s) + if e.attemptId != "" then 1 else 0
    ensures Ambiguous(s + [e]) == Ambiguous(s) + if e.ambiguous then 1 else 0
  {
    assert (s + [e])[..|s|] == s;
  }

  lemma NextObservation(observations: seq<Event>, groups: seq<seq<Event>>, n: nat)
    requires n < |observations| == |groups|
    ensures ValidationOnly(observations[..n + 1])
         == if IsValidation(observations[n].operation) then ValidationOnly(observations[..n]) + [observations[n]]
            else ValidationOnly(observations[..n])
    ensures MergedCount(observations[..n + 1], groups[..n + 1]) == MergedCount(observations[..n], groups[..n]) +
            if IsValidation(observations[n].operation) && observations[n].attemptId != "" && |groups[n]| > 1 then 1 else 0
  {
    assert observations[..n + 1][..n] == observations[..n] && groups[..n + 1][..n] == groups[..n];
  }

  // What the second loop does with one observation.
  function Counting(p: Projection, observation: Event, merged: bool): Projection {
    if !IsValidation(observation.operation) then p
    else p.(attempts := p.attempts + [observation],
            ambiguous := p.ambiguous + (if observation.ambiguous then 1 else 0),
            idBacked := p.idBacked + (if observation.attemptId != "" then 1 else 0),
            merged := p.merged + (if observation.attemptId != "" && merged then 1 else 0))
  }

  lemma CountingProjects(p: Projection, observations: seq<Event>, groups: seq<seq<Event>>, n: nat)
    requires n < |observations| == |groups| && Projects(p, observations[..n], groups[..n])
    ensures Projects(Counting(p, observations[n], |groups[n]| > 1), observations[..n + 1], groups[..n + 1])
  {
    NextObservation(observations, groups, n);
    if IsValidation(observations[n].operation) {
      Appended(p.attempts, observations[n]);
    }
  }

  // projectValidationAttempts, second loop
  method Project(pass: Pass, ghost groups: seq<seq<Event>>) returns (p: Projection)
    requires |groups| == |pass.observations| && Indexed(pass.observations, pass.indexes)
    requires Counted(pass.indexes, groups, pass.counts)
    ensures Projects(p, pass.observations, groups)
    ensures p.uncorrelated == pass.uncorrelated && p.conflicting == pass.conflicting
  {
    p := Projection([], 0, 0, pass.uncorrelated, pass.conflicting, 0);
    for n := 0 to |pass.observations|
      invariant Projects(p, pass.observations[..n], groups[..n])
      invariant p.uncorrelated == pass.uncorrelated && p.conflicting == pass.conflicting
    {
      var observation := pass.observations[n];
      CountingProjects(p, pass.observations, groups, n);
      p := Counting(p, observation, observation.attemptId != "" && pass.counts[observation.attemptId] > 1);
    }
    assert pass.observations[..|pass.observations|] == pass.observations && groups[..|groups|] == groups;
  }

  // ---------- what holds of every projection ----------

  lemma {:induction false} KeptOrUncorrelated(observations: seq<Event>)
    requires forall o :: 0 <= o < |observations| && observations[o].attemptId == "" ==> IsValidation(observations[o].operation)
    ensures |ValidationOnly(observations)| == IdBacked(ValidationOnly(observations)) + Uncorrelated(observations)
  {
    if observations != [] {
      var front, last := observations[..|observations| - 1], observations[|observations| - 1];
      KeptOrUncorrelated(front);
      if IsValidation(last.operation) {
        Appended(ValidationOnly(front), last);
      } else {
        assert ValidationOnly(observations) == ValidationOnly(front);
      }
    }
  }

  ghost predicate DistinctIds(attempts: seq<Event>) {
    forall a, b :: 0 <= a < b < |attempts| && attempts[a].attemptId != "" ==> attempts[a].attemptId != attempts[b].attemptId
  }

  lemma {:induction false} FilterKeepsIds(observations: seq<Event>)
    requires DistinctIds(observations)
    ensures DistinctIds(ValidationOnly(observations))
  {
    if observations != [] {
      var n := |observations| - 1;
      FilterKeepsIds(observations[..n]);
      assert forall e :: e in ValidationOnly(observations[..n]) ==> e in observations[..n];
    }
  }

  // Another observation of the same attempt contradicts this one.
  ghost predicate ClashesWith(observations: seq<Event>, e: Event) {
    exists a :: a in observations && a.attemptId == e.attemptId && Conflict(a, e)
  }

  /** projectValidationAttempts. No observation of a validation is lost or used twice: each one is in the
      group of exactly one attempt, and every attempt is the summary of its group. What carries an attempt
      id and is not in that attempt's group conflicts with the attempt. */
  method ProjectValidationAttempts(events: seq<Event>)
    returns (p: Projection, ghost observations: seq<Event>, ghost groups: seq<seq<Event>>, ghost dropped: seq<Event>)
    requires forall e :: e in events ==> !e.ambiguous
    ensures Grouped(observations, groups) && Conserved(events, groups, dropped)
    ensures forall e :: e in dropped ==> ClashesWith(observations, e)
    ensures forall o, e :: 0 <= o < |groups| && e in groups[o] && e.attemptId != observations[o].attemptId ==>
              ClashesWith(observations, e)
    ensures Projects(p, observations, groups)
    ensures |p.attempts| == p.idBacked + p.uncorrelated
    ensures p.conflicting == |dropped| + Detached(observations, groups)
    ensures DistinctIds(p.attempts)
  {
    var pass;
    pass, groups, dropped := Observe(events);
    observations := pass.observations;
    forall e | Rejected(pass, e) ensures ClashesWith(observations, e) {
      assert pass.observations[pass.indexes[e.attemptId]] in observations;
    }
    p := Project(pass, groups);
    assert forall o :: 0 <= o < |observations| ==> GroupOf(groups[o], observations[o]);
    KeptOrUncorrelated(observations);
    FilterKeepsIds(observations);
  }
}
