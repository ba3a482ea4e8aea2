/** The counting part of the rework report, and the comparison rows computed from it. */
module ReworkReport {
  import opened Effort
  import opened ReworkEvents
  import opened ReworkCycles
  import opened ReworkEffort
  import opened ValidationAttempts
  import opened FailureEpisodes

  datatype Report = Report(
    toolAttempts: int, toolFailures: int,
    attemptsWithOutcome: int, validationFailures: int,
    firstPassEligible: int, firstPassSuccesses: int,
    recurring: int, repeatedFailures: int, resolved: int, unresolved: int,
    cycles: seq<Cycle>, reworkDuration: int, totalEffort: int)

  // ---------- tools ----------

  function ToolAttempts(events: seq<Event>): set<nat> {
    set k: nat | k < |events| && events[k].tool && events[k].success.Some?
  }

  function ToolFailures(events: seq<Event>): set<nat> {
    set k: nat | k < |events| && events[k].tool && Failed(events[k])
  }

  lemma ToolsNext(events: seq<Event>, k: nat)
    requires k < |events|
    ensures ToolAttempts(events[..k + 1]) == ToolAttempts(events[..k]) + if events[k].tool && events[k].success.Some? then {k} else {}
    ensures ToolFailures(events[..k + 1]) == ToolFailures(events[..k]) + if events[k].tool && Failed(events[k]) then {k} else {}
    ensures k !in ToolAttempts(events[..k]) && k !in ToolFailures(events[..k])
  {}

  method CountTools(events: seq<Event>) returns (attempts: int, failures: int)
    ensures attempts == |ToolAttempts(events)| && failures == |ToolFailures(events)|
    ensures 0 <= failures <= attempts
  {
    attempts, failures := 0, 0;
    for k := 0 to |events|
      invariant attempts == |ToolAttempts(events[..k])| && failures == |ToolFailures(events[..k])|
      invariant 0 <= failures <= attempts
    {
      ToolsNext(events, k);
      if events[k].tool && events[k].success.Some? {
        attempts := attempts + 1;
        if !events[k].success.value {
          failures := failures + 1;
        }
      }
    }
    assert events[..|events|] == events;
  }

  // ---------- first passes ----------

  // The attempt at k is the first one of its identity with an id and an outcome.
  ghost predicate FirstTry(attempts: seq<Event>, id: Identity, k: nat) {
    k < |attempts| && Tried(attempts[k], id) && forall j :: 0 <= j < k ==> !Tried(attempts[j], id)
  }

  // first maps every identity that was tried to the outcome of its first try.
  ghost predicate FirstOutcomes(attempts: seq<Event>, first: map<Identity, bool>) {
    && (forall id, k: nat :: FirstTry(attempts, id, k) ==> id in first && first[id] == !Failed(attempts[k]))
    && (forall id :: id in first ==> exists k: nat :: FirstTry(attempts, id, k))
  }

  function SuccessesOf(first: map<Identity, bool>): set<Identity> {
    set id | id in first && first[id]
  }

  function Outcomes(attempts: seq<Event>): set<nat> {
    set k: nat | k < |attempts| && attempts[k].success.Some?
  }

  function Failures(attempts: seq<Event>): set<nat> {
    set k: nat | k < |attempts| && Failed(attempts[k])
  }

  lemma FirstOutcomesNext(attempts: seq<Event>, first: map<Identity, bool>, e: Event, first': map<Identity, bool>)
    requires FirstOutcomes(attempts, first)
    requires first' == if e.attemptId != "" && e.success.Some? && IdentityOf(e).Some? && IdentityOf(e).value !in first
                       then first[IdentityOf(e).value := e.success.value] else first
    ensures FirstOutcomes(attempts + [e], first')
  {
    var all := attempts + [e];
    forall id | id in first' ensures exists k: nat :: FirstTry(all, id, k) {
      if id in first {
        var k: nat :| FirstTry(attempts, id, k);
        assert FirstTry(all, id, k);
      } else {
        NotTried(attempts, first, id);
        assert FirstTry(all, id, |attempts|);
      }
    }
    forall id, k: nat | FirstTry(all, id, k) ensures id in first' && first'[id] == !Failed(all[k]) {
      if k < |attempts| {
        Narrowed(attempts, e, id, k);
      } else {
        NotFirst(attempts, first, e, id);
      }
    }
  }

  // An identity that was tried before is not first tried at the end.
  lemma NotFirst(attempts: seq<Event>, first: map<Identity, bool>, e: Event, id: Identity)
    requires FirstOutcomes(attempts, first) && FirstTry(attempts + [e], id, |attempts|)
    ensures id !in first
  {
    forall j: nat | j < |attempts| ensures !FirstTry(attempts, id, j) {
      assert (attempts + [e])[j] == attempts[j];
    }
  }

  lemma Narrowed(attempts: seq<Event>, e: Event, id: Identity, k: nat)
    requires k < |attempts| && FirstTry(attempts + [e], id, k)
    ensures FirstTry(attempts, id, k)
  {
    forall j: nat | j < k ensures !Tried(attempts[j], id) {
      assert (attempts + [e])[j] == attempts[j];
    }
  }

  lemma NotTried(attempts: seq<Event>, first: map<Identity, bool>, id: Identity)
    requires FirstOutcomes(attempts, first) && id !in first
    ensures forall j :: 0 <= j < |attempts| ==> !Tried(attempts[j], id)
  {
    forall j: nat | j < |attempts| ensures !Tried(attempts[j], id) {
      if Tried(attempts[j], id) {
        var k := Earliest(attempts, id, j);
      }
    }
  }

  lemma {:induction false} Earliest(attempts: seq<Event>, id: Identity, j: nat) returns (k: nat)
    requires j < |attempts| && Tried(attempts[j], id)
    ensures FirstTry(attempts, id, k)
    decreases j
  {
    if i: nat :| i < j && Tried(attempts[i], id) {
      k := Earliest(attempts, id, i);
    } else {
      k := j;
    }
  }

  lemma OutcomesNext(attempts: seq<Event>, k: nat)
    requires k < |attempts|
    ensures Outcomes(attempts[..k + 1]) == Outcomes(attempts[..k]) + if attempts[k].success.Some? then {k} else {}
    ensures Failures(attempts[..k + 1]) == Failures(attempts[..k]) + if Failed(attempts[k]) then {k} else {}
    ensures k !in Outcomes(attempts[..k]) && k !in Failures(attempts[..k])
  {}

  lemma SuccessesNext(first: map<Identity, bool>, id: Identity, success: bool)
    requires id !in first
    ensures SuccessesOf(first[id := success]) == SuccessesOf(first) + if success then {id} else {}
    ensures id !in SuccessesOf(first)
  {}

  // attemptsWithOutcome and validationFailures
  method CountOutcomes(attempts: seq<Event>) returns (withOutcome: int, failures: int)
    ensures withOutcome == |Outcomes(attempts)| && failures == |Failures(attempts)|
    ensures 0 <= failures <= withOutcome
  {
    withOutcome, failures := 0, 0;
    for k := 0 to |attempts|
      invariant withOutcome == |Outcomes(attempts[..k])| && failures == |Failures(attempts[..k])|
      invariant 0 <= failures <= withOutcome
    {
      OutcomesNext(attempts, k);
      assert Failed(attempts[k]) <==> attempts[k].success.Some? && !attempts[k].success.value;
      if attempts[k].success.Some? {
        withOutcome := withOutcome + 1;
        if !attempts[k].success.value {
          failures := failures + 1;
        }
      }
    }
    assert attempts[..|attempts|] == attempts;
  }

  // The state of the first-pass loop after the attempts seen so far.
  ghost predicate FirstPassed(attempts: seq<Event>, first: map<Identity, bool>, successes: int) {
    FirstOutcomes(attempts, first) && successes == |SuccessesOf(first)|
  }

  // firstPassEligible and firstPassSuccesses
  method CountFirstPasses(attempts: seq<Event>) returns (eligible: int, successes: int, ghost first: map<Identity, bool>)
    ensures FirstPassed(attempts, first, successes) && eligible == |first|
    ensures 0 <= successes <= eligible
  {
    var seen: map<Identity, bool> := map[];
    successes := 0;
    for k := 0 to |attempts|
      invariant FirstPassed(attempts[..k], seen, successes)
    {
      assert attempts[..k + 1] == attempts[..k] + [attempts[k]];
      successes, seen := CountFirstPass(attempts[..k], attempts[k], successes, seen);
    }
    assert attempts[..|attempts|] == attempts;
    first, eligible := seen, |seen|;
    SuccessesWithin(seen);
  }

  // One turn of the first-pass loop.
  method CountFirstPass(ghost before: seq<Event>, e: Event, successes: int, first: map<Identity, bool>)
    returns (successes': int, first': map<Identity, bool>)
    requires FirstPassed(before, first, successes)
    ensures FirstPassed(before + [e], first', successes')
  {
    successes', first' := successes, first;
    var key := IdentityOf(e);
    if e.attemptId != "" && e.success.Some? && key.Some? && key.value !in first {
      SuccessesNext(first, key.value, e.success.value);
      first' := first[key.value := e.success.value];
      if e.success.value {
        successes' := successes + 1;
      }
    }
    FirstOutcomesNext(before, first, e, first');
  }

  lemma SuccessesWithin(first: map<Identity, bool>)
    ensures |SuccessesOf(first)| <= |first|
  {
    Subset(SuccessesOf(first), first.Keys);
  }

  // ---------- loops ----------

  function RecurringOf(episodes: seq<Episode>): seq<Episode> {
    if episodes == [] then []
    else RecurringOf(episodes[..|episodes| - 1]) +
         if Recurring(episodes[|episodes| - 1]) then [episodes[|episodes| - 1]] else []
  }

  function Firsts(episodes: seq<Episode>): set<nat> {
    set c | 0 <= c < |episodes| :: episodes[c].first
  }

  lemma {:induction false} DistinctFirsts(episodes: seq<Episode>)
    requires forall a, b :: 0 <= a < b < |episodes| ==> episodes[a].first != episodes[b].first
    ensures |Firsts(episodes)| == |episodes|
  {
    if episodes != [] {
      var n := |episodes| - 1;
      DistinctFirsts(episodes[..n]);
      assert Firsts(episodes) == Firsts(episodes[..n]) + {episodes[n].first};
    } else {
      assert Firsts(episodes) == {};
    }
  }

  lemma {:induction false} RecurringWithin(episodes: seq<Episode>)
    ensures |RecurringOf(episodes)| <= |episodes|
  {
    if episodes != [] {
      RecurringWithin(episodes[..|episodes| - 1]);
    }
  }

  // Every loop starts at an attempt with an outcome, and no two at the same one.
  lemma LoopsWithinOutcomes(attempts: seq<Event>, episodes: seq<Episode>)
    requires Episodes(attempts, episodes)
    ensures |RecurringOf(episodes)| <= |Outcomes(attempts)|
  {
    DistinctFirsts(episodes);
    forall k | k in Firsts(episodes) ensures k in Outcomes(attempts) {
      var c :| 0 <= c < |episodes| && episodes[c].first == k;
      assert IsEpisode(attempts, episodes[c]);
    }
    Subset(Firsts(episodes), Outcomes(attempts));
    RecurringWithin(episodes);
  }

  function Sum(episodes: seq<Episode>): int {
    if episodes == [] then 0 else Sum(episodes[..|episodes| - 1]) + episodes[|episodes| - 1].failures
  }

  function ResolvedCount(episodes: seq<Episode>): nat {
    if episodes == [] then 0 else ResolvedCount(episodes[..|episodes| - 1]) + if episodes[|episodes| - 1].resolved then 1 else 0
  }

  lemma RecurringNext(episodes: seq<Episode>, k: nat)
    requires k < |episodes|
    ensures RecurringOf(episodes[..k + 1]) == RecurringOf(episodes[..k]) + if Recurring(episodes[k]) then [episodes[k]] else []
  {
    assert episodes[..k + 1][..k] == episodes[..k];
  }

  method CountLoops(attempts: seq<Event>, episodes: seq<Episode>)
    returns (recurring: int, repeated: int, resolved: int, unresolved: int)
    requires Episodes(attempts, episodes)
    ensures recurring == |RecurringOf(episodes)| && repeated == Sum(RecurringOf(episodes))
    ensures resolved == ResolvedCount(RecurringOf(episodes))
    ensures recurring == resolved + unresolved && 2 * recurring <= repeated
  {
    recurring, repeated, resolved, unresolved := 0, 0, 0, 0;
    for k := 0 to |episodes|
      invariant recurring == |RecurringOf(episodes[..k])| && repeated == Sum(RecurringOf(episodes[..k]))
      invariant resolved == ResolvedCount(RecurringOf(episodes[..k]))
      invariant recurring == resolved + unresolved && 2 * recurring <= repeated
    {
      RecurringNext(episodes, k);
      var again := Recurs(episodes[k]);
      if again {
        RecurringFailsTwice(attempts, episodes[k]);
        recurring, repeated := recurring + 1, repeated + episodes[k].failures;
        if episodes[k].resolved {
          resolved := resolved + 1;
        } else {
          unresolved := unresolved + 1;
        }
      } else {
        assert RecurringOf(episodes[..k]) + [] == RecurringOf(episodes[..k]);
      }
    }
    assert episodes[..|episodes|] == episodes;
  }

  // failureEpisode.recurring
  method Recurs(ep: Episode) returns (r: bool)
    ensures r <==> Recurring(ep)
  {
    var left := ep.fingerprints.Keys;
    while left != {}
      invariant left <= ep.fingerprints.Keys
      invariant forall f :: f in ep.fingerprints && f !in left ==> ep.fingerprints[f] < 2
      decreases left
    {
      var f :| f in left;
      if ep.fingerprints[f] >= 2 {
        return true;
      }
      left := left - {f};
    }
    r := false;
  }

  // ---------- the report ----------

  // What the comparison relies on.
  predicate Consistent(r: Report) {
    && 0 <= r.firstPassSuccesses <= r.firstPassEligible
    && 0 <= r.reworkDuration <= r.totalEffort
    && 0 <= r.toolFailures <= r.toolAttempts
    && 0 <= r.recurring <= r.attemptsWithOutcome
    && 0 <= r.validationFailures <= r.attemptsWithOutcome
    && r.recurring == r.resolved + r.unresolved && 2 * r.recurring <= r.repeatedFailures
  }

  // What the report was counted over.
  datatype Evidence = Evidence(
    projection: Projection, observations: seq<Event>, groups: seq<seq<Event>>, dropped: seq<Event>,
    first: map<Identity, bool>, episodes: seq<Episode>)

  ghost predicate Supported(events: seq<Event>, v: Evidence) {
    && Grouped(v.observations, v.groups) && Conserved(events, v.groups, v.dropped)
    && Projects(v.projection, v.observations, v.groups)
    && FirstOutcomes(v.projection.attempts, v.first)
    && Episodes(v.projection.attempts, v.episodes)
  }

  ghost predicate CountsAttempts(r: Report, v: Evidence) {
    && r.attemptsWithOutcome == |Outcomes(v.projection.attempts)|
    && r.validationFailures == |Failures(v.projection.attempts)|
    && r.firstPassEligible == |v.first| && r.firstPassSuccesses == |SuccessesOf(v.first)|
    && r.recurring == |RecurringOf(v.episodes)| && r.repeatedFailures == Sum(RecurringOf(v.episodes))
    && r.resolved == ResolvedCount(RecurringOf(v.episodes))
  }

  ghost predicate CountsEvents(r: Report, events: seq<Event>) {
    && Found(events, r.cycles, |events|)
    && r.reworkDuration == |CycleInstants(events, r.cycles)|
    && r.totalEffort == |ActiveInstants(events)|
    && r.toolAttempts == |ToolAttempts(events)| && r.toolFailures == |ToolFailures(events)|
  }

  // AnalyzeRework over the canonical events, already in time order.
  method AnalyzeRework(events: seq<Event>) returns (report: Report, ghost evidence: Evidence)
    requires forall e :: e in events ==> !e.ambiguous
    ensures Consistent(report)
    ensures CountsEvents(report, events)
    ensures Supported(events, evidence) && CountsAttempts(report, evidence)
  {
    var toolAttempts, toolFailures := CountTools(events);
    var projection, observations, groups, dropped := ProjectValidationAttempts(events);
    var withOutcome, failures := CountOutcomes(projection.attempts);
    var eligible, successes, first := CountFirstPasses(projection.attempts);
    var episodes := DetectFailureEpisodes(projection.attempts);
    var recurring, repeated, resolved, unresolved := CountLoops(projection.attempts, episodes);
    LoopsWithinOutcomes(projection.attempts, episodes);
    var cycles := DetectReworkCycles(events);
    var reworkDuration := CycleEffort(events, cycles);
    var totalEffort := ActiveDuration(events);
    ReworkWithinEffort(events, cycles);
    report := Report(toolAttempts, toolFailures, withOutcome, failures, eligible, successes,
                     recurring, repeated, resolved, unresolved, cycles, reworkDuration, totalEffort);
    evidence := Evidence(projection, observations, groups, dropped, first, episodes);
  }

  // ---------- comparison rows ----------

  datatype Value = Unavailable | Inconsistent | Available(percent: real)

  // reworkRatio
  function ReworkRatio(numerator: int, denominator: int): Value {
    if denominator <= 0 then Unavailable
    else if numerator < 0 || numerator > denominator then Inconsistent
    else Available(numerator as real / denominator as real * 100.0)
  }

  function Milliseconds(nanoseconds: int): int {
    nanoseconds / 1_000_000
  }

  // The rows of reworkComparisonValues that do not need the session's tokens.
  function Rows(r: Report): seq<Value> {
    [ReworkRatio(r.firstPassSuccesses, r.firstPassEligible),
     ReworkRatio(Milliseconds(r.reworkDuration), Milliseconds(r.totalEffort)),
     ReworkRatio(r.toolFailures, r.toolAttempts),
     ReworkRatio(r.recurring, r.attemptsWithOutcome)]
  }

  // Not the inconsistent branch, and a percentage if there is a value.
  predicate Sound(v: Value) {
    !v.Inconsistent? && (v.Available? ==> 0.0 <= v.percent <= 100.0)
  }

  lemma RatioBounds(numerator: int, denominator: int)
    requires 0 <= numerator <= denominator
    ensures Sound(ReworkRatio(numerator, denominator)) && (ReworkRatio(numerator, denominator).Unavailable? <==> denominator == 0)
  {
    if denominator > 0 {
      assert 0.0 <= numerator as real / denominator as real <= 1.0;
    }
  }

  // v is the percentage numerator makes of denominator, and is there whenever there is something to compare with.
  predicate Reads(v: Value, numerator: int, denominator: int) {
    && (v.Unavailable? <==> denominator == 0)
    && (denominator != 0 ==> v.Available? && v.percent * denominator as real == 100.0 * numerator as real)
  }

  lemma RatioReads(numerator: int, denominator: int)
    requires 0 <= numerator <= denominator
    ensures Reads(ReworkRatio(numerator, denominator), numerator, denominator)
  {
    if denominator > 0 {
      var share := numerator as real / denominator as real;
      assert share * denominator as real == numerator as real;
      assert share * 100.0 * denominator as real == 100.0 * (share * denominator as real);
    }
  }

  // What each row is, in terms of what was counted.
  ghost predicate RowsRead(rows: seq<Value>, events: seq<Event>, cycles: seq<Cycle>, v: Evidence) {
    && |rows| == 4
    && Reads(rows[0], |SuccessesOf(v.first)|, |v.first|)
    && Reads(rows[1], |CycleInstants(events, cycles)| / 1_000_000, |ActiveInstants(events)| / 1_000_000)
    && Reads(rows[2], |ToolFailures(events)|, |ToolAttempts(events)|)
    && Reads(rows[3], |RecurringOf(v.episodes)|, |Outcomes(v.projection.attempts)|)
  }

  lemma ReportRowsRead(r: Report, events: seq<Event>, v: Evidence)
    requires Consistent(r) && CountsEvents(r, events) && CountsAttempts(r, v)
    ensures RowsRead(Rows(r), events, r.cycles, v)
  {
    RatioReads(r.firstPassSuccesses, r.firstPassEligible);
    RatioReads(Milliseconds(r.reworkDuration), Milliseconds(r.totalEffort));
    RatioReads(r.toolFailures, r.toolAttempts);
    RatioReads(r.recurring, r.attemptsWithOutcome);
  }

  lemma ConsistentReportsCompare(r: Report)
    requires Consistent(r)
    ensures forall v :: v in Rows(r) ==> Sound(v)
  {
    RatioBounds(r.firstPassSuccesses, r.firstPassEligible);
    RatioBounds(Milliseconds(r.reworkDuration), Milliseconds(r.totalEffort));
    RatioBounds(r.toolFailures, r.toolAttempts);
    RatioBounds(r.recurring, r.attemptsWithOutcome);
  }

  // The rows of the report of any events: none ever reads as inconsistent, and every value is a percentage.
  method CompareNeverInconsistent(events: seq<Event>) returns (rows: seq<Value>, report: Report, ghost evidence: Evidence)
    requires forall e :: e in events ==> !e.ambiguous
    ensures rows == Rows(report) && forall v :: v in rows ==> Sound(v)
    ensures RowsRead(rows, events, report.cycles, evidence)
    ensures Consistent(report) && CountsEvents(report, events)
    ensures Supported(events, evidence) && CountsAttempts(report, evidence)
  {
    report, evidence := AnalyzeRework(events);
    ConsistentReportsCompare(report);
    ReportRowsRead(report, events, evidence);
    rows := Rows(report);
  }
}
