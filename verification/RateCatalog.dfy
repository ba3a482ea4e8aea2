/** The temporal catalog of rates, and how a rate is looked up in it. */
module RateCatalog {
  import opened ByteStrings
  import opened RateIdentity
  import opened Cost

  // Times are instants; 0 is the zero time.
  datatype Rate = Rate(provider: Bytes, model: Bytes, mode: Bytes, limit: Option<int>, from: int, to: Option<int>,
                       pricing: Pricing, sourceURL: Bytes, evidenceID: Bytes, retrievedAt: int, appliedAt: int)

  // The source joins the parts of a series with NUL bytes; here they stay a tuple, and an id is a series and a start.
  datatype Series = Series(provider: Bytes, model: Bytes, mode: Bytes, limit: Option<int>)
  datatype RateId = RateId(series: Series, from: int)

  function SeriesOf(r: Rate): Series {
    Series(r.provider, r.model, r.mode, r.limit)
  }

  function IdOf(r: Rate): RateId {
    RateId(SeriesOf(r), r.from)
  }

  // Two rates of one series never hold at the same time: the earlier one ends before the later one starts.
  predicate Apart(a: Rate, b: Rate) {
    SeriesOf(a) == SeriesOf(b) ==>
      && a.from != b.from
      && (a.from < b.from ==> a.to.Some? && a.to.value <= b.from)
      && (b.from < a.from ==> b.to.Some? && b.to.value <= a.from)
  }

  predicate Forward(r: Rate) {
    r.to.Some? ==> r.from < r.to.value
  }

  predicate WellFormed(rates: seq<Rate>) {
    && (forall i :: 0 <= i < |rates| ==> Forward(rates[i]))
    && (forall i, j :: 0 <= i < j < |rates| ==> Apart(rates[i], rates[j]))
  }

  predicate Active(r: Rate, t: int) {
    r.from <= t && (r.to.None? || t < r.to.value)
  }

  // At no instant do two rates of a series hold, and an open rate is the newest of its series.
  lemma OneActive(rates: seq<Rate>, i: nat, j: nat, t: int)
    requires WellFormed(rates) && i < |rates| && j < |rates| && i != j && SeriesOf(rates[i]) == SeriesOf(rates[j])
    ensures !(Active(rates[i], t) && Active(rates[j], t))
    ensures rates[i].to.None? ==> rates[j].from < rates[i].from
  {
    assert if i < j then Apart(rates[i], rates[j]) else Apart(rates[j], rates[i]);
  }

  // ---------- ResolveRate ----------

  datatype Query = Query(provider: Bytes, model: Bytes, mode: Bytes, at: int, tokens: int)

  datatype Resolution = Conflict | Resolved(rate: Rate) | UnsupportedCondition | NotFound

  predicate Asks(q: Query, r: Rate) {
    r.provider == q.provider && r.model == q.model && r.mode == q.mode
  }

  predicate Based(q: Query, r: Rate) {
    Asks(q, r) && Active(r, q.at)
  }

  predicate Matches(q: Query, r: Rate) {
    Based(q, r) && (r.limit.None? || q.tokens <= r.limit.value)
  }

  function Matching(q: Query, rates: seq<Rate>): seq<Rate> {
    if rates == [] then []
    else Matching(q, rates[..|rates| - 1]) + if Matches(q, rates[|rates| - 1]) then [rates[|rates| - 1]] else []
  }

  ghost predicate HasBase(q: Query, rates: seq<Rate>) {
    exists i :: 0 <= i < |rates| && Based(q, rates[i])
  }

  ghost function Resolve(q: Query, rates: seq<Rate>): Resolution {
    var matches := Matching(q, rates);
    if |matches| > 1 then Conflict
    else if |matches| == 1 then Resolved(matches[0])
    else if HasBase(q, rates) then UnsupportedCondition
    else NotFound
  }

  ghost predicate NoMatch(q: Query, rates: seq<Rate>) {
    forall i :: 0 <= i < |rates| ==> !Matches(q, rates[i])
  }

  ghost predicate OnlyMatch(q: Query, rates: seq<Rate>, i: nat) {
    i < |rates| && Matches(q, rates[i]) && forall j :: 0 <= j < |rates| && j != i ==> !Matches(q, rates[j])
  }

  ghost predicate TwoMatch(q: Query, rates: seq<Rate>, i: nat, j: nat) {
    i < j < |rates| && Matches(q, rates[i]) && Matches(q, rates[j])
  }

  lemma {:induction false} MatchingNone(q: Query, rates: seq<Rate>)
    ensures |Matching(q, rates)| == 0 ==> NoMatch(q, rates)
  {
    if rates != [] && |Matching(q, rates)| == 0 {
      MatchingNone(q, rates[..|rates| - 1]);
    }
  }

  lemma {:induction false} MatchingOne(q: Query, rates: seq<Rate>) returns (i: nat)
    requires |Matching(q, rates)| == 1
    ensures OnlyMatch(q, rates, i) && Matching(q, rates)[0] == rates[i]
  {
    var n := |rates| - 1;
    if Matches(q, rates[n]) {
      MatchingNone(q, rates[..n]);
      i := n;
    } else {
      i := MatchingOne(q, rates[..n]);
    }
  }

  lemma {:induction false} MatchingTwo(q: Query, rates: seq<Rate>) returns (i: nat, j: nat)
    requires |Matching(q, rates)| > 1
    ensures TwoMatch(q, rates, i, j)
  {
    var n := |rates| - 1;
    if |Matching(q, rates[..n])| > 1 {
      i, j := MatchingTwo(q, rates[..n]);
    } else {
      i := MatchingOne(q, rates[..n]);
      j := n;
    }
  }

  // r holds at the instant asked about, for the provider, model and mode asked about.
  ghost predicate InForce(q: Query, r: Rate) {
    r.provider == q.provider && r.model == q.model && r.mode == q.mode && r.from <= q.at && (r.to.Some? ==> q.at < r.to.value)
  }

  // r's limit, if it has one, admits the tokens asked about.
  ghost predicate Admits(q: Query, r: Rate) {
    r.limit.Some? ==> q.tokens <= r.limit.value
  }

  ghost predicate AppliesOnly(q: Query, rates: seq<Rate>, i: nat) {
    && i < |rates| && InForce(q, rates[i]) && Admits(q, rates[i])
    && forall j :: 0 <= j < |rates| && InForce(q, rates[j]) && Admits(q, rates[j]) ==> j == i
  }

  ghost predicate BothApply(q: Query, rates: seq<Rate>, i: nat, j: nat) {
    i < j < |rates| && InForce(q, rates[i]) && Admits(q, rates[i]) && InForce(q, rates[j]) && Admits(q, rates[j])
  }

  /** The four answers. Nothing is found if and only if no rate is in force; the condition is unsupported if and only if
      some rate is and none of them admits the tokens; a rate is the answer if and only if it alone applies; and there is a
      conflict if and only if two apply. */
  ghost predicate Answers(q: Query, rates: seq<Rate>, r: Resolution) {
    && (r.NotFound? <==> forall i :: 0 <= i < |rates| ==> !InForce(q, rates[i]))
    && (r.UnsupportedCondition? <==>
          (exists i :: 0 <= i < |rates| && InForce(q, rates[i])) && forall i :: 0 <= i < |rates| && InForce(q, rates[i]) ==> !Admits(q, rates[i]))
    && (r.Resolved? <==> exists i: nat :: AppliesOnly(q, rates, i))
    && (forall i: nat :: r.Resolved? && AppliesOnly(q, rates, i) ==> r.rate == rates[i])
    && (r.Conflict? <==> exists i: nat, j: nat :: BothApply(q, rates, i, j))
  }

  lemma ResolveAnswers(q: Query, rates: seq<Rate>)
    ensures Answers(q, rates, Resolve(q, rates))
  {
    assert forall i :: 0 <= i < |rates| ==> (InForce(q, rates[i]) <==> Based(q, rates[i]));
    assert forall i :: 0 <= i < |rates| ==> (InForce(q, rates[i]) && Admits(q, rates[i]) <==> Matches(q, rates[i]));
    var n := |Matching(q, rates)|;
    if n == 1 {
      var i := MatchingOne(q, rates);
      assert AppliesOnly(q, rates, i);
    } else if n > 1 {
      var i, j := MatchingTwo(q, rates);
      assert BothApply(q, rates, i, j);
    } else {
      MatchingNone(q, rates);
      forall i: nat ensures !AppliesOnly(q, rates, i) {
      }
    }
  }

  // The loop of ResolveRate.
  method FindMatches(rates: seq<Rate>, q: Query) returns (baseFound: bool, matches: seq<Rate>)
    ensures matches == Matching(q, rates) && (baseFound <==> HasBase(q, rates))
  {
    baseFound, matches := false, [];
    for k := 0 to |rates|
      invariant baseFound <==> HasBase(q, rates[..k])
      invariant matches == Matching(q, rates[..k])
    {
      assert rates[..k + 1][..k] == rates[..k];
      var candidate := rates[k];
      if candidate.provider != q.provider || candidate.model != q.model || candidate.mode != q.mode ||
         q.at < candidate.from || (candidate.to.Some? && q.at >= candidate.to.value) {
        assert matches + [] == matches;
        continue;
      }
      baseFound := true;
      if candidate.limit.None? || q.tokens <= candidate.limit.value {
        matches := matches + [candidate];
      } else {
        assert matches + [] == matches;
      }
    }
    assert rates[..|rates|] == rates;
  }

  method ResolveRate(rates: seq<Rate>, q: Query) returns (r: Resolution)
    ensures r == Resolve(q, rates)
    ensures Answers(q, rates, r)
  {
    ResolveAnswers(q, rates);
    var baseFound, matches := FindMatches(rates, q);
    if |matches| > 1 {
      return Conflict;
    }
    if |matches| == 1 {
      return Resolved(matches[0]);
    }
    r := if baseFound then UnsupportedCondition else NotFound;
  }

  // ---------- catalogs that only grow ----------

  // a is b, up to when it ends.
  predicate SameRate(a: Rate, b: Rate) {
    a.(to := None) == b.(to := None)
  }

  // What an update may do to a stored rate: nothing, or close an open one where a new rate of its series starts.
  ghost predicate KeptOrClosed(before: Rate, after: seq<Rate>, n: nat, i: nat)
    requires i < n <= |after|
  {
    || after[i] == before
    || (before.to.None? && after[i].to.Some? && SameRate(before, after[i]) && StartsAt(after, n, SeriesOf(before), after[i].to.value))
  }

  ghost predicate StartsAt(after: seq<Rate>, n: nat, series: Series, t: int)
    requires n <= |after|
  {
    exists j :: n <= j < |after| && SeriesOf(after[j]) == series && after[j].from == t
  }

  ghost predicate Extends(before: seq<Rate>, after: seq<Rate>) {
    |before| <= |after| && forall i: nat :: i < |before| ==> KeptOrClosed(before[i], after, |before|, i)
  }

  // The query asks about an instant before every new rate of its provider, model and mode.
  ghost predicate BeforeInserts(q: Query, before: seq<Rate>, after: seq<Rate>) {
    forall j :: |before| <= j < |after| && Asks(q, after[j]) ==> q.at < after[j].from
  }

  lemma SameMatch(q: Query, before: seq<Rate>, after: seq<Rate>, i: nat)
    requires Extends(before, after) && BeforeInserts(q, before, after) && i < |before|
    ensures SameRate(before[i], after[i])
    ensures Matches(q, before[i]) <==> Matches(q, after[i])
    ensures Based(q, before[i]) <==> Based(q, after[i])
  {
    assert KeptOrClosed(before[i], after, |before|, i);
    if after[i] != before[i] && Asks(q, before[i]) {
      var j :| |before| <= j < |after| && SeriesOf(after[j]) == SeriesOf(before[i]) && after[j].from == after[i].to.value;
      assert Asks(q, after[j]);
    }
  }

  // The same rates match, in the same order, up to when they end.
  ghost predicate SameRates(a: seq<Rate>, b: seq<Rate>) {
    |a| == |b| && forall i :: 0 <= i < |a| ==> SameRate(a[i], b[i])
  }

  lemma {:induction false} SameMatching(q: Query, before: seq<Rate>, after: seq<Rate>, n: nat)
    requires Extends(before, after) && BeforeInserts(q, before, after) && n <= |before|
    ensures SameRates(Matching(q, before[..n]), Matching(q, after[..n]))
  {
    if n > 0 {
      SameMatching(q, before, after, n - 1);
      SameMatch(q, before, after, n - 1);
      assert before[..n][..n - 1] == before[..n - 1] && after[..n][..n - 1] == after[..n - 1];
    }
  }

  lemma {:induction false} NoNewMatch(q: Query, before: seq<Rate>, after: seq<Rate>, n: nat)
    requires Extends(before, after) && BeforeInserts(q, before, after) && |before| <= n <= |after|
    ensures Matching(q, after[..n]) == Matching(q, after[..|before|])
    decreases n
  {
    if n > |before| {
      NoNewMatch(q, before, after, n - 1);
      assert after[..n][..n - 1] == after[..n - 1];
      assert !Matches(q, after[n - 1]);
      assert Matching(q, after[..n]) == Matching(q, after[..n - 1]) + [];
    }
  }

  lemma SameBase(q: Query, before: seq<Rate>, after: seq<Rate>)
    requires Extends(before, after) && BeforeInserts(q, before, after)
    ensures HasBase(q, before) <==> HasBase(q, after)
  {
    if HasBase(q, before) {
      var i: nat :| i < |before| && Based(q, before[i]);
      SameMatch(q, before, after, i);
    }
    if HasBase(q, after) {
      var i: nat :| i < |after| && Based(q, after[i]);
      if i < |before| {
        SameMatch(q, before, after, i);
      }
    }
  }

  // Lookups before the first new rate come out as they did.
  lemma HistoryUnchanged(q: Query, before: seq<Rate>, after: seq<Rate>)
    requires Extends(before, after) && BeforeInserts(q, before, after)
    ensures var was, now := Resolve(q, before), Resolve(q, after);
            if was.Resolved? then now.Resolved? && SameRate(was.rate, now.rate) else now == was
  {
    SameMatching(q, before, after, |before|);
    NoNewMatch(q, before, after, |after|);
    SameBase(q, before, after);
    assert before[..|before|] == before && after[..|after|] == after;
  }
}
