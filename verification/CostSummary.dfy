/** The cost of a set of model calls: what is priced, what is not and why, and whether the sum fits. */
module CostSummary {
  datatype Option<+T> = None | Some(value: T)

  datatype CostBasis = Unspecified | ProviderReported | RateCardEstimate | Unavailable

  // The reasons are numbered; 0 means none was given.
  const REASONS := 11
  const CALCULATION_ERROR := 10
  const MAX_INT64 := 0x7FFF_FFFF_FFFF_FFFF

  type Reason = r: nat | r < REASONS

  datatype Attribution = Attribution(basis: CostBasis, amount: Option<int>, reason: Reason)

  datatype ReasonCount = ReasonCount(reason: Reason, count: nat)

  datatype SummaryBasis = OfProvider | OfRateCard | Mixed | NoBasis
  datatype Coverage = Complete | Partial | NoCoverage

  datatype Summary = Summary(amount: Option<int>, basis: SummaryBasis, coverage: Coverage,
                             eligible: nat, priced: nat, reasons: seq<ReasonCount>, error: bool)

  type Calls = map<string, Attribution>

  predicate Priced(a: Attribution) {
    a.amount.Some? && (a.basis.ProviderReported? || a.basis.RateCardEstimate?)
  }

  function ReasonOf(a: Attribution): Reason {
    if a.reason == 0 then CALCULATION_ERROR else a.reason
  }

  // ---------- what the summary counts ----------

  function PricedKeys(calls: Calls): set<string> {
    set k | k in calls && Priced(calls[k])
  }

  function UnpricedKeys(calls: Calls, r: Reason): set<string> {
    set k | k in calls && !Priced(calls[k]) && ReasonOf(calls[k]) == r
  }

  // The reasons below n that leave some call unpriced, in order, with how many calls each leaves.
  function Listing(calls: Calls, n: nat): seq<ReasonCount>
    requires n <= REASONS
  {
    if n == 0 then []
    else Listing(calls, n - 1) +
         if UnpricedKeys(calls, n - 1) != {} then [ReasonCount(n - 1, |UnpricedKeys(calls, n - 1)|)] else []
  }

  function CountSum(counts: seq<ReasonCount>): nat {
    if counts == [] then 0 else CountSum(counts[..|counts| - 1]) + counts[|counts| - 1].count
  }

  function UnpricedBelow(calls: Calls, n: nat): set<string> {
    set k | k in calls && !Priced(calls[k]) && ReasonOf(calls[k]) < n
  }

  lemma Disjoint<T>(a: set<T>, b: set<T>)
    requires a !! b
    ensures |a + b| == |a| + |b|
  {}

  lemma {:induction false} ListingCounts(calls: Calls, n: nat)
    requires n <= REASONS
    ensures CountSum(Listing(calls, n)) == |UnpricedBelow(calls, n)|
  {
    if n == 0 {
      assert UnpricedBelow(calls, 0) == {};
    } else {
      ListingCounts(calls, n - 1);
      assert UnpricedBelow(calls, n) == UnpricedBelow(calls, n - 1) + UnpricedKeys(calls, n - 1);
      Disjoint(UnpricedBelow(calls, n - 1), UnpricedKeys(calls, n - 1));
      var listing := Listing(calls, n);
      if UnpricedKeys(calls, n - 1) != {} {
        assert listing[..|listing| - 1] == Listing(calls, n - 1);
      } else {
        assert listing == Listing(calls, n - 1);
      }
    }
  }

  // Every call is either priced or listed under exactly one reason.
  lemma EligibleConserved(calls: Calls)
    ensures |PricedKeys(calls)| + CountSum(Listing(calls, REASONS)) == |calls|
  {
    ListingCounts(calls, REASONS);
    assert calls.Keys == PricedKeys(calls) + UnpricedBelow(calls, REASONS);
    Disjoint(PricedKeys(calls), UnpricedBelow(calls, REASONS));
  }

  // ---------- the sum of the priced amounts ----------

  function Amount(a: Attribution): int {
    if Priced(a) then a.amount.value else 0
  }

  ghost function Total(calls: Calls): int {
    if calls == map[] then 0 else var k :| k in calls; Amount(calls[k]) + Total(calls - {k})
  }

  // The sum does not depend on which call is taken out first.
  lemma {:induction false} TotalWithout(calls: Calls, k: string)
    requires k in calls
    ensures Total(calls) == Amount(calls[k]) + Total(calls - {k})
    decreases |calls|
  {
    assert calls != map[];
    var first :| first in calls && Total(calls) == Amount(calls[first]) + Total(calls - {first});
    if first != k {
      TotalWithout(calls - {first}, k);
      TotalWithout(calls - {k}, first);
      assert calls - {first} - {k} == calls - {k} - {first};
    }
  }

  ghost predicate Negative(calls: Calls) {
    exists k :: k in calls && Amount(calls[k]) < 0
  }

  ghost predicate Uses(calls: Calls, basis: CostBasis) {
    exists k :: k in calls && Priced(calls[k]) && calls[k].basis == basis
  }

  ghost predicate Overflows(calls: Calls) {
    Negative(calls) || Total(calls) > MAX_INT64
  }

  ghost predicate BasisOf(calls: Calls, basis: SummaryBasis) {
    && (basis.Mixed? || basis.OfProvider? <==> Uses(calls, ProviderReported))
    && (basis.Mixed? || basis.OfRateCard? <==> Uses(calls, RateCardEstimate))
  }

  ghost predicate Amounts(calls: Calls, s: Summary) {
    if Overflows(calls) || PricedKeys(calls) == {} then s.amount == None && s.coverage == NoCoverage
    else s.amount == Some(Total(calls)) && (s.coverage.Complete? <==> PricedKeys(calls) == calls.Keys) && !s.coverage.NoCoverage?
  }

  // The summary as a matter of the calls alone.
  ghost predicate Summarizes(calls: Calls, s: Summary) {
    && s.eligible == |calls| && s.priced == |PricedKeys(calls)| && s.reasons == Listing(calls, REASONS)
    && (s.error <==> Overflows(calls))
    && BasisOf(calls, s.basis) && Amounts(calls, s)
  }

  lemma SummaryUnique(calls: Calls, a: Summary, b: Summary)
    requires Summarizes(calls, a) && Summarizes(calls, b)
    ensures a == b
  {}

  // ---------- the loop ----------

  // The sums and counts after some of the calls.
  ghost predicate Running(calls: Calls, total: int, overflow: bool, provider: bool, rate: bool) {
    && (overflow <==> Overflows(calls))
    && 0 <= total <= MAX_INT64 && (!overflow ==> total == Total(calls))
    && (provider <==> Uses(calls, ProviderReported)) && (rate <==> Uses(calls, RateCardEstimate))
    && (overflow && !Negative(calls) ==> Total(calls) > MAX_INT64)
  }

  ghost predicate Bounded(calls: Calls, total: int) {
    !Negative(calls) ==> total <= Total(calls)
  }

  // The map counts the calls unpriced for r, and has no entry if there are none.
  ghost predicate CountsReason(calls: Calls, reasons: map<Reason, nat>, r: Reason) {
    (r in reasons <==> UnpricedKeys(calls, r) != {}) && (r in reasons ==> reasons[r] == |UnpricedKeys(calls, r)|)
  }

  ghost predicate Counts(calls: Calls, priced: nat, reasons: map<Reason, nat>) {
    && priced == |PricedKeys(calls)|
    && forall r: Reason :: CountsReason(calls, reasons, r)
  }

  lemma TotalWith(calls: Calls, k: string, a: Attribution)
    requires k !in calls
    ensures Total(calls[k := a]) == Amount(a) + Total(calls)
  {
    TotalWithout(calls[k := a], k);
    assert calls[k := a] - {k} == calls;
  }

  lemma NegativeWith(calls: Calls, k: string, a: Attribution)
    requires k !in calls
    ensures Negative(calls[k := a]) <==> Negative(calls) || Amount(a) < 0
  {
    var more := calls[k := a];
    if Amount(a) < 0 {
      assert k in more && Amount(more[k]) < 0;
    }
    if Negative(calls) {
      var j :| j in calls && Amount(calls[j]) < 0;
      assert j in more && Amount(more[j]) < 0;
    }
  }

  lemma UsesWith(calls: Calls, k: string, a: Attribution, basis: CostBasis)
    requires k !in calls
    ensures Uses(calls[k := a], basis) <==> Uses(calls, basis) || (Priced(a) && a.basis == basis)
  {
    var more := calls[k := a];
    if Priced(a) && a.basis == basis {
      assert k in more && Priced(more[k]) && more[k].basis == basis;
    }
    if Uses(calls, basis) {
      var j :| j in calls && Priced(calls[j]) && calls[j].basis == basis;
      assert j in more && Priced(more[j]) && more[j].basis == basis;
    }
  }

  lemma RunningNext(calls: Calls, k: string, a: Attribution, total: int, overflow: bool, provider: bool, rate: bool)
    requires k !in calls && Running(calls, total, overflow, provider, rate) && Bounded(calls, total)
    ensures var fits := Amount(a) >= 0 && total <= MAX_INT64 - Amount(a);
            var total' := if fits then total + Amount(a) else total;
            Running(calls[k := a], total', overflow || !fits,
                    provider || (Priced(a) && a.basis.ProviderReported?), rate || (Priced(a) && a.basis.RateCardEstimate?)) &&
            Bounded(calls[k := a], total')
  {
    TotalWith(calls, k, a);
    NegativeWith(calls, k, a);
    UsesWith(calls, k, a, ProviderReported);
    UsesWith(calls, k, a, RateCardEstimate);
  }

  lemma PricedWith(calls: Calls, k: string, a: Attribution)
    requires k !in calls
    ensures PricedKeys(calls[k := a]) == PricedKeys(calls) + if Priced(a) then {k} else {}
    ensures k !in PricedKeys(calls)
  {}

  lemma UnpricedWith(calls: Calls, k: string, a: Attribution, r: Reason)
    requires k !in calls
    ensures UnpricedKeys(calls[k := a], r) == UnpricedKeys(calls, r) + if !Priced(a) && ReasonOf(a) == r then {k} else {}
    ensures k !in UnpricedKeys(calls, r)
  {}

  lemma CountsPriced(calls: Calls, k: string, a: Attribution, priced: nat, reasons: map<Reason, nat>)
    requires k !in calls && Counts(calls, priced, reasons) && Priced(a)
    ensures Counts(calls[k := a], priced + 1, reasons)
  {
    PricedWith(calls, k, a);
    var more := calls[k := a];
    forall r: Reason ensures CountsReason(more, reasons, r) {
      UnpricedWith(calls, k, a, r);
      assert UnpricedKeys(more, r) == UnpricedKeys(calls, r) && CountsReason(calls, reasons, r);
    }
  }

  function OneMore(reasons: map<Reason, nat>, r: Reason): map<Reason, nat> {
    reasons[r := (if r in reasons then reasons[r] else 0) + 1]
  }

  lemma CountsOwnReason(calls: Calls, k: string, a: Attribution, reasons: map<Reason, nat>)
    requires k !in calls && CountsReason(calls, reasons, ReasonOf(a)) && !Priced(a)
    ensures CountsReason(calls[k := a], OneMore(reasons, ReasonOf(a)), ReasonOf(a))
  {
    var keys := UnpricedKeys(calls, ReasonOf(a));
    UnpricedWith(calls, k, a, ReasonOf(a));
    Disjoint(keys, {k});
    assert UnpricedKeys(calls[k := a], ReasonOf(a)) == keys + {k};
  }

  lemma CountsOtherReason(calls: Calls, k: string, a: Attribution, reasons: map<Reason, nat>, r: Reason)
    requires k !in calls && CountsReason(calls, reasons, r) && r != ReasonOf(a)
    ensures CountsReason(calls[k := a], OneMore(reasons, ReasonOf(a)), r)
  {
    UnpricedWith(calls, k, a, r);
    assert UnpricedKeys(calls[k := a], r) == UnpricedKeys(calls, r);
  }

  lemma CountsUnpriced(calls: Calls, k: string, a: Attribution, priced: nat, reasons: map<Reason, nat>)
    requires k !in calls && Counts(calls, priced, reasons) && !Priced(a)
    ensures Counts(calls[k := a], priced, OneMore(reasons, ReasonOf(a)))
  {
    PricedWith(calls, k, a);
    var more, reasons' := calls[k := a], OneMore(reasons, ReasonOf(a));
    assert PricedKeys(more) == PricedKeys(calls);
    forall r: Reason ensures CountsReason(more, reasons', r) {
      assert CountsReason(calls, reasons, r);
      if r == ReasonOf(a) {
        CountsOwnReason(calls, k, a, reasons);
      } else {
        CountsOtherReason(calls, k, a, reasons, r);
      }
    }
  }

  // sort.Slice over the map of reasons: the reasons in it, in their order.
  method ListReasons(ghost calls: Calls, priced: nat, reasons: map<Reason, nat>) returns (list: seq<ReasonCount>)
    requires Counts(calls, priced, reasons)
    ensures list == Listing(calls, REASONS)
  {
    list := [];
    for r := 0 to REASONS
      invariant list == Listing(calls, r)
    {
      assert CountsReason(calls, reasons, r);
      if r in reasons {
        list := list + [ReasonCount(r, reasons[r])];
      } else {
        assert list + [] == list;
      }
    }
  }

  method Pick(keys: set<string>) returns (k: string)
    requires keys != {}
    ensures k in keys
  {
    k :| k in keys;
  }

  // One turn of the loop over the calls.
  method AddCall(ghost seen: Calls, ghost k: string, call: Attribution, total: int, overflow: bool, provider: bool, rate: bool,
                 priced: nat, reasons: map<Reason, nat>)
    returns (total': int, overflow': bool, provider': bool, rate': bool, priced': nat, reasons': map<Reason, nat>)
    requires k !in seen && Running(seen, total, overflow, provider, rate) && Bounded(seen, total) && Counts(seen, priced, reasons)
    ensures Running(seen[k := call], total', overflow', provider', rate') && Bounded(seen[k := call], total')
    ensures Counts(seen[k := call], priced', reasons')
  {
    total', overflow', provider', rate', priced', reasons' := total, overflow, provider, rate, priced, reasons;
    RunningNext(seen, k, call, total, overflow, provider, rate);
    if call.amount.Some? && (call.basis.ProviderReported? || call.basis.RateCardEstimate?) {
      CountsPriced(seen, k, call, priced, reasons);
      priced' := priced + 1;
      provider' := provider || call.basis.ProviderReported?;
      rate' := rate || call.basis.RateCardEstimate?;
      if call.amount.value < 0 || total > MAX_INT64 - call.amount.value {
        overflow' := true;
      } else {
        total' := total + call.amount.value;
      }
    } else {
      CountsUnpriced(seen, k, call, priced, reasons);
      var reason := if call.reason == 0 then CALCULATION_ERROR else call.reason;
      reasons' := OneMore(reasons, reason);
    }
  }

  method SummarizeCost(calls: Calls) returns (s: Summary)
    ensures Summarizes(calls, s)
    ensures s.eligible == s.priced + CountSum(s.reasons)
  {
    var total, overflow, provider, rate := 0, false, false, false;
    var priced: nat, reasons: map<Reason, nat> := 0, map[];
    var left := calls.Keys;
    ghost var seen: Calls := map[];
    Nothing();
    while left != {}
      invariant left <= calls.Keys && seen == calls - left
      invariant Running(seen, total, overflow, provider, rate) && Bounded(seen, total)
      invariant Counts(seen, priced, reasons)
      decreases left
    {
      var k := Pick(left);
      total, overflow, provider, rate, priced, reasons :=
        AddCall(seen, k, calls[k], total, overflow, provider, rate, priced, reasons);
      Seen(calls, left, k);
      left, seen := left - {k}, seen[k := calls[k]];
    }
    assert seen == calls;
    var list := ListReasons(calls, priced, reasons);
    s := Finish(calls, total, overflow, provider, rate, priced, list);
    EligibleConserved(calls);
  }

  lemma Nothing()
    ensures Running(map[], 0, false, false, false) && Bounded(map[], 0) && Counts(map[], 0, map[])
  {
    assert PricedKeys(map[]) == {};
    forall r: Reason ensures UnpricedKeys(map[], r) == {} {}
  }

  lemma Seen(calls: Calls, left: set<string>, k: string)
    requires k in left && left <= calls.Keys
    ensures calls - (left - {k}) == (calls - left)[k := calls[k]] && k !in calls - left
  {}

  method Finish(calls: Calls, total: int, overflow: bool, provider: bool, rate: bool, priced: nat, reasons: seq<ReasonCount>)
    returns (s: Summary)
    requires Running(calls, total, overflow, provider, rate)
    requires priced == |PricedKeys(calls)| && reasons == Listing(calls, REASONS)
    ensures Summarizes(calls, s)
  {
    var basis := if provider && rate then Mixed else if provider then OfProvider else if rate then OfRateCard else NoBasis;
    s := Summary(None, basis, NoCoverage, |calls|, priced, reasons, overflow);
    if overflow {
      return;
    }
    if priced > 0 {
      AllPriced(calls);
      s := s.(amount := Some(total), coverage := if priced == |calls| then Complete else Partial);
    }
  }

  lemma AllPriced(calls: Calls)
    ensures |PricedKeys(calls)| == |calls| <==> PricedKeys(calls) == calls.Keys
  {
    Smaller(PricedKeys(calls), calls.Keys);
  }

  lemma Smaller<T>(a: set<T>, b: set<T>)
    requires a <= b
    ensures |a| == |b| <==> a == b
  {
    assert b == a + (b - a);
    Disjoint(a, b - a);
  }
}
