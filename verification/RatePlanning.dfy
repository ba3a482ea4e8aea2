/** Planning an append-only update of the catalog from a manifest. */
module RatePlanning {
  import opened ByteStrings
  import opened CallIdentity
  import opened Cost
  import opened RateIdentity
  import opened RateCatalog

  datatype Closure = Closure(id: RateId, to: int)

  datatype Plan = Plan(closures: seq<Closure>, inserts: seq<Rate>)

  datatype Failure = MissingEvaluation | InvalidRate | DiffersFromStored | Historical | LatestClosed

  datatype Outcome = Planned(plan: Plan) | Failed(failure: Failure)

  // ---------- single rates ----------

  // validateManifestRate
  predicate ValidRate(r: Rate, evaluatedAt: int) {
    && r.provider != [] && r.model != [] && r.mode != [] && r.from != 0 && r.sourceURL != [] && r.evidenceID != [] && r.retrievedAt != 0
    && r.to.None? && r.retrievedAt <= evaluatedAt
    && (r.limit.Some? ==> r.limit.value >= 0)
    && ValidPricing(r.pricing)
  }

  // sameImmutableRate
  predicate SameImmutable(a: Rate, b: Rate) {
    && IdOf(a) == IdOf(b) && a.pricing == b.pricing && a.sourceURL == b.sourceURL && a.evidenceID == b.evidenceID
    && a.retrievedAt == b.retrievedAt
  }

  function Stamped(r: Rate, evaluatedAt: int): Rate {
    r.(appliedAt := evaluatedAt)
  }

  // ---------- when a manifest is accepted ----------

  predicate Stored(rates: seq<Rate>, id: RateId) {
    exists i :: 0 <= i < |rates| && IdOf(rates[i]) == id
  }

  ghost predicate Newest(rates: seq<Rate>, i: nat) {
    i < |rates| && forall j :: 0 <= j < |rates| && SeriesOf(rates[j]) == SeriesOf(rates[i]) ==> rates[j].from <= rates[i].from
  }

  // A rate not stored yet may only follow its series, whose newest rate must still be open.
  ghost predicate Follows(existing: seq<Rate>, u: Rate) {
    && (forall i :: 0 <= i < |existing| && SeriesOf(existing[i]) == SeriesOf(u) ==> existing[i].from < u.from)
    && (forall i: nat :: Newest(existing, i) && SeriesOf(existing[i]) == SeriesOf(u) ==> existing[i].to.None?)
  }

  ghost predicate NoClash(existing: seq<Rate>, manifest: seq<Rate>) {
    && (forall u, r :: u in manifest && r in existing && IdOf(u) == IdOf(r) ==> SameImmutable(u, r))
    && (forall u, v :: u in manifest && v in manifest && IdOf(u) == IdOf(v) ==> SameImmutable(u, v))
  }

  // What a manifest has to satisfy, whatever its order.
  ghost predicate Accepted(existing: seq<Rate>, manifest: seq<Rate>, evaluatedAt: int) {
    && evaluatedAt != 0
    && (forall u :: u in manifest ==> ValidRate(u, evaluatedAt))
    && NoClash(existing, manifest)
    && (forall u :: u in manifest && !Stored(existing, IdOf(u)) ==> Follows(existing, u))
  }

  // ---------- the order of the updates ----------

  function KeyText(r: Rate): Bytes {
    r.provider + [0] + r.model + [0] + r.mode + [0] + ConditionText(r.limit)
  }

  predicate Precedes(a: Rate, b: Rate) {
    if KeyText(a) != KeyText(b) then Less(KeyText(a), KeyText(b)) else a.from < b.from
  }

  lemma NotPrecedesTransitive(a: Rate, b: Rate, c: Rate)
    requires !Precedes(b, a) && !Precedes(c, b)
    ensures !Precedes(c, a)
  {
    LessTotal(KeyText(a), KeyText(b));
    LessTotal(KeyText(b), KeyText(c));
    if Less(KeyText(c), KeyText(a)) {
      if KeyText(b) != KeyText(c) {
        LessTransitive(KeyText(b), KeyText(c), KeyText(a));
        BothWays(KeyText(a), KeyText(b));
      }
      BothWays(KeyText(a), KeyText(c));
    }
  }

  lemma BothWays(a: Bytes, b: Bytes)
    ensures !(Less(a, b) && Less(b, a)) && !Less(a, a)
  {
    if Less(a, b) {
      LessIsStrict(a, b);
    }
    if Less(a, a) {
      LessIsStrict(a, a);
    }
  }

  ghost predicate InOrder(updates: seq<Rate>) {
    forall i, j :: 0 <= i < j < |updates| ==> !Precedes(updates[j], updates[i])
  }

  lemma {:induction false} PrecedesIsStrict(a: Rate, b: Rate)
    requires Precedes(a, b)
    ensures !Precedes(b, a)
  {
    BothWays(KeyText(a), KeyText(b));
  }

  // sort.Slice by series key, then start.
  method SortUpdates(manifest: seq<Rate>) returns (sorted: seq<Rate>)
    ensures InOrder(sorted) && forall u :: u in sorted <==> u in manifest
  {
    sorted := [];
    for k := 0 to |manifest|
      invariant InOrder(sorted) && forall u :: u in sorted <==> u in manifest[..k]
    {
      assert manifest[..k + 1] == manifest[..k] + [manifest[k]];
      sorted := InsertUpdate(sorted, manifest[k]);
    }
    assert manifest[..|manifest|] == manifest;
  }

  method InsertUpdate(sorted: seq<Rate>, u: Rate) returns (r: seq<Rate>)
    requires InOrder(sorted)
    ensures InOrder(r) && forall v :: v in r <==> v in sorted || v == u
  {
    var k := |sorted|;
    while k > 0 && Precedes(u, sorted[k - 1])
      invariant 0 <= k <= |sorted|
      invariant k < |sorted| ==> Precedes(u, sorted[k])
    {
      k := k - 1;
    }
    if k < |sorted| {
      PrecedesIsStrict(u, sorted[k]);
    }
    r := sorted[..k] + [u] + sorted[k..];
    InsertedInOrder(sorted, k, u);
    InsertedHolds(sorted, k, u);
  }

  lemma InsertedHolds(sorted: seq<Rate>, k: nat, u: Rate)
    requires k <= |sorted|
    ensures forall v :: v in sorted[..k] + [u] + sorted[k..] <==> v in sorted || v == u
  {
    assert sorted == sorted[..k] + sorted[k..];
  }

  lemma InsertedInOrder(sorted: seq<Rate>, k: nat, u: Rate)
    requires InOrder(sorted) && k <= |sorted|
    requires k < |sorted| ==> !Precedes(sorted[k], u)
    requires k > 0 ==> !Precedes(u, sorted[k - 1])
    ensures InOrder(sorted[..k] + [u] + sorted[k..])
  {
    var r := sorted[..k] + [u] + sorted[k..];
    forall i, j | 0 <= i < j < |r| ensures !Precedes(r[j], r[i]) {
      if i < k == j {
        if i < k - 1 {
          NotPrecedesTransitive(sorted[i], sorted[k - 1], u);
        }
      } else if i == k < j {
        if j > k + 1 {
          NotPrecedesTransitive(u, sorted[k], sorted[j - 1]);
        }
      }
    }
  }

  // ---------- the state of the loop ----------

  ghost predicate Grown(existing: seq<Rate>, current: seq<Rate>, inserts: seq<Rate>) {
    WellFormed(current) && Extends(existing, current) && current[|existing|..] == inserts
  }

  // A closed new rate has a successor in its series.
  ghost predicate Succeeded(existing: seq<Rate>, current: seq<Rate>)
    requires |existing| <= |current|
  {
    forall i :: |existing| <= i < |current| && current[i].to.Some? ==>
      StartsAt(current, |existing|, SeriesOf(current[i]), current[i].to.value)
  }

  // Every new rate may follow what was stored.
  ghost predicate AllFollow(existing: seq<Rate>, current: seq<Rate>) {
    forall i :: |existing| <= i < |current| ==> Follows(existing, current[i])
  }

  ghost predicate Entered(current: seq<Rate>, u: Rate) {
    exists i :: 0 <= i < |current| && SameImmutable(current[i], u)
  }

  // r is an update of the manifest, stamped, and open unless a successor closed it.
  ghost predicate ComesFrom(r: Rate, updates: seq<Rate>, evaluatedAt: int) {
    exists u :: u in updates && r == Stamped(u, evaluatedAt).(to := r.to)
  }

  // The updates so far are all in the catalog, and the new rates are all among them.
  ghost predicate Covers(existing: seq<Rate>, current: seq<Rate>, updates: seq<Rate>, evaluatedAt: int) {
    && (forall u :: u in updates ==> Entered(current, u))
    && (forall i :: |existing| <= i < |current| ==> ComesFrom(current[i], updates, evaluatedAt))
  }

  // The closures are the stored rates whose end changed.
  ghost predicate Closes(existing: seq<Rate>, current: seq<Rate>, closures: seq<Closure>)
    requires |existing| <= |current|
  {
    && (forall i :: 0 <= i < |existing| && current[i] != existing[i] ==>
          current[i].to.Some? && Closure(IdOf(existing[i]), current[i].to.value) in closures)
    && (forall c :: c in closures ==> exists i :: 0 <= i < |existing| && IdOf(existing[i]) == c.id && current[i] != existing[i] && current[i].to == Some(c.to))
  }

  // byID knows every rate of the catalog up to when it ends.
  ghost predicate Known(current: seq<Rate>, byID: map<RateId, Rate>) {
    && (forall i :: 0 <= i < |current| ==> IdOf(current[i]) in byID && SameImmutable(current[i], byID[IdOf(current[i])]))
    && (forall id :: id in byID ==> Stored(current, id))
  }

  // ---------- finding the newest rate ----------

  method FindLatest(current: seq<Rate>, u: Rate) returns (latest: int)
    ensures -1 <= latest < |current|
    ensures latest < 0 ==> forall i :: 0 <= i < |current| ==> SeriesOf(current[i]) != SeriesOf(u)
    ensures latest >= 0 ==> SeriesOf(current[latest]) == SeriesOf(u) && Newest(current, latest)
  {
    latest := -1;
    for k := 0 to |current|
      invariant -1 <= latest < k
      invariant latest < 0 ==> forall i :: 0 <= i < k ==> SeriesOf(current[i]) != SeriesOf(u)
      invariant latest >= 0 ==> SeriesOf(current[latest]) == SeriesOf(u) &&
                                forall i :: 0 <= i < k && SeriesOf(current[i]) == SeriesOf(u) ==> current[i].from <= current[latest].from
    {
      if SeriesOf(current[k]) != SeriesOf(u) {
        continue;
      }
      if latest < 0 || current[k].from > current[latest].from {
        latest := k;
      }
    }
  }

  lemma IdsDiffer(rates: seq<Rate>, i: nat, j: nat)
    requires WellFormed(rates) && i < |rates| && j < |rates| && IdOf(rates[i]) == IdOf(rates[j])
    ensures i == j
  {}

  // ---------- an update that is stored already ----------

  lemma ComesFromMore(r: Rate, updates: seq<Rate>, u: Rate, evaluatedAt: int)
    requires ComesFrom(r, updates, evaluatedAt)
    ensures ComesFrom(r, updates + [u], evaluatedAt)
  {
    var v :| v in updates && r == Stamped(v, evaluatedAt).(to := r.to);
    assert v in updates + [u];
  }

  // ---------- a new update ----------

  // The catalog after u is appended and the newest rate of its series, if any, is closed.
  function Appended(current: seq<Rate>, latest: int, u: Rate): seq<Rate>
    requires -1 <= latest < |current|
  {
    (if latest < 0 then current else current[latest := current[latest].(to := Some(u.from))]) + [u]
  }

  ghost predicate Appendable(current: seq<Rate>, latest: int, u: Rate) {
    && -1 <= latest < |current| && u.to.None?
    && (latest < 0 ==> forall i :: 0 <= i < |current| ==> SeriesOf(current[i]) != SeriesOf(u))
    && (latest >= 0 ==> SeriesOf(current[latest]) == SeriesOf(u) && Newest(current, latest) &&
                        current[latest].from < u.from && current[latest].to.None?)
  }

  lemma AppendedApart(current: seq<Rate>, latest: int, u: Rate, i: nat, j: nat)
    requires WellFormed(current) && Appendable(current, latest, u) && i < j <= |current|
    ensures Apart(Appended(current, latest, u)[i], Appended(current, latest, u)[j])
  {
    if j < |current| {
      assert Apart(current[i], current[j]);
    } else if latest >= 0 && i != latest && SeriesOf(current[i]) == SeriesOf(u) {
      assert if i < latest then Apart(current[i], current[latest]) else Apart(current[latest], current[i]);
    }
  }

  lemma AppendedWellFormed(current: seq<Rate>, latest: int, u: Rate)
    requires WellFormed(current) && Appendable(current, latest, u)
    ensures WellFormed(Appended(current, latest, u))
  {
    var after := Appended(current, latest, u);
    forall i: nat, j: nat | i < j < |after| ensures Apart(after[i], after[j]) {
      AppendedApart(current, latest, u, i, j);
    }
  }

  lemma StillStarts(current: seq<Rate>, latest: int, u: Rate, n: nat, series: Series, t: int)
    requires -1 <= latest < |current| && n <= |current| && StartsAt(current, n, series, t)
    ensures StartsAt(Appended(current, latest, u), n, series, t)
  {
    var after := Appended(current, latest, u);
    var j :| n <= j < |current| && SeriesOf(current[j]) == series && current[j].from == t;
    assert SeriesOf(after[j]) == series && after[j].from == t;
  }

  lemma NowStarts(current: seq<Rate>, latest: int, u: Rate, n: nat)
    requires -1 <= latest < |current| && n <= |current|
    ensures StartsAt(Appended(current, latest, u), n, SeriesOf(u), u.from)
  {
    assert Appended(current, latest, u)[|current|] == u;
  }

  lemma AppendedExtends(existing: seq<Rate>, current: seq<Rate>, latest: int, u: Rate)
    requires Extends(existing, current) && Appendable(current, latest, u)
    ensures Extends(existing, Appended(current, latest, u))
  {
    var after := Appended(current, latest, u);
    forall i: nat | i < |existing| ensures KeptOrClosed(existing[i], after, |existing|, i) {
      assert KeptOrClosed(existing[i], current, |existing|, i);
      if i == latest {
        NowStarts(current, latest, u, |existing|);
      } else if current[i] != existing[i] {
        StillStarts(current, latest, u, |existing|, SeriesOf(existing[i]), current[i].to.value);
      }
    }
  }

  lemma AppendedSucceeded(existing: seq<Rate>, current: seq<Rate>, latest: int, u: Rate)
    requires |existing| <= |current| && Succeeded(existing, current) && Appendable(current, latest, u)
    ensures Succeeded(existing, Appended(current, latest, u))
  {
    var after := Appended(current, latest, u);
    forall i | |existing| <= i < |after| && after[i].to.Some?
      ensures StartsAt(after, |existing|, SeriesOf(after[i]), after[i].to.value)
    {
      if i == latest {
        NowStarts(current, latest, u, |existing|);
      } else {
        StillStarts(current, latest, u, |existing|, SeriesOf(current[i]), current[i].to.value);
      }
    }
  }

  lemma NewestStored(existing: seq<Rate>, current: seq<Rate>, latest: nat, i: nat)
    requires WellFormed(current) && Extends(existing, current) && latest < |existing| && Newest(current, latest)
    requires Newest(existing, i) && SeriesOf(existing[i]) == SeriesOf(current[latest])
    ensures i == latest
  {
    assert KeptOrClosed(existing[i], current, |existing|, i) && KeptOrClosed(existing[latest], current, |existing|, latest);
  }

  lemma AppendedFollows(existing: seq<Rate>, current: seq<Rate>, latest: int, u: Rate)
    requires WellFormed(current) && Extends(existing, current) && AllFollow(existing, current) && Appendable(current, latest, u)
    ensures Follows(existing, u)
  {
    forall i: nat | i < |existing| && SeriesOf(existing[i]) == SeriesOf(u) ensures existing[i].from < u.from {
      assert KeptOrClosed(existing[i], current, |existing|, i);
    }
    forall i: nat | Newest(existing, i) && SeriesOf(existing[i]) == SeriesOf(u) ensures existing[i].to.None? {
      assert KeptOrClosed(existing[i], current, |existing|, i);
      if latest < |existing| {
        NewestStored(existing, current, latest, i);
      } else {
        assert Follows(existing, current[latest]);
      }
    }
  }

  lemma AppendedAllFollow(existing: seq<Rate>, current: seq<Rate>, latest: int, u: Rate)
    requires AllFollow(existing, current) && |existing| <= |current| && Follows(existing, u) && Appendable(current, latest, u)
    ensures AllFollow(existing, Appended(current, latest, u))
  {
    var after := Appended(current, latest, u);
    forall i | |existing| <= i < |after| ensures Follows(existing, after[i]) {
      if i < |current| {
        assert Follows(existing, current[i]);
      }
    }
  }

  lemma StillEntered(current: seq<Rate>, latest: int, u: Rate, v: Rate)
    requires -1 <= latest < |current| && Entered(current, v)
    ensures Entered(Appended(current, latest, u), v)
  {
    var i :| 0 <= i < |current| && SameImmutable(current[i], v);
    assert SameImmutable(Appended(current, latest, u)[i], v);
  }

  lemma AppendedCovers(existing: seq<Rate>, current: seq<Rate>, latest: int, u: Rate, updates: seq<Rate>, evaluatedAt: int)
    requires Covers(existing, current, updates, evaluatedAt) && Appendable(current, latest, Stamped(u, evaluatedAt))
    requires |existing| <= |current|
    ensures Covers(existing, Appended(current, latest, Stamped(u, evaluatedAt)), updates + [u], evaluatedAt)
  {
    var after := Appended(current, latest, Stamped(u, evaluatedAt));
    forall v | v in updates + [u] ensures Entered(after, v) {
      if v in updates {
        StillEntered(current, latest, Stamped(u, evaluatedAt), v);
      } else {
        assert SameImmutable(after[|current|], v);
      }
    }
    forall i | |existing| <= i < |after| ensures ComesFrom(after[i], updates + [u], evaluatedAt) {
      if i < |current| {
        ComesFromMore(current[i], updates, u, evaluatedAt);
      } else {
        assert u in updates + [u];
      }
    }
  }

  lemma AppendedCloses(existing: seq<Rate>, current: seq<Rate>, latest: int, u: Rate, closures: seq<Closure>)
    requires Extends(existing, current) && Closes(existing, current, closures) && Appendable(current, latest, u)
    ensures var closures' := if 0 <= latest < |existing| then closures + [Closure(IdOf(current[latest]), u.from)] else closures;
            Closes(existing, Appended(current, latest, u), closures')
  {
    var after := Appended(current, latest, u);
    if 0 <= latest < |existing| {
      ClosesOneMore(existing, current, latest, u, closures);
    } else {
      assert forall i :: 0 <= i < |existing| ==> after[i] == current[i];
    }
  }

  lemma ClosesOneMore(existing: seq<Rate>, current: seq<Rate>, latest: nat, u: Rate, closures: seq<Closure>)
    requires Extends(existing, current) && Closes(existing, current, closures) && Appendable(current, latest, u) && latest < |existing|
    ensures Closes(existing, Appended(current, latest, u), closures + [Closure(IdOf(current[latest]), u.from)])
  {
    var after, last := Appended(current, latest, u), Closure(IdOf(current[latest]), u.from);
    assert KeptOrClosed(existing[latest], current, |existing|, latest);
    forall c | c in closures + [last]
      ensures exists i :: 0 <= i < |existing| && IdOf(existing[i]) == c.id && after[i] != existing[i] && after[i].to == Some(c.to)
    {
      if c in closures {
        var i :| 0 <= i < |existing| && IdOf(existing[i]) == c.id && current[i] != existing[i] && current[i].to == Some(c.to);
        assert i != latest;
        assert after[i] == current[i];
      } else {
        assert IdOf(existing[latest]) == c.id && after[latest] != existing[latest] && after[latest].to == Some(c.to);
      }
    }
    forall i | 0 <= i < |existing| && after[i] != existing[i]
      ensures after[i].to.Some? && Closure(IdOf(existing[i]), after[i].to.value) in closures + [last]
    {
      if i != latest {
        assert after[i] == current[i];
      }
    }
  }

  lemma AppendedKnown(current: seq<Rate>, latest: int, u: Rate, byID: map<RateId, Rate>)
    requires Known(current, byID) && Appendable(current, latest, u) && IdOf(u) !in byID
    ensures Known(Appended(current, latest, u), byID[IdOf(u) := u])
  {
    var after, byID' := Appended(current, latest, u), byID[IdOf(u) := u];
    forall i | 0 <= i < |after| ensures IdOf(after[i]) in byID' && SameImmutable(after[i], byID'[IdOf(after[i])]) {
      if i < |current| {
        assert IdOf(after[i]) == IdOf(current[i]);
      }
    }
    forall id | id in byID' ensures Stored(after, id) {
      if id in byID {
        var i :| 0 <= i < |current| && IdOf(current[i]) == id;
        assert IdOf(after[i]) == id;
      } else {
        assert IdOf(after[|current|]) == id;
      }
    }
  }

  // ---------- the loop ----------

  datatype State = State(current: seq<Rate>, byID: map<RateId, Rate>, closures: seq<Closure>, inserts: seq<Rate>)

  // Updates the catalog holds already change nothing.
  ghost predicate Quiet(existing: seq<Rate>, s: State, updates: seq<Rate>) {
    (forall u :: u in updates ==> Entered(existing, u)) ==> s.current == existing && s.closures == []
  }

  ghost predicate Planning(existing: seq<Rate>, s: State, updates: seq<Rate>, evaluatedAt: int) {
    && Grown(existing, s.current, s.inserts) && Succeeded(existing, s.current) && AllFollow(existing, s.current)
    && Covers(existing, s.current, updates, evaluatedAt) && Closes(existing, s.current, s.closures)
    && Known(s.current, s.byID) && Quiet(existing, s, updates)
  }

  lemma StoredStays(existing: seq<Rate>, current: seq<Rate>, u: Rate)
    requires Extends(existing, current) && Entered(existing, u)
    ensures Stored(current, IdOf(u))
  {
    var i: nat :| i < |existing| && SameImmutable(existing[i], u);
    assert KeptOrClosed(existing[i], current, |existing|, i);
    assert IdOf(current[i]) == IdOf(u);
  }

  lemma QuietAppended(existing: seq<Rate>, s: State, s': State, updates: seq<Rate>, u: Rate)
    requires Extends(existing, s.current) && !Stored(s.current, IdOf(u))
    ensures Quiet(existing, s', updates + [u])
  {
    if Entered(existing, u) {
      StoredStays(existing, s.current, u);
    }
    assert u in updates + [u];
  }

  method IdsOf(rates: seq<Rate>) returns (byID: map<RateId, Rate>, storedIDs: set<RateId>)
    requires WellFormed(rates)
    ensures Known(rates, byID)
    ensures forall id :: id in storedIDs <==> Stored(rates, id)
  {
    byID, storedIDs := map[], {};
    for k := 0 to |rates|
      invariant forall i :: 0 <= i < k ==> IdOf(rates[i]) in byID && byID[IdOf(rates[i])] == rates[i]
      invariant forall id :: id in byID ==> exists i :: 0 <= i < k && IdOf(rates[i]) == id
      invariant storedIDs == byID.Keys
    {
      forall i: nat | i < k ensures IdOf(rates[i]) != IdOf(rates[k]) {
        assert Apart(rates[i], rates[k]);
      }
      byID, storedIDs := byID[IdOf(rates[k]) := rates[k]], storedIDs + {IdOf(rates[k])};
    }
  }

  // The search through plan.Inserts for the rate to close.
  method CloseInsert(inserts: seq<Rate>, id: RateId, t: int, ghost at: nat) returns (r: seq<Rate>)
    requires at < |inserts| && IdOf(inserts[at]) == id && forall i :: 0 <= i < at ==> IdOf(inserts[i]) != id
    ensures r == inserts[at := inserts[at].(to := Some(t))]
  {
    var k := 0;
    while IdOf(inserts[k]) != id
      invariant 0 <= k <= at
      decreases at - k
    {
      k := k + 1;
    }
    r := inserts[k := inserts[k].(to := Some(t))];
  }

  lemma LatestAmongInserts(existing: seq<Rate>, current: seq<Rate>, inserts: seq<Rate>, latest: nat)
    requires Grown(existing, current, inserts) && |existing| <= latest < |current|
    ensures latest - |existing| < |inserts| && IdOf(inserts[latest - |existing|]) == IdOf(current[latest])
    ensures forall i :: 0 <= i < latest - |existing| ==> IdOf(inserts[i]) != IdOf(current[latest])
    ensures !Stored(existing, IdOf(current[latest]))
  {
    forall i: nat | i < latest ensures IdOf(current[i]) != IdOf(current[latest]) {
      assert Apart(current[i], current[latest]);
    }
    forall i: nat | i < |existing| ensures IdOf(existing[i]) != IdOf(current[latest]) {
      assert KeptOrClosed(existing[i], current, |existing|, i);
    }
  }

  lemma LatestIsStored(existing: seq<Rate>, current: seq<Rate>, latest: nat)
    requires Extends(existing, current) && latest < |existing|
    ensures Stored(existing, IdOf(current[latest]))
  {
    assert KeptOrClosed(existing[latest], current, |existing|, latest);
    assert IdOf(existing[latest]) == IdOf(current[latest]);
  }

  lemma AppendedGrown(existing: seq<Rate>, s: State, latest: int, u: Rate, inserts': seq<Rate>)
    requires Grown(existing, s.current, s.inserts) && Appendable(s.current, latest, u)
    requires inserts' == if latest >= |existing| then s.inserts[latest - |existing| := s.current[latest].(to := Some(u.from))] else s.inserts
    ensures Grown(existing, Appended(s.current, latest, u), inserts' + [u])
  {
    AppendedWellFormed(s.current, latest, u);
    AppendedExtends(existing, s.current, latest, u);
    var after := Appended(s.current, latest, u);
    assert after[|existing|..] == inserts' + [u];
  }

  // The insertion of one rate: closing the newest of its series, then appending.
  method InsertRate(ghost existing: seq<Rate>, storedIDs: set<RateId>, s: State, latest: int, u: Rate, evaluatedAt: int, ghost done: seq<Rate>)
    returns (s': State)
    requires Planning(existing, s, done, evaluatedAt) && Appendable(s.current, latest, Stamped(u, evaluatedAt)) && IdOf(u) !in s.byID
    requires forall id :: id in storedIDs <==> Stored(existing, id)
    ensures Planning(existing, s', done + [u], evaluatedAt)
  {
    var update := Stamped(u, evaluatedAt);
    var closures, inserts := s.closures, s.inserts;
    if latest >= 0 {
      closures, inserts := CloseLatest(existing, storedIDs, s, latest, update.from);
    }
    AppendedGrown(existing, s, latest, update, inserts);
    var current := if latest >= 0 then s.current[latest := s.current[latest].(to := Some(update.from))] else s.current;
    s' := State(current + [update], s.byID[IdOf(update) := update], closures, inserts + [update]);
    AppendedPlanning(existing, s, latest, u, evaluatedAt, done, s');
  }

  // A stored rate gets a closure, a planned one is closed in the plan.
  method CloseLatest(ghost existing: seq<Rate>, storedIDs: set<RateId>, s: State, latest: nat, closedAt: int)
    returns (closures: seq<Closure>, inserts: seq<Rate>)
    requires Grown(existing, s.current, s.inserts) && latest < |s.current|
    requires forall id :: id in storedIDs <==> Stored(existing, id)
    ensures closures == if latest < |existing| then s.closures + [Closure(IdOf(s.current[latest]), closedAt)] else s.closures
    ensures inserts == if latest >= |existing| then s.inserts[latest - |existing| := s.current[latest].(to := Some(closedAt))] else s.inserts
  {
    closures, inserts := s.closures, s.inserts;
    if latest < |existing| {
      LatestIsStored(existing, s.current, latest);
    } else {
      LatestAmongInserts(existing, s.current, s.inserts, latest);
    }
    if IdOf(s.current[latest]) in storedIDs {
      closures := closures + [Closure(IdOf(s.current[latest]), closedAt)];
    } else {
      inserts := CloseInsert(inserts, IdOf(s.current[latest]), closedAt, latest - |existing|);
    }
  }

  lemma AppendedPlanning(existing: seq<Rate>, s: State, latest: int, u: Rate, evaluatedAt: int, done: seq<Rate>, s': State)
    requires Planning(existing, s, done, evaluatedAt) && Appendable(s.current, latest, Stamped(u, evaluatedAt)) && IdOf(u) !in s.byID
    requires s'.current == Appended(s.current, latest, Stamped(u, evaluatedAt))
    requires s'.byID == s.byID[IdOf(u) := Stamped(u, evaluatedAt)]
    requires s'.closures == if 0 <= latest < |existing| then s.closures + [Closure(IdOf(s.current[latest]), u.from)] else s.closures
    requires Grown(existing, s'.current, s'.inserts)
    ensures Planning(existing, s', done + [u], evaluatedAt)
  {
    var update := Stamped(u, evaluatedAt);
    AppendedSucceeded(existing, s.current, latest, update);
    AppendedFollows(existing, s.current, latest, update);
    AppendedAllFollow(existing, s.current, latest, update);
    AppendedCovers(existing, s.current, latest, u, done, evaluatedAt);
    AppendedCloses(existing, s.current, latest, update, s.closures);
    AppendedKnown(s.current, latest, update, s.byID);
    QuietAppended(existing, s, s', done, u);
  }

  // ---------- why a manifest is refused ----------

  // One update that is new and does not follow what is stored refuses the whole manifest.
  lemma Refused(existing: seq<Rate>, u: Rate, manifest: seq<Rate>, evaluatedAt: int)
    requires u in manifest && !Stored(existing, IdOf(u)) && !Follows(existing, u)
    ensures !Accepted(existing, manifest, evaluatedAt)
  {
  }

  lemma InvalidRefused(existing: seq<Rate>, u: Rate, manifest: seq<Rate>, evaluatedAt: int)
    requires u in manifest && !ValidRate(u, evaluatedAt)
    ensures !Accepted(existing, manifest, evaluatedAt)
  {
  }

  // The newest rate of the series stands in the way of u.
  method CheckLatest(existing: seq<Rate>, s: State, latest: nat, updates: seq<Rate>, k: nat, evaluatedAt: int, ghost manifest: seq<Rate>)
    returns (failure: Option<Failure>)
    requires k < |updates| && InOrder(updates) && Planning(existing, s, updates[..k], evaluatedAt) && IdOf(updates[k]) !in s.byID
    requires latest < |s.current| && Newest(s.current, latest) && SeriesOf(s.current[latest]) == SeriesOf(updates[k])
    requires forall u :: u in updates <==> u in manifest
    ensures failure.None? ==> s.current[latest].from < updates[k].from && s.current[latest].to.None?
    ensures failure.Some? ==> !Accepted(existing, manifest, evaluatedAt)
  {
    var u := updates[k];
    assert u in updates;
    if u.from <= s.current[latest].from {
      HistoricalRefused(existing, s, updates, k, latest, evaluatedAt);
      Refused(existing, u, manifest, evaluatedAt);
      return Some(Historical);
    }
    if s.current[latest].to.Some? {
      ClosedRefused(existing, s, updates[..k], u, latest, evaluatedAt);
      Refused(existing, u, manifest, evaluatedAt);
      return Some(LatestClosed);
    }
    failure := None;
  }

  lemma ClashRefused(existing: seq<Rate>, s: State, done: seq<Rate>, u: Rate, manifest: seq<Rate>, evaluatedAt: int)
    requires Planning(existing, s, done, evaluatedAt) && u in manifest && forall v :: v in done ==> v in manifest
    requires IdOf(u) in s.byID && !SameImmutable(s.byID[IdOf(u)], Stamped(u, evaluatedAt))
    ensures !Accepted(existing, manifest, evaluatedAt)
  {
    var i :| 0 <= i < |s.current| && IdOf(s.current[i]) == IdOf(u);
    assert !SameImmutable(s.current[i], u);
    if i < |existing| {
      StoredClash(existing, s.current, i, u, manifest);
    } else {
      assert ComesFrom(s.current[i], done, evaluatedAt);
      PlannedClash(existing, s.current[i], done, u, manifest, evaluatedAt);
    }
  }

  lemma StoredClash(existing: seq<Rate>, current: seq<Rate>, i: nat, u: Rate, manifest: seq<Rate>)
    requires Extends(existing, current) && i < |existing| && u in manifest
    requires IdOf(current[i]) == IdOf(u) && !SameImmutable(current[i], u)
    ensures !NoClash(existing, manifest)
  {
    assert KeptOrClosed(existing[i], current, |existing|, i);
    assert existing[i] in existing && IdOf(u) == IdOf(existing[i]) && !SameImmutable(u, existing[i]);
  }

  lemma PlannedClash(existing: seq<Rate>, r: Rate, done: seq<Rate>, u: Rate, manifest: seq<Rate>, evaluatedAt: int)
    requires ComesFrom(r, done, evaluatedAt) && u in manifest && forall v :: v in done ==> v in manifest
    requires IdOf(r) == IdOf(u) && !SameImmutable(r, u)
    ensures !NoClash(existing, manifest)
  {
    var v :| v in done && r == Stamped(v, evaluatedAt).(to := r.to);
    assert v in manifest && IdOf(u) == IdOf(v) && !SameImmutable(u, v);
  }

  lemma NewIsNotLater(existing: seq<Rate>, current: seq<Rate>, updates: seq<Rate>, k: nat, latest: nat, evaluatedAt: int)
    requires k < |updates| && InOrder(updates) && Covers(existing, current, updates[..k], evaluatedAt)
    requires |existing| <= latest < |current| && SeriesOf(current[latest]) == SeriesOf(updates[k])
    ensures current[latest].from <= updates[k].from
  {
    assert ComesFrom(current[latest], updates[..k], evaluatedAt);
    var v :| v in updates[..k] && current[latest] == Stamped(v, evaluatedAt).(to := current[latest].to);
  }

  // The newest rate of the series is not older than the update: it must have been stored before.
  lemma HistoricalRefused(existing: seq<Rate>, s: State, updates: seq<Rate>, k: nat, latest: nat, evaluatedAt: int)
    requires k < |updates| && InOrder(updates) && Planning(existing, s, updates[..k], evaluatedAt) && IdOf(updates[k]) !in s.byID
    requires latest < |s.current| && SeriesOf(s.current[latest]) == SeriesOf(updates[k])
    requires updates[k].from <= s.current[latest].from
    ensures !Stored(existing, IdOf(updates[k])) && !Follows(existing, updates[k])
  {
    assert IdOf(s.current[latest]) != IdOf(updates[k]);
    if latest >= |existing| {
      NewIsNotLater(existing, s.current, updates, k, latest, evaluatedAt);
    } else {
      assert KeptOrClosed(existing[latest], s.current, |existing|, latest);
      assert SeriesOf(existing[latest]) == SeriesOf(updates[k]) && existing[latest].from >= updates[k].from;
    }
  }

  // The newest rate of the series is closed: it was stored that way.
  lemma ClosedRefused(existing: seq<Rate>, s: State, done: seq<Rate>, u: Rate, latest: nat, evaluatedAt: int)
    requires Planning(existing, s, done, evaluatedAt) && IdOf(u) !in s.byID
    requires Newest(s.current, latest) && SeriesOf(s.current[latest]) == SeriesOf(u) && s.current[latest].to.Some?
    ensures !Stored(existing, IdOf(u)) && !Follows(existing, u)
  {
    if latest < |existing| {
      StoredNewest(existing, s.current, latest);
      assert Newest(existing, latest) && SeriesOf(existing[latest]) == SeriesOf(u) && existing[latest].to.Some?;
    }
  }

  lemma StoredNewest(existing: seq<Rate>, current: seq<Rate>, latest: nat)
    requires Extends(existing, current) && latest < |existing| && Newest(current, latest)
    requires current[latest].to.Some? && !StartsAt(current, |existing|, SeriesOf(current[latest]), current[latest].to.value)
    ensures Newest(existing, latest) && existing[latest] == current[latest]
  {
    assert KeptOrClosed(existing[latest], current, |existing|, latest);
    forall j: nat | j < |existing| && SeriesOf(existing[j]) == SeriesOf(existing[latest]) ensures existing[j].from <= existing[latest].from {
      assert KeptOrClosed(existing[j], current, |existing|, j);
      assert SeriesOf(current[j]) == SeriesOf(current[latest]);
    }
  }

  // ---------- why a plan was acceptable ----------

  lemma PlannedFollows(existing: seq<Rate>, current: seq<Rate>, updates: seq<Rate>, u: Rate, evaluatedAt: int)
    requires Extends(existing, current) && AllFollow(existing, current) && Covers(existing, current, updates, evaluatedAt)
    requires u in updates && !Stored(existing, IdOf(u))
    ensures Follows(existing, u)
  {
    assert Entered(current, u);
    var i: nat :| i < |current| && SameImmutable(current[i], u);
    if i < |existing| {
      LatestIsStored(existing, current, i);
    } else {
      assert Follows(existing, current[i]);
    }
  }

  // Two rates of a plan's catalog with one id are one rate, so two updates with one id agree, and with what was stored.
  lemma PlannedNoClash(existing: seq<Rate>, current: seq<Rate>, manifest: seq<Rate>)
    requires Extends(existing, current) && NoClash(current, manifest)
    ensures NoClash(existing, manifest)
  {
    forall u, r | u in manifest && r in existing && IdOf(u) == IdOf(r) ensures SameImmutable(u, r) {
      var i: nat :| i < |existing| && existing[i] == r;
      assert KeptOrClosed(existing[i], current, |existing|, i);
      assert current[i] in current && IdOf(current[i]) == IdOf(r);
    }
  }

  lemma PlannedAccepted(existing: seq<Rate>, s: State, updates: seq<Rate>, manifest: seq<Rate>, evaluatedAt: int)
    requires Planning(existing, s, updates, evaluatedAt) && evaluatedAt != 0
    requires forall u :: u in updates <==> u in manifest
    requires forall u :: u in updates ==> ValidRate(u, evaluatedAt)
    ensures Accepted(existing, manifest, evaluatedAt)
  {
    NoClashAgain(s.current, manifest);
    PlannedNoClash(existing, s.current, manifest);
    forall u | u in manifest && !Stored(existing, IdOf(u)) ensures Follows(existing, u) {
      PlannedFollows(existing, s.current, updates, u, evaluatedAt);
    }
  }

  // ---------- PlanRateManifestUpdate ----------

  // What a plan makes of the catalog: the manifest is in it, every stored rate is kept up to a closure, nothing else is new.
  ghost predicate Updates(existing: seq<Rate>, plan: Plan, after: seq<Rate>, manifest: seq<Rate>, evaluatedAt: int) {
    && Grown(existing, after, plan.inserts) && Closes(existing, after, plan.closures)
    && Covers(existing, after, manifest, evaluatedAt) && Succeeded(existing, after)
  }

  lemma CoversMore(existing: seq<Rate>, current: seq<Rate>, updates: seq<Rate>, more: seq<Rate>, evaluatedAt: int)
    requires Covers(existing, current, updates, evaluatedAt)
    requires (forall v :: v in updates ==> v in more) && forall v :: v in more ==> Entered(current, v)
    ensures Covers(existing, current, more, evaluatedAt)
  {
    forall i | |existing| <= i < |current| ensures ComesFrom(current[i], more, evaluatedAt) {
      assert ComesFrom(current[i], updates, evaluatedAt);
      var v :| v in updates && current[i] == Stamped(v, evaluatedAt).(to := current[i].to);
      assert v in more;
    }
  }

  // An update that is in the catalog already needs no step.
  lemma KnownPlanned(existing: seq<Rate>, s: State, done: seq<Rate>, u: Rate, evaluatedAt: int)
    requires Planning(existing, s, done, evaluatedAt)
    requires IdOf(u) in s.byID && SameImmutable(s.byID[IdOf(u)], Stamped(u, evaluatedAt))
    ensures Planning(existing, s, done + [u], evaluatedAt)
  {
    assert Entered(s.current, u);
    CoversMore(existing, s.current, done, done + [u], evaluatedAt);
    assert forall v :: v in done ==> v in done + [u];
  }

  lemma PlannedUpdates(existing: seq<Rate>, s: State, updates: seq<Rate>, manifest: seq<Rate>, evaluatedAt: int)
    requires Planning(existing, s, updates, evaluatedAt) && forall u :: u in updates <==> u in manifest
    ensures Updates(existing, Plan(s.closures, s.inserts), s.current, manifest, evaluatedAt)
    ensures (forall u :: u in manifest ==> Entered(existing, u)) ==> s.closures == [] && s.inserts == []
  {
    CoversMore(existing, s.current, updates, manifest, evaluatedAt);
  }

  // An update that is new to the catalog is appended, unless the newest rate of its series is in the way.
  method PlanNew(existing: seq<Rate>, s: State, storedIDs: set<RateId>, updates: seq<Rate>, k: nat, evaluatedAt: int, ghost manifest: seq<Rate>)
    returns (s': State, failure: Option<Failure>)
    requires k < |updates| && InOrder(updates) && Planning(existing, s, updates[..k], evaluatedAt) && ValidRate(updates[k], evaluatedAt)
    requires IdOf(updates[k]) !in s.byID && forall id :: id in storedIDs <==> Stored(existing, id)
    requires forall u :: u in updates <==> u in manifest
    ensures failure.None? ==> Planning(existing, s', updates[..k] + [updates[k]], evaluatedAt)
    ensures failure.Some? ==> !Accepted(existing, manifest, evaluatedAt)
  {
    s', failure := s, None;
    var latest := FindLatest(s.current, Stamped(updates[k], evaluatedAt));
    if latest >= 0 {
      failure := CheckLatest(existing, s, latest, updates, k, evaluatedAt, manifest);
      if failure.Some? {
        return;
      }
    }
    s' := InsertRate(existing, storedIDs, s, latest, updates[k], evaluatedAt, updates[..k]);
  }

  lemma TakeNext(updates: seq<Rate>, k: nat)
    requires k < |updates|
    ensures updates[..k + 1] == updates[..k] + [updates[k]] && updates[k] in updates
    ensures forall u :: u in updates[..k] ==> u in updates
  {
  }

  method PlanUpdate(existing: seq<Rate>, s: State, storedIDs: set<RateId>, updates: seq<Rate>, k: nat, evaluatedAt: int, ghost manifest: seq<Rate>)
    returns (s': State, failure: Option<Failure>)
    requires k < |updates| && InOrder(updates) && Planning(existing, s, updates[..k], evaluatedAt) && evaluatedAt != 0
    requires forall id :: id in storedIDs <==> Stored(existing, id)
    requires forall u :: u in updates <==> u in manifest
    ensures failure.None? ==> ValidRate(updates[k], evaluatedAt) && Planning(existing, s', updates[..k + 1], evaluatedAt)
    ensures failure.Some? ==> !Accepted(existing, manifest, evaluatedAt)
  {
    var u := updates[k];
    TakeNext(updates, k);
    s', failure := s, None;
    if !ValidRate(u, evaluatedAt) {
      InvalidRefused(existing, u, manifest, evaluatedAt);
      return s, Some(InvalidRate);
    }
    var update := Stamped(u, evaluatedAt);
    if IdOf(update) in s.byID {
      if !SameImmutable(s.byID[IdOf(update)], update) {
        ClashRefused(existing, s, updates[..k], u, manifest, evaluatedAt);
        return s, Some(DiffersFromStored);
      }
      KnownPlanned(existing, s, updates[..k], u, evaluatedAt);
      return;
    }
    s', failure := PlanNew(existing, s, storedIDs, updates, k, evaluatedAt, manifest);
  }

  method PlanRateManifestUpdate(existing: seq<Rate>, manifest: seq<Rate>, evaluatedAt: int) returns (outcome: Outcome, ghost after: seq<Rate>)
    requires WellFormed(existing)
    ensures outcome.Planned? <==> Accepted(existing, manifest, evaluatedAt)
    ensures outcome.Planned? ==> Updates(existing, outcome.plan, after, manifest, evaluatedAt)
    ensures outcome.Planned? && (forall u :: u in manifest ==> Entered(existing, u)) ==> outcome.plan == Plan([], [])
  {
    after := existing;
    if evaluatedAt == 0 {
      return Failed(MissingEvaluation), existing;
    }
    var byID, storedIDs := IdsOf(existing);
    var updates := SortUpdates(manifest);
    var s := State(existing, byID, [], []);
    for k := 0 to |updates|
      invariant Planning(existing, s, updates[..k], evaluatedAt)
      invariant forall i :: 0 <= i < k ==> ValidRate(updates[i], evaluatedAt)
    {
      var failure;
      s, failure := PlanUpdate(existing, s, storedIDs, updates, k, evaluatedAt, manifest);
      if failure.Some? {
        return Failed(failure.value), existing;
      }
    }
    assert updates[..|updates|] == updates;
    PlannedAccepted(existing, s, updates, manifest, evaluatedAt);
    PlannedUpdates(existing, s, updates, manifest, evaluatedAt);
    outcome, after := Planned(Plan(s.closures, s.inserts)), s.current;
  }

  lemma AcceptedAgain(existing: seq<Rate>, plan: Plan, after: seq<Rate>, manifest: seq<Rate>, evaluatedAt: int, later: int)
    requires Accepted(existing, manifest, evaluatedAt) && Updates(existing, plan, after, manifest, evaluatedAt)
    requires evaluatedAt <= later && later != 0
    ensures Accepted(after, manifest, later)
  {
    forall u | u in manifest ensures Entered(after, u) && Stored(after, IdOf(u)) {
      var i: nat :| i < |after| && SameImmutable(after[i], u);
      assert IdOf(after[i]) == IdOf(u);
    }
    NoClashAgain(after, manifest);
  }

  lemma NoClashAgain(after: seq<Rate>, manifest: seq<Rate>)
    requires WellFormed(after) && forall u :: u in manifest ==> Entered(after, u)
    ensures NoClash(after, manifest)
  {
    forall u, r | u in manifest && r in after && IdOf(u) == IdOf(r) ensures SameImmutable(u, r) {
      assert Entered(after, u);
      var i: nat :| i < |after| && SameImmutable(after[i], u);
      var j: nat :| j < |after| && after[j] == r;
      IdsDiffer(after, i, j);
    }
    forall u, v | u in manifest && v in manifest && IdOf(u) == IdOf(v) ensures SameImmutable(u, v) {
      assert Entered(after, u) && Entered(after, v);
      var i: nat :| i < |after| && SameImmutable(after[i], u);
      var j: nat :| j < |after| && SameImmutable(after[j], v);
      IdsDiffer(after, i, j);
    }
  }

  /** Planning the same manifest again, on the catalog that storing the first plan gives: the manifest is still
      acceptable, and there is nothing to do. */
  method Replan(existing: seq<Rate>, manifest: seq<Rate>, evaluatedAt: int, later: int)
    returns (first: Outcome, catalog: seq<Rate>, second: Outcome)
    requires WellFormed(existing) && evaluatedAt <= later && later != 0
    ensures first.Planned? <==> Accepted(existing, manifest, evaluatedAt)
    ensures first.Planned? ==> Updates(existing, first.plan, catalog, manifest, evaluatedAt)
    ensures first.Planned? ==> Accepted(catalog, manifest, later) && second == Planned(Plan([], []))
    ensures !first.Planned? ==> catalog == existing && second == first
  {
    ghost var after;
    first, after := PlanRateManifestUpdate(existing, manifest, evaluatedAt);
    catalog, second := existing, first;
    if first.Planned? {
      catalog := Store(existing, first.plan, after, manifest, evaluatedAt);
      AcceptedAgain(existing, first.plan, after, manifest, evaluatedAt, later);
      ghost var unused;
      second, unused := PlanRateManifestUpdate(catalog, manifest, later);
    }
  }

  // Storing a plan: every closure ends its rate, and the new rates are appended.
  method Store(existing: seq<Rate>, plan: Plan, ghost after: seq<Rate>, ghost manifest: seq<Rate>, ghost evaluatedAt: int) returns (catalog: seq<Rate>)
    requires WellFormed(existing) && Updates(existing, plan, after, manifest, evaluatedAt)
    ensures catalog == after
  {
    catalog := [];
    for i := 0 to |existing|
      invariant catalog == after[..i]
    {
      var end := EndOf(existing, plan, after, i);
      EndsThere(existing, plan, after, i, end);
      TakeNext(after, i);
      catalog := catalog + [if end.Some? then existing[i].(to := end) else existing[i]];
    }
    catalog := catalog + plan.inserts;
  }

  method EndOf(existing: seq<Rate>, plan: Plan, ghost after: seq<Rate>, i: nat) returns (end: Option<int>)
    requires i < |existing| <= |after| && Closes(existing, after, plan.closures)
    ensures end.Some? ==> Closure(IdOf(existing[i]), end.value) in plan.closures
    ensures end.None? ==> after[i] == existing[i]
  {
    end := None;
    for k := 0 to |plan.closures|
      invariant forall j :: 0 <= j < k ==> plan.closures[j].id != IdOf(existing[i])
    {
      if plan.closures[k].id == IdOf(existing[i]) {
        return Some(plan.closures[k].to);
      }
    }
  }

  lemma EndsThere(existing: seq<Rate>, plan: Plan, after: seq<Rate>, i: nat, end: Option<int>)
    requires WellFormed(existing) && Extends(existing, after) && i < |existing| && Closes(existing, after, plan.closures)
    requires end.Some? ==> Closure(IdOf(existing[i]), end.value) in plan.closures
    requires end.None? ==> after[i] == existing[i]
    ensures after[i] == if end.Some? then existing[i].(to := end) else existing[i]
  {
    assert KeptOrClosed(existing[i], after, |existing|, i);
    if end.Some? {
      var c := Closure(IdOf(existing[i]), end.value);
      var j: nat :| j < |existing| && IdOf(existing[j]) == c.id && after[j] != existing[j] && after[j].to == Some(c.to);
      IdsDiffer(existing, i, j);
    }
  }

  // Looking up an instant before the first new rate of a provider, model and mode gives what it gave.
  lemma PlanKeepsHistory(q: Query, existing: seq<Rate>, plan: Plan, after: seq<Rate>, manifest: seq<Rate>, evaluatedAt: int)
    requires Updates(existing, plan, after, manifest, evaluatedAt)
    requires forall r :: r in plan.inserts && Asks(q, r) ==> q.at < r.from
    ensures var was, now := Resolve(q, existing), Resolve(q, after);
            if was.Resolved? then now.Resolved? && SameRate(was.rate, now.rate) else now == was
  {
    forall j | |existing| <= j < |after| && Asks(q, after[j]) ensures q.at < after[j].from {
      assert after[j] == plan.inserts[j - |existing|];
    }
    HistoryUnchanged(q, existing, after);
  }
}
