/** A bounded summary of what changed, which may say too much but never too little. */
module Changes {

  // The targets the constructors make.
  datatype ChangeTarget =
    | Overview
    | AllSources
    | Source(source: string)
    | AllSessions
    | Session(source: string, session: string)
    | AllTraces
    | Trace(trace: string)
    | PlanUsage(source: string)

  datatype Kind = OfOverview | OfAllSources | OfSource | OfAllSessions | OfSession | OfAllTraces | OfTrace | OfPlanUsage

  datatype Option<+T> = None | Some(value: T)

  function KindOf(t: ChangeTarget): Kind {
    match t
    case Overview => OfOverview
    case AllSources => OfAllSources
    case Source(_) => OfSource
    case AllSessions => OfAllSessions
    case Session(_, _) => OfSession
    case AllTraces => OfAllTraces
    case Trace(_) => OfTrace
    case PlanUsage(_) => OfPlanUsage
  }

  // exactKind: the kind whose targets a coarse kind stands for.
  function ExactKind(k: Kind): Option<Kind> {
    match k
    case OfAllSources => Some(OfSource)
    case OfAllSessions => Some(OfSession)
    case OfAllTraces => Some(OfTrace)
    case _ => None
  }

  // coarseKind, and the target of that kind
  function CoarseTarget(k: Kind): Option<ChangeTarget> {
    match k
    case OfSource => Some(AllSources)
    case OfSession => Some(AllSessions)
    case OfTrace => Some(AllTraces)
    case _ => None
  }

  predicate IsCoarse(t: ChangeTarget) {
    ExactKind(KindOf(t)).Some?
  }

  predicate AffectsSession(t: ChangeTarget, source: string, session: string) {
    t == AllSessions || t == Session(source, session)
  }

  predicate AffectsTrace(t: ChangeTarget, trace: string) {
    t == AllTraces || t == Trace(trace)
  }

  // ---------- what a summary of some targets owes them ----------

  // v says at least as much as t.
  predicate Covers(v: ChangeTarget, t: ChangeTarget) {
    v == t || CoarseTarget(KindOf(t)) == Some(v) || (t.PlanUsage? && v == Overview)
  }

  ghost predicate Covered(values: set<ChangeTarget>, t: ChangeTarget) {
    exists v :: v in values && Covers(v, t)
  }

  // Nothing added is lost.
  ghost predicate Complete(added: set<ChangeTarget>, values: set<ChangeTarget>) {
    forall t {:trigger Covered(values, t)} :: t in added ==> Covered(values, t)
  }

  ghost predicate Grounded(added: set<ChangeTarget>, v: ChangeTarget) {
    exists t :: t in added && Covers(v, t)
  }

  // Everything kept stands for something added.
  ghost predicate Justified(added: set<ChangeTarget>, values: set<ChangeTarget>) {
    forall v {:trigger Grounded(added, v)} :: v in values ==> Grounded(added, v)
  }

  // A coarse target and an exact one of its family are never kept together.
  ghost predicate NoOverlap(values: set<ChangeTarget>) {
    forall v, t :: v in values && t in values ==> CoarseTarget(KindOf(t)) != Some(v)
  }

  ghost predicate Summarizes(added: set<ChangeTarget>, values: set<ChangeTarget>) {
    Complete(added, values) && Justified(added, values) && NoOverlap(values)
  }

  // A session that an added target affects is affected by a target kept, and likewise a trace.
  lemma NoMissedInvalidation(added: set<ChangeTarget>, values: set<ChangeTarget>, source: string, session: string, trace: string)
    requires Summarizes(added, values)
    ensures (exists t :: t in added && AffectsSession(t, source, session)) ==> exists v :: v in values && AffectsSession(v, source, session)
    ensures (exists t :: t in added && AffectsTrace(t, trace)) ==> exists v :: v in values && AffectsTrace(v, trace)
  {
    if t :| t in added && AffectsSession(t, source, session) {
      assert Covered(values, t);
      var v :| v in values && Covers(v, t);
      assert AffectsSession(v, source, session);
    }
    if t :| t in added && AffectsTrace(t, trace) {
      assert Covered(values, t);
      var v :| v in values && Covers(v, t);
      assert AffectsTrace(v, trace);
    }
  }

  // An "all" target is only kept if its family was added.
  lemma AllOnlyIfAdded(added: set<ChangeTarget>, values: set<ChangeTarget>, all: ChangeTarget)
    requires Summarizes(added, values) && all in values && IsCoarse(all)
    ensures exists t :: t in added && (t == all || Some(KindOf(t)) == ExactKind(KindOf(all)))
  {
    assert Grounded(added, all);
    var t :| t in added && Covers(all, t);
  }

  // Few exact targets are kept as they are.
  ghost predicate Precise(added: set<ChangeTarget>, values: set<ChangeTarget>, limit: nat) {
    |added| <= limit && (forall t :: t in added ==> !IsCoarse(t)) ==> values == added
  }

  // ---------- counting ----------

  function OfKind(values: set<ChangeTarget>, k: Kind): set<ChangeTarget> {
    set v | v in values && KindOf(v) == k
  }

  function Exact(values: set<ChangeTarget>): set<ChangeTarget> {
    set v | v in values && !IsCoarse(v)
  }

  const COARSE: set<ChangeTarget> := {AllSources, AllSessions, AllTraces}

  // Keeping at most limit targets besides the coarse ones keeps at most limit + 3 in all.
  lemma AtMostThreeMore(values: set<ChangeTarget>, limit: nat)
    requires |Exact(values)| <= limit
    ensures |values| <= limit + 3
  {
    var coarse := values - Exact(values);
    assert coarse <= COARSE;
    Within(coarse, COARSE);
    assert values == Exact(values) + coarse;
  }

  lemma Within<T>(a: set<T>, b: set<T>)
    requires a <= b
    ensures |a| <= |b|
  {
    assert b == a + (b - a);
  }

  // ---------- how the parts change the summary ----------

  ghost predicate Counted(values: set<ChangeTarget>, counts: map<Kind, nat>) {
    forall k: Kind :: CountIn(counts, k) == |OfKind(values, k)|
  }

  function CountIn(counts: map<Kind, nat>, k: Kind): nat {
    if k in counts then counts[k] else 0
  }

  lemma CountedWith(values: set<ChangeTarget>, counts: map<Kind, nat>, t: ChangeTarget)
    requires Counted(values, counts) && t !in values
    ensures Counted(values + {t}, counts[KindOf(t) := CountIn(counts, KindOf(t)) + 1])
  {
    var counts' := counts[KindOf(t) := CountIn(counts, KindOf(t)) + 1];
    forall k: Kind ensures CountIn(counts', k) == |OfKind(values + {t}, k)| {
      OfKindWith(values, t, k);
    }
  }

  lemma OfKindWith(values: set<ChangeTarget>, t: ChangeTarget, k: Kind)
    requires t !in values
    ensures |OfKind(values + {t}, k)| == |OfKind(values, k)| + if KindOf(t) == k then 1 else 0
  {
    assert OfKind(values + {t}, k) == OfKind(values, k) + if KindOf(t) == k then {t} else {};
  }

  lemma CountedWithout(values: set<ChangeTarget>, counts: map<Kind, nat>, k: Kind)
    requires Counted(values, counts)
    ensures Counted(values - OfKind(values, k), counts[k := 0])
  {
    forall j: Kind ensures CountIn(counts[k := 0], j) == |OfKind(values - OfKind(values, k), j)| {
      assert OfKind(values - OfKind(values, k), j) == if j == k then {} else OfKind(values, j);
    }
  }

  // Dropping the exact targets of a kind and keeping v, which covers them all, for good measure.
  function Folded(values: set<ChangeTarget>, k: Kind, v: ChangeTarget): set<ChangeTarget> {
    values - OfKind(values, k) + {v}
  }

  ghost predicate Stands(v: ChangeTarget, k: Kind) {
    CoarseTarget(k) == Some(v) || (k.OfPlanUsage? && v == Overview)
  }

  lemma FoldedComplete(added: set<ChangeTarget>, values: set<ChangeTarget>, k: Kind, v: ChangeTarget)
    requires Complete(added, values) && Stands(v, k)
    ensures Complete(added, Folded(values, k, v))
  {
    forall t | t in added ensures Covered(Folded(values, k, v), t) {
      assert Covered(values, t);
      var w :| w in values && Covers(w, t);
      if KindOf(w) == k {
        assert Covers(v, t);
      } else {
        assert w in Folded(values, k, v);
      }
    }
  }

  lemma FoldedJustified(added: set<ChangeTarget>, values: set<ChangeTarget>, k: Kind, v: ChangeTarget)
    requires Justified(added, values) && Stands(v, k) && OfKind(values, k) != {}
    ensures Justified(added, Folded(values, k, v))
  {
    var w :| w in OfKind(values, k);
    assert Grounded(added, w);
    var t :| t in added && Covers(w, t);
    assert Covers(v, t);
    forall x | x in Folded(values, k, v) ensures Grounded(added, x) {
      assert x in values ==> Grounded(added, x);
    }
  }

  lemma FoldedApart(values: set<ChangeTarget>, k: Kind, v: ChangeTarget)
    requires NoOverlap(values) && Stands(v, k)
    ensures NoOverlap(Folded(values, k, v))
  {}

  lemma FoldedKeeps(added: set<ChangeTarget>, values: set<ChangeTarget>, k: Kind, v: ChangeTarget)
    requires Summarizes(added, values) && Stands(v, k) && OfKind(values, k) != {}
    ensures Summarizes(added, Folded(values, k, v))
  {
    FoldedComplete(added, values, k, v);
    FoldedJustified(added, values, k, v);
    FoldedApart(values, k, v);
  }

  lemma CoveredMore(values: set<ChangeTarget>, v: ChangeTarget, t: ChangeTarget)
    requires Covered(values, t)
    ensures Covered(values + {v}, t)
  {
    var w :| w in values && Covers(w, t);
    assert w in values + {v};
  }

  lemma GroundedMore(added: set<ChangeTarget>, t: ChangeTarget, v: ChangeTarget)
    requires Grounded(added, v)
    ensures Grounded(added + {t}, v)
  {
    var u :| u in added && Covers(v, u);
    assert u in added + {t};
  }

  lemma Itself(targets: set<ChangeTarget>, t: ChangeTarget)
    requires t in targets
    ensures Covered(targets, t) && Grounded(targets, t)
  {
    assert Covers(t, t);
  }

  lemma JustifiedMore(added: set<ChangeTarget>, values: set<ChangeTarget>, t: ChangeTarget)
    requires Justified(added, values)
    ensures Justified(added + {t}, values)
  {
    forall v | v in values ensures Grounded(added + {t}, v) {
      GroundedMore(added, t, v);
    }
  }

  // Adding an exact target whose family is not kept as a whole.
  lemma AddedKeeps(added: set<ChangeTarget>, values: set<ChangeTarget>, t: ChangeTarget)
    requires Summarizes(added, values) && !IsCoarse(t)
    requires CoarseTarget(KindOf(t)).Some? ==> CoarseTarget(KindOf(t)).value !in values
    ensures Summarizes(added + {t}, values + {t})
  {
    Itself(added + {t}, t);
    Itself(values + {t}, t);
    forall u | u in added + {t} ensures Covered(values + {t}, u) {
      if u != t {
        CoveredMore(values, t, u);
      }
    }
    JustifiedMore(added, values, t);
    forall v | v in values + {t} ensures Grounded(added + {t}, v) {
      assert v == t || v in values;
    }
    AddedApart(values, t);
  }

  lemma AddedApart(values: set<ChangeTarget>, t: ChangeTarget)
    requires NoOverlap(values) && !IsCoarse(t)
    requires CoarseTarget(KindOf(t)).Some? ==> CoarseTarget(KindOf(t)).value !in values
    ensures NoOverlap(values + {t})
  {}

  // Adding a coarse target drops its family.
  lemma CoarseKeeps(added: set<ChangeTarget>, values: set<ChangeTarget>, t: ChangeTarget)
    requires Summarizes(added, values) && IsCoarse(t)
    ensures Summarizes(added + {t}, Folded(values, ExactKind(KindOf(t)).value, t))
  {
    var k := ExactKind(KindOf(t)).value;
    FoldedComplete(added, values, k, t);
    FoldedApart(values, k, t);
    Itself(added + {t}, t);
    Itself(Folded(values, k, t), t);
    forall u | u in added + {t} ensures Covered(Folded(values, k, t), u) {
      assert u == t || u in added;
    }
    JustifiedMore(added, values, t);
    forall v | v in Folded(values, k, t) ensures Grounded(added + {t}, v) {
      assert v == t || v in values;
    }
  }

  // A target whose family is kept as a whole adds nothing.
  lemma SkippedKeeps(added: set<ChangeTarget>, values: set<ChangeTarget>, t: ChangeTarget)
    requires Summarizes(added, values) && CoarseTarget(KindOf(t)).Some? && CoarseTarget(KindOf(t)).value in values
    ensures Summarizes(added + {t}, values)
  {
    forall u | u in added + {t} ensures Covered(values, u) {
      if u == t {
        assert Covers(CoarseTarget(KindOf(t)).value, t);
      }
    }
    JustifiedMore(added, values, t);
  }

  class ChangeTargetSet {
    const limit: nat
    var values: set<ChangeTarget>
    var coarse: set<Kind>
    var counts: map<Kind, nat>
    ghost var added: set<ChangeTarget>

    // The fields agree with each other.
    ghost predicate Consistent()
      reads this
    {
      && limit >= 1 && Counted(values, counts)
      && forall v :: v in COARSE ==> (KindOf(v) in coarse <==> v in values)
    }

    ghost predicate Sound()
      reads this
    {
      Consistent() && Summarizes(added, values) && |Exact(values)| <= limit
    }

    ghost predicate Valid()
      reads this
    {
      Sound() && Precise(added, values, limit)
    }

    // NewChangeTargetSet
    constructor (limit: int)
      ensures Valid() && added == {} && values == {}
      ensures this.limit == if limit < 1 then 1 else limit
    {
      this.limit := if limit < 1 then 1 else limit;
      values, coarse, counts := {}, {}, map[];
      added := {};
      new;
      assert forall k: Kind :: OfKind({}, k) == {};
      assert Exact({}) == {};
    }

    // addValue
    method AddValue(t: ChangeTarget)
      requires Counted(values, counts)
      modifies this`values, this`counts
      ensures Counted(values, counts) && values == old(values) + {t}
    {
      if t in values {
        return;
      }
      CountedWith(values, counts, t);
      values := values + {t};
      counts := counts[KindOf(t) := CountIn(counts, KindOf(t)) + 1];
    }

    // deleteKind
    method DeleteKind(k: Kind)
      requires Counted(values, counts)
      modifies this`values, this`counts
      ensures Counted(values, counts) && values == old(values) - OfKind(old(values), k)
    {
      CountedWithout(values, counts, k);
      var left := values;
      while left != {}
        invariant left <= old(values) && counts == old(counts)
        invariant values == old(values) - OfKind(old(values) - left, k)
        decreases left
      {
        var t := Pick(left);
        if KindOf(t) == k {
          values := values - {t};
        }
        left := left - {t};
      }
      assert old(values) - {} == old(values);
      counts := counts[k := 0];
    }

    // Drops a kind and keeps the target that stands for it.
    method Fold(k: Kind, v: ChangeTarget)
      requires Consistent() && Summarizes(added, values) && Stands(v, k) && OfKind(values, k) != {}
      modifies this`values, this`counts, this`coarse
      ensures Consistent() && Summarizes(added, values) && values == Folded(old(values), k, v)
    {
      FoldedKeeps(added, values, k, v);
      DeleteKind(k);
      AddValue(v);
      if IsCoarse(v) {
        coarse := coarse + {KindOf(v)};
      }
      assert values == Folded(old(values), k, v);
    }

    // One of the folds of compactAll.
    method FoldIf(has: bool, k: Kind, v: ChangeTarget)
      requires Consistent() && Summarizes(added, values) && Stands(v, k)
      requires has <==> OfKind(values, k) != {}
      modifies this`values, this`counts, this`coarse
      ensures Consistent() && Summarizes(added, values) && values == FoldedIf(old(values), k, v)
    {
      if has {
        Fold(k, v);
      }
    }

    // compactAll
    method CompactAll()
      requires Consistent() && Summarizes(added, values)
      modifies this`values, this`counts, this`coarse
      ensures Consistent() && Summarizes(added, values) && Exact(values) <= {Overview}
      ensures values == Compacted(old(values))
    {
      var hasSource := CountIn(counts, OfSource) > 0;
      var hasSession := CountIn(counts, OfSession) > 0;
      var hasTrace := CountIn(counts, OfTrace) > 0;
      var hasPlan := CountIn(counts, OfPlanUsage) > 0;
      ghost var before := values;
      FoldsApart(before);
      FoldIf(hasSource, OfSource, AllSources);
      FoldIf(hasSession, OfSession, AllSessions);
      FoldIf(hasTrace, OfTrace, AllTraces);
      FoldIf(hasPlan, OfPlanUsage, Overview);
      OnlyOverviewLeft(before);
    }

    // The coarse half of Add.
    method AddCoarse(t: ChangeTarget)
      requires Sound() && IsCoarse(t)
      modifies this
      ensures Sound() && added == old(added) + {t} && values == Next(old(values), limit, t)
    {
      CoarseKeeps(added, values, t);
      CoarseShrinks(values, t);
      DeleteKind(ExactKind(KindOf(t)).value);
      AddValue(t);
      coarse := coarse + {KindOf(t)};
      added := added + {t};
      assert values == Folded(old(values), ExactKind(KindOf(t)).value, t);
    }

    // Replaces the targets of a kind by the target of its family once there are too many.
    method Collapse(t: ChangeTarget)
      requires Consistent() && Summarizes(added, values) && t in values && !IsCoarse(t)
      modifies this`values, this`counts, this`coarse
      ensures Consistent() && Summarizes(added, values) && values == Collapsed(old(values), limit, KindOf(t))
    {
      var all := CoarseTarget(KindOf(t));
      if all.Some? && CountIn(counts, KindOf(t)) > limit {
        assert t in OfKind(values, KindOf(t));
        Fold(KindOf(t), all.value);
      }
    }

    // The exact half of Add, for a family not kept as a whole.
    method AddExact(t: ChangeTarget)
      requires Sound() && !IsCoarse(t)
      requires CoarseTarget(KindOf(t)).Some? ==> CoarseTarget(KindOf(t)).value !in values
      modifies this
      ensures Sound() && added == old(added) + {t} && values == Next(old(values), limit, t)
    {
      AddedKeeps(added, values, t);
      AddValue(t);
      added := added + {t};
      Collapse(t);
      if |values| > limit {
        CompactAll();
        Within(Exact(values), {Overview});
      } else {
        Within(Exact(values), values);
      }
    }

    // The branches of Add.
    method AddTarget(t: ChangeTarget)
      requires Sound()
      modifies this
      ensures Sound() && added == old(added) + {t} && values == Next(old(values), limit, t)
    {
      if IsCoarse(t) {
        AddCoarse(t);
        return;
      }
      var all := CoarseTarget(KindOf(t));
      if all.Some? && KindOf(all.value) in coarse {
        SkippedKeeps(added, values, t);
        added := added + {t};
        return;
      }
      AddExact(t);
    }

    // Add
    method Add(t: ChangeTarget)
      requires Valid()
      modifies this
      ensures Valid() && added == old(added) + {t} && values == Next(old(values), limit, t)
    {
      PreciseNext(added, values, limit, t);
      AddTarget(t);
    }
  }

  lemma CoarseShrinks(values: set<ChangeTarget>, t: ChangeTarget)
    requires IsCoarse(t)
    ensures |Exact(Folded(values, ExactKind(KindOf(t)).value, t))| <= |Exact(values)|
  {
    Within(Exact(Folded(values, ExactKind(KindOf(t)).value, t)), Exact(values));
  }

  function FoldedIf(values: set<ChangeTarget>, k: Kind, v: ChangeTarget): set<ChangeTarget> {
    if OfKind(values, k) == {} then values else Folded(values, k, v)
  }

  function CompactedSources(values: set<ChangeTarget>): set<ChangeTarget> {
    FoldedIf(values, OfSource, AllSources)
  }

  function CompactedSessions(values: set<ChangeTarget>): set<ChangeTarget> {
    FoldedIf(CompactedSources(values), OfSession, AllSessions)
  }

  function CompactedTraces(values: set<ChangeTarget>): set<ChangeTarget> {
    FoldedIf(CompactedSessions(values), OfTrace, AllTraces)
  }

  function Compacted(values: set<ChangeTarget>): set<ChangeTarget> {
    FoldedIf(CompactedTraces(values), OfPlanUsage, Overview)
  }

  function Collapsed(values: set<ChangeTarget>, limit: nat, k: Kind): set<ChangeTarget> {
    if CoarseTarget(k).Some? && |OfKind(values, k)| > limit then Folded(values, k, CoarseTarget(k).value) else values
  }

  // The targets kept once t is added.
  function Next(values: set<ChangeTarget>, limit: nat, t: ChangeTarget): set<ChangeTarget> {
    if IsCoarse(t) then Folded(values, ExactKind(KindOf(t)).value, t)
    else if CoarseTarget(KindOf(t)).Some? && CoarseTarget(KindOf(t)).value in values then values
    else
      var collapsed := Collapsed(values + {t}, limit, KindOf(t));
      if |collapsed| > limit then Compacted(collapsed) else collapsed
  }

  /** What is kept once t is added. A family's target takes the place of the family; a target whose family is kept as a
      whole adds nothing; and as long as what is kept stays within the limit, t is added and nothing is given up. Past the
      limit, t's family gives way to its target where that is enough and the family alone is too large; otherwise nothing
      exact is left but the overview. */
  lemma NextExactly(values: set<ChangeTarget>, limit: nat, t: ChangeTarget)
    ensures ExactKind(KindOf(t)).Some? ==>
              Next(values, limit, t) == (set v | v in values && Some(KindOf(v)) != ExactKind(KindOf(t))) + {t}
    ensures ExactKind(KindOf(t)).None? && CoarseTarget(KindOf(t)).Some? && CoarseTarget(KindOf(t)).value in values ==>
              Next(values, limit, t) == values
    ensures ExactKind(KindOf(t)).None? && (CoarseTarget(KindOf(t)).Some? ==> CoarseTarget(KindOf(t)).value !in values) ==>
              var more := values + {t};
              var family := set v | v in more && KindOf(v) == KindOf(t);
              var all := CoarseTarget(KindOf(t));
              if |more| <= limit then Next(values, limit, t) == more
              else if all.Some? && |family| > limit && |more - family + {all.value}| <= limit then Next(values, limit, t) == more - family + {all.value}
              else forall v :: v in Next(values, limit, t) ==> v == Overview || ExactKind(KindOf(v)).Some?
  {
    if ExactKind(KindOf(t)).Some? {
      FoldsFamily(values, ExactKind(KindOf(t)).value, t);
    } else if CoarseTarget(KindOf(t)).None? || CoarseTarget(KindOf(t)).value !in values {
      NextOfExact(values, limit, t);
    }
  }

  lemma NextOfExact(values: set<ChangeTarget>, limit: nat, t: ChangeTarget)
    requires ExactKind(KindOf(t)).None? && (CoarseTarget(KindOf(t)).Some? ==> CoarseTarget(KindOf(t)).value !in values)
    ensures var more := values + {t};
            var family := set v | v in more && KindOf(v) == KindOf(t);
            var all := CoarseTarget(KindOf(t));
            if |more| <= limit then Next(values, limit, t) == more
            else if all.Some? && |family| > limit && |more - family + {all.value}| <= limit then Next(values, limit, t) == more - family + {all.value}
            else forall v :: v in Next(values, limit, t) ==> v == Overview || ExactKind(KindOf(v)).Some?
  {
    var more := values + {t};
    FamilyOfKind(more, KindOf(t));
    if |Collapsed(more, limit, KindOf(t))| > limit {
      NothingExactLeft(Collapsed(more, limit, KindOf(t)));
    }
  }

  lemma FoldsFamily(values: set<ChangeTarget>, k: Kind, t: ChangeTarget)
    ensures Folded(values, k, t) == (set v | v in values && Some(KindOf(v)) != Some(k)) + {t}
  {
  }

  lemma FamilyOfKind(more: set<ChangeTarget>, k: Kind)
    ensures OfKind(more, k) == (set v | v in more && KindOf(v) == k) && |OfKind(more, k)| <= |more|
  {
    Within(OfKind(more, k), more);
  }

  lemma NothingExactLeft(values: set<ChangeTarget>)
    ensures forall v :: v in Compacted(values) ==> v == Overview || ExactKind(KindOf(v)).Some?
  {
    OnlyOverviewLeft(values);
    forall v | v in Compacted(values) ensures v == Overview || ExactKind(KindOf(v)).Some? {
      assert IsCoarse(v) || v in Exact(Compacted(values));
    }
  }

  lemma PreciseNext(added: set<ChangeTarget>, values: set<ChangeTarget>, limit: nat, t: ChangeTarget)
    requires Precise(added, values, limit)
    ensures Precise(added + {t}, Next(values, limit, t), limit)
  {
    if |added + {t}| <= limit && forall u :: u in added + {t} ==> !IsCoarse(u) {
      Within(added, added + {t});
      assert t in added + {t};
      assert forall u :: u in added ==> u in added + {t};
      assert values == added;
      Within(OfKind(values + {t}, KindOf(t)), values + {t});
    }
  }

  // Folding one kind leaves the kinds still to be folded alone.
  lemma FoldsApart(values: set<ChangeTarget>)
    ensures OfKind(CompactedSources(values), OfSession) == OfKind(values, OfSession)
    ensures OfKind(CompactedSessions(values), OfTrace) == OfKind(values, OfTrace)
    ensures OfKind(CompactedTraces(values), OfPlanUsage) == OfKind(values, OfPlanUsage)
  {
  }

  lemma OnlyOverviewLeft(values: set<ChangeTarget>)
    ensures Exact(FoldedIf(CompactedTraces(values), OfPlanUsage, Overview)) <= {Overview}
  {
    forall v | v in Exact(FoldedIf(CompactedTraces(values), OfPlanUsage, Overview)) ensures v == Overview {
      assert v == Overview || v in Exact(CompactedTraces(values));
    }
  }

  method Pick(s: set<ChangeTarget>) returns (t: ChangeTarget)
    requires s != {}
    ensures t in s
  {
    t :| t in s;
  }
}
