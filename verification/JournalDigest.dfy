/** The digest that compares the replayed journal with the legacy one. */
module JournalDigest {

  // Hashing the previous digest with the next identity, without collisions.
  ghost predicate Injective<D(!new), I(!new)>(extend: (D, I) -> D) {
    forall d, i, e, j :: extend(d, i) == extend(e, j) ==> d == e && i == j
  }

  // The digest after some identities.
  function Digest<D, I>(extend: (D, I) -> D, start: D, identities: seq<I>): D {
    if identities == [] then start
    else extend(Digest(extend, start, identities[..|identities| - 1]), identities[|identities| - 1])
  }

  // As many identities with the same digest are the same identities in the same order.
  lemma {:induction false} DigestDetermines<D(!new), I(!new)>(extend: (D, I) -> D, start: D, a: seq<I>, b: seq<I>)
    requires Injective(extend) && |a| == |b| && Digest(extend, start, a) == Digest(extend, start, b)
    ensures a == b
    decreases |a|
  {
    if a != [] {
      var n := |a| - 1;
      DigestDetermines(extend, start, a[..n], b[..n]);
      assert a == a[..n] + [a[n]] && b == b[..n] + [b[n]];
    }
  }

  class ValidationExpectation<D, I> {
    const extend: (D, I) -> D
    const start: D
    var journalCount: nat
    var journalDigest: D
    ghost var identities: seq<I>

    ghost predicate Valid()
      reads this
    {
      journalCount == |identities| && journalDigest == Digest(extend, start, identities)
    }

    constructor (extend: (D, I) -> D, start: D)
      ensures Valid() && identities == [] && this.extend == extend && this.start == start
    {
      this.extend, this.start := extend, start;
      journalCount, journalDigest, identities := 0, start, [];
    }

    // add
    method Add(identity: I)
      requires Valid()
      modifies this
      ensures Valid() && identities == old(identities) + [identity]
    {
      journalCount := journalCount + 1;
      journalDigest := extend(journalDigest, identity);
      identities := identities + [identity];
      assert identities[..|identities| - 1] == old(identities);
    }
  }

  datatype Option<+T> = None | Some(value: T)

  // The rows that can be read back and restored; None stands for one that cannot.
  ghost predicate Restored<I>(rows: seq<Option<I>>, identities: seq<I>) {
    |rows| == |identities| && forall k :: 0 <= k < |rows| ==> rows[k] == Some(identities[k])
  }

  // The journal loop of validateCandidate.
  method ValidateJournal<D(==), I>(extend: (D, I) -> D, start: D, rows: seq<Option<I>>, journalCount: nat, journalDigest: D)
    returns (ok: bool, ghost identities: seq<I>)
    ensures ok ==> Restored(rows, identities) && |identities| == journalCount && Digest(extend, start, identities) == journalDigest
    ensures !ok ==> forall x :: Restored(rows, x) ==> |x| != journalCount || Digest(extend, start, x) != journalDigest
  {
    var digest, index := start, 0;
    identities := [];
    while index < |rows|
      invariant 0 <= index <= |rows| && index <= journalCount && Restored(rows[..index], identities)
      invariant digest == Digest(extend, start, identities)
    {
      if index >= journalCount || rows[index].None? {
        return false, identities;
      }
      digest := extend(digest, rows[index].value);
      identities := identities + [rows[index].value];
      assert identities[..index] == identities[..|identities| - 1];
      index := index + 1;
    }
    assert rows[..|rows|] == rows;
    forall x | Restored(rows, x) ensures x == identities {}
    ok := index == journalCount && digest == journalDigest;
  }

  // A candidate that passes holds exactly the journal that was replayed, and the replayed journal passes.
  method CandidateHasJournal<D(==,!new), I(!new)>(expected: ValidationExpectation<D, I>, rows: seq<Option<I>>) returns (ok: bool)
    requires expected.Valid() && Injective(expected.extend)
    ensures ok <==> Restored(rows, expected.identities)
  {
    ghost var identities;
    ok, identities := ValidateJournal(expected.extend, expected.start, rows, expected.journalCount, expected.journalDigest);
    if ok {
      DigestDetermines(expected.extend, expected.start, identities, expected.identities);
    }
  }
}
