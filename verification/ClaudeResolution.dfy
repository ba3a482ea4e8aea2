/** The calls Claude evidence resolves to: identity, facts and price of every component. */
module ClaudeResolution {
  import opened ByteStrings
  import opened CallIdentity
  import opened CallFacts
  import opened ClaudeCalls
  import UnionFind

  // ---------- the canonical alias ----------

  function Rank(basis: Basis): nat {
    match basis case Unspecified => 0 case ClientRequest => 1 case Request => 2 case EventSequence => 3 case Fallback => 4
  }

  // The order canonicalAlias sorts by.
  predicate Before(a: IdentityAlias, b: IdentityAlias) {
    if a.basis != b.basis then Rank(a.basis) < Rank(b.basis)
    else if a.basis == EventSequence then a.sequence < b.sequence
    else Less(a.value, b.value)
  }

  function KeyText(a: IdentityAlias): Bytes {
    if a.basis == EventSequence then Decimal(a.sequence) else a.value
  }

  ghost predicate Candidate(members: set<Evidence>, a: IdentityAlias) {
    exists x :: x in members && a in x.aliases
  }

  ghost predicate Least(members: set<Evidence>, a: IdentityAlias) {
    Candidate(members, a) && forall b :: Candidate(members, b) ==> !Before(b, a)
  }

  // The basis and alias a call is named by: the least alias of its members, or the first locator if there is none.
  ghost predicate Identifies(members: set<Evidence>, first: Bytes, basis: Basis, alias: Alias) {
    if basis == Fallback then alias == Alias([], first) && forall a :: !Candidate(members, a)
    else alias.locator == [] && exists a :: Least(members, a) && a.basis == basis && KeyText(a) == alias.text
  }

  lemma BeforeTransitive(a: IdentityAlias, b: IdentityAlias, c: IdentityAlias)
    requires Before(a, b) && !Before(c, b)
    ensures Before(a, c)
  {
    if a.basis == b.basis == c.basis && a.basis != EventSequence {
      LessTotal(b.value, c.value);
      if Less(b.value, c.value) {
        LessTransitive(a.value, b.value, c.value);
      }
    }
  }

  lemma LeastUnique(members: set<Evidence>, a: IdentityAlias, b: IdentityAlias)
    requires Least(members, a) && Least(members, b)
    ensures a.basis == b.basis && KeyText(a) == KeyText(b)
  {
    assert !Before(a, b) && !Before(b, a);
    LessTotal(a.value, b.value);
  }

  lemma IdentityUnique(members: set<Evidence>, first: Bytes, basisA: Basis, a: Alias, basisB: Basis, b: Alias)
    requires Identifies(members, first, basisA, a) && Identifies(members, first, basisB, b)
    requires forall x :: Candidate(members, x) ==> x.basis != Fallback
    ensures basisA == basisB && a == b
  {
    if basisA != Fallback && basisB != Fallback {
      var x :| Least(members, x) && x.basis == basisA && KeyText(x) == a.text;
      var y :| Least(members, y) && y.basis == basisB && KeyText(y) == b.text;
      LeastUnique(members, x, y);
    }
  }

  method Candidates(evidence: seq<Evidence>) returns (candidates: seq<IdentityAlias>)
    ensures forall a :: a in candidates <==> Candidate(Elements(evidence), a)
  {
    candidates := [];
    for k := 0 to |evidence|
      invariant forall a :: a in candidates <==> Candidate(Elements(evidence[..k]), a)
    {
      candidates := candidates + evidence[k].aliases;
    }
    assert evidence[..|evidence|] == evidence;
  }

  // The first of the sorted candidates.
  method First(candidates: seq<IdentityAlias>) returns (first: IdentityAlias)
    requires candidates != []
    ensures first in candidates && forall b :: b in candidates ==> !Before(b, first)
  {
    first := candidates[0];
    BeforeStrict(first);
    for k := 1 to |candidates|
      invariant first in candidates && forall b :: b in candidates[..k] ==> !Before(b, first)
    {
      assert candidates[..k + 1] == candidates[..k] + [candidates[k]];
      if Before(candidates[k], first) {
        StillLeast(candidates[..k], first, candidates[k]);
        first := candidates[k];
      }
    }
    assert candidates[..|candidates|] == candidates;
  }

  lemma BeforeStrict(a: IdentityAlias)
    ensures !Before(a, a)
  {
    if Less(a.value, a.value) {
      LessIsStrict(a.value, a.value);
    }
  }

  lemma StillLeast(seen: seq<IdentityAlias>, first: IdentityAlias, next: IdentityAlias)
    requires Before(next, first) && forall b :: b in seen ==> !Before(b, first)
    ensures forall b :: b in seen + [next] ==> !Before(b, next)
  {
    BeforeStrict(next);
    forall b | b in seen ensures !Before(b, next) {
      if Before(b, next) {
        Earlier(b, next, first);
      }
    }
  }

  lemma Earlier(a: IdentityAlias, b: IdentityAlias, c: IdentityAlias)
    requires Before(a, b) && Before(b, c)
    ensures Before(a, c)
  {
    if Before(c, b) {
      NotBoth(b, c);
    }
    BeforeTransitive(a, b, c);
  }

  lemma NotBoth(a: IdentityAlias, b: IdentityAlias)
    ensures !(Before(a, b) && Before(b, a))
  {
    if Less(a.value, b.value) {
      LessIsStrict(a.value, b.value);
    }
  }

  // canonicalAlias, and the fallback to the first locator its caller adds
  method CanonicalAlias(evidence: seq<Evidence>) returns (basis: Basis, alias: Alias)
    requires evidence != [] && forall a :: Candidate(Elements(evidence), a) ==> a.basis != Fallback
    ensures Identifies(Elements(evidence), evidence[0].locator, basis, alias)
  {
    var candidates := Candidates(evidence);
    if candidates == [] {
      basis, alias := Fallback, Alias([], evidence[0].locator);
    } else {
      var first := First(candidates);
      basis, alias := first.basis, Alias(KeyText(first), []);
      assert Least(Elements(evidence), first);
    }
  }

  // ---------- calls ----------

  datatype Call = Call(id: Bytes, session: Bytes, representative: Bytes, basis: Basis, facts: Facts,
                       filterAt: int, evidence: seq<Evidence>, attribution: Attribution)

  const CLAUDE: Bytes := [99, 108, 97, 117, 100, 101]

  function LocatorOf(x: Evidence): Bytes {
    x.locator
  }

  function IdOf(c: Call): Bytes {
    c.id
  }

  // SHA-256 stands for any function without collisions.
  ghost predicate Injective(hash: Bytes -> Bytes) {
    forall a, b :: hash(a) == hash(b) ==> a == b
  }

  ghost predicate Headed(c: Call, members: set<Evidence>) {
    && c.evidence != [] && Ascending(c.evidence, LocatorOf) && Elements(c.evidence) == members
    && c.session == c.evidence[0].session && c.representative == c.evidence[0].activity
    && c.filterAt == c.evidence[0].filterAt
  }

  ghost predicate NamedBy(hash: Bytes -> Bytes, c: Call, members: set<Evidence>, alias: Alias)
    requires c.evidence != []
  {
    Identifies(members, c.evidence[0].locator, c.basis, alias) && c.id == hash(Preimage(CLAUDE, c.session, c.basis, alias))
  }

  // The call some members make: which evidence arrived when plays no part.
  ghost predicate IsCall(hash: Bytes -> Bytes, members: set<Evidence>, c: Call) {
    && Headed(c, members)
    && (exists alias :: NamedBy(hash, c, members, alias))
    && Reconciled(members, c.facts) && Attributed(members, c.attribution)
  }

  // What the loader guarantees of the aliases and their lengths.
  ghost predicate GoodAlias(a: IdentityAlias) {
    && (a.basis == ClientRequest || a.basis == Request || a.basis == EventSequence)
    && (a.basis != EventSequence ==> a.sequence == 0)
    && a.sequence <= MAX_UINT64 && Short(a.value)
  }

  ghost predicate GoodEvidence(x: Evidence) {
    Short(x.session) && Short(x.locator) && forall a :: a in x.aliases ==> GoodAlias(a)
  }

  ghost predicate SpellAlike(x: Evidence, y: Evidence) {
    forall a, b | a in x.aliases && b in y.aliases ::
      a.basis == b.basis == EventSequence && a.sequence == b.sequence ==> a.value == b.value
  }

  // Two spellings of one sequence number never meet in a session.
  ghost predicate OneSpelling(all: set<Evidence>) {
    forall x, y {:trigger SpellAlike(x, y)} | x in all && y in all && x.session == y.session :: SpellAlike(x, y)
  }

  ghost predicate Loadable(all: set<Evidence>) {
    (forall x {:trigger GoodEvidence(x)} :: x in all ==> GoodEvidence(x)) && DistinctLocators(all)
  }

  ghost predicate WellFormed(all: set<Evidence>) {
    Loadable(all) && OneSpelling(all)
  }

  // ---------- identities tell calls apart ----------

  lemma CallUnique(hash: Bytes -> Bytes, members: set<Evidence>, c: Call, d: Call)
    requires IsCall(hash, members, c) && IsCall(hash, members, d)
    requires forall x :: x in members ==> GoodEvidence(x)
    ensures c == d
  {
    assert c.evidence == d.evidence by { SameHeads(c, d, members); }
    var a :| NamedBy(hash, c, members, a);
    var b :| NamedBy(hash, d, members, b);
    IdentityUnique(members, c.evidence[0].locator, c.basis, a, d.basis, b);
    ReconciledUnique(members, c.facts, d.facts);
    AttributedUnique(members, c.attribution, d.attribution);
  }

  lemma SameHeads(c: Call, d: Call, members: set<Evidence>)
    requires Headed(c, members) && Headed(d, members)
    ensures c.evidence == d.evidence
  {
    forall x ensures x in c.evidence <==> x in d.evidence {
      assert x in c.evidence <==> x in Elements(c.evidence);
      assert x in d.evidence <==> x in Elements(d.evidence);
    }
    AscendingUnique(c.evidence, d.evidence, LocatorOf);
  }

  lemma CandidateOf(members: set<Evidence>, a: IdentityAlias) returns (x: Evidence)
    requires Candidate(members, a)
    ensures x in members && a in x.aliases
  {
    x :| x in members && a in x.aliases;
  }

  // Equal names other than sequence numbers mean a shared alias.
  lemma SharedAlias(all: set<Evidence>, x: Evidence, y: Evidence, a: IdentityAlias, b: IdentityAlias)
    requires Loadable(all) && x in all && y in all && x.session == y.session && a in x.aliases && b in y.aliases
    requires a.basis == b.basis != EventSequence && a.value == b.value
    ensures Linked(x, y)
  {
    assert GoodEvidence(x) && GoodEvidence(y);
    assert GoodAlias(a) && GoodAlias(b);
    assert a == b;
  }

  ghost predicate FitsMembers(members: set<Evidence>, c: Call) {
    Headed(c, members) && (forall x :: x in members ==> GoodEvidence(x))
  }

  lemma NamesFit(hash: Bytes -> Bytes, members: set<Evidence>, c: Call, alias: Alias)
    requires FitsMembers(members, c) && NamedBy(hash, c, members, alias)
    ensures Short(c.session) && Fits(c.basis, alias)
  {
    assert c.evidence[0] in Elements(c.evidence);
    assert GoodEvidence(c.evidence[0]);
    if c.basis != Fallback {
      var a :| Least(members, a) && a.basis == c.basis && KeyText(a) == alias.text;
      assert GoodAlias(a);
    }
  }

  // The members have sequence numbers and nothing better to be named by, and n is the least.
  ghost predicate Numbered(members: set<Evidence>, n: nat) {
    && (exists a :: Candidate(members, a) && a.sequence == n)
    && (forall b :: Candidate(members, b) ==> b.basis == EventSequence && n <= b.sequence)
  }

  ghost predicate SameNumber(members: set<Evidence>, others: set<Evidence>) {
    exists n :: Numbered(members, n) && Numbered(others, n)
  }

  lemma NumberedName(members: set<Evidence>, first: Bytes, n: nat, basis: Basis, alias: Alias)
    requires Numbered(members, n) && Identifies(members, first, basis, alias)
    ensures basis == EventSequence && alias == Alias(Decimal(n), [])
  {
    var a :| Candidate(members, a) && a.sequence == n;
    if basis != Fallback {
      var least :| Least(members, least) && least.basis == basis && KeyText(least) == alias.text;
      assert !Before(a, least);
    }
  }

  lemma NameIsNumber(members: set<Evidence>, a: IdentityAlias)
    requires (forall x :: x in members ==> GoodEvidence(x)) && Least(members, a) && a.basis == EventSequence
    ensures Numbered(members, a.sequence)
  {
    forall b | Candidate(members, b) ensures b.basis == EventSequence && a.sequence <= b.sequence {
      var x := CandidateOf(members, b);
      assert GoodEvidence(x);
      assert GoodAlias(b) && !Before(b, a);
    }
  }

  lemma NumbersClash(hash: Bytes -> Bytes, all: set<Evidence>, x: Evidence, y: Evidence, c: Call, d: Call)
    requires IsCall(hash, Component(all, x), c) && IsCall(hash, Component(all, y), d)
    requires x.session == y.session && SameNumber(Component(all, x), Component(all, y))
    ensures c.id == d.id
  {
    var n :| Numbered(Component(all, x), n) && Numbered(Component(all, y), n);
    var a :| NamedBy(hash, c, Component(all, x), a);
    var b :| NamedBy(hash, d, Component(all, y), b);
    NumberedName(Component(all, x), c.evidence[0].locator, n, c.basis, a);
    NumberedName(Component(all, y), d.evidence[0].locator, n, d.basis, b);
    SessionsOf(all, x, c);
    SessionsOf(all, y, d);
  }

  lemma ClashMeansNumbers(hash: Bytes -> Bytes, all: set<Evidence>, x: Evidence, y: Evidence, c: Call, d: Call)
    requires Injective(hash) && Loadable(all) && x in all && y in all
    requires IsCall(hash, Component(all, x), c) && IsCall(hash, Component(all, y), d)
    requires c.id == d.id && !Connected(all, x, y)
    ensures x.session == y.session && SameNumber(Component(all, x), Component(all, y))
  {
    var a :| NamedBy(hash, c, Component(all, x), a);
    var b :| NamedBy(hash, d, Component(all, y), b);
    NamesFit(hash, Component(all, x), c, a);
    NamesFit(hash, Component(all, y), d, b);
    assert Short(CLAUDE);
    PreimageInjective(CLAUDE, c.session, c.basis, a, CLAUDE, d.session, d.basis, b);
    SessionsOf(all, x, c);
    SessionsOf(all, y, d);
    if c.basis == Fallback {
      SameFirst(all, x, y, c, d);
    } else {
      SameName(all, x, y, c.basis, a, b);
    }
  }

  /** Two calls share an identity exactly when they are of one session and both are named by a sequence number,
      the same one. Nothing else can make them collide. */
  lemma ClashExactly(hash: Bytes -> Bytes, all: set<Evidence>, x: Evidence, y: Evidence, c: Call, d: Call)
    requires Injective(hash) && Loadable(all) && x in all && y in all && !Connected(all, x, y)
    requires IsCall(hash, Component(all, x), c) && IsCall(hash, Component(all, y), d)
    ensures c.id == d.id <==> x.session == y.session && SameNumber(Component(all, x), Component(all, y))
  {
    if c.id == d.id {
      ClashMeansNumbers(hash, all, x, y, c, d);
    } else if x.session == y.session && SameNumber(Component(all, x), Component(all, y)) {
      NumbersClash(hash, all, x, y, c, d);
    }
  }

  // With one spelling a number is an alias the calls share.
  lemma NumbersConnect(all: set<Evidence>, x: Evidence, y: Evidence)
    requires WellFormed(all) && x.session == y.session && SameNumber(Component(all, x), Component(all, y))
    ensures Connected(all, x, y)
  {
    var n :| Numbered(Component(all, x), n) && Numbered(Component(all, y), n);
    var u :| Candidate(Component(all, x), u) && u.sequence == n;
    var v :| Candidate(Component(all, y), v) && v.sequence == n;
    var s := CandidateOf(Component(all, x), u);
    var t := CandidateOf(Component(all, y), v);
    OneSession(all, x, s);
    OneSession(all, y, t);
    assert SpellAlike(s, t);
    assert u == v;
    Joins(all, x, s, t, y);
  }

  lemma Joins(all: set<Evidence>, x: Evidence, s: Evidence, t: Evidence, y: Evidence)
    requires Connected(all, x, s) && Connected(all, y, t) && Linked(s, t)
    ensures Connected(all, x, y)
  {
    Symmetric(all, x, s);
    Symmetric(all, y, t);
    LinkConnects(all, s, t);
    Transitive(all, x, s, t);
    Transitive(all, x, t, y);
  }

  // Different calls have different identities.
  lemma IdentitiesTellApart(hash: Bytes -> Bytes, all: set<Evidence>, x: Evidence, y: Evidence, c: Call, d: Call)
    requires Injective(hash) && WellFormed(all) && x in all && y in all
    requires IsCall(hash, Component(all, x), c) && IsCall(hash, Component(all, y), d)
    requires c.id == d.id
    ensures Connected(all, x, y)
  {
    if !Connected(all, x, y) {
      ClashMeansNumbers(hash, all, x, y, c, d);
      NumbersConnect(all, x, y);
    }
  }

  lemma SessionsOf(all: set<Evidence>, x: Evidence, c: Call)
    requires Headed(c, Component(all, x))
    ensures c.session == x.session
  {
    assert c.evidence[0] in Elements(c.evidence);
    OneSession(all, x, c.evidence[0]);
  }

  lemma SameFirst(all: set<Evidence>, x: Evidence, y: Evidence, c: Call, d: Call)
    requires Loadable(all) && Headed(c, Component(all, x)) && Headed(d, Component(all, y))
    requires c.evidence[0].locator == d.evidence[0].locator
    ensures Connected(all, x, y)
  {
    assert c.evidence[0] in Elements(c.evidence) && d.evidence[0] in Elements(d.evidence);
    Symmetric(all, y, d.evidence[0]);
    Transitive(all, x, c.evidence[0], y);
  }

  lemma SameName(all: set<Evidence>, x: Evidence, y: Evidence, basis: Basis, a: Alias, b: Alias)
    requires Loadable(all) && x.session == y.session && basis != Fallback
    requires exists u :: Least(Component(all, x), u) && u.basis == basis && KeyText(u) == a.text
    requires exists v :: Least(Component(all, y), v) && v.basis == basis && KeyText(v) == b.text
    requires SameAlias(basis, a, b)
    ensures Connected(all, x, y) || SameNumber(Component(all, x), Component(all, y))
  {
    var u :| Least(Component(all, x), u) && u.basis == basis && KeyText(u) == a.text;
    var v :| Least(Component(all, y), v) && v.basis == basis && KeyText(v) == b.text;
    var s := CandidateOf(Component(all, x), u);
    var t := CandidateOf(Component(all, y), v);
    OneSession(all, x, s);
    OneSession(all, y, t);
    assert GoodEvidence(s) && GoodEvidence(t);
    assert GoodAlias(u) && GoodAlias(v);
    if basis == EventSequence {
      SequenceRoundTrip(u.sequence);
      SequenceRoundTrip(v.sequence);
      NameIsNumber(Component(all, x), u);
      NameIsNumber(Component(all, y), v);
    } else {
      SharedAlias(all, s, t, u, v);
      Joins(all, x, s, t, y);
    }
  }

  // An input of that kind: two items that spell one sequence number in two ways are two calls with one name.
  lemma TwoSpellingsClash(x: Evidence, y: Evidence, a: IdentityAlias, b: IdentityAlias)
    requires x.session == y.session && x.aliases == [a] && y.aliases == [b]
    requires a.basis == b.basis == EventSequence && a.sequence == b.sequence && a.value != b.value
    ensures !Connected({x, y}, x, y)
    ensures Identifies(Component({x, y}, x), x.locator, EventSequence, Alias(Decimal(a.sequence), []))
    ensures Identifies(Component({x, y}, y), y.locator, EventSequence, Alias(Decimal(a.sequence), []))
  {
    Alone(x, y, a, b);
    Alone(y, x, b, a);
    assert {x, y} == {y, x};
  }

  lemma Alone(x: Evidence, y: Evidence, a: IdentityAlias, b: IdentityAlias)
    requires x.aliases == [a] && y.aliases == [b] && a != b
    ensures Component({x, y}, x) == {x} && !Connected({x, y}, x, y)
  {
    LinkConnects({x, y}, x, x);
    forall path | Path({x, y}, x, y, path) ensures false {
      StaysPut(x, y, y, path);
    }
  }

  lemma {:induction false} StaysPut(x: Evidence, y: Evidence, z: Evidence, path: seq<Evidence>)
    requires |x.aliases| == |y.aliases| == 1 && x.aliases[0] != y.aliases[0] && Path({x, y}, x, z, path)
    ensures z == x
    decreases |path|
  {
    if path != [] {
      assert path[0] in {x, y};
      StaysPut(x, y, z, path[1..]);
    }
  }

  // ---------- the resolution ----------

  ghost predicate CallOf(hash: Bytes -> Bytes, all: set<Evidence>, c: Call, x: Evidence) {
    x in all && IsCall(hash, Component(all, x), c)
  }

  // One call for every component, in the order of their identities.
  ghost predicate Resolved(hash: Bytes -> Bytes, all: set<Evidence>, calls: seq<Call>) {
    && Ascending(calls, IdOf)
    && (forall c {:trigger IdOf(c)} :: c in calls ==> exists x :: CallOf(hash, all, c, x))
    && (forall x :: x in all ==> exists c :: c in calls && CallOf(hash, all, c, x))
  }

  // The same evidence resolves to the same calls, in whatever order it arrived.
  lemma ResolutionUnique(hash: Bytes -> Bytes, all: set<Evidence>, a: seq<Call>, b: seq<Call>)
    requires WellFormed(all) && Resolved(hash, all, a) && Resolved(hash, all, b)
    ensures a == b
  {
    forall c ensures c in a <==> c in b {
      if c in a {
        ResolvedToo(hash, all, a, b, c);
      }
      if c in b {
        ResolvedToo(hash, all, b, a, c);
      }
    }
    AscendingUnique(a, b, IdOf);
  }

  lemma SameCall(hash: Bytes -> Bytes, all: set<Evidence>, x: Evidence, c: Call, d: Call)
    requires WellFormed(all) && CallOf(hash, all, c, x) && CallOf(hash, all, d, x)
    ensures c == d
  {
    CallUnique(hash, Component(all, x), c, d);
  }

  lemma ResolvedToo(hash: Bytes -> Bytes, all: set<Evidence>, a: seq<Call>, b: seq<Call>, c: Call)
    requires WellFormed(all) && Resolved(hash, all, a) && Resolved(hash, all, b) && c in a
    ensures c in b
  {
    assert IdOf(c) == c.id;
    var x :| CallOf(hash, all, c, x);
    var d :| d in b && CallOf(hash, all, d, x);
    SameCall(hash, all, x, c, d);
  }

  lemma HolderIsOwner(hash: Bytes -> Bytes, all: set<Evidence>, x: Evidence, y: Evidence, c: Call)
    requires CallOf(hash, all, c, y) && x in c.evidence
    ensures x in all && CallOf(hash, all, c, x)
  {
    assert x in Elements(c.evidence);
    SameComponent(all, y, x);
  }

  lemma OwnerHolds(hash: Bytes -> Bytes, all: set<Evidence>, x: Evidence, c: Call)
    requires CallOf(hash, all, c, x)
    ensures x in c.evidence
  {
    LinkConnects(all, x, x);
    assert x in Elements(c.evidence);
  }

  // Every piece of evidence is in exactly one call.
  lemma EvidenceInOneCall(hash: Bytes -> Bytes, all: set<Evidence>, calls: seq<Call>, x: Evidence)
    requires WellFormed(all) && Resolved(hash, all, calls) && x in all
    ensures exists c :: c in calls && x in c.evidence
    ensures forall c, d :: c in calls && d in calls && x in c.evidence && x in d.evidence ==> c == d
  {
    var own :| own in calls && CallOf(hash, all, own, x);
    OwnerHolds(hash, all, x, own);
    forall c | c in calls && x in c.evidence ensures c == own {
      assert IdOf(c) == c.id;
      var y :| CallOf(hash, all, c, y);
      HolderIsOwner(hash, all, x, y, c);
      SameCall(hash, all, x, c, own);
    }
  }

  // ---------- collecting the components ----------

  // The first n items under the root r, in order of arrival.
  function Members(evidence: seq<Evidence>, root: seq<nat>, r: nat, n: nat): seq<Evidence>
    requires n <= |evidence| == |root|
  {
    if n == 0 then [] else Members(evidence, root, r, n - 1) + if root[n - 1] == r then [evidence[n - 1]] else []
  }

  ghost predicate Collected(evidence: seq<Evidence>, root: seq<nat>, components: map<nat, seq<Evidence>>, n: nat)
    requires n <= |evidence| == |root|
  {
    && (forall r :: r in components ==> components[r] == Members(evidence, root, r, n) != [])
    && (forall i :: 0 <= i < n ==> root[i] in components)
  }

  lemma CollectedNext(evidence: seq<Evidence>, root: seq<nat>, components: map<nat, seq<Evidence>>, n: nat)
    requires n < |evidence| == |root| && Collected(evidence, root, components, n)
    ensures var before := if root[n] in components then components[root[n]] else [];
            Collected(evidence, root, components[root[n] := before + [evidence[n]]], n + 1)
  {
    if root[n] !in components {
      NoMembers(evidence, root, components, root[n], n, n);
    }
  }

  lemma {:induction false} NoMembers(evidence: seq<Evidence>, root: seq<nat>, components: map<nat, seq<Evidence>>, r: nat, n: nat, m: nat)
    requires m <= n <= |evidence| == |root| && Collected(evidence, root, components, n) && r !in components
    ensures Members(evidence, root, r, m) == []
    decreases m
  {
    if m > 0 {
      NoMembers(evidence, root, components, r, n, m - 1);
      assert root[m - 1] in components;
    }
  }

  method CollectComponents(evidence: seq<Evidence>, parent: array<nat>, ghost root: seq<nat>, ghost depth: seq<nat>)
    returns (components: map<nat, seq<Evidence>>)
    requires UnionFind.Forest(parent[..], root, depth) && parent.Length == |evidence|
    modifies parent
    ensures Collected(evidence, root, components, |evidence|)
  {
    components := map[];
    for n := 0 to |evidence|
      invariant UnionFind.Forest(parent[..], root, depth)
      invariant Collected(evidence, root, components, n)
    {
      CollectedNext(evidence, root, components, n);
      var r := UnionFind.Find(parent, n, root, depth);
      var before := if r in components then components[r] else [];
      components := components[r := before + [evidence[n]]];
    }
  }

  lemma {:induction false} InMembers(evidence: seq<Evidence>, root: seq<nat>, r: nat, n: nat, x: Evidence)
    requires n <= |evidence| == |root|
    ensures x in Members(evidence, root, r, n) <==> exists i :: 0 <= i < n && root[i] == r && evidence[i] == x
  {
    if n > 0 {
      InMembers(evidence, root, r, n - 1, x);
      if x in Members(evidence, root, r, n - 1) {
        var i :| 0 <= i < n - 1 && root[i] == r && evidence[i] == x;
      }
    }
  }

  lemma {:induction false} MembersDistinct(evidence: seq<Evidence>, root: seq<nat>, r: nat, n: nat)
    requires n <= |evidence| == |root| && Distinct(evidence)
    ensures DistinctKeys(Members(evidence, root, r, n), LocatorOf)
  {
    if n > 0 {
      MembersDistinct(evidence, root, r, n - 1);
      var front := Members(evidence, root, r, n - 1);
      forall k | 0 <= k < |front| ensures front[k].locator != evidence[n - 1].locator {
        InMembers(evidence, root, r, n - 1, front[k]);
      }
    }
  }

  // What hangs under a root is the component of any item under it.
  lemma MembersAreComponent(evidence: seq<Evidence>, root: seq<nat>, i: nat)
    requires Partition(evidence, root) && i < |evidence|
    ensures Elements(Members(evidence, root, root[i], |evidence|)) == Component(Elements(evidence), evidence[i])
  {
    var all, members := Elements(evidence), Members(evidence, root, root[i], |evidence|);
    forall y ensures y in Elements(members) <==> y in Component(all, evidence[i]) {
      InMembers(evidence, root, root[i], |evidence|, y);
      if y in Component(all, evidence[i]) {
        var j :| 0 <= j < |evidence| && evidence[j] == y;
        assert root[j] == root[i];
      }
    }
  }

  // ---------- building the calls ----------

  method BuildCall(hash: Bytes -> Bytes, members: seq<Evidence>) returns (c: Call)
    requires members != [] && DistinctKeys(members, LocatorOf) && forall x :: x in members ==> GoodEvidence(x)
    ensures IsCall(hash, Elements(members), c)
  {
    var sorted := SortByKey(members, LocatorOf);
    assert Elements(sorted) == Elements(members);
    var basis, alias := CanonicalAlias(sorted);
    var id := hash(Preimage(CLAUDE, sorted[0].session, basis, alias));
    var attribution := ReconcileClaudeAttribution(sorted);
    var facts := ReconcileClaudeFacts(sorted);
    c := Call(id, sorted[0].session, sorted[0].activity, basis, facts, sorted[0].filterAt, sorted, attribution);
    assert NamedBy(hash, c, Elements(members), alias);
  }

  // The calls built so far belong to the roots done, one each.
  ghost predicate Built(hash: Bytes -> Bytes, components: map<nat, seq<Evidence>>, roots: seq<nat>, calls: seq<Call>) {
    && |calls| == |roots|
    && (forall k :: 0 <= k < |roots| ==> roots[k] in components && IsCall(hash, Elements(components[roots[k]]), calls[k]))
    && (forall j, k :: 0 <= j < k < |roots| ==> roots[j] != roots[k])
  }

  ghost predicate Buildable(components: map<nat, seq<Evidence>>) {
    forall r :: r in components ==> components[r] != [] && DistinctKeys(components[r], LocatorOf) &&
                                    forall x :: x in components[r] ==> GoodEvidence(x)
  }

  // The loop over the map of components, in any order.
  method BuildCalls(hash: Bytes -> Bytes, components: map<nat, seq<Evidence>>) returns (calls: seq<Call>, ghost roots: seq<nat>)
    requires Buildable(components)
    ensures Built(hash, components, roots, calls) && forall r :: r in components ==> r in roots
  {
    calls, roots := [], [];
    var left := components.Keys;
    while left != {}
      invariant left <= components.Keys
      invariant Built(hash, components, roots, calls)
      invariant forall r :: r in components ==> (r in roots <==> r !in left)
      decreases left
    {
      var r := Pick(left);
      var c := BuildCall(hash, components[r]);
      calls, roots, left := calls + [c], roots + [r], left - {r};
    }
  }

  ghost predicate Sound(evidence: seq<Evidence>, root: seq<nat>, components: map<nat, seq<Evidence>>) {
    && Partition(evidence, root) && Distinct(evidence) && WellFormed(Elements(evidence))
    && Collected(evidence, root, components, |evidence|)
  }

  lemma RootOf(evidence: seq<Evidence>, root: seq<nat>, components: map<nat, seq<Evidence>>, r: nat) returns (i: nat)
    requires Sound(evidence, root, components) && r in components
    ensures i < |evidence| && root[i] == r
    ensures Elements(components[r]) == Component(Elements(evidence), evidence[i])
  {
    var x := components[r][0];
    InMembers(evidence, root, r, |evidence|, x);
    i :| 0 <= i < |evidence| && root[i] == r && evidence[i] == x;
    MembersAreComponent(evidence, root, i);
  }

  lemma ComponentsBuildable(evidence: seq<Evidence>, root: seq<nat>, components: map<nat, seq<Evidence>>)
    requires Sound(evidence, root, components)
    ensures Buildable(components)
  {
    forall r | r in components
      ensures components[r] != [] && DistinctKeys(components[r], LocatorOf) && forall x :: x in components[r] ==> GoodEvidence(x)
    {
      MembersDistinct(evidence, root, r, |evidence|);
      forall x | x in components[r] ensures GoodEvidence(x) {
        InMembers(evidence, root, r, |evidence|, x);
        assert x in Elements(evidence);
      }
    }
  }

  lemma BuiltApart(hash: Bytes -> Bytes, evidence: seq<Evidence>, root: seq<nat>, components: map<nat, seq<Evidence>>, roots: seq<nat>, calls: seq<Call>)
    requires Injective(hash) && Sound(evidence, root, components) && Built(hash, components, roots, calls)
    ensures DistinctKeys(calls, IdOf)
  {
    var all := Elements(evidence);
    forall j, k | 0 <= j < k < |calls| ensures calls[j].id != calls[k].id {
      var x := RootOf(evidence, root, components, roots[j]);
      var y := RootOf(evidence, root, components, roots[k]);
      if calls[j].id == calls[k].id {
        IdentitiesTellApart(hash, all, evidence[x], evidence[y], calls[j], calls[k]);
      }
    }
  }

  lemma BuiltCalls(hash: Bytes -> Bytes, evidence: seq<Evidence>, root: seq<nat>, components: map<nat, seq<Evidence>>, roots: seq<nat>, calls: seq<Call>, c: Call)
    requires Sound(evidence, root, components) && Built(hash, components, roots, calls) && c in calls
    ensures exists x :: CallOf(hash, Elements(evidence), c, x)
  {
    var k :| 0 <= k < |calls| && calls[k] == c;
    var i := RootOf(evidence, root, components, roots[k]);
    assert CallOf(hash, Elements(evidence), c, evidence[i]);
  }

  lemma BuiltHolds(hash: Bytes -> Bytes, evidence: seq<Evidence>, root: seq<nat>, components: map<nat, seq<Evidence>>, roots: seq<nat>, calls: seq<Call>, x: Evidence)
    requires Sound(evidence, root, components) && Built(hash, components, roots, calls)
    requires (forall r :: r in components ==> r in roots) && x in evidence
    ensures exists c :: c in calls && CallOf(hash, Elements(evidence), c, x)
  {
    var i :| 0 <= i < |evidence| && evidence[i] == x;
    var k :| 0 <= k < |roots| && roots[k] == root[i];
    MembersAreComponent(evidence, root, i);
    assert CallOf(hash, Elements(evidence), calls[k], x);
  }

  lemma BuiltResolve(hash: Bytes -> Bytes, evidence: seq<Evidence>, root: seq<nat>, components: map<nat, seq<Evidence>>, roots: seq<nat>, calls: seq<Call>, sorted: seq<Call>)
    requires Sound(evidence, root, components) && Built(hash, components, roots, calls)
    requires forall r :: r in components ==> r in roots
    requires Ascending(sorted, IdOf) && forall c :: c in sorted <==> c in calls
    ensures Resolved(hash, Elements(evidence), sorted)
  {
    var all := Elements(evidence);
    forall c | c in sorted ensures exists x :: CallOf(hash, all, c, x) {
      BuiltCalls(hash, evidence, root, components, roots, calls, c);
    }
    forall x | x in all ensures exists c :: c in sorted && CallOf(hash, all, c, x) {
      BuiltHolds(hash, evidence, root, components, roots, calls, x);
    }
  }

  method ResolveClaudeCalls(hash: Bytes -> Bytes, evidence: seq<Evidence>) returns (calls: seq<Call>)
    requires Injective(hash) && Distinct(evidence) && WellFormed(Elements(evidence))
    ensures Resolved(hash, Elements(evidence), calls)
  {
    var parent, root, depth := JoinEvidence(evidence);
    var components := CollectComponents(evidence, parent, root, depth);
    ComponentsBuildable(evidence, root, components);
    var built, roots := BuildCalls(hash, components);
    BuiltApart(hash, evidence, root, components, roots, built);
    calls := SortByKey(built, IdOf);
    BuiltResolve(hash, evidence, root, components, roots, built, calls);
  }

  // Any two arrival orders of the same evidence give the very same calls.
  method ResolveInAnyOrder(hash: Bytes -> Bytes, evidence: seq<Evidence>, reordered: seq<Evidence>) returns (a: seq<Call>, b: seq<Call>)
    requires Injective(hash) && Distinct(evidence) && Distinct(reordered) && WellFormed(Elements(evidence))
    requires forall x :: x in evidence <==> x in reordered
    ensures a == b && Resolved(hash, Elements(evidence), a)
  {
    assert Elements(evidence) == Elements(reordered);
    a := ResolveClaudeCalls(hash, evidence);
    b := ResolveClaudeCalls(hash, reordered);
    ResolutionUnique(hash, Elements(evidence), a, b);
  }
}
