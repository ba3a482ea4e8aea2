/** Claude calls: evidence joined by shared aliases, one call for each connected component. */
module ClaudeCalls {
  import opened ByteStrings
  import opened CallIdentity
  import opened CallFacts
  import UnionFind

  // ---------- components ----------

  ghost predicate Linked(x: Evidence, y: Evidence) {
    x.session == y.session && exists a :: a in x.aliases && a in y.aliases
  }

  // path leads from x to y by links between members of all.
  ghost predicate Path(all: set<Evidence>, x: Evidence, y: Evidence, path: seq<Evidence>)
    decreases |path|
  {
    x in all && if path == [] then x == y else Linked(x, path[0]) && Path(all, path[0], y, path[1..])
  }

  ghost predicate Connected(all: set<Evidence>, x: Evidence, y: Evidence) {
    exists path :: Path(all, x, y, path)
  }

  ghost function Component(all: set<Evidence>, x: Evidence): set<Evidence> {
    set y | y in all && Connected(all, x, y)
  }

  lemma {:induction false} PathsJoin(all: set<Evidence>, x: Evidence, y: Evidence, z: Evidence, p: seq<Evidence>, q: seq<Evidence>)
    requires Path(all, x, y, p) && Path(all, y, z, q)
    ensures Path(all, x, z, p + q)
    decreases |p|
  {
    if p == [] {
      assert p + q == q;
    } else {
      PathsJoin(all, p[0], y, z, p[1..], q);
      assert (p + q)[1..] == p[1..] + q;
    }
  }

  lemma Transitive(all: set<Evidence>, x: Evidence, y: Evidence, z: Evidence)
    requires Connected(all, x, y) && Connected(all, y, z)
    ensures Connected(all, x, z)
  {
    var p :| Path(all, x, y, p);
    var q :| Path(all, y, z, q);
    PathsJoin(all, x, y, z, p, q);
  }

  lemma LinkConnects(all: set<Evidence>, x: Evidence, y: Evidence)
    requires x in all && y in all && (x == y || Linked(x, y))
    ensures Connected(all, x, y)
  {
    if x == y {
      assert Path(all, x, y, []);
    } else {
      assert Path(all, y, y, [y][1..]);
      assert Path(all, x, y, [y]);
    }
  }

  lemma {:induction false} PathReverses(all: set<Evidence>, x: Evidence, y: Evidence, p: seq<Evidence>)
    requires Path(all, x, y, p)
    ensures y in all && Connected(all, y, x)
    decreases |p|
  {
    if p == [] {
      LinkConnects(all, y, x);
    } else {
      PathReverses(all, p[0], y, p[1..]);
      LinkConnects(all, p[0], x);
      Transitive(all, y, p[0], x);
    }
  }

  lemma Symmetric(all: set<Evidence>, x: Evidence, y: Evidence)
    requires Connected(all, x, y)
    ensures x in all && y in all && Connected(all, y, x)
  {
    var p :| Path(all, x, y, p);
    PathReverses(all, x, y, p);
  }

  lemma {:induction false} PathInMore(all: set<Evidence>, more: set<Evidence>, x: Evidence, y: Evidence, p: seq<Evidence>)
    requires all <= more && Path(all, x, y, p)
    ensures Path(more, x, y, p)
    decreases |p|
  {
    if p != [] {
      PathInMore(all, more, p[0], y, p[1..]);
    }
  }

  // More evidence only merges calls: what was one call stays within one call.
  lemma MoreEvidenceOnlyMerges(all: set<Evidence>, more: set<Evidence>, x: Evidence)
    requires all <= more
    ensures Component(all, x) <= Component(more, x)
  {
    forall y | y in Component(all, x) ensures y in Component(more, x) {
      var p :| Path(all, x, y, p);
      PathInMore(all, more, x, y, p);
    }
  }

  lemma {:induction false} PathKeepsSession(all: set<Evidence>, x: Evidence, y: Evidence, p: seq<Evidence>)
    requires Path(all, x, y, p)
    ensures x.session == y.session
    decreases |p|
  {
    if p != [] {
      PathKeepsSession(all, p[0], y, p[1..]);
    }
  }

  // No call mixes sessions.
  lemma OneSession(all: set<Evidence>, x: Evidence, y: Evidence)
    requires Connected(all, x, y)
    ensures x.session == y.session
  {
    var p :| Path(all, x, y, p);
    PathKeepsSession(all, x, y, p);
  }

  lemma SameComponent(all: set<Evidence>, x: Evidence, y: Evidence)
    requires Connected(all, x, y)
    ensures Component(all, x) == Component(all, y)
  {
    Symmetric(all, x, y);
    forall z | z in all ensures Connected(all, x, z) <==> Connected(all, y, z) {
      if Connected(all, y, z) {
        Transitive(all, x, y, z);
      }
      if Connected(all, x, z) {
        Transitive(all, y, x, z);
      }
    }
  }

  // ---------- joining ----------

  datatype Key = Key(session: Bytes, alias: IdentityAlias)

  // Everything hangs under a root it is connected with.
  ghost predicate Joined(evidence: seq<Evidence>, root: seq<nat>) {
    |root| == |evidence| && forall i: nat :: i < |root| ==>
      root[i] < |root| && Connected(Elements(evidence), evidence[i], evidence[root[i]])
  }

  // Every owner carries the key it owns.
  ghost predicate Owned(evidence: seq<Evidence>, owners: map<Key, nat>) {
    forall key :: key in owners ==> owners[key] < |evidence| && evidence[owners[key]].session == key.session &&
                                    key.alias in evidence[owners[key]].aliases
  }

  // The keys of an item lead to owners in its tree.
  ghost predicate Claimed(evidence: seq<Evidence>, owners: map<Key, nat>, root: seq<nat>, i: nat, aliases: seq<IdentityAlias>)
    requires |root| == |evidence| && i < |root| && Owned(evidence, owners)
  {
    forall a :: a in aliases ==> Key(evidence[i].session, a) in owners && root[owners[Key(evidence[i].session, a)]] == root[i]
  }

  ghost predicate ClaimedBefore(evidence: seq<Evidence>, owners: map<Key, nat>, root: seq<nat>, n: nat)
    requires |root| == |evidence| && Owned(evidence, owners)
  {
    forall i: nat :: i < n && i < |root| ==> Claimed(evidence, owners, root, i, evidence[i].aliases)
  }

  lemma JoinedMerged(evidence: seq<Evidence>, root: seq<nat>, i: nat, j: nat)
    requires Joined(evidence, root) && i < |root| && j < |root|
    requires Linked(evidence[i], evidence[j]) || i == j
    ensures Joined(evidence, UnionFind.Merged(root, root[i], root[j]))
  {
    var all := Elements(evidence);
    LinkConnects(all, evidence[j], evidence[i]);
    Symmetric(all, evidence[j], evidence[root[j]]);
    Transitive(all, evidence[root[j]], evidence[j], evidence[i]);
    Transitive(all, evidence[root[j]], evidence[i], evidence[root[i]]);
    forall k: nat | k < |root| && root[k] == root[j] ensures Connected(all, evidence[k], evidence[root[i]]) {
      Transitive(all, evidence[k], evidence[root[j]], evidence[root[i]]);
    }
  }

  lemma ClaimedMerged(evidence: seq<Evidence>, owners: map<Key, nat>, root: seq<nat>, kept: nat, gone: nat, i: nat, aliases: seq<IdentityAlias>)
    requires |root| == |evidence| && i < |root| && Owned(evidence, owners)
    requires Claimed(evidence, owners, root, i, aliases)
    ensures Claimed(evidence, owners, UnionFind.Merged(root, kept, gone), i, aliases)
  {
    var root' := UnionFind.Merged(root, kept, gone);
    forall a | a in aliases ensures root'[owners[Key(evidence[i].session, a)]] == root'[i] {
      assert root[owners[Key(evidence[i].session, a)]] == root[i];
    }
  }

  // The state of the joining loops: the forest, and the owners of the aliases seen so far.
  ghost predicate Joining(evidence: seq<Evidence>, parent: seq<nat>, root: seq<nat>, depth: seq<nat>, owners: map<Key, nat>, n: nat) {
    && UnionFind.Forest(parent, root, depth) && Joined(evidence, root)
    && Owned(evidence, owners) && ClaimedBefore(evidence, owners, root, n)
  }

  // One turn of the inner loop: alias m of item i.
  method JoinAlias(evidence: seq<Evidence>, parent: array<nat>, ghost root: seq<nat>, ghost depth: seq<nat>, owners: map<Key, nat>, i: nat, m: nat)
    returns (ghost root': seq<nat>, ghost depth': seq<nat>, owners': map<Key, nat>)
    requires Joining(evidence, parent[..], root, depth, owners, i)
    requires i < |evidence| && m < |evidence[i].aliases|
    requires Claimed(evidence, owners, root, i, evidence[i].aliases[..m])
    modifies parent
    ensures Joining(evidence, parent[..], root', depth', owners', i)
    ensures Claimed(evidence, owners', root', i, evidence[i].aliases[..m + 1])
  {
    var key := Key(evidence[i].session, evidence[i].aliases[m]);
    root', depth', owners' := root, depth, owners;
    if key in owners {
      var previous := owners[key];
      root', depth' := UnionFind.Join(parent, i, previous, root, depth);
      JoinedMerged(evidence, root, i, previous);
      ClaimedWhenMerged(evidence, owners, root, i, m);
    } else {
      owners' := owners[key := i];
    }
  }

  lemma ClaimedWhenMerged(evidence: seq<Evidence>, owners: map<Key, nat>, root: seq<nat>, i: nat, m: nat)
    requires |root| == |evidence| && Owned(evidence, owners) && ClaimedBefore(evidence, owners, root, i)
    requires i < |evidence| && m < |evidence[i].aliases| && Key(evidence[i].session, evidence[i].aliases[m]) in owners
    requires Claimed(evidence, owners, root, i, evidence[i].aliases[..m])
    ensures var root' := UnionFind.Merged(root, root[i], root[owners[Key(evidence[i].session, evidence[i].aliases[m])]]);
            ClaimedBefore(evidence, owners, root', i) && Claimed(evidence, owners, root', i, evidence[i].aliases[..m + 1])
  {
    var gone := root[owners[Key(evidence[i].session, evidence[i].aliases[m])]];
    forall j: nat | j < i ensures Claimed(evidence, owners, UnionFind.Merged(root, root[i], gone), j, evidence[j].aliases) {
      ClaimedMerged(evidence, owners, root, root[i], gone, j, evidence[j].aliases);
    }
    ClaimedMerged(evidence, owners, root, root[i], gone, i, evidence[i].aliases[..m]);
    assert evidence[i].aliases[..m + 1] == evidence[i].aliases[..m] + [evidence[i].aliases[m]];
  }

  method JoinItem(evidence: seq<Evidence>, parent: array<nat>, ghost root: seq<nat>, ghost depth: seq<nat>, owners: map<Key, nat>, i: nat)
    returns (ghost root': seq<nat>, ghost depth': seq<nat>, owners': map<Key, nat>)
    requires Joining(evidence, parent[..], root, depth, owners, i) && i < |evidence|
    modifies parent
    ensures Joining(evidence, parent[..], root', depth', owners', i) && Claimed(evidence, owners', root', i, evidence[i].aliases)
  {
    root', depth', owners' := root, depth, owners;
    for m := 0 to |evidence[i].aliases|
      invariant Joining(evidence, parent[..], root', depth', owners', i)
      invariant Claimed(evidence, owners', root', i, evidence[i].aliases[..m])
    {
      root', depth', owners' := JoinAlias(evidence, parent, root', depth', owners', i, m);
    }
    assert evidence[i].aliases[..|evidence[i].aliases|] == evidence[i].aliases;
  }

  // Two items share a tree exactly when a chain of shared aliases joins them.
  ghost predicate Partition(evidence: seq<Evidence>, root: seq<nat>) {
    |root| == |evidence| && forall i: nat, j: nat :: i < |root| && j < |root| ==>
      (root[i] == root[j] <==> Connected(Elements(evidence), evidence[i], evidence[j]))
  }

  ghost predicate DistinctLocators(all: set<Evidence>) {
    forall x, y :: x in all && y in all && x.locator == y.locator ==> x == y
  }

  ghost predicate Distinct(evidence: seq<Evidence>) {
    forall i, j :: 0 <= i < j < |evidence| ==> evidence[i].locator != evidence[j].locator
  }

  lemma {:induction false} PathSharesRoot(evidence: seq<Evidence>, owners: map<Key, nat>, root: seq<nat>, i: nat, y: Evidence, p: seq<Evidence>)
    returns (j: nat)
    requires |root| == |evidence| && Owned(evidence, owners) && ClaimedBefore(evidence, owners, root, |evidence|)
    requires i < |evidence| && Path(Elements(evidence), evidence[i], y, p)
    ensures j < |evidence| && evidence[j] == y && root[j] == root[i]
    decreases |p|
  {
    if p == [] {
      j := i;
    } else {
      assert Path(Elements(evidence), p[0], y, p[1..]);
      var k :| 0 <= k < |evidence| && evidence[k] == p[0];
      j := PathSharesRoot(evidence, owners, root, k, y, p[1..]);
    }
  }

  lemma JoinedIsPartition(evidence: seq<Evidence>, owners: map<Key, nat>, root: seq<nat>)
    requires Distinct(evidence) && Joined(evidence, root)
    requires Owned(evidence, owners) && ClaimedBefore(evidence, owners, root, |evidence|)
    ensures Partition(evidence, root)
  {
    var all := Elements(evidence);
    forall i: nat, j: nat | i < |root| && j < |root|
      ensures root[i] == root[j] <==> Connected(all, evidence[i], evidence[j])
    {
      if root[i] == root[j] {
        Symmetric(all, evidence[j], evidence[root[j]]);
        Transitive(all, evidence[i], evidence[root[i]], evidence[j]);
      }
      if Connected(all, evidence[i], evidence[j]) {
        var p :| Path(all, evidence[i], evidence[j], p);
        var k := PathSharesRoot(evidence, owners, root, i, evidence[j], p);
        assert k == j;
      }
    }
  }

  // The joining half of ResolveClaudeCalls.
  method JoinEvidence(evidence: seq<Evidence>) returns (parent: array<nat>, ghost root: seq<nat>, ghost depth: seq<nat>)
    requires Distinct(evidence)
    ensures fresh(parent) && UnionFind.Forest(parent[..], root, depth) && Partition(evidence, root)
  {
    parent := new nat[|evidence|](i => i);
    root, depth := seq(|evidence|, i => i), seq(|evidence|, i => 0);
    var owners: map<Key, nat> := map[];
    Apart(evidence, root);
    assert parent[..] == root;
    for i := 0 to |evidence|
      invariant Joining(evidence, parent[..], root, depth, owners, i)
    {
      root, depth, owners := JoinItem(evidence, parent, root, depth, owners, i);
    }
    JoinedIsPartition(evidence, owners, root);
  }

  // Before anything is joined every item is a tree of its own.
  lemma Apart(evidence: seq<Evidence>, root: seq<nat>)
    requires |root| == |evidence| && forall i: nat :: i < |root| ==> root[i] == i
    ensures Joined(evidence, root)
  {
    forall i: nat | i < |root| ensures Connected(Elements(evidence), evidence[i], evidence[root[i]]) {
      LinkConnects(Elements(evidence), evidence[i], evidence[i]);
    }
  }
}
