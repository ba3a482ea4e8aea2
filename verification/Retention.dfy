/** Moving exports between the live database and archive files, with failures at any call. */
module Retention {
  datatype Option<+T> = None | Some(value: T)

  datatype RawExport = RawExport(id: int, receivedAt: int, payload: string)

  // A segment is named by what it holds and by the run that built it; the source hashes both.
  datatype Incarnation = Cycle(cycle: string) | RestoreOf(operation: string, original: SegmentId)
  datatype SegmentId = SegmentId(incarnation: Incarnation, members: seq<RawExport>)

  type Segments = map<SegmentId, set<RawExport>>
  type Files = map<SegmentId, seq<RawExport>>

  // The catalog: which exports are live, and what each current segment is said to hold.
  datatype Catalog = Catalog(active: set<RawExport>, current: Segments)

  function Elements(xs: seq<RawExport>): set<RawExport> {
    set x | x in xs
  }

  predicate NoDuplicates(xs: seq<RawExport>) {
    forall i, j :: 0 <= i < j < |xs| ==> xs[i] != xs[j]
  }

  ghost predicate In(segments: Segments, x: RawExport) {
    exists s :: s in segments && x in segments[s]
  }

  ghost predicate Disjoint(segments: Segments) {
    forall s, t :: s in segments && t in segments && s != t ==> segments[s] !! segments[t]
  }

  // Every export is in exactly one place.
  ghost predicate Placed(all: set<RawExport>, c: Catalog) {
    && (forall x :: x in all <==> x in c.active || In(c.current, x))
    && (forall s :: s in c.current ==> c.current[s] !! c.active)
    && Disjoint(c.current)
  }

  // Every segment has a file that holds what the catalog says, each export once.
  ghost predicate Backed(segments: Segments, files: Files) {
    forall s :: s in segments ==> s in files && Elements(files[s]) == segments[s] && NoDuplicates(files[s])
  }

  ghost predicate Safe(all: set<RawExport>, c: Catalog, files: Files) {
    Placed(all, c) && Backed(c.current, files)
  }

  // No file of before is gone or changed.
  ghost predicate Kept(before: Files, after: Files) {
    forall s :: s in before ==> s in after && after[s] == before[s]
  }

  // An archived export has its payload in exactly one current segment's file.
  lemma ArchivedInOneFile(all: set<RawExport>, c: Catalog, files: Files, x: RawExport)
    requires Safe(all, c, files) && x in all && x !in c.active
    ensures exists s :: s in c.current && s in files && x in files[s]
    ensures forall s, t :: s in c.current && t in c.current && x in c.current[s] && x in c.current[t] ==> s == t
  {
    var s :| s in c.current && x in c.current[s];
    assert x in Elements(files[s]);
  }

  lemma MoreFiles(all: set<RawExport>, c: Catalog, before: Files, after: Files)
    requires Safe(all, c, before) && Kept(before, after)
    ensures Safe(all, c, after)
  {}

  // A file no current segment names may go.
  lemma StaleFileGone(all: set<RawExport>, c: Catalog, files: Files, id: SegmentId)
    requires Safe(all, c, files) && id !in c.current
    ensures Safe(all, c, files - {id})
  {}

  // ---------- publishing an archive ----------

  function PublishedArchive(c: Catalog, id: SegmentId, group: set<RawExport>): Catalog {
    Catalog(c.active - group, c.current[id := group])
  }

  lemma ArchiveKeeps(all: set<RawExport>, c: Catalog, files: Files, id: SegmentId, group: set<RawExport>)
    requires Safe(all, c, files) && id !in c.current && group <= c.active
    requires id in files && Elements(files[id]) == group && NoDuplicates(files[id])
    ensures Safe(all, PublishedArchive(c, id, group), files)
  {
    var after := PublishedArchive(c, id, group);
    forall x ensures x in all <==> x in after.active || In(after.current, x) {
      if x in group {
        assert x in after.current[id];
      }
      if In(c.current, x) {
        var s :| s in c.current && x in c.current[s];
        assert s in after.current && x in after.current[s];
      }
    }
  }

  // ---------- publishing a restore ----------

  // What a restore has prepared: the exports to bring back, and the segments that keep the others.
  datatype Publication = Publication(selected: set<RawExport>, segments: Segments)

  function PublishedRestore(c: Catalog, claim: set<SegmentId>, p: Publication): Catalog {
    Catalog(c.active + p.selected, (c.current - claim) + p.segments)
  }

  ghost predicate InClaim(c: Catalog, claim: set<SegmentId>, x: RawExport) {
    exists s :: s in claim && s in c.current && x in c.current[s]
  }

  // The publication splits what the claimed segments hold: nothing is lost, nothing is there twice.
  ghost predicate Splits(c: Catalog, claim: set<SegmentId>, p: Publication) {
    && (forall x :: InClaim(c, claim, x) <==> x in p.selected || In(p.segments, x))
    && (forall s :: s in p.segments ==> p.segments[s] !! p.selected)
    && Disjoint(p.segments)
  }

  ghost predicate FreshSegments(before: Files, p: Publication) {
    forall s :: s in p.segments ==> s !in before
  }

  lemma RestorePlaces(all: set<RawExport>, c: Catalog, claim: set<SegmentId>, p: Publication, x: RawExport)
    requires Placed(all, c) && Splits(c, claim, p) && p.segments.Keys !! c.current.Keys
    ensures x in all <==> x in PublishedRestore(c, claim, p).active || In(PublishedRestore(c, claim, p).current, x)
  {
    var after := PublishedRestore(c, claim, p);
    if In(after.current, x) {
      var s :| s in after.current && x in after.current[s];
      if s in p.segments {
        assert In(p.segments, x);
        assert InClaim(c, claim, x);
      } else {
        assert x in c.current[s];
      }
    }
    if In(c.current, x) {
      var s :| s in c.current && x in c.current[s];
      if s in claim {
        assert InClaim(c, claim, x);
        if x !in p.selected {
          var t :| t in p.segments && x in p.segments[t];
          assert t in after.current && x in after.current[t];
        }
      } else {
        assert s in after.current && x in after.current[s];
      }
    }
  }

  lemma RestoreDisjoint(all: set<RawExport>, c: Catalog, claim: set<SegmentId>, p: Publication)
    requires Placed(all, c) && Splits(c, claim, p) && p.segments.Keys !! c.current.Keys
    ensures Disjoint(PublishedRestore(c, claim, p).current)
  {
    var after := PublishedRestore(c, claim, p);
    forall s, t | s in after.current && t in after.current && s != t ensures after.current[s] !! after.current[t] {
      forall x | x in after.current[s] && x in after.current[t] ensures false {
        if s in p.segments && t !in p.segments {
          KeptApart(all, c, claim, p, s, t, x);
        } else if t in p.segments && s !in p.segments {
          KeptApart(all, c, claim, p, t, s, x);
        }
      }
    }
  }

  lemma KeptApart(all: set<RawExport>, c: Catalog, claim: set<SegmentId>, p: Publication, s: SegmentId, t: SegmentId, x: RawExport)
    requires Placed(all, c) && Splits(c, claim, p) && s in p.segments && x in p.segments[s] && t in c.current && t !in claim
    ensures x !in c.current[t]
  {
    assert In(p.segments, x);
    var u :| u in claim && u in c.current && x in c.current[u];
    assert c.current[u] !! c.current[t];
  }

  lemma RestoreKeeps(all: set<RawExport>, c: Catalog, before: Files, files: Files, claim: set<SegmentId>, p: Publication)
    requires Safe(all, c, before) && Kept(before, files) && Splits(c, claim, p)
    requires FreshSegments(before, p) && Backed(p.segments, files)
    ensures Safe(all, PublishedRestore(c, claim, p), files)
  {
    forall s | s in p.segments ensures s !in c.current {}
    forall x ensures x in all <==> x in PublishedRestore(c, claim, p).active || In(PublishedRestore(c, claim, p).current, x) {
      RestorePlaces(all, c, claim, p, x);
    }
    RestoreDisjoint(all, c, claim, p);
    RestoreLeavesActive(all, c, claim, p);
  }

  lemma RestoreLeavesActive(all: set<RawExport>, c: Catalog, claim: set<SegmentId>, p: Publication)
    requires Placed(all, c) && Splits(c, claim, p)
    ensures forall s :: s in PublishedRestore(c, claim, p).current ==> PublishedRestore(c, claim, p).current[s] !! c.active + p.selected
  {
    var after := PublishedRestore(c, claim, p);
    forall s, x | s in after.current && x in after.current[s] ensures x !in c.active + p.selected {
      if s in p.segments {
        assert In(p.segments, x) && InClaim(c, claim, x);
        var u :| u in claim && u in c.current && x in c.current[u];
      }
    }
  }

  // ---------- preparing a restore ----------

  datatype Scope = BySegment | ByDates(start: int, end: int)

  predicate Matches(scope: Scope, x: RawExport) {
    scope.BySegment? || scope.start <= x.receivedAt < scope.end
  }

  // Adjacent date scopes divide what the scope over both restores, and one instant's scope is that instant.
  lemma DatesDivide(start: int, middle: int, end: int, x: RawExport)
    requires start <= middle <= end
    ensures Matches(ByDates(start, end), x) <==> Matches(ByDates(start, middle), x) || Matches(ByDates(middle, end), x)
    ensures !(Matches(ByDates(start, middle), x) && Matches(ByDates(middle, end), x))
    ensures Matches(ByDates(start, start + 1), x) <==> x.receivedAt == start
    ensures Matches(BySegment, x)
  {
  }

  function Chosen(scope: Scope, xs: seq<RawExport>): seq<RawExport> {
    if xs == [] then []
    else Chosen(scope, xs[..|xs| - 1]) + if Matches(scope, xs[|xs| - 1]) then [xs[|xs| - 1]] else []
  }

  function Others(scope: Scope, xs: seq<RawExport>): seq<RawExport> {
    if xs == [] then []
    else Others(scope, xs[..|xs| - 1]) + if Matches(scope, xs[|xs| - 1]) then [] else [xs[|xs| - 1]]
  }

  // The split of a segment keeps every export exactly once, on its side, in its order.
  method Split(scope: Scope, xs: seq<RawExport>) returns (selected: seq<RawExport>, remaining: seq<RawExport>)
    ensures selected == Chosen(scope, xs) && remaining == Others(scope, xs)
    ensures multiset(selected) + multiset(remaining) == multiset(xs)
  {
    selected, remaining := [], [];
    for k := 0 to |xs|
      invariant selected == Chosen(scope, xs[..k]) && remaining == Others(scope, xs[..k])
    {
      assert xs[..k + 1][..k] == xs[..k];
      if Matches(scope, xs[k]) {
        selected := selected + [xs[k]];
      } else {
        remaining := remaining + [xs[k]];
      }
    }
    assert xs[..|xs|] == xs;
    SplitConserves(scope, xs);
  }

  lemma {:induction false} SplitConserves(scope: Scope, xs: seq<RawExport>)
    ensures multiset(Chosen(scope, xs)) + multiset(Others(scope, xs)) == multiset(xs)
  {
    if xs != [] {
      var front, last := xs[..|xs| - 1], xs[|xs| - 1];
      SplitConserves(scope, front);
      assert xs == front + [last];
      assert multiset(xs) == multiset(front) + multiset{last};
      if Matches(scope, last) {
        assert multiset(Chosen(scope, xs)) == multiset(Chosen(scope, front)) + multiset{last};
      } else {
        assert multiset(Others(scope, xs)) == multiset(Others(scope, front)) + multiset{last};
      }
    }
  }

  lemma {:induction false} SplitMembers(scope: Scope, xs: seq<RawExport>, x: RawExport)
    ensures x in Chosen(scope, xs) <==> x in xs && Matches(scope, x)
    ensures x in Others(scope, xs) <==> x in xs && !Matches(scope, x)
  {
    if xs != [] {
      SplitMembers(scope, xs[..|xs| - 1], x);
      assert xs == xs[..|xs| - 1] + [xs[|xs| - 1]];
    }
  }

  lemma {:induction false} OthersDistinct(scope: Scope, xs: seq<RawExport>)
    requires NoDuplicates(xs)
    ensures NoDuplicates(Others(scope, xs))
  {
    if xs != [] {
      var front, last := xs[..|xs| - 1], xs[|xs| - 1];
      OthersDistinct(scope, front);
      SplitMembers(scope, front, last);
    }
  }

  ghost predicate Prepared(c: Catalog, before: Files, files: Files, done: set<SegmentId>, p: Publication, scope: Scope) {
    && Splits(c, done, p) && FreshSegments(before, p) && Backed(p.segments, files) && Kept(before, files)
    && (forall x :: x in p.selected ==> Matches(scope, x))
    && (forall x :: In(p.segments, x) ==> !Matches(scope, x))
  }

  function Widened(p: Publication, selected: set<RawExport>, id: Option<SegmentId>, remaining: set<RawExport>): Publication {
    Publication(p.selected + selected, if id.Some? then p.segments[id.value := remaining] else p.segments)
  }

  lemma SplitsMore(c: Catalog, done: set<SegmentId>, p: Publication, s: SegmentId, selected: set<RawExport>, id: Option<SegmentId>, remaining: set<RawExport>)
    requires Splits(c, done, p) && Disjoint(c.current) && s in c.current && s !in done
    requires selected + remaining == c.current[s] && selected !! remaining
    requires id.None? ==> remaining == {}
    requires id.Some? ==> id.value !in p.segments
    ensures Splits(c, done + {s}, Widened(p, selected, id, remaining))
  {
    var q := Widened(p, selected, id, remaining);
    forall x ensures InClaim(c, done + {s}, x) <==> x in q.selected || In(q.segments, x) {
      ClaimMore(c, done, p, s, selected, id, remaining, x);
    }
    forall x | x in c.current[s] ensures x !in p.selected && !In(p.segments, x) {
      NotYet(c, done, p, s, x);
    }
    forall t | t in q.segments ensures q.segments[t] !! q.selected {
      OneApart(p, q, t, selected, id, remaining, c.current[s]);
    }
    forall t, u | t in q.segments && u in q.segments && t != u ensures q.segments[t] !! q.segments[u] {
      forall x | x in q.segments[t] ensures x !in q.segments[u] {
        assert t in p.segments ==> In(p.segments, x);
      }
    }
  }

  lemma OneApart(p: Publication, q: Publication, t: SegmentId, selected: set<RawExport>, id: Option<SegmentId>, remaining: set<RawExport>, members: set<RawExport>)
    requires q == Widened(p, selected, id, remaining) && t in q.segments
    requires forall x :: x in members ==> x !in p.selected && !In(p.segments, x)
    requires selected + remaining == members && selected !! remaining
    requires id.Some? ==> id.value !in p.segments
    requires forall s :: s in p.segments ==> p.segments[s] !! p.selected
    ensures q.segments[t] !! q.selected
  {
    forall x | x in q.segments[t] ensures x !in q.selected {
      if t in p.segments {
        assert In(p.segments, x);
      }
    }
  }

  lemma NotYet(c: Catalog, done: set<SegmentId>, p: Publication, s: SegmentId, x: RawExport)
    requires Splits(c, done, p) && Disjoint(c.current) && s in c.current && s !in done && x in c.current[s]
    ensures x !in p.selected && !In(p.segments, x)
  {
    assert !InClaim(c, done, x);
  }

  lemma ClaimMore(c: Catalog, done: set<SegmentId>, p: Publication, s: SegmentId, selected: set<RawExport>, id: Option<SegmentId>, remaining: set<RawExport>, x: RawExport)
    requires Splits(c, done, p) && s in c.current
    requires selected + remaining == c.current[s] && (id.None? ==> remaining == {}) && (id.Some? ==> id.value !in p.segments)
    ensures var q := Widened(p, selected, id, remaining);
            InClaim(c, done + {s}, x) <==> x in q.selected || In(q.segments, x)
  {
    var q := Widened(p, selected, id, remaining);
    if x in c.current[s] {
      assert s in done + {s} && InClaim(c, done + {s}, x);
      if x in remaining {
        assert id.value in q.segments && x in q.segments[id.value];
      }
    }
    if InClaim(c, done, x) {
      var t :| t in done && t in c.current && x in c.current[t];
      assert t in done + {s};
      if In(p.segments, x) {
        var u :| u in p.segments && x in p.segments[u];
        assert u in q.segments && x in q.segments[u];
      }
    }
    if In(q.segments, x) {
      var u :| u in q.segments && x in q.segments[u];
      if u in p.segments {
        assert In(p.segments, x);
      }
    }
    if InClaim(c, done + {s}, x) {
      var t :| t in done + {s} && t in c.current && x in c.current[t];
      if t != s {
        assert InClaim(c, done, x);
      }
    }
  }

  // ---------- the order of a file ----------

  predicate Precedes(a: RawExport, b: RawExport) {
    a.receivedAt < b.receivedAt || (a.receivedAt == b.receivedAt && a.id < b.id)
  }

  ghost predicate InOrder(exports: seq<RawExport>) {
    forall i, j :: 0 <= i < j < |exports| ==> !Precedes(exports[j], exports[i])
  }

  // Where x goes among the first n of sorted: behind everything it does not precede.
  function Place(sorted: seq<RawExport>, x: RawExport, n: nat): (k: nat)
    requires n <= |sorted|
    ensures k <= n
  {
    if n > 0 && Precedes(x, sorted[n - 1]) then Place(sorted, x, n - 1) else n
  }

  function Inserted(sorted: seq<RawExport>, x: RawExport): seq<RawExport> {
    var k := Place(sorted, x, |sorted|);
    sorted[..k] + [x] + sorted[k..]
  }

  // The exports by receive time, then id, those that tie in the order they came.
  function Ordered(exports: seq<RawExport>): seq<RawExport> {
    if exports == [] then [] else Inserted(Ordered(exports[..|exports| - 1]), exports[|exports| - 1])
  }

  lemma {:induction false} PlaceFits(sorted: seq<RawExport>, x: RawExport, n: nat)
    requires n <= |sorted|
    ensures var k := Place(sorted, x, n);
            (k > 0 ==> !Precedes(x, sorted[k - 1])) && (k < n ==> Precedes(x, sorted[k]))
  {
    if n > 0 && Precedes(x, sorted[n - 1]) {
      PlaceFits(sorted, x, n - 1);
    }
  }

  lemma InsertedDistinct(sorted: seq<RawExport>, n: nat, x: RawExport)
    requires n <= |sorted| && NoDuplicates(sorted) && x !in sorted
    ensures NoDuplicates(sorted[..n] + [x] + sorted[n..])
  {}

  lemma InsertedInOrder(sorted: seq<RawExport>, n: nat, x: RawExport)
    requires n <= |sorted| && InOrder(sorted)
    requires n > 0 ==> !Precedes(x, sorted[n - 1])
    requires n < |sorted| ==> Precedes(x, sorted[n])
    ensures InOrder(sorted[..n] + [x] + sorted[n..])
  {
    assert n > 0 ==> forall i :: 0 <= i < n ==> !Precedes(sorted[n - 1], sorted[i]) || i == n - 1;
    assert n < |sorted| ==> forall j :: n < j < |sorted| ==> !Precedes(sorted[j], sorted[n]);
  }

  lemma InsertedHolds(sorted: seq<RawExport>, x: RawExport)
    ensures multiset(Inserted(sorted, x)) == multiset(sorted) + multiset{x}
    ensures forall y :: y in Inserted(sorted, x) <==> y in sorted || y == x
  {
    var k := Place(sorted, x, |sorted|);
    assert sorted == sorted[..k] + sorted[k..];
  }

  // A file holds exactly the exports it was built from, by receive time and id.
  lemma {:induction false} OrderedSorts(exports: seq<RawExport>)
    ensures InOrder(Ordered(exports)) && multiset(Ordered(exports)) == multiset(exports)
    ensures forall x :: x in Ordered(exports) <==> x in exports
  {
    if exports != [] {
      var front, last := exports[..|exports| - 1], exports[|exports| - 1];
      assert exports == front + [last];
      OrderedSorts(front);
      InsertedHolds(Ordered(front), last);
      PlaceFits(Ordered(front), last, |Ordered(front)|);
      InsertedInOrder(Ordered(front), Place(Ordered(front), last, |Ordered(front)|), last);
    }
  }

  lemma {:induction false} OrderedDistinct(exports: seq<RawExport>)
    requires NoDuplicates(exports)
    ensures NoDuplicates(Ordered(exports)) && Elements(Ordered(exports)) == Elements(exports)
  {
    OrderedSorts(exports);
    if exports != [] {
      var front, last := exports[..|exports| - 1], exports[|exports| - 1];
      OrderedDistinct(front);
      OrderedSorts(front);
      InsertedDistinct(Ordered(front), Place(Ordered(front), last, |Ordered(front)|), last);
    }
  }

  // sort.SliceStable by receive time, then id.
  method SortExports(exports: seq<RawExport>) returns (sorted: seq<RawExport>)
    ensures sorted == Ordered(exports)
  {
    sorted := [];
    for k := 0 to |exports|
      invariant sorted == Ordered(exports[..k])
    {
      assert exports[..k + 1][..k] == exports[..k];
      var x, n := exports[k], |sorted|;
      while n > 0 && Precedes(x, sorted[n - 1])
        invariant 0 <= n <= |sorted| && Place(sorted, x, |sorted|) == Place(sorted, x, n)
      {
        n := n - 1;
      }
      sorted := sorted[..n] + [x] + sorted[n..];
    }
    assert exports[..|exports|] == exports;
  }

  // ---------- what an archive run does ----------

  /** How the calls of one run fare. ready: claim, capacity and everything of the build before the file is renamed
      into place; synced: the directory after that rename; published: the catalog; removed: the file of a run
      that could not publish. */
  datatype Fate = Fate(ready: bool, synced: bool, published: bool, removed: bool)

  function Segment(incarnation: Incarnation, exports: seq<RawExport>): SegmentId {
    SegmentId(incarnation, Ordered(exports))
  }

  // The build puts the file in place: it is ready, has something to hold, and nothing has its name.
  predicate Installs(files: Files, exports: seq<RawExport>, incarnation: Incarnation, ready: bool) {
    ready && exports != [] && Segment(incarnation, exports) !in files
  }

  // The files of a build that puts its file in place.
  function Built(files: Files, exports: seq<RawExport>, incarnation: Incarnation): Files {
    files[Segment(incarnation, exports) := Ordered(exports)]
  }

  // The run published its group.
  predicate Archives(files: Files, group: seq<RawExport>, cycle: string, fate: Fate) {
    Installs(files, group, Cycle(cycle), fate.ready) && fate.synced && fate.published
  }

  // The run put its file in place and could neither publish it nor take it away: the directory could not be
  // synced, or both the publication and the removal failed.
  predicate Strands(files: Files, group: seq<RawExport>, cycle: string, fate: Fate) {
    Installs(files, group, Cycle(cycle), fate.ready) && (!fate.synced || (!fate.published && !fate.removed))
  }

  // The files no current segment names.
  function Orphans(c: Catalog, files: Files): set<SegmentId> {
    files.Keys - c.current.Keys
  }

  // The catalog and the files after a run.
  ghost predicate AfterArchive(c: Catalog, files: Files, group: seq<RawExport>, cycle: string, fate: Fate, c': Catalog, files': Files) {
    var id := Segment(Cycle(cycle), group);
    && c' == (if Archives(files, group, cycle, fate) then PublishedArchive(c, id, Elements(group)) else c)
    && files' == (if Archives(files, group, cycle, fate) || Strands(files, group, cycle, fate) then Built(files, group, Cycle(cycle)) else files)
  }

  // A run leaves a new file that no catalog entry names exactly when it strands one.
  lemma OrphanExactlyWhenStranded(all: set<RawExport>, c: Catalog, files: Files, group: seq<RawExport>, cycle: string, fate: Fate,
                                  c': Catalog, files': Files)
    requires Safe(all, c, files) && AfterArchive(c, files, group, cycle, fate, c', files')
    ensures Orphans(c', files') == Orphans(c, files) + if Strands(files, group, cycle, fate) then {Segment(Cycle(cycle), group)} else {}
    ensures Orphans(c', files') != Orphans(c, files) <==> Strands(files, group, cycle, fate)
  {
    var id := Segment(Cycle(cycle), group);
    assert id !in files ==> id !in c.current;
    if Strands(files, group, cycle, fate) {
      assert files'.Keys == files.Keys + {id} && c' == c;
      assert Orphans(c', files') == Orphans(c, files) + {id} && id !in Orphans(c, files);
    } else if Archives(files, group, cycle, fate) {
      assert files'.Keys == files.Keys + {id} && c'.current.Keys == c.current.Keys + {id};
      assert Orphans(c', files') == Orphans(c, files);
    }
  }

  // While a stranded file is there, its group cannot be archived again in the same cycle, however the calls fare.
  lemma StrandedGroupIsRefused(c: Catalog, files: Files, group: seq<RawExport>, cycle: string, fate: Fate, c': Catalog, files': Files,
                               d: Catalog, later: Files, again: Fate, d': Catalog, later': Files)
    requires AfterArchive(c, files, group, cycle, fate, c', files') && Strands(files, group, cycle, fate)
    requires Kept(files', later) && AfterArchive(d, later, group, cycle, again, d', later')
    ensures d' == d && later' == later && !Archives(later, group, cycle, again)
    ensures Segment(Cycle(cycle), group) in later && later[Segment(Cycle(cycle), group)] == Ordered(group)
  {
    assert Segment(Cycle(cycle), group) in files';
  }

  // The first group of an empty archive, and a directory that cannot be synced.
  lemma FailedSyncStrands(x: RawExport, cycle: string, published: bool, removed: bool, again: Fate)
    ensures var c, group, id := Catalog({x}, map[]), [x], SegmentId(Cycle(cycle), [x]);
            var files := map[id := [x]];
            && AfterArchive(c, map[], group, cycle, Fate(true, false, published, removed), c, files)
            && Orphans(c, files) == {id}
            && AfterArchive(c, files, group, cycle, again, c, files) && !Archives(files, group, cycle, again)
  {
    var none: Files := map[];
    assert [x][..0] == [] && Ordered([]) == [];
    assert Inserted([], x) == [x];
    assert Ordered([x]) == [x];
    assert Built(none, [x], Cycle(cycle)) == map[SegmentId(Cycle(cycle), [x]) := [x]];
  }

  // ---------- what a restore run does ----------

  /** How the calls of one restore fare. roomy: the capacity check; verified, replayed: the claimed segments whose file
      verifies, and whose chosen exports replay; ready, synced: those whose replacement is built up to the rename, and
      whose directory is synced after it; published: the catalog; removable: the replacements that a run which could
      not publish takes away; removed: how many restored files are gone before the run is cancelled. */
  datatype RestoreFate = RestoreFate(roomy: bool, verified: set<SegmentId>, replayed: set<SegmentId>, ready: set<SegmentId>,
                                     synced: set<SegmentId>, published: bool, removable: set<SegmentId>, removed: nat)

  // The name of what keeps the exports of s that are not restored.
  function Replacement(files: Files, s: SegmentId, scope: Scope, operation: string): SegmentId
    requires s in files
  {
    Segment(RestoreOf(operation, s), Others(scope, files[s]))
  }

  predicate Wanted(members: set<RawExport>, scope: Scope) {
    exists x :: x in members && Matches(scope, x)
  }

  predicate Unwanted(members: set<RawExport>, scope: Scope) {
    exists x :: x in members && !Matches(scope, x)
  }

  // The file of s is read, holds something to restore, and that can be replayed.
  predicate Opens(c: Catalog, s: SegmentId, scope: Scope, fate: RestoreFate)
    requires s in c.current
  {
    s in fate.verified && Wanted(c.current[s], scope) && s in fate.replayed
  }

  // The replacement of s is put in place.
  predicate Replaces(c: Catalog, files: Files, s: SegmentId, scope: Scope, operation: string, fate: RestoreFate)
    requires s in c.current && s in files
  {
    Opens(c, s, scope, fate) && Unwanted(c.current[s], scope) && s in fate.ready && Replacement(files, s, scope, operation) !in files
  }

  // Everything that has to be done for s succeeds; a segment that is restored whole needs no replacement.
  predicate SegmentRestores(c: Catalog, files: Files, s: SegmentId, scope: Scope, operation: string, fate: RestoreFate)
    requires s in c.current && s in files
  {
    && Opens(c, s, scope, fate)
    && (Unwanted(c.current[s], scope) ==> Replaces(c, files, s, scope, operation, fate) && s in fate.synced)
  }

  predicate Restores(c: Catalog, files: Files, claim: seq<SegmentId>, scope: Scope, operation: string, fate: RestoreFate)
    requires forall s :: s in claim ==> s in c.current && s in files
  {
    && fate.roomy && claim != [] && fate.published
    && forall s :: s in claim ==> SegmentRestores(c, files, s, scope, operation, fate)
  }

  // A restore publishes exactly when capacity, verification, replay and publication succeed, every claimed segment holds
  // an export of the scope, and each that also holds others gets a replacement, under a name no file has.
  lemma RestoresExactly(c: Catalog, files: Files, claim: seq<SegmentId>, scope: Scope, operation: string, fate: RestoreFate)
    requires Backed(c.current, files) && forall s :: s in claim ==> s in c.current
    ensures Restores(c, files, claim, scope, operation, fate) <==>
              && fate.roomy && claim != [] && fate.published
              && (forall s :: s in claim ==> s in fate.verified && s in fate.replayed && exists x :: x in c.current[s] && Matches(scope, x))
              && (forall s :: s in claim && (exists x :: x in c.current[s] && !Matches(scope, x)) ==>
                    s in fate.ready && s in fate.synced && SegmentId(RestoreOf(operation, s), Ordered(Others(scope, files[s]))) !in files)
  {
  }

  // With room, every call successful and no replacement there yet, a restore of part of a segment publishes.
  lemma PartialRestorePublishes(c: Catalog, files: Files, s: SegmentId, start: int, end: int, operation: string, fate: RestoreFate, x: RawExport, y: RawExport)
    requires Backed(c.current, files) && s in c.current && x in c.current[s] && y in c.current[s]
    requires start <= x.receivedAt < end && y.receivedAt >= end
    requires fate.roomy && fate.published && {s} <= fate.verified * fate.replayed * fate.ready * fate.synced
    requires forall t: SegmentId :: t in files ==> t.incarnation != RestoreOf(operation, s)
    ensures Restores(c, files, [s], ByDates(start, end), operation, fate)
    ensures Replaces(c, files, s, ByDates(start, end), operation, fate)
  {
    assert Matches(ByDates(start, end), x) && !Matches(ByDates(start, end), y);
    assert s in {s};
  }

  function ReplacementFile(files: Files, s: SegmentId, scope: Scope, operation: string): Files
    requires s in files
  {
    map[Replacement(files, s, scope, operation) := Ordered(Others(scope, files[s]))]
  }

  // The replacements of some segments, each under its name.
  function ReplacementFiles(files: Files, segments: seq<SegmentId>, scope: Scope, operation: string): Files
    requires forall s :: s in segments ==> s in files
  {
    if segments == [] then map[]
    else
      var last := segments[|segments| - 1];
      ReplacementFiles(files, segments[..|segments| - 1], scope, operation) +
      if Others(scope, files[last]) == [] then map[] else ReplacementFile(files, last, scope, operation)
  }

  // What a segment that could not be prepared leaves behind.
  function FailedFile(c: Catalog, files: Files, s: SegmentId, scope: Scope, operation: string, fate: RestoreFate): Files
    requires s in c.current && s in files
  {
    if Replaces(c, files, s, scope, operation, fate) then ReplacementFile(files, s, scope, operation) else map[]
  }

  // The files after a run that did not publish: the replacements made before the first segment that failed, as far as
  // they could not be removed, and that of the failed segment itself if only its directory could not be synced.
  function AfterFailure(c: Catalog, files: Files, claim: seq<SegmentId>, reached: nat, scope: Scope, operation: string, fate: RestoreFate): Files
    requires reached <= |claim| && forall s :: s in claim ==> s in c.current && s in files
  {
    files + (ReplacementFiles(files, claim[..reached], scope, operation) - fate.removable)
    + (if reached < |claim| then FailedFile(c, files, claim[reached], scope, operation, fate) else map[])
  }

  // The files after a run that published.
  function AfterRestore(files: Files, claim: seq<SegmentId>, scope: Scope, operation: string, fate: RestoreFate): Files
    requires forall s :: s in claim ==> s in files
  {
    files + ReplacementFiles(files, claim, scope, operation)
    - Keys(claim[..if fate.removed < |claim| then fate.removed else |claim|])
  }

  lemma {:induction false} SplitEmpty(scope: Scope, xs: seq<RawExport>)
    ensures Chosen(scope, xs) != [] <==> Wanted(Elements(xs), scope)
    ensures Others(scope, xs) != [] <==> Unwanted(Elements(xs), scope)
  {
    forall x ensures x in Chosen(scope, xs) <==> x in Elements(xs) && Matches(scope, x) {
      SplitMembers(scope, xs, x);
    }
    forall x ensures x in Others(scope, xs) <==> x in Elements(xs) && !Matches(scope, x) {
      SplitMembers(scope, xs, x);
    }
    assert Chosen(scope, xs) != [] ==> Chosen(scope, xs)[0] in Chosen(scope, xs);
    assert Others(scope, xs) != [] ==> Others(scope, xs)[0] in Others(scope, xs);
  }

  // Each replacement is named after the segment it replaces.
  lemma {:induction false} NamedAfter(files: Files, segments: seq<SegmentId>, scope: Scope, operation: string, id: SegmentId)
    requires (forall s :: s in segments ==> s in files) && id in ReplacementFiles(files, segments, scope, operation)
    ensures id.incarnation.RestoreOf? && id.incarnation.original in segments
  {
    var front, last := segments[..|segments| - 1], segments[|segments| - 1];
    if id in ReplacementFiles(files, front, scope, operation) {
      NamedAfter(files, front, scope, operation, id);
    }
  }

  lemma ReplacementsNext(files: Files, done: seq<SegmentId>, s: SegmentId, scope: Scope, operation: string)
    requires s in files && s !in done && forall t :: t in done ==> t in files
    ensures Replacement(files, s, scope, operation) !in ReplacementFiles(files, done, scope, operation)
    ensures ReplacementFiles(files, done + [s], scope, operation).Keys == ReplacementFiles(files, done, scope, operation).Keys +
            if Others(scope, files[s]) == [] then {} else {Replacement(files, s, scope, operation)}
    ensures ReplacementFiles(files, done + [s], scope, operation)
         == ReplacementFiles(files, done, scope, operation) +
            if Others(scope, files[s]) == [] then map[] else ReplacementFile(files, s, scope, operation)
  {
    assert (done + [s])[..|done|] == done;
    if Replacement(files, s, scope, operation) in ReplacementFiles(files, done, scope, operation) {
      NamedAfter(files, done, scope, operation, Replacement(files, s, scope, operation));
    }
  }

  // What a segment's file says about its restore.
  lemma RestoreDecided(c: Catalog, files: Files, s: SegmentId, scope: Scope, operation: string, fate: RestoreFate)
    requires s in c.current && s in files && Elements(files[s]) == c.current[s]
    ensures SegmentRestores(c, files, s, scope, operation, fate) <==>
              && s in fate.verified && Chosen(scope, files[s]) != [] && s in fate.replayed
              && (Others(scope, files[s]) == [] || (s in fate.ready && Replacement(files, s, scope, operation) !in files && s in fate.synced))
    ensures Replaces(c, files, s, scope, operation, fate) <==>
              && s in fate.verified && Chosen(scope, files[s]) != [] && s in fate.replayed
              && Others(scope, files[s]) != [] && s in fate.ready && Replacement(files, s, scope, operation) !in files
  {
    SplitEmpty(scope, files[s]);
  }

  lemma Adds(before: Files, made: Files, id: SegmentId, xs: seq<RawExport>)
    ensures (before + made)[id := xs] == before + made + map[id := xs] == before + (made + map[id := xs])
  {
  }

  lemma AddsNothing(files: Files)
    ensures files + map[] == files
  {
  }

  // Claimed segments that all hold something to restore leave something to publish, unless there are none.
  lemma SomethingSelected(c: Catalog, before: Files, files: Files, claim: seq<SegmentId>, p: Publication, scope: Scope)
    requires Prepared(c, before, files, Keys(claim), p, scope)
    requires forall s :: s in claim ==> s in c.current && Wanted(c.current[s], scope)
    ensures p.selected == {} <==> claim == []
  {
    if claim != [] {
      var s := claim[0];
      assert s in claim && Wanted(c.current[s], scope);
      var x :| x in c.current[s] && Matches(scope, x);
      assert s in Keys(claim);
      assert InClaim(c, Keys(claim), x);
    } else {
      forall x ensures x !in p.selected {
        assert !InClaim(c, Keys(claim), x);
      }
    }
  }

  lemma LastIsNew(files: Files, claim: seq<SegmentId>, reached: nat, scope: Scope, operation: string)
    requires reached < |claim| && (forall s :: s in claim ==> s in files) && forall i, j :: 0 <= i < j < |claim| ==> claim[i] != claim[j]
    ensures Replacement(files, claim[reached], scope, operation) !in ReplacementFiles(files, claim[..reached], scope, operation)
  {
    ReplacementsNext(files, claim[..reached], claim[reached], scope, operation);
  }

  lemma RemovedAgain(before: Files, made: Files, last: Files, removable: set<SegmentId>)
    requires before.Keys !! made.Keys && made.Keys !! last.Keys
    ensures before + made + last - (made.Keys * removable) == before + (made - removable) + last
  {
  }

  // What the cleanup leaves of the files a failed run has made.
  lemma FailureLeaves(c: Catalog, before: Files, files: Files, claim: seq<SegmentId>, reached: nat, scope: Scope, operation: string, fate: RestoreFate)
    requires reached <= |claim| && (forall s :: s in claim ==> s in c.current && s in before) && forall i, j :: 0 <= i < j < |claim| ==> claim[i] != claim[j]
    requires before.Keys !! ReplacementFiles(before, claim[..reached], scope, operation).Keys
    requires files == before + ReplacementFiles(before, claim[..reached], scope, operation) +
                      if reached < |claim| then FailedFile(c, before, claim[reached], scope, operation, fate) else map[]
    ensures files - (ReplacementFiles(before, claim[..reached], scope, operation).Keys * fate.removable)
         == AfterFailure(c, before, claim, reached, scope, operation, fate)
  {
    if reached < |claim| {
      LastIsNew(before, claim, reached, scope, operation);
    }
    RemovedAgain(before, ReplacementFiles(before, claim[..reached], scope, operation),
                 if reached < |claim| then FailedFile(c, before, claim[reached], scope, operation, fate) else map[], fate.removable);
  }

  // ---------- the service ----------

  datatype MaintenanceRun = Archive(group: seq<RawExport>, cycle: string, fate: Fate) |
    Restore(claim: seq<SegmentId>, scope: Scope, operation: string, restoreFate: RestoreFate)

  class RetentionService {
    var catalog: Catalog
    var files: Files
    ghost var all: set<RawExport>

    ghost predicate Valid()
      reads this
    {
      Safe(all, catalog, files)
    }

    constructor (exports: set<RawExport>)
      ensures Valid() && all == exports && catalog == Catalog(exports, map[]) && files == map[]
    {
      catalog, files, all := Catalog(exports, map[]), map[], exports;
    }

    // BuildWithIncarnation: a new file, never over an old one; syncing the directory may fail after the file is there.
    method Build(exports: seq<RawExport>, incarnation: Incarnation, ready: bool, synced: bool) returns (id: Option<SegmentId>)
      modifies this`files
      ensures files == if Installs(old(files), exports, incarnation, ready) then Built(old(files), exports, incarnation) else old(files)
      ensures id == if Installs(old(files), exports, incarnation, ready) && synced then Some(Segment(incarnation, exports)) else None
      ensures Kept(old(files), files)
      ensures id.Some? ==> InOrder(files[id.value]) && multiset(files[id.value]) == multiset(exports)
    {
      if !ready || exports == [] {
        return None;
      }
      var sorted := SortExports(exports);
      OrderedSorts(exports);
      var segment := SegmentId(incarnation, sorted);
      if segment in files {
        return None;
      }
      files := files[segment := sorted];
      id := if synced then Some(segment) else None;
    }

    // Remove, which may fail.
    method Remove(id: SegmentId, possible: bool) returns (ok: bool)
      modifies this`files
      ensures ok == possible && files == if possible then old(files) - {id} else old(files)
    {
      if possible {
        files := files - {id};
      }
      ok := possible;
    }

    // OpenVerified: what the file holds, or an error.
    method OpenVerified(id: SegmentId, intact: bool) returns (exports: Option<seq<RawExport>>)
      ensures exports == if intact && id in files then Some(files[id]) else None
    {
      exports := if intact && id in files then Some(files[id]) else None;
    }

    // archiveNextGroup, once the group is claimed.
    method ArchiveNextGroup(group: seq<RawExport>, cycle: string, fate: Fate) returns (ok: bool)
      requires Valid() && NoDuplicates(group) && Elements(group) <= catalog.active
      modifies this
      ensures Valid() && all == old(all) && Kept(old(files), files)
      ensures ok <==> fate.ready && fate.synced && fate.published && group != [] && Segment(Cycle(cycle), group) !in old(files)
      ensures AfterArchive(old(catalog), old(files), group, cycle, fate, catalog, files)
    {
      var id := Build(group, Cycle(cycle), fate.ready, fate.synced);
      MoreFiles(all, catalog, old(files), files);
      if id.None? {
        return false;
      }
      if !fate.published {
        StaleFileGone(all, catalog, files, id.value);
        var removed := Remove(id.value, fate.removed);
        assert old(files)[id.value := Ordered(group)] - {id.value} == old(files);
        return false;
      }
      OrderedDistinct(group);
      ArchiveKeeps(all, catalog, files, id.value, Elements(group));
      catalog := PublishedArchive(catalog, id.value, Elements(group));
      ok := true;
    }

    // The exports that stay archived move to a segment of their own, if there are any.
    method BuildReplacement(s: SegmentId, remaining: seq<RawExport>, scope: Scope, operation: string, fate: RestoreFate, ghost before: Files, ghost done: seq<SegmentId>)
      returns (ok: bool, id: Option<SegmentId>)
      requires Valid() && s in before && s !in done && forall t :: t in done ==> t in before
      requires files == before + ReplacementFiles(before, done, scope, operation)
      requires remaining == Others(scope, before[s]) && NoDuplicates(remaining)
      modifies this`files
      ensures Valid() && Kept(old(files), files)
      ensures ok <==> remaining == [] || (s in fate.ready && Replacement(before, s, scope, operation) !in before && s in fate.synced)
      ensures ok ==> files == before + ReplacementFiles(before, done + [s], scope, operation)
      ensures ok ==> id == if remaining == [] then None else Some(Replacement(before, s, scope, operation))
      ensures ok && id.Some? ==> id.value !in old(files) && id.value in files && Elements(files[id.value]) == Elements(remaining) && NoDuplicates(files[id.value])
      ensures !ok ==> files == old(files) + if s in fate.ready && Replacement(before, s, scope, operation) !in before
                                            then ReplacementFile(before, s, scope, operation) else map[]
    {
      ReplacementsNext(before, done, s, scope, operation);
      AddsNothing(files);
      AddsNothing(ReplacementFiles(before, done, scope, operation));
      if remaining == [] {
        return true, None;
      }
      OrderedDistinct(remaining);
      Adds(before, ReplacementFiles(before, done, scope, operation), Replacement(before, s, scope, operation), Ordered(remaining));
      id := Build(remaining, RestoreOf(operation, s), s in fate.ready, s in fate.synced);
      MoreFiles(all, catalog, old(files), files);
      ok := id.Some?;
    }

    // The exports of a claimed segment, verified and divided, if there is something to restore and it can be replayed.
    method OpenSegment(s: SegmentId, scope: Scope, fate: RestoreFate) returns (ok: bool, selected: seq<RawExport>, remaining: seq<RawExport>)
      requires Valid() && s in catalog.current
      ensures s in files && (ok <==> Opens(catalog, s, scope, fate))
      ensures ok ==> selected == Chosen(scope, files[s]) && remaining == Others(scope, files[s]) && NoDuplicates(remaining)
      ensures ok ==> (remaining == [] <==> !Unwanted(catalog.current[s], scope))
    {
      SplitEmpty(scope, files[s]);
      OthersDistinct(scope, files[s]);
      var verified := OpenVerified(s, s in fate.verified);
      if verified.None? {
        return false, [], [];
      }
      selected, remaining := Split(scope, verified.value);
      ok := selected != [] && s in fate.replayed;
    }

    // The loop of restoreClaim over one segment.
    method PrepareSegment(s: SegmentId, scope: Scope, operation: string, fate: RestoreFate, p: Publication, ghost before: Files, ghost done: seq<SegmentId>)
      returns (ok: bool, q: Publication)
      requires Valid() && s in catalog.current && s !in done && s in before
      requires Progress(all, catalog, before, files, done, p, scope, operation)
      modifies this`files
      ensures Valid() && Kept(old(files), files)
      ensures ok <==> SegmentRestores(catalog, before, s, scope, operation, fate)
      ensures ok ==> Progress(all, catalog, before, files, done + [s], q, scope, operation)
      ensures !ok ==> q == p && files == old(files) + FailedFile(catalog, before, s, scope, operation, fate)
    {
      q := p;
      AddsNothing(files);
      var selected, remaining;
      ok, selected, remaining := OpenSegment(s, scope, fate);
      assert files[s] == before[s];
      if !ok {
        return;
      }
      var id;
      ok, id := BuildReplacement(s, remaining, scope, operation, fate, before, done);
      if ok {
        ProgressMore(all, catalog, before, old(files), files, done, p, scope, operation, s, id);
        q := Widened(p, Elements(selected), id, Elements(remaining));
      }
    }

    // The deferred cleanup: removes the replacements that were built.
    method Discard(segments: set<SegmentId>, removable: set<SegmentId>, ghost before: Files)
      requires Valid() && Kept(before, files) && before.Keys !! segments && catalog.current.Keys <= before.Keys
      modifies this`files
      ensures Valid() && Kept(before, files) && files == old(files) - (segments * removable)
    {
      var left := segments;
      while left != {}
        invariant left <= segments && Valid() && Kept(before, files)
        invariant files == old(files) - ((segments - left) * removable)
        decreases left
      {
        var s := Pick(left);
        StaleFileGone(all, catalog, files, s);
        var removed := Remove(s, s in removable);
        left := left - {s};
      }
    }

    // After publication: removing the files of the segments restored, each until it succeeds or the run is cancelled.
    method RemovePublished(claim: seq<SegmentId>, possible: nat) returns (ok: bool)
      requires Valid() && forall s :: s in claim ==> s !in catalog.current
      modifies this`files
      ensures Valid() && files == old(files) - Keys(claim[..if possible < |claim| then possible else |claim|])
    {
      for k := 0 to |claim|
        invariant k <= possible && Valid() && files == old(files) - Keys(claim[..k])
      {
        StaleFileGone(all, catalog, files, claim[k]);
        assert claim[..k + 1] == claim[..k] + [claim[k]];
        var removed := Remove(claim[k], k < possible);
        if !removed {
          return false;
        }
      }
      ok := true;
    }

    // The publication, and the removal of the files it restored.
    method Publish(claim: seq<SegmentId>, scope: Scope, operation: string, fate: RestoreFate, p: Publication, ghost before: Files)
      requires Valid() && (forall s :: s in claim ==> s in catalog.current && s in before)
      requires Progress(all, catalog, before, files, claim, p, scope, operation)
      modifies this
      ensures Valid() && all == old(all)
      ensures Restored(old(catalog), catalog, Keys(claim), scope) && files == AfterRestore(before, claim, scope, operation, fate)
      ensures forall s :: s in old(catalog.current) && s !in claim ==> s in catalog.current && catalog.current[s] == old(catalog.current)[s]
      ensures forall s :: s in before && s !in claim ==> s in files && files[s] == before[s]
    {
      RestoreKeeps(all, catalog, before, files, Keys(claim), p);
      RestoresScope(all, catalog, before, files, Keys(claim), p, scope);
      catalog := PublishedRestore(catalog, Keys(claim), p);
      var removed := RemovePublished(claim, fate.removed);
    }

    // A run that cannot publish takes its replacements away, as far as it can.
    method Abandon(claim: seq<SegmentId>, scope: Scope, operation: string, fate: RestoreFate, p: Publication, ghost reached: nat, ghost before: Files)
      requires Valid() && Safe(all, catalog, before) && Kept(before, files) && FreshSegments(before, p) && reached <= |claim|
      requires (forall s :: s in claim ==> s in catalog.current && s in before) && forall i, j :: 0 <= i < j < |claim| ==> claim[i] != claim[j]
      requires p.segments.Keys == ReplacementFiles(before, claim[..reached], scope, operation).Keys
      requires files == before + ReplacementFiles(before, claim[..reached], scope, operation) +
                        if reached < |claim| then FailedFile(catalog, before, claim[reached], scope, operation, fate) else map[]
      modifies this`files
      ensures Valid() && Kept(before, files)
      ensures files == AfterFailure(catalog, before, claim, reached, scope, operation, fate)
    {
      FailureLeaves(catalog, before, files, claim, reached, scope, operation, fate);
      Discard(p.segments.Keys, fate.removable, before);
    }

    /** restoreClaim. It publishes exactly when every call it needs succeeds: the capacity check, and of every claimed
        segment reading its file, finding something to restore, replaying it and, unless it is restored whole, building
        its replacement under a name that is free; then the publication. Segments outside the claim, which other claims
        may hold, stay as they are. reached is the number of segments prepared. */
    method RestoreClaim(claim: seq<SegmentId>, scope: Scope, operation: string, fate: RestoreFate) returns (published: bool, ghost reached: nat)
      requires Valid() && (forall s :: s in claim ==> s in catalog.current) && (forall i, j :: 0 <= i < j < |claim| ==> claim[i] != claim[j])
      modifies this
      ensures Valid() && all == old(all)
      ensures published <==> Restores(old(catalog), old(files), claim, scope, operation, fate)
      ensures published ==> Restored(old(catalog), catalog, Keys(claim), scope)
      ensures published ==> files == AfterRestore(old(files), claim, scope, operation, fate)
      ensures !published ==> catalog == old(catalog) && Kept(old(files), files)
      ensures reached <= |claim|
      ensures !published ==> files == if fate.roomy then AfterFailure(catalog, old(files), claim, reached, scope, operation, fate) else old(files)
      ensures forall i :: 0 <= i < reached ==> SegmentRestores(old(catalog), old(files), claim[i], scope, operation, fate)
      ensures fate.roomy && reached < |claim| ==> !SegmentRestores(old(catalog), old(files), claim[reached], scope, operation, fate)
      ensures forall s :: s in old(catalog.current) && s !in claim ==> s in catalog.current && catalog.current[s] == old(catalog.current)[s]
      ensures forall s :: s in old(files) && s !in claim ==> s in files && files[s] == old(files)[s]
    {
      if !fate.roomy {
        return false, 0;
      }
      ghost var before := files;
      var ok, p;
      ok, p, reached := Prepare(claim, scope, operation, fate);
      if ok {
        assert claim[..|claim|] == claim;
        AddsNothing(files);
        SomethingSelected(catalog, before, files, claim, p, scope);
      }
      if !ok || p.selected == {} || !fate.published {
        Abandon(claim, scope, operation, fate, p, reached, before);
        return false, reached;
      }
      Publish(claim, scope, operation, fate, p, before);
      published := true;
    }

    // After any runs, failing wherever they may, every export is live or in exactly one current segment whose file holds it.
    method AnyRuns(runs: seq<MaintenanceRun>)
      requires Valid()
      modifies this
      ensures Valid() && all == old(all)
      ensures forall x :: x in all && x !in catalog.active ==> exists s :: s in catalog.current && s in files && x in files[s]
    {
      for k := 0 to |runs|
        invariant Valid() && all == old(all)
      {
        if Granted(catalog, runs[k]) {
          match runs[k]
          case Archive(group, cycle, fate) => var ok := ArchiveNextGroup(group, cycle, fate);
          case Restore(claim, scope, operation, fate) => var ok, reached := RestoreClaim(claim, scope, operation, fate);
        }
      }
      forall x | x in all && x !in catalog.active ensures exists s :: s in catalog.current && s in files && x in files[s] {
        ArchivedInOneFile(all, catalog, files, x);
      }
    }

    method Prepare(claim: seq<SegmentId>, scope: Scope, operation: string, fate: RestoreFate) returns (ok: bool, p: Publication, ghost reached: nat)
      requires Valid() && (forall s :: s in claim ==> s in catalog.current) && (forall i, j :: 0 <= i < j < |claim| ==> claim[i] != claim[j])
      modifies this`files
      ensures Valid() && Kept(old(files), files) && FreshSegments(old(files), p)
      ensures reached <= |claim| && forall i :: 0 <= i < reached ==> SegmentRestores(catalog, old(files), claim[i], scope, operation, fate)
      ensures p.segments.Keys == ReplacementFiles(old(files), claim[..reached], scope, operation).Keys
      ensures ok ==> reached == |claim| && Progress(all, catalog, old(files), files, claim, p, scope, operation)
      ensures !ok ==> reached < |claim| && !SegmentRestores(catalog, old(files), claim[reached], scope, operation, fate)
      ensures !ok ==> files == old(files) + ReplacementFiles(old(files), claim[..reached], scope, operation) +
                               FailedFile(catalog, old(files), claim[reached], scope, operation, fate)
    {
      p := Publication({}, map[]);
      NothingPrepared(catalog, files, scope);
      for k := 0 to |claim|
        invariant Valid() && Progress(all, catalog, old(files), files, claim[..k], p, scope, operation)
        invariant forall i :: 0 <= i < k ==> SegmentRestores(catalog, old(files), claim[i], scope, operation, fate)
      {
        KeysNext(claim, k);
        ok, p := PrepareSegment(claim[k], scope, operation, fate, p, old(files), claim[..k]);
        if !ok {
          reached := k;
          return;
        }
      }
      assert claim[..|claim|] == claim;
      ok, reached := true, |claim|;
    }
  }

  // Whether the repository grants a run its claim: live exports to archive, or current segments to restore from.
  predicate Granted(c: Catalog, run: MaintenanceRun) {
    match run
    case Archive(group, _, _) => NoDuplicates(group) && Elements(group) <= c.active
    case Restore(claim, _, _, _) => (forall s :: s in claim ==> s in c.current) && forall i, j :: 0 <= i < j < |claim| ==> claim[i] != claim[j]
  }

  function Keys(claim: seq<SegmentId>): set<SegmentId> {
    set s | s in claim
  }

  lemma KeysNext(claim: seq<SegmentId>, k: nat)
    requires k < |claim| && forall i, j :: 0 <= i < j < |claim| ==> claim[i] != claim[j]
    ensures claim[..k + 1] == claim[..k] + [claim[k]] && claim[k] !in claim[..k]
    ensures Keys(claim[..k + 1]) == Keys(claim[..k]) + {claim[k]} && claim[k] !in Keys(claim[..k])
  {
    assert claim[..k + 1] == claim[..k] + [claim[k]];
  }

  lemma KeysMore(done: seq<SegmentId>, s: SegmentId)
    ensures Keys(done + [s]) == Keys(done) + {s} && forall t :: t in done + [s] ==> t in done || t == s
  {
  }

  lemma NothingPrepared(c: Catalog, files: Files, scope: Scope)
    ensures Prepared(c, files, files, {}, Publication({}, map[]), scope)
  {}

  // What a restore changed: what matches the scope is live again, what does not is still archived, elsewhere.
  ghost predicate Restored(before: Catalog, after: Catalog, claim: set<SegmentId>, scope: Scope) {
    && (forall x :: InClaim(before, claim, x) ==> if Matches(scope, x) then x in after.active else In(after.current, x))
    && (forall x :: x in after.active ==> x in before.active || (InClaim(before, claim, x) && Matches(scope, x)))
    && (forall s :: s in claim ==> s !in after.current)
  }

  lemma RestoresScope(all: set<RawExport>, c: Catalog, before: Files, files: Files, claim: set<SegmentId>, p: Publication, scope: Scope)
    requires Safe(all, c, before) && Prepared(c, before, files, claim, p, scope) && claim <= c.current.Keys
    ensures Restored(c, PublishedRestore(c, claim, p), claim, scope)
    ensures forall s :: s in c.current && s !in claim ==>
              s in PublishedRestore(c, claim, p).current && PublishedRestore(c, claim, p).current[s] == c.current[s]
  {
    var after := PublishedRestore(c, claim, p);
    forall x | InClaim(c, claim, x) ensures if Matches(scope, x) then x in after.active else In(after.current, x) {
      if x !in p.selected {
        var s :| s in p.segments && x in p.segments[s];
        assert In(p.segments, x);
        assert s in after.current && x in after.current[s];
      }
    }
  }

  // The state of the loop over the claim: what is prepared, and exactly the files made for it.
  ghost predicate Progress(all: set<RawExport>, c: Catalog, before: Files, files: Files, done: seq<SegmentId>, p: Publication, scope: Scope, operation: string) {
    && Safe(all, c, before) && (forall s :: s in done ==> s in before)
    && Prepared(c, before, files, Keys(done), p, scope)
    && files == before + ReplacementFiles(before, done, scope, operation)
    && p.segments.Keys == ReplacementFiles(before, done, scope, operation).Keys
  }

  lemma ProgressMore(all: set<RawExport>, c: Catalog, before: Files, was: Files, files: Files, done: seq<SegmentId>, p: Publication, scope: Scope, operation: string,
                     s: SegmentId, id: Option<SegmentId>)
    requires Progress(all, c, before, was, done, p, scope, operation) && s in c.current && s !in done && s in before
    requires Kept(was, files) && files == before + ReplacementFiles(before, done + [s], scope, operation)
    requires id == if Others(scope, before[s]) == [] then None else Some(Replacement(before, s, scope, operation))
    requires id.Some? ==> id.value !in was && id.value in files && Elements(files[id.value]) == Elements(Others(scope, before[s])) &&
                          NoDuplicates(files[id.value])
    ensures Progress(all, c, before, files, done + [s], Widened(p, Elements(Chosen(scope, before[s])), id, Elements(Others(scope, before[s]))), scope, operation)
  {
    KeysMore(done, s);
    ReplacementsNext(before, done, s, scope, operation);
    PreparedMore(c, before, was, files, Keys(done), p, scope, s, before[s], id);
  }

  lemma PreparedMore(c: Catalog, before: Files, was: Files, files: Files, done: set<SegmentId>, p: Publication, scope: Scope,
                     s: SegmentId, xs: seq<RawExport>, id: Option<SegmentId>)
    requires Disjoint(c.current) && Prepared(c, before, was, done, p, scope) && Kept(was, files)
    requires s in c.current && s !in done && Elements(xs) == c.current[s]
    requires id.None? <==> Others(scope, xs) == []
    requires id.Some? ==> id.value !in was && id.value in files && Elements(files[id.value]) == Elements(Others(scope, xs)) &&
                          NoDuplicates(files[id.value])
    ensures Prepared(c, before, files, done + {s}, Widened(p, Elements(Chosen(scope, xs)), id, Elements(Others(scope, xs))), scope)
  {
    var selected, remaining := Elements(Chosen(scope, xs)), Elements(Others(scope, xs));
    var q := Widened(p, selected, id, remaining);
    forall x ensures x in selected <==> x in c.current[s] && Matches(scope, x) {
      SplitMembers(scope, xs, x);
      assert x in xs <==> x in Elements(xs);
    }
    forall x ensures x in remaining <==> x in c.current[s] && !Matches(scope, x) {
      SplitMembers(scope, xs, x);
      assert x in xs <==> x in Elements(xs);
    }
    SplitsMore(c, done, p, s, selected, id, remaining);
    forall x | In(q.segments, x) ensures !Matches(scope, x) {
      var t :| t in q.segments && x in q.segments[t];
      assert t in p.segments && x in p.segments[t] ==> In(p.segments, x);
    }
  }

  method Pick(s: set<SegmentId>) returns (x: SegmentId)
    requires s != {}
    ensures x in s
  {
    x :| x in s;
  }
}
