/** Cutting eligible exports into archive groups, and what the manifest of a group demands. */
module ArchiveGroups {
  import opened Cost

  const MAX_SEGMENT_BYTES := 268_435_456
  const MAX_PAYLOAD_BYTES := 33_554_432
  const DAY := 86_400_000_000_000

  // receivedAt counts nanoseconds in UTC; size is the length of the payload.
  datatype Export = Export(id: int, receivedAt: int, size: int)

  // The UTC date an instant falls on.
  function DateOf(t: int): int {
    t / DAY
  }

  predicate LegalSize(e: Export) {
    0 <= e.size <= MAX_PAYLOAD_BYTES
  }

  predicate OneDate(exports: seq<Export>) {
    forall i, j :: 0 <= i < |exports| && 0 <= j < |exports| ==> DateOf(exports[i].receivedAt) == DateOf(exports[j].receivedAt)
  }

  function Total(exports: seq<Export>): int {
    if exports == [] then 0 else Total(exports[..|exports| - 1]) + exports[|exports| - 1].size
  }

  // ---------- the boundary ----------

  // Whether the boundary takes e after the exports it has taken.
  predicate Takes(taken: seq<Export>, e: Export, limit: int) {
    && 0 <= e.size && limit > 0
    && (taken != [] ==> DateOf(e.receivedAt) == DateOf(taken[0].receivedAt) && Wrap(Wrap(Total(taken)) + e.size) <= limit)
  }

  class ArchiveGroupBoundary {
    var receiveDate: int
    var originalBytes: int
    var exports: nat
    ghost var taken: seq<Export>

    ghost predicate Valid()
      reads this
    {
      && exports == |taken| && originalBytes == Wrap(Total(taken)) && OneDate(taken)
      && (taken != [] ==> receiveDate == DateOf(taken[0].receivedAt))
    }

    constructor ()
      ensures Valid() && taken == []
    {
      receiveDate, originalBytes, exports, taken := 0, 0, 0, [];
    }

    // TryInclude
    method TryInclude(e: Export, limit: int) returns (included: bool)
      requires Valid() && Int64(e.size)
      modifies this
      ensures Valid() && (included <==> Takes(old(taken), e, limit))
      ensures included <==>
                && e.size >= 0 && limit > 0
                && (old(taken) == [] ||
                    (e.receivedAt / DAY == old(taken)[0].receivedAt / DAY && Wrap(Wrap(Total(old(taken))) + e.size) <= limit))
      ensures taken == if included then old(taken) + [e] else old(taken)
    {
      if e.size < 0 || limit <= 0 {
        return false;
      }
      var date := DateOf(e.receivedAt);
      if exports > 0 && (date != receiveDate || Wrap(originalBytes + e.size) > limit) {
        return false;
      }
      assert (taken + [e])[..|taken|] == taken;
      WrapTwice(Total(taken), e.size);
      receiveDate, originalBytes, exports := date, Wrap(originalBytes + e.size), exports + 1;
      taken := taken + [e];
      included := true;
    }
  }

  lemma WrapTwice(a: int, b: int)
    ensures Wrap(Wrap(a) + b) == Wrap(a + b)
  {
    var m := 2 * (MAX_INT64 + 1);
    var q := (a + MAX_INT64 + 1) / m;
    assert Wrap(a) == a - q * m;
    SameResidue(a + b + MAX_INT64 + 1, q, m);
  }

  lemma SameResidue(n: int, q: int, m: int)
    requires m > 0
    ensures (n - q * m) % m == n % m
  {
    var r := n % m;
    assert n == m * (n / m) + r;
    assert n - q * m == m * (n / m - q) + r;
    Residue(n - q * m, n / m - q, m, r);
  }

  lemma Residue(n: int, k: int, m: int, r: int)
    requires m > 0 && 0 <= r < m && n == m * k + r
    ensures n % m == r
  {
    var d := n / m;
    assert n == m * d + n % m;
    assert m * (d - k) == r - n % m;
    Small(m, d - k);
  }

  lemma Small(m: int, x: int)
    requires m > 0 && -m < m * x < m
    ensures x == 0
  {
  }

  // ---------- greedy groups ----------

  // How many exports the boundary takes from the front, having taken n of them.
  function Extent(exports: seq<Export>, n: nat, limit: int): (k: nat)
    requires n <= |exports|
    ensures n <= k <= |exports|
    decreases |exports| - n
  {
    if n < |exports| && Takes(exports[..n], exports[n], limit) then Extent(exports, n + 1, limit) else n
  }

  function Group(exports: seq<Export>, limit: int): seq<Export> {
    exports[..Extent(exports, 0, limit)]
  }

  // How many groups the exports make, each cut where the boundary stops.
  function GroupCount(exports: seq<Export>, limit: int): nat
    requires Countable(exports, limit)
    decreases |exports|
  {
    if exports == [] then 0
    else
      1 + GroupCount(exports[Extent(exports, 0, limit)..], limit)
  }

  predicate Countable(exports: seq<Export>, limit: int) {
    limit > 0 && forall i :: 0 <= i < |exports| ==> exports[i].size >= 0
  }

  // The group the repository selects: the exports the boundary takes from the front.
  method NextArchiveGroup(exports: seq<Export>, limit: int) returns (group: seq<Export>)
    requires forall i :: 0 <= i < |exports| ==> Int64(exports[i].size)
    ensures group == Group(exports, limit) && OneDate(group)
  {
    var boundary := new ArchiveGroupBoundary();
    group := [];
    var n := 0;
    while n < |exports|
      invariant 0 <= n <= |exports| && boundary.Valid() && fresh(boundary)
      invariant group == exports[..n] == boundary.taken && Extent(exports, 0, limit) == Extent(exports, n, limit)
    {
      var included := boundary.TryInclude(exports[n], limit);
      if !included {
        break;
      }
      assert exports[..n + 1] == exports[..n] + [exports[n]];
      group, n := group + [exports[n]], n + 1;
    }
  }

  // One turn of the planning loop: the open group takes the export, or a new group does.
  method PlanOne(exports: seq<Export>, limit: int, boundary: ArchiveGroupBoundary, n: nat, ghost start: nat)
    returns (next: ArchiveGroupBoundary, ghost start': nat, another: bool, ok: bool)
    requires start <= n < |exports| && boundary.Valid() && boundary.taken == exports[start..n] && Int64(exports[n].size)
    modifies boundary
    ensures start' == if Takes(exports[start..n], exports[n], limit) then start else n
    ensures ok ==> next.Valid() && next.taken == exports[start'..n + 1] && (next == boundary || fresh(next))
    ensures another <==> !Takes(exports[start..n], exports[n], limit)
    ensures ok <==> exports[n].size >= 0 && limit > 0
  {
    var included := boundary.TryInclude(exports[n], limit);
    if included {
      OneFurther(exports, start, n);
      return boundary, start, false, true;
    }
    next := new ArchiveGroupBoundary();
    ok := next.TryInclude(exports[n], limit);
    start', another := n, true;
    OneFurther(exports, n, n);
  }

  lemma OneFurther(exports: seq<Export>, start: nat, n: nat)
    requires start <= n < |exports|
    ensures exports[start..n + 1] == exports[start..n] + [exports[n]] && exports[n..n] == []
  {
  }

  // CountArchiveGroupsForCycle: plans from sizes and dates alone.
  method CountArchiveGroups(exports: seq<Export>, limit: int) returns (count: Option<nat>)
    requires forall i :: 0 <= i < |exports| ==> Int64(exports[i].size)
    ensures count.Some? <==> exports == [] || Countable(exports, limit)
    ensures count.Some? ==> if exports == [] then count.value == 0 else count.value == GroupCount(exports, limit)
  {
    var boundary := new ArchiveGroupBoundary();
    var groups := 0;
    ghost var start := 0;
    for n := 0 to |exports|
      invariant boundary.Valid() && fresh(boundary) && 0 <= start <= n && boundary.taken == exports[start..n]
      invariant Countable(exports[..n], limit) || n == 0
      invariant n == 0 ==> groups == 0
      invariant n > 0 ==> start < n && groups > 0 && Counting(exports, n, start, groups, limit)
    {
      FrontCountable(exports, n, limit);
      ghost var before, was := start, groups;
      var another, ok;
      boundary, start, another, ok := PlanOne(exports, limit, boundary, n, start);
      if !ok {
        return None;
      }
      if another {
        groups := groups + 1;
      } else if groups == 0 {
        groups := 1;
      }
      CountingNext(exports, n, before, was, start, groups, limit);
    }
    assert exports[..|exports|] == exports;
    CountingEnds(exports, start, groups, limit);
    count := Some(groups);
  }

  // With any countable exports after the first n: the groups another so far, plus what the open one still takes and the rest.
  ghost predicate Counting(exports: seq<Export>, n: nat, start: nat, groups: nat, limit: int)
    requires start < n <= |exports|
  {
    Countable(exports, limit) ==> groups - 1 + GroupCount(exports[start..], limit) == GroupCount(exports, limit) &&
                                  Extent(exports[start..], 0, limit) >= n - start
  }

  lemma ExtentStep(exports: seq<Export>, n: nat, limit: int)
    requires n < |exports| && Extent(exports, 0, limit) >= n
    ensures Extent(exports, 0, limit) > n <==> Takes(exports[..n], exports[n], limit)
  {
    ExtentFrom(exports, 0, n, limit);
  }

  lemma {:induction false} ExtentFrom(exports: seq<Export>, m: nat, n: nat, limit: int)
    requires m <= n <= |exports| && Extent(exports, m, limit) >= n
    ensures Extent(exports, m, limit) == Extent(exports, n, limit)
    decreases n - m
  {
    if m < n {
      ExtentFrom(exports, m + 1, n, limit);
    }
  }

  lemma FrontCountable(exports: seq<Export>, n: nat, limit: int)
    requires n < |exports|
    ensures Countable(exports[..n + 1], limit) <==> Countable(exports[..n], limit) && limit > 0 && exports[n].size >= 0
  {
    assert exports[..n + 1] == exports[..n] + [exports[n]];
    assert Countable(exports[..n + 1], limit) ==> forall i :: 0 <= i < n ==> exports[..n][i] == exports[..n + 1][i];
    assert exports[..n + 1][n] == exports[n];
  }

  // The open group, seen from its own start.
  lemma OpenGroup(exports: seq<Export>, start: nat, n: nat)
    requires start <= n < |exports|
    ensures exports[start..][..n - start] == exports[start..n] && exports[start..][n - start] == exports[n]
    ensures exports[start..][n - start..] == exports[n..]
  {
  }

  lemma CountingNext(exports: seq<Export>, n: nat, start: nat, groups: nat, start': nat, groups': nat, limit: int)
    requires start <= n < |exports| && (n == 0 ==> groups == 0) && (n > 0 ==> start < n && groups > 0 && Counting(exports, n, start, groups, limit))
    requires start' == if Takes(exports[start..n], exports[n], limit) then start else n
    requires groups' == if !Takes(exports[start..n], exports[n], limit) then groups + 1 else if groups == 0 then 1 else groups
    ensures Counting(exports, n + 1, start', groups', limit)
  {
    if Countable(exports, limit) {
      var rest := exports[start..];
      OpenGroup(exports, start, n);
      if n == 0 {
        assert rest == exports && Takes(exports[0..0], exports[0], limit);
      } else if start' == n {
        NewGroupOpens(exports, n, start, groups, limit);
      } else {
        ExtentStep(rest, n - start, limit);
      }
    }
  }

  lemma NewGroupOpens(exports: seq<Export>, n: nat, start: nat, groups: nat, limit: int)
    requires start < n < |exports| && Countable(exports, limit) && Counting(exports, n, start, groups, limit)
    requires !Takes(exports[start..n], exports[n], limit)
    ensures groups + GroupCount(exports[n..], limit) == GroupCount(exports, limit) && Extent(exports[n..], 0, limit) >= 1
  {
    var rest := exports[start..];
    OpenGroup(exports, start, n);
    ExtentStep(rest, n - start, limit);
    assert Extent(rest, 0, limit) == n - start;
    assert Takes(exports[n..][..0], exports[n..][0], limit);
  }

  lemma CountingEnds(exports: seq<Export>, start: nat, groups: nat, limit: int)
    requires exports != [] ==> start < |exports| && groups > 0 && Counting(exports, |exports|, start, groups, limit) && Countable(exports, limit)
    ensures exports != [] ==> groups == GroupCount(exports, limit)
  {
    if exports != [] {
      var rest := exports[start..];
      assert rest[Extent(rest, 0, limit)..] == [];
      assert GroupCount(rest, limit) == 1;
    }
  }

  // Archiving group after group takes exactly as many groups as were planned.
  method ArchiveAll(exports: seq<Export>, limit: int) returns (groups: seq<seq<Export>>)
    requires Countable(exports, limit) && forall i :: 0 <= i < |exports| ==> Int64(exports[i].size)
    ensures |groups| == GroupCount(exports, limit) && Concat(groups) == exports
  {
    groups := [];
    var left := exports;
    while left != []
      invariant Countable(left, limit) && forall i :: 0 <= i < |left| ==> Int64(left[i].size)
      invariant |groups| + GroupCount(left, limit) == GroupCount(exports, limit) && Concat(groups) + left == exports
      decreases |left|
    {
      var group := NextArchiveGroup(left, limit);
      groups, left := groups + [group], left[|group|..];
    }
  }

  function Concat(groups: seq<seq<Export>>): seq<Export> {
    if groups == [] then [] else Concat(groups[..|groups| - 1]) + groups[|groups| - 1]
  }

  // ---------- the manifest ----------

  // What makeManifest accepts.
  predicate Manifestable(exports: seq<Export>) {
    && (forall i :: 0 <= i < |exports| ==> exports[i].id > 0 && exports[i].size <= MAX_PAYLOAD_BYTES)
    && OneDate(exports)
    && (forall i, j :: 0 <= i < j < |exports| ==> exports[i].id != exports[j].id)
    && Total(exports) <= MAX_SEGMENT_BYTES
  }

  lemma {:induction false} TotalGrows(exports: seq<Export>, k: nat)
    requires k <= |exports| && forall i :: 0 <= i < |exports| ==> exports[i].size >= 0
    ensures 0 <= Total(exports[..k]) <= Total(exports)
    decreases |exports| - k
  {
    if k < |exports| {
      TotalGrows(exports, k + 1);
      assert exports[..k + 1][..k] == exports[..k];
      TotalPositive(exports[..k]);
    } else {
      assert exports[..k] == exports;
      TotalPositive(exports);
    }
  }

  lemma {:induction false} TotalPositive(exports: seq<Export>)
    requires forall i :: 0 <= i < |exports| ==> exports[i].size >= 0
    ensures Total(exports) >= 0
  {
    if exports != [] {
      TotalPositive(exports[..|exports| - 1]);
    }
  }

  // What the checks have established of the first k exports.
  ghost predicate Checked(exports: seq<Export>, k: nat, seen: set<int>, bytes: int)
    requires k <= |exports|
  {
    && bytes == Total(exports[..k]) <= MAX_SEGMENT_BYTES
    && (forall id :: id in seen <==> exists i :: 0 <= i < k && exports[i].id == id)
    && (forall i :: 0 <= i < k ==> exports[i].id > 0 && exports[i].size <= MAX_PAYLOAD_BYTES &&
                                   DateOf(exports[i].receivedAt) == DateOf(exports[0].receivedAt))
    && (forall i, j :: 0 <= i < j < k ==> exports[i].id != exports[j].id)
  }

  lemma CheckedNext(exports: seq<Export>, k: nat, seen: set<int>, bytes: int)
    requires k < |exports| && Checked(exports, k, seen, bytes)
    requires exports[k].id > 0 && exports[k].size <= MAX_PAYLOAD_BYTES && exports[k].id !in seen
    requires DateOf(exports[k].receivedAt) == DateOf(exports[0].receivedAt) && bytes + exports[k].size <= MAX_SEGMENT_BYTES
    ensures Checked(exports, k + 1, seen + {exports[k].id}, bytes + exports[k].size)
  {
    assert exports[..k + 1][..k] == exports[..k];
  }

  lemma CheckedAll(exports: seq<Export>, seen: set<int>, bytes: int)
    requires Checked(exports, |exports|, seen, bytes)
    ensures Manifestable(exports)
  {
    assert exports[..|exports|] == exports;
  }

  lemma TooMany(exports: seq<Export>, k: nat)
    requires k < |exports| && (forall i :: 0 <= i < |exports| ==> exports[i].size >= 0)
    requires Total(exports[..k]) + exports[k].size > MAX_SEGMENT_BYTES
    ensures !Manifestable(exports)
  {
    assert exports[..k + 1][..k] == exports[..k];
    TotalGrows(exports, k + 1);
  }

  // The checks of makeManifest; the length of a payload is never negative.
  method MakeManifest(exports: seq<Export>) returns (ok: bool)
    requires exports != [] && forall i :: 0 <= i < |exports| ==> exports[i].size >= 0
    ensures ok <==> Manifestable(exports)
  {
    var seen: set<int>, bytes := {}, 0;
    for k := 0 to |exports|
      invariant Checked(exports, k, seen, bytes)
    {
      var e := exports[k];
      if e.id <= 0 || e.size > MAX_PAYLOAD_BYTES {
        return false;
      }
      if DateOf(e.receivedAt) != DateOf(exports[0].receivedAt) {
        return false;
      }
      if e.id in seen {
        return false;
      }
      if bytes + e.size > MAX_SEGMENT_BYTES {
        TooMany(exports, k);
        return false;
      }
      CheckedNext(exports, k, seen, bytes);
      seen, bytes := seen + {e.id}, bytes + e.size;
    }
    CheckedAll(exports, seen, bytes);
    ok := true;
  }

  lemma {:induction false} TakenWithinLimit(exports: seq<Export>, n: nat, limit: int)
    requires n <= |exports| && Extent(exports, 0, limit) >= n && 0 < limit <= MAX_INT64 - MAX_PAYLOAD_BYTES
    requires forall i :: 0 <= i < |exports| ==> LegalSize(exports[i])
    ensures 0 <= Total(exports[..n]) && (n <= 1 ==> Total(exports[..n]) <= MAX_PAYLOAD_BYTES) && (n > 1 ==> Total(exports[..n]) <= limit)
  {
    if n > 0 {
      TakenWithinLimit(exports, n - 1, limit);
      assert exports[..n][..n - 1] == exports[..n - 1];
      ExtentStep(exports, n - 1, limit);
    }
  }

  /** A group is the longest front of one date and within the limit, but never empty: it holds exports of one date, more
      than one only within the limit, and the next export has another date or would exceed it. */
  lemma GroupIsLongest(exports: seq<Export>, limit: int)
    requires exports != [] && 0 < limit <= MAX_INT64 - MAX_PAYLOAD_BYTES && forall i :: 0 <= i < |exports| ==> LegalSize(exports[i])
    ensures var n := |Group(exports, limit)|;
            && Group(exports, limit) == exports[..n] && n >= 1
            && (forall i :: 0 <= i < n ==> exports[i].receivedAt / DAY == exports[0].receivedAt / DAY)
            && (n > 1 ==> Total(exports[..n]) <= limit)
            && (n < |exports| ==> exports[n].receivedAt / DAY != exports[0].receivedAt / DAY || Total(exports[..n]) + exports[n].size > limit)
  {
    var n := Extent(exports, 0, limit);
    ExtentStep(exports, 0, limit);
    TakenWithinLimit(exports, n, limit);
    forall i: nat | i < n ensures DateOf(exports[i].receivedAt) == DateOf(exports[0].receivedAt) {
      TakenOnDate(exports, i, n, limit);
    }
    if n < |exports| {
      ExtentStep(exports, n, limit);
    }
  }

  // Every group of legal payloads the boundary cuts passes the manifest's checks on date and size.
  lemma GroupsPassManifest(exports: seq<Export>)
    requires forall i :: 0 <= i < |exports| ==> LegalSize(exports[i]) && exports[i].id > 0
    requires forall i, j :: 0 <= i < j < |exports| ==> exports[i].id != exports[j].id
    ensures Manifestable(Group(exports, MAX_SEGMENT_BYTES))
  {
    var n := Extent(exports, 0, MAX_SEGMENT_BYTES);
    TakenWithinLimit(exports, n, MAX_SEGMENT_BYTES);
    forall i: nat | i < n ensures DateOf(exports[i].receivedAt) == DateOf(exports[0].receivedAt) {
      TakenOnDate(exports, i, n, MAX_SEGMENT_BYTES);
    }
  }

  lemma TakenOnDate(exports: seq<Export>, i: nat, n: nat, limit: int)
    requires i < n <= |exports| && Extent(exports, 0, limit) >= n
    ensures DateOf(exports[i].receivedAt) == DateOf(exports[0].receivedAt)
  {
    ExtentStep(exports, i, limit);
  }
}
