/** Byte strings: their order, and sorting by a byte-string key. */
module ByteStrings {
  type Byte = b: int | 0 <= b < 256

  type Bytes = seq<Byte>

  // bytes.Compare(a, b) < 0, which is also how strings compare.
  predicate Less(a: Bytes, b: Bytes) {
    b != [] && (a == [] || a[0] < b[0] || (a[0] == b[0] && Less(a[1..], b[1..])))
  }

  lemma {:induction false} LessIsStrict(a: Bytes, b: Bytes)
    requires Less(a, b)
    ensures !Less(b, a) && a != b
  {
    if a != [] && a[0] == b[0] {
      LessIsStrict(a[1..], b[1..]);
    }
  }

  lemma {:induction false} LessTransitive(a: Bytes, b: Bytes, c: Bytes)
    requires Less(a, b) && Less(b, c)
    ensures Less(a, c)
  {
    if a != [] && a[0] == b[0] == c[0] {
      LessTransitive(a[1..], b[1..], c[1..]);
    }
  }

  lemma {:induction false} LessTotal(a: Bytes, b: Bytes)
    ensures a == b || Less(a, b) || Less(b, a)
  {
    if a != [] && b != [] && a[0] == b[0] {
      LessTotal(a[1..], b[1..]);
      assert a == [a[0]] + a[1..] && b == [b[0]] + b[1..];
    }
  }

  ghost predicate Ascending<T>(xs: seq<T>, key: T -> Bytes) {
    forall i, j :: 0 <= i < j < |xs| ==> Less(key(xs[i]), key(xs[j]))
  }

  ghost predicate DistinctKeys<T>(xs: seq<T>, key: T -> Bytes) {
    forall i, j :: 0 <= i < j < |xs| ==> key(xs[i]) != key(xs[j])
  }

  // What is ascending by its keys is determined by what it holds.
  lemma {:induction false} AscendingUnique<T>(xs: seq<T>, ys: seq<T>, key: T -> Bytes)
    requires Ascending(xs, key) && Ascending(ys, key)
    requires forall x :: x in xs <==> x in ys
    ensures xs == ys
    decreases |xs|
  {
    HasElement(xs);
    HasElement(ys);
    if xs != [] && ys != [] {
      SameFirst(xs, ys, key);
      forall x ensures x in xs[1..] <==> x in ys[1..] {
        InTail(xs, key, x);
        InTail(ys, key, x);
      }
      AscendingUnique(xs[1..], ys[1..], key);
      assert xs == [xs[0]] + xs[1..] && ys == [ys[0]] + ys[1..];
    }
  }

  lemma HasElement<T>(xs: seq<T>)
    ensures xs != [] ==> exists x :: x in xs
  {
    if xs != [] {
      assert xs[0] in xs;
    }
  }

  lemma InTail<T>(xs: seq<T>, key: T -> Bytes, x: T)
    requires xs != [] && Ascending(xs, key)
    ensures x in xs[1..] <==> x in xs && x != xs[0]
  {
    if x in xs[1..] {
      var i :| 0 <= i < |xs[1..]| && xs[1..][i] == x;
      assert xs[i + 1] == x;
      LessIsStrict(key(xs[0]), key(xs[i + 1]));
    }
    if x in xs && x != xs[0] {
      var i :| 0 <= i < |xs| && xs[i] == x;
      assert xs[1..][i - 1] == x;
    }
  }

  lemma SameFirst<T>(xs: seq<T>, ys: seq<T>, key: T -> Bytes)
    requires xs != [] && ys != [] && Ascending(xs, key) && Ascending(ys, key)
    requires forall x :: x in xs <==> x in ys
    ensures xs[0] == ys[0]
  {
    assert xs[0] in ys && ys[0] in xs;
    var i :| 0 <= i < |ys| && ys[i] == xs[0];
    var j :| 0 <= j < |xs| && xs[j] == ys[0];
    if i > 0 && j > 0 {
      LessIsStrict(key(ys[0]), key(ys[i]));
    }
  }

  // sort.Slice by a key no two elements share.
  method SortByKey<T>(xs: seq<T>, key: T -> Bytes) returns (sorted: seq<T>)
    requires DistinctKeys(xs, key)
    ensures Ascending(sorted, key)
    ensures |sorted| == |xs| && forall x :: x in sorted <==> x in xs
  {
    sorted := [];
    for k := 0 to |xs|
      invariant Ascending(sorted, key) && |sorted| == k
      invariant forall x :: x in sorted <==> x in xs[..k]
    {
      assert xs[..k + 1] == xs[..k] + [xs[k]];
      NewKey(xs, sorted, key, k);
      sorted := Insert(sorted, xs[k], key);
    }
    assert xs[..|xs|] == xs;
  }

  lemma NewKey<T>(xs: seq<T>, sorted: seq<T>, key: T -> Bytes, k: nat)
    requires k < |xs| && DistinctKeys(xs, key)
    requires forall x :: x in sorted <==> x in xs[..k]
    ensures forall j :: 0 <= j < |sorted| ==> key(sorted[j]) != key(xs[k])
  {
    forall j | 0 <= j < |sorted| ensures key(sorted[j]) != key(xs[k]) {
      assert sorted[j] in xs[..k];
    }
  }

  method Insert<T>(sorted: seq<T>, x: T, key: T -> Bytes) returns (r: seq<T>)
    requires Ascending(sorted, key)
    requires forall j :: 0 <= j < |sorted| ==> key(sorted[j]) != key(x)
    ensures Ascending(r, key) && |r| == |sorted| + 1
    ensures forall y :: y in r <==> y in sorted || y == x
  {
    var k := |sorted|;
    while k > 0 && Less(key(x), key(sorted[k - 1]))
      invariant 0 <= k <= |sorted|
      invariant k < |sorted| ==> Less(key(x), key(sorted[k]))
    {
      k := k - 1;
    }
    if k > 0 {
      LessTotal(key(x), key(sorted[k - 1]));
    }
    r := sorted[..k] + [x] + sorted[k..];
    Inserted(sorted, k, x, key);
  }

  lemma Inserted<T>(sorted: seq<T>, k: nat, x: T, key: T -> Bytes)
    requires Ascending(sorted, key) && k <= |sorted|
    requires k < |sorted| ==> Less(key(x), key(sorted[k]))
    requires k > 0 ==> Less(key(sorted[k - 1]), key(x))
    ensures Ascending(sorted[..k] + [x] + sorted[k..], key)
  {
    var r := sorted[..k] + [x] + sorted[k..];
    forall i, j | 0 <= i < j < |r| ensures Less(key(r[i]), key(r[j])) {
      if i < k == j {
        if i < k - 1 {
          LessTransitive(key(sorted[i]), key(sorted[k - 1]), key(x));
        }
      } else if i == k < j {
        if j > k + 1 {
          LessTransitive(key(x), key(sorted[k]), key(sorted[j - 1]));
        }
      }
    }
  }
}
