/** A forest kept in an array: every index points towards the root of its tree. */
module UnionFind {

  // root and depth witness that following parent ends: depth falls along every edge, and root stays the same.
  ghost predicate Edge(parent: seq<nat>, root: seq<nat>, depth: seq<nat>, i: nat)
    requires |parent| == |root| == |depth| && i < |parent|
  {
    && parent[i] < |parent| && root[i] < |parent|
    && root[parent[i]] == root[i]
    && (parent[i] == i <==> root[i] == i)
    && (parent[i] != i ==> depth[parent[i]] < depth[i])
    && (root[i] != i ==> depth[root[i]] < depth[i])
    && root[root[i]] == root[i]
  }

  ghost predicate Forest(parent: seq<nat>, root: seq<nat>, depth: seq<nat>) {
    |parent| == |root| == |depth| && forall i: nat :: i < |parent| ==> Edge(parent, root, depth, i)
  }

  lemma Compressed(parent: seq<nat>, root: seq<nat>, depth: seq<nat>, i: nat)
    requires Forest(parent, root, depth) && i < |parent| && parent[i] != i
    ensures Forest(parent[i := root[i]], root, depth)
  {
    var shorter := parent[i := root[i]];
    assert Edge(parent, root, depth, i);
    forall j: nat | j < |shorter| ensures Edge(shorter, root, depth, j) {
      assert Edge(parent, root, depth, j);
    }
  }

  // find, which points everything it passes straight at the root.
  method Find(parent: array<nat>, value: nat, ghost root: seq<nat>, ghost depth: seq<nat>) returns (r: nat)
    requires Forest(parent[..], root, depth) && value < parent.Length
    modifies parent
    ensures Forest(parent[..], root, depth)
    ensures r == root[value]
    decreases depth[value]
  {
    assert Edge(parent[..], root, depth, value);
    if parent[value] != value {
      var top := Find(parent, parent[value], root, depth);
      ghost var before := parent[..];
      assert Edge(before, root, depth, value);
      if before[value] != value {
        Compressed(before, root, depth, value);
      }
      parent[value] := top;
      assert parent[..] == before[value := top];
    }
    r := parent[value];
  }

  // The classes after everything under the root gone moves under the root kept.
  function Merged(root: seq<nat>, kept: nat, gone: nat): (r: seq<nat>)
    ensures |r| == |root|
  {
    seq(|root|, i requires 0 <= i < |root| => if root[i] == gone then kept else root[i])
  }

  function Lowered(root: seq<nat>, depth: seq<nat>, kept: nat, gone: nat): (r: seq<nat>)
    requires |root| == |depth| && kept < |depth|
    ensures |r| == |root|
  {
    seq(|root|, i requires 0 <= i < |root| => if root[i] == gone then depth[i] + depth[kept] + 1 else depth[i])
  }

  lemma Linked(parent: seq<nat>, root: seq<nat>, depth: seq<nat>, kept: nat, gone: nat)
    requires Forest(parent, root, depth) && kept < |parent| && gone < |parent|
    requires root[kept] == kept && root[gone] == gone && kept != gone
    ensures Forest(parent[gone := kept], Merged(root, kept, gone), Lowered(root, depth, kept, gone))
  {
    var parent', root', depth' := parent[gone := kept], Merged(root, kept, gone), Lowered(root, depth, kept, gone);
    forall i: nat | i < |parent'| ensures Edge(parent', root', depth', i) {
      assert Edge(parent, root, depth, i);
    }
  }

  method Join(parent: array<nat>, left: nat, right: nat, ghost root: seq<nat>, ghost depth: seq<nat>)
    returns (ghost root': seq<nat>, ghost depth': seq<nat>)
    requires Forest(parent[..], root, depth) && left < parent.Length && right < parent.Length
    modifies parent
    ensures Forest(parent[..], root', depth')
    ensures root' == Merged(root, root[left], root[right])
  {
    var l := Find(parent, left, root, depth);
    var r := Find(parent, right, root, depth);
    assert Edge(parent[..], root, depth, left) && Edge(parent[..], root, depth, right);
    root', depth' := root, depth;
    if l != r {
      Linked(parent[..], root, depth, l, r);
      ghost var before := parent[..];
      parent[r] := l;
      assert parent[..] == before[r := l];
      root', depth' := Merged(root, l, r), Lowered(root, depth, l, r);
    } else {
      assert Merged(root, l, r) == root;
    }
  }
}
