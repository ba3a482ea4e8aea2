/** Agent effort: how much time at least one activity of an agent was running, summed over agents. */
module Effort {

  datatype Interval = Interval(start: int, end: int)

  predicate Within(i: Interval, t: int) {
    i.start <= t < i.end
  }

  // The instants an interval covers; its end is not one of them.
  function Points(i: Interval): set<int> {
    set t: int | i.start <= t < i.end && Within(i, t)
  }

  function Covered(intervals: seq<Interval>): set<int> {
    if intervals == [] then {} else Covered(intervals[..|intervals| - 1]) + Points(intervals[|intervals| - 1])
  }

  lemma {:induction false} CoveredBy(intervals: seq<Interval>, t: int)
    ensures t in Covered(intervals) <==> exists i :: i in intervals && t in Points(i)
  {
    if intervals != [] {
      var front, last := intervals[..|intervals| - 1], intervals[|intervals| - 1];
      CoveredBy(front, t);
      assert intervals == front + [last];
    }
  }

  // Only which intervals there are matters, not their order.
  lemma CoveredMonotone(a: seq<Interval>, b: seq<Interval>)
    requires forall i :: i in a ==> exists j :: j in b && Points(i) <= Points(j)
    ensures Covered(a) <= Covered(b)
  {
    forall t | t in Covered(a) ensures t in Covered(b) {
      CoveredBy(a, t);
      CoveredBy(b, t);
      var i :| i in a && t in Points(i);
      var j :| j in b && Points(i) <= Points(j);
    }
  }

  lemma CoveredSame(a: seq<Interval>, b: seq<Interval>)
    requires forall i :: i in a <==> i in b
    ensures Covered(a) == Covered(b)
  {
    CoveredMonotone(a, b);
    CoveredMonotone(b, a);
  }

  lemma {:induction false} LengthOfPoints(start: int, end: int)
    requires start <= end
    ensures |Points(Interval(start, end))| == end - start
    decreases end - start
  {
    if start < end {
      LengthOfPoints(start, end - 1);
      assert Points(Interval(start, end)) == Points(Interval(start, end - 1)) + {end - 1};
    } else {
      assert Points(Interval(start, end)) == {};
    }
  }

  lemma Subset<T>(a: set<T>, b: set<T>)
    requires a <= b
    ensures |a| <= |b|
  {
    assert b == a + (b - a);
  }

  predicate Sorted(intervals: seq<Interval>) {
    forall j, k :: 0 <= j < k < |intervals| ==> intervals[j].start <= intervals[k].start
  }

  predicate Forward(intervals: seq<Interval>) {
    forall i :: i in intervals ==> i.start <= i.end
  }

  // sort.Slice by start; what it promises is all its callers use.
  method SortByStart(intervals: seq<Interval>) returns (sorted: seq<Interval>)
    ensures Sorted(sorted)
    ensures forall i :: i in sorted <==> i in intervals
    ensures |sorted| == |intervals|
  {
    sorted := [];
    for k := 0 to |intervals|
      invariant Sorted(sorted) && |sorted| == k
      invariant forall i :: i in sorted <==> i in intervals[..k]
    {
      assert intervals[..k + 1] == intervals[..k] + [intervals[k]];
      sorted := InsertByStart(sorted, intervals[k]);
    }
    assert intervals[..|intervals|] == intervals;
  }

  method InsertByStart(sorted: seq<Interval>, x: Interval) returns (r: seq<Interval>)
    requires Sorted(sorted)
    ensures Sorted(r) && |r| == |sorted| + 1
    ensures forall i :: i in r <==> i in sorted || i == x
  {
    var k := |sorted|;
    while k > 0 && sorted[k - 1].start > x.start
      invariant 0 <= k <= |sorted|
      invariant forall j :: k <= j < |sorted| ==> x.start <= sorted[j].start
    {
      k := k - 1;
    }
    r := sorted[..k] + [x] + sorted[k..];
  }

  // What the merging loop knows: everything below start is counted in total, the rest is one block.
  predicate Merged(covered: set<int>, low: set<int>, total: int, start: int, end: int) {
    && start <= end
    && covered == low + Points(Interval(start, end))
    && |low| == total
    && forall t :: t in low ==> t < start
  }

  lemma MergeExtends(covered: set<int>, low: set<int>, total: int, start: int, end: int, next: Interval)
    requires Merged(covered, low, total, start, end)
    requires start <= next.start <= end && next.start <= next.end
    ensures Merged(covered + Points(next), low, total, start, if next.end > end then next.end else end)
  {
  }

  lemma MergeCloses(covered: set<int>, low: set<int>, total: int, start: int, end: int, next: Interval)
    requires Merged(covered, low, total, start, end)
    requires end < next.start <= next.end
    ensures Merged(covered + Points(next), covered, total + (end - start), next.start, next.end)
  {
    LengthOfPoints(start, end);
    assert low !! Points(Interval(start, end));
  }

  lemma MergedLength(covered: set<int>, low: set<int>, total: int, start: int, end: int)
    requires Merged(covered, low, total, start, end)
    ensures |covered| == total + (end - start)
  {
    LengthOfPoints(start, end);
    assert low !! Points(Interval(start, end));
  }

  lemma CoveredNext(intervals: seq<Interval>, k: nat)
    requires k < |intervals|
    ensures Covered(intervals[..k + 1]) == Covered(intervals[..k]) + Points(intervals[k])
  {
    assert intervals[..k + 1][..k] == intervals[..k];
  }

  // mergedDuration: the size of the union, whatever the order and the overlaps.
  method MergedDuration(intervals: seq<Interval>) returns (total: int)
    requires Forward(intervals)
    ensures total == |Covered(intervals)|
  {
    if |intervals| == 0 {
      return 0;
    }
    var sorted := SortByStart(intervals);
    CoveredSame(sorted, intervals);
    var start, end := sorted[0].start, sorted[0].end;
    total := 0;
    ghost var low: set<int> := {};
    for k := 1 to |sorted|
      invariant Merged(Covered(sorted[..k]), low, total, start, end)
      invariant start <= sorted[k - 1].start
    {
      var next := sorted[k];
      assert next in sorted;
      CoveredNext(sorted, k);
      if next.start <= end {
        MergeExtends(Covered(sorted[..k]), low, total, start, end, next);
        if next.end > end {
          end := next.end;
        }
      } else {
        MergeCloses(Covered(sorted[..k]), low, total, start, end, next);
        low := Covered(sorted[..k]);
        total := total + (end - start);
        start, end := next.start, next.end;
      }
    }
    assert sorted[..|sorted|] == sorted;
    MergedLength(Covered(sorted), low, total, start, end);
    total := total + (end - start);
  }

  // positiveDuration, with 0 as the zero time.
  function PositiveDuration(start: int, end: int): (r: int)
    ensures r >= 0
    ensures r > 0 <==> start != 0 && start < end
    ensures r > 0 ==> r == end - start
  {
    if start == 0 || end < start then 0 else end - start
  }

  function EffortAgent(agent: string): string {
    if agent == "" then "main" else agent
  }

  // ---------- per agent ----------

  type ByAgent = map<string, seq<Interval>>

  predicate AllForward(m: ByAgent) {
    forall agent :: agent in m ==> Forward(m[agent])
  }

  // The agent-instants covered.
  function Instants(m: ByAgent): set<(string, int)> {
    set agent, t | agent in m && t in Covered(m[agent]) :: (agent, t)
  }

  function Added(m: ByAgent, agent: string, i: Interval): (r: ByAgent)
    ensures agent in r
    ensures forall a :: a in r <==> a in m || a == agent
  {
    m[agent := (if agent in m then m[agent] else []) + [i]]
  }

  lemma AddedInstants(m: ByAgent, agent: string, i: Interval)
    ensures forall a, t :: (a, t) in Instants(Added(m, agent, i)) <==> (a, t) in Instants(m) || (a == agent && t in Points(i))
  {
    var before := if agent in m then m[agent] else [];
    assert (before + [i])[..|before|] == before;
    assert Covered(before + [i]) == Covered(before) + Points(i);
  }

  lemma Member<T>(s: set<T>) returns (t: T)
    requires s != {}
    ensures t in s
  {
    t :| t in s;
  }

  function Pairs(agent: string, covered: set<int>): set<(string, int)> {
    set t | t in covered :: (agent, t)
  }

  lemma {:induction false} OneAgent(agent: string, s: set<int>)
    ensures |Pairs(agent, s)| == |s|
  {
    if s != {} {
      var t := Member(s);
      OneAgent(agent, s - {t});
      assert Pairs(agent, s) == Pairs(agent, s - {t}) + {(agent, t)};
    } else {
      assert Pairs(agent, s) == {};
    }
  }

  // The agent-instants of some of the agents.
  function InstantsOf(m: ByAgent, agents: set<string>): set<(string, int)>
    requires agents <= m.Keys
  {
    set agent, t | agent in agents && t in Covered(m[agent]) :: (agent, t)
  }

  lemma OneMore(m: ByAgent, agents: set<string>, agent: string)
    requires agents <= m.Keys && agent in m && agent !in agents
    ensures |InstantsOf(m, agents + {agent})| == |InstantsOf(m, agents)| + |Covered(m[agent])|
  {
    var added := Pairs(agent, Covered(m[agent]));
    OneAgent(agent, Covered(m[agent]));
    assert InstantsOf(m, agents + {agent}) == InstantsOf(m, agents) + added;
    assert InstantsOf(m, agents) !! added;
  }

  // The sum over agents of their merged durations; the map may be walked in any order.
  method TotalEffort(m: ByAgent) returns (total: int)
    requires AllForward(m)
    ensures total == |Instants(m)|
  {
    total := 0;
    var left := m.Keys;
    ghost var done: set<string> := {};
    assert InstantsOf(m, {}) == {};
    while left != {}
      invariant done !! left && done + left == m.Keys
      invariant total == |InstantsOf(m, done)|
      decreases left
    {
      var agent :| agent in left;
      var one := MergedDuration(m[agent]);
      OneMore(m, done, agent);
      total := total + one;
      left := left - {agent};
      done := done + {agent};
    }
    assert InstantsOf(m, done) == Instants(m);
  }
}
