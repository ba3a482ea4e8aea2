/** The effort spent inside retry cycles, against all of an agent's effort. */
module ReworkEffort {
  import opened Effort
  import opened ReworkEvents
  import opened ReworkCycles

  function Whole(e: Event): Interval {
    Interval(e.startedAt, e.endedAt)
  }

  // The part of an event that lies inside a cycle.
  function Clip(e: Event, c: Cycle): Interval {
    Interval(if e.startedAt < c.startedAt then c.startedAt else e.startedAt,
             if e.endedAt > c.endedAt then c.endedAt else e.endedAt)
  }

  predicate Counts(e: Event, agent: string) {
    Duration(e) > 0 && EffortAgent(e.agentId) == agent
  }

  // The agent-instants at which some event of the agent was running.
  function ActiveInstants(events: seq<Event>): set<(string, int)> {
    set e, t | e in events && Duration(e) > 0 && t in Points(Whole(e)) :: (EffortAgent(e.agentId), t)
  }

  // The agent-instants at which some event of a cycle's agent was running inside the cycle.
  function CycleInstants(events: seq<Event>, cycles: seq<Cycle>): set<(string, int)> {
    set c, e, t | c in cycles && e in events && Counts(e, EffortAgent(c.agentId)) && t in Points(Clip(e, c))
      :: (EffortAgent(c.agentId), t)
  }

  // AnalyzeRun's active duration.
  method ActiveDuration(events: seq<Event>) returns (active: int)
    ensures active == |ActiveInstants(events)|
  {
    var intervals: ByAgent := map[];
    for k := 0 to |events|
      invariant AllForward(intervals)
      invariant Instants(intervals) == ActiveInstants(events[..k])
    {
      var e := events[k];
      assert events[..k + 1] == events[..k] + [e];
      if Duration(e) > 0 {
        AddedInstants(intervals, EffortAgent(e.agentId), Whole(e));
        intervals := Added(intervals, EffortAgent(e.agentId), Whole(e));
      }
    }
    assert events[..|events|] == events;
    active := TotalEffort(intervals);
  }

  // What one more event adds to a cycle.
  function Adds(e: Event, c: Cycle): set<(string, int)> {
    if Counts(e, EffortAgent(c.agentId)) then set t | t in Points(Clip(e, c)) :: (EffortAgent(c.agentId), t) else {}
  }

  lemma CycleInstantsNext(events: seq<Event>, k: nat, c: Cycle)
    requires k < |events|
    ensures CycleInstants(events[..k + 1], [c]) == CycleInstants(events[..k], [c]) + Adds(events[k], c)
  {
    assert events[..k + 1] == events[..k] + [events[k]];
  }

  // aggregateCycleEffort's inner loop, for one cycle.
  method CollectCycle(events: seq<Event>, c: Cycle, before: ByAgent) returns (intervals: ByAgent)
    requires AllForward(before)
    ensures AllForward(intervals)
    ensures Instants(intervals) == Instants(before) + CycleInstants(events, [c])
  {
    var agent := EffortAgent(c.agentId);
    intervals := before;
    for k := 0 to |events|
      invariant AllForward(intervals)
      invariant Instants(intervals) == Instants(before) + CycleInstants(events[..k], [c])
    {
      var e := events[k];
      CycleInstantsNext(events, k, c);
      if Duration(e) <= 0 || EffortAgent(e.agentId) != agent {
        continue;
      }
      var part := Clip(e, c);
      if part.end > part.start {
        AddedInstants(intervals, agent, part);
        intervals := Added(intervals, agent, part);
      }
    }
    assert events[..|events|] == events;
  }

  // The duration part of aggregateCycleEffort.
  method CycleEffort(events: seq<Event>, cycles: seq<Cycle>) returns (duration: int)
    ensures duration == |CycleInstants(events, cycles)|
  {
    var intervals: ByAgent := map[];
    for k := 0 to |cycles|
      invariant AllForward(intervals)
      invariant Instants(intervals) == CycleInstants(events, cycles[..k])
    {
      assert cycles[..k + 1] == cycles[..k] + [cycles[k]];
      intervals := CollectCycle(events, cycles[k], intervals);
    }
    assert cycles[..|cycles|] == cycles;
    duration := TotalEffort(intervals);
  }

  // Rework effort is part of agent effort, whatever the cycles are.
  lemma ReworkWithinEffort(events: seq<Event>, cycles: seq<Cycle>)
    ensures CycleInstants(events, cycles) <= ActiveInstants(events)
    ensures |CycleInstants(events, cycles)| <= |ActiveInstants(events)|
  {
    forall p | p in CycleInstants(events, cycles) ensures p in ActiveInstants(events) {
      var c, e, t :| c in cycles && e in events && Counts(e, EffortAgent(c.agentId)) && t in Points(Clip(e, c))
        && p == (EffortAgent(c.agentId), t);
      assert t in Points(Whole(e));
    }
    Subset(CycleInstants(events, cycles), ActiveInstants(events));
  }
}
