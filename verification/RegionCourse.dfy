/**
 The course of a region run as a function: which node runs when, with which
 result. The runner follows it, so what it answers depends on the Flow, the
 trigger, the nodes' behaviour and the session state alone.
 */
module RegionCourse {
  import opened SessionTypes
  import opened RegionPlanner
  import opened RegionRun
  import opened RegionThread
  import opened RegionOutputs

  datatype Course = Course(rs: RunState, th: Thread, failure: Option<Failure>)

  /** A look at one node: it runs if it can. */
  ghost function Visit(b: Behaviour, r: Region, c: Course, n: Node): Course {
    if !Runnable(c.rs, n) then c
    else
      var res := RunNode(b, r, c.th, n);
      if res.Err? then c.(failure := Some(res.failure))
      else Course(Executed(r, c.rs, n, res.value.target), After(c.th, n, res.value), None)
  }

  /** The rest of a pass over nodes; it ends at the first failure. */
  ghost function Sweep(b: Behaviour, r: Region, c: Course, pass: seq<Node>, i: nat): Course
    requires i <= |pass|
    decreases |pass| - i
  {
    if i == |pass| || c.failure.Some? then c else Sweep(b, r, Visit(b, r, c, pass[i]), pass, i + 1)
  }

  /** The course after `k` passes, each over the nodes that are known when it begins. */
  ghost function Passes(b: Behaviour, r: Region, c: Course, k: nat): Course {
    if k == 0 then c
    else
      var before := Passes(b, r, c, k - 1);
      Sweep(b, r, before, before.rs.execution, 0)
  }

  /** Nothing is left to do: a node failed, or all have run. */
  ghost predicate Settled(nodes: seq<Node>, r: Region, c: Course) {
    c.failure.Some? || (RunInv(nodes, r, c.rs) && |c.rs.nodeIds| == |c.rs.execution|)
  }

  lemma {:induction false} NothingRunnable(nodes: seq<Node>, r: Region, rs: RunState, n: Node)
    requires RunInv(nodes, r, rs) && |rs.nodeIds| == |rs.execution|
    ensures !Runnable(rs, n)
  {
    hide UniqueIds, InOrder, NoRepeats, RoutesTaken, BaseNodes, RoutesSkipped, Origin, ChoicesOk, Elements, Ready;
    RemainingCounts(nodes, r, rs);
    if n in rs.execution {
      InExecution(rs, n);
    }
  }

  lemma {:induction false} SweepIdles(nodes: seq<Node>, r: Region, b: Behaviour, c: Course, pass: seq<Node>, i: nat)
    requires Settled(nodes, r, c) && i <= |pass|
    ensures Sweep(b, r, c, pass, i) == c
    decreases |pass| - i
  {
    hide RunInv, Runnable;
    if i < |pass| && c.failure.None? {
      NothingRunnable(nodes, r, c.rs, pass[i]);
      SweepIdles(nodes, r, b, c, pass, i + 1);
    }
  }

  /** Further passes change nothing once a course is settled. */
  lemma {:induction false} SettledStays(nodes: seq<Node>, r: Region, b: Behaviour, c: Course, k: nat, m: nat)
    requires k <= m && Settled(nodes, r, Passes(b, r, c, k))
    ensures Passes(b, r, c, m) == Passes(b, r, c, k)
    decreases m - k
  {
    hide Settled, Sweep;
    if k < m {
      SettledStays(nodes, r, b, c, k, m - 1);
      var before := Passes(b, r, c, m - 1);
      SweepIdles(nodes, r, b, before, before.rs.execution, 0);
    }
  }

  /** There are at least as many passes to take as there are nodes to run. */
  lemma {:induction false} ExecutionFits(nodes: seq<Node>, r: Region, rs: RunState)
    requires RunInv(nodes, r, rs)
    ensures |rs.execution| <= |Universe(r)|
  {
    hide InOrder, NoRepeats, BaseNodes, RoutesSkipped, Origin, Elements, Ids, RouteIds, UniqueIds;
    IdsSize(rs.execution);
    forall x | x in RoutesTaken(r, rs.chosen) ensures x in Universe(r) {
      var c :| c in rs.chosen && x in RouteIds(r, rs.chosen[c]);
      assert x in RouteIds(r, (c, rs.chosen[c]).1);
    }
    SubsetSize(Ids(rs.execution), Universe(r));
  }

  // ---------------------------------------------------------------- the answer

  datatype Answer =
    | Idle
    | Refused
    | Stopped(failure: Failure)
    | Finished(state: State, nodeIds: seq<string>, routes: map<string, string>, outputs: seq<Output>)

  function Begun(nodes: seq<Node>, r: Region, state: State): Course {
    Course(StartState(nodes, r), Thread(state, map[], map[]), None)
  }

  /** The course of a whole run. */
  ghost function CourseOf(nodes: seq<Node>, r: Region, b: Behaviour, state: State): Course {
    Passes(b, r, Begun(nodes, r, state), |Universe(r)|)
  }

  ghost function OutputsOf(b: Behaviour, correlation: string, c: Course): seq<Output> {
    Emitted(b, Gathered(c.rs.execution, c.rs.scheduled, c.th.outputs), correlation, c.rs.nodeIds)
  }

  ghost function AnswerAt(b: Behaviour, correlation: string, c: Course): Answer {
    if c.failure.Some? then Stopped(c.failure.value)
    else if !WithinLimits(OutputsOf(b, correlation, c)) then Stopped(OutputTooLarge)
    else Finished(c.th.state, c.rs.nodeIds, c.th.routes, OutputsOf(b, correlation, c))
  }

  /** The region of a trigger, if the planner accepts it. */
  ghost function PlanOf(c: Compiled, trigger: Trigger): Option<Region> {
    if exists o: map<string, string> :: Accepted(c, trigger, o) then
      var o: map<string, string> :| Accepted(c, trigger, o);
      Some(Planned(c, trigger.entry, o))
    else None
  }

  /** The plan does not depend on how owners were found. */
  lemma {:induction false} PlanIs(c: Compiled, trigger: Trigger, o: map<string, string>)
    requires Accepted(c, trigger, o)
    ensures PlanOf(c, trigger) == Some(Planned(c, trigger.entry, o))
  {
    hide Planned, RoutesValid, OwnersMatch, EdgesIndexed, RoutesSeparate, ScopesValid, EdgesValid, Closure, SpecsIn;
    forall p: map<string, string> | Accepted(c, trigger, p) ensures p == o {
      OwnersUnique(SpecsIn(c.nodes, Closure(c.nodes, {trigger.entry})), p, o);
    }
  }

  /** What running the region of a trigger comes to. */
  ghost function AnswerOf(c: Compiled, trigger: Option<Trigger>, b: Behaviour, correlation: string,
                          state: State): Answer {
    if trigger.None? then Idle
    else
      var r := PlanOf(c, trigger.value);
      if r.None? then Refused else AnswerAt(b, correlation, CourseOf(c.nodes, r.value, b, state))
  }
}
