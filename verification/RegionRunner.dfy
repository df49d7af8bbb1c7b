/**
 The runner of an event region: it executes nodes in dependency order, passes the
 session state from node to node and splices in the route that a branch chooses.
 */
module RegionRunner {
  import opened SessionTypes
  import opened RegionPlanner
  import opened RegionRun
  import opened RegionThread
  import opened RegionOutputs
  import opened RegionCourse
  import opened RegionAcceptance

  /** The nodes of the route to `t` are distinct, and none of them is scheduled. */
  predicate RouteIsNew(r: Region, scheduled: set<string>, n: Node, t: string)
    requires (n.id, t) in r.targets && t in r.downstream
  {
    var added := [Spliced(r, n.id, t)] + r.downstream[t];
    && Spliced(r, n.id, t).id == t
    && UniqueIds(added)
    && Ids(added) == RouteIds(r, t)
    && Ids(added) !! scheduled
  }

  /** Where a run stopped: the node that failed, and what the nodes before it had left. */
  datatype Stop = Stop(node: Node, th: Thread)

  class Runner {
    const nodes: seq<Node>
    const region: Region
    const behaviour: Behaviour
    const start: State

    var outputs: map<string, Values>
    var done: set<string>
    var scheduled: set<string>
    var executionNodes: seq<Node>
    var nodeIds: seq<string>
    var branchRoutes: map<string, string>
    var remaining: int
    var sessionState: State

    ghost var chosen: map<string, string>
    ghost var trace: seq<Node>

    ghost function Now(): RunState
      reads this
    {
      RunState(executionNodes, scheduled, done, nodeIds, chosen)
    }

    function Left(): Thread
      reads this
    {
      Thread(sessionState, outputs, branchRoutes)
    }

    ghost predicate Valid()
      reads this
    {
      && RunInv(nodes, region, Now())
      && ThreadInv(nodes, region, behaviour, start, Now(), trace, Left())
      && remaining == |executionNodes| - |nodeIds|
    }

    constructor (nodes: seq<Node>, region: Region, behaviour: Behaviour, state: State, ghost rank: string -> nat)
      requires Geometry(nodes, region, rank)
      ensures this.nodes == nodes && this.region == region && this.behaviour == behaviour && start == state
      ensures Valid() && Now() == StartState(nodes, region) && Left() == Thread(state, map[], map[])
    {
      hide Geometry, RunInv;
      var execution: seq<Node> := [];
      var ids: set<string> := {};
      for i := 0 to |nodes|
        invariant execution == Members(nodes[..i], region.base) && ids == Ids(execution)
      {
        MembersExtend(nodes, region.base, i);
        if nodes[i].id in region.base {
          execution := execution + [nodes[i]];
          ids := ids + {nodes[i].id};
        }
      }
      assert nodes[..|nodes|] == nodes;
      StartInv(nodes, region, rank);
      this.nodes, this.region, this.behaviour, start := nodes, region, behaviour, state;
      outputs, done, scheduled, executionNodes := map[], {}, ids, execution;
      nodeIds, branchRoutes, remaining, sessionState := [], map[], |execution|, state;
      chosen, trace := map[], [];
    }

    /** Whether every dependency of the node is done. */
    method IsReady(n: Node) returns (ready: bool)
      ensures ready == Ready(Now(), n)
    {
      for i := 0 to |n.deps|
        invariant forall k | 0 <= k < i :: n.deps[k] in done
      {
        if n.deps[i] !in done {
          return false;
        }
      }
      return true;
    }

    /** Splices the route to `target` in, unless a node of it is scheduled already. */
    method ScheduleBranch(target: Option<Node>) returns (failure: Option<Failure>)
      modifies this`done, this`scheduled, this`executionNodes, this`remaining
      ensures target.None? ==> failure.None? && unchanged(this)
      ensures target.Some? ==>
                (failure.None? <==> && UniqueIds([target.value] + Downstream(region, target.value.id))
                                    && Ids([target.value] + Downstream(region, target.value.id)) !! old(scheduled))
      ensures target.Some? && failure.None? ==>
                var added := [target.value] + Downstream(region, target.value.id);
                && executionNodes == old(executionNodes) + added
                && scheduled == old(scheduled) + Ids(added)
                && done == old(done) + SkippedIds(region, target.value.id)
                && remaining == old(remaining) + |added|
      ensures failure.Some? ==> failure.value.AlreadyScheduled?
    {
      hide Ids, UniqueIds, SkippedIds, Downstream;
      if target.None? {
        return None;
      }
      var t := target.value;
      ghost var added := [t] + Downstream(region, t.id);
      NoneTaken(added, scheduled);
      TakeOne(added, 0, scheduled);
      if t.id in scheduled {
        return Some(AlreadyScheduled(t.id));
      }
      done := done + SkippedIds(region, t.id);
      executionNodes := executionNodes + [t];
      scheduled := scheduled + {t.id};
      remaining := remaining + 1;
      var rest := Downstream(region, t.id);
      assert added[..1] == [t] && added[..0 + 1] == [t];
      for i := 0 to |rest|
        invariant done == old(done) + SkippedIds(region, t.id)
        invariant executionNodes == old(executionNodes) + added[..i + 1]
        invariant scheduled == old(scheduled) + Ids(added[..i + 1])
        invariant remaining == old(remaining) + i + 1
        invariant UniqueIds(added[..i + 1]) && Ids(added[..i + 1]) !! old(scheduled)
      {
        TakeOne(added, i + 1, old(scheduled));
        if rest[i].id in scheduled {
          return Some(AlreadyScheduled(rest[i].id));
        }
        executionNodes := executionNodes + [rest[i]];
        scheduled := scheduled + {rest[i].id};
        remaining := remaining + 1;
      }
      assert added[..|added|] == added;
      return None;
    }

    /**
     Runs the action of a node and checks its result. A branch puts its route on record even when
     its result is then refused; nothing else is touched.
     */
    method RunAction(n: Node) returns (result: Result<Ran>)
      modifies this`branchRoutes
      ensures result == RunNode(behaviour, region, old(Left()), n)
      ensures branchRoutes == RoutesAfter(behaviour, region, old(Left()), n)
      ensures result.Ok? ==> branchRoutes == After(old(Left()), n, result.value).routes
    {
      hide Choose;
      match n.kind
      case Branch =>
        if n.branch.None? {
          return Err(BranchMissing(n.id));
        }
        var spec := n.branch.value;
        if spec.source !in outputs {
          return Err(SourceMissing(n.id));
        }
        var c := Choose(behaviour, spec.cases, spec.defaultTo, outputs[spec.source]);
        if (n.id, c.target) !in region.targets {
          return Err(TargetMissing(n.id));
        }
        branchRoutes := branchRoutes[n.id := c.route];
        result := Validated(behaviour, n, map["choice" := Other(c.route)], Some(c.target), c.route);
      case Unsupported =>
        result := Err(UnsupportedKind(n.id));
      case _ =>
        var values := behaviour.run(n, sessionState, outputs);
        if values.None? {
          return Err(NodeFailed(n.id));
        }
        result := Validated(behaviour, n, values.value, None, "");
    }

    /** Schedules a route that is new. */
    method TakeRoute(n: Node, t: string) returns (failure: Option<Failure>)
      requires (n.id, t) in region.targets && t in region.downstream && RouteIsNew(region, scheduled, n, t)
      modifies this`done, this`scheduled, this`executionNodes, this`remaining, this`chosen
      ensures failure.None?
      ensures executionNodes == old(executionNodes) + ([Spliced(region, n.id, t)] + region.downstream[t])
      ensures scheduled == old(scheduled) + RouteIds(region, t) && done == old(done) + SkippedIds(region, t)
      ensures remaining == old(remaining) + |executionNodes| - |old(executionNodes)|
      ensures chosen == old(chosen)[n.id := t]
    {
      hide SkippedIds, RouteIds, Ids, UniqueIds, Spliced;
      chosen := chosen[n.id := t];
      failure := ScheduleBranch(Some(Spliced(region, n.id, t)));
    }

    /** Records that a node ran and schedules the route that a branch chose. */
    method Record(n: Node, choice: Option<string>) returns (failure: Option<Failure>)
      requires choice.Some? ==> (n.id, choice.value) in region.targets && choice.value in region.downstream
      requires choice.Some? ==> RouteIsNew(region, scheduled, n, choice.value)
      modifies this`done, this`scheduled, this`executionNodes, this`remaining, this`chosen, this`nodeIds, this`trace
      ensures failure.None?
      ensures Now() == Executed(region, old(Now()), n, choice)
      ensures trace == old(trace) + [n] && nodeIds == old(nodeIds) + [n.id]
      ensures remaining == old(remaining) - 1 + |executionNodes| - |old(executionNodes)|
    {
      hide SkippedIds, RouteIds, RouteIsNew, Spliced;
      ghost var rs := Now();
      done := done + {n.id};
      nodeIds := nodeIds + [n.id];
      remaining := remaining - 1;
      trace := trace + [n];
      if choice.None? {
        failure := ScheduleBranch(None);
        assert Now() == Executed(region, rs, n, None);
      } else {
        failure := TakeRoute(n, choice.value);
        assert Now() == Executed(region, rs, n, choice);
      }
    }

    /** Executes one node; it can only fail on its own account, and then it has not run. */
    method ExecuteNode(n: Node, ghost rank: string -> nat) returns (failure: Option<Failure>)
      requires Geometry(nodes, region, rank) && Valid() && Runnable(Now(), n)
      modifies this
      ensures failure.None? <==> RunNode(behaviour, region, old(Left()), n).Ok?
      ensures failure.None? ==>
                var ran := RunNode(behaviour, region, old(Left()), n).value;
                && Valid()
                && AboutToRun(region, old(Now()), n, ran.target)
                && Now() == Executed(region, old(Now()), n, ran.target)
                && Left() == After(old(Left()), n, ran)
                && trace == old(trace) + [n]
      ensures failure.Some? ==>
                && RunNode(behaviour, region, old(Left()), n) == Err(failure.value)
                && (failure.value == NodeFailed(n.id) || failure.value == ResultRefused(n.id))
                && Now() == old(Now()) && trace == old(trace)
                && Left() == old(Left()).(routes := RoutesAfter(behaviour, region, old(Left()), n))
    {
      hide Geometry, RunInv, ThreadInv, Runnable, RunNode, Executed, RouteIsNew, Ready;
      ghost var rs, th := Now(), Left();
      ThreadOutputs(nodes, region, behaviour, start, rs, trace, th);
      RunNodeSound(nodes, region, rank, behaviour, rs, th, n);
      var result := RunAction(n);
      if result.Err? {
        return Some(result.failure);
      }
      var ran := result.value;
      StepInv(nodes, region, rank, rs, n, ran.target);
      ThreadStep(nodes, region, rank, behaviour, start, rs, trace, th, n);
      SpliceOk(nodes, region, rank, rs, n, ran.target);
      if ran.state.Some? {
        sessionState := ran.state.value;
      }
      outputs := outputs[n.id := ran.values];
      failure := Record(n, ran.target);
      assert Left() == After(th, n, ran);
    }

    /**
     Runs the region: passes over the scheduled nodes, each pass over those known when
     it began, until nothing is left. Without progress it gives up, stuck.
     */
    method Execute(correlation: string, ghost rank: string -> nat)
      returns (result: Result<seq<Output>>, ghost passes: nat, ghost stop: Stop)
      requires Geometry(nodes, region, rank) && Valid()
      modifies this
      ensures RunInv(nodes, region, Now())
      ensures result.Err? && result.failure == NoProgress ==> Stuck(Now())
      ensures result.Err? ==>
                || result.failure.NodeFailed? || result.failure.ResultRefused?
                || result.failure.OutputTooLarge? || result.failure.NoProgress?
      ensures passes <= |Universe(region)|
      ensures result.Err? && (result.failure.NodeFailed? || result.failure.ResultRefused?) ==>
                && Passes(behaviour, region, old(Course(Now(), Left(), None)), passes).failure == Some(result.failure)
                && Runnable(Now(), stop.node) && RunNode(behaviour, region, stop.th, stop.node) == Err(result.failure)
                && ThreadInv(nodes, region, behaviour, start, Now(), trace, stop.th)
      ensures result.Ok? || result.failure.OutputTooLarge? ==>
                var c := Passes(behaviour, region, old(Course(Now(), Left(), None)), passes);
                && c == Course(Now(), Left(), None) && Valid() && remaining == 0
                && (result.Ok? <==> WithinLimits(OutputsOf(behaviour, correlation, c)))
                && (result.Ok? ==> result.value == OutputsOf(behaviour, correlation, c))
    {
      hide Geometry, RunInv, ThreadInv, Runnable, Emitted, RunNode, After, Universe, WithinLimits, Visit, Sweep,
           RoutesAfter;
      ghost var first := Course(Now(), Left(), None);
      passes, stop := 0, Stop(Node("", Unsupported, [], None, false), Left());
      ExecutionFits(nodes, region, Now());
      RemainingCounts(nodes, region, Now());
      while remaining > 0
        invariant Valid() && passes <= |nodeIds| <= |executionNodes| <= |Universe(region)|
        invariant Passes(behaviour, region, first, passes) == Course(Now(), Left(), None)
        decreases |Universe(region)| - |nodeIds|
      {
        var progressed := false;
        var pass := executionNodes;
        ghost var before, begun := Now(), Course(Now(), Left(), None);
        for i := 0 to |pass|
          invariant Valid() && pass <= executionNodes
          invariant !progressed ==> Now() == before && forall k | 0 <= k < i :: !Runnable(before, pass[k])
          invariant |nodeIds| >= |before.nodeIds| + if progressed then 1 else 0
          invariant Sweep(behaviour, region, begun, pass, 0) ==
                    Sweep(behaviour, region, Course(Now(), Left(), None), pass, i)
        {
          var n := pass[i];
          var ready := IsReady(n);
          assert n == executionNodes[i];
          RunnableIs(nodes, region, Now(), n);
          ghost var now := Course(Now(), Left(), None);
          SweepStep(behaviour, region, now, pass, i);
          if n.id in scheduled && n.id !in done && ready {
            stop := Stop(n, Left());
            var failure := ExecuteNode(n, rank);
            if failure.Some? {
              SweepEnds(behaviour, region, now, pass, i, failure.value);
              passes := passes + 1;
              return Err(failure.value), passes, stop;
            }
            progressed := true;
          }
        }
        SweepDone(behaviour, region, Course(Now(), Left(), None), pass);
        if !progressed {
          return Err(NoProgress), passes, stop;
        }
        passes := passes + 1;
        ExecutionFits(nodes, region, Now());
        RemainingCounts(nodes, region, Now());
      }
      result := CollectOutputs(behaviour, Gathered(executionNodes, scheduled, outputs), correlation, nodeIds);
    }
  }

  lemma {:induction false} SweepStep(b: Behaviour, r: Region, c: Course, pass: seq<Node>, i: nat)
    requires i < |pass| && c.failure.None?
    ensures !Runnable(c.rs, pass[i]) ==> Sweep(b, r, c, pass, i) == Sweep(b, r, c, pass, i + 1)
    ensures Runnable(c.rs, pass[i]) && RunNode(b, r, c.th, pass[i]).Ok? ==>
              var ran := RunNode(b, r, c.th, pass[i]).value;
              Sweep(b, r, c, pass, i) ==
              Sweep(b, r, Course(Executed(r, c.rs, pass[i], ran.target), After(c.th, pass[i], ran), None), pass, i + 1)
  {
    hide Runnable, RunNode, After, Executed;
  }

  lemma {:induction false} SweepEnds(b: Behaviour, r: Region, c: Course, pass: seq<Node>, i: nat, failure: Failure)
    requires i < |pass| && c.failure.None? && Runnable(c.rs, pass[i]) && RunNode(b, r, c.th, pass[i]) == Err(failure)
    ensures Sweep(b, r, c, pass, i).failure == Some(failure)
  {
    hide Runnable, RunNode, After, Executed;
  }

  lemma SweepDone(b: Behaviour, r: Region, c: Course, pass: seq<Node>)
    ensures Sweep(b, r, c, pass, |pass|) == c
  {
  }

  lemma {:induction false} ThreadOutputs(nodes: seq<Node>, r: Region, b: Behaviour, start: State, rs: RunState,
                                         trace: seq<Node>, th: Thread)
    requires ThreadInv(nodes, r, b, start, rs, trace, th)
    ensures th.outputs.Keys == Elements(rs.nodeIds)
  {
    hide Threaded, TraceOf, ChoiceFits, BaseNodes;
  }

  lemma {:induction false} SpliceOk(nodes: seq<Node>, r: Region, rank: string -> nat, rs: RunState, n: Node,
                                    choice: Option<string>)
    requires Geometry(nodes, r, rank) && RunInv(nodes, r, rs) && Runnable(rs, n) && AboutToRun(r, rs, n, choice)
    ensures n.id !in rs.chosen
    ensures choice.Some? ==> RouteIsNew(r, rs.scheduled, n, choice.value)
  {
    hide RunInv, BaseNodes, RouteIds, SkippedIds, BaseNodeOk, RouteOk, Apart, Ready, Ids;
    NotYetRan(nodes, r, rs, n);
    if choice.Some? {
      var t := choice.value;
      var added := [Spliced(r, n.id, t)] + r.downstream[t];
      assert r.targets[(n.id, t)].id == (n.id, t).1;
      SplicedNodes(nodes, r, rank, rs, n, t);
      RouteNotScheduled(nodes, r, rank, rs, n, t);
      UniqueSuffix(rs.execution, added);
    }
  }

  lemma {:induction false} UniqueSuffix(a: seq<Node>, b: seq<Node>)
    requires UniqueIds(a + b)
    ensures UniqueIds(b)
  {
    forall i, j | 0 <= i < j < |b| ensures b[i].id != b[j].id {
      assert (a + b)[|a| + i].id != (a + b)[|a| + j].id;
    }
  }

  /** The guard of the runner's loop is exactly that a node can run. */
  lemma {:induction false} RunnableIs(nodes: seq<Node>, r: Region, rs: RunState, n: Node)
    requires RunInv(nodes, r, rs) && n in rs.execution
    ensures Runnable(rs, n) <==> n.id in rs.scheduled && n.id !in rs.done && Ready(rs, n)
  {
    hide UniqueIds, InOrder, NoRepeats, RoutesTaken, BaseNodes, RoutesSkipped, Origin, Ready, ChoicesOk, Elements;
    InExecution(rs, n);
  }

  lemma {:induction false} MembersExtend(nodes: seq<Node>, ids: set<string>, i: nat)
    requires i < |nodes|
    ensures Members(nodes[..i + 1], ids) == Members(nodes[..i], ids) + if nodes[i].id in ids then [nodes[i]] else []
    decreases i
  {
    if i > 0 {
      MembersExtend(nodes[1..], ids, i - 1);
      assert nodes[1..][..i] == nodes[..i + 1][1..] && nodes[1..][..i - 1] == nodes[..i][1..];
    }
  }

  lemma {:induction false} NoneTaken(added: seq<Node>, scheduled: set<string>)
    ensures UniqueIds(added[..0]) && Ids(added[..0]) == {}
  {
  }

  /** Nodes are distinct and unscheduled one by one. */
  lemma {:induction false} TakeOne(added: seq<Node>, i: nat, scheduled: set<string>)
    requires i < |added| && UniqueIds(added[..i]) && Ids(added[..i]) !! scheduled
    ensures Ids(added[..i + 1]) == Ids(added[..i]) + {added[i].id}
    ensures added[i].id in scheduled + Ids(added[..i]) <==>
            !(UniqueIds(added[..i + 1]) && Ids(added[..i + 1]) !! scheduled)
    ensures added[i].id in scheduled + Ids(added[..i]) ==> !(UniqueIds(added) && Ids(added) !! scheduled)
  {
    assert added[..i + 1] == added[..i] + [added[i]];
    IdsConcat(added[..i], [added[i]]);
    assert [added[i]][0] == added[i];
    if added[i].id in Ids(added[..i]) {
      var n :| n in added[..i] && n.id == added[i].id;
      var k :| 0 <= k < i && added[..i][k] == n;
      assert added[k].id == added[i].id && added[..i + 1][k].id == added[..i + 1][i].id;
    } else {
      UniqueConcat(added[..i], [added[i]]);
    }
  }

  // ---------------------------------------------------------------- a whole region

  /** A run, seen from outside: what is scheduled and done, the nodes in order, and what they left. */
  datatype History = History(rs: RunState, trace: seq<Node>, thread: Thread)

  /**
   What a finished run has done: every node of the base region ran once, each branch
   of it took the one route that its source's outputs select, that route ran with all
   that is downstream of it and nothing else did, every node ran after what it depends
   on, and each node worked on what the nodes before it left.
   */
  ghost predicate Accomplished(nodes: seq<Node>, r: Region, b: Behaviour, start: State, h: History) {
    && NoRepeats(h.rs.nodeIds) && TraceOf(h.rs, h.trace) && InOrder(r, h.rs)
    && h.rs.chosen.Keys == BaseBranches(nodes, r)
    && Elements(h.rs.nodeIds) == r.base + RoutesTaken(r, h.rs.chosen)
    && RoutesSkipped(r, h.rs.chosen) !! Elements(h.rs.nodeIds)
    && (forall n | n in BaseNodes(nodes, r) && n.kind == Branch :: ChoiceFits(b, h.rs.chosen, h.thread, n))
    && (forall i | 0 <= i < |h.trace| :: Origin(nodes, r, h.rs.chosen, h.trace[i]))
    && AllWorked(b, start, h.trace, h.thread)
  }

  /**
   A run that stopped: every node before worked on what the ones before it left, and the one that
   failed was next, had not run, and failed on exactly what they left.
   */
  ghost predicate Interrupted(b: Behaviour, start: State, h: History, failed: Node, failure: Failure) {
    && NoRepeats(h.rs.nodeIds) && TraceOf(h.rs, h.trace) && AllWorked(b, start, h.trace, h.thread)
    && Runnable(h.rs, failed) && failed.id !in h.rs.nodeIds
    && FailsOn(b, h.thread.state, h.thread.outputs, failed, failure)
  }

  lemma {:induction false} ThreadWorked(nodes: seq<Node>, r: Region, b: Behaviour, start: State, h: History)
    requires RunInv(nodes, r, h.rs) && ThreadInv(nodes, r, b, start, h.rs, h.trace, h.thread)
    ensures NoRepeats(h.rs.nodeIds) && TraceOf(h.rs, h.trace) && AllWorked(b, start, h.trace, h.thread)
    ensures forall i | 0 <= i < |h.trace| :: Origin(nodes, r, h.rs.chosen, h.trace[i])
  {
    hide UniqueIds, InOrder, RoutesTaken, BaseNodes, RoutesSkipped, Origin, ChoicesOk, Elements, AllWorked, Threaded,
         ChoiceFits;
    EachWorked(b, r, start, h.trace);
  }

  lemma {:induction false} StopIsInterruption(nodes: seq<Node>, r: Region, b: Behaviour, start: State, h: History,
                                              n: Node,
                                              failure: Failure)
    requires RunInv(nodes, r, h.rs) && ThreadInv(nodes, r, b, start, h.rs, h.trace, h.thread)
    requires Runnable(h.rs, n) && RunNode(b, r, h.thread, n) == Err(failure)
    requires failure.NodeFailed? || failure.ResultRefused?
    ensures Interrupted(b, start, h, n, failure)
  {
    hide RunInv, ThreadInv, Runnable, RunNode, AllWorked, TraceOf, NoRepeats, FailsOn;
    ThreadWorked(nodes, r, b, start, h);
    RunNodeMeans(b, r, h.thread, n);
    NotYetRan(nodes, r, h.rs, n);
  }

  lemma {:induction false} FinishedIsAccomplished(nodes: seq<Node>, r: Region, rank: string -> nat, b: Behaviour,
                                                  start: State, h: History)
    requires Geometry(nodes, r, rank) && RunInv(nodes, r, h.rs)
    requires ThreadInv(nodes, r, b, start, h.rs, h.trace, h.thread)
    requires |h.rs.nodeIds| == |h.rs.execution|
    ensures Accomplished(nodes, r, b, start, h)
  {
    hide RunInv, Geometry, NoRepeats, TraceOf, InOrder, RoutesTaken, RoutesSkipped, BaseNodes, ChoiceFits, Threaded,
         AllWorked,
         Origin;
    FinishedRun(nodes, r, rank, h.rs);
    ThreadWorked(nodes, r, b, start, h);
    forall n | n in BaseNodes(nodes, r) && n.kind == Branch ensures ChoiceFits(b, h.rs.chosen, h.thread, n) {
      assert n.id in BaseBranches(nodes, r);
      ChosenRan(nodes, r, h.rs, n.id);
    }
  }

  lemma {:induction false} ChosenRan(nodes: seq<Node>, r: Region, rs: RunState, b: string)
    requires RunInv(nodes, r, rs) && b in rs.chosen
    ensures b in rs.nodeIds
  {
    hide UniqueIds, InOrder, NoRepeats, RoutesTaken, BaseNodes, RoutesSkipped, Origin, Elements, BaseBranches;
  }

  /**
   Runs the region of a trigger; the answer is that of its course. The region is refused exactly when
   no reading of the plan is accepted; it stops only because a node failed or its outputs are too
   large, never because it cannot go on; and a finished run has done what it should.
   */
  method RunRegion(c: Compiled, trigger: Option<Trigger>, b: Behaviour, state: State, correlation: string,
                   ghost rank: string -> nat)
    returns (answer: Answer, ghost region: Region, ghost h: History, ghost failed: Node)
    requires WellCompiled(c, rank)
    ensures answer == AnswerOf(c, trigger, b, correlation, state)
    ensures answer.Idle? <==> trigger.None?
    ensures trigger.Some? ==>
              (answer.Refused? <==> forall o: map<string, string> :: !Accepted(c, trigger.value, o))
    ensures trigger.Some? ==> (answer.Refused? <==> !Acceptable(c, trigger.value))
    ensures answer.Stopped? ==>
              answer.failure.NodeFailed? || answer.failure.ResultRefused? || answer.failure.OutputTooLarge?
    ensures answer.Stopped? && !answer.failure.OutputTooLarge? ==> Interrupted(b, state, h, failed, answer.failure)
    ensures answer.Stopped? && answer.failure.OutputTooLarge? ==>
              && Accomplished(c.nodes, region, b, state, h)
              && var g := Gathered(h.rs.execution, h.rs.scheduled, h.thread.outputs);
                 !WithinLimits(Emitted(b, g, correlation, h.rs.nodeIds))
    ensures answer.Finished? ==>
              && (exists o: map<string, string> ::
                    Accepted(c, trigger.value, o) && region == Planned(c, trigger.value.entry, o))
              && Accomplished(c.nodes, region, b, state, h)
              && h.thread == Thread(answer.state, h.thread.outputs, answer.routes)
              && h.rs.nodeIds == answer.nodeIds
              && answer.outputs ==
                 Emitted(b, Gathered(h.rs.execution, h.rs.scheduled, h.thread.outputs), correlation, answer.nodeIds)
              && Fits(answer.outputs)
  {
    hide Acceptable, Geometry, RunInv, ThreadInv, Emitted, Fits, FitsLatest, Accomplished, Interrupted, Accepted,
         Planned,
         WellCompiled, Stuck, Runnable, RunNode,
         PlanOf,
         Passes, Universe, StartState;
    region := Region({}, map[], map[], map[]);
    h := History(RunState([], {}, {}, [], map[]), [], Thread(state, map[], map[]));
    failed := Node("", Unsupported, [], None, false);
    if trigger.None? {
      return Idle, region, h, failed;
    }
    assert UniqueIds(c.nodes) by { CompiledUnique(c, rank); }
    AcceptedIffAcceptable(c, trigger.value);
    var planned, owners := BuildRegion(c, trigger.value);
    if planned.None? {
      NoPlan(c, trigger.value);
      return Refused, region, h, failed;
    }
    region := planned.value;
    PlanIs(c, trigger.value, owners);
    AcceptedGeometry(c, trigger.value, owners, rank);
    var runner := new Runner(c.nodes, planned.value, b, state, rank);
    ghost var first := Begun(c.nodes, region, state);
    assert Course(runner.Now(), runner.Left(), None) == first;
    var result, passes, stop := runner.Execute(correlation, rank);
    NeverStuck(c.nodes, region, rank, runner.Now());
    SettledCourse(c.nodes, region, b, state, passes);
    if result.Err? && !result.failure.OutputTooLarge? {
      h, failed := History(runner.Now(), runner.trace, stop.th), stop.node;
      StopIsInterruption(c.nodes, region, b, state, h, failed, result.failure);
      return Stopped(result.failure), region, h, failed;
    }
    h := History(runner.Now(), runner.trace, runner.Left());
    FinishedIsAccomplished(c.nodes, region, rank, b, state, h);
    if result.Err? {
      return Stopped(result.failure), region, h, failed;
    }
    return Finished(runner.sessionState, runner.nodeIds, runner.branchRoutes, result.value), region, h, failed;
  }

  lemma {:induction false} NoPlan(c: Compiled, trigger: Trigger)
    requires forall o: map<string, string> :: !Accepted(c, trigger, o)
    ensures PlanOf(c, trigger) == None
  {
    hide Accepted, Planned;
  }

  /** The course of a run is settled once the runner has settled. */
  lemma {:induction false} SettledCourse(nodes: seq<Node>, r: Region, b: Behaviour, state: State, passes: nat)
    requires passes <= |Universe(r)|
    ensures var c := Passes(b, r, Begun(nodes, r, state), passes);
            Settled(nodes, r, c) ==> CourseOf(nodes, r, b, state) == c
  {
    hide Settled, Passes, Universe;
    if Settled(nodes, r, Passes(b, r, Begun(nodes, r, state), passes)) {
      SettledStays(nodes, r, b, Begun(nodes, r, state), passes, |Universe(r)|);
    }
  }

  lemma {:induction false} CompiledUnique(c: Compiled, rank: string -> nat)
    requires WellCompiled(c, rank)
    ensures UniqueIds(c.nodes)
  {
    hide UniqueIds;
  }
}
