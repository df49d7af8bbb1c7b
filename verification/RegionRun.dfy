/**
 Executing an accepted region, as values: which nodes are scheduled, done and
 executed, and what running one more node makes of them.
 */
module RegionRun {
  import opened SessionTypes
  import opened RegionPlanner

  // ---------------------------------------------------------------- the shape of a region

  /**
   What a compiled Flow guarantees; `rank` witnesses that its dependencies have no cycle. A branch
   depends on its source unless that is a loop, which is no node of the compiled Flow.
   */
  ghost predicate WellCompiled(c: Compiled, rank: string -> nat) {
    && UniqueIds(c.nodes)
    && (forall n | n in c.nodes :: forall d | d in n.deps :: rank(d) < rank(n.id))
    && (forall n | n in c.nodes && IsBranch(n) ::
          && (n.branch.value.source in n.deps || n.branch.value.source !in Ids(c.nodes))
          && Targets(n.branch.value) !! Ids(c.nodes))
  }

  /** What runs when the route to `t` is taken. */
  function RouteIds(r: Region, t: string): set<string> {
    {t} + if t in r.downstream then Ids(r.downstream[t]) else {}
  }

  /** What is downstream of the target of a route. */
  function Downstream(r: Region, t: string): seq<Node> {
    if t in r.downstream then r.downstream[t] else []
  }

  function SkippedIds(r: Region, t: string): set<string> {
    if t in r.skipped then r.skipped[t] else {}
  }

  function BaseNodes(nodes: seq<Node>, r: Region): seq<Node> {
    Members(nodes, r.base)
  }

  ghost predicate Ranked(n: Node, rank: string -> nat) {
    forall d | d in n.deps :: rank(d) < rank(n.id)
  }

  /** A node that runs by itself, unlike a branch. */
  predicate Plain(n: Node) {
    n.kind == Step || n.kind == Worker
  }

  /** A node of the base region: it depends on the base only, and a branch has all its targets. */
  ghost predicate BaseNodeOk(r: Region, n: Node, rank: string -> nat) {
    && (forall d | d in n.deps :: d in r.base)
    && Ranked(n, rank)
    && n.kind != Unsupported
    && (n.kind == Branch ==>
          && n.branch.Some?
          && n.branch.value.source in n.deps
          && forall t | t in Targets(n.branch.value) :: (n.id, t) in r.targets)
  }

  /** A route: its nodes are apart from the base and from what it skips, and depend on nothing else. */
  ghost predicate RouteOk(r: Region, t: string, rank: string -> nat) {
    && t in r.downstream
    && t !in Ids(r.downstream[t])
    && UniqueIds(r.downstream[t])
    && RouteIds(r, t) !! r.base
    && SkippedIds(r, t) !! RouteIds(r, t)
    && SkippedIds(r, t) !! r.base
    && (forall n | n in r.downstream[t] :: DownstreamOk(r, t, n, rank))
  }

  ghost predicate DownstreamOk(r: Region, t: string, n: Node, rank: string -> nat) {
    && Plain(n)
    && Ranked(n, rank)
    && forall d | d in n.deps :: d in r.base + RouteIds(r, t) + SkippedIds(r, t)
  }

  /** Routes of different branches neither meet nor skip each other's nodes. */
  predicate Apart(r: Region, t: string, u: string) {
    RouteIds(r, t) !! RouteIds(r, u) && SkippedIds(r, t) !! RouteIds(r, u)
  }

  /** Everything the runner relies on. */
  ghost predicate Geometry(nodes: seq<Node>, r: Region, rank: string -> nat) {
    && UniqueIds(BaseNodes(nodes, r))
    && Ids(BaseNodes(nodes, r)) == r.base
    && (forall n | n in BaseNodes(nodes, r) :: BaseNodeOk(r, n, rank))
    && (forall k | k in r.targets :: r.targets[k].id == k.1 && Plain(r.targets[k]) && RouteOk(r, k.1, rank))
    && (forall k, l | k in r.targets && l in r.targets && k.0 != l.0 :: Apart(r, k.1, l.1))
  }

  // ---------------------------------------------------------------- what the planner guarantees

  lemma {:induction false} IndexedTarget(edges: seq<Edge>, reach: set<string>, k: (string, string))
    requires k in TargetIndex(edges, reach)
    ensures exists e | e in edges ::
              e.from in reach && k == (e.from, e.target.id) && TargetIndex(edges, reach)[k] == e.target
    decreases |edges|
  {
    var e := edges[|edges| - 1];
    var front := edges[..|edges| - 1];
    if !(e.from in reach && k == (e.from, e.target.id)) {
      IndexedTarget(front, reach, k);
      var f :| f in front && f.from in reach && k == (f.from, f.target.id) && TargetIndex(front, reach)[k] == f.target;
      assert f in edges;
    }
  }

  lemma {:induction false} TargetIndexed(edges: seq<Edge>, reach: set<string>, e: Edge)
    requires e in edges && e.from in reach
    ensures (e.from, e.target.id) in TargetIndex(edges, reach)
    decreases |edges|
  {
    if e != edges[|edges| - 1] {
      assert e in edges[..|edges| - 1];
      TargetIndexed(edges[..|edges| - 1], reach, e);
    }
  }

  /** The case of a branch is found under its own route name. */
  lemma {:induction false} CaseFound(cases: seq<Case>, c: Case)
    requires c in cases
    requires forall i, j | 0 <= i < j < |cases| :: RouteName(cases[i]) != RouteName(cases[j])
    ensures CaseTarget(cases, RouteName(c)) == Some(c.to)
  {
    hide RouteName, CaseTarget;
    var k :| 0 <= k < |cases| && cases[k] == c;
    CaseTargetIs(cases, k);
  }

  lemma {:induction false} CaseTargetIsTarget(cases: seq<Case>, route: string)
    requires CaseTarget(cases, route).Some?
    ensures exists c | c in cases :: c.to == CaseTarget(cases, route).value
    decreases |cases|
  {
    if RouteName(cases[0]) != route {
      CaseTargetIsTarget(cases[1..], route);
    }
  }

  lemma {:induction false} RouteTargetIsTarget(spec: BranchSpec, route: string)
    requires RouteTarget(spec, route).Some?
    ensures RouteTarget(spec, route).value in Targets(spec)
  {
    if route != DEFAULT_ROUTE {
      CaseTargetIsTarget(spec.cases, route);
    }
  }

  /** Every target of a branch in the region has a compiled route. */
  lemma {:induction false} TargetsCompiled(c: Compiled, reach: set<string>, specs: map<string, BranchSpec>,
                                           durable: bool,
                                           b: string, t: string)
    requires EdgesIndexed(c.edges, reach, specs, durable) && b in specs && b in reach
    requires RoutesDistinct(specs[b]) && t in Targets(specs[b])
    ensures (b, t) in TargetIndex(c.edges, reach)
  {
    hide TargetIndex, AppendValid;
    var spec := specs[b];
    var route := DEFAULT_ROUTE;
    if t != spec.defaultTo {
      var k :| k in spec.cases && k.to == t;
      route := RouteName(k);
      CaseFound(spec.cases, k);
    }
    assert HasRoute(c.edges, b, route);
    var e :| e in c.edges && e.from == b && e.choice == route;
    assert EdgeFits(e, specs, durable);
    TargetIndexed(c.edges, reach, e);
  }

  /** A compiled route belongs to the branch that owns its target. */
  lemma {:induction false} IndexedIsOwned(c: Compiled, reach: set<string>, specs: map<string, BranchSpec>,
                                          durable: bool,
                                          owners: map<string, string>, k: (string, string))
    requires EdgesIndexed(c.edges, reach, specs, durable) && OwnersMatch(specs, owners)
    requires k in TargetIndex(c.edges, reach)
    ensures k.1 in owners && owners[k.1] == k.0
    ensures TargetIndex(c.edges, reach)[k].id == k.1 && Plain(TargetIndex(c.edges, reach)[k])
  {
    hide TargetIndex, Targets;
    IndexedTarget(c.edges, reach, k);
    var index := TargetIndex(c.edges, reach);
    var e :| e in c.edges && e.from in reach && k == (e.from, e.target.id) && index[k] == e.target;
    assert EdgeFits(e, specs, durable);
    RouteTargetIsTarget(specs[e.from], e.choice);
  }

  lemma {:induction false} DownstreamIds(nodes: seq<Node>, t: string)
    requires t !in Ids(nodes)
    ensures Ids(Members(nodes, Route(nodes, t) - {t})) == Route(nodes, t) - {t}
    ensures t in Route(nodes, t) && Route(nodes, t) <= Ids(nodes) + {t}
  {
    ClosureIsClosed(nodes, {t});
    ClosureOfNodes(nodes, {t});
    var ids := Route(nodes, t) - {t};
    forall x | x in ids ensures x in Ids(Members(nodes, ids)) {
      var n :| n in nodes && n.id == x;
      MembersExact(nodes, ids, n);
    }
    forall x | x in Ids(Members(nodes, ids)) ensures x in ids {
      var n :| n in Members(nodes, ids) && n.id == x;
      MembersExact(nodes, ids, n);
    }
  }

  lemma {:induction false} PlannedRouteIds(c: Compiled, entry: string, owners: map<string, string>, t: string)
    requires t in owners && t !in Ids(c.nodes)
    ensures RouteIds(Planned(c, entry, owners), t) == Route(c.nodes, t)
    ensures SkippedIds(Planned(c, entry, owners), t) == SkippedBy(c.nodes, owners, t)
  {
    hide SkippedBy, OnRoutes, TargetIndex;
    DownstreamIds(c.nodes, t);
  }

  lemma {:induction false} SpecsAreBranches(c: Compiled, ids: set<string>, b: string)
    requires b in SpecsIn(c.nodes, ids)
    ensures exists n | n in c.nodes :: n.id == b && IsBranch(n) && n.branch.value == SpecsIn(c.nodes, ids)[b]
  {
    FindExact(c.nodes, b);
  }

  lemma {:induction false} OwnedOutside(c: Compiled, rank: string -> nat, reach: set<string>, owners: map<string,
                                        string>, t: string)
    requires WellCompiled(c, rank) && OwnersMatch(SpecsIn(c.nodes, reach), owners) && t in owners
    ensures t !in Ids(c.nodes)
  {
    hide Targets, SpecsIn;
    SpecsAreBranches(c, reach, owners[t]);
  }

  /** Routes of different branches are apart. */
  lemma {:induction false} PlannedApart(c: Compiled, entry: string, owners: map<string, string>, t: string, u: string)
    requires t in owners && u in owners && owners[t] != owners[u]
    requires RoutesSeparate(c.nodes, owners) && forall x | x in owners :: x !in Ids(c.nodes)
    ensures Apart(Planned(c, entry, owners), t, u)
  {
    hide Planned, BranchFree, Ids, RouteIds, SkippedIds, Route;
    PlannedRouteIds(c, entry, owners, t);
    PlannedRouteIds(c, entry, owners, u);
    DownstreamIds(c.nodes, t);
    DownstreamIds(c.nodes, u);
    assert t != u;
    assert t !in Route(c.nodes, u) && u !in Route(c.nodes, t);
    assert Route(c.nodes, t) - {t} !! Route(c.nodes, u) - {u};
    forall x | x in Route(c.nodes, t) ensures x !in Route(c.nodes, u) {
      assert x != t ==> x in Route(c.nodes, t) - {t};
    }
    forall x | x in SkippedBy(c.nodes, owners, t) ensures x !in Route(c.nodes, u) {
      SkippedElsewhere(c, owners, t, u, x);
    }
  }

  lemma {:induction false} SkippedElsewhere(c: Compiled, owners: map<string, string>, t: string, u: string, x: string)
    requires t in owners && u in owners && owners[t] != owners[u] && x in SkippedBy(c.nodes, owners, t)
    requires RoutesSeparate(c.nodes, owners) && forall y | y in owners :: y !in Ids(c.nodes)
    ensures x !in Route(c.nodes, u)
  {
    hide Route, BranchFree;
    var v, n :| v in owners && n in c.nodes && owners[v] == owners[t] && v != t
                && n.id in Route(c.nodes, v) && n.id !in Route(c.nodes, t) && n.id == x;
    assert x in Ids(c.nodes);
    assert Route(c.nodes, v) - {v} !! Route(c.nodes, u) - {u};
    assert x in Route(c.nodes, v) - {v};
  }

  /** A single route is as the runner needs it. */
  lemma {:induction false} PlannedRouteOk(c: Compiled, trigger: Trigger, owners: map<string, string>,
                                          rank: string -> nat, t: string)
    requires WellCompiled(c, rank) && Accepted(c, trigger, owners) && t in owners
    requires forall x | x in owners :: x !in Ids(c.nodes)
    ensures RouteOk(Planned(c, trigger.entry, owners), t, rank)
  {
    hide EdgesIndexed, RoutesValid, OwnersMatch, EdgesValid, SpecsIn, Closure, TargetIndex, UniqueIds;
    var r := Planned(c, trigger.entry, owners);
    PlannedRouteIds(c, trigger.entry, owners, t);
    DownstreamIds(c.nodes, t);
    MembersUnique(c.nodes, Route(c.nodes, t) - {t});
    assert Route(c.nodes, t) <= OnRoutes(c.nodes, owners);
    assert SkippedBy(c.nodes, owners, t) !! Route(c.nodes, t);
    assert SkippedBy(c.nodes, owners, t) <= OnRoutes(c.nodes, owners);
    forall n | n in r.downstream[t] ensures DownstreamOk(r, t, n, rank) {
      MembersExact(c.nodes, Route(c.nodes, t) - {t}, n);
      assert NodeValid(n, RouteScope(r, t), trigger.durable);
      assert BranchFree(c.nodes, t, Route(c.nodes, t));
    }
  }

  /** The base region is as the runner needs it. */
  lemma {:induction false} PlannedBaseOk(c: Compiled, trigger: Trigger, owners: map<string, string>,
                                         rank: string -> nat, n: Node)
    requires WellCompiled(c, rank) && Accepted(c, trigger, owners)
    requires n in c.nodes && n.id in Planned(c, trigger.entry, owners).base
    ensures BaseNodeOk(Planned(c, trigger.entry, owners), n, rank)
  {
    hide EdgesIndexed, OwnersMatch, EdgesValid, RoutesSeparate, SpecsIn, Closure, TargetIndex, UniqueIds, Targets,
         RoutesDistinct;
    var r := Planned(c, trigger.entry, owners);
    var reach := Closure(c.nodes, {trigger.entry});
    var specs := SpecsIn(c.nodes, reach);
    assert NodeValid(n, r.base, trigger.durable);
    if n.kind == Branch {
      SpecListed(c, reach, n);
      ClosureOfNodes(c.nodes, {trigger.entry});
      forall t | t in Targets(n.branch.value) ensures (n.id, t) in r.targets {
        TargetsCompiled(c, reach, specs, trigger.durable, n.id, t);
      }
    }
  }

  lemma {:induction false} SpecListed(c: Compiled, ids: set<string>, n: Node)
    requires UniqueIds(c.nodes) && n in c.nodes && n.id in ids && IsBranch(n)
    ensures n.id in SpecsIn(c.nodes, ids) && SpecsIn(c.nodes, ids)[n.id] == n.branch.value
  {
    FindUnique(c.nodes, n);
  }

  lemma {:induction false} BaseIds(c: Compiled, trigger: Trigger, owners: map<string, string>)
    requires trigger.entry in Ids(c.nodes)
    ensures Ids(BaseNodes(c.nodes, Planned(c, trigger.entry, owners))) == Planned(c, trigger.entry, owners).base
  {
    hide Closure, TargetIndex, OnRoutes, SkippedBy;
    var r := Planned(c, trigger.entry, owners);
    ClosureOfNodes(c.nodes, {trigger.entry});
    forall x | x in r.base ensures x in Ids(BaseNodes(c.nodes, r)) {
      var n :| n in c.nodes && n.id == x;
      MembersExact(c.nodes, r.base, n);
    }
    forall x | x in Ids(BaseNodes(c.nodes, r)) ensures x in r.base {
      var n :| n in BaseNodes(c.nodes, r) && n.id == x;
      MembersExact(c.nodes, r.base, n);
    }
  }

  /** Every region that the planner accepts has the shape that the runner relies on. */
  lemma {:induction false} AcceptedGeometry(c: Compiled, trigger: Trigger, owners: map<string, string>,
                                            rank: string -> nat)
    requires WellCompiled(c, rank) && Accepted(c, trigger, owners)
    ensures Geometry(c.nodes, Planned(c, trigger.entry, owners), rank)
  {
    hide EdgesIndexed, RoutesValid, OwnersMatch, EdgesValid, RoutesSeparate, ScopesValid, SpecsIn, Closure, TargetIndex,
         UniqueIds, Targets, BaseNodeOk, RouteOk, Apart, SkippedBy, OnRoutes, Members, Ids;
    var r := Planned(c, trigger.entry, owners);
    var reach := Closure(c.nodes, {trigger.entry});
    var specs := SpecsIn(c.nodes, reach);
    forall t | t in owners ensures t !in Ids(c.nodes) {
      OwnedOutside(c, rank, reach, owners, t);
    }
    MembersUnique(c.nodes, r.base);
    BaseIds(c, trigger, owners);
    forall n | n in BaseNodes(c.nodes, r) ensures BaseNodeOk(r, n, rank) {
      MembersExact(c.nodes, r.base, n);
      PlannedBaseOk(c, trigger, owners, rank, n);
    }
    forall k | k in r.targets
      ensures r.targets[k].id == k.1 && Plain(r.targets[k]) && RouteOk(r, k.1, rank)
    {
      IndexedIsOwned(c, reach, specs, trigger.durable, owners, k);
      PlannedRouteOk(c, trigger, owners, rank, k.1);
    }
    forall k, l | k in r.targets && l in r.targets && k.0 != l.0 ensures Apart(r, k.1, l.1) {
      IndexedIsOwned(c, reach, specs, trigger.durable, owners, k);
      IndexedIsOwned(c, reach, specs, trigger.durable, owners, l);
      PlannedApart(c, trigger.entry, owners, k.1, l.1);
    }
  }

  // ---------------------------------------------------------------- running

  datatype RunState = RunState(execution: seq<Node>, scheduled: set<string>, done: set<string>,
                               nodeIds: seq<string>, chosen: map<string, string>)

  function Elements<T>(s: seq<T>): set<T> {
    set x | x in s
  }

  predicate Ready(rs: RunState, n: Node) {
    forall d | d in n.deps :: d in rs.done
  }

  function StartState(nodes: seq<Node>, r: Region): RunState {
    RunState(BaseNodes(nodes, r), Ids(BaseNodes(nodes, r)), {}, [], map[])
  }

  /** The node that enters the run when a branch chooses its target. */
  function Spliced(r: Region, b: string, t: string): Node
    requires (b, t) in r.targets
  {
    r.targets[(b, t)].(deps := [b])
  }

  /** The state after one node ran; a branch splices in the route it chose. */
  function Executed(r: Region, rs: RunState, n: Node, choice: Option<string>): RunState
    requires choice.Some? ==> (n.id, choice.value) in r.targets
  {
    var ran := rs.(done := rs.done + {n.id}, nodeIds := rs.nodeIds + [n.id]);
    if choice.None? then ran
    else
      var t := choice.value;
      RunState(ran.execution + ([Spliced(r, n.id, t)] + Downstream(r, t)), ran.scheduled + RouteIds(r, t),
               ran.done + SkippedIds(r, t), ran.nodeIds, ran.chosen[n.id := t])
  }

  ghost function RoutesTaken(r: Region, chosen: map<string, string>): set<string> {
    set b, x | b in chosen && x in RouteIds(r, chosen[b]) :: x
  }

  ghost function RoutesSkipped(r: Region, chosen: map<string, string>): set<string> {
    set b, x | b in chosen && x in SkippedIds(r, chosen[b]) :: x
  }

  /** Where a scheduled node comes from: the base region, or the route that a branch chose. */
  predicate FromRoute(r: Region, n: Node, b: string, t: string) {
    || ((b, t) in r.targets && n == r.targets[(b, t)].(deps := [b]))
    || (t in r.downstream && n in r.downstream[t])
  }

  ghost predicate Origin(nodes: seq<Node>, r: Region, chosen: map<string, string>, n: Node) {
    n in BaseNodes(nodes, r) || exists b | b in chosen :: FromRoute(r, n, b, chosen[b])
  }

  /** The branches of the base region. */
  function BaseBranches(nodes: seq<Node>, r: Region): set<string> {
    set n | n in BaseNodes(nodes, r) && n.kind == Branch :: n.id
  }

  /** The choices are routes of branches that ran, one for every branch that ran. */
  ghost predicate ChoicesOk(nodes: seq<Node>, r: Region, rs: RunState) {
    && (forall b | b in rs.chosen :: (b, rs.chosen[b]) in r.targets && b in rs.nodeIds && b in r.base)
    && rs.chosen.Keys <= BaseBranches(nodes, r)
    && (forall n | n in BaseNodes(nodes, r) && n.kind == Branch :: n.id in rs.nodeIds <==> n.id in rs.chosen)
  }

  predicate NoRepeats(s: seq<string>) {
    forall i, j | 0 <= i < j < |s| :: s[i] != s[j]
  }

  /** Every dependency of an executed node ran before it, or is only on a sibling of a chosen route. */
  ghost predicate InOrder(r: Region, rs: RunState) {
    forall n | n in rs.execution :: forall i | 0 <= i < |rs.nodeIds| && rs.nodeIds[i] == n.id ::
      forall d | d in n.deps :: d in rs.nodeIds[..i] || d in RoutesSkipped(r, rs.chosen)
  }

  ghost predicate RunInv(nodes: seq<Node>, r: Region, rs: RunState) {
    && UniqueIds(rs.execution)
    && rs.scheduled == Ids(rs.execution) == r.base + RoutesTaken(r, rs.chosen)
    && (forall n | n in rs.execution :: Origin(nodes, r, rs.chosen, n))
    && ChoicesOk(nodes, r, rs)
    && NoRepeats(rs.nodeIds)
    && Elements(rs.nodeIds) <= rs.scheduled
    && rs.done == Elements(rs.nodeIds) + RoutesSkipped(r, rs.chosen)
    && InOrder(r, rs)
  }

  lemma {:induction false} StartInv(nodes: seq<Node>, r: Region, rank: string -> nat)
    requires Geometry(nodes, r, rank)
    ensures RunInv(nodes, r, StartState(nodes, r))
  {
    hide BaseNodeOk, RouteOk, Apart;
    assert RoutesTaken(r, map[]) == {} && RoutesSkipped(r, map[]) == {};
  }

  /** What is skipped is never scheduled. */
  lemma {:induction false} SkippedNeverScheduled(nodes: seq<Node>, r: Region, rank: string -> nat, rs: RunState,
                                                 x: string)
    requires Geometry(nodes, r, rank) && ChoicesOk(nodes, r, rs)
    requires x in RoutesSkipped(r, rs.chosen)
    ensures x !in r.base + RoutesTaken(r, rs.chosen)
  {
    hide BaseNodeOk, RouteIds, SkippedIds, BaseNodes, UniqueIds, Ids;
    var b :| b in rs.chosen && x in SkippedIds(r, rs.chosen[b]);
    assert RouteOk(r, (b, rs.chosen[b]).1, rank);
    forall c | c in rs.chosen ensures x !in RouteIds(r, rs.chosen[c]) {
      if c != b {
        assert Apart(r, (b, rs.chosen[b]).1, (c, rs.chosen[c]).1);
      }
    }
  }

  /** A node that is about to run has not run, and a branch's route is not yet scheduled. */
  lemma {:induction false} RouteNotScheduled(nodes: seq<Node>, r: Region, rank: string -> nat, rs: RunState, n: Node,
                                             t: string)
    requires Geometry(nodes, r, rank) && RunInv(nodes, r, rs)
    requires n.id !in rs.chosen && (n.id, t) in r.targets
    ensures RouteIds(r, t) !! rs.scheduled
    ensures SkippedIds(r, t) !! rs.scheduled
  {
    hide BaseNodeOk, RouteIds, SkippedIds, BaseNodes, UniqueIds, Ids, Origin, NoRepeats, InOrder, RoutesSkipped,
         Elements;
    assert RouteOk(r, (n.id, t).1, rank);
    forall x | x in rs.scheduled ensures x !in RouteIds(r, t) && x !in SkippedIds(r, t) {
      if x !in r.base {
        var c :| c in rs.chosen && x in RouteIds(r, rs.chosen[c]);
        assert Apart(r, (n.id, t).1, (c, rs.chosen[c]).1);
      }
    }
  }

  lemma {:induction false} TakenGrow(r: Region, chosen: map<string, string>, b: string, t: string)
    requires b !in chosen
    ensures RoutesTaken(r, chosen[b := t]) == RoutesTaken(r, chosen) + RouteIds(r, t)
    ensures RoutesSkipped(r, chosen[b := t]) == RoutesSkipped(r, chosen) + SkippedIds(r, t)
  {
    hide RouteIds, SkippedIds;
    var after := chosen[b := t];
    forall x | x in RoutesTaken(r, chosen) + RouteIds(r, t) ensures x in RoutesTaken(r, after) {
      if x in RouteIds(r, t) {
        assert after[b] == t;
      } else {
        var c :| c in chosen && x in RouteIds(r, chosen[c]);
        assert after[c] == chosen[c];
      }
    }
    forall x | x in RoutesSkipped(r, chosen) + SkippedIds(r, t) ensures x in RoutesSkipped(r, after) {
      if x in SkippedIds(r, t) {
        assert after[b] == t;
      } else {
        var c :| c in chosen && x in SkippedIds(r, chosen[c]);
        assert after[c] == chosen[c];
      }
    }
  }

  lemma {:induction false} UniqueConcat(a: seq<Node>, b: seq<Node>)
    requires UniqueIds(a) && UniqueIds(b) && Ids(a) !! Ids(b)
    ensures UniqueIds(a + b)
  {
    var s := a + b;
    forall i, j | 0 <= i < j < |s| ensures s[i].id != s[j].id {
      if i < |a| <= j {
        assert a[i].id in Ids(a) && b[j - |a|].id in Ids(b);
      }
    }
  }

  lemma {:induction false} IdsConcat(a: seq<Node>, b: seq<Node>)
    ensures Ids(a + b) == Ids(a) + Ids(b)
  {
    forall x | x in Ids(a) + Ids(b) ensures x in Ids(a + b) {
      if x in Ids(a) {
        var n :| n in a && n.id == x;
        assert n in a + b;
      } else {
        var n :| n in b && n.id == x;
        assert n in a + b;
      }
    }
  }

  lemma {:induction false} SameId(nodes: seq<Node>, m: Node, n: Node)
    requires UniqueIds(nodes) && m in nodes && n in nodes && m.id == n.id
    ensures m == n
  {
    var i :| 0 <= i < |nodes| && nodes[i] == m;
    var j :| 0 <= j < |nodes| && nodes[j] == n;
  }

  /** The nodes that a chosen route adds are new, distinct and exactly the route. */
  lemma {:induction false} SplicedNodes(nodes: seq<Node>, r: Region, rank: string -> nat, rs: RunState, n: Node,
                                        t: string)
    requires Geometry(nodes, r, rank) && RunInv(nodes, r, rs)
    requires n.id !in rs.chosen && (n.id, t) in r.targets
    ensures t in r.downstream
    ensures var added := [Spliced(r, n.id, t)] + r.downstream[t];
            && UniqueIds(rs.execution + added)
            && Ids(added) == RouteIds(r, t)
            && Ids(rs.execution + added) == rs.scheduled + RouteIds(r, t)
            && forall m | m in added :: FromRoute(r, m, n.id, t)
  {
    hide BaseNodeOk, BaseNodes, Origin, NoRepeats, InOrder, RoutesSkipped, Elements, RoutesTaken, ChoicesOk, Apart;
    assert RouteOk(r, (n.id, t).1, rank);
    var head := [Spliced(r, n.id, t)];
    var added := head + r.downstream[t];
    assert head[0].id == t && Ids(head) == {t};
    UniqueConcat(head, r.downstream[t]);
    IdsConcat(head, r.downstream[t]);
    RouteNotScheduled(nodes, r, rank, rs, n, t);
    UniqueConcat(rs.execution, added);
    IdsConcat(rs.execution, added);
  }

  /** Nodes of a chosen route are no branches and carry no base id. */
  lemma {:induction false} RouteNode(nodes: seq<Node>, r: Region, rank: string -> nat, rs: RunState, n: Node, b: string)
    requires Geometry(nodes, r, rank) && ChoicesOk(nodes, r, rs) && b in rs.chosen && FromRoute(r, n, b, rs.chosen[b])
    ensures Plain(n) && n.id in RouteIds(r, rs.chosen[b]) && n.id !in r.base
  {
    hide BaseNodeOk, BaseNodes, Apart, UniqueIds;
    assert RouteOk(r, (b, rs.chosen[b]).1, rank);
    if n in r.downstream[rs.chosen[b]] {
      assert DownstreamOk(r, rs.chosen[b], n, rank);
    }
  }

  lemma {:induction false} RouteNodes(nodes: seq<Node>, r: Region, rank: string -> nat, rs: RunState, n: Node)
    requires Geometry(nodes, r, rank) && ChoicesOk(nodes, r, rs)
    ensures (exists b | b in rs.chosen :: FromRoute(r, n, b, rs.chosen[b])) ==> Plain(n) && n.id !in r.base
  {
    hide FromRoute, Geometry, ChoicesOk;
    if b :| b in rs.chosen && FromRoute(r, n, b, rs.chosen[b]) {
      RouteNode(nodes, r, rank, rs, n, b);
    }
  }

  lemma {:induction false} BaseId(nodes: seq<Node>, r: Region, rank: string -> nat, n: Node)
    requires Geometry(nodes, r, rank) && n in BaseNodes(nodes, r)
    ensures n.id in r.base
    ensures n.kind == Branch ==> n.id in BaseBranches(nodes, r)
  {
    hide BaseNodeOk, BaseNodes, RouteOk, Apart, UniqueIds;
  }

  /** A branch that runs is in the base region. */
  lemma {:induction false} BranchIsBase(nodes: seq<Node>, r: Region, rank: string -> nat, rs: RunState, n: Node)
    requires Geometry(nodes, r, rank) && RunInv(nodes, r, rs) && n in rs.execution && n.kind == Branch
    ensures n in BaseNodes(nodes, r) && n.id in r.base && n.id in BaseBranches(nodes, r)
  {
    hide Geometry, BaseNodes, NoRepeats, InOrder, RoutesSkipped, Elements, RoutesTaken, UniqueIds, FromRoute,
         ChoicesOk, Ids,
         BaseBranches;
    assert Origin(nodes, r, rs.chosen, n);
    RouteNodes(nodes, r, rank, rs, n);
    BaseId(nodes, r, rank, n);
  }

  /** A scheduled node that carries a base id is the base node. */
  lemma {:induction false} BaseIdIsBase(nodes: seq<Node>, r: Region, rank: string -> nat, rs: RunState, n: Node,
                                        m: Node)
    requires Geometry(nodes, r, rank) && RunInv(nodes, r, rs) && n in rs.execution
    requires m in BaseNodes(nodes, r) && m.id == n.id
    ensures n == m
  {
    hide BaseNodeOk, NoRepeats, InOrder, RoutesSkipped, Elements, RoutesTaken, Apart, FromRoute;
    assert Origin(nodes, r, rs.chosen, n);
    IdOf(BaseNodes(nodes, r), m);
    RouteNodes(nodes, r, rank, rs, n);
    SameId(BaseNodes(nodes, r), m, n);
  }

  /** The state of a run when it is about to execute a node. */
  ghost predicate AboutToRun(r: Region, rs: RunState, n: Node, choice: Option<string>) {
    && n in rs.execution && n.id !in rs.done && Ready(rs, n)
    && (choice.Some? <==> n.kind == Branch)
    && (choice.Some? ==> (n.id, choice.value) in r.targets && choice.value in r.downstream)
  }

  lemma {:induction false} StepChoices(nodes: seq<Node>, r: Region, rank: string -> nat, rs: RunState, n: Node,
                                       choice: Option<string>)
    requires Geometry(nodes, r, rank) && RunInv(nodes, r, rs) && AboutToRun(r, rs, n, choice)
    ensures ChoicesOk(nodes, r, Executed(r, rs, n, choice))
    ensures n.id !in rs.chosen
  {
    hide BaseNodeOk, NoRepeats, InOrder, RoutesSkipped, RoutesTaken, Apart, Origin, RouteOk, BaseNodes, Ids, UniqueIds,
         BaseBranches, RouteIds, SkippedIds, Geometry;
    var rs' := Executed(r, rs, n, choice);
    assert n.id !in Elements(rs.nodeIds);
    if n.kind == Branch {
      BranchIsBase(nodes, r, rank, rs, n);
    }
    forall m | m in BaseNodes(nodes, r) && m.kind == Branch
      ensures m.id in rs'.nodeIds <==> m.id in rs'.chosen
    {
      if m.id == n.id {
        BaseIdIsBase(nodes, r, rank, rs, n, m);
      }
    }
  }

  lemma {:induction false} StepOrder(nodes: seq<Node>, r: Region, rank: string -> nat, rs: RunState, n: Node,
                                     choice: Option<string>)
    requires Geometry(nodes, r, rank) && RunInv(nodes, r, rs) && AboutToRun(r, rs, n, choice) && n.id !in rs.chosen
    ensures InOrder(r, Executed(r, rs, n, choice))
  {
    hide BaseNodeOk, RoutesTaken, Apart, Origin, RouteOk, BaseNodes, Ids, UniqueIds, Geometry, ChoicesOk, RoutesSkipped;
    var rs' := Executed(r, rs, n, choice);
    if choice.Some? {
      TakenGrow(r, rs.chosen, n.id, choice.value);
    }
    forall m | m in rs'.execution
      ensures forall i | 0 <= i < |rs'.nodeIds| && rs'.nodeIds[i] == m.id ::
                forall d | d in m.deps :: d in rs'.nodeIds[..i] || d in RoutesSkipped(r, rs'.chosen)
    {
      forall i | 0 <= i < |rs'.nodeIds| && rs'.nodeIds[i] == m.id
        ensures forall d | d in m.deps :: d in rs'.nodeIds[..i] || d in RoutesSkipped(r, rs'.chosen)
      {
        assert m.id in rs.scheduled by {
          if i < |rs.nodeIds| { assert rs.nodeIds[i] in Elements(rs.nodeIds); } else { InExecution(rs, n); }
        }
        if m !in rs.execution {
          AddedIsNew(nodes, r, rank, rs, n, choice, m);
        }
        assert rs'.nodeIds[..i] == rs.nodeIds[..i];
        if i == |rs.nodeIds| {
          SameId(rs.execution, m, n);
          assert rs.nodeIds[..i] == rs.nodeIds;
          assert forall d | d in m.deps :: d in Elements(rs.nodeIds) + RoutesSkipped(r, rs.chosen);
        }
      }
    }
  }

  lemma {:induction false} InExecution(rs: RunState, n: Node)
    requires n in rs.execution && rs.scheduled == Ids(rs.execution)
    ensures n.id in rs.scheduled
  {
  }

  lemma {:induction false} AddedIsNew(nodes: seq<Node>, r: Region, rank: string -> nat, rs: RunState, n: Node,
                                      choice: Option<string>, m: Node)
    requires Geometry(nodes, r, rank) && RunInv(nodes, r, rs) && AboutToRun(r, rs, n, choice) && n.id !in rs.chosen
    requires m in Executed(r, rs, n, choice).execution && m !in rs.execution
    ensures m.id !in rs.scheduled
  {
    hide Geometry, RunInv, Ids;
    var t := choice.value;
    SplicedNodes(nodes, r, rank, rs, n, t);
    RouteNotScheduled(nodes, r, rank, rs, n, t);
    var added := [Spliced(r, n.id, t)] + r.downstream[t];
    assert m in added;
    IdOf(added, m);
  }

  lemma {:induction false} IdOf(nodes: seq<Node>, m: Node)
    requires m in nodes
    ensures m.id in Ids(nodes)
  {
  }

  lemma {:induction false} StepOrigins(nodes: seq<Node>, r: Region, rank: string -> nat, rs: RunState, n: Node,
                                       choice: Option<string>)
    requires Geometry(nodes, r, rank) && RunInv(nodes, r, rs) && AboutToRun(r, rs, n, choice) && n.id !in rs.chosen
    ensures var rs' := Executed(r, rs, n, choice);
            && UniqueIds(rs'.execution)
            && rs'.scheduled == Ids(rs'.execution) == r.base + RoutesTaken(r, rs'.chosen)
            && forall m | m in rs'.execution :: Origin(nodes, r, rs'.chosen, m)
  {
    hide BaseNodeOk, Apart, RouteOk, BaseNodes, Ids, UniqueIds, Geometry, ChoicesOk, RoutesSkipped, RoutesTaken,
         InOrder,
         NoRepeats, Elements, RouteIds, SkippedIds, FromRoute;
    var rs' := Executed(r, rs, n, choice);
    if choice.Some? {
      var t := choice.value;
      TakenGrow(r, rs.chosen, n.id, t);
      SplicedNodes(nodes, r, rank, rs, n, t);
      var added := [Spliced(r, n.id, t)] + r.downstream[t];
      assert rs'.execution == rs.execution + added;
      forall m | m in rs'.execution ensures Origin(nodes, r, rs'.chosen, m) {
        if m in added {
          assert rs'.chosen[n.id] == t;
        } else {
          assert Origin(nodes, r, rs.chosen, m);
          if m !in BaseNodes(nodes, r) {
            var b :| b in rs.chosen && FromRoute(r, m, b, rs.chosen[b]);
            assert rs'.chosen[b] == rs.chosen[b];
          }
        }
      }
    }
  }

  /** Running a ready node keeps the invariant, whatever a branch chooses. */
  lemma {:induction false} StepInv(nodes: seq<Node>, r: Region, rank: string -> nat, rs: RunState, n: Node,
                                   choice: Option<string>)
    requires Geometry(nodes, r, rank) && RunInv(nodes, r, rs) && AboutToRun(r, rs, n, choice)
    ensures RunInv(nodes, r, Executed(r, rs, n, choice))
  {
    hide BaseNodeOk, Apart, RouteOk, BaseNodes, Ids, UniqueIds, Geometry, ChoicesOk, RoutesSkipped, RoutesTaken,
         InOrder,
         Origin, RouteIds, SkippedIds, Ready;
    var rs' := Executed(r, rs, n, choice);
    StepChoices(nodes, r, rank, rs, n, choice);
    StepOrder(nodes, r, rank, rs, n, choice);
    StepOrigins(nodes, r, rank, rs, n, choice);
    if choice.Some? {
      TakenGrow(r, rs.chosen, n.id, choice.value);
    }
    assert n.id !in Elements(rs.nodeIds);
    assert Elements(rs'.nodeIds) == Elements(rs.nodeIds) + {n.id};
    InExecution(rs, n);
  }

  // ---------------------------------------------------------------- progress

  lemma {:induction false} ElementsSize(s: seq<string>)
    ensures |Elements(s)| <= |s|
    ensures NoRepeats(s) ==> |Elements(s)| == |s|
    decreases |s|
  {
    if s != [] {
      var front := s[..|s| - 1];
      ElementsSize(front);
      assert Elements(s) == Elements(front) + {s[|s| - 1]};
      if NoRepeats(s) {
        assert s[|s| - 1] !in Elements(front);
      }
    }
  }

  lemma {:induction false} LastIsNew(nodes: seq<Node>)
    requires UniqueIds(nodes) && nodes != []
    ensures nodes[|nodes| - 1].id !in Ids(nodes[..|nodes| - 1])
    ensures Ids(nodes) == Ids(nodes[..|nodes| - 1]) + {nodes[|nodes| - 1].id}
  {
    var front := nodes[..|nodes| - 1];
    var last := nodes[|nodes| - 1];
    IdsConcat(front, [last]);
    assert front + [last] == nodes;
    assert [last][0] == last;
  }

  lemma {:induction false} IdsSize(nodes: seq<Node>)
    requires UniqueIds(nodes)
    ensures |Ids(nodes)| == |nodes|
    decreases |nodes|
  {
    if nodes != [] {
      var front := nodes[..|nodes| - 1];
      IdsSize(front);
      LastIsNew(nodes);
    }
  }

  /** The number of nodes left is zero exactly when everything scheduled has run. */
  lemma {:induction false} RemainingCounts(nodes: seq<Node>, r: Region, rs: RunState)
    requires RunInv(nodes, r, rs)
    ensures |rs.nodeIds| <= |rs.execution|
    ensures |rs.nodeIds| == |rs.execution| <==> Elements(rs.nodeIds) == rs.scheduled
  {
    hide Origin, ChoicesOk, InOrder, RoutesSkipped, RoutesTaken, Ids, Elements, NoRepeats, UniqueIds;
    ElementsSize(rs.nodeIds);
    IdsSize(rs.execution);
    SubsetSize(Elements(rs.nodeIds), rs.scheduled);
    SubsetEqual(Elements(rs.nodeIds), rs.scheduled);
  }

  lemma {:induction false} SubsetEqual<T>(a: set<T>, b: set<T>)
    requires a <= b
    ensures |a| == |b| <==> a == b
  {
    assert b == a + (b - a);
  }

  lemma {:induction false} ProperSubset<T>(a: set<T>, b: set<T>)
    requires a <= b && a != b
    ensures b - a != {}
  {
    var x :| x in b && x !in a;
    assert x in b - a;
  }

  /** A finite set of ids has one of least rank. */
  lemma {:induction false} LeastRank(ids: set<string>, rank: string -> nat) returns (x: string)
    requires ids != {}
    ensures x in ids && forall y | y in ids :: rank(x) <= rank(y)
    decreases |ids|
  {
    x :| x in ids;
    if ids != {x} {
      var rest := ids - {x};
      var y := LeastRank(rest, rank);
      if rank(y) < rank(x) {
        x := y;
      } else {
        assert ids == rest + {x};
      }
    }
  }

  /** A scheduled node either waits for nothing, or waits only for scheduled nodes of smaller rank. */
  lemma {:induction false} WaitsForSmaller(nodes: seq<Node>, r: Region, rank: string -> nat, rs: RunState, n: Node,
                                           d: string)
    requires Geometry(nodes, r, rank) && RunInv(nodes, r, rs) && n in rs.execution
    requires d in n.deps
    ensures d in rs.done || (d in rs.scheduled && rank(d) < rank(n.id))
  {
    hide Apart, UniqueIds, InOrder, NoRepeats;
    assert Origin(nodes, r, rs.chosen, n);
    if n in BaseNodes(nodes, r) {
      assert BaseNodeOk(r, n, rank);
    } else {
      var b :| b in rs.chosen && FromRoute(r, n, b, rs.chosen[b]);
      RouteWaits(nodes, r, rank, rs, n, b, d);
    }
  }

  lemma {:induction false} RouteWaits(nodes: seq<Node>, r: Region, rank: string -> nat, rs: RunState, n: Node,
                                      b: string, d: string)
    requires Geometry(nodes, r, rank) && RunInv(nodes, r, rs) && b in rs.chosen && FromRoute(r, n, b, rs.chosen[b])
    requires d in n.deps
    ensures d in rs.done || (d in rs.scheduled && rank(d) < rank(n.id))
  {
    hide Apart, UniqueIds, InOrder, NoRepeats, Origin, BaseNodeOk, BaseNodes, RouteIds, SkippedIds;
    var t := rs.chosen[b];
    assert RouteOk(r, (b, t).1, rank);
    assert b in Elements(rs.nodeIds);
    assert n in r.downstream[t] ==> DownstreamOk(r, t, n, rank);
    assert d in RouteIds(r, t) ==> d in RoutesTaken(r, rs.chosen);
    assert d in SkippedIds(r, t) ==> d in RoutesSkipped(r, rs.chosen);
  }

  /** While anything scheduled has not run, some such node is ready: a region cannot stall. */
  lemma {:induction false} NoStall(nodes: seq<Node>, r: Region, rank: string -> nat, rs: RunState) returns (n: Node)
    requires Geometry(nodes, r, rank) && RunInv(nodes, r, rs) && |rs.nodeIds| < |rs.execution|
    ensures n in rs.execution && n.id !in rs.done && Ready(rs, n)
  {
    hide Geometry, Origin, UniqueIds, InOrder, NoRepeats, Elements, RoutesTaken;
    RemainingCounts(nodes, r, rs);
    var waiting := rs.scheduled - Elements(rs.nodeIds);
    ProperSubset(Elements(rs.nodeIds), rs.scheduled);
    var x := LeastRank(waiting, rank);
    n :| n in rs.execution && n.id == x;
    NotDone(nodes, r, rank, rs, x);
    forall d | d in n.deps ensures d in rs.done {
      WaitsForSmaller(nodes, r, rank, rs, n, d);
      assert d in waiting ==> rank(x) <= rank(d);
    }
  }

  /** What is scheduled and has not run is not marked done. */
  lemma {:induction false} NotDone(nodes: seq<Node>, r: Region, rank: string -> nat, rs: RunState, x: string)
    requires Geometry(nodes, r, rank) && RunInv(nodes, r, rs) && x in rs.scheduled - Elements(rs.nodeIds)
    ensures x !in rs.done
  {
    hide Geometry, Origin, UniqueIds, InOrder, NoRepeats, Elements, RoutesTaken, RoutesSkipped, ChoicesOk;
    if x in RoutesSkipped(r, rs.chosen) {
      SkippedNeverScheduled(nodes, r, rank, rs, x);
    }
  }

  // ---------------------------------------------------------------- the finished run

  /**
   A finished run executed each node once: the base region and, for every branch
   of it, exactly one of its routes with everything downstream of that route.
   */
  lemma {:induction false} FinishedRun(nodes: seq<Node>, r: Region, rank: string -> nat, rs: RunState)
    requires Geometry(nodes, r, rank) && RunInv(nodes, r, rs) && |rs.nodeIds| == |rs.execution|
    ensures NoRepeats(rs.nodeIds) && InOrder(r, rs)
    ensures rs.chosen.Keys == BaseBranches(nodes, r)
    ensures forall b | b in rs.chosen :: (b, rs.chosen[b]) in r.targets
    ensures Elements(rs.nodeIds) == r.base + RoutesTaken(r, rs.chosen)
    ensures RoutesSkipped(r, rs.chosen) !! Elements(rs.nodeIds)
  {
    hide Origin, UniqueIds, InOrder, NoRepeats, RoutesTaken, RoutesSkipped, BaseNodeOk, RouteOk, Apart, BaseNodes;
    RemainingCounts(nodes, r, rs);
    forall b | b in BaseBranches(nodes, r) ensures b in rs.chosen {
      var n :| n in BaseNodes(nodes, r) && n.kind == Branch && n.id == b;
      IdOf(BaseNodes(nodes, r), n);
      assert n.id in Elements(rs.nodeIds);
    }
    forall x | x in RoutesSkipped(r, rs.chosen) ensures x !in Elements(rs.nodeIds) {
      SkippedNeverScheduled(nodes, r, rank, rs, x);
    }
  }
}
