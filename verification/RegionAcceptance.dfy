/**
 Which triggers have a region, said over the Flow itself: its nodes, their kinds
 and dependencies, the cases of its branches and its edges. None of the planner's
 own tests is named.
 */
module RegionAcceptance {
  import opened SessionTypes
  import opened Text
  import opened RegionPlanner
  import opened RegionRun

  // ---------------------------------------------------------------- what the planner accepts

  /** The name of the route that a case leads to. */
  function NameOf(c: Case): string {
    if Trim(c.name) != "" then Trim(c.name) else Trim(c.to)
  }

  predicate LeadsTo(spec: BranchSpec, t: string) {
    t == spec.defaultTo || exists c | c in spec.cases :: c.to == t
  }

  /** The route of that name leads to `t`. */
  predicate RouteLeadsTo(spec: BranchSpec, route: string, t: string) {
    if route == "default" then t == spec.defaultTo
    else exists c | c in spec.cases :: NameOf(c) == route && c.to == t
  }

  /** What depends, directly or not, on `x`, and `x` itself. */
  ghost function From(c: Compiled, x: string): set<string> {
    Closure(c.nodes, {x})
  }

  predicate IsBranchIn(c: Compiled, reach: set<string>, n: Node) {
    n in c.nodes && n.id in reach && n.kind == Branch && n.branch.Some?
  }

  /** `t` is where a route of the branch `n` leads. */
  predicate Owns(c: Compiled, reach: set<string>, n: Node, t: string) {
    IsBranchIn(c, reach, n) && LeadsTo(n.branch.value, t)
  }

  /** `x` is on a route of a branch. */
  ghost predicate OnRoute(c: Compiled, reach: set<string>, x: string) {
    exists n, t :: Owns(c, reach, n, t) && x in From(c, t)
  }

  ghost predicate InBase(c: Compiled, reach: set<string>, x: string) {
    x in reach && !OnRoute(c, reach, x)
  }

  predicate Runs(n: Node, durable: bool) {
    n.configured && (n.kind == Worker || (n.kind == Step && durable))
  }

  predicate RunsOrBranches(n: Node, durable: bool) {
    Runs(n, durable) || (n.configured && n.kind == Branch && n.branch.Some?)
  }

  /** The source of a branch is in reach, and its route names are distinct and not reserved. */
  predicate CasesOk(spec: BranchSpec, reach: set<string>) {
    && spec.source in reach
    && (forall i, j | 0 <= i < j < |spec.cases| :: NameOf(spec.cases[i]) != NameOf(spec.cases[j]))
    && (forall c | c in spec.cases :: NameOf(c) != "default")
  }

  ghost predicate BranchesOk(c: Compiled, reach: set<string>) {
    && (forall n | IsBranchIn(c, reach, n) :: CasesOk(n.branch.value, reach))
    && (forall m, n, t | Owns(c, reach, m, t) && Owns(c, reach, n, t) :: m.id == n.id)
  }

  predicate EdgeOk(c: Compiled, reach: set<string>, durable: bool, e: Edge) {
    && (exists n | n in c.nodes ::
          n.id == e.from && IsBranchIn(c, reach, n) && RouteLeadsTo(n.branch.value, e.choice, e.target.id))
    && !e.prefixed && Runs(e.target, durable)
  }

  predicate HasEdge(c: Compiled, from: string, route: string) {
    exists e | e in c.edges :: e.from == from && e.choice == route
  }

  /** The edges that leave what is in reach are the routes of its branches, each once. */
  ghost predicate LeavingOk(c: Compiled, reach: set<string>, durable: bool) {
    && (forall e | e in c.edges && e.from in reach :: EdgeOk(c, reach, durable, e))
    && (forall i, j | 0 <= i < j < |c.edges| && c.edges[i].from in reach && c.edges[i].from == c.edges[j].from ::
          c.edges[i].choice != c.edges[j].choice)
    && (forall n | IsBranchIn(c, reach, n) ::
          HasEdge(c, n.id, "default") && forall k | k in n.branch.value.cases :: HasEdge(c, n.id, NameOf(k)))
  }

  /** Routes contain no branch, and routes of different branches share no node. */
  ghost predicate RoutesOk(c: Compiled, reach: set<string>) {
    && (forall b, t, n | Owns(c, reach, b, t) && n in c.nodes && n.id in From(c, t) && n.id != t :: n.kind != Branch)
    && (forall b, t, b', t', x | Owns(c, reach, b, t) && Owns(c, reach, b', t') && b.id != b'.id
                                 && x in From(c, t) && x in From(c, t') :: x == t || x == t')
  }

  /** `d` is a node only on another route of the branch `b` than the one to `t`. */
  ghost predicate OnSibling(c: Compiled, b: Node, t: string, d: string) {
    && b.branch.Some?
    && d !in From(c, t) && (exists m | m in c.nodes :: m.id == d)
    && exists u :: LeadsTo(b.branch.value, u) && u != t && d in From(c, u)
  }

  /** Nodes are of a kind that runs, and depend on the base, their own route and what that route skips. */
  ghost predicate DependenciesOk(c: Compiled, reach: set<string>, durable: bool) {
    && (forall n | n in c.nodes && InBase(c, reach, n.id) ::
          RunsOrBranches(n, durable) && forall d | d in n.deps :: InBase(c, reach, d))
    && (forall b, t, n | Owns(c, reach, b, t) && n in c.nodes && n.id in From(c, t) && n.id != t ::
          && RunsOrBranches(n, durable)
          && forall d | d in n.deps :: InBase(c, reach, d) || d in From(c, t) || OnSibling(c, b, t, d))
  }

  predicate Leaves(c: Compiled, reach: set<string>, id: string) {
    exists e | e in c.edges :: e.id == id && e.from in reach
  }

  /** No other edge touches the base or a route. */
  ghost predicate OthersOk(c: Compiled, reach: set<string>) {
    forall e, x | e in c.edges && !Leaves(c, reach, e.id) && (x == e.from || x == e.target.id) ::
      !InBase(c, reach, x) && !OnRoute(c, reach, x)
  }

  /** What a trigger needs of its Flow to have a region. */
  ghost predicate Acceptable(c: Compiled, trigger: Trigger) {
    var reach := From(c, trigger.entry);
    && (exists n | n in c.nodes :: n.id == trigger.entry)
    && BranchesOk(c, reach)
    && LeavingOk(c, reach, trigger.durable)
    && RoutesOk(c, reach)
    && DependenciesOk(c, reach, trigger.durable)
    && OthersOk(c, reach)
  }

  // ---------------------------------------------------------------- names and routes

  lemma {:induction false} NamesAgree(c: Case)
    ensures RouteName(c) == NameOf(c)
  {
    hide Trim;
  }

  lemma {:induction false} TargetsAgree(spec: BranchSpec, t: string)
    ensures t in Targets(spec) <==> LeadsTo(spec, t)
  {
  }

  lemma {:induction false} RoutesAgree(spec: BranchSpec, route: string, t: string)
    requires RoutesDistinct(spec)
    ensures RouteTarget(spec, route) == Some(t) <==> RouteLeadsTo(spec, route, t)
  {
    hide RouteName, NameOf, CaseTarget;
    if route != "default" {
      if c :| c in spec.cases && NameOf(c) == route && c.to == t {
        NamesAgree(c);
        CaseFound(spec.cases, c);
      }
      if CaseTarget(spec.cases, route) == Some(t) {
        var c := CaseOf(spec.cases, route);
        NamesAgree(c);
      }
    }
  }

  lemma {:induction false} CaseOf(cases: seq<Case>, route: string) returns (c: Case)
    requires CaseTarget(cases, route).Some?
    ensures c in cases && RouteName(c) == route && CaseTarget(cases, route) == Some(c.to)
    decreases |cases|
  {
    hide RouteName;
    if RouteName(cases[0]) == route {
      c := cases[0];
    } else {
      c := CaseOf(cases[1..], route);
    }
  }

  lemma {:induction false} CasesAgree(spec: BranchSpec, reach: set<string>)
    ensures SpecValid(spec, reach) <==> CasesOk(spec, reach)
  {
    hide RouteName, NameOf;
    forall c: Case ensures RouteName(c) == NameOf(c) {
      NamesAgree(c);
    }
  }

  // ---------------------------------------------------------------- branches

  lemma {:induction false} SpecsAgree(c: Compiled, reach: set<string>, n: Node)
    requires UniqueIds(c.nodes) && IsBranchIn(c, reach, n)
    ensures n.id in SpecsIn(c.nodes, reach) && SpecsIn(c.nodes, reach)[n.id] == n.branch.value
  {
    hide SpecsIn;
    SpecListed(c, reach, n);
  }

  lemma {:induction false} SpecNode(c: Compiled, reach: set<string>, b: string) returns (n: Node)
    requires b in SpecsIn(c.nodes, reach)
    ensures IsBranchIn(c, reach, n) && n.id == b && n.branch.value == SpecsIn(c.nodes, reach)[b]
  {
    SpecsInside(c.nodes, reach);
    SpecsAreBranches(c, reach, b);
    n :| n in c.nodes && n.id == b && IsBranch(n) && n.branch.value == SpecsIn(c.nodes, reach)[b];
  }

  lemma {:induction false} OneOwner(specs: map<string, BranchSpec>, reach: set<string>, a: string, b: string, t: string)
    requires RoutesValid(specs, reach) && a in specs && b in specs && t in Targets(specs[a]) && t in Targets(specs[b])
    ensures a == b
  {
    hide Targets, SpecValid;
  }

  /** The branches are valid, and share no target, exactly when the Flow says so. */
  lemma {:induction false} BranchesAgree(c: Compiled, reach: set<string>)
    requires UniqueIds(c.nodes)
    ensures RoutesValid(SpecsIn(c.nodes, reach), reach) <==> BranchesOk(c, reach)
  {
    hide SpecsIn, SpecValid, CasesOk, LeadsTo, Targets;
    var specs := SpecsIn(c.nodes, reach);
    if RoutesValid(specs, reach) {
      forall n | IsBranchIn(c, reach, n) ensures CasesOk(n.branch.value, reach) {
        SpecsAgree(c, reach, n);
        CasesAgree(n.branch.value, reach);
      }
      forall m, n, t | Owns(c, reach, m, t) && Owns(c, reach, n, t) ensures m.id == n.id {
        SpecsAgree(c, reach, m);
        SpecsAgree(c, reach, n);
        TargetsAgree(m.branch.value, t);
        TargetsAgree(n.branch.value, t);
        OneOwner(specs, reach, m.id, n.id, t);
      }
    }
    if BranchesOk(c, reach) {
      forall b | b in specs ensures SpecValid(specs[b], reach) {
        var n := SpecNode(c, reach, b);
        CasesAgree(specs[b], reach);
      }
      forall a, b | a in specs && b in specs && a != b ensures Targets(specs[a]) !! Targets(specs[b]) {
        var m := SpecNode(c, reach, a);
        var n := SpecNode(c, reach, b);
        forall t | t in Targets(specs[a]) ensures t !in Targets(specs[b]) {
          TargetsAgree(specs[a], t);
          TargetsAgree(specs[b], t);
          assert Owns(c, reach, m, t);
          assert Owns(c, reach, n, t) ==> m.id == n.id;
        }
      }
    }
  }

  /** The owner of a target is the branch whose route leads there. */
  lemma {:induction false} OwnersAgree(c: Compiled, reach: set<string>, owners: map<string, string>, n: Node, t: string)
    requires UniqueIds(c.nodes) && OwnersMatch(SpecsIn(c.nodes, reach), owners) && Owns(c, reach, n, t)
    ensures t in owners && owners[t] == n.id
  {
    hide SpecsIn, LeadsTo, Targets;
    SpecsAgree(c, reach, n);
    TargetsAgree(n.branch.value, t);
  }

  lemma {:induction false} OwnerNode(c: Compiled, reach: set<string>, owners: map<string, string>,
                                     t: string) returns (n: Node)
    requires OwnersMatch(SpecsIn(c.nodes, reach), owners) && t in owners
    ensures Owns(c, reach, n, t) && owners[t] == n.id
  {
    hide SpecsIn, LeadsTo, Targets;
    n := SpecNode(c, reach, owners[t]);
    TargetsAgree(n.branch.value, t);
  }

  lemma {:induction false} OnRoutesAgree(c: Compiled, reach: set<string>, owners: map<string, string>, x: string)
    requires UniqueIds(c.nodes) && OwnersMatch(SpecsIn(c.nodes, reach), owners)
    ensures x in OnRoutes(c.nodes, owners) <==> OnRoute(c, reach, x)
  {
    hide SpecsIn, Owns, OwnersMatch, Closure;
    if x in OnRoutes(c.nodes, owners) {
      var t :| t in owners && x in Route(c.nodes, t);
      var n := OwnerNode(c, reach, owners, t);
      assert x in From(c, t);
    }
    if OnRoute(c, reach, x) {
      var n, t :| Owns(c, reach, n, t) && x in From(c, t);
      OwnersAgree(c, reach, owners, n, t);
      assert x in Route(c.nodes, t);
    }
  }

  // ---------------------------------------------------------------- edges

  lemma {:induction false} EdgeAgrees(c: Compiled, reach: set<string>, durable: bool, e: Edge)
    requires UniqueIds(c.nodes) && BranchesOk(c, reach)
    ensures EdgeFits(e, SpecsIn(c.nodes, reach), durable) <==> EdgeOk(c, reach, durable, e)
  {
    hide SpecsIn, CasesOk, RouteLeadsTo, RouteTarget, RoutesDistinct, Owns, UniqueIds;
    var specs := SpecsIn(c.nodes, reach);
    if e.from in specs {
      var n := SpecNode(c, reach, e.from);
      SpecDistinct(c, reach, n);
      RoutesAgree(n.branch.value, e.choice, e.target.id);
    }
    if EdgeOk(c, reach, durable, e) {
      var n :| n in c.nodes && n.id == e.from && IsBranchIn(c, reach, n)
               && RouteLeadsTo(n.branch.value, e.choice, e.target.id);
      SpecsAgree(c, reach, n);
      SpecDistinct(c, reach, n);
      RoutesAgree(n.branch.value, e.choice, e.target.id);
    }
  }

  lemma {:induction false} SpecDistinct(c: Compiled, reach: set<string>, n: Node)
    requires BranchesOk(c, reach) && IsBranchIn(c, reach, n)
    ensures RoutesDistinct(n.branch.value)
  {
    hide RoutesDistinct, Owns, CasesOk;
    CasesAgree(n.branch.value, reach);
  }

  lemma {:induction false} LeavingAgrees(c: Compiled, reach: set<string>, durable: bool)
    requires UniqueIds(c.nodes) && BranchesOk(c, reach)
    ensures EdgesIndexed(c.edges, reach, SpecsIn(c.nodes, reach), durable) <==> LeavingOk(c, reach, durable)
  {
    hide SpecsIn, EdgeFits, EdgeOk, HasRoute, HasEdge, RouteName, NameOf, UniqueIds, BranchesOk;
    var specs := SpecsIn(c.nodes, reach);
    forall e | e in c.edges ensures EdgeFits(e, specs, durable) <==> EdgeOk(c, reach, durable, e) {
      EdgeAgrees(c, reach, durable, e);
    }
    forall k: Case ensures RouteName(k) == NameOf(k) {
      NamesAgree(k);
    }
    forall b: string, route: string ensures HasRoute(c.edges, b, route) <==> HasEdge(c, b, route) {
      EdgesAgree(c, b, route);
    }
    if EdgesIndexed(c.edges, reach, specs, durable) {
      forall n | IsBranchIn(c, reach, n)
        ensures HasEdge(c, n.id, "default") && forall k | k in n.branch.value.cases :: HasEdge(c, n.id, NameOf(k))
      {
        SpecsAgree(c, reach, n);
        assert HasRoute(c.edges, n.id, DEFAULT_ROUTE);
        forall k | k in n.branch.value.cases ensures HasEdge(c, n.id, NameOf(k)) {
          assert HasRoute(c.edges, n.id, RouteName(k));
        }
      }
    }
    if LeavingOk(c, reach, durable) {
      forall b | b in specs
        ensures HasRoute(c.edges, b, DEFAULT_ROUTE)
        ensures forall k | k in specs[b].cases :: HasRoute(c.edges, b, RouteName(k))
      {
        var n := SpecNode(c, reach, b);
        assert HasEdge(c, b, "default");
        forall k | k in specs[b].cases ensures HasRoute(c.edges, b, RouteName(k)) {
          assert HasEdge(c, b, NameOf(k));
        }
      }
    }
  }

  lemma {:induction false} EdgesAgree(c: Compiled, b: string, route: string)
    ensures HasRoute(c.edges, b, route) <==> HasEdge(c, b, route)
  {
  }

  // ---------------------------------------------------------------- routes and scopes

  lemma {:induction false} RoutesSeparateAgrees(c: Compiled, reach: set<string>, owners: map<string, string>)
    requires UniqueIds(c.nodes) && OwnersMatch(SpecsIn(c.nodes, reach), owners)
    ensures RoutesSeparate(c.nodes, owners) <==> RoutesOk(c, reach)
  {
    hide SpecsIn, Closure, UniqueIds, OwnersMatch, Owns;
    if RoutesSeparate(c.nodes, owners) {
      forall b, t, n | Owns(c, reach, b, t) && n in c.nodes && n.id in From(c, t) && n.id != t
        ensures n.kind != Branch
      {
        OwnersAgree(c, reach, owners, b, t);
        assert BranchFree(c.nodes, t, Route(c.nodes, t));
      }
      forall b, t, b', t', x | Owns(c, reach, b, t) && Owns(c, reach, b', t') && b.id != b'.id
                               && x in From(c, t) && x in From(c, t')
        ensures x == t || x == t'
      {
        OwnersAgree(c, reach, owners, b, t);
        OwnersAgree(c, reach, owners, b', t');
        assert Route(c.nodes, t) - {t} !! Route(c.nodes, t') - {t'};
        assert x != t && x != t' ==> x in Route(c.nodes, t) - {t} && x in Route(c.nodes, t') - {t'};
      }
    }
    if RoutesOk(c, reach) {
      forall t | t in owners ensures BranchFree(c.nodes, t, Route(c.nodes, t)) {
        var b := OwnerNode(c, reach, owners, t);
        assert Route(c.nodes, t) == From(c, t);
      }
      forall t, u | t in owners && u in owners && owners[t] != owners[u]
        ensures Route(c.nodes, t) - {t} !! Route(c.nodes, u) - {u}
      {
        var b := OwnerNode(c, reach, owners, t);
        var b' := OwnerNode(c, reach, owners, u);
        assert Route(c.nodes, t) == From(c, t) && Route(c.nodes, u) == From(c, u);
      }
    }
  }

  lemma {:induction false} NodeAgrees(n: Node, scope: set<string>, durable: bool)
    ensures NodeValid(n, scope, durable) <==> RunsOrBranches(n, durable) && forall d | d in n.deps :: d in scope
  {
  }

  /** What a route of the plan may depend on. */
  lemma {:induction false} ScopeAgrees(c: Compiled, entry: string, owners: map<string, string>, b: Node, t: string,
                                       d: string)
    requires UniqueIds(c.nodes) && OwnersMatch(SpecsIn(c.nodes, From(c, entry)), owners)
    requires Owns(c, From(c, entry), b, t)
    ensures var r := Planned(c, entry, owners);
            && t in r.downstream && t in r.skipped
            && (d in RouteScope(r, t) <==>
                InBase(c, From(c, entry), d) || d in From(c, t) || OnSibling(c, b, t, d))
  {
    hide SpecsIn, Closure, UniqueIds, OwnersMatch, Owns, TargetIndex, OnRoutes, Members, SkippedBy;
    var reach := From(c, entry);
    var r := Planned(c, entry, owners);
    OwnersAgree(c, reach, owners, b, t);
    OnRoutesAgree(c, reach, owners, d);
    SkippedAgrees(c, reach, owners, b, t, d);
    DownstreamAgrees(c, t, d);
  }

  lemma {:induction false} DownstreamAgrees(c: Compiled, t: string, d: string)
    ensures d == t || d in Ids(Members(c.nodes, Route(c.nodes, t) - {t})) <==> d in From(c, t)
  {
    hide Closure;
    ClosureIsClosed(c.nodes, {t});
    ClosureOfNodes(c.nodes, {t});
    var ids := Route(c.nodes, t) - {t};
    if d in From(c, t) && d != t {
      var n :| n in c.nodes && n.id == d;
      MembersExact(c.nodes, ids, n);
    }
    if d in Ids(Members(c.nodes, ids)) {
      var n :| n in Members(c.nodes, ids) && n.id == d;
      MembersExact(c.nodes, ids, n);
    }
  }

  lemma {:induction false} SkippedAgrees(c: Compiled, reach: set<string>, owners: map<string, string>, b: Node,
                                         t: string, d: string)
    requires UniqueIds(c.nodes) && OwnersMatch(SpecsIn(c.nodes, reach), owners) && Owns(c, reach, b, t)
    ensures t in owners && (d in SkippedBy(c.nodes, owners, t) <==> OnSibling(c, b, t, d))
  {
    hide SpecsIn, Closure, OwnersMatch, LeadsTo;
    OwnersAgree(c, reach, owners, b, t);
    if d in SkippedBy(c.nodes, owners, t) {
      var n, u :| u in owners && n in c.nodes && owners[u] == owners[t] && u != t
                  && n.id in Route(c.nodes, u) && n.id !in Route(c.nodes, t) && n.id == d;
      var b' := OwnerNode(c, reach, owners, u);
      SameId(c.nodes, b, b');
      assert LeadsTo(b.branch.value, u) && d in From(c, u);
    }
    if OnSibling(c, b, t, d) {
      var u :| LeadsTo(b.branch.value, u) && u != t && d in From(c, u);
      var m :| m in c.nodes && m.id == d;
      OwnersAgree(c, reach, owners, b, u);
      assert m.id in Route(c.nodes, u) && m.id !in Route(c.nodes, t);
    }
  }

  lemma {:induction false} BaseAgrees(c: Compiled, entry: string, owners: map<string, string>, x: string)
    requires UniqueIds(c.nodes) && OwnersMatch(SpecsIn(c.nodes, From(c, entry)), owners)
    ensures x in Planned(c, entry, owners).base <==> InBase(c, From(c, entry), x)
  {
    hide SpecsIn, Closure, UniqueIds, OwnersMatch, TargetIndex, OnRoutes, Members, SkippedBy, OnRoute;
    OnRoutesAgree(c, From(c, entry), owners, x);
  }

  lemma {:induction false} BaseNodeAgrees(c: Compiled, entry: string, owners: map<string, string>, durable: bool,
                                          n: Node)
    requires UniqueIds(c.nodes) && OwnersMatch(SpecsIn(c.nodes, From(c, entry)), owners)
    ensures NodeValid(n, Planned(c, entry, owners).base, durable) <==>
            RunsOrBranches(n, durable) && forall d | d in n.deps :: InBase(c, From(c, entry), d)
  {
    hide SpecsIn, Closure, UniqueIds, OwnersMatch, Planned, InBase, RunsOrBranches, NodeValid;
    NodeAgrees(n, Planned(c, entry, owners).base, durable);
    forall d | d in n.deps ensures d in Planned(c, entry, owners).base <==> InBase(c, From(c, entry), d) {
      BaseAgrees(c, entry, owners, d);
    }
  }

  lemma {:induction false} RouteNodeAgrees(c: Compiled, entry: string, owners: map<string, string>, durable: bool,
                                           b: Node, t: string, n: Node)
    requires UniqueIds(c.nodes) && OwnersMatch(SpecsIn(c.nodes, From(c, entry)), owners)
    requires Owns(c, From(c, entry), b, t)
    ensures var r := Planned(c, entry, owners);
            var reach := From(c, entry);
            && t in r.downstream && t in r.skipped
            && (NodeValid(n, RouteScope(r, t), durable) <==>
                && RunsOrBranches(n, durable)
                && forall d | d in n.deps :: InBase(c, reach, d) || d in From(c, t) || OnSibling(c, b, t, d))
  {
    hide SpecsIn, Closure, UniqueIds, OwnersMatch, Planned, InBase, RunsOrBranches, NodeValid, Owns, OnSibling,
         RouteScope;
    var r := Planned(c, entry, owners);
    ScopeAgrees(c, entry, owners, b, t, "");
    NodeAgrees(n, RouteScope(r, t), durable);
    forall d | d in n.deps
      ensures d in RouteScope(r, t) <==> InBase(c, From(c, entry), d) || d in From(c, t) || OnSibling(c, b, t, d)
    {
      ScopeAgrees(c, entry, owners, b, t, d);
    }
  }

  lemma {:induction false} DependenciesAgree(c: Compiled, entry: string, owners: map<string, string>, durable: bool)
    requires UniqueIds(c.nodes) && OwnersMatch(SpecsIn(c.nodes, From(c, entry)), owners)
    ensures ScopesValid(c.nodes, Planned(c, entry, owners), durable) <==> DependenciesOk(c, From(c, entry), durable)
  {
    hide SpecsIn, Closure, UniqueIds, OwnersMatch, InBase, RunsOrBranches, NodeValid, Owns, OnSibling, RouteScope,
         Planned,
         From;
    var r := Planned(c, entry, owners);
    var reach := From(c, entry);
    assert r.downstream.Keys == r.skipped.Keys == owners.Keys by { PlannedKeys(c, entry, owners); }
    forall x: string ensures x in r.base <==> InBase(c, reach, x) {
      BaseAgrees(c, entry, owners, x);
    }
    forall n: Node
      ensures NodeValid(n, r.base, durable) <==>
              RunsOrBranches(n, durable) && forall d | d in n.deps :: InBase(c, reach, d)
    {
      BaseNodeAgrees(c, entry, owners, durable, n);
    }
    if ScopesValid(c.nodes, r, durable) {
      forall b, t, n | Owns(c, reach, b, t) && n in c.nodes && n.id in From(c, t) && n.id != t
        ensures RunsOrBranches(n, durable)
        ensures forall d | d in n.deps :: InBase(c, reach, d) || d in From(c, t) || OnSibling(c, b, t, d)
      {
        RouteNodeAgrees(c, entry, owners, durable, b, t, n);
        InDownstream(c, entry, owners, t, n);
      }
    }
    if DependenciesOk(c, reach, durable) {
      forall t, n | t in r.downstream && n in r.downstream[t] ensures NodeValid(n, RouteScope(r, t), durable) {
        var b := OwnerNode(c, reach, owners, t);
        RouteNodeAgrees(c, entry, owners, durable, b, t, n);
        InDownstream(c, entry, owners, t, n);
      }
    }
  }

  lemma {:induction false} PlannedKeys(c: Compiled, entry: string, owners: map<string, string>)
    ensures Planned(c, entry, owners).downstream.Keys == owners.Keys
    ensures Planned(c, entry, owners).skipped.Keys == owners.Keys
  {
    hide Closure, TargetIndex, OnRoutes, Members, SkippedBy;
  }

  lemma {:induction false} InDownstream(c: Compiled, entry: string, owners: map<string, string>, t: string, n: Node)
    requires t in owners
    ensures t in Planned(c, entry, owners).downstream
    ensures n in Planned(c, entry, owners).downstream[t] <==> n in c.nodes && n.id in From(c, t) && n.id != t
  {
    hide Closure, TargetIndex, OnRoutes, Members, SkippedBy;
    MembersExact(c.nodes, Route(c.nodes, t) - {t}, n);
  }

  // ---------------------------------------------------------------- other edges

  lemma {:induction false} OthersAgree(c: Compiled, entry: string, owners: map<string, string>)
    requires UniqueIds(c.nodes) && OwnersMatch(SpecsIn(c.nodes, From(c, entry)), owners)
    ensures var reach := From(c, entry);
            var leaving := set e | e in c.edges && e.from in reach :: e.id;
            var inside := Planned(c, entry, owners).base + OnRoutes(c.nodes, owners);
            EdgesValid(c.edges, leaving, inside) <==> OthersOk(c, reach)
  {
    hide SpecsIn, Closure, UniqueIds, OwnersMatch, Planned, InBase, OnRoute, OnRoutes, From;
    var reach := From(c, entry);
    var inside := Planned(c, entry, owners).base + OnRoutes(c.nodes, owners);
    forall x: string ensures x in inside <==> InBase(c, reach, x) || OnRoute(c, reach, x) {
      BaseAgrees(c, entry, owners, x);
      OnRoutesAgree(c, reach, owners, x);
    }
  }

  // ---------------------------------------------------------------- the two agree

  lemma {:induction false} AcceptedAgrees(c: Compiled, trigger: Trigger, owners: map<string, string>)
    requires UniqueIds(c.nodes) && OwnersMatch(SpecsIn(c.nodes, From(c, trigger.entry)), owners)
    ensures Accepted(c, trigger, owners) <==> Acceptable(c, trigger)
  {
    hide SpecsIn, Closure, UniqueIds, OwnersMatch, RoutesValid, BranchesOk, EdgesIndexed, LeavingOk, RoutesSeparate,
         RoutesOk,
         ScopesValid, DependenciesOk, EdgesValid, OthersOk, Planned, OnRoutes;
    var reach := From(c, trigger.entry);
    BranchesAgree(c, reach);
    if BranchesOk(c, reach) {
      LeavingAgrees(c, reach, trigger.durable);
    }
    RoutesSeparateAgrees(c, reach, owners);
    DependenciesAgree(c, trigger.entry, owners, trigger.durable);
    OthersAgree(c, trigger.entry, owners);
  }

  /** The branch of every route target. */
  ghost function OwnersIn(specs: map<string, BranchSpec>): map<string, string> {
    map t | t in (set b, t | b in specs && t in Targets(specs[b]) :: t) :: OwnerIn(specs, t)
  }

  ghost function OwnerIn(specs: map<string, BranchSpec>, t: string): string
    requires exists b | b in specs :: t in Targets(specs[b])
  {
    var b :| b in specs && t in Targets(specs[b]);
    b
  }

  lemma {:induction false} OwnersExist(specs: map<string, BranchSpec>, reach: set<string>)
    requires RoutesValid(specs, reach)
    ensures OwnersMatch(specs, OwnersIn(specs))
  {
    hide Targets, SpecValid;
    var owners := OwnersIn(specs);
    forall b, t | b in specs && t in Targets(specs[b]) ensures t in owners && owners[t] == b {
      var a := OwnerIn(specs, t);
      OneOwner(specs, reach, a, b, t);
    }
  }

  /** A trigger is accepted, by some owners of its routes, exactly when its Flow has what the region needs. */
  lemma {:induction false} AcceptedIffAcceptable(c: Compiled, trigger: Trigger)
    requires UniqueIds(c.nodes)
    ensures (exists o: map<string, string> :: Accepted(c, trigger, o)) <==> Acceptable(c, trigger)
  {
    hide SpecsIn, Closure, UniqueIds, OwnersMatch, RoutesValid, BranchesOk, EdgesIndexed, LeavingOk, RoutesSeparate,
         RoutesOk,
         ScopesValid, DependenciesOk, EdgesValid, OthersOk, Planned, OnRoutes, OwnersIn;
    var reach := From(c, trigger.entry);
    if o: map<string, string> :| Accepted(c, trigger, o) {
      AcceptedAgrees(c, trigger, o);
    }
    if Acceptable(c, trigger) {
      BranchesAgree(c, reach);
      OwnersExist(SpecsIn(c.nodes, reach), reach);
      AcceptedAgrees(c, trigger, OwnersIn(SpecsIn(c.nodes, reach)));
    }
  }

  // ---------------------------------------------------------------- workers and steps

  /** The same node, or a worker made a step or the other way round. */
  predicate SameButKind(n: Node, m: Node) {
    m == n || ((n.kind == Worker || n.kind == Step) && (m.kind == Worker || m.kind == Step) && m == n.(kind := m.kind))
  }

  /** The same Flow, but for workers and steps among its nodes and route targets. */
  predicate SameButKinds(c: Compiled, d: Compiled) {
    && |c.nodes| == |d.nodes| && |c.edges| == |d.edges|
    && (forall i | 0 <= i < |c.nodes| :: SameButKind(c.nodes[i], d.nodes[i]))
    && (forall i | 0 <= i < |c.edges| ::
          d.edges[i] == c.edges[i].(target := d.edges[i].target) && SameButKind(c.edges[i].target, d.edges[i].target))
  }

  lemma {:induction false} Mirrored(c: Compiled, d: Compiled)
    requires SameButKinds(c, d)
    ensures SameButKinds(d, c)
  {
  }

  lemma {:induction false} NodePartner(c: Compiled, d: Compiled, m: Node) returns (n: Node)
    requires SameButKinds(c, d) && m in d.nodes
    ensures n in c.nodes && SameButKind(n, m)
  {
    hide SameButKind;
    var i :| 0 <= i < |d.nodes| && d.nodes[i] == m;
    n := c.nodes[i];
  }

  lemma {:induction false} EdgePartner(c: Compiled, d: Compiled, f: Edge) returns (e: Edge)
    requires SameButKinds(c, d) && f in d.edges
    ensures e in c.edges && f == e.(target := f.target) && SameButKind(e.target, f.target)
  {
    hide SameButKind;
    var i :| 0 <= i < |d.edges| && d.edges[i] == f;
    e := c.edges[i];
  }

  lemma {:induction false} SameReachWithin(c: Compiled, d: Compiled, s: set<string>)
    requires SameButKinds(c, d)
    ensures Closure(c.nodes, s) <= Closure(d.nodes, s)
  {
    hide Closure;
    ClosureIsClosed(d.nodes, s);
    Mirrored(c, d);
    var r := Closure(d.nodes, s);
    forall n | n in c.nodes && DependsOn(n, r) ensures n.id in r {
      var m := NodePartner(d, c, n);
      assert m.deps == n.deps && m.id == n.id;
      assert DependsOn(m, r);
    }
    ClosureIsLeast(c.nodes, s, r);
  }

  lemma {:induction false} SameFrom(c: Compiled, d: Compiled, x: string)
    requires SameButKinds(c, d)
    ensures From(c, x) == From(d, x)
  {
    hide Closure, SameButKinds;
    Mirrored(c, d);
    SameReachWithin(c, d, {x});
    SameReachWithin(d, c, {x});
  }

  lemma {:induction false} SameBranches(c: Compiled, d: Compiled, reach: set<string>, n: Node)
    requires SameButKinds(c, d) && IsBranchIn(d, reach, n)
    ensures IsBranchIn(c, reach, n)
  {
    hide SameButKinds;
    var m := NodePartner(c, d, n);
  }

  /** Branches, routes and the base do not depend on which nodes are workers and which are steps. */
  lemma {:induction false} SamePlaces(c: Compiled, d: Compiled, reach: set<string>)
    requires SameButKinds(c, d)
    ensures forall n: Node :: IsBranchIn(c, reach, n) <==> IsBranchIn(d, reach, n)
    ensures forall n: Node, t: string :: Owns(c, reach, n, t) <==> Owns(d, reach, n, t)
    ensures forall x: string :: OnRoute(c, reach, x) <==> OnRoute(d, reach, x)
    ensures forall x: string :: InBase(c, reach, x) <==> InBase(d, reach, x)
  {
    hide SameButKinds, LeadsTo, From;
    Mirrored(c, d);
    forall n: Node ensures IsBranchIn(c, reach, n) <==> IsBranchIn(d, reach, n) {
      if IsBranchIn(c, reach, n) { SameBranches(d, c, reach, n); }
      if IsBranchIn(d, reach, n) { SameBranches(c, d, reach, n); }
    }
    forall t: string ensures From(c, t) == From(d, t) {
      SameFrom(c, d, t);
    }
    forall x: string ensures OnRoute(c, reach, x) <==> OnRoute(d, reach, x) {
      if OnRoute(c, reach, x) {
        var n, t :| Owns(c, reach, n, t) && x in From(c, t);
        assert Owns(d, reach, n, t) && x in From(d, t);
      }
      if OnRoute(d, reach, x) {
        var n, t :| Owns(d, reach, n, t) && x in From(d, t);
        assert Owns(c, reach, n, t) && x in From(c, t);
      }
    }
  }

  lemma {:induction false} SameLeaving(c: Compiled, d: Compiled, reach: set<string>)
    requires SameButKinds(c, d) && LeavingOk(c, reach, true)
    ensures LeavingOk(d, reach, true)
  {
    hide SameButKinds, RouteLeadsTo, NameOf;
    SamePlaces(c, d, reach);
    forall f | f in d.edges && f.from in reach ensures EdgeOk(d, reach, true, f) {
      var e := EdgePartner(c, d, f);
      assert EdgeOk(c, reach, true, e);
      var n :| n in c.nodes && n.id == e.from && IsBranchIn(c, reach, n)
               && RouteLeadsTo(n.branch.value, e.choice, e.target.id);
      assert IsBranchIn(d, reach, n);
    }
    EdgesInPlace(c, d);
    Mirrored(c, d);
    forall b: string, route: string | HasEdge(c, b, route) ensures HasEdge(d, b, route) {
      var e :| e in c.edges && e.from == b && e.choice == route;
      var f := EdgePartner(d, c, e);
    }
  }

  lemma {:induction false} EdgesInPlace(c: Compiled, d: Compiled)
    requires SameButKinds(c, d)
    ensures |c.edges| == |d.edges|
    ensures forall i | 0 <= i < |c.edges| ::
              && c.edges[i].from == d.edges[i].from && c.edges[i].choice == d.edges[i].choice
              && c.edges[i].id == d.edges[i].id
  {
    hide SameButKind;
  }

  lemma {:induction false} SameRoutes(c: Compiled, d: Compiled, reach: set<string>)
    requires SameButKinds(c, d) && RoutesOk(c, reach)
    ensures RoutesOk(d, reach)
  {
    hide SameButKinds, Owns, From;
    SamePlaces(c, d, reach);
    forall t: string ensures From(c, t) == From(d, t) {
      SameFrom(c, d, t);
    }
    forall b, t, m | Owns(d, reach, b, t) && m in d.nodes && m.id in From(d, t) && m.id != t ensures m.kind != Branch {
      var n := NodePartner(c, d, m);
      assert Owns(c, reach, b, t) && n.id == m.id;
    }
  }

  lemma {:induction false} SameSiblings(c: Compiled, d: Compiled, b: Node, t: string, x: string)
    requires SameButKinds(c, d) && OnSibling(c, b, t, x)
    ensures OnSibling(d, b, t, x)
  {
    hide SameButKinds, LeadsTo, From;
    Mirrored(c, d);
    SameFrom(c, d, t);
    var u :| LeadsTo(b.branch.value, u) && u != t && x in From(c, u);
    SameFrom(c, d, u);
    var m :| m in c.nodes && m.id == x;
    var n := NodePartner(d, c, m);
  }

  lemma {:induction false} SameDependencies(c: Compiled, d: Compiled, reach: set<string>)
    requires SameButKinds(c, d) && DependenciesOk(c, reach, true)
    ensures DependenciesOk(d, reach, true)
  {
    hide SameButKinds, Owns, From, InBase, OnSibling;
    SamePlaces(c, d, reach);
    forall m | m in d.nodes && InBase(d, reach, m.id)
      ensures RunsOrBranches(m, true) && forall x | x in m.deps :: InBase(d, reach, x)
    {
      var n := NodePartner(c, d, m);
      assert InBase(c, reach, n.id);
    }
    forall b, t, m | Owns(d, reach, b, t) && m in d.nodes && m.id in From(d, t) && m.id != t
      ensures RunsOrBranches(m, true)
      ensures forall x | x in m.deps :: InBase(d, reach, x) || x in From(d, t) || OnSibling(d, b, t, x)
    {
      SameFrom(c, d, t);
      var n := NodePartner(c, d, m);
      assert Owns(c, reach, b, t) && n.id == m.id;
      forall x | x in m.deps ensures InBase(d, reach, x) || x in From(d, t) || OnSibling(d, b, t, x) {
        if OnSibling(c, b, t, x) {
          SameSiblings(c, d, b, t, x);
        }
      }
    }
  }

  lemma {:induction false} SameLeavers(c: Compiled, d: Compiled, reach: set<string>, id: string)
    requires SameButKinds(c, d) && Leaves(c, reach, id)
    ensures Leaves(d, reach, id)
  {
    hide SameButKinds;
    Mirrored(c, d);
    var g :| g in c.edges && g.id == id && g.from in reach;
    var h := EdgePartner(d, c, g);
  }

  lemma {:induction false} SameOthers(c: Compiled, d: Compiled, reach: set<string>)
    requires SameButKinds(c, d) && OthersOk(c, reach)
    ensures OthersOk(d, reach)
  {
    hide SameButKinds, OnRoute, InBase;
    SamePlaces(c, d, reach);
    Mirrored(c, d);
    forall f, x | f in d.edges && !Leaves(d, reach, f.id) && (x == f.from || x == f.target.id)
      ensures !InBase(d, reach, x) && !OnRoute(d, reach, x)
    {
      var e := EdgePartner(c, d, f);
      if Leaves(c, reach, e.id) {
        SameLeavers(c, d, reach, e.id);
      }
    }
  }

  lemma {:induction false} SameAcceptance(c: Compiled, d: Compiled, trigger: Trigger)
    requires SameButKinds(c, d) && trigger.durable && Acceptable(c, trigger)
    ensures Acceptable(d, trigger)
  {
    hide SameButKinds, From, LeavingOk, RoutesOk, DependenciesOk, OthersOk, CasesOk, Owns, IsBranchIn;
    var reach := From(c, trigger.entry);
    SameFrom(c, d, trigger.entry);
    SamePlaces(c, d, reach);
    SameLeaving(c, d, reach);
    SameRoutes(c, d, reach);
    SameDependencies(c, d, reach);
    SameOthers(c, d, reach);
    var n :| n in c.nodes && n.id == trigger.entry;
    Mirrored(c, d);
    var m := NodePartner(d, c, n);
  }

  /** With durable delivery it makes no difference to acceptance which nodes and targets are workers or steps. */
  lemma {:induction false} KindsMakeNoDifference(c: Compiled, d: Compiled, trigger: Trigger)
    requires SameButKinds(c, d) && trigger.durable
    ensures Acceptable(c, trigger) <==> Acceptable(d, trigger)
  {
    hide SameButKinds, Acceptable;
    Mirrored(c, d);
    if Acceptable(c, trigger) { SameAcceptance(c, d, trigger); }
    if Acceptable(d, trigger) { SameAcceptance(d, c, trigger); }
  }

  // ---------------------------------------------------------------- the planned region

  /** The region of an accepted trigger, part by part. */
  lemma {:induction false} PlanMeans(c: Compiled, trigger: Trigger, owners: map<string, string>)
    requires UniqueIds(c.nodes) && Accepted(c, trigger, owners)
    ensures var reach := From(c, trigger.entry);
            var r := Planned(c, trigger.entry, owners);
            && (forall x :: x in r.base <==> InBase(c, reach, x))
            && (forall t :: t in r.downstream <==> exists b :: Owns(c, reach, b, t))
            && (forall t, n | t in r.downstream ::
                  n in r.downstream[t] <==> n in c.nodes && n.id in From(c, t) && n.id != t)
            && (forall b, t, x | Owns(c, reach, b, t) && t in r.skipped :: x in r.skipped[t] <==> OnSibling(c, b, t, x))
            && (forall e | e in c.edges && e.from in reach :: (e.from, e.target.id) in r.targets)
            && (forall k | k in r.targets ::
                  exists e | e in c.edges :: e.from in reach && k == (e.from, e.target.id) && r.targets[k] == e.target)
  {
    hide SpecsIn, Closure, UniqueIds, OwnersMatch, RoutesValid, EdgesIndexed, RoutesSeparate, ScopesValid, EdgesValid,
         OnRoutes,
         InBase, Owns, OnSibling, TargetIndex, Members, SkippedBy;
    var entry, reach := trigger.entry, From(c, trigger.entry);
    var r := Planned(c, entry, owners);
    forall x ensures x in r.base <==> InBase(c, reach, x) {
      BaseAgrees(c, entry, owners, x);
    }
    forall t ensures t in r.downstream <==> exists b :: Owns(c, reach, b, t) {
      if t in r.downstream {
        var b := OwnerNode(c, reach, owners, t);
      }
      if b :| Owns(c, reach, b, t) {
        OwnersAgree(c, reach, owners, b, t);
      }
    }
    forall t, n | t in r.downstream
      ensures n in r.downstream[t] <==> n in c.nodes && n.id in From(c, t) && n.id != t
    {
      InDownstream(c, entry, owners, t, n);
    }
    forall b, t, x | Owns(c, reach, b, t) && t in r.skipped ensures x in r.skipped[t] <==> OnSibling(c, b, t, x) {
      SkippedAgrees(c, reach, owners, b, t, x);
    }
    forall e | e in c.edges && e.from in reach ensures (e.from, e.target.id) in r.targets {
      TargetIndexed(c.edges, reach, e);
    }
    forall k | k in r.targets
      ensures exists e | e in c.edges :: e.from in reach && k == (e.from, e.target.id) && r.targets[k] == e.target
    {
      IndexedTarget(c.edges, reach, k);
    }
  }
}
