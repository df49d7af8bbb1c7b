/**
 The planner of event regions. A trigger's region is what depends on its entry
 node, minus what depends on a branch route; routes are spliced in at run time.

 Nodes and edges are those of a compiled Flow. `configured` stands for the checks
 of a node's own configuration (scripts, runtime, service, declared outputs).
 */
module RegionPlanner {
  import opened SessionTypes
  import opened Text

  datatype Kind = Branch | Step | Worker | Unsupported

  datatype Case = Case(name: string, to: string)

  datatype BranchSpec = BranchSpec(source: string, cases: seq<Case>, defaultTo: string)

  datatype Node = Node(id: string, kind: Kind, deps: seq<string>, branch: Option<BranchSpec>, configured: bool)

  datatype Edge = Edge(id: string, from: string, choice: string, target: Node, prefixed: bool)

  datatype Compiled = Compiled(nodes: seq<Node>, edges: seq<Edge>)

  datatype Trigger = Trigger(entry: string, durable: bool)

  const DEFAULT_ROUTE := "default"

  // ---------------------------------------------------------------- closure

  function Ids(nodes: seq<Node>): set<string> {
    set n | n in nodes :: n.id
  }

  predicate DependsOn(n: Node, s: set<string>) {
    exists d | d in n.deps :: d in s
  }

  predicate Closed(nodes: seq<Node>, s: set<string>) {
    forall n | n in nodes && DependsOn(n, s) :: n.id in s
  }

  function Expanded(nodes: seq<Node>, s: set<string>): set<string> {
    s + set n | n in nodes && DependsOn(n, s) :: n.id
  }

  /** What depends, directly or not, on a member of `s`. */
  ghost function Closure(nodes: seq<Node>, s: set<string>): set<string>
    decreases |Ids(nodes) - s|
  {
    var t := Expanded(nodes, s);
    if t == s then s
    else
      ExpandedGrows(nodes, s);
      Closure(nodes, t)
  }

  lemma {:induction false} ExpandedGrows(nodes: seq<Node>, s: set<string>)
    requires Expanded(nodes, s) != s
    ensures |Ids(nodes) - Expanded(nodes, s)| < |Ids(nodes) - s|
  {
    var t := Expanded(nodes, s);
    var x :| x in t && x !in s;
    assert Ids(nodes) - t <= Ids(nodes) - s - {x};
    SubsetSize(Ids(nodes) - t, Ids(nodes) - s - {x});
  }

  lemma {:induction false} SubsetSize<T>(a: set<T>, b: set<T>)
    requires a <= b
    ensures |a| <= |b|
  {
    assert b == a + (b - a);
  }

  /** The closure is closed and contains its seed. */
  lemma {:induction false} ClosureIsClosed(nodes: seq<Node>, s: set<string>)
    ensures s <= Closure(nodes, s) && Closed(nodes, Closure(nodes, s))
    decreases |Ids(nodes) - s|
  {
    var t := Expanded(nodes, s);
    if t == s {
      forall n | n in nodes && DependsOn(n, s) ensures n.id in s {
        assert n.id in t;
      }
    } else {
      ExpandedGrows(nodes, s);
      ClosureIsClosed(nodes, t);
    }
  }

  /** The closure is the least closed set that contains its seed. */
  lemma {:induction false} ClosureIsLeast(nodes: seq<Node>, s: set<string>, c: set<string>)
    requires s <= c && Closed(nodes, c)
    ensures Closure(nodes, s) <= c
    decreases |Ids(nodes) - s|
  {
    var t := Expanded(nodes, s);
    forall x | x in t ensures x in c {
      if x !in s {
        var n :| n in nodes && DependsOn(n, s) && n.id == x;
        assert DependsOn(n, c);
      }
    }
    if t != s {
      ExpandedGrows(nodes, s);
      ClosureIsLeast(nodes, t, c);
    }
  }

  /** Closing adds only ids of nodes. */
  lemma {:induction false} ClosureOfNodes(nodes: seq<Node>, s: set<string>)
    ensures Closure(nodes, s) <= s + Ids(nodes)
  {
    ClosureIsLeast(nodes, s, s + Ids(nodes));
  }

  /** Some node of that id depends on `from`. */
  predicate Link(nodes: seq<Node>, from: string, to: string) {
    exists n | n in nodes :: n.id == to && from in n.deps
  }

  /** A chain of nodes, each of which depends on the one before it. */
  predicate Chain(nodes: seq<Node>, path: seq<string>) {
    forall k | 0 <= k < |path| - 1 :: Link(nodes, path[k], path[k + 1])
  }

  ghost predicate Reachable(nodes: seq<Node>, seed: set<string>, x: string) {
    exists path: seq<string> :: Chain(nodes, path) && path != [] && path[0] in seed && path[|path| - 1] == x
  }

  lemma {:induction false} ChainStays(nodes: seq<Node>, closed: set<string>, path: seq<string>, k: nat)
    requires Closed(nodes, closed) && Chain(nodes, path) && k < |path| && path[0] in closed
    ensures path[k] in closed
    decreases k
  {
    if k > 0 {
      ChainStays(nodes, closed, path, k - 1);
      assert Link(nodes, path[k - 1], path[k - 1 + 1]);
      var n :| n in nodes && n.id == path[k] && path[k - 1] in n.deps;
      assert DependsOn(n, closed);
    }
  }

  lemma {:induction false} ChainExtends(nodes: seq<Node>, seed: set<string>, n: Node, d: string)
    requires Reachable(nodes, seed, d) && n in nodes && d in n.deps
    ensures Reachable(nodes, seed, n.id)
  {
    var path: seq<string> :| Chain(nodes, path) && path != [] && path[0] in seed && path[|path| - 1] == d;
    var longer := path + [n.id];
    forall k | 0 <= k < |longer| - 1 ensures Link(nodes, longer[k], longer[k + 1]) {
      if k < |path| - 1 {
        assert Link(nodes, path[k], path[k + 1]);
      } else {
        assert n.id == longer[k + 1] && longer[k] in n.deps;
      }
    }
    assert Chain(nodes, longer) && longer[0] in seed && longer[|longer| - 1] == n.id;
  }

  /** The closure is what can be reached from its seed along dependencies. */
  lemma {:induction false} ClosureIsReachable(nodes: seq<Node>, s: set<string>, x: string)
    ensures x in Closure(nodes, s) <==> Reachable(nodes, s, x)
  {
    hide Closure, Chain, Closed, Link;
    ClosureIsClosed(nodes, s);
    if Reachable(nodes, s, x) {
      var path: seq<string> :| Chain(nodes, path) && path != [] && path[0] in s && path[|path| - 1] == x;
      ChainStays(nodes, Closure(nodes, s), path, |path| - 1);
    }
    var reached := set y | y in Closure(nodes, s) && Reachable(nodes, s, y);
    SeedIsReachable(nodes, s, reached);
    ReachedIsClosed(nodes, s, reached);
    ClosureIsLeast(nodes, s, reached);
  }

  lemma {:induction false} SeedIsReachable(nodes: seq<Node>, s: set<string>, reached: set<string>)
    requires s <= Closure(nodes, s) && reached == set y | y in Closure(nodes, s) && Reachable(nodes, s, y)
    ensures s <= reached
  {
    hide Closure;
    forall y | y in s ensures Reachable(nodes, s, y) {
      var path := [y];
      assert Chain(nodes, path) && path[0] in s && path[|path| - 1] == y;
    }
  }

  lemma {:induction false} ReachedIsClosed(nodes: seq<Node>, s: set<string>, reached: set<string>)
    requires Closed(nodes, Closure(nodes, s)) && reached == set y | y in Closure(nodes, s) && Reachable(nodes, s, y)
    ensures Closed(nodes, reached)
  {
    hide Closure, Reachable;
    forall n | n in nodes && DependsOn(n, reached) ensures n.id in reached {
      var d :| d in n.deps && d in reached;
      assert DependsOn(n, Closure(nodes, s));
      ChainExtends(nodes, s, n, d);
    }
  }

  /** One pass of the fixpoint loop over the nodes; it stays below every closed set. */
  method ClosePass(nodes: seq<Node>, start: set<string>, ghost bound: set<string>)
    returns (region: set<string>, changed: bool)
    requires start <= bound && Closed(nodes, bound)
    ensures start <= region <= bound
    ensures !changed ==> region == start && Closed(nodes, start)
    ensures changed ==> |Ids(nodes) - region| < |Ids(nodes) - start|
  {
    region, changed := start, false;
    ghost var added := "";
    for i := 0 to |nodes|
      invariant start <= region <= bound
      invariant !changed ==> region == start
      invariant changed ==> added in region && added !in start && added in Ids(nodes)
      invariant !changed ==> forall k | 0 <= k < i && DependsOn(nodes[k], start) :: nodes[k].id in start
    {
      var n := nodes[i];
      if n.id !in region && DependsOn(n, region) {
        assert DependsOn(n, bound) && n in nodes;
        region, changed, added := region + {n.id}, true, n.id;
      }
    }
    if changed {
      SubsetSize(Ids(nodes) - region, Ids(nodes) - start - {added});
    } else {
      forall n | n in nodes && DependsOn(n, start) ensures n.id in start {
        var k :| 0 <= k < |nodes| && nodes[k] == n;
      }
    }
  }

  /** The fixpoint loop of the planner: passes over the nodes until one adds nothing. */
  method Close(nodes: seq<Node>, seed: set<string>) returns (region: set<string>)
    ensures region == Closure(nodes, seed)
  {
    hide Closure, Closed, Ids;
    region := seed;
    ClosureIsClosed(nodes, seed);
    var changed := true;
    while changed
      invariant seed <= region <= Closure(nodes, seed)
      invariant !changed ==> Closed(nodes, region)
      decreases |Ids(nodes) - region|, changed
    {
      region, changed := ClosePass(nodes, region, Closure(nodes, seed));
    }
    ClosureIsLeast(nodes, seed, region);
  }

  predicate UniqueIds(nodes: seq<Node>) {
    forall i, j | 0 <= i < j < |nodes| :: nodes[i].id != nodes[j].id
  }

  /** No branch node in a part of a route. */
  predicate BranchFree(nodes: seq<Node>, target: string, chain: set<string>) {
    forall n | n in nodes && n.id in chain && n.id != target :: n.kind != Branch
  }

  /** One pass of the same loop along a route, which stops at a branch node. */
  method RoutePass(nodes: seq<Node>, target: string, start: set<string>, ghost bound: set<string>)
    returns (ok: bool, chain: set<string>, changed: bool)
    requires UniqueIds(nodes) && target in start && start <= bound && Closed(nodes, bound)
    requires BranchFree(nodes, target, start)
    ensures !ok ==> !BranchFree(nodes, target, bound)
    ensures ok ==> start <= chain <= bound && BranchFree(nodes, target, chain)
    ensures ok && !changed ==> chain == start && Closed(nodes, start)
    ensures ok && changed ==> |Ids(nodes) - chain| < |Ids(nodes) - start|
  {
    ok, chain, changed := true, start, false;
    ghost var added := "";
    for i := 0 to |nodes|
      invariant start <= chain <= bound && BranchFree(nodes, target, chain)
      invariant !changed ==> chain == start
      invariant changed ==> added in chain && added !in start && added in Ids(nodes)
      invariant !changed ==> forall k | 0 <= k < i && DependsOn(nodes[k], start) :: nodes[k].id in start
    {
      var n := nodes[i];
      if n.id !in chain && DependsOn(n, chain) {
        assert DependsOn(n, bound) && n in nodes;
        if n.kind == Branch {
          return false, chain, changed;
        }
        BranchFreeGrows(nodes, target, chain, n);
        chain, changed, added := chain + {n.id}, true, n.id;
      }
    }
    if changed {
      SubsetSize(Ids(nodes) - chain, Ids(nodes) - start - {added});
    } else {
      forall n | n in nodes && DependsOn(n, start) ensures n.id in start {
        var k :| 0 <= k < |nodes| && nodes[k] == n;
      }
    }
  }

  lemma {:induction false} BranchFreeGrows(nodes: seq<Node>, target: string, chain: set<string>, n: Node)
    requires UniqueIds(nodes) && n in nodes && n.kind != Branch && BranchFree(nodes, target, chain)
    ensures BranchFree(nodes, target, chain + {n.id})
  {
    forall m | m in nodes && m.id == n.id ensures m == n {
      var i :| 0 <= i < |nodes| && nodes[i] == m;
      var j :| 0 <= j < |nodes| && nodes[j] == n;
    }
  }

  /** The fixpoint along a route, which refuses routes with a branch node downstream. */
  method CloseRoute(nodes: seq<Node>, target: string) returns (ok: bool, chain: set<string>)
    requires UniqueIds(nodes)
    ensures ok <==> BranchFree(nodes, target, Closure(nodes, {target}))
    ensures ok ==> chain == Closure(nodes, {target})
  {
    hide Closure, Closed, Ids, UniqueIds;
    ok, chain := true, {target};
    ClosureIsClosed(nodes, {target});
    assert BranchFree(nodes, target, {target});
    var changed := true;
    while changed
      invariant {target} <= chain <= Closure(nodes, {target})
      invariant BranchFree(nodes, target, chain)
      invariant !changed ==> Closed(nodes, chain)
      decreases |Ids(nodes) - chain|, changed
    {
      ok, chain, changed := RoutePass(nodes, target, chain, Closure(nodes, {target}));
      if !ok {
        return;
      }
    }
    ClosureIsLeast(nodes, {target}, chain);
    assert chain == Closure(nodes, {target});
    return true, chain;
  }

  // ---------------------------------------------------------------- branch routes

  predicate IsBranch(n: Node) {
    n.kind == Branch && n.branch.Some?
  }

  function RouteName(c: Case): string {
    if Trim(c.name) == "" then Trim(c.to) else Trim(c.name)
  }

  function Targets(spec: BranchSpec): set<string> {
    (set c | c in spec.cases :: c.to) + {spec.defaultTo}
  }

  /** The target that a branch gives a route, if it has that route. */
  function RouteTarget(spec: BranchSpec, route: string): Option<string> {
    if route == DEFAULT_ROUTE then Some(spec.defaultTo) else CaseTarget(spec.cases, route)
  }

  function CaseTarget(cases: seq<Case>, route: string): Option<string>
    decreases |cases|
  {
    if cases == [] then None
    else if RouteName(cases[0]) == route then Some(cases[0].to)
    else CaseTarget(cases[1..], route)
  }

  /** Case names are distinct, and none is the reserved name of the default route. */
  predicate RoutesDistinct(spec: BranchSpec) {
    && (forall i, j | 0 <= i < j < |spec.cases| :: RouteName(spec.cases[i]) != RouteName(spec.cases[j]))
    && (forall c | c in spec.cases :: RouteName(c) != DEFAULT_ROUTE)
  }

  function Find(nodes: seq<Node>, id: string): Option<Node>
    decreases |nodes|
  {
    if nodes == [] then None else if nodes[0].id == id then Some(nodes[0]) else Find(nodes[1..], id)
  }

  lemma {:induction false} FindExact(nodes: seq<Node>, id: string)
    ensures Find(nodes, id).Some? ==> Find(nodes, id).value in nodes && Find(nodes, id).value.id == id
    ensures Find(nodes, id).None? ==> id !in Ids(nodes)
    decreases |nodes|
  {
    if nodes != [] {
      FindExact(nodes[1..], id);
      assert nodes == [nodes[0]] + nodes[1..];
    }
  }

  lemma {:induction false} FindUnique(nodes: seq<Node>, n: Node)
    requires UniqueIds(nodes) && n in nodes
    ensures Find(nodes, n.id) == Some(n)
  {
    FindExact(nodes, n.id);
    var m := Find(nodes, n.id).value;
    var i :| 0 <= i < |nodes| && nodes[i] == m;
    var j :| 0 <= j < |nodes| && nodes[j] == n;
  }

  /** The branch configurations of the branch nodes among `ids`. */
  function SpecsIn(nodes: seq<Node>, ids: set<string>): map<string, BranchSpec> {
    map id | id in ids && Find(nodes, id).Some? && IsBranch(Find(nodes, id).value) :: Find(nodes, id).value.branch.value
  }

  predicate SpecValid(spec: BranchSpec, region: set<string>) {
    spec.source in region && RoutesDistinct(spec)
  }

  /** Every branch is valid and no target is shared between two of them. */
  predicate RoutesValid(specs: map<string, BranchSpec>, region: set<string>) {
    && (forall b | b in specs :: SpecValid(specs[b], region))
    && (forall a, b | a in specs && b in specs && a != b :: Targets(specs[a]) !! Targets(specs[b]))
  }

  /** `owners` gives each route target of the branches its branch. */
  predicate OwnersMatch(specs: map<string, BranchSpec>, owners: map<string, string>) {
    && (forall b | b in specs :: forall t | t in Targets(specs[b]) :: t in owners && owners[t] == b)
    && (forall t | t in owners :: owners[t] in specs && t in Targets(specs[owners[t]]))
  }

  lemma {:induction false} OwnersUnique(specs: map<string, BranchSpec>, a: map<string, string>, b: map<string, string>)
    requires OwnersMatch(specs, a) && OwnersMatch(specs, b)
    ensures a == b
  {
    hide Targets;
    assert forall t | t in a :: t in b && a[t] == b[t];
    assert forall t | t in b :: t in a;
  }

  /** The routes of a branch with their targets, as a table. */
  ghost predicate RoutesOf(spec: BranchSpec, routes: map<string, string>) {
    && (forall route: string :: route in routes <==> RouteTarget(spec, route).Some?)
    && (forall route | route in routes :: RouteTarget(spec, route) == Some(routes[route]))
  }

  ghost predicate Expected(specs: map<string, BranchSpec>, routes: map<string, map<string, string>>) {
    routes.Keys == specs.Keys && forall b | b in specs :: RoutesOf(specs[b], routes[b])
  }

  /** The table of the first `k` cases. */
  ghost predicate CasesOf(cases: seq<Case>, k: nat, routes: map<string, string>)
    requires k <= |cases|
  {
    && (forall i | 0 <= i < k :: RouteName(cases[i]) in routes && routes[RouteName(cases[i])] == cases[i].to)
    && (forall route | route in routes :: exists i :: 0 <= i < k && RouteName(cases[i]) == route)
    && (forall i, j | 0 <= i < j < k :: RouteName(cases[i]) != RouteName(cases[j]))
  }

  lemma {:induction false} CaseTargetIs(cases: seq<Case>, i: nat)
    requires i < |cases| && forall j | 0 <= j < i :: RouteName(cases[j]) != RouteName(cases[i])
    ensures CaseTarget(cases, RouteName(cases[i])) == Some(cases[i].to)
    decreases |cases|
  {
    hide RouteName;
    if i > 0 {
      CaseTargetIs(cases[1..], i - 1);
    }
  }

  lemma {:induction false} CaseTargetNone(cases: seq<Case>, route: string)
    requires forall i | 0 <= i < |cases| :: RouteName(cases[i]) != route
    ensures CaseTarget(cases, route).None?
    decreases |cases|
  {
    hide RouteName;
    if cases != [] {
      CaseTargetNone(cases[1..], route);
    }
  }

  lemma {:induction false} CasesComplete(spec: BranchSpec, routes: map<string, string>)
    requires CasesOf(spec.cases, |spec.cases|, routes) && DEFAULT_ROUTE !in routes
    ensures RoutesDistinct(spec) && RoutesOf(spec, routes[DEFAULT_ROUTE := spec.defaultTo])
  {
    hide RouteName;
    var all := routes[DEFAULT_ROUTE := spec.defaultTo];
    forall route: string | route != DEFAULT_ROUTE
      ensures route in all <==> CaseTarget(spec.cases, route).Some?
      ensures route in all ==> CaseTarget(spec.cases, route) == Some(all[route])
    {
      if route in routes {
        var i :| 0 <= i < |spec.cases| && RouteName(spec.cases[i]) == route;
        CaseTargetIs(spec.cases, i);
      } else {
        CaseTargetNone(spec.cases, route);
      }
    }
  }

  /** The targets of the first `k` cases. */
  function FirstTargets(cases: seq<Case>, k: nat): set<string>
    requires k <= |cases|
  {
    set c | c in cases[..k] :: c.to
  }

  lemma {:induction false} FirstTargetsStep(cases: seq<Case>, k: nat)
    requires k < |cases|
    ensures FirstTargets(cases, k + 1) == FirstTargets(cases, k) + {cases[k].to}
  {
    assert cases[..k + 1] == cases[..k] + [cases[k]];
  }

  /** Every one of these targets belongs to the branch now, and nothing else has changed. */
  function Claimed(owners: map<string, string>, targets: set<string>, b: string): map<string, string> {
    owners + map t | t in targets :: b
  }

  /** Reads the routes of one branch, case by case, and claims their targets. */
  method CollectCases(spec: BranchSpec, b: string, known: map<string, string>)
    returns (ok: bool, routes: map<string, string>, owners: map<string, string>)
    ensures ok <==> RoutesDistinct(spec) && forall t | t in Targets(spec) && t in known :: known[t] == b
    ensures ok ==> RoutesOf(spec, routes) && owners == Claimed(known, Targets(spec), b)
  {
    hide RouteName, RoutesOf, CasesOf, Targets, RoutesDistinct, FirstTargets, Claimed;
    routes, owners := map[], known;
    NoCases(spec.cases, known, b);
    for k := 0 to |spec.cases|
      invariant CasesOf(spec.cases, k, routes)
      invariant owners == Claimed(known, FirstTargets(spec.cases, k), b)
      invariant forall t | t in FirstTargets(spec.cases, k) && t in known :: known[t] == b
    {
      var c := spec.cases[k];
      var route := RouteName(c);
      CaseStep(spec, k, routes);
      if route in routes {
        return false, routes, owners;
      }
      FirstTargetsStep(spec.cases, k);
      ClaimStep(known, FirstTargets(spec.cases, k), b, c.to);
      if c.to in owners && owners[c.to] != b {
        return false, routes, owners;
      }
      routes := routes[route := c.to];
      owners := owners[c.to := b];
    }
    AllTargets(spec);
    if DEFAULT_ROUTE in routes {
      ReservedRoute(spec, routes);
      return false, routes, owners;
    }
    CasesComplete(spec, routes);
    ClaimStep(known, FirstTargets(spec.cases, |spec.cases|), b, spec.defaultTo);
    if spec.defaultTo in owners && owners[spec.defaultTo] != b {
      return false, routes, owners;
    }
    routes := routes[DEFAULT_ROUTE := spec.defaultTo];
    owners := owners[spec.defaultTo := b];
    return true, routes, owners;
  }

  lemma NoCases(cases: seq<Case>, known: map<string, string>, b: string)
    ensures CasesOf(cases, 0, map[]) && FirstTargets(cases, 0) == {} && Claimed(known, {}, b) == known
  {
  }

  lemma {:induction false} CaseStep(spec: BranchSpec, k: nat, routes: map<string, string>)
    requires k < |spec.cases| && CasesOf(spec.cases, k, routes)
    ensures var c := spec.cases[k];
            if RouteName(c) in routes then !RoutesDistinct(spec)
            else CasesOf(spec.cases, k + 1, routes[RouteName(c) := c.to])
    ensures spec.cases[k].to in Targets(spec)
  {
    hide RouteName;
    var c := spec.cases[k];
    if RouteName(c) in routes {
      var i :| 0 <= i < k && RouteName(spec.cases[i]) == RouteName(c);
    } else {
      var after := routes[RouteName(c) := c.to];
      forall route | route in after ensures exists i :: 0 <= i < k + 1 && RouteName(spec.cases[i]) == route {
        if route == RouteName(c) {
          assert RouteName(spec.cases[k]) == route;
        } else {
          var i :| 0 <= i < k && RouteName(spec.cases[i]) == route;
        }
      }
    }
  }

  lemma {:induction false} ReservedRoute(spec: BranchSpec, routes: map<string, string>)
    requires CasesOf(spec.cases, |spec.cases|, routes) && DEFAULT_ROUTE in routes
    ensures !RoutesDistinct(spec)
  {
    hide RouteName;
    var i :| 0 <= i < |spec.cases| && RouteName(spec.cases[i]) == DEFAULT_ROUTE;
    assert spec.cases[i] in spec.cases;
  }

  lemma {:induction false} AllTargets(spec: BranchSpec)
    ensures Targets(spec) == FirstTargets(spec.cases, |spec.cases|) + {spec.defaultTo}
  {
    assert spec.cases[..|spec.cases|] == spec.cases;
  }

  lemma {:induction false} ClaimStep(known: map<string, string>, targets: set<string>, b: string, t: string)
    ensures Claimed(known, targets + {t}, b) == Claimed(known, targets, b)[t := b]
    ensures t in Claimed(known, targets, b) && Claimed(known, targets, b)[t] != b <==>
            t !in targets && t in known && known[t] != b
  {
  }

  /** Collects the routes of a region's branches, taking the branches in any order. */
  method CollectRoutes(specs: map<string, BranchSpec>, region: set<string>)
    returns (ok: bool, owners: map<string, string>, expected: map<string, map<string, string>>)
    ensures ok <==> RoutesValid(specs, region)
    ensures ok ==> OwnersMatch(specs, owners) && Expected(specs, expected)
  {
    hide RoutesDistinct, Targets, RoutesOf;
    owners, expected := map[], map[];
    var seen: map<string, BranchSpec> := map[];
    var todo := specs.Keys;
    while todo != {}
      invariant todo <= specs.Keys && seen.Keys == expected.Keys == specs.Keys - todo
      invariant forall b | b in seen :: seen[b] == specs[b] && RoutesOf(specs[b], expected[b])
      invariant RoutesValid(seen, region) && OwnersMatch(seen, owners)
      decreases todo
    {
      var b :| b in todo;
      if specs[b].source !in region {
        return false, owners, expected;
      }
      var good, routes, more := CollectCases(specs[b], b, owners);
      if !good {
        RoutesClash(specs, region, seen, owners, b);
        return false, owners, expected;
      }
      RoutesGrow(seen, owners, b, specs[b], region);
      owners, expected := more, expected[b := routes];
      seen := seen[b := specs[b]];
      todo := todo - {b};
    }
    assert seen == specs;
    ok := true;
  }

  lemma {:induction false} RoutesClash(specs: map<string, BranchSpec>, region: set<string>, seen: map<string,
                                       BranchSpec>,
                                       owners: map<string, string>, b: string)
    requires b in specs && b !in seen && OwnersMatch(seen, owners)
    requires seen.Keys <= specs.Keys && forall a | a in seen :: seen[a] == specs[a]
    requires !(RoutesDistinct(specs[b]) && forall t | t in Targets(specs[b]) && t in owners :: owners[t] == b)
    ensures !RoutesValid(specs, region)
  {
    hide RoutesDistinct, Targets;
    if RoutesDistinct(specs[b]) {
      var t :| t in Targets(specs[b]) && t in owners && owners[t] != b;
      assert t in Targets(specs[b]) * Targets(specs[owners[t]]);
    }
  }

  lemma {:induction false} RoutesGrow(specs: map<string, BranchSpec>, owners: map<string, string>,
                                      b: string, spec: BranchSpec, region: set<string>)
    requires b !in specs && OwnersMatch(specs, owners) && RoutesValid(specs, region) && SpecValid(spec, region)
    requires forall t | t in Targets(spec) && t in owners :: owners[t] == b
    ensures OwnersMatch(specs[b := spec], Claimed(owners, Targets(spec), b))
    ensures RoutesValid(specs[b := spec], region)
  {
    hide Targets, SpecValid;
    assert forall t | t in owners :: owners[t] != b;
    forall a | a in specs ensures Targets(specs[a]) !! Targets(spec) {
      assert forall t | t in Targets(specs[a]) :: t in owners;
    }
  }

  // ---------------------------------------------------------------- route chains

  /** What runs when a route is taken: its target and everything that depends on it. */
  ghost function Route(nodes: seq<Node>, target: string): set<string> {
    Closure(nodes, {target})
  }

  function Members(nodes: seq<Node>, ids: set<string>): seq<Node>
    decreases |nodes|
  {
    if nodes == [] then []
    else if nodes[0].id in ids then [nodes[0]] + Members(nodes[1..], ids)
    else Members(nodes[1..], ids)
  }

  lemma {:induction false} MembersExact(nodes: seq<Node>, ids: set<string>, n: Node)
    ensures n in Members(nodes, ids) <==> n in nodes && n.id in ids
    decreases |nodes|
  {
    if nodes != [] {
      MembersExact(nodes[1..], ids, n);
      assert nodes == [nodes[0]] + nodes[1..];
    }
  }

  lemma {:induction false} MembersUnique(nodes: seq<Node>, ids: set<string>)
    requires UniqueIds(nodes)
    ensures UniqueIds(Members(nodes, ids))
    decreases |nodes|
  {
    if nodes != [] {
      MembersUnique(nodes[1..], ids);
      var rest := Members(nodes[1..], ids);
      forall k | 0 <= k < |rest| ensures rest[k].id != nodes[0].id {
        MembersExact(nodes[1..], ids, rest[k]);
        var i :| 0 <= i < |nodes[1..]| && nodes[1..][i] == rest[k];
        assert nodes[i + 1] == rest[k];
      }
    }
  }

  /** Routes contain no branch, and routes of different branches share no node. */
  ghost predicate RoutesSeparate(nodes: seq<Node>, owners: map<string, string>) {
    && (forall t | t in owners :: BranchFree(nodes, t, Route(nodes, t)))
    && (forall t, u | t in owners && u in owners && owners[t] != owners[u] ::
          Route(nodes, t) - {t} !! Route(nodes, u) - {u})
  }

  /** The nodes only on other routes of the same branch. */
  ghost function SkippedBy(nodes: seq<Node>, owners: map<string, string>, t: string): set<string>
    requires t in owners
  {
    set n, u | u in owners && n in nodes && owners[u] == owners[t] && u != t
               && n.id in Route(nodes, u) && n.id !in Route(nodes, t) :: n.id
  }

  /** Everything that is on some route. */
  ghost function OnRoutes(nodes: seq<Node>, owners: map<string, string>): set<string> {
    set t, x | t in owners && x in Route(nodes, t) :: x
  }

  datatype Routes = Routes(chains: map<string, set<string>>, dynamic: set<string>)

  /** Closes every route and checks that branches do not share nodes, taking the routes in any order. */
  method CollectChains(nodes: seq<Node>, owners: map<string, string>) returns (ok: bool, routes: Routes)
    requires UniqueIds(nodes)
    ensures ok <==> RoutesSeparate(nodes, owners)
    ensures ok ==> routes == Routes(map t | t in owners :: Route(nodes, t), OnRoutes(nodes, owners))
  {
    hide Closure, UniqueIds, BranchFree;
    var chains: map<string, set<string>> := map[];
    var todo := owners.Keys;
    while todo != {}
      invariant todo <= owners.Keys && chains.Keys == owners.Keys - todo
      invariant forall t | t in chains :: chains[t] == Route(nodes, t) && BranchFree(nodes, t, Route(nodes, t))
      decreases todo
    {
      var t :| t in todo;
      var good, chain := CloseRoute(nodes, t);
      if !good {
        return false, Routes(map[], {});
      }
      chains := chains[t := chain];
      todo := todo - {t};
    }
    var dynamic: set<string>;
    ok, dynamic := CheckOwnership(chains, owners);
    routes := Routes(chains, dynamic);
    if ok {
      ClosureContains(nodes, owners.Keys);
      TogetherIsOnRoutes(nodes, owners, chains);
    }
  }

  lemma {:induction false} TogetherIsOnRoutes(nodes: seq<Node>, owners: map<string, string>, chains: map<string,
                                              set<string>>)
    requires chains.Keys == owners.Keys
    requires forall t | t in owners :: chains[t] == Route(nodes, t) && t in Route(nodes, t)
    ensures Together(chains, owners.Keys) == OnRoutes(nodes, owners)
    ensures chains == map t | t in owners :: Route(nodes, t)
  {
    hide Route;
    forall x ensures x in Together(chains, owners.Keys) <==> x in OnRoutes(nodes, owners) {
      if x in Together(chains, owners.Keys) {
        var t :| t in owners.Keys && x in chains[t] + {t};
        assert x in Route(nodes, t);
      }
      if x in OnRoutes(nodes, owners) {
        var t :| t in owners && x in Route(nodes, t);
        assert x in chains[t] + {t};
      }
    }
  }

  lemma {:induction false} ClosureContains(nodes: seq<Node>, targets: set<string>)
    ensures forall t | t in targets :: t in Route(nodes, t)
  {
    forall t | t in targets ensures t in Route(nodes, t) {
      ClosureIsClosed(nodes, {t});
    }
  }

  /** The ownership map of the planner: a node may be downstream of one branch only. */
  method CheckOwnership(chains: map<string, set<string>>, owners: map<string, string>)
    returns (ok: bool, dynamic: set<string>)
    requires chains.Keys == owners.Keys
    ensures ok <==> ChainsSeparate(chains, owners)
    ensures ok ==> dynamic == Together(chains, owners.Keys)
  {
    hide Claims, Together, ChainsSeparate;
    var claimed: map<string, string> := map[];
    dynamic := {};
    NoClaims(chains, owners);
    ghost var seen: set<string> := {};
    var todo := owners.Keys;
    while todo != {}
      invariant seen == owners.Keys - todo && todo <= owners.Keys
      invariant Claims(chains, owners, seen, claimed)
      invariant dynamic == Together(chains, seen)
      decreases todo
    {
      var t :| t in todo;
      var mine := chains[t] - {t};
      if exists x | x in mine :: x in claimed && claimed[x] != owners[t] {
        ghost var x :| x in mine && x in claimed && claimed[x] != owners[t];
        ClaimConflict(chains, owners, seen, claimed, t, x);
        return false, dynamic;
      }
      ClaimsGrow(chains, owners, seen, claimed, t);
      TogetherGrows(chains, seen, t);
      claimed := claimed + map x | x in mine :: owners[t];
      dynamic := dynamic + chains[t] + {t};
      seen, todo := seen + {t}, todo - {t};
    }
    ok := true;
    assert seen == owners.Keys;
    ClaimsSeparate(chains, owners, claimed);
  }

  predicate ChainsSeparate(chains: map<string, set<string>>, owners: map<string, string>)
    requires chains.Keys == owners.Keys
  {
    forall t, u | t in owners && u in owners && owners[t] != owners[u] :: chains[t] - {t} !! chains[u] - {u}
  }

  lemma NoClaims(chains: map<string, set<string>>, owners: map<string, string>)
    requires chains.Keys == owners.Keys
    ensures Claims(chains, owners, {}, map[]) && Together(chains, {}) == {}
  {
  }

  /** The union of the chains of `targets`, each with its target. */
  ghost function Together(chains: map<string, set<string>>, targets: set<string>): set<string>
    requires targets <= chains.Keys
  {
    set t, x | t in targets && x in chains[t] + {t} :: x
  }

  lemma {:induction false} TogetherGrows(chains: map<string, set<string>>, targets: set<string>, t: string)
    requires targets <= chains.Keys && t in chains
    ensures Together(chains, targets + {t}) == Together(chains, targets) + chains[t] + {t}
  {
    forall x | x in Together(chains, targets) + chains[t] + {t} ensures x in Together(chains, targets + {t}) {
      if x in chains[t] + {t} {
        assert t in targets + {t};
      } else {
        var u :| u in targets && x in chains[u] + {u};
        assert u in targets + {t};
      }
    }
  }

  lemma {:induction false} ClaimConflict(chains: map<string, set<string>>, owners: map<string, string>,
                                         seen: set<string>,
                                         claimed: map<string, string>, t: string, x: string)
    requires chains.Keys == owners.Keys && seen <= owners.Keys && t in owners && Claims(chains, owners, seen, claimed)
    requires x in chains[t] - {t} && x in claimed && claimed[x] != owners[t]
    ensures !ChainsSeparate(chains, owners)
  {
    var u :| u in seen && claimed[x] == owners[u] && x in chains[u] - {u};
    assert x in (chains[t] - {t}) * (chains[u] - {u});
  }

  lemma {:induction false} ClaimsSeparate(chains: map<string, set<string>>, owners: map<string, string>,
                                          claimed: map<string, string>)
    requires chains.Keys == owners.Keys && Claims(chains, owners, owners.Keys, claimed)
    ensures ChainsSeparate(chains, owners)
  {
    forall t, u | t in owners && u in owners && owners[t] != owners[u]
      ensures chains[t] - {t} !! chains[u] - {u}
    {
      assert forall x | x in chains[t] - {t} :: claimed[x] == owners[t];
      assert forall x | x in chains[u] - {u} :: claimed[x] == owners[u];
    }
  }

  /** `claimed` gives every node downstream of the targets `seen` its branch, and nothing else. */
  ghost predicate Claims(chains: map<string, set<string>>, owners: map<string, string>, seen: set<string>,
                         claimed: map<string, string>)
    requires chains.Keys == owners.Keys && seen <= owners.Keys
  {
    && (forall x | x in claimed :: exists t | t in seen :: claimed[x] == owners[t] && x in chains[t] - {t})
    && (forall t | t in seen :: forall x | x in chains[t] - {t} :: x in claimed && claimed[x] == owners[t])
  }

  lemma {:induction false} ClaimsGrow(chains: map<string, set<string>>, owners: map<string, string>, seen: set<string>,
                                      claimed: map<string, string>, t: string)
    requires chains.Keys == owners.Keys && seen <= owners.Keys && t in owners
    requires Claims(chains, owners, seen, claimed)
    requires forall x | x in chains[t] - {t} && x in claimed :: claimed[x] == owners[t]
    ensures Claims(chains, owners, seen + {t}, claimed + map x | x in chains[t] - {t} :: owners[t])
  {
    var after := claimed + map x | x in chains[t] - {t} :: owners[t];
    forall x | x in after
      ensures exists u | u in seen + {t} :: after[x] == owners[u] && x in chains[u] - {u}
    {
      if x in chains[t] - {t} {
        assert after[x] == owners[t];
      } else {
        var u :| u in seen && claimed[x] == owners[u] && x in chains[u] - {u};
        assert after[x] == owners[u];
      }
    }
  }

  // ---------------------------------------------------------------- the region

  /** A route target that may be appended to a region. */
  predicate AppendValid(n: Node, durable: bool) {
    n.configured && (n.kind == Worker || (n.kind == Step && durable))
  }

  predicate EdgeFits(e: Edge, specs: map<string, BranchSpec>, durable: bool) {
    && e.from in specs
    && RouteTarget(specs[e.from], e.choice) == Some(e.target.id)
    && !e.prefixed
    && AppendValid(e.target, durable)
  }

  predicate HasRoute(edges: seq<Edge>, branch: string, route: string) {
    exists e | e in edges :: e.from == branch && e.choice == route
  }

  /** The edges that leave the region are the routes of its branches, each exactly once. */
  predicate EdgesIndexed(edges: seq<Edge>, region: set<string>, specs: map<string, BranchSpec>, durable: bool) {
    && (forall e | e in edges && e.from in region :: EdgeFits(e, specs, durable))
    && (forall i, j | 0 <= i < j < |edges| && edges[i].from in region && edges[i].from == edges[j].from ::
          edges[i].choice != edges[j].choice)
    && (forall b | b in specs ::
          HasRoute(edges, b, DEFAULT_ROUTE) && forall c | c in specs[b].cases :: HasRoute(edges, b, RouteName(c)))
  }

  /** The route targets of a region, by branch and target id. */
  function TargetIndex(edges: seq<Edge>, region: set<string>): map<(string, string), Node>
    decreases |edges|
  {
    if edges == [] then map[]
    else
      var e := edges[|edges| - 1];
      var before := TargetIndex(edges[..|edges| - 1], region);
      if e.from in region then before[(e.from, e.target.id) := e.target] else before
  }

  /** How many edges with this source and route are among `edges`. */
  function RouteCount(edges: seq<Edge>, branch: string, route: string): nat
    decreases |edges|
  {
    if edges == [] then 0
    else
      RouteCount(edges[..|edges| - 1], branch, route)
      + if edges[|edges| - 1].from == branch && edges[|edges| - 1].choice == route then 1 else 0
  }

  lemma {:induction false} CountIsPositive(edges: seq<Edge>, branch: string, route: string)
    ensures RouteCount(edges, branch, route) > 0 <==> HasRoute(edges, branch, route)
    decreases |edges|
  {
    if edges != [] {
      CountIsPositive(edges[..|edges| - 1], branch, route);
      assert edges == edges[..|edges| - 1] + [edges[|edges| - 1]];
    }
  }

  lemma {:induction false} CountStep(edges: seq<Edge>, k: nat, branch: string, route: string)
    requires k < |edges|
    ensures RouteCount(edges[..k + 1], branch, route) ==
            RouteCount(edges[..k], branch, route) + if edges[k].from == branch && edges[k].choice == route then 1 else 0
  {
    assert edges[..k + 1][..k] == edges[..k];
  }

  /** The edges that leave the region fit, each route of a branch once. */
  predicate LeavingFits(edges: seq<Edge>, region: set<string>, specs: map<string, BranchSpec>, durable: bool) {
    && (forall e | e in edges && e.from in region :: EdgeFits(e, specs, durable))
    && (forall i, j | 0 <= i < j < |edges| && edges[i].from in region && edges[i].from == edges[j].from ::
          edges[i].choice != edges[j].choice)
  }

  lemma {:induction false} LeavingStep(edges: seq<Edge>, k: nat, region: set<string>, specs: map<string, BranchSpec>,
                                       durable: bool)
    requires k < |edges| && LeavingFits(edges[..k], region, specs, durable)
    ensures LeavingFits(edges[..k + 1], region, specs, durable) <==>
            (edges[k].from in region ==>
               EdgeFits(edges[k], specs, durable) && RouteCount(edges[..k], edges[k].from, edges[k].choice) == 0)
    ensures !LeavingFits(edges[..k + 1], region, specs, durable) ==> !LeavingFits(edges, region, specs, durable)
  {
    hide EdgeFits;
    var now, e := edges[..k + 1], edges[k];
    assert now == edges[..k] + [e];
    CountIsPositive(edges[..k], e.from, e.choice);
    if HasRoute(edges[..k], e.from, e.choice) {
      var f :| f in edges[..k] && f.from == e.from && f.choice == e.choice;
      var i :| 0 <= i < k && edges[i] == f;
      assert now[i] == f && now[k] == e;
    } else {
      assert forall i | 0 <= i < k && edges[i].from == e.from ::
          edges[..k][i] in edges[..k] && edges[i].choice != e.choice;
    }
  }

  lemma {:induction false} CountedAtMostOnce(edges: seq<Edge>, region: set<string>, specs: map<string, BranchSpec>,
                                             durable: bool,
                                             b: string, route: string)
    requires LeavingFits(edges, region, specs, durable) && b in region
    ensures RouteCount(edges, b, route) <= 1
    decreases |edges|
  {
    hide EdgeFits;
    if edges != [] {
      var front, last := edges[..|edges| - 1], edges[|edges| - 1];
      CountedAtMostOnce(front, region, specs, durable, b, route);
      CountIsPositive(front, b, route);
      if HasRoute(front, b, route) {
        var e :| e in front && e.from == b && e.choice == route;
        var i :| 0 <= i < |front| && front[i] == e;
        assert edges[i] == e;
      }
    }
  }

  lemma {:induction false} IndexStep(edges: seq<Edge>, k: nat, region: set<string>)
    requires k < |edges|
    ensures TargetIndex(edges[..k + 1], region) ==
            var before := TargetIndex(edges[..k], region);
            if edges[k].from in region then before[(edges[k].from, edges[k].target.id) := edges[k].target] else before
  {
    assert edges[..k + 1][..k] == edges[..k];
  }

  /** The table of how often each route of a branch was found. */
  ghost predicate Counts(edges: seq<Edge>, region: set<string>, found: map<(string, string), nat>) {
    forall b: string, route: string | b in region ::
      RouteCount(edges, b, route) == if (b, route) in found then found[(b, route)] else 0
  }

  lemma {:induction false} CountsStep(edges: seq<Edge>, k: nat, region: set<string>, found: map<(string, string), nat>)
    requires k < |edges| && Counts(edges[..k], region, found)
    ensures var e := edges[k];
            var n := if (e.from, e.choice) in found then found[(e.from, e.choice)] else 0;
            && (e.from in region ==> n == RouteCount(edges[..k], e.from, e.choice))
            && (e.from in region ==> Counts(edges[..k + 1], region, found[(e.from, e.choice) := n + 1]))
            && (e.from !in region ==> Counts(edges[..k + 1], region, found))
  {
    hide RouteCount;
    var e := edges[k];
    forall b: string, route: string | b in region
      ensures RouteCount(edges[..k + 1], b, route) ==
              RouteCount(edges[..k], b, route) + if e.from == b && e.choice == route then 1 else 0
    {
      CountStep(edges, k, b, route);
    }
  }

  datatype Index = Index(targets: map<(string, string), Node>, allowed: set<string>)

  /** Indexes the compiled routes of the branches, counting how often each one is found. */
  method IndexRoutes(edges: seq<Edge>, region: set<string>, ghost specs: map<string, BranchSpec>,
                     expected: map<string, map<string, string>>, durable: bool)
    returns (ok: bool, index: Index)
    requires Expected(specs, expected) && specs.Keys <= region
    ensures ok <==> EdgesIndexed(edges, region, specs, durable)
    ensures ok ==> index == Index(TargetIndex(edges, region), set e | e in edges && e.from in region :: e.id)
  {
    hide RoutesOf, TargetIndex, LeavingFits, Counts, AppendValid, RouteCount, RouteTarget;
    var targets: map<(string, string), Node> := map[];
    var allowed: set<string> := {};
    var found: map<(string, string), nat> := map[];
    index := Index(targets, allowed);
    NothingIndexed(edges, region, specs, durable);
    for k := 0 to |edges|
      invariant LeavingFits(edges[..k], region, specs, durable) && Counts(edges[..k], region, found)
      invariant targets == TargetIndex(edges[..k], region)
      invariant allowed == set e | e in edges[..k] && e.from in region :: e.id
    {
      var e := edges[k];
      LeavingStep(edges, k, region, specs, durable);
      IndexedFits(edges, region, specs, durable);
      IndexStep(edges, k, region);
      CountsStep(edges, k, region, found);
      assert edges[..k + 1] == edges[..k] + [e];
      if e.from in region {
        ExpectedRoute(specs, expected, e);
        if e.from !in expected || e.choice !in expected[e.from] || expected[e.from][e.choice] != e.target.id
           || e.prefixed {
          return false, index;
        }
        var n := if (e.from, e.choice) in found then found[(e.from, e.choice)] else 0;
        found := found[(e.from, e.choice) := n + 1];
        if found[(e.from, e.choice)] != 1 {
          return false, index;
        }
        if !AppendValid(e.target, durable) {
          return false, index;
        }
        targets := targets[(e.from, e.target.id) := e.target];
        allowed := allowed + {e.id};
      }
    }
    assert edges[..|edges|] == edges;
    forall b: string, route: string | b in region ensures RouteCount(edges, b, route) <= 1 {
      CountedAtMostOnce(edges, region, specs, durable, b, route);
    }
    var complete := AllRoutesFound(edges, region, specs, expected, found);
    IndexedFits(edges, region, specs, durable);
    return complete, Index(targets, allowed);
  }

  lemma NothingIndexed(edges: seq<Edge>, region: set<string>, specs: map<string, BranchSpec>, durable: bool)
    ensures LeavingFits(edges[..0], region, specs, durable) && Counts(edges[..0], region, map[])
    ensures TargetIndex(edges[..0], region) == map[]
  {
  }

  /** Every route of every branch is among the edges. */
  predicate AllRoutes(edges: seq<Edge>, specs: map<string, BranchSpec>) {
    forall b | b in specs ::
      HasRoute(edges, b, DEFAULT_ROUTE) && forall c | c in specs[b].cases :: HasRoute(edges, b, RouteName(c))
  }

  lemma {:induction false} IndexedFits(edges: seq<Edge>, region: set<string>, specs: map<string, BranchSpec>,
                                       durable: bool)
    ensures EdgesIndexed(edges, region, specs, durable) <==>
            LeavingFits(edges, region, specs, durable) && AllRoutes(edges, specs)
  {
    hide EdgeFits, HasRoute, RouteName;
  }

  lemma {:induction false} ExpectedRoute(specs: map<string, BranchSpec>, expected: map<string, map<string, string>>,
                                         e: Edge)
    requires Expected(specs, expected)
    ensures e.from in expected && e.choice in expected[e.from] && expected[e.from][e.choice] == e.target.id <==>
            e.from in specs && RouteTarget(specs[e.from], e.choice) == Some(e.target.id)
  {
    hide RouteTarget;
  }

  /** Looks every expected route up in the table, in any order. */
  method AllRoutesFound(ghost edges: seq<Edge>, ghost region: set<string>, ghost specs: map<string, BranchSpec>,
                        expected: map<string, map<string, string>>, found: map<(string, string), nat>)
    returns (ok: bool)
    requires Expected(specs, expected) && specs.Keys <= region && Counts(edges, region, found)
    requires forall b: string, route: string | b in region :: RouteCount(edges, b, route) <= 1
    ensures ok <==> AllRoutes(edges, specs)
  {
    hide RoutesOf, Counts, RouteCount, HasRoute;
    var todo := set b, route | b in expected && route in expected[b] :: (b, route);
    ghost var all := todo;
    while todo != {}
      invariant todo <= all
      invariant forall b, route | (b, route) in all - todo :: HasRoute(edges, b, route)
      decreases todo
    {
      var p :| p in todo;
      CountIsPositive(edges, p.0, p.1);
      CountedOnce(edges, region, found, p.0, p.1);
      if p !in found || found[p] != 1 {
        RouteMissing(edges, specs, expected, p.0, p.1);
        return false;
      }
      todo := todo - {p};
    }
    forall b, route | b in expected && route in expected[b] ensures HasRoute(edges, b, route) {
      assert (b, route) in all - todo;
    }
    RoutesComplete(edges, specs, expected);
    return true;
  }

  lemma {:induction false} CountedOnce(edges: seq<Edge>, region: set<string>, found: map<(string, string), nat>,
                                       b: string, route: string)
    requires Counts(edges, region, found) && b in region && RouteCount(edges, b, route) <= 1
    ensures (b, route) in found && found[(b, route)] == 1 <==> RouteCount(edges, b, route) > 0
  {
    hide RouteCount;
  }

  lemma {:induction false} RouteMissing(edges: seq<Edge>, specs: map<string, BranchSpec>, expected: map<string,
                                        map<string, string>>,
                                        b: string, route: string)
    requires Expected(specs, expected) && b in expected && route in expected[b] && !HasRoute(edges, b, route)
    ensures !AllRoutes(edges, specs)
  {
    hide HasRoute, RouteName, RouteTarget;
    assert RoutesOf(specs[b], expected[b]);
    NamedRoute(specs[b], route);
  }

  /** A route that a branch has is its default or the name of a case. */
  lemma {:induction false} NamedRoute(spec: BranchSpec, route: string)
    requires RouteTarget(spec, route).Some?
    ensures route == DEFAULT_ROUTE || exists c | c in spec.cases :: RouteName(c) == route
  {
    hide RouteName;
    if route != DEFAULT_ROUTE && forall i | 0 <= i < |spec.cases| :: RouteName(spec.cases[i]) != route {
      CaseTargetNone(spec.cases, route);
    }
  }

  lemma {:induction false} RoutesComplete(edges: seq<Edge>, specs: map<string, BranchSpec>, expected: map<string,
                                          map<string, string>>)
    requires Expected(specs, expected)
    requires forall b, route | b in expected && route in expected[b] :: HasRoute(edges, b, route)
    ensures AllRoutes(edges, specs)
  {
    hide HasRoute, RouteName, CaseTarget;
    forall b | b in specs
      ensures HasRoute(edges, b, DEFAULT_ROUTE) && forall c | c in specs[b].cases :: HasRoute(edges, b, RouteName(c))
    {
      assert RoutesOf(specs[b], expected[b]);
      assert RouteTarget(specs[b], DEFAULT_ROUTE).Some?;
      forall c | c in specs[b].cases ensures RouteName(c) in expected[b] {
        CaseIsRoute(specs[b], c);
      }
    }
  }

  lemma {:induction false} CaseIsRoute(spec: BranchSpec, c: Case)
    requires c in spec.cases
    ensures RouteTarget(spec, RouteName(c)).Some?
  {
    CaseIsFound(spec.cases, c);
  }

  lemma {:induction false} CaseIsFound(cases: seq<Case>, c: Case)
    requires c in cases
    ensures CaseTarget(cases, RouteName(c)).Some?
    decreases |cases|
  {
    hide RouteName;
    if RouteName(cases[0]) != RouteName(c) {
      assert c in cases[1..];
      CaseIsFound(cases[1..], c);
    }
  }

  /** A node that may run in a region: it depends only on `scope`, and its kind is supported. */
  predicate NodeValid(n: Node, scope: set<string>, durable: bool) {
    && (forall d | d in n.deps :: d in scope)
    && n.configured
    && match n.kind
       case Branch => n.branch.Some?
       case Step => durable
       case Worker => true
       case Unsupported => false
  }

  /** No edge other than an allowed one touches the region or a route. */
  predicate EdgesValid(edges: seq<Edge>, allowed: set<string>, inside: set<string>) {
    forall e | e in edges && e.id !in allowed :: e.from !in inside && e.target.id !in inside
  }

  datatype Region = Region(base: set<string>, targets: map<(string, string), Node>,
                           downstream: map<string, seq<Node>>, skipped: map<string, set<string>>)

  /** The ids that a chosen route may depend on. */
  function RouteScope(r: Region, t: string): set<string>
    requires t in r.downstream && t in r.skipped
  {
    r.base + {t} + Ids(r.downstream[t]) + r.skipped[t]
  }

  predicate ScopesValid(nodes: seq<Node>, r: Region, durable: bool) {
    && r.downstream.Keys == r.skipped.Keys
    && (forall n | n in nodes && n.id in r.base :: NodeValid(n, r.base, durable))
    && (forall t | t in r.downstream :: forall n | n in r.downstream[t] :: NodeValid(n, RouteScope(r, t), durable))
  }

  /** What the planner returns: reachable nodes minus routes, and each route with its siblings' nodes to skip. */
  ghost function Planned(c: Compiled, entry: string, owners: map<string, string>): Region {
    var reach := Closure(c.nodes, {entry});
    Region(reach - OnRoutes(c.nodes, owners),
           TargetIndex(c.edges, reach),
           map t | t in owners :: Members(c.nodes, Route(c.nodes, t) - {t}),
           map t | t in owners :: SkippedBy(c.nodes, owners, t))
  }

  /** When the planner accepts a trigger, said without any order of iteration. */
  ghost predicate Accepted(c: Compiled, trigger: Trigger, owners: map<string, string>) {
    var reach := Closure(c.nodes, {trigger.entry});
    var specs := SpecsIn(c.nodes, reach);
    var r := Planned(c, trigger.entry, owners);
    && trigger.entry in Ids(c.nodes)
    && RoutesValid(specs, reach)
    && OwnersMatch(specs, owners)
    && EdgesIndexed(c.edges, reach, specs, trigger.durable)
    && RoutesSeparate(c.nodes, owners)
    && ScopesValid(c.nodes, r, trigger.durable)
    && EdgesValid(c.edges, set e | e in c.edges && e.from in reach :: e.id, r.base + OnRoutes(c.nodes, owners))
  }

  /** Checks nodes one after the other against a scope. */
  method ValidateNodes(nodes: seq<Node>, scope: set<string>, durable: bool) returns (ok: bool)
    ensures ok <==> forall n | n in nodes :: NodeValid(n, scope, durable)
  {
    hide NodeValid;
    for i := 0 to |nodes|
      invariant forall k | 0 <= k < i :: NodeValid(nodes[k], scope, durable)
    {
      if !NodeValid(nodes[i], scope, durable) {
        return false;
      }
    }
    return true;
  }

  /** Checks the base region and then every route, in any order, each against its own scope. */
  method ValidateScopes(nodes: seq<Node>, r: Region, durable: bool) returns (ok: bool)
    requires r.downstream.Keys == r.skipped.Keys
    ensures ok <==> ScopesValid(nodes, r, durable)
  {
    hide NodeValid, RouteScope, Members;
    var base := Members(nodes, r.base);
    forall n ensures n in base <==> n in nodes && n.id in r.base {
      MembersExact(nodes, r.base, n);
    }
    ok := ValidateNodes(base, r.base, durable);
    if !ok {
      return;
    }
    var todo := r.downstream.Keys;
    while todo != {}
      invariant todo <= r.downstream.Keys
      invariant forall t | t in r.downstream.Keys - todo ::
                  forall n | n in r.downstream[t] :: NodeValid(n, RouteScope(r, t), durable)
      decreases todo
    {
      var t :| t in todo;
      ok := ValidateNodes(r.downstream[t], RouteScope(r, t), durable);
      if !ok {
        return;
      }
      todo := todo - {t};
    }
    return true;
  }

  /** Checks that no other edge touches the region or a route. */
  method ValidateEdges(edges: seq<Edge>, allowed: set<string>, region: set<string>, dynamic: set<string>)
    returns (ok: bool)
    ensures ok <==> EdgesValid(edges, allowed, region + dynamic)
  {
    for i := 0 to |edges|
      invariant forall k | 0 <= k < i && edges[k].id !in allowed ::
                  edges[k].from !in region + dynamic && edges[k].target.id !in region + dynamic
    {
      var e := edges[i];
      var touches := e.from in region || e.target.id in region || e.from in dynamic || e.target.id in dynamic;
      if e.id !in allowed && touches {
        return false;
      }
    }
    return true;
  }

  /** The nodes of sibling routes that a route skips, collected sibling by sibling in any order. */
  method CollectSkipped(nodes: seq<Node>, owners: map<string, string>, chains: map<string, set<string>>, t: string)
    returns (skipped: set<string>)
    requires t in owners && chains == map u | u in owners :: Route(nodes, u)
    ensures skipped == SkippedBy(nodes, owners, t)
  {
    hide Route;
    skipped := {};
    var todo := owners.Keys - {t};
    while todo != {}
      invariant todo <= owners.Keys - {t}
      invariant skipped == set n, u | u in owners && n in nodes && u !in todo && owners[u] == owners[t] && u != t
                                      && n.id in Route(nodes, u) && n.id !in Route(nodes, t) :: n.id
      decreases todo
    {
      var u :| u in todo;
      if owners[u] == owners[t] {
        skipped := skipped + set n | n in nodes && n.id in chains[u] && n.id !in chains[t] :: n.id;
      }
      todo := todo - {u};
    }
  }

  lemma {:induction false} SpecsInside(nodes: seq<Node>, ids: set<string>)
    ensures SpecsIn(nodes, ids).Keys <= ids
  {
    hide Find;
  }

  /** Builds the region of a trigger; neither success nor result depends on an order of iteration. */
  method BuildRegion(c: Compiled, trigger: Trigger) returns (region: Option<Region>, ghost owners: map<string, string>)
    requires UniqueIds(c.nodes)
    ensures region.Some? ==> Accepted(c, trigger, owners) && region.value == Planned(c, trigger.entry, owners)
    ensures region.None? ==> forall o: map<string, string> :: !Accepted(c, trigger, o)
  {
    hide Closure, UniqueIds, EdgesIndexed, EdgesValid, ScopesValid, RoutesValid, OwnersMatch, RoutesSeparate, SpecsIn,
         SkippedBy, Members, TargetIndex, OnRoutes, Route;
    owners := map[];
    if !exists n | n in c.nodes :: n.id == trigger.entry {
      return None, owners;
    }
    var reach := Close(c.nodes, {trigger.entry});
    var specs := SpecsIn(c.nodes, reach);
    var ok, found, expected := CollectRoutes(specs, reach);
    if !ok {
      return None, owners;
    }
    var index;
    SpecsInside(c.nodes, reach);
    ok, index := IndexRoutes(c.edges, reach, specs, expected, trigger.durable);
    if !ok {
      return None, owners;
    }
    owners := found;
    forall o: map<string, string> | OwnersMatch(specs, o) ensures o == found {
      OwnersUnique(specs, o, found);
    }
    var routes;
    ok, routes := CollectChains(c.nodes, found);
    if !ok {
      return None, owners;
    }
    var skipped: map<string, set<string>> := map[];
    var todo := found.Keys;
    while todo != {}
      invariant todo <= found.Keys && skipped.Keys == found.Keys - todo
      invariant forall t | t in skipped :: skipped[t] == SkippedBy(c.nodes, found, t)
      decreases todo
    {
      var t :| t in todo;
      var s := CollectSkipped(c.nodes, found, routes.chains, t);
      skipped := skipped[t := s];
      todo := todo - {t};
    }
    var r := Region(reach - routes.dynamic, index.targets,
                    map t | t in found :: Members(c.nodes, routes.chains[t] - {t}), skipped);
    assert r == Planned(c, trigger.entry, found);
    ok := ValidateScopes(c.nodes, r, trigger.durable);
    if !ok {
      return None, owners;
    }
    ok := ValidateEdges(c.edges, index.allowed, r.base, routes.dynamic);
    if !ok {
      return None, owners;
    }
    return Some(r), owners;
  }
}
