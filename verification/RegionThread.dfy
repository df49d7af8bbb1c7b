/**
 What the nodes of a region hand to each other: the session state, their outputs
 and the routes that branches chose.

 What a node computes is a parameter: a function of the node, the session state
 and the outputs so far that may fail. A cancelled context is such a failure.
 */
module RegionThread {
  import opened SessionTypes
  import opened RegionPlanner
  import opened RegionRun

  datatype Json = Object(text: State) | Other(text: string)

  type Values = map<string, Json>

  datatype Behaviour = Behaviour(
    run: (Node, State, map<string, Values>) -> Option<Values>,
    matches: (Case, Values) -> bool,
    accepts: (Node, Values) -> bool,
    published: Node -> set<string>,
    encode: (string, Values) -> string,
    latestBytes: (string, Values) -> nat)

  datatype Failure =
    | NodeFailed(id: string)
    | ResultRefused(id: string)
    | BranchMissing(id: string)
    | SourceMissing(id: string)
    | TargetMissing(id: string)
    | UnsupportedKind(id: string)
    | AlreadyScheduled(id: string)
    | NoProgress
    | OutputTooLarge

  datatype Result<+T> = Ok(value: T) | Err(failure: Failure)

  const SESSION_STATE := "session_state"

  // ---------------------------------------------------------------- one node

  /** What one node left behind; `target` and `route` are those of a branch. */
  datatype Ran = Ran(values: Values, state: Option<State>, target: Option<string>, route: string)

  /** What nodes hand to each other. */
  datatype Thread = Thread(state: State, outputs: map<string, Values>, routes: map<string, string>)

  datatype Choice = Choice(route: string, target: string)

  /** The route of a branch: its first matching case, or the default. */
  function Choose(b: Behaviour, cases: seq<Case>, defaultTo: string, values: Values): Choice
    decreases |cases|
  {
    if cases == [] then Choice(DEFAULT_ROUTE, defaultTo)
    else if b.matches(cases[0], values) then Choice(cases[0].name, cases[0].to)
    else Choose(b, cases[1..], defaultTo, values)
  }

  /** A branch takes the first case that matches, and the default only when none does. */
  lemma {:induction false} ChooseFirst(b: Behaviour, spec: BranchSpec, values: Values)
    ensures var c := Choose(b, spec.cases, spec.defaultTo, values);
            && c.target in Targets(spec)
            && (if exists k :: 0 <= k < |spec.cases| && b.matches(spec.cases[k], values) then
                  exists k :: && 0 <= k < |spec.cases| && b.matches(spec.cases[k], values)
                              && (forall j | 0 <= j < k :: !b.matches(spec.cases[j], values))
                              && c == Choice(spec.cases[k].name, spec.cases[k].to)
                else c == Choice(DEFAULT_ROUTE, spec.defaultTo))
    decreases |spec.cases|
  {
    if spec.cases != [] && !b.matches(spec.cases[0], values) {
      var rest := spec.(cases := spec.cases[1..]);
      ChooseFirst(b, rest, values);
      var c := Choose(b, rest.cases, spec.defaultTo, values);
      assert Targets(rest) <= Targets(spec);
      if k :| 0 <= k < |spec.cases| && b.matches(spec.cases[k], values) {
        assert rest.cases[k - 1] == spec.cases[k];
        var m :| && 0 <= m < |rest.cases| && b.matches(rest.cases[m], values)
                 && (forall j | 0 <= j < m :: !b.matches(rest.cases[j], values))
                 && c == Choice(rest.cases[m].name, rest.cases[m].to);
        FirstShifts(b, spec.cases, values, m);
        assert spec.cases[m + 1] == rest.cases[m];
      }
    }
  }

  lemma {:induction false} FirstShifts(b: Behaviour, cases: seq<Case>, values: Values, m: nat)
    requires m < |cases| - 1 && !b.matches(cases[0], values)
    requires forall j | 0 <= j < m :: !b.matches(cases[1..][j], values)
    ensures forall j | 0 <= j < m + 1 :: !b.matches(cases[j], values)
  {
    forall j | 0 <= j < m + 1 ensures !b.matches(cases[j], values) {
      assert j > 0 ==> cases[j] == cases[1..][j - 1];
    }
  }

  /** A node's result must fit its declared outputs, and a session state must be an object. */
  function Validated(b: Behaviour, n: Node, values: Values, target: Option<string>, route: string): Result<Ran> {
    if !b.accepts(n, values) then Err(ResultRefused(n.id))
    else if SESSION_STATE !in values then Ok(Ran(values, None, target, route))
    else if values[SESSION_STATE].Object? then Ok(Ran(values, Some(values[SESSION_STATE].text), target, route))
    else Err(ResultRefused(n.id))
  }

  /** Running one node on what the nodes before it left. */
  function RunNode(b: Behaviour, r: Region, th: Thread, n: Node): (res: Result<Ran>)
    ensures res.Ok? && res.value.target.Some? ==> (n.id, res.value.target.value) in r.targets
  {
    match n.kind
    case Branch =>
      if n.branch.None? then Err(BranchMissing(n.id))
      else if n.branch.value.source !in th.outputs then Err(SourceMissing(n.id))
      else
        var c := Choose(b, n.branch.value.cases, n.branch.value.defaultTo, th.outputs[n.branch.value.source]);
        if (n.id, c.target) !in r.targets then Err(TargetMissing(n.id))
        else Validated(b, n, map["choice" := Other(c.route)], Some(c.target), c.route)
    case Unsupported => Err(UnsupportedKind(n.id))
    case _ =>
      var values := b.run(n, th.state, th.outputs);
      if values.None? then Err(NodeFailed(n.id)) else Validated(b, n, values.value, None, "")
  }

  /** The route that a branch picks, if it has its configuration, its source's outputs and the target. */
  function Picked(b: Behaviour, r: Region, th: Thread, n: Node): Option<Choice> {
    if n.kind != Branch || n.branch.None? || n.branch.value.source !in th.outputs then None
    else
      var c := Choose(b, n.branch.value.cases, n.branch.value.defaultTo, th.outputs[n.branch.value.source]);
      if (n.id, c.target) in r.targets then Some(c) else None
  }

  /** The routes on record after a node was tried: a branch records its route before its result is checked. */
  function RoutesAfter(b: Behaviour, r: Region, th: Thread, n: Node): map<string, string> {
    var c := Picked(b, r, th, n);
    if c.Some? then th.routes[n.id := c.value.route] else th.routes
  }

  function After(th: Thread, n: Node, ran: Ran): Thread {
    Thread(if ran.state.Some? then ran.state.value else th.state,
           th.outputs[n.id := ran.values],
           if ran.target.Some? then th.routes[n.id := ran.route] else th.routes)
  }

  /** Running the nodes of `trace` one after the other, each on what the ones before it left. */
  ghost function Threaded(b: Behaviour, r: Region, start: State, trace: seq<Node>): Option<Thread>
    decreases |trace|
  {
    if trace == [] then Some(Thread(start, map[], map[]))
    else
      var before := Threaded(b, r, start, trace[..|trace| - 1]);
      if before.None? then None
      else
        var ran := RunNode(b, r, before.value, trace[|trace| - 1]);
        if ran.Err? then None else Some(After(before.value, trace[|trace| - 1], ran.value))
  }

  predicate DistinctIds(trace: seq<Node>) {
    forall i, j | 0 <= i < j < |trace| :: trace[i].id != trace[j].id
  }

  /** A node writes the session state exactly when its outputs contain one. */
  lemma {:induction false} StateInOutputs(b: Behaviour, r: Region, th: Thread, n: Node)
    requires RunNode(b, r, th, n).Ok?
    ensures var ran := RunNode(b, r, th, n).value;
            if SESSION_STATE in ran.values then ran.state.Some? && ran.values[SESSION_STATE] == Object(ran.state.value)
            else ran.state.None?
  {
    hide Choose;
  }

  /** The session state after a run is the one that the last node to output one has output. */
  lemma {:induction false} StateIsLastWritten(b: Behaviour, r: Region, start: State, trace: seq<Node>)
    requires Threaded(b, r, start, trace).Some? && DistinctIds(trace)
    ensures var th := Threaded(b, r, start, trace).value;
            && (forall i | 0 <= i < |trace| :: trace[i].id in th.outputs)
            && (forall i | 0 <= i < |trace| && SESSION_STATE in th.outputs[trace[i].id]
                           && (forall j | i < j < |trace| :: SESSION_STATE !in th.outputs[trace[j].id]) ::
                  th.outputs[trace[i].id][SESSION_STATE] == Object(th.state))
            && ((forall i | 0 <= i < |trace| :: SESSION_STATE !in th.outputs[trace[i].id]) ==> th.state == start)
    decreases |trace|
  {
    hide RunNode;
    if trace != [] {
      var front := trace[..|trace| - 1];
      var last := trace[|trace| - 1];
      StateIsLastWritten(b, r, start, front);
      var before := Threaded(b, r, start, front).value;
      StateInOutputs(b, r, before, last);
      var th := Threaded(b, r, start, trace).value;
      assert forall i | 0 <= i < |front| ::
          trace[i] == front[i] && th.outputs[trace[i].id] == before.outputs[front[i].id];
    }
  }

  // ---------------------------------------------------------------- what each node was given

  /** What the first `i` nodes of a trace put out. */
  function OutputsBefore(trace: seq<Node>, outputs: map<string, Values>, i: nat): map<string, Values>
    requires i <= |trace|
  {
    map id | id in outputs && exists j :: 0 <= j < i && trace[j].id == id :: outputs[id]
  }

  /** The session state after the first `i` nodes of a trace: the one last put out, or the one given. */
  function StateBefore(start: State, trace: seq<Node>, outputs: map<string, Values>, i: nat): State
    requires i <= |trace|
    decreases i
  {
    if i == 0 then start
    else
      var id := trace[i - 1].id;
      if id in outputs && "session_state" in outputs[id] && outputs[id]["session_state"].Object?
      then outputs[id]["session_state"].text
      else StateBefore(start, trace, outputs, i - 1)
  }

  /** A result that may be kept: the node accepts it, and a session state in it is an object. */
  predicate Keepable(b: Behaviour, n: Node, values: Values) {
    b.accepts(n, values) && ("session_state" in values ==> values["session_state"].Object?)
  }

  /**
   Node `i` of a trace ran on the state and the outputs that the nodes before it left, and what it
   put out is what its behaviour returned on them; a branch put out the route it chose.
   */
  predicate Worked(b: Behaviour, start: State, trace: seq<Node>, th: Thread, i: nat)
    requires i < |trace|
  {
    var n := trace[i];
    && n.id in th.outputs && Keepable(b, n, th.outputs[n.id])
    && if n.kind == Branch then
         && n.id in th.routes && th.outputs[n.id] == map["choice" := Other(th.routes[n.id])]
         && PicksRoute(b, OutputsBefore(trace, th.outputs, i), n, th.routes[n.id])
       else
         b.run(n, StateBefore(start, trace, th.outputs, i), OutputsBefore(trace, th.outputs, i))
         == Some(th.outputs[n.id])
  }

  /** On these outputs a branch picks that route. */
  predicate PicksRoute(b: Behaviour, outputs: map<string, Values>, n: Node, route: string) {
    && n.branch.Some? && n.branch.value.source in outputs
    && Choose(b, n.branch.value.cases, n.branch.value.defaultTo, outputs[n.branch.value.source]).route == route
  }

  /** A node that failed: it returned nothing, or nothing that may be kept. */
  predicate FailsOn(b: Behaviour, state: State, outputs: map<string, Values>, n: Node, failure: Failure) {
    if n.kind == Branch then
      && failure == ResultRefused(n.id)
      && n.branch.Some? && n.branch.value.source in outputs
      && var c := Choose(b, n.branch.value.cases, n.branch.value.defaultTo, outputs[n.branch.value.source]);
         !Keepable(b, n, map["choice" := Other(c.route)])
    else
      match b.run(n, state, outputs)
      case None => failure == NodeFailed(n.id)
      case Some(values) => failure == ResultRefused(n.id) && !Keepable(b, n, values)
  }

  /** Every node of a trace worked, and together they left this thread. */
  predicate AllWorked(b: Behaviour, start: State, trace: seq<Node>, th: Thread) {
    && (forall i | 0 <= i < |trace| :: Worked(b, start, trace, th, i))
    && th.state == StateBefore(start, trace, th.outputs, |trace|)
    && th.outputs == OutputsBefore(trace, th.outputs, |trace|)
  }

  lemma {:induction false} StateBeforeStays(start: State, trace: seq<Node>, outputs: map<string, Values>,
                                            trace': seq<Node>,
                                            outputs': map<string, Values>, i: nat)
    requires i <= |trace| && trace <= trace'
    requires forall j | 0 <= j < i :: trace[j].id in outputs && trace[j].id in outputs'
    requires forall j | 0 <= j < i :: outputs[trace[j].id] == outputs'[trace[j].id]
    ensures StateBefore(start, trace, outputs, i) == StateBefore(start, trace', outputs', i)
    decreases i
  {
    if i > 0 {
      StateBeforeStays(start, trace, outputs, trace', outputs', i - 1);
    }
  }

  lemma {:induction false} OutputsBeforeStay(trace: seq<Node>, outputs: map<string, Values>, n: Node, values: Values,
                                             i: nat)
    requires i <= |trace| && DistinctIds(trace + [n])
    ensures OutputsBefore(trace, outputs, i) == OutputsBefore(trace + [n], outputs[n.id := values], i)
  {
    var longer := trace + [n];
    assert longer[|trace|] == n && forall j | 0 <= j < |trace| :: longer[j] == trace[j] && trace[j].id != n.id;
  }

  lemma {:induction false} WorkedStays(b: Behaviour, start: State, trace: seq<Node>, th: Thread, n: Node, ran: Ran,
                                       i: nat)
    requires i < |trace| && DistinctIds(trace + [n])
    requires forall j | 0 <= j < |trace| :: Worked(b, start, trace, th, j)
    ensures Worked(b, start, trace + [n], After(th, n, ran), i)
  {
    hide Choose, Keepable, OutputsBefore, StateBefore;
    var longer, th' := trace + [n], After(th, n, ran);
    assert longer[|trace|] == n;
    assert forall j | 0 <= j < |trace| :: longer[j] == trace[j] && trace[j].id != n.id;
    assert forall j | 0 <= j < |trace| :: Worked(b, start, trace, th, j) ==> trace[j].id in th.outputs;
    OutputsBeforeStay(trace, th.outputs, n, ran.values, i);
    StateBeforeStays(start, trace, th.outputs, longer, th'.outputs, i);
  }

  /** What running a node comes to, said by its behaviour. */
  lemma {:induction false} RunNodeMeans(b: Behaviour, r: Region, th: Thread, n: Node)
    ensures var res := RunNode(b, r, th, n);
            && (res.Ok? ==>
                  && Keepable(b, n, res.value.values)
                  && if n.kind == Branch then
                       && res.value.target.Some? && res.value.values == map["choice" := Other(res.value.route)]
                       && PicksRoute(b, th.outputs, n, res.value.route)
                     else res.value.target.None? && b.run(n, th.state, th.outputs) == Some(res.value.values))
            && (res.Err? && (res.failure.NodeFailed? || res.failure.ResultRefused?) ==>
                  FailsOn(b, th.state, th.outputs, n, res.failure))
  {
    hide Choose;
  }

  lemma {:induction false} LastWorked(b: Behaviour, r: Region, start: State, trace: seq<Node>, th: Thread, n: Node)
    requires AllWorked(b, start, trace, th) && RunNode(b, r, th, n).Ok? && DistinctIds(trace + [n])
    ensures AllWorked(b, start, trace + [n], After(th, n, RunNode(b, r, th, n).value))
  {
    hide RunNode, Keepable, PicksRoute, Worked, OutputsBefore, StateBefore;
    var ran := RunNode(b, r, th, n).value;
    var longer, th' := trace + [n], After(th, n, ran);
    forall i | 0 <= i < |trace| ensures Worked(b, start, longer, th', i) {
      WorkedStays(b, start, trace, th, n, ran, i);
    }
    LastNodeWorked(b, r, start, trace, th, n);
  }

  lemma {:induction false} LastNodeWorked(b: Behaviour, r: Region, start: State, trace: seq<Node>, th: Thread, n: Node)
    requires AllWorked(b, start, trace, th) && RunNode(b, r, th, n).Ok? && DistinctIds(trace + [n])
    ensures var th' := After(th, n, RunNode(b, r, th, n).value);
            && Worked(b, start, trace + [n], th', |trace|)
            && th'.state == StateBefore(start, trace + [n], th'.outputs, |trace| + 1)
            && th'.outputs == OutputsBefore(trace + [n], th'.outputs, |trace| + 1)
  {
    hide RunNode, PicksRoute, Worked, OutputsBefore, StateBefore;
    var ran := RunNode(b, r, th, n).value;
    var longer, th' := trace + [n], After(th, n, ran);
    RunNodeMeans(b, r, th, n);
    TraceIsKnown(b, start, trace, th);
    assert longer[|trace|] == n && forall j | 0 <= j < |trace| :: longer[j] == trace[j] && trace[j].id != n.id;
    StateBeforeStays(start, trace, th.outputs, longer, th'.outputs, |trace|);
    OutputsBeforeStay(trace, th.outputs, n, ran.values, |trace|);
    OutputsGrow(trace, th.outputs, n, ran.values);
    StateInOutputs(b, r, th, n);
    StateGrows(start, trace, th'.outputs, n);
    WorkedNow(b, start, longer, th', |trace|);
  }

  lemma {:induction false} WorkedNow(b: Behaviour, start: State, trace: seq<Node>, th: Thread, i: nat)
    requires i < |trace| && trace[i].id in th.outputs && Keepable(b, trace[i], th.outputs[trace[i].id])
    requires trace[i].kind == Branch ==>
               && trace[i].id in th.routes && th.outputs[trace[i].id] == map["choice" := Other(th.routes[trace[i].id])]
               && PicksRoute(b, OutputsBefore(trace, th.outputs, i), trace[i], th.routes[trace[i].id])
    requires trace[i].kind != Branch ==>
               b.run(trace[i], StateBefore(start, trace, th.outputs, i), OutputsBefore(trace, th.outputs, i))
               == Some(th.outputs[trace[i].id])
    ensures Worked(b, start, trace, th, i)
  {
    hide Keepable, PicksRoute, OutputsBefore, StateBefore;
  }

  lemma {:induction false} StateGrows(start: State, trace: seq<Node>, outputs: map<string, Values>, n: Node)
    requires n.id in outputs && (SESSION_STATE in outputs[n.id] ==> outputs[n.id][SESSION_STATE].Object?)
    ensures StateBefore(start, trace + [n], outputs, |trace| + 1) ==
            if SESSION_STATE in outputs[n.id] then outputs[n.id][SESSION_STATE].text
            else StateBefore(start, trace + [n], outputs, |trace|)
  {
    assert (trace + [n])[|trace|] == n;
  }

  lemma {:induction false} OutputsGrow(trace: seq<Node>, outputs: map<string, Values>, n: Node, values: Values)
    requires outputs == OutputsBefore(trace, outputs, |trace|)
    ensures OutputsBefore(trace + [n], outputs[n.id := values], |trace| + 1) == outputs[n.id := values]
  {
    var longer, after := trace + [n], outputs[n.id := values];
    forall id | id in after ensures exists j :: 0 <= j < |trace| + 1 && longer[j].id == id {
      if id == n.id {
        assert longer[|trace|].id == id;
      } else {
        assert id in OutputsBefore(trace, outputs, |trace|);
        var j :| 0 <= j < |trace| && trace[j].id == id;
        assert longer[j].id == id;
      }
    }
  }

  lemma {:induction false} TraceIsKnown(b: Behaviour, start: State, trace: seq<Node>, th: Thread)
    requires forall j | 0 <= j < |trace| :: Worked(b, start, trace, th, j)
    ensures forall j | 0 <= j < |trace| :: trace[j].id in th.outputs
  {
    hide Keepable, PicksRoute, OutputsBefore, StateBefore;
    assert forall j | 0 <= j < |trace| :: Worked(b, start, trace, th, j) ==> trace[j].id in th.outputs;
  }

  /** In a sequential run every node works on exactly what the nodes before it left. */
  lemma {:induction false} EachWorked(b: Behaviour, r: Region, start: State, trace: seq<Node>)
    requires Threaded(b, r, start, trace).Some? && DistinctIds(trace)
    ensures AllWorked(b, start, trace, Threaded(b, r, start, trace).value)
    decreases |trace|
  {
    hide RunNode, AllWorked, DistinctIds, After;
    if trace == [] {
      NothingWorked(b, start);
    } else {
      var front := trace[..|trace| - 1];
      assert trace == front + [trace[|trace| - 1]];
      assert DistinctIds(front) by { DistinctFront(trace); }
      EachWorked(b, r, start, front);
      LastWorked(b, r, start, front, Threaded(b, r, start, front).value, trace[|trace| - 1]);
    }
  }

  lemma NothingWorked(b: Behaviour, start: State)
    ensures AllWorked(b, start, [], Thread(start, map[], map[]))
  {
  }

  lemma DistinctFront(trace: seq<Node>)
    requires trace != [] && DistinctIds(trace)
    ensures DistinctIds(trace[..|trace| - 1])
  {
  }

  // ---------------------------------------------------------------- what a run keeps

  /** A branch took the route that the outputs of its source select. */
  ghost predicate ChoiceFits(b: Behaviour, chosen: map<string, string>, th: Thread, n: Node) {
    && n.branch.Some?
    && n.branch.value.source in th.outputs
    && n.id in th.routes && n.id in chosen
    && Choose(b, n.branch.value.cases, n.branch.value.defaultTo, th.outputs[n.branch.value.source])
       == Choice(th.routes[n.id], chosen[n.id])
  }

  /** `trace` lists the nodes that ran. */
  predicate TraceOf(rs: RunState, trace: seq<Node>) {
    && |trace| == |rs.nodeIds|
    && forall i | 0 <= i < |trace| :: trace[i].id == rs.nodeIds[i] && trace[i] in rs.execution
  }

  /** The thread of a run is that of its nodes in the order in which they ran. */
  ghost predicate ThreadInv(nodes: seq<Node>, r: Region, b: Behaviour, start: State, rs: RunState, trace: seq<Node>,
                            th: Thread) {
    && Threaded(b, r, start, trace) == Some(th)
    && TraceOf(rs, trace)
    && th.outputs.Keys == Elements(rs.nodeIds)
    && (forall n | n in BaseNodes(nodes, r) && n.kind == Branch && n.id in rs.nodeIds ::
          ChoiceFits(b, rs.chosen, th, n))
  }

  /** A node that waits and whose dependencies are done. */
  predicate Runnable(rs: RunState, n: Node) {
    n in rs.execution && n.id !in rs.done && Ready(rs, n)
  }

  /** The source of a branch that is ready has run. */
  lemma {:induction false} SourceRan(nodes: seq<Node>, r: Region, rank: string -> nat, rs: RunState, n: Node)
    requires Geometry(nodes, r, rank) && RunInv(nodes, r, rs) && Runnable(rs, n) && n.kind == Branch
    ensures BaseNodeOk(r, n, rank) && n.branch.value.source in Elements(rs.nodeIds)
  {
    hide RouteOk, Apart, UniqueIds, InOrder, NoRepeats, Elements, RoutesTaken, Origin, BaseNodes, ChoicesOk,
         RoutesSkipped;
    BranchIsBase(nodes, r, rank, rs, n);
    assert BaseNodeOk(r, n, rank);
    var d := n.branch.value.source;
    assert d in rs.done && d in r.base;
    BaseNotSkipped(nodes, r, rank, rs, d);
  }

  lemma {:induction false} BaseNotSkipped(nodes: seq<Node>, r: Region, rank: string -> nat, rs: RunState, d: string)
    requires Geometry(nodes, r, rank) && ChoicesOk(nodes, r, rs) && d in r.base
    ensures d !in RoutesSkipped(r, rs.chosen)
  {
    hide Geometry, ChoicesOk, RoutesTaken;
    if d in RoutesSkipped(r, rs.chosen) {
      SkippedNeverScheduled(nodes, r, rank, rs, d);
    }
  }

  lemma {:induction false} NotUnsupported(nodes: seq<Node>, r: Region, rank: string -> nat, rs: RunState, n: Node)
    requires Geometry(nodes, r, rank) && RunInv(nodes, r, rs) && n in rs.execution
    ensures n.kind != Unsupported
  {
    hide RouteOk, Apart, UniqueIds, InOrder, NoRepeats, Elements, RoutesTaken, BaseNodes, ChoicesOk, RoutesSkipped,
         FromRoute;
    assert Origin(nodes, r, rs.chosen, n);
    RouteNodes(nodes, r, rank, rs, n);
    assert n in BaseNodes(nodes, r) ==> BaseNodeOk(r, n, rank);
  }

  /** A node that is run in a region can only fail on its own account, and a branch finds its route. */
  lemma {:induction false} RunNodeSound(nodes: seq<Node>, r: Region, rank: string -> nat, b: Behaviour, rs: RunState,
                                        th: Thread, n: Node)
    requires Geometry(nodes, r, rank) && RunInv(nodes, r, rs) && Runnable(rs, n)
    requires th.outputs.Keys == Elements(rs.nodeIds)
    ensures var res := RunNode(b, r, th, n);
            if res.Ok? then AboutToRun(r, rs, n, res.value.target)
            else res.failure == NodeFailed(n.id) || res.failure == ResultRefused(n.id)
  {
    hide RunInv, Apart, UniqueIds, Elements, BaseNodes, Choose, Targets, RouteIds, SkippedIds, Ready;
    NotUnsupported(nodes, r, rank, rs, n);
    if n.kind == Branch {
      SourceRan(nodes, r, rank, rs, n);
      var spec := n.branch.value;
      var c := Choose(b, spec.cases, spec.defaultTo, th.outputs[spec.source]);
      ChooseFirst(b, spec, th.outputs[spec.source]);
      assert (n.id, c.target) in r.targets;
      assert RouteOk(r, (n.id, c.target).1, rank);
    }
  }

  lemma {:induction false} NotYetRan(nodes: seq<Node>, r: Region, rs: RunState, n: Node)
    requires RunInv(nodes, r, rs) && Runnable(rs, n)
    ensures n.id !in rs.nodeIds && n.id !in rs.chosen && n.id !in Elements(rs.nodeIds)
  {
    hide UniqueIds, InOrder, NoRepeats, RoutesTaken, BaseNodes, RoutesSkipped, Origin;
    assert n.id !in Elements(rs.nodeIds);
  }

  lemma {:induction false} ChoiceMade(nodes: seq<Node>, r: Region, rank: string -> nat, b: Behaviour, rs: RunState,
                                      th: Thread, n: Node)
    requires Geometry(nodes, r, rank) && RunInv(nodes, r, rs) && Runnable(rs, n)
    requires th.outputs.Keys == Elements(rs.nodeIds)
    requires RunNode(b, r, th, n).Ok? && n.kind == Branch
    ensures var ran := RunNode(b, r, th, n).value;
            ran.target.Some? && ChoiceFits(b, rs.chosen[n.id := ran.target.value], After(th, n, ran), n)
  {
    hide RunInv, Geometry, Elements, BaseNodes, Choose, Targets, Ready;
    SourceRan(nodes, r, rank, rs, n);
    NotYetRan(nodes, r, rs, n);
  }

  lemma {:induction false} ChoicesStay(nodes: seq<Node>, r: Region, rank: string -> nat, b: Behaviour, start: State,
                                       rs: RunState, trace: seq<Node>, th: Thread, n: Node)
    requires Geometry(nodes, r, rank) && RunInv(nodes, r, rs) && Runnable(rs, n)
    requires ThreadInv(nodes, r, b, start, rs, trace, th) && RunNode(b, r, th, n).Ok?
    requires AboutToRun(r, rs, n, RunNode(b, r, th, n).value.target)
    ensures var ran := RunNode(b, r, th, n).value;
            var rs' := Executed(r, rs, n, ran.target);
            forall m | m in BaseNodes(nodes, r) && m.kind == Branch && m.id in rs'.nodeIds ::
              ChoiceFits(b, rs'.chosen, After(th, n, ran), m)
  {
    hide Geometry, RunInv, BaseNodes, RouteIds, SkippedIds, Choose, RunNode, Ready, Threaded;
    var ran := RunNode(b, r, th, n).value;
    var rs' := Executed(r, rs, n, ran.target);
    NotYetRan(nodes, r, rs, n);
    forall m | m in BaseNodes(nodes, r) && m.kind == Branch && m.id in rs'.nodeIds
      ensures ChoiceFits(b, rs'.chosen, After(th, n, ran), m)
    {
      if m.id == n.id {
        BaseIdIsBase(nodes, r, rank, rs, n, m);
        ChoiceMade(nodes, r, rank, b, rs, th, n);
      } else {
        assert ChoiceFits(b, rs.chosen, th, m);
        assert n.id !in th.outputs;
      }
    }
  }

  lemma {:induction false} TraceGrows(r: Region, b: Behaviour, start: State, rs: RunState, trace: seq<Node>,
                                      th: Thread, n: Node)
    requires TraceOf(rs, trace) && Threaded(b, r, start, trace) == Some(th) && RunNode(b, r, th, n).Ok?
    requires th.outputs.Keys == Elements(rs.nodeIds) && AboutToRun(r, rs, n, RunNode(b, r, th, n).value.target)
    ensures var ran := RunNode(b, r, th, n).value;
            var rs' := Executed(r, rs, n, ran.target);
            && TraceOf(rs', trace + [n])
            && After(th, n, ran).outputs.Keys == Elements(rs'.nodeIds)
            && Threaded(b, r, start, trace + [n]) == Some(After(th, n, ran))
  {
    hide RunNode, RouteIds, SkippedIds, Ready;
    assert (trace + [n])[..|trace|] == trace;
  }

  /** One more node extends the thread of a run. */
  lemma {:induction false} ThreadStep(nodes: seq<Node>, r: Region, rank: string -> nat, b: Behaviour, start: State,
                                      rs: RunState, trace: seq<Node>, th: Thread, n: Node)
    requires Geometry(nodes, r, rank) && RunInv(nodes, r, rs) && Runnable(rs, n)
    requires ThreadInv(nodes, r, b, start, rs, trace, th) && RunNode(b, r, th, n).Ok?
    ensures var ran := RunNode(b, r, th, n).value;
            && AboutToRun(r, rs, n, ran.target)
            && ThreadInv(nodes, r, b, start, Executed(r, rs, n, ran.target), trace + [n], After(th, n, ran))
  {
    hide Geometry, RunInv, BaseNodes, Choose, RunNode, Runnable, TraceOf, Executed, Elements, ChoiceFits, After,
         AboutToRun,
         Threaded;
    RunNodeSound(nodes, r, rank, b, rs, th, n);
    var ran := RunNode(b, r, th, n).value;
    ChoicesStay(nodes, r, rank, b, start, rs, trace, th, n);
    TraceGrows(r, b, start, rs, trace, th, n);
  }

  // ---------------------------------------------------------------- progress

  /** Everything that could ever run. */
  ghost function Universe(r: Region): set<string> {
    r.base + set k, x | k in r.targets && x in RouteIds(r, k.1) :: x
  }

  /** No run executes more nodes than there are. */
  lemma {:induction false} RunsFit(nodes: seq<Node>, r: Region, rs: RunState)
    requires RunInv(nodes, r, rs)
    ensures |rs.nodeIds| <= |Universe(r)|
  {
    hide UniqueIds, InOrder, NoRepeats, BaseNodes, RoutesSkipped, Origin, Elements, Ids, RouteIds;
    ElementsSize(rs.nodeIds);
    forall x | x in RoutesTaken(r, rs.chosen) ensures x in Universe(r) {
      var c :| c in rs.chosen && x in RouteIds(r, rs.chosen[c]);
      assert x in RouteIds(r, (c, rs.chosen[c]).1);
    }
    SubsetSize(Elements(rs.nodeIds), Universe(r));
  }

  /** Nodes are left, and none of them can run. */
  predicate Stuck(rs: RunState) {
    |rs.nodeIds| < |rs.execution| && forall n | n in rs.execution :: !Runnable(rs, n)
  }

  lemma {:induction false} NeverStuck(nodes: seq<Node>, r: Region, rank: string -> nat, rs: RunState)
    requires Geometry(nodes, r, rank) && RunInv(nodes, r, rs)
    ensures !Stuck(rs)
  {
    hide Geometry, RunInv, Ready;
    if |rs.nodeIds| < |rs.execution| {
      var n := NoStall(nodes, r, rank, rs);
      assert Runnable(rs, n);
    }
  }
}
