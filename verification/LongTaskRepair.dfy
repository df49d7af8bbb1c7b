/**
 Repairs of a long task. A failed story gets a new node, and whatever referred to the
 failed attempt is made to refer to the new one.
 */
module LongTaskRepair {
  import opened SessionTypes
  import opened RepairNames
  import opened Text

  datatype NodeStatus = Pending | Running | Completed | Failed | Canceled

  datatype Node = Node(id: string, deps: seq<string>, handoff: seq<string>, status: NodeStatus, job: string)

  /** The most nodes that a workflow may have. */
  const MAX_NODES: nat := 64

  // ---------------------------------------------------------------- the latest attempt

  datatype Found = Found(attempt: nat, id: string)

  /** The latest attempt at a story; its base node is attempt 0. */
  function Latest(nodes: seq<Node>, story: string): Found
    decreases |nodes|
  {
    if nodes == [] then Found(0, story)
    else
      var before := Latest(nodes[..|nodes| - 1], story);
      var last := nodes[|nodes| - 1];
      var k := AttemptOf(story, last.id);
      if k.Some? && k.value > before.attempt then Found(k.value, last.id) else before
  }

  /** The latest attempt is the greatest one, and the base node only when there is none. */
  lemma {:induction false} LatestIsGreatest(nodes: seq<Node>, story: string)
    ensures forall n | n in nodes && AttemptOf(story, n.id).Some? ::
              AttemptOf(story, n.id).value <= Latest(nodes, story).attempt
    ensures var found := Latest(nodes, story);
            if found.attempt == 0 then found.id == story
            else exists n | n in nodes :: n.id == found.id && AttemptOf(story, n.id) == Some(found.attempt)
    decreases |nodes|
  {
    hide AttemptOf;
    if nodes != [] {
      LatestIsGreatest(nodes[..|nodes| - 1], story);
      assert nodes == nodes[..|nodes| - 1] + [nodes[|nodes| - 1]];
    }
  }

  /** Finds the node of the latest attempt at a story, if there is one, and the number of the attempt. */
  method LatestStoryNode(nodes: seq<Node>, story: string) returns (node: Option<Node>, attempt: nat)
    ensures attempt == Latest(nodes, story).attempt
    ensures node.Some? ==> node.value in nodes && node.value.id == Latest(nodes, story).id
    ensures node.None? ==> attempt == 0 && forall n | n in nodes :: n.id != story
  {
    hide AttemptOf;
    var base: Option<Node> := None;
    var latest: Option<Node> := None;
    attempt := 0;
    for i := 0 to |nodes|
      invariant attempt == Latest(nodes[..i], story).attempt
      invariant attempt > 0 ==> latest.Some? && latest.value in nodes && latest.value.id == Latest(nodes[..i], story).id
      invariant attempt == 0 ==> Latest(nodes[..i], story).id == story
      invariant base.Some? ==> base.value in nodes && base.value.id == story
      invariant base.None? ==> forall k | 0 <= k < i :: nodes[k].id != story
    {
      var n := nodes[i];
      assert nodes[..i + 1][..i] == nodes[..i] && nodes[..i + 1][i] == n;
      if n.id == story {
        NoAttemptAtItself(story);
        base := Some(n);
      } else {
        var k := AttemptOf(story, n.id);
        if k.Some? && k.value > attempt {
          attempt, latest := k.value, Some(n);
        }
      }
    }
    assert nodes[..|nodes|] == nodes;
    node := if attempt > 0 then latest else base;
  }

  lemma NoAttemptAtItself(story: string)
    ensures AttemptOf(story, story).None?
  {
  }

  // ---------------------------------------------------------------- rewiring

  function ReplaceAll(refs: seq<string>, from: string, to: string): (r: seq<string>)
    ensures |r| == |refs| && forall i | 0 <= i < |refs| :: r[i] == if refs[i] == from then to else refs[i]
  {
    seq(|refs|, i requires 0 <= i < |refs| => if refs[i] == from then to else refs[i])
  }

  /** Replaces a reference in place. */
  method ReplaceDep(refs: array<string>, from: string, to: string) returns (changed: bool)
    modifies refs
    ensures refs[..] == ReplaceAll(old(refs[..]), from, to)
    ensures changed <==> from in old(refs[..])
  {
    changed := false;
    for i := 0 to refs.Length
      invariant forall k | 0 <= k < i :: refs[k] == if old(refs[k]) == from then to else old(refs[k])
      invariant forall k | i <= k < refs.Length :: refs[k] == old(refs[k])
      invariant changed <==> exists k :: 0 <= k < i && old(refs[k]) == from
    {
      if refs[i] == from {
        refs[i] := to;
        changed := true;
      }
    }
    assert forall k | 0 <= k < refs.Length :: old(refs[..])[k] == old(refs[k]);
  }

  /** A node with its references replaced; if it was running on the failed attempt, it is queued again. */
  function Rewired(n: Node, from: string, to: string): Node {
    if from !in n.deps && from !in n.handoff then n
    else
      var m := n.(deps := ReplaceAll(n.deps, from, to), handoff := ReplaceAll(n.handoff, from, to));
      if n.status == Running && Trim(n.job) != "" then m.(status := Pending, job := "") else m
  }

  /** A rewired node refers to the repair where it referred to the failed attempt, and is otherwise the same. */
  lemma {:induction false} RewiredExactly(n: Node, from: string, to: string)
    ensures var m := Rewired(n, from, to);
            && m.id == n.id && |m.deps| == |n.deps| && |m.handoff| == |n.handoff|
            && (forall i | 0 <= i < |n.deps| :: m.deps[i] == if n.deps[i] == from then to else n.deps[i])
            && (forall i | 0 <= i < |n.handoff| :: m.handoff[i] == if n.handoff[i] == from then to else n.handoff[i])
            && if (from in n.deps || from in n.handoff) && n.status == Running && Trim(n.job) != ""
               then m.status == Pending && m.job == ""
               else m.status == n.status && m.job == n.job
  {
    hide Trim;
  }

  /** A new repair waits to be run and refers to nothing. */
  lemma {:induction false} RepairIsFresh(nodes: seq<Node>, failed: string, repair: string)
    ensures var n := Repaired(nodes, failed, repair)[|nodes|];
            n.id == repair && n.deps == [] && n.handoff == [] && n.status == Pending && n.job == ""
  {
  }

  function RepairNode(id: string): Node {
    Node(id, [], [], Pending, "")
  }

  /** The long task after a repair: the references follow, and the new node depends on nothing. */
  function Repaired(nodes: seq<Node>, failed: string, repair: string): (r: seq<Node>)
    ensures |r| == |nodes| + 1 && r[|nodes|] == RepairNode(repair)
    ensures forall i | 0 <= i < |nodes| :: r[i] == Rewired(nodes[i], failed, repair)
  {
    seq(|nodes|, i requires 0 <= i < |nodes| => Rewired(nodes[i], failed, repair)) + [RepairNode(repair)]
  }

  predicate Exists(nodes: seq<Node>, id: string) {
    exists n | n in nodes :: n.id == id
  }

  datatype Summary = Summary(story: string, failed: string, repair: string, attempt: nat)

  datatype Outcome = Repairing(summary: Summary) | Declined | Refused

  /** Whether a repair is made. */
  predicate Allowed(stories: set<string>, nodes: seq<Node>, story: string, limit: int) {
    story in stories && Latest(nodes, story).attempt < limit && |nodes| < MAX_NODES
    && !Exists(nodes, RepairId(story, Latest(nodes, story).attempt + 1))
  }

  function After(stories: set<string>, nodes: seq<Node>, story: string, limit: int): seq<Node> {
    if !Allowed(stories, nodes, story, limit) then nodes
    else Repaired(nodes, Latest(nodes, story).id, RepairId(story, Latest(nodes, story).attempt + 1))
  }

  /** All nodes but `to` itself, with their references moved. */
  function RewiredOthers(nodes: seq<Node>, from: string, to: string): (r: seq<Node>)
    ensures |r| == |nodes|
    ensures forall i | 0 <= i < |nodes| :: r[i] == if nodes[i].id == to then nodes[i] else Rewired(nodes[i], from, to)
  {
    seq(|nodes|, i requires 0 <= i < |nodes| => if nodes[i].id == to then nodes[i] else Rewired(nodes[i], from, to))
  }

  /** The nodes of a workflow, and the repairs that were appended under their own key. */
  datatype Workflow = Workflow(nodes: seq<Node>, keys: set<string>)

  /** A repair after the attempt that a view shows, which may be older than the workflow. */
  function RepairAfter(w: Workflow, story: string, view: Found): Workflow {
    var repair := RepairId(story, view.attempt + 1);
    if repair in w.keys then w.(nodes := RewiredOthers(w.nodes, view.id, repair))
    else if |w.nodes| >= MAX_NODES || Exists(w.nodes, repair) then w
    else Workflow(RewiredOthers(w.nodes + [RepairNode(repair)], view.id, repair), w.keys + {repair})
  }

  class LongTask {
    const stories: set<string>
    var nodes: seq<Node>
    var keys: set<string>

    constructor (stories: set<string>, nodes: seq<Node>)
      ensures this.stories == stories && this.nodes == nodes && keys == {}
    {
      this.stories, this.nodes, keys := stories, nodes, {};
    }

    function Now(): Workflow
      reads this
    {
      Workflow(nodes, keys)
    }

    /** Adds a repair of a story and moves the references to it, unless the view shows the limit reached. */
    method AppendRepair(story: string, view: Found, limit: int) returns (outcome: Outcome)
      modifies this
      ensures outcome.Declined? <==> story !in stories || view.attempt >= limit
      ensures Now() == if outcome.Declined? then old(Now()) else RepairAfter(old(Now()), story, view)
      ensures var repair := RepairId(story, view.attempt + 1);
              && (outcome.Repairing? ==> outcome.summary == Summary(story, view.id, repair, view.attempt + 1))
              && (!outcome.Declined? ==>
                    (outcome.Repairing? <==>
                     repair in old(keys) || (|old(nodes)| < 64 && forall n | n in old(nodes) :: n.id != repair)))
    {
      hide RepairId, Rewired, RepairNode;
      if story !in stories || view.attempt >= limit {
        return Declined;
      }
      var repair := RepairId(story, view.attempt + 1);
      if repair !in keys {
        if |nodes| >= MAX_NODES || Exists(nodes, repair) {
          return Refused;
        }
        nodes := nodes + [RepairNode(repair)];
        keys := keys + {repair};
      }
      ghost var before, known := nodes, keys;
      for i := 0 to |nodes|
        invariant |nodes| == |before| && keys == known
        invariant forall k | 0 <= k < i ::
                    nodes[k] == if before[k].id == repair then before[k] else Rewired(before[k], view.id, repair)
        invariant forall k | i <= k < |before| :: nodes[k] == before[k]
      {
        if nodes[i].id != repair {
          var n := RewireNode(nodes[i], view.id, repair);
          nodes := nodes[i := n];
        }
      }
      assert nodes == RewiredOthers(before, view.id, repair);
      return Repairing(Summary(story, view.id, repair, view.attempt + 1));
    }
  }

  /** With the view of the current workflow, a repair is made exactly as the limit allows. */
  lemma {:induction false} FreshViewRepairs(stories: set<string>, w: Workflow, story: string, limit: int)
    requires story in stories && Latest(w.nodes, story).attempt < limit
    requires RepairId(story, Latest(w.nodes, story).attempt + 1) !in w.keys
    ensures RepairAfter(w, story, Latest(w.nodes, story)).nodes == After(stories, w.nodes, story, limit)
  {
    hide Latest, RepairId, Rewired;
    var found := Latest(w.nodes, story);
    var repair := RepairId(story, found.attempt + 1);
    if |w.nodes| < MAX_NODES && !Exists(w.nodes, repair) {
      var added := w.nodes + [RepairNode(repair)];
      assert forall i | 0 <= i < |w.nodes| :: w.nodes[i] in w.nodes;
      assert RewiredOthers(added, found.id, repair) == Repaired(w.nodes, found.id, repair);
    }
  }

  /** Replaces the references of one node. */
  method RewireNode(n: Node, from: string, to: string) returns (m: Node)
    ensures m == Rewired(n, from, to)
  {
    var deps := new string[|n.deps|](i requires 0 <= i < |n.deps| => n.deps[i]);
    var handoff := new string[|n.handoff|](i requires 0 <= i < |n.handoff| => n.handoff[i]);
    assert deps[..] == n.deps && handoff[..] == n.handoff;
    var depsChanged := ReplaceDep(deps, from, to);
    var handoffChanged := ReplaceDep(handoff, from, to);
    if !depsChanged && !handoffChanged {
      return n;
    }
    m := n.(deps := deps[..], handoff := handoff[..]);
    if m.status == Running && Trim(m.job) != "" {
      m := m.(status := Pending, job := "");
    }
  }

  // ---------------------------------------------------------------- many repairs

  predicate Unique(nodes: seq<Node>) {
    forall i, j | 0 <= i < j < |nodes| :: nodes[i].id != nodes[j].id
  }

  /** No name has the form of a repair of a story. */
  predicate Unlike(stories: set<string>, id: string) {
    forall s | s in stories :: AttemptOf(s, id).None?
  }

  predicate AllUnlike(stories: set<string>, ids: seq<string>) {
    forall i | 0 <= i < |ids| :: Unlike(stories, ids[i])
  }

  /** What is assumed of a long task before any repair: distinct ids, none of them named like a repair. */
  predicate Fresh(stories: set<string>, nodes: seq<Node>) {
    && Unique(nodes)
    && (forall s | s in stories :: Unlike(stories, s))
    && (forall n | n in nodes :: Unlike(stories, n.id) && AllUnlike(stories, n.deps) && AllUnlike(stories, n.handoff))
  }

  /** The latest attempt at what `x` names, given the number of attempts at each story. */
  function Current(attempts: map<string, nat>, x: string): string {
    if x in attempts && attempts[x] > 0 then RepairId(x, attempts[x]) else x
  }

  function Renamed(attempts: map<string, nat>, refs: seq<string>): (r: seq<string>)
    ensures |r| == |refs| && forall i | 0 <= i < |refs| :: r[i] == Current(attempts, refs[i])
  {
    seq(|refs|, i requires 0 <= i < |refs| => Current(attempts, refs[i]))
  }

  /** A node of the original task, with every reference to the latest attempt of what it named. */
  predicate FollowsNode(attempts: map<string, nat>, original: Node, n: Node) {
    && n.id == original.id
    && n.deps == Renamed(attempts, original.deps)
    && n.handoff == Renamed(attempts, original.handoff)
  }

  /** A repair that was made; it depends on nothing. */
  ghost predicate MadeRepair(attempts: map<string, nat>, n: Node) {
    n.deps == [] && n.handoff == [] && exists s | s in attempts :: exists k: nat :: IsAttempt(attempts, n, s, k)
  }

  predicate IsAttempt(attempts: map<string, nat>, n: Node, s: string, k: nat) {
    s in attempts && 0 < k <= attempts[s] && n.id == RepairId(s, k)
  }

  /**
   The long task is its original with every reference moved to the latest attempt, followed by
   one node for every repair made.
   */
  ghost predicate Follows(stories: set<string>, original: seq<Node>, attempts: map<string, nat>, nodes: seq<Node>) {
    && attempts.Keys == stories
    && (forall s | s in attempts :: attempts[s] <= MAX_INT)
    && |original| <= |nodes|
    && (forall i | 0 <= i < |original| :: FollowsNode(attempts, original[i], nodes[i]))
    && (forall i | |original| <= i < |nodes| :: MadeRepair(attempts, nodes[i]))
    && (forall s | s in attempts && attempts[s] > 0 :: Exists(nodes, RepairId(s, attempts[s])))
    && Unique(nodes)
  }

  /** Different names have different latest attempts. */
  lemma {:induction false} CurrentInjective(stories: set<string>, attempts: map<string, nat>, x: string, s: string)
    requires attempts.Keys == stories && s in stories && x != s && Unlike(stories, x) && Unlike(stories, s)
    requires forall t | t in attempts :: attempts[t] <= MAX_INT
    ensures Current(attempts, x) != Current(attempts, s)
  {
    hide AttemptOf, RepairId;
    if attempts[s] > 0 {
      OwnAttempt(s, attempts[s]);
      if x in attempts {
        ForeignAttempt(s, x, attempts[x]);
      }
    } else if x in attempts && attempts[x] > 0 {
      OwnAttempt(x, attempts[x]);
    }
  }

  /** What an id of the long task tells about attempts at `s`. */
  lemma {:induction false} AttemptsAt(stories: set<string>, original: seq<Node>, attempts: map<string, nat>,
                                      nodes: seq<Node>, s: string, i: nat)
    requires Fresh(stories, original) && Follows(stories, original, attempts, nodes) && s in stories && i < |nodes|
    ensures var k := AttemptOf(s, nodes[i].id);
            k.Some? ==> k.value <= attempts[s] && nodes[i].id == RepairId(s, k.value)
  {
    hide AttemptOf, RepairId, Renamed, Exists, Unique, AllUnlike;
    if i < |original| {
      assert FollowsNode(attempts, original[i], nodes[i]);
      assert original[i] in original;
    } else {
      assert MadeRepair(attempts, nodes[i]);
      var t :| t in attempts && exists k: nat :: IsAttempt(attempts, nodes[i], t, k);
      var k: nat :| IsAttempt(attempts, nodes[i], t, k);
      if t == s {
        OwnAttempt(s, k);
      } else {
        ForeignAttempt(s, t, k);
      }
    }
  }

  /** The latest attempt that is found is the latest one that was made. */
  lemma {:induction false} LatestIsCurrent(stories: set<string>, original: seq<Node>, attempts: map<string, nat>,
                                           nodes: seq<Node>, s: string)
    requires Fresh(stories, original) && Follows(stories, original, attempts, nodes) && s in stories
    ensures Latest(nodes, s) == Found(attempts[s], Current(attempts, s))
  {
    hide AttemptOf, RepairId, Renamed, Unique, Fresh, FollowsNode, MadeRepair, Latest;
    LatestIsGreatest(nodes, s);
    var found := Latest(nodes, s);
    if found.attempt > 0 {
      var n :| n in nodes && n.id == found.id && AttemptOf(s, n.id) == Some(found.attempt);
      var i :| 0 <= i < |nodes| && nodes[i] == n;
      AttemptsAt(stories, original, attempts, nodes, s, i);
    }
    if attempts[s] > 0 {
      OwnAttempt(s, attempts[s]);
      var n :| n in nodes && n.id == RepairId(s, attempts[s]);
      assert AttemptOf(s, n.id).value <= found.attempt;
    }
  }

  lemma {:induction false} NextIsNew(stories: set<string>, original: seq<Node>, attempts: map<string, nat>,
                                     nodes: seq<Node>, s: string)
    requires Fresh(stories, original) && Follows(stories, original, attempts, nodes) && s in stories
    requires attempts[s] < MAX_INT
    ensures !Exists(nodes, RepairId(s, attempts[s] + 1))
  {
    hide AttemptOf, RepairId, Renamed, Unique, Fresh, FollowsNode, MadeRepair;
    OwnAttempt(s, attempts[s] + 1);
    forall i | 0 <= i < |nodes| ensures nodes[i].id != RepairId(s, attempts[s] + 1) {
      AttemptsAt(stories, original, attempts, nodes, s, i);
    }
  }

  lemma {:induction false} ReplaceFollows(stories: set<string>, attempts: map<string, nat>, refs: seq<string>,
                                          s: string)
    requires attempts.Keys == stories && s in stories && Unlike(stories, s) && AllUnlike(stories, refs)
    requires forall t | t in attempts :: attempts[t] <= MAX_INT
    ensures ReplaceAll(Renamed(attempts, refs), Current(attempts, s), RepairId(s, attempts[s] + 1))
            == Renamed(attempts[s := attempts[s] + 1], refs)
    ensures Current(attempts, s) !in Renamed(attempts, refs) ==>
              Renamed(attempts, refs) == Renamed(attempts[s := attempts[s] + 1], refs)
  {
    hide AttemptOf, RepairId, Unlike;
    var before := Renamed(attempts, refs);
    var after := Renamed(attempts[s := attempts[s] + 1], refs);
    forall i | 0 <= i < |refs|
      ensures after[i] == if before[i] == Current(attempts, s) then RepairId(s, attempts[s] + 1) else before[i]
    {
      if refs[i] != s {
        CurrentInjective(stories, attempts, refs[i], s);
      }
    }
  }

  /** One more repair keeps the long task in step with its original. */
  lemma {:induction false} RepairFollows(stories: set<string>, original: seq<Node>, attempts: map<string, nat>,
                                         nodes: seq<Node>, s: string)
    requires Fresh(stories, original) && Follows(stories, original, attempts, nodes) && s in stories
    requires attempts[s] < MAX_INT
    ensures Follows(stories, original, attempts[s := attempts[s] + 1],
                    Repaired(nodes, Current(attempts, s), RepairId(s, attempts[s] + 1)))
  {
    hide AttemptOf, RepairId, Renamed, AllUnlike, Unlike, MadeRepair, FollowsNode, Current, Rewired, Repaired,
         RepairNode;
    var attempts' := attempts[s := attempts[s] + 1];
    var repair := RepairId(s, attempts[s] + 1);
    var nodes' := Repaired(nodes, Current(attempts, s), repair);
    NextIsNew(stories, original, attempts, nodes, s);
    forall i | 0 <= i < |original| ensures FollowsNode(attempts', original[i], nodes'[i]) {
      assert FollowsNode(attempts, original[i], nodes[i]);
      assert original[i] in original;
      NodeFollows(stories, attempts, original[i], nodes[i], s);
    }
    forall i | |original| <= i < |nodes'| ensures MadeRepair(attempts', nodes'[i]) {
      if i < |nodes| {
        assert MadeRepair(attempts, nodes[i]);
        RepairStays(attempts, nodes[i], s, Current(attempts, s), repair);
      } else {
        NewRepair(attempts', s);
      }
    }
    IdsStay(nodes, Current(attempts, s), repair);
    forall t | t in attempts' && attempts'[t] > 0 ensures Exists(nodes', RepairId(t, attempts'[t])) {
      if t == s {
        assert nodes'[|nodes|] in nodes';
      } else {
        assert Exists(nodes, RepairId(t, attempts[t]));
      }
    }
  }

  lemma {:induction false} NodeFollows(stories: set<string>, attempts: map<string, nat>, original: Node, n: Node,
                                       s: string)
    requires attempts.Keys == stories && s in stories && Unlike(stories, s)
    requires AllUnlike(stories, original.deps) && AllUnlike(stories, original.handoff)
    requires (forall t | t in attempts :: attempts[t] <= MAX_INT) && FollowsNode(attempts, original, n)
    ensures FollowsNode(attempts[s := attempts[s] + 1], original,
                        Rewired(n, Current(attempts, s), RepairId(s, attempts[s] + 1)))
  {
    hide AttemptOf, RepairId, AllUnlike, Unlike, Current, ReplaceAll, Renamed;
    ReplaceFollows(stories, attempts, original.deps, s);
    ReplaceFollows(stories, attempts, original.handoff, s);
  }

  lemma {:induction false} RepairStays(attempts: map<string, nat>, n: Node, s: string, from: string, to: string)
    requires s in attempts && MadeRepair(attempts, n)
    ensures MadeRepair(attempts[s := attempts[s] + 1], Rewired(n, from, to))
  {
    hide RepairId;
    var t :| t in attempts && exists k: nat :: IsAttempt(attempts, n, t, k);
    var k: nat :| IsAttempt(attempts, n, t, k);
    assert IsAttempt(attempts[s := attempts[s] + 1], n, t, k);
  }

  lemma {:induction false} NewRepair(attempts: map<string, nat>, s: string)
    requires s in attempts && attempts[s] > 0
    ensures MadeRepair(attempts, RepairNode(RepairId(s, attempts[s])))
  {
    hide RepairId;
    assert IsAttempt(attempts, RepairNode(RepairId(s, attempts[s])), s, attempts[s]);
  }

  lemma {:induction false} IdsStay(nodes: seq<Node>, failed: string, repair: string)
    ensures var r := Repaired(nodes, failed, repair);
            && r[|nodes|].id == repair
            && (forall i | 0 <= i < |nodes| :: r[i].id == nodes[i].id)
            && (forall id :: Exists(nodes, id) ==> Exists(r, id))
            && (Unique(nodes) && !Exists(nodes, repair) ==> Unique(r))
  {
    var r := Repaired(nodes, failed, repair);
    assert forall i | 0 <= i < |nodes| :: r[i].id == nodes[i].id;
    forall id | Exists(nodes, id) ensures Exists(r, id) {
      var n :| n in nodes && n.id == id;
      var i :| 0 <= i < |nodes| && nodes[i] == n;
      assert r[i] in r;
    }
  }

  /** A request to repair a story, with the limit in force. */
  datatype Request = Request(story: string, limit: int)

  function RunRepairs(stories: set<string>, nodes: seq<Node>, requests: seq<Request>): seq<Node>
    decreases |requests|
  {
    if requests == [] then nodes
    else
      var last := requests[|requests| - 1];
      After(stories, RunRepairs(stories, nodes, requests[..|requests| - 1]), last.story, last.limit)
  }

  /**
   After any requests, the long task is its original with every reference moved to the latest
   attempt; that attempt is the one found again, and no story has more repairs than the limit.
   */
  lemma {:induction false} RepairsFollow(stories: set<string>, original: seq<Node>, requests: seq<Request>, limit: nat)
    returns (attempts: map<string, nat>)
    requires Fresh(stories, original) && limit <= MAX_INT && forall r | r in requests :: r.limit <= limit
    ensures Follows(stories, original, attempts, RunRepairs(stories, original, requests))
    ensures forall s | s in stories ::
              && attempts[s] <= limit
              && Latest(RunRepairs(stories, original, requests), s) == Found(attempts[s], Current(attempts, s))
    decreases |requests|
  {
    hide Fresh, Follows, Latest, RepairId, Repaired, Current, Exists;
    if requests == [] {
      attempts := map s | s in stories :: 0;
      NothingYet(stories, original, attempts);
    } else {
      var r := requests[|requests| - 1];
      attempts := RepairsFollow(stories, original, requests[..|requests| - 1], limit);
      var nodes := RunRepairs(stories, original, requests[..|requests| - 1]);
      KeysOf(stories, original, attempts, nodes);
      if Allowed(stories, nodes, r.story, r.limit) {
        RepairFollows(stories, original, attempts, nodes, r.story);
        attempts := attempts[r.story := attempts[r.story] + 1];
      }
    }
    var nodes := RunRepairs(stories, original, requests);
    KeysOf(stories, original, attempts, nodes);
    forall s | s in stories ensures Latest(nodes, s) == Found(attempts[s], Current(attempts, s)) {
      LatestIsCurrent(stories, original, attempts, nodes, s);
    }
  }

  lemma {:induction false} KeysOf(stories: set<string>, original: seq<Node>, attempts: map<string, nat>,
                                  nodes: seq<Node>)
    requires Follows(stories, original, attempts, nodes)
    ensures attempts.Keys == stories
  {
    hide FollowsNode, MadeRepair, Exists, Unique;
  }

  lemma {:induction false} NothingYet(stories: set<string>, original: seq<Node>, attempts: map<string, nat>)
    requires Fresh(stories, original) && attempts == map s | s in stories :: 0
    ensures Follows(stories, original, attempts, original)
  {
    hide AttemptOf, RepairId;
    forall i | 0 <= i < |original| ensures FollowsNode(attempts, original[i], original[i]) {
      assert Renamed(attempts, original[i].deps) == original[i].deps;
      assert Renamed(attempts, original[i].handoff) == original[i].handoff;
    }
  }

  // ---------------------------------------------------------------- no cycles

  /** A rank that decreases along every dependency shows that there is no cycle. */
  ghost predicate Ranked(nodes: seq<Node>, rank: string -> nat) {
    forall n | n in nodes :: DepsBelow(n, rank)
  }

  ghost predicate DepsBelow(n: Node, rank: string -> nat) {
    forall i | 0 <= i < |n.deps| :: rank(n.deps[i]) < rank(n.id)
  }

  /** Repairs rank below everything else. */
  function RankAfter(stories: set<string>, rank: string -> nat): string -> nat {
    (id: string) => if Unlike(stories, id) then rank(id) + 1 else 0
  }

  /** Repairs introduce no cycle of dependencies. */
  lemma {:induction false} RepairsKeepAcyclic(stories: set<string>, original: seq<Node>, attempts: map<string, nat>,
                                              nodes: seq<Node>,
                                              rank: string -> nat)
    requires Fresh(stories, original) && Follows(stories, original, attempts, nodes) && Ranked(original, rank)
    ensures Ranked(nodes, RankAfter(stories, rank))
  {
    hide Exists, Unique, Unlike, AllUnlike, FollowsNode, DepsBelow, RankAfter;
    forall n | n in nodes ensures DepsBelow(n, RankAfter(stories, rank)) {
      var i :| 0 <= i < |nodes| && nodes[i] == n;
      if i < |original| {
        assert FollowsNode(attempts, original[i], n) && original[i] in original;
        NodeStaysBelow(stories, attempts, original[i], n, rank);
      } else {
        assert MadeRepair(attempts, n);
        NoDepsBelow(n, RankAfter(stories, rank));
      }
    }
  }

  lemma NoDepsBelow(n: Node, rank: string -> nat)
    requires n.deps == []
    ensures DepsBelow(n, rank)
  {
  }

  lemma {:induction false} NodeStaysBelow(stories: set<string>, attempts: map<string, nat>, original: Node, n: Node,
                                          rank: string -> nat)
    requires attempts.Keys == stories && (forall t | t in attempts :: attempts[t] <= MAX_INT)
    requires FollowsNode(attempts, original, n) && DepsBelow(original, rank)
    requires Unlike(stories, original.id) && AllUnlike(stories, original.deps)
    ensures DepsBelow(n, RankAfter(stories, rank))
  {
    hide Unlike, Current;
    forall i | 0 <= i < |n.deps| ensures RankAfter(stories, rank)(n.deps[i]) < RankAfter(stories, rank)(n.id) {
      CurrentRank(stories, attempts, original.deps[i]);
    }
  }

  lemma {:induction false} CurrentRank(stories: set<string>, attempts: map<string, nat>, x: string)
    requires attempts.Keys == stories && Unlike(stories, x) && forall t | t in attempts :: attempts[t] <= MAX_INT
    ensures Current(attempts, x) == x || !Unlike(stories, Current(attempts, x))
  {
    hide AttemptOf, RepairId;
    if x in attempts && attempts[x] > 0 {
      OwnAttempt(x, attempts[x]);
    }
  }

  // ---------------------------------------------------------------- an old view

  /** A repair requested with the view of an earlier attempt changes nothing: its references have moved on. */
  lemma {:induction false} OldViewChangesNothing(stories: set<string>, original: seq<Node>, attempts: map<string, nat>,
                                                 w: Workflow, s: string, k: nat)
    requires Fresh(stories, original) && Follows(stories, original, attempts, w.nodes) && s in stories
    requires k < attempts[s] && RepairId(s, k + 1) in w.keys
    ensures RepairAfter(w, s, Found(k, Attempt(s, k))) == w
  {
    hide RepairId, Attempt, Mentions, Fresh, Follows, Rewired;
    var repair := RepairId(s, k + 1);
    var r := RewiredOthers(w.nodes, Attempt(s, k), repair);
    forall i | 0 <= i < |w.nodes| ensures r[i] == w.nodes[i] {
      OldAttemptUnmentioned(stories, original, attempts, w.nodes, s, k, i);
      UnmentionedStays(w.nodes[i], Attempt(s, k), repair);
    }
    assert r == w.nodes;
  }

  lemma {:induction false} UnmentionedStays(n: Node, from: string, to: string)
    requires !Mentions(n, from)
    ensures Rewired(n, from, to) == n
  {
  }

  lemma {:induction false} OldAttemptUnmentioned(stories: set<string>, original: seq<Node>, attempts: map<string, nat>,
                                                 nodes: seq<Node>, s: string, k: nat, i: nat)
    requires Fresh(stories, original) && Follows(stories, original, attempts, nodes) && s in stories
    requires k < attempts[s] && i < |nodes|
    ensures !Mentions(nodes[i], Attempt(s, k))
  {
    hide RepairId, AttemptOf, Attempt, Exists, Unique, Unlike, AllUnlike, Renamed, Current;
    if i < |original| {
      assert FollowsNode(attempts, original[i], nodes[i]) && original[i] in original;
      RenamedSkips(stories, attempts, original[i].deps, s, k);
      RenamedSkips(stories, attempts, original[i].handoff, s, k);
    } else {
      assert MadeRepair(attempts, nodes[i]);
    }
  }

  /** References to latest attempts never name an earlier one. */
  lemma {:induction false} RenamedSkips(stories: set<string>, attempts: map<string, nat>, refs: seq<string>,
                                        s: string, k: nat)
    requires attempts.Keys == stories && s in stories && Unlike(stories, s) && AllUnlike(stories, refs)
    requires k < attempts[s]
    requires forall t | t in attempts :: attempts[t] <= MAX_INT
    ensures Attempt(s, k) !in Renamed(attempts, refs)
  {
    hide AttemptOf, RepairId;
    AttemptNumber(s, k);
    forall i | 0 <= i < |refs| ensures Current(attempts, refs[i]) != Attempt(s, k) {
      var x := refs[i];
      assert Unlike(stories, x);
      if x == s {
        OwnAttempt(s, attempts[s]);
      } else if x in attempts && attempts[x] > 0 {
        OwnAttempt(x, attempts[x]);
        ForeignAttempt(s, x, attempts[x]);
      }
    }
  }

  // ---------------------------------------------------------------- an interrupted repair

  predicate Mentions(n: Node, x: string) {
    x in n.deps || x in n.handoff
  }

  /**
   A repair that stops after its node is saved leaves the long task in step with its original
   exactly when no node mentions the failed attempt.
   */
  lemma {:induction false} InterruptedFollowsIff(stories: set<string>, original: seq<Node>, attempts: map<string,
                                                 nat>, nodes: seq<Node>, s: string)
    requires Fresh(stories, original) && Follows(stories, original, attempts, nodes) && s in stories
    requires attempts[s] < MAX_INT
    ensures var repair := RepairId(s, attempts[s] + 1);
            Follows(stories, original, attempts[s := attempts[s] + 1], nodes + [RepairNode(repair)]) <==>
            forall i | 0 <= i < |nodes| :: !Mentions(nodes[i], Current(attempts, s))
  {
    hide Mentions, FollowsNode, RepairId, Current, AttemptOf, AllUnlike, Unlike, Renamed, RepairNode, MadeRepair,
         Rewired;
    var attempts' := attempts[s := attempts[s] + 1];
    var repair := RepairId(s, attempts[s] + 1);
    var failed := Current(attempts, s);
    var nodes' := nodes + [RepairNode(repair)];
    forall i | 0 <= i < |original|
      ensures FollowsNode(attempts', original[i], nodes'[i]) <==> !Mentions(nodes[i], failed)
    {
      assert FollowsNode(attempts, original[i], nodes[i]) && original[i] in original;
      NodeFollowsIff(stories, attempts, original[i], nodes[i], s);
    }
    forall i | |original| <= i < |nodes| ensures !Mentions(nodes[i], failed) {
      assert MadeRepair(attempts, nodes[i]);
      RepairMentionsNothing(attempts, nodes[i], failed);
    }
    if forall i | 0 <= i < |nodes| :: !Mentions(nodes[i], failed) {
      RepairFollows(stories, original, attempts, nodes, s);
      Untouched(nodes, failed, repair);
    } else {
      var i :| 0 <= i < |nodes| && Mentions(nodes[i], failed);
      assert !FollowsNode(attempts', original[i], nodes'[i]);
    }
  }

  lemma {:induction false} RepairMentionsNothing(attempts: map<string, nat>, n: Node, x: string)
    requires MadeRepair(attempts, n)
    ensures !Mentions(n, x)
  {
    hide IsAttempt;
  }

  lemma {:induction false} Untouched(nodes: seq<Node>, failed: string, repair: string)
    requires forall i | 0 <= i < |nodes| :: !Mentions(nodes[i], failed)
    ensures Repaired(nodes, failed, repair) == nodes + [RepairNode(repair)]
  {
    var r := Repaired(nodes, failed, repair);
    forall i | 0 <= i < |nodes| ensures r[i] == nodes[i] {
      assert !Mentions(nodes[i], failed);
    }
  }

  lemma {:induction false} NodeFollowsIff(stories: set<string>, attempts: map<string, nat>, original: Node, n: Node,
                                          s: string)
    requires attempts.Keys == stories && s in stories && Unlike(stories, s) && attempts[s] < MAX_INT
    requires AllUnlike(stories, original.deps) && AllUnlike(stories, original.handoff)
    requires (forall t | t in attempts :: attempts[t] <= MAX_INT) && FollowsNode(attempts, original, n)
    ensures FollowsNode(attempts[s := attempts[s] + 1], original, n) <==> !Mentions(n, Current(attempts, s))
  {
    hide AttemptOf, RepairId, AllUnlike, Unlike, Current, ReplaceAll, Renamed;
    ReplaceFollows(stories, attempts, original.deps, s);
    ReplaceFollows(stories, attempts, original.handoff, s);
    FailedIsGone(stories, attempts, original.deps, s);
    FailedIsGone(stories, attempts, original.handoff, s);
  }

  /** References that follow the next attempt no longer name the failed one. */
  lemma {:induction false} FailedIsGone(stories: set<string>, attempts: map<string, nat>, refs: seq<string>, s: string)
    requires attempts.Keys == stories && s in stories && Unlike(stories, s) && AllUnlike(stories, refs)
    requires attempts[s] < MAX_INT
    requires forall t | t in attempts :: attempts[t] <= MAX_INT
    ensures Current(attempts, s) !in Renamed(attempts[s := attempts[s] + 1], refs)
  {
    hide AttemptOf, RepairId, Unlike;
    var attempts' := attempts[s := attempts[s] + 1];
    forall i | 0 <= i < |refs| ensures Current(attempts', refs[i]) != Current(attempts, s) {
      if refs[i] == s {
        NextDiffers(attempts, s);
      } else {
        CurrentInjective(stories, attempts, refs[i], s);
      }
    }
  }

  lemma {:induction false} NextDiffers(attempts: map<string, nat>, s: string)
    requires s in attempts && attempts[s] < MAX_INT
    ensures RepairId(s, attempts[s] + 1) != Current(attempts, s)
  {
    hide AttemptOf, RepairId;
    OwnAttempt(s, attempts[s] + 1);
    if attempts[s] > 0 {
      OwnAttempt(s, attempts[s]);
    } else {
      NoAttemptAtItself(s);
    }
  }

  /** The node of attempt `k` at a story; attempt 0 is its base node. */
  function Attempt(story: string, k: nat): string {
    if k == 0 then story else RepairId(story, k)
  }

  predicate MentionedBy(nodes: seq<Node>, i: nat, x: string) {
    i < |nodes| && Mentions(nodes[i], x)
  }

  /**
   The new node is saved before the references move. If that is as far as the repair of any attempt
   gets, that attempt is no longer the latest one, and whatever mentions it still does after any
   number of further repairs.
   */
  lemma {:induction false} InterruptedRepairStrands(stories: set<string>, nodes: seq<Node>, s: string, k: nat, i: nat,
                                                    requests: seq<Request>)
    requires s in stories && (forall t | t in stories :: Unlike(stories, t)) && k < MAX_INT
    requires MentionedBy(nodes, i, Attempt(s, k))
    ensures MentionedBy(RunRepairs(stories, nodes + [RepairNode(RepairId(s, k + 1))], requests), i, Attempt(s, k))
  {
    hide RepairId, AttemptOf, Latest, Unlike, Attempt, Mentions;
    var stranded := nodes + [RepairNode(RepairId(s, k + 1))];
    assert stranded[|nodes|] in stranded;
    StrandedStays(stories, stranded, s, k, i, requests);
  }

  lemma {:induction false} StrandedStays(stories: set<string>, nodes: seq<Node>, s: string, k: nat, i: nat,
                                         requests: seq<Request>)
    requires s in stories && (forall t | t in stories :: Unlike(stories, t)) && k < MAX_INT
    requires MentionedBy(nodes, i, Attempt(s, k)) && Exists(nodes, RepairId(s, k + 1))
    ensures MentionedBy(RunRepairs(stories, nodes, requests), i, Attempt(s, k))
    ensures Exists(RunRepairs(stories, nodes, requests), RepairId(s, k + 1))
    decreases |requests|
  {
    hide RepairId, AttemptOf, Latest, Unlike, Rewired, Repaired, Attempt, Mentions;
    if requests != [] {
      StrandedStays(stories, nodes, s, k, i, requests[..|requests| - 1]);
      var before := RunRepairs(stories, nodes, requests[..|requests| - 1]);
      var r := requests[|requests| - 1];
      if Allowed(stories, before, r.story, r.limit) {
        var failed := Latest(before, r.story).id;
        var repair := RepairId(r.story, Latest(before, r.story).attempt + 1);
        AttemptIsOver(stories, before, s, k, r.story);
        IdsStay(before, failed, repair);
        KeepsOther(before[i], failed, repair, Attempt(s, k));
      }
    }
  }

  lemma {:induction false} KeepsOther(n: Node, failed: string, repair: string, x: string)
    requires Mentions(n, x) && x != failed
    ensures Mentions(Rewired(n, failed, repair), x)
  {
    if x in n.deps {
      var k :| 0 <= k < |n.deps| && n.deps[k] == x;
      assert ReplaceAll(n.deps, failed, repair)[k] == x;
    } else {
      var k :| 0 <= k < |n.handoff| && n.handoff[k] == x;
      assert ReplaceAll(n.handoff, failed, repair)[k] == x;
    }
  }

  /** Once the next attempt exists, no repair of any story takes this one for the failed one. */
  lemma {:induction false} AttemptIsOver(stories: set<string>, nodes: seq<Node>, s: string, k: nat, t: string)
    requires s in stories && t in stories && Unlike(stories, s) && Unlike(stories, t) && k < MAX_INT
    requires Exists(nodes, RepairId(s, k + 1))
    ensures Latest(nodes, t).id != Attempt(s, k)
  {
    hide RepairId, AttemptOf, Latest;
    LatestIsGreatest(nodes, t);
    AttemptNumber(s, k);
    if t == s {
      OwnAttempt(s, k + 1);
      var n :| n in nodes && n.id == RepairId(s, k + 1);
      assert AttemptOf(s, n.id).value <= Latest(nodes, s).attempt;
    } else if k > 0 {
      ForeignAttempt(t, s, k);
    }
  }

  lemma {:induction false} AttemptNumber(s: string, k: nat)
    requires k <= MAX_INT
    ensures AttemptOf(s, Attempt(s, k)) == if k == 0 then None else Some(k)
  {
    hide RepairId, AttemptOf;
    if k == 0 {
      NoAttemptAtItself(s);
    } else {
      OwnAttempt(s, k);
    }
  }

  // ---------------------------------------------------------------- what a repair loses

  /** The latest attempt at every node of the original has the references that the original had, moved along. */
  predicate IsReplaced(original: seq<Node>, attempts: map<string, nat>, nodes: seq<Node>) {
    forall o, i | 0 <= o < |original| && 0 <= i < |nodes| && nodes[i].id == Current(attempts, original[o].id) ::
      SameRefs(attempts, original[o], nodes[i])
  }

  /** A node has the references of an original node, moved along. */
  predicate SameRefs(attempts: map<string, nat>, original: Node, n: Node) {
    n.deps == Renamed(attempts, original.deps) && n.handoff == Renamed(attempts, original.handoff)
  }

  predicate WasRepaired(attempts: map<string, nat>, id: string) {
    id in attempts && attempts[id] > 0
  }

  /** A repair stands in for its story with the story's own references exactly when the story had none. */
  lemma {:induction false} RepairKeepsRefsIff(stories: set<string>, original: seq<Node>, attempts: map<string, nat>,
                                              nodes: seq<Node>, o: nat, i: nat)
    requires Fresh(stories, original) && Follows(stories, original, attempts, nodes) && o < |original| && i < |nodes|
    requires WasRepaired(attempts, original[o].id) && nodes[i].id == Current(attempts, original[o].id)
    ensures nodes[i].deps == Renamed(attempts, original[o].deps) <==> original[o].deps == []
    ensures nodes[i].handoff == Renamed(attempts, original[o].handoff) <==> original[o].handoff == []
  {
    hide AttemptOf, RepairId, Exists, Unique, AllUnlike;
    var s := original[o].id;
    OwnAttempt(s, attempts[s]);
    if i < |original| {
      OriginalIsNoAttempt(stories, original, attempts, nodes, s, i);
    }
    assert MadeRepair(attempts, nodes[i]);
  }

  lemma {:induction false} OriginalIsNoAttempt(stories: set<string>, original: seq<Node>, attempts: map<string, nat>,
                                               nodes: seq<Node>, s: string, i: nat)
    requires Fresh(stories, original) && Follows(stories, original, attempts, nodes) && s in stories && i < |original|
    ensures AttemptOf(s, nodes[i].id).None?
  {
    hide AttemptOf, RepairId, Exists, Unique, AllUnlike, MadeRepair;
    assert FollowsNode(attempts, original[i], nodes[i]) && original[i] in original;
    assert Unlike(stories, original[i].id);
  }

  /**
   The repaired task is the original with each story replaced by its latest attempt exactly when no
   story that was repaired depended on anything or took anything over.
   */
  lemma {:induction false} ReplacedIffNothingLost(stories: set<string>, original: seq<Node>, attempts: map<string, nat>,
                                                  nodes: seq<Node>)
    requires Fresh(stories, original) && Follows(stories, original, attempts, nodes)
    ensures IsReplaced(original, attempts, nodes) <==>
            forall o | 0 <= o < |original| && WasRepaired(attempts, original[o].id) ::
              original[o].deps == [] && original[o].handoff == []
  {
    hide AttemptOf, RepairId, Fresh, FollowsNode, MadeRepair, Current, Renamed;
    forall o, i | 0 <= o < |original| && 0 <= i < |nodes| && nodes[i].id == Current(attempts, original[o].id)
      ensures SameRefs(attempts, original[o], nodes[i])
              <==> (WasRepaired(attempts, original[o].id) ==> original[o].deps == [] && original[o].handoff == [])
    {
      if WasRepaired(attempts, original[o].id) {
        RepairKeepsRefsIff(stories, original, attempts, nodes, o, i);
      } else {
        UnrepairedStands(stories, original, attempts, nodes, o, i);
      }
    }
    forall o | 0 <= o < |original| && WasRepaired(attempts, original[o].id)
      ensures exists i :: 0 <= i < |nodes| && nodes[i].id == Current(attempts, original[o].id)
    {
      LatestIsThere(stories, original, attempts, nodes, original[o].id);
    }
  }

  lemma {:induction false} UnrepairedStands(stories: set<string>, original: seq<Node>, attempts: map<string, nat>,
                                            nodes: seq<Node>, o: nat, i: nat)
    requires Follows(stories, original, attempts, nodes) && o < |original| && i < |nodes|
    requires !WasRepaired(attempts, original[o].id) && nodes[i].id == Current(attempts, original[o].id)
    ensures SameRefs(attempts, original[o], nodes[i])
  {
    hide AttemptOf, RepairId, MadeRepair, Renamed, Exists;
    assert FollowsNode(attempts, original[o], nodes[o]);
    assert i == o;
  }

  lemma {:induction false} LatestIsThere(stories: set<string>, original: seq<Node>, attempts: map<string, nat>,
                                         nodes: seq<Node>, s: string)
    requires Follows(stories, original, attempts, nodes) && WasRepaired(attempts, s)
    ensures exists i :: 0 <= i < |nodes| && nodes[i].id == Current(attempts, s)
  {
    hide AttemptOf, RepairId, MadeRepair, FollowsNode, Unique;
    assert Exists(nodes, RepairId(s, attempts[s]));
    var n :| n in nodes && n.id == RepairId(s, attempts[s]);
    var i :| 0 <= i < |nodes| && nodes[i] == n;
  }

  /** Two stories, of which the second depends on the first. */
  const PAIR: seq<Node> := [Node("a", [], [], NodeStatus.Completed, ""), Node("b", ["a"], [], Failed, "")]

  lemma {:induction false} PairIsFresh()
    ensures Fresh({"a", "b"}, PAIR)
  {
    assert PAIR[0].id != PAIR[1].id by { assert "a"[0] != "b"[0]; }
    assert forall x: string, y: string | |y| <= 1 :: AttemptOf(x, y).None?;
  }

  /** The repair of the second story depends on nothing, although the story depended on the first. */
  lemma {:induction false} RepairLosesDependency()
    ensures var nodes := RunRepairs({"a", "b"}, PAIR, [Request("b", 2)]);
            && nodes == PAIR + [RepairNode("b_repair_1")]
            && Latest(nodes, "b") == Found(1, "b_repair_1")
            && nodes[2].deps == [] && PAIR[1].deps == ["a"]
  {
    hide Fresh, Follows, Latest, Exists, RepairId, Rewired;
    var stories := {"a", "b"};
    var attempts := map s | s in stories :: 0;
    var later := attempts["b" := 1];
    PairIsFresh();
    NothingYet(stories, PAIR, attempts);
    LatestIsCurrent(stories, PAIR, attempts, PAIR, "b");
    NextIsNew(stories, PAIR, attempts, PAIR, "b");
    RepairFollows(stories, PAIR, attempts, PAIR, "b");
    var nodes := Repaired(PAIR, "b", RepairId("b", 1));
    LatestIsCurrent(stories, PAIR, later, nodes, "b");
    PairUntouched();
    var requests := [Request("b", 2)];
    assert requests[..0] == [] && RunRepairs(stories, PAIR, []) == PAIR;
    assert RepairId("b", 1) == "b_repair_1" by { FirstRepairName(); }
  }

  lemma {:induction false} FirstRepairName()
    ensures RepairId("b", 1) == "b_repair_1"
  {
    assert Decimal(1) == "1";
  }

  lemma {:induction false} PairUntouched()
    ensures Repaired(PAIR, "b", RepairId("b", 1)) == PAIR + [RepairNode(RepairId("b", 1))]
  {
    hide RepairId;
    assert "a"[0] != "b"[0];
    Untouched(PAIR, "b", RepairId("b", 1));
  }
}
