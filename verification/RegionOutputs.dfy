/** The outputs of a region run: what its terminal nodes publish, within the size limits. */
module RegionOutputs {
  import opened SessionTypes
  import opened RegionPlanner
  import opened RegionRun
  import opened RegionThread

  /** What the outputs of a run are collected from. */
  datatype Gathered = Gathered(execution: seq<Node>, scheduled: set<string>, outputs: map<string, Values>)

  /** No scheduled node depends on the node. */
  predicate Terminal(g: Gathered, id: string) {
    !exists c | c in g.execution :: c.id in g.scheduled && c.id != id && id in c.deps
  }

  /** The node of that id; the last one wins. */
  function ById(execution: seq<Node>): map<string, Node>
    decreases |execution|
  {
    if execution == [] then map[]
    else ById(execution[..|execution| - 1])[execution[|execution| - 1].id := execution[|execution| - 1]]
  }

  /** The declared outputs of a node, without the session state. */
  function Public(b: Behaviour, n: Node, values: Values): Values {
    map k | k in values && k in b.published(n) && k != SESSION_STATE :: values[k]
  }

  /** What a node publishes: nothing unless it is terminal. */
  function Publication(b: Behaviour, g: Gathered, id: string): Values {
    var byId := ById(g.execution);
    if Terminal(g, id) && id in byId && id in g.outputs then Public(b, byId[id], g.outputs[id]) else map[]
  }

  function OutputOf(b: Behaviour, g: Gathered, correlation: string, id: string): Output {
    var public := Publication(b, g, id);
    Output(correlation, b.encode(id, public), b.latestBytes(id, public))
  }

  /** The outputs of a run, in the order in which its nodes ran. */
  function Emitted(b: Behaviour, g: Gathered, correlation: string, ids: seq<string>): seq<Output>
    decreases |ids|
  {
    if ids == [] then []
    else
      var id := ids[|ids| - 1];
      var before := Emitted(b, g, correlation, ids[..|ids| - 1]);
      if Publication(b, g, id) == map[] then before else before + [OutputOf(b, g, correlation, id)]
  }

  /** The limits on the outputs of one run, in the journal and as the latest outputs of a signal. */
  predicate WithinLimits(outputs: seq<Output>) {
    Fits(outputs) && FitsLatest(outputs)
  }

  /** Outputs within the limits are within them at every earlier node, so the first excess decides. */
  lemma {:induction false} LimitsOfPrefix(b: Behaviour, g: Gathered, correlation: string, ids: seq<string>, k: nat)
    requires k <= |ids| && WithinLimits(Emitted(b, g, correlation, ids))
    ensures WithinLimits(Emitted(b, g, correlation, ids[..k]))
    decreases |ids|
  {
    hide Publication, WithinLimits;
    if k < |ids| {
      var front := ids[..|ids| - 1];
      var id := ids[|ids| - 1];
      if Publication(b, g, id) != map[] {
        LimitsOfOneMore(Emitted(b, g, correlation, front), OutputOf(b, g, correlation, id));
      }
      LimitsOfPrefix(b, g, correlation, front, k);
      assert front[..k] == ids[..k];
    } else {
      assert ids[..k] == ids;
    }
  }

  /** One more output keeps the limits exactly when it fits by itself and in what is left. */
  lemma {:induction false} LimitsOfOneMore(before: seq<Output>, o: Output)
    ensures TotalBytes(before + [o]) == TotalBytes(before) + |o.payload|
    ensures LatestTotal(before + [o]) == LatestTotal(before) + o.latestBytes
    ensures WithinLimits(before + [o]) <==>
            && WithinLimits(before)
            && |o.payload| <= MAX_PAYLOAD_BYTES && TotalBytes(before) + |o.payload| <= MAX_BATCH_BYTES
            && o.latestBytes <= MAX_PAYLOAD_BYTES && LatestTotal(before) + o.latestBytes <= MAX_BATCH_BYTES
  {
    assert (before + [o])[..|before|] == before;
    assert o in before + [o] && forall p | p in before :: p in before + [o];
  }

  lemma {:induction false} ByIdFinds(execution: seq<Node>, n: Node)
    requires UniqueIds(execution) && n in execution
    ensures n.id in ById(execution) && ById(execution)[n.id] == n
    decreases |execution|
  {
    var front := execution[..|execution| - 1];
    if n != execution[|execution| - 1] {
      assert n in front;
      ByIdFinds(front, n);
      SameIdDiffers(execution, n);
    }
  }

  lemma {:induction false} SameIdDiffers(execution: seq<Node>, n: Node)
    requires UniqueIds(execution) && n in execution && n != execution[|execution| - 1]
    ensures n.id != execution[|execution| - 1].id
  {
    var i :| 0 <= i < |execution| && execution[i] == n;
  }

  /**
   A node publishes an output exactly when nothing scheduled depends on the node, and the output
   is declared, was returned and is not the session state.
   */
  lemma {:induction false} PublicationExact(b: Behaviour, g: Gathered, n: Node, k: string)
    requires UniqueIds(g.execution) && n in g.execution && n.id in g.outputs && g.scheduled == Ids(g.execution)
    ensures k in Publication(b, g, n.id) <==>
            && (forall c | c in g.execution && n.id in c.deps :: c.id == n.id)
            && k in g.outputs[n.id] && k in b.published(n) && k != "session_state"
    ensures k in Publication(b, g, n.id) ==> Publication(b, g, n.id)[k] == g.outputs[n.id][k]
  {
    hide UniqueIds, ById;
    ByIdFinds(g.execution, n);
    forall c | c in g.execution ensures c.id in g.scheduled {
      IdOf(g.execution, c);
    }
  }

  /** Every output comes from a terminal node that ran, and every such node with something to publish gives one. */
  lemma {:induction false} EmittedExactly(b: Behaviour, g: Gathered, correlation: string, ids: seq<string>, o: Output)
    ensures o in Emitted(b, g, correlation, ids) <==>
            exists id | id in ids ::
              && Terminal(g, id) && Publication(b, g, id) != map[]
              && o.correlation == correlation
              && o.payload == b.encode(id, Publication(b, g, id))
              && o.latestBytes == b.latestBytes(id, Publication(b, g, id))
    decreases |ids|
  {
    hide Terminal, ById, Public;
    if ids != [] {
      EmittedExactly(b, g, correlation, ids[..|ids| - 1], o);
      assert ids == ids[..|ids| - 1] + [ids[|ids| - 1]];
    }
  }

  /**
   The outputs in order: `at` says which of the nodes each one comes from. It rises, so every node gives
   at most one output, and it leaves out only nodes that publish nothing.
   */
  lemma {:induction false} EmittedInOrder(b: Behaviour, g: Gathered, correlation: string, ids: seq<string>)
    returns (at: seq<nat>)
    ensures var made := Emitted(b, g, correlation, ids);
            && |at| == |made|
            && (forall k | 0 <= k < |at| :: at[k] < |ids|)
            && (forall j, k | 0 <= j < k < |at| :: at[j] < at[k])
            && (forall i | 0 <= i < |ids| :: i in at <==> Publication(b, g, ids[i]) != map[])
            && (forall k | 0 <= k < |at| ::
                  made[k] == Output(correlation, b.encode(ids[at[k]], Publication(b, g, ids[at[k]])),
                                    b.latestBytes(ids[at[k]], Publication(b, g, ids[at[k]]))))
    decreases |ids|
  {
    hide Publication;
    at := [];
    if ids != [] {
      var last := |ids| - 1;
      at := EmittedInOrder(b, g, correlation, ids[..last]);
      if Publication(b, g, ids[last]) != map[] {
        at := at + [last];
      }
    }
  }

  /** Collects the outputs of the terminal nodes, unless they are too large. */
  method CollectOutputs(b: Behaviour, g: Gathered, correlation: string, ids: seq<string>)
    returns (result: Result<seq<Output>>)
    ensures result.Ok? <==> WithinLimits(Emitted(b, g, correlation, ids))
    ensures result.Ok? ==> result.value == Emitted(b, g, correlation, ids)
    ensures result.Err? ==> result.failure == OutputTooLarge
  {
    hide Terminal, Public, WithinLimits, TotalBytes, LatestTotal;
    var byId: map<string, Node> := map[];
    for i := 0 to |g.execution|
      invariant byId == ById(g.execution[..i])
    {
      byId := byId[g.execution[i].id := g.execution[i]];
      assert g.execution[..i + 1][..i] == g.execution[..i];
    }
    assert g.execution[..|g.execution|] == g.execution;
    var emitted: seq<Output> := [];
    var total, latest := 0, 0;
    NothingFits();
    for i := 0 to |ids|
      invariant emitted == Emitted(b, g, correlation, ids[..i]) && WithinLimits(emitted)
      invariant total == TotalBytes(emitted) && latest == LatestTotal(emitted)
    {
      var id := ids[i];
      ghost var upto := ids[..i + 1];
      assert upto[..i] == ids[..i] && upto[|upto| - 1] == id;
      var public: Values := map[];
      var successor := HasSuccessor(g, id);
      if !successor && id in byId && id in g.outputs {
        public := Public(b, byId[id], g.outputs[id]);
      }
      assert public == Publication(b, g, id);
      if public != map[] {
        var o := Output(correlation, b.encode(id, public), b.latestBytes(id, public));
        assert Emitted(b, g, correlation, upto) == emitted + [o];
        LimitsOfOneMore(emitted, o);
        if |o.payload| > MAX_PAYLOAD_BYTES || total + |o.payload| > MAX_BATCH_BYTES
           || o.latestBytes > MAX_PAYLOAD_BYTES || latest + o.latestBytes > MAX_BATCH_BYTES {
          ExcessStays(b, g, correlation, ids, i + 1);
          return Err(OutputTooLarge);
        }
        emitted, total, latest := emitted + [o], total + |o.payload|, latest + o.latestBytes;
      }
    }
    assert ids[..|ids|] == ids;
    return Ok(emitted);
  }

  lemma NothingFits()
    ensures WithinLimits([]) && TotalBytes([]) == 0 && LatestTotal([]) == 0
  {
  }

  lemma {:induction false} ExcessStays(b: Behaviour, g: Gathered, correlation: string, ids: seq<string>, k: nat)
    requires k <= |ids| && !WithinLimits(Emitted(b, g, correlation, ids[..k]))
    ensures !WithinLimits(Emitted(b, g, correlation, ids))
  {
    hide WithinLimits, Emitted;
    if WithinLimits(Emitted(b, g, correlation, ids)) {
      LimitsOfPrefix(b, g, correlation, ids, k);
    }
  }

  /** The search for a scheduled node that depends on `id`. */
  method HasSuccessor(g: Gathered, id: string) returns (found: bool)
    ensures found <==> !Terminal(g, id)
  {
    for i := 0 to |g.execution|
      invariant forall k | 0 <= k < i && g.execution[k].id in g.scheduled && g.execution[k].id != id ::
                  id !in g.execution[k].deps
    {
      var c := g.execution[i];
      if c.id in g.scheduled && c.id != id && id in c.deps {
        return true;
      }
    }
    return false;
  }
}
