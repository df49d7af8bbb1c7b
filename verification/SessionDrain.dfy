/**
 Draining: with no new input, advancing an active session again and again
 handles every pending event and stops, although handling an event may append
 further runtime events.
 */
module SessionDrain {
  import opened SessionTypes
  import opened SessionDisk
  import opened SessionAtomic
  import opened SessionRuns
  import opened SessionHistory
  import opened SessionTheorems

  /** Every result of the region fits the output limits; regions of Flows do. */
  ghost predicate Bounded(region: Region) {
    forall state: State, e: Event :: Fits(OutputsOf(region(state, e)))
  }

  /** One advance: the next journal event in order is run, or passed if the runtime wrote it. */
  function Tick(region: Region, s: Session): Session
    requires s.processed < |s.journal|
  {
    var e := s.journal[s.processed];
    if e.source == GODEX then Passed(s)
    else
      var o := region(s.state, e);
      Committed(s, e.kind, OutputsOf(o), StateOf(o), ErrorOf(o))
  }

  /** The state after the external events among `es`, in order. */
  function FoldPending(region: Region, state: State, es: seq<Event>): State
    decreases |es|
  {
    if es == [] then state
    else if es[0].source == GODEX then FoldPending(region, state, es[1..])
    else FoldPending(region, Updated(state, region(state, es[0])), es[1..])
  }

  /** What one advance leaves pending: the rest, then outputs of the runtime. */
  lemma {:induction false} TickPending(region: Region, s: Session) returns (outputs: seq<Event>)
    requires s.processed < |s.journal|
    ensures Tick(region, s).journal == s.journal + outputs
    ensures Tick(region, s).processed == s.processed + 1
    ensures Tick(region, s).journal[Tick(region, s).processed..] == s.journal[s.processed + 1..] + outputs
    ensures forall e | e in outputs :: IsOutput(e)
    ensures s.journal[s.processed].source == GODEX ==> outputs == []
  {
    var e := s.journal[s.processed];
    if e.source == GODEX {
      outputs := [];
    } else {
      outputs := OutputEvents(OutputsOf(region(s.state, e)), |s.journal|, s.stateVersion + 1);
    }
  }

  /** An advance lowers the external backlog, or keeps it and lowers the number of pending events. */
  lemma {:induction false} TickShrinks(region: Region, s: Session)
    requires s.processed < |s.journal|
    ensures var t := Tick(region, s);
            && t.processed <= |t.journal|
            && (Backlog(t) < Backlog(s) ||
                (Backlog(t) == Backlog(s) && |t.journal| - t.processed < |s.journal| - s.processed))
  {
    var outputs := TickPending(region, s);
    var t := Tick(region, s);
    assert t.processed <= |t.journal|;
    assert s.journal[s.processed..][0] == s.journal[s.processed];
    assert s.journal[s.processed..][1..] == s.journal[s.processed + 1..];
    CountExternalConcat(s.journal[s.processed + 1..], outputs);
    CountExternalBounded(outputs);
  }

  /** The session once nothing is pending; that this recursion ends is part of the claim. */
  function Drained(region: Region, s: Session): Session
    requires s.processed <= |s.journal|
    decreases Backlog(s), |s.journal| - s.processed
  {
    if s.processed == |s.journal| then s
    else
      TickShrinks(region, s);
      Drained(region, Tick(region, s))
  }

  lemma {:induction false} FoldSkipsOutputs(region: Region, state: State, es: seq<Event>, outputs: seq<Event>)
    requires forall e | e in outputs :: e.source == GODEX
    ensures FoldPending(region, state, es + outputs) == FoldPending(region, state, es)
    decreases |es| + |outputs|
  {
    if es == [] {
      assert es + outputs == outputs;
      if outputs != [] {
        FoldSkipsOutputs(region, state, [], outputs[1..]);
        assert [] + outputs[1..] == outputs[1..];
      }
    } else {
      assert (es + outputs)[1..] == es[1..] + outputs;
      if es[0].source == GODEX {
        FoldSkipsOutputs(region, state, es[1..], outputs);
      } else {
        FoldSkipsOutputs(region, Updated(state, region(state, es[0])), es[1..], outputs);
      }
    }
  }

  /** A drained session has nothing pending and is in the state the pending events lead to. */
  lemma {:induction false} DrainingCompletes(region: Region, s: Session)
    requires s.processed <= |s.journal|
    ensures var t := Drained(region, s);
            && t.processed == |t.journal|
            && t.state == FoldPending(region, s.state, s.journal[s.processed..])
            && t.status == s.status
            && s.journal <= t.journal
            && forall k | |s.journal| <= k < |t.journal| :: IsOutput(t.journal[k])
    decreases Backlog(s), |s.journal| - s.processed
  {
    hide Committed, Passed;
    if s.processed < |s.journal| {
      TickShrinks(region, s);
      var outputs := TickPending(region, s);
      var t := Tick(region, s);
      DrainingCompletes(region, t);
      TickState(region, s);
      var rest := s.journal[s.processed + 1..];
      assert s.journal[s.processed..] == [s.journal[s.processed]] + rest;
      FoldSkipsOutputs(region, t.state, rest, outputs);
    }
  }

  lemma {:induction false} TickState(region: Region, s: Session)
    requires s.processed < |s.journal|
    ensures var t := Tick(region, s);
            var e := s.journal[s.processed];
            && t.status == s.status
            && t.state == if e.source == GODEX then s.state else Updated(s.state, region(s.state, e))
  {
  }

  // ---------------------------------------------------------------- draining as a run

  /** A step that no fault stops. */
  predicate Calm(region: Region, s: System, step: Step)
    requires Consistent(s.disk)
  {
    step.fault.after >= |OpPlan(s.disk, OpOf(region, step)).ios|
  }

  lemma {:induction false} CalmStep(region: Region, s: System, step: Step)
    requires Consistent(s.disk) && Enabled(s, step) && Calm(region, s, step)
    ensures Abs(Next(region, s, step).disk) == Apply(Abs(s.disk), OpOf(region, step))
  {
    hide Consistent, Abs, OpPlan, Apply;
    OperationCompletes(s.disk, OpOf(region, step));
    InterruptComplete(s.disk, OpPlan(s.disk, OpOf(region, step)).ios, step.fault);
  }

  lemma {:induction false} RunAppend(region: Region, steps: seq<Step>, step: Step)
    ensures Run(region, steps + [step]) == Next(region, Run(region, steps), step)
  {
    assert (steps + [step])[..|steps|] == steps;
  }

  function Undisturbed(region: Region, s: System, op: Op): Fault {
    Fault(|OpPlan(s.disk, op).ios|, Nothing)
  }

  /** Looking and fetching put the next event in a worker's hands and leave the session alone. */
  lemma {:induction false} PrepareNext(region: Region, steps: seq<Step>) returns (more: seq<Step>, w: Work)
    requires SessionAfter(region, steps).status == Active
    requires SessionAfter(region, steps).processed < |SessionAfter(region, steps).journal|
    ensures SessionAfter(region, steps + more) == SessionAfter(region, steps)
    ensures w in Run(region, steps + more).works && w.base == SessionAfter(region, steps)
    ensures w.event == w.base.journal[w.base.processed]
  {
    hide Consistent, Abs, OpPlan, Run, After, Replay, Precedes;
    var s := Run(region, steps);
    var a := SessionAfter(region, steps);
    var look := Look(Undisturbed(region, s, Load));
    RunAppend(region, steps, look);
    CalmStep(region, s, look);
    var s1 := Run(region, steps + [look]);
    assert a in s1.seen;
    var fetch := Fetch(a, Undisturbed(region, s1, Load));
    RunAppend(region, steps + [look], fetch);
    CalmStep(region, s1, fetch);
    LoadEndsClean(s1.disk, fetch.fault);
    AbsSound(s1.disk);
    ScanFindsNext(a.journal, 0, a.processed);
    more := [look, fetch];
    assert steps + more == steps + [look] + [fetch];
    w := Work(a, a.journal[a.processed]);
  }

  /** From every active session there is a run that drains it. */
  lemma {:induction false} DrainsInSomeRun(region: Region, steps: seq<Step>) returns (more: seq<Step>)
    requires Bounded(region) && SessionAfter(region, steps).status == Active
    ensures SessionAfter(region, steps).processed <= |SessionAfter(region, steps).journal|
    ensures SessionAfter(region, steps + more) == Drained(region, SessionAfter(region, steps))
    decreases Backlog(SessionAfter(region, steps)),
              |SessionAfter(region, steps).journal| - SessionAfter(region, steps).processed
  {
    hide Consistent, Abs, Run, Tick, Fits, FitsLatest, OpPlan;
    var a := SessionAfter(region, steps);
    AbsSound(Run(region, steps).disk);
    more := [];
    assert steps + [] == steps;
    if a.processed < |a.journal| {
      var prep, w := PrepareNext(region, steps);
      var op := OpOf(region, Settle(w, None, Fault(0, Nothing)));
      var step := Settle(w, None, Undisturbed(region, Run(region, steps + prep), op));
      SettleIsTick(region, steps + prep, step);
      TickShrinks(region, a);
      TickState(region, a);
      var rest := DrainsInSomeRun(region, steps + prep + [step]);
      more := prep + [step] + rest;
      assert steps + more == steps + prep + [step] + rest;
    }
  }

  lemma {:induction false} SettleIsTick(region: Region, steps: seq<Step>, step: Step)
    requires Bounded(region) && step.Settle? && step.mishap == None && step.work in Run(region, steps).works
    requires Calm(region, Run(region, steps), step)
    requires var a := SessionAfter(region, steps);
             && step.work.base == a && a.status == Active && a.processed < |a.journal|
             && step.work.event == a.journal[a.processed]
    ensures SessionAfter(region, steps + [step]) == Tick(region, SessionAfter(region, steps))
  {
    hide Consistent, Abs, Run, Fits, FitsLatest, OpPlan;
    RunAppend(region, steps, step);
    CalmStep(region, Run(region, steps), step);
    AbsSound(Run(region, steps).disk);
    assert Numbered(SessionAfter(region, steps).journal);
    assert Current(SessionAfter(region, steps), step.work.event.sequence, step.work.base.generation);
  }
}
