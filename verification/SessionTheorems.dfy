/**
 The promises of a FlowSession over every run: any interleaving of submitters,
 lifecycle calls, workers and signals, with a fault in any operation.
 */
module SessionTheorems {
  import opened SessionTypes
  import opened SessionDisk
  import opened SessionAtomic
  import opened SessionRuns
  import opened SessionHistory

  /** The session on disk after a run. */
  function SessionAfter(region: Region, steps: seq<Step>): Session {
    Abs(Run(region, steps).disk)
  }

  // ---------------------------------------------------------------- crash invariant

  /** The journal and the outbox after any run, and the errors that can therefore never be reported. */
  lemma {:induction false} JournalNeverGaps(region: Region, steps: seq<Step>, op: Op)
    ensures var d := Run(region, steps).disk;
            var m := Mended(d);
            var k := |d.snap.pending|;
            && Numbered(m)
            && d.snap.processed <= d.snap.last <= d.snap.stateVersion
            && (k == 0 ==> |m| == d.snap.last || |m| == d.snap.last + 1)
            && (k > 0 ==> && k <= d.snap.last && d.snap.last - k <= |m| <= d.snap.last
                          && forall i | 0 <= i < k :: d.snap.pending[i].sequence == d.snap.last - k + 1 + i)
            && m <= SessionAfter(region, steps).journal
            && OpPlan(d, op).reply != JournalGap
  {
    hide Run, OpPlan, Recover;
    OperationCompletes(Run(region, steps).disk, op);
    assert Answer(SessionAfter(region, steps), op) != JournalGap;
  }

  /**
   A prepare reads the journal after it read its snapshot, and others may have moved on in between.
   It still finds the event next to the cursor of its snapshot, and never one further on.
   */
  lemma {:induction false} PrepareNeverGaps(region: Region, steps: seq<Step>, b: Session)
    requires b in Run(region, steps).seen
    ensures var found := FirstAfter(SessionAfter(region, steps).journal, b.processed);
            && (found.Some? ==> found.value.sequence == b.processed + 1)
            && (b.processed < |b.journal| ==> found == Some(b.journal[b.processed]))
  {
    hide Run, Abs, Consistent, Replay, FirstAfter;
    var s := Run(region, steps);
    EveryRun(region, steps);
    AbsSound(s.disk);
    assert Precedes(b, Abs(s.disk));
    ScanFindsNext(Abs(s.disk).journal, 0, b.processed);
  }

  // ---------------------------------------------------------------- replay equivalence

  /**
   The durable session is the sequential replay of its history, and its state is
   the fold of the journal: every external event was committed, failed or
   cancelled exactly once, in sequence order, and runtime events contribute nothing.
   */
  lemma {:induction false} ReplayEquivalence(region: Region, steps: seq<Step>)
    ensures Replay(region, Run(region, steps).acts) == Some(SessionAfter(region, steps))
    ensures Accounted(region, Run(region, steps).acts, SessionAfter(region, steps))
  {
    hide Run, Replay, Accounted, Abs;
    EveryRun(region, steps);
    StateIsFold(region, Run(region, steps).acts, SessionAfter(region, steps));
  }

  /** The counters of every reachable session balance against the acts of its history. */
  lemma {:induction false} CountersConserved(region: Region, steps: seq<Step>)
    ensures Balanced(SessionAfter(region, steps), Count(Run(region, steps).acts))
  {
    hide Run, Replay, Abs, Count, Balanced;
    EveryRun(region, steps);
    CountersCountActs(region, Run(region, steps).acts, SessionAfter(region, steps));
  }

  /** Outputs of committed runs are in the journal exactly once, together and in order. */
  lemma {:induction false} OutputsExactlyOnce(region: Region, steps: seq<Step>)
    ensures var acts := Run(region, steps).acts;
            var s := SessionAfter(region, steps);
            && CountOutputs(s.journal) == TotalProduced(region, acts)
            && forall k | 0 <= k < |acts| && acts[k].Commitment? ::
                 var b := Replay(region, acts[..k]);
                 && b.Some?
                 && var made := Produced(region, b.value, acts[k]);
                    var es := OutputEvents(made, |b.value.journal|, b.value.stateVersion + 1);
                    |b.value.journal| + |es| <= |s.journal| &&
                    s.journal[|b.value.journal|..|b.value.journal| + |es|] == es
  {
    hide Run, Replay, Abs, CountOutputs, TotalProduced, Produced, Legal;
    var acts := Run(region, steps).acts;
    var s := SessionAfter(region, steps);
    EveryRun(region, steps);
    OutputsCounted(region, acts, s);
    forall k | 0 <= k < |acts| && acts[k].Commitment?
      ensures Replay(region, acts[..k]).Some?
      ensures var b := Replay(region, acts[..k]).value;
              var es := OutputEvents(Produced(region, b, acts[k]), |b.journal|, b.stateVersion + 1);
              |b.journal| + |es| <= |s.journal| && s.journal[|b.journal|..|b.journal| + |es|] == es
    {
      WrittenStays(region, acts, k, s);
      var b := Replay(region, acts[..k]).value;
      var es := OutputEvents(Produced(region, b, acts[k]), |b.journal|, b.stateVersion + 1);
      assert Written(region, b, acts[k]) == es;
      assert (b.journal + es)[|b.journal|..] == es;
    }
  }

  // ---------------------------------------------------------------- fencing

  /** Sessions only move forward along a run. */
  lemma {:induction false} RunsMoveForward(region: Region, steps: seq<Step>, k: nat)
    requires k <= |steps|
    ensures Precedes(SessionAfter(region, steps[..k]), SessionAfter(region, steps))
    decreases |steps|
  {
    hide Abs, Consistent, Next;
    if k == |steps| {
      assert steps[..k] == steps;
    } else {
      var before := steps[..|steps| - 1];
      RunsMoveForward(region, before, k);
      assert before[..k] == steps[..k];
      StepMovesForward(region, Run(region, before), steps[|steps| - 1]);
      PrecedesTransitive(SessionAfter(region, steps[..k]), SessionAfter(region, before), SessionAfter(region, steps));
    }
  }

  lemma {:induction false} StepMovesForward(region: Region, s: System, step: Step)
    requires Consistent(s.disk)
    ensures Precedes(Abs(s.disk), Abs(Next(region, s, step).disk))
  {
    hide Abs, Consistent, After, Possible, OpPlan;
    if Enabled(s, step) {
      AbsSound(s.disk);
      EveryOutcomeFollows(Abs(s.disk), OpOf(region, step), Abs(After(s.disk, OpOf(region, step), step.fault)));
    }
  }

  /** The step settled the work of a worker: it committed, checkpointed or cancelled it. */
  predicate Settles(region: Region, before: seq<Step>, step: Step) {
    (step.Settle? || step.Drop?) && SessionAfter(region, before + [step]) != SessionAfter(region, before)
  }

  /**
   A result takes effect only on the state, status and cursor that its worker
   read, and on the event that comes next; it raises the generation by one.
   */
  lemma {:induction false} NoLostUpdate(region: Region, before: seq<Step>, step: Step)
    requires Settles(region, before, step)
    ensures var a := SessionAfter(region, before);
            var t := SessionAfter(region, before + [step]);
            var w := step.work;
            && a.generation == w.base.generation && t.generation == a.generation + 1
            && a.status == Active && w.base.status == Active
            && a.state == w.base.state && a.processed == w.base.processed
            && a.processed < |a.journal| && w.event == a.journal[a.processed]
            && t.processed == a.processed + 1
  {
    hide Abs, Consistent, Replay, Fits, FitsLatest;
    var s := Run(region, before);
    EveryRun(region, before);
    assert (before + [step])[..|before|] == before;
    assert Run(region, before + [step]) == Next(region, s, step);
    assert Enabled(s, step);
    var t := SessionAfter(region, before + [step]);
    SettledMeansCurrent(SessionAfter(region, before), OpOf(region, step), t);
    assert Prepared(s, Abs(s.disk), step.work);
    assert Precedes(step.work.base, Abs(s.disk));
  }

  lemma {:induction false} SettledMeansCurrent(a: Session, op: Op, t: Session)
    requires op.Checkpoint? || op.Cancel? || op.Commit?
    requires t in Possible(a, op) && t != a
    ensures Current(a, op.sequence, op.generation)
    ensures t.generation == a.generation + 1 && t.processed == a.processed + 1
  {
    hide Fits, FitsLatest;
  }

  /** Of all works prepared at one generation, at most one is ever settled. */
  lemma {:induction false} OneSettlementPerGeneration(region: Region, steps: seq<Step>, i: nat, j: nat)
    requires i < j < |steps|
    requires Settles(region, steps[..i], steps[i]) && Settles(region, steps[..j], steps[j])
    ensures steps[i].work.base.generation < steps[j].work.base.generation
  {
    hide Run, Abs;
    NoLostUpdate(region, steps[..i], steps[i]);
    NoLostUpdate(region, steps[..j], steps[j]);
    assert steps[..i] + [steps[i]] == steps[..i + 1] == steps[..j][..i + 1];
    RunsMoveForward(region, steps[..j], i + 1);
  }

  // ---------------------------------------------------------------- signals and lifecycle

  /** A signal takes effect only on the very session it ran on, with no event pending. */
  lemma {:induction false} SignalsAreQuiescent(region: Region, before: seq<Step>, step: Step)
    requires step.Pulse? && SessionAfter(region, before + [step]) != SessionAfter(region, before)
    ensures step.base == SessionAfter(region, before)
    ensures step.base.status == Active && step.base.processed == |step.base.journal|
  {
    hide Abs, Consistent, Replay, Fits, FitsLatest;
    var s := Run(region, before);
    EveryRun(region, before);
    assert (before + [step])[..|before|] == before;
    assert Run(region, before + [step]) == Next(region, s, step);
    assert Enabled(s, step);
    SignalMeansAccepted(SessionAfter(region, before), OpOf(region, step), SessionAfter(region, before + [step]));
    assert Precedes(step.base, Abs(s.disk));
  }

  lemma {:induction false} SignalMeansAccepted(a: Session, op: Op, t: Session)
    requires op.Signal? && t in Possible(a, op) && t != a
    ensures SignalAccepted(a, op.stateVersion, op.generation)
  {
  }

  lemma {:induction false} EndedAcceptsNothing(s: Session, op: Op)
    requires Ended(s.status)
    ensures Possible(s, op) == {s}
  {
    hide LifecycleStatus, HashText, Fits, FitsLatest;
  }

  /** An ended session is frozen: no later step, and no fault, changes it. */
  lemma {:induction false} EndedIsFinal(region: Region, steps: seq<Step>, k: nat)
    requires k <= |steps| && Ended(SessionAfter(region, steps[..k]).status)
    ensures SessionAfter(region, steps) == SessionAfter(region, steps[..k])
    decreases |steps|
  {
    hide Abs, Consistent, Possible, After, OpPlan;
    if k == |steps| {
      assert steps[..k] == steps;
    } else {
      var before := steps[..|steps| - 1];
      assert before[..k] == steps[..k];
      EndedIsFinal(region, before, k);
      EndedAcceptsNothing(SessionAfter(region, before), OpOf(region, steps[|steps| - 1]));
    }
  }

  /** Once the end is snapshotted, no operation writes anything again. */
  lemma {:induction false} EndedWritesNothing(s: Session, op: Op)
    requires Sound(s) && Ended(s.status)
    ensures OpPlan(Clean(s), op).ios == []
  {
    hide HashText, LifecycleStatus, Fits, FitsLatest;
    LoadOfCleanIsEmpty(s);
  }

  lemma {:induction false} LoadOfCleanIsEmpty(s: Session)
    requires Sound(s)
    ensures LoadPlan(Clean(s)) == Plan([], Ok)
  {
    assert LastSeq(s.journal) == |s.journal|;
  }

  // ---------------------------------------------------------------- sources and backlog

  /** In every reachable journal each source's numbers rise, and at most 256 external events wait. */
  lemma {:induction false} JournalOrderly(region: Region, steps: seq<Step>)
    ensures var s := SessionAfter(region, steps);
            && Orderly(s)
            && s.processed <= |s.journal| && Backlog(s) <= MAX_PENDING
  {
    hide Run, Replay, Abs, Orderly;
    EveryRun(region, steps);
    SourcesOrderly(region, Run(region, steps).acts, SessionAfter(region, steps));
    BacklogBounded(region, Run(region, steps).acts, SessionAfter(region, steps));
  }

  /** The submission that an event records. */
  function Resubmitted(e: Event): Input {
    Input(e.source, e.sourceSeq, e.kind, e.correlation, e.occurredAt, e.payload)
  }

  /**
   Resubmitting the latest numbered event of a source, after any run and in any
   status, returns its original sequence and changes nothing.
   */
  lemma {:induction false} ResubmissionIsIdempotent(region: Region, steps: seq<Step>, n: nat)
    requires n < |SessionAfter(region, steps).journal|
    requires SessionAfter(region, steps).journal[n].source != GODEX
    requires SessionAfter(region, steps).journal[n].sourceSeq > 0
    requires forall j | n < j < |SessionAfter(region, steps).journal| ::
               !FromSource(SessionAfter(region, steps).journal[j], SessionAfter(region, steps).journal[n].source)
    ensures var s := SessionAfter(region, steps);
            var d := Run(region, steps).disk;
            var plan := OpPlan(d, Submit(Resubmitted(s.journal[n])));
            && s.journal[n].sequence == n + 1
            && plan.reply == Receipt(n + 1, true)
            && PerformAll(d, plan.ios) == Clean(s)
  {
    hide Run, Replay, Abs, OpPlan, Consistent, HashText;
    var s := SessionAfter(region, steps);
    var e := s.journal[n];
    JournalOrderly(region, steps);
    AbsSound(Run(region, steps).disk);
    LatestIsCursor(s, n);
    OperationCompletes(Run(region, steps).disk, Submit(Resubmitted(e)));
  }

  lemma {:induction false} LatestIsCursor(s: Session, n: nat)
    requires Orderly(s) && Numbered(s.journal) && n < |s.journal| && s.journal[n].sourceSeq > 0
    requires forall j | n < j < |s.journal| :: !FromSource(s.journal[j], s.journal[n].source)
    ensures s.journal[n].source in s.cursors && s.cursors[s.journal[n].source] == CursorOf(s.journal[n])
  {
    hide HashText;
    var source := s.journal[n].source;
    assert CursorPoints(s.journal, source, s.cursors[source]);
    var m := s.cursors[source].eventSeq - 1;
    assert FromSource(s.journal[m], source);
    assert m == n;
  }

  // ---------------------------------------------------------------- the ambiguous submission

  const INTRUDER := Input("sensor", 1, "session.completed", "", "", "{}")

  lemma {:induction false} IntruderAccepted()
    ensures SubmitAccepted(FRESH, INTRUDER) && LifecycleStatus(INTRUDER.kind) == Some(Completed)
  {
    LifecycleRoundTrip(Completed);
    assert INTRUDER.source[0] != GODEX[0];
  }

  lemma {:induction false} OneOffer(region: Region, i: Input, f: Fault)
    requires Consistent(Clean(FRESH))
    ensures SessionAfter(region, [Offer(i, f)]) == Abs(After(Clean(FRESH), Submit(i), f))
  {
    hide Consistent, Abs, After, OpPlan;
    var steps := [Offer(i, f)];
    assert steps[..0] == [] && Run(region, []) == START;
  }

  /** A crash between the two writes lets an external event of a lifecycle kind end the session. */
  lemma {:induction false} ExternalEventEndsSession(region: Region)
    ensures SessionAfter(region, [Offer(INTRUDER, Fault(1, Nothing))]).status == Completed
    ensures SessionAfter(region, [Offer(INTRUDER, Fault(2, Nothing))]).status == Active
    ensures SessionAfter(region, [Offer(INTRUDER, Fault(1, Nothing))]).journal ==
            SessionAfter(region, [Offer(INTRUDER, Fault(2, Nothing))]).journal
  {
    hide HashText, Consistent, Abs, LifecycleStatus, OpPlan, Run, SubmitAccepted;
    var op := Submit(INTRUDER);
    var d := Clean(FRESH);
    CleanRoundTrip(FRESH);
    IntruderAccepted();
    LoadOfCleanIsEmpty(FRESH);
    OneOffer(region, INTRUDER, Fault(1, Nothing));
    OneOffer(region, INTRUDER, Fault(2, Nothing));
    AmbiguousIsMisread(d, op);
    OperationCompletes(d, op);
    IntruderPlan();
    InterruptComplete(d, OpPlan(d, op).ios, Fault(2, Nothing));
  }

  lemma {:induction false} IntruderPlan()
    ensures |OpPlan(Clean(FRESH), Submit(INTRUDER)).ios| == 2
  {
    hide HashText, LoadPlan;
    IntruderAccepted();
    LoadOfCleanIsEmpty(FRESH);
  }
}
