/**
 What the acts of a run did, and that every kind of step can take effect. Each act
 is described field by field, without the functions that define the acts.
 */
module SessionLedger {
  import opened SessionTypes
  import opened SessionDisk
  import opened SessionAtomic
  import opened SessionRuns
  import opened SessionHistory
  import opened SessionTheorems
  import opened SessionDrain
  import opened SessionContracts

  // ---------------------------------------------------------------- the acts of a history

  /** What a region run came to: its state, outputs and error. */
  datatype Result = Result(state: State, made: seq<Output>, error: string)

  /** A failed or disturbed run leaves the state alone and puts nothing out. */
  function ResultOf(region: Region, state: State, e: Event, mishap: Option<string>): Result {
    if mishap.Some? then Result(state, [], mishap.value)
    else
      match region(state, e)
      case Failed(error) => Result(state, [], error)
      case Finished(next, made) => Result(if next.Some? then next.value else state, made, "")
  }

  /** The submission `i` is the next journal event. */
  predicate Stores(b: Session, t: Session, i: Input) {
    && SubmitAnswer(b, i) == Receipt(|b.journal| + 1, false)
    && t.journal == b.journal + [Kept(i, |b.journal| + 1, b.stateVersion + 1)]
    && t.stateVersion == b.stateVersion + 1 && t.state == b.state
    && t.cursors == if i.sourceSeq == 0 then b.cursors
                    else b.cursors[i.source := Cursor(i.sourceSeq, |b.journal| + 1, HashOf(i))]
  }

  /** The next event of an active session was dealt with. */
  predicate Handled(b: Session, t: Session, byRuntime: bool) {
    && b.status == Active && b.processed < |b.journal| && (b.journal[b.processed].source == "godex") == byRuntime
    && t.processed == b.processed + 1 && t.generation == b.generation + 1
    && t.status == Active && t.cursors == b.cursors && t.signalOutputs == b.signalOutputs
  }

  /** What an act made of a session. */
  predicate Means(region: Region, b: Session, act: Act, t: Session) {
    match act
    case Submission(i) =>
      && Stores(b, t, i)
      && t == b.(journal := t.journal, stateVersion := t.stateVersion, cursors := t.cursors)
    case Misreading(i) =>
      exists to: Status ::
        && i.kind == MoveName(to) && Stores(b, t, i)
        && t == b.(journal := t.journal, stateVersion := t.stateVersion, cursors := t.cursors,
                   status := to, generation := b.generation + 1,
                   processed := if to == Completed || to == Canceled then |t.journal| else b.processed)
    case Movement(to) =>
      && IsMove(b.status, to)
      && t == b.(status := to, stateVersion := b.stateVersion + 1, generation := b.generation + 1,
                 journal := b.journal + [Event("godex", 0, |b.journal| + 1, b.stateVersion + 1,
                                               MoveName(to), "", "", "{}")],
                 processed := if to == Completed || to == Canceled then |b.journal| + 1 else b.processed)
    case Commitment(mishap) =>
      && Handled(b, t, false)
      && var r := ResultOf(region, b.state, b.journal[b.processed], mishap);
         && t.state == r.state && t.lastError == r.error && t.lastKind == b.journal[b.processed].kind
         && Continues(b.journal, t.journal, r.made, b.stateVersion + 1)
         && t.stateVersion == b.stateVersion + 1 + |r.made|
    case Cancellation =>
      && Handled(b, t, false)
      && t.state == b.state && t.journal == b.journal && t.stateVersion == b.stateVersion + 1
      && t.lastError == "" && t.lastKind == b.journal[b.processed].kind
    case Passage =>
      && Handled(b, t, true)
      && t == b.(processed := t.processed, generation := t.generation)
    case Pulsing(i, mishap) =>
      var e := Kept(i, 0, 0);
      var r := ResultOf(region, b.state, e, mishap);
      && b.status == Active && b.processed == |b.journal|
      && t == b.(state := r.state, lastError := r.error, signalOutputs := r.made,
                 stateVersion := b.stateVersion + 1, generation := b.generation + 1)
  }

  lemma {:induction false} StatusNames(kind: string)
    ensures LifecycleStatus(kind).Some? ==> kind == MoveName(LifecycleStatus(kind).value)
  {
  }

  lemma {:induction false} CallersMean(region: Region, b: Session, act: Act)
    requires Legal(region, b, act) && (act.Submission? || act.Misreading? || act.Movement?)
    ensures Means(region, b, act, Redo(region, b, act))
  {
    hide LifecycleStatus;
    if act.Misreading? {
      StatusNames(act.input.kind);
    }
  }

  lemma {:induction false} WorkersMean(region: Region, b: Session, act: Act)
    requires Legal(region, b, act) && !(act.Submission? || act.Misreading? || act.Movement?)
    ensures Means(region, b, act, Redo(region, b, act))
  {
    hide LifecycleStatus, Fits, FitsLatest, HashText;
  }

  /**
   Every act of the history of every run did to the session before it exactly what it stands for, and
   what it wrote to the journal is still there.
   */
  lemma {:induction false} EveryActMeans(region: Region, steps: seq<Step>, k: nat)
    requires k < |Run(region, steps).acts|
    ensures var acts := Run(region, steps).acts;
            var b, t := Replay(region, acts[..k]), Replay(region, acts[..k + 1]);
            && b.Some? && t.Some?
            && Means(region, b.value, acts[k], t.value)
            && t.value.journal <= SessionAfter(region, steps).journal
  {
    hide Run, Abs, Consistent, Replay, Legal, Redo, Means;
    var acts := Run(region, steps).acts;
    EveryRun(region, steps);
    PrefixReplays(region, acts, k, SessionAfter(region, steps));
    PrefixReplays(region, acts, k + 1, SessionAfter(region, steps));
    OneActLater(region, acts, k);
    var b := Replay(region, acts[..k]).value;
    if acts[k].Submission? || acts[k].Misreading? || acts[k].Movement? {
      CallersMean(region, b, acts[k]);
    } else {
      WorkersMean(region, b, acts[k]);
    }
  }

  lemma {:induction false} OneActLater(region: Region, acts: seq<Act>, k: nat)
    requires k < |acts| && Replay(region, acts[..k + 1]).Some?
    ensures Replay(region, acts[..k]).Some? && Legal(region, Replay(region, acts[..k]).value, acts[k])
    ensures Replay(region, acts[..k + 1]) == Some(Redo(region, Replay(region, acts[..k]).value, acts[k]))
  {
    hide Legal, Redo;
    assert acts[..k + 1][..k] == acts[..k];
  }

  /** After every run, output `i` of commitment `k` is in the journal with its own correlation and payload. */
  lemma {:induction false} OutputsAreJournaled(region: Region, steps: seq<Step>, k: nat, i: nat)
    requires k < |Run(region, steps).acts| && Run(region, steps).acts[k].Commitment?
    ensures var acts := Run(region, steps).acts;
            var b := Replay(region, acts[..k]);
            && b.Some? && b.value.processed < |b.value.journal|
            && var made := ResultOf(region, b.value.state, b.value.journal[b.value.processed], acts[k].mishap).made;
               i < |made| ==>
                 var j := SessionAfter(region, steps).journal;
                 var n := |b.value.journal| + i;
                 && n < |j| && j[n].source == "godex" && j[n].sourceSeq == 0 && j[n].kind == "session.output"
                 && j[n].sequence == |b.value.journal| + 1 + i && j[n].stateVersion == b.value.stateVersion + 2 + i
                 && j[n].correlation == made[i].correlation && j[n].payload == made[i].payload
  {
    hide Run, Abs, Replay, ResultOf;
    EveryActMeans(region, steps, k);
    var acts := Run(region, steps).acts;
    var b, t := Replay(region, acts[..k]).value, Replay(region, acts[..k + 1]).value;
    var made := ResultOf(region, b.state, b.journal[b.processed], acts[k].mishap).made;
    if i < |made| {
      assert t.journal[|b.journal| + i].payload == made[i].payload;
      assert SessionAfter(region, steps).journal[|b.journal| + i] == t.journal[|b.journal| + i];
    }
  }

  /** After every run, the input of every submission that took effect, misread or not, is in the journal as given. */
  lemma {:induction false} InputsAreJournaled(region: Region, steps: seq<Step>, k: nat)
    requires k < |Run(region, steps).acts|
    requires Run(region, steps).acts[k].Submission? || Run(region, steps).acts[k].Misreading?
    ensures var acts := Run(region, steps).acts;
            var b := Replay(region, acts[..k]);
            && b.Some?
            && var j := SessionAfter(region, steps).journal;
               var n := |b.value.journal|;
               n < |j| && InputOf(j[n]) == acts[k].input && j[n].sequence == n + 1
  {
    hide Run, Abs, Replay, SubmitAnswer, HashOf;
    EveryActMeans(region, steps, k);
    var acts := Run(region, steps).acts;
    var b, t := Replay(region, acts[..k]).value, Replay(region, acts[..k + 1]).value;
    assert Stores(b, t, acts[k].input);
    assert t.journal[|b.journal|] == Kept(acts[k].input, |b.journal| + 1, b.stateVersion + 1);
  }

  // ---------------------------------------------------------------- every step can take effect

  /** A step that meets no fault does to the session what its operation does. */
  lemma {:induction false} StepEffect(region: Region, steps: seq<Step>, step: Step)
    requires Enabled(Run(region, steps), step) && Calm(region, Run(region, steps), step)
    ensures SessionAfter(region, steps + [step]) == Apply(SessionAfter(region, steps), OpOf(region, step))
  {
    hide Consistent, Abs, Run, OpPlan, Apply;
    RunAppend(region, steps, step);
    CalmStep(region, Run(region, steps), step);
  }

  lemma {:induction false} SubmissionTakesEffect(region: Region, steps: seq<Step>, i: Input) returns (step: Step)
    requires var s := SessionAfter(region, steps); SubmitAnswer(s, i) == Receipt(|s.journal| + 1, false)
    ensures Means(region, SessionAfter(region, steps), Submission(i), SessionAfter(region, steps + [step]))
  {
    hide Run, Abs, OpPlan, Consistent, LifecycleStatus;
    step := Offer(i, Undisturbed(region, Run(region, steps), Submit(i)));
    StepEffect(region, steps, step);
    assert Legal(region, SessionAfter(region, steps), Submission(i));
    CallersMean(region, SessionAfter(region, steps), Submission(i));
  }

  lemma {:induction false} MoveTakesEffect(region: Region, steps: seq<Step>, to: Status) returns (step: Step)
    requires IsMove(SessionAfter(region, steps).status, to)
    ensures Means(region, SessionAfter(region, steps), Movement(to), SessionAfter(region, steps + [step]))
  {
    hide Run, Abs, OpPlan, Consistent, LifecycleStatus, MoveName;
    step := Steer(to, Undisturbed(region, Run(region, steps), Transition(to)));
    StepEffect(region, steps, step);
    assert Legal(region, SessionAfter(region, steps), Movement(to));
    CallersMean(region, SessionAfter(region, steps), Movement(to));
  }

  /** An external event waits in an active session. */
  predicate Waiting(s: Session) {
    s.status == Active && s.processed < |s.journal| && s.journal[s.processed].source != "godex"
  }

  /** The next external event can be run, or fail in any way, and the result takes effect. */
  lemma {:induction false} CommitTakesEffect(region: Region, steps: seq<Step>, mishap: Option<string>)
    returns (more: seq<Step>)
    requires var s := SessionAfter(region, steps);
             && Waiting(s)
             && Small(PayloadSizes(ResultOf(region, s.state, s.journal[s.processed], mishap).made))
    ensures Means(region, SessionAfter(region, steps), Commitment(mishap), SessionAfter(region, steps + more))
  {
    hide Run, Abs, OpPlan, Consistent, Means, Small, Fits;
    var s := SessionAfter(region, steps);
    var prep, w := PrepareNext(region, steps);
    var calm := Undisturbed(region, Run(region, steps + prep), OpOf(region, Settle(w, mishap, Fault(0, Nothing))));
    var step := Settle(w, mishap, calm);
    FitsIsSmall(ResultOf(region, s.state, s.journal[s.processed], mishap).made);
    StepEffect(region, steps + prep, step);
    AbsSound(Run(region, steps).disk);
    assert Legal(region, s, Commitment(mishap));
    WorkersMean(region, s, Commitment(mishap));
    more := prep + [step];
    assert steps + more == steps + prep + [step];
  }

  /** The next external event can be cancelled. */
  lemma {:induction false} CancelTakesEffect(region: Region, steps: seq<Step>) returns (more: seq<Step>)
    requires Waiting(SessionAfter(region, steps))
    ensures Means(region, SessionAfter(region, steps), Cancellation, SessionAfter(region, steps + more))
  {
    hide Run, Abs, OpPlan, Consistent, Means;
    var s := SessionAfter(region, steps);
    var prep, w := PrepareNext(region, steps);
    var step := Drop(w, Undisturbed(region, Run(region, steps + prep), OpOf(region, Drop(w, Fault(0, Nothing)))));
    StepEffect(region, steps + prep, step);
    AbsSound(Run(region, steps).disk);
    assert Legal(region, s, Cancellation);
    WorkersMean(region, s, Cancellation);
    more := prep + [step];
    assert steps + more == steps + prep + [step];
  }

  /** On an active session with nothing pending, every signal whose outputs fit takes effect. */
  lemma {:induction false} SignalTakesEffect(region: Region, steps: seq<Step>, i: Input, mishap: Option<string>)
    returns (more: seq<Step>)
    requires var s := SessionAfter(region, steps);
             && s.status == Active && s.processed == |s.journal|
             && Small(LatestSizes(ResultOf(region, s.state, Kept(i, 0, 0), mishap).made))
    ensures Means(region, SessionAfter(region, steps), Pulsing(i, mishap), SessionAfter(region, steps + more))
  {
    hide Run, Abs, OpPlan, Consistent, Means, Small, FitsLatest, After;
    var s := SessionAfter(region, steps);
    var look := Look(Undisturbed(region, Run(region, steps), Load));
    RunAppend(region, steps, look);
    CalmStep(region, Run(region, steps), look);
    var seen := Run(region, steps + [look]);
    assert s in seen.seen;
    var calm := Undisturbed(region, seen, OpOf(region, Pulse(s, i, mishap, Fault(0, Nothing))));
    var step := Pulse(s, i, mishap, calm);
    FitsIsSmall(ResultOf(region, s.state, Kept(i, 0, 0), mishap).made);
    StepEffect(region, steps + [look], step);
    assert Legal(region, s, Pulsing(i, mishap));
    WorkersMean(region, s, Pulsing(i, mishap));
    more := [look, step];
    assert steps + more == steps + [look] + [step];
  }
}
