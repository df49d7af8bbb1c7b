/**
 A FlowSession over whole runs: submitters, lifecycle calls, workers that hold
 prepared work for as long as they like, signals, and a fault in any operation.

 Every run is a list of steps. The history of a run lists the acts that took
 effect; a main result is that the session is the replay of that history.
 */
module SessionRuns {
  import opened SessionTypes
  import opened SessionDisk
  import opened SessionAtomic

  /** What running an event region yields. */
  datatype Outcome = Finished(state: Option<State>, outputs: seq<Output>) | Failed(error: string)

  /** A deterministic region: its result depends on the session state and the event alone. */
  type Region = (State, Event) -> Outcome

  /** Prepared work: the session its snapshot was read from, and the event to run. */
  datatype Work = Work(base: Session, event: Event)

  datatype Step =
    | Look(fault: Fault)
    | Fetch(base: Session, fault: Fault)
    | Settle(work: Work, mishap: Option<string>, fault: Fault)
    | Drop(work: Work, fault: Fault)
    | Pulse(base: Session, signal: Input, mishap: Option<string>, fault: Fault)
    | Offer(input: Input, fault: Fault)
    | Steer(target: Status, fault: Fault)

  datatype Act =
    | Submission(input: Input)
    | Misreading(input: Input)
    | Movement(target: Status)
    | Commitment(mishap: Option<string>)
    | Cancellation
    | Passage
    | Pulsing(signal: Input, mishap: Option<string>)

  datatype System = System(disk: Disk, seen: set<Session>, works: set<Work>, acts: seq<Act>)

  const START: System := System(Clean(FRESH), {}, {}, [])

  // ---------------------------------------------------------------- steps

  /** A mishap stands for a cancelled context, a timeout or any other failure of the run. */
  function Ran(region: Region, state: State, e: Event, mishap: Option<string>): Outcome {
    if mishap.Some? then Failed(mishap.value) else region(state, e)
  }

  function SignalEvent(i: Input): Event {
    InputEvent(i, 0, 0)
  }

  function OutputsOf(o: Outcome): seq<Output> {
    if o.Finished? then o.outputs else []
  }

  function StateOf(o: Outcome): Option<State> {
    if o.Finished? then o.state else None
  }

  function ErrorOf(o: Outcome): string {
    if o.Finished? then "" else o.error
  }

  function OpOf(region: Region, step: Step): Op {
    match step
    case Look(_) => Load
    case Fetch(_, _) => Load
    case Settle(w, mishap, _) =>
      if w.event.source == GODEX then Checkpoint(w.event.sequence, w.base.generation)
      else
        var o := Ran(region, w.base.state, w.event, mishap);
        Commit(w.event.sequence, w.base.generation, w.event.kind, OutputsOf(o), StateOf(o), ErrorOf(o))
    case Drop(w, _) => Cancel(w.event.sequence, w.base.generation, w.event.kind)
    case Pulse(b, i, mishap, _) =>
      var o := Ran(region, b.state, SignalEvent(i), mishap);
      Signal(b.stateVersion, b.generation, OutputsOf(o), StateOf(o), ErrorOf(o))
    case Offer(i, _) => Submit(i)
    case Steer(target, _) => Transition(target)
  }

  /** Work and signals come from sessions that a load has returned; nothing else limits them. */
  predicate Enabled(s: System, step: Step) {
    match step
    case Fetch(b, _) => b in s.seen && b.status == Active
    case Settle(w, _, _) => w in s.works
    case Drop(w, _) => w in s.works && w.event.source != GODEX
    case Pulse(b, _, _, _) => b in s.seen && |b.journal| <= b.processed
    case _ => true
  }

  /** The first journal event after `after`, as the journal scan of a prepare finds it. */
  function FirstAfter(log: seq<Event>, after: nat): Option<Event>
    decreases |log|
  {
    if log == [] then None
    else if log[0].sequence > after then Some(log[0])
    else FirstAfter(log[1..], after)
  }

  function Hand(s: System, step: Step, d: Disk): System {
    match step
    case Look(_) => if Consistent(d) then s.(seen := s.seen + {Abs(d)}) else s
    case Fetch(b, _) =>
      var e := FirstAfter(d.log, b.processed);
      if e.Some? && e.value.sequence == b.processed + 1 then s.(works := s.works + {Work(b, e.value)}) else s
    case _ => s
  }

  /** The act by which a step took the session from `a` to `a'`. */
  function ActOf(step: Step, a: Session, a': Session): Act {
    match step
    case Settle(w, mishap, _) => if w.event.source == GODEX then Passage else Commitment(mishap)
    case Drop(_, _) => Cancellation
    case Pulse(_, i, mishap, _) => Pulsing(i, mishap)
    case Offer(i, _) => if a' == Submitted(a, i) then Submission(i) else Misreading(i)
    case Steer(target, _) => Movement(target)
    case _ => Passage
  }

  /** The disk after an operation that a fault may stop. */
  function After(d: Disk, op: Op, f: Fault): (d': Disk)
    requires Consistent(d)
    ensures Consistent(d') && Abs(d') in Possible(Abs(d), op)
  {
    CrashAtomicity(d, op, f);
    Interrupt(d, OpPlan(d, op).ios, f)
  }

  function Remember(acts: seq<Act>, step: Step, a: Session, a': Session): seq<Act> {
    if a == a' then acts else acts + [ActOf(step, a, a')]
  }

  /** One step of the system. */
  function Next(region: Region, s: System, step: Step): (s': System)
    requires Consistent(s.disk)
    ensures Consistent(s'.disk)
  {
    if !Enabled(s, step) then s
    else
      var op := OpOf(region, step);
      var d := After(s.disk, op, step.fault);
      var moved := s.(disk := d, acts := Remember(s.acts, step, Abs(s.disk), Abs(d)));
      if step.fault.after >= |OpPlan(s.disk, op).ios| then Hand(moved, step, d) else moved
  }

  /** The system after a run from a newly created session. */
  function Run(region: Region, steps: seq<Step>): (s: System)
    ensures Consistent(s.disk)
    decreases |steps|
  {
    if steps == [] then
      CleanRoundTrip(FRESH);
      START
    else Next(region, Run(region, steps[..|steps| - 1]), steps[|steps| - 1])
  }

  // ---------------------------------------------------------------- replay

  /** Whether an act was possible on the session; the event handled is always the next one in order. */
  predicate Legal(region: Region, s: Session, act: Act) {
    match act
    case Submission(i) => SubmitAccepted(s, i)
    case Misreading(i) => SubmitAccepted(s, i) && LifecycleStatus(i.kind).Some?
    case Movement(target) => MoveAccepted(s, target)
    case Commitment(mishap) =>
      && s.status == Active && s.processed < |s.journal| && s.journal[s.processed].source != GODEX
      && Fits(OutputsOf(Ran(region, s.state, s.journal[s.processed], mishap)))
    case Cancellation => s.status == Active && s.processed < |s.journal| && s.journal[s.processed].source != GODEX
    case Passage => s.status == Active && s.processed < |s.journal| && s.journal[s.processed].source == GODEX
    case Pulsing(i, mishap) =>
      && s.status == Active && s.processed == |s.journal|
      && FitsLatest(OutputsOf(Ran(region, s.state, SignalEvent(i), mishap)))
  }

  /** The effect of an act on the session; it names no worker, generation or disk. */
  function Redo(region: Region, s: Session, act: Act): Session
    requires Legal(region, s, act)
  {
    match act
    case Submission(i) => Submitted(s, i)
    case Misreading(i) => Misread(s, i)
    case Movement(target) => Moved(s, target)
    case Commitment(mishap) =>
      var e := s.journal[s.processed];
      var o := Ran(region, s.state, e, mishap);
      Committed(s, e.kind, OutputsOf(o), StateOf(o), ErrorOf(o))
    case Cancellation => Dropped(s, s.journal[s.processed].kind)
    case Passage => Passed(s)
    case Pulsing(i, mishap) =>
      var o := Ran(region, s.state, SignalEvent(i), mishap);
      Signalled(s, OutputsOf(o), StateOf(o), ErrorOf(o))
  }

  /** The session reached by redoing the acts one after another, if each was legal. */
  function Replay(region: Region, acts: seq<Act>): Option<Session>
    decreases |acts|
  {
    if acts == [] then Some(FRESH)
    else
      var before := Replay(region, acts[..|acts| - 1]);
      if before.Some? && Legal(region, before.value, acts[|acts| - 1])
      then Some(Redo(region, before.value, acts[|acts| - 1]))
      else None
  }

  // ---------------------------------------------------------------- fencing

  /**
   `b` is an earlier form of `a`. The generation pins down what a worker reads,
   and generation and state version together pin down the whole session.
   */
  predicate Precedes(b: Session, a: Session) {
    && b.generation <= a.generation
    && b.stateVersion <= a.stateVersion
    && b.processed <= a.processed
    && b.journal <= a.journal
    && (b.generation == a.generation ==> b.status == a.status && b.state == a.state && b.processed == a.processed)
    && (b.generation == a.generation && b.stateVersion == a.stateVersion ==> b == a)
  }

  lemma {:induction false} PrecedesTransitive(c: Session, b: Session, a: Session)
    requires Precedes(c, b) && Precedes(b, a)
    ensures Precedes(c, a)
  {
  }

  lemma {:induction false} EveryOutcomeFollows(s: Session, op: Op, t: Session)
    requires Sound(s) && t in Possible(s, op)
    ensures Precedes(s, t)
  {
    hide LifecycleStatus, HashText, Fits;
  }

  /** What holds of the work that workers hold. */
  predicate Prepared(s: System, a: Session, w: Work) {
    && w.base in s.seen
    && w.base.status == Active
    && w.base.processed < |a.journal|
    && w.event == a.journal[w.base.processed]
    && w.event.sequence == w.base.processed + 1
  }

  ghost predicate Invariant(region: Region, s: System) {
    && Consistent(s.disk)
    && (forall b | b in s.seen :: Precedes(b, Abs(s.disk)))
    && (forall w | w in s.works :: Prepared(s, Abs(s.disk), w))
    && Replay(region, s.acts) == Some(Abs(s.disk))
  }

  /** A worker's result took effect: the worker's snapshot agrees with the session on what the run read. */
  lemma {:induction false} WorkerExplains(region: Region, s: System, step: Step, t: Session)
    requires Invariant(region, s) && Enabled(s, step) && (step.Settle? || step.Drop?)
    requires t in Possible(Abs(s.disk), OpOf(region, step)) && t != Abs(s.disk)
    ensures var act := ActOf(step, Abs(s.disk), t);
            Legal(region, Abs(s.disk), act) && t == Redo(region, Abs(s.disk), act)
  {
    hide LifecycleStatus, HashText, Fits, FitsLatest, Consistent, Abs, Replay, Submitted, Moved, Misread,
         SubmitAccepted,
         MoveAccepted, Signalled, SignalAccepted;
    var a := Abs(s.disk);
    assert Precedes(step.work.base, a) && Prepared(s, a, step.work);
  }

  /** A signal took effect: the snapshot it ran on is the session. */
  lemma {:induction false} SignalExplains(region: Region, s: System, step: Step, t: Session)
    requires Invariant(region, s) && Enabled(s, step) && step.Pulse?
    requires t in Possible(Abs(s.disk), OpOf(region, step)) && t != Abs(s.disk)
    ensures var act := ActOf(step, Abs(s.disk), t);
            Legal(region, Abs(s.disk), act) && t == Redo(region, Abs(s.disk), act)
  {
    hide LifecycleStatus, HashText, Fits, FitsLatest, Consistent, Abs, Replay, Submitted, Moved, Misread,
         SubmitAccepted,
         MoveAccepted, Committed, Dropped, Passed;
    assert Precedes(step.base, Abs(s.disk));
  }

  /** A submission or a transition took effect, or a submission was misread. */
  lemma {:induction false} CallerExplains(region: Region, a: Session, step: Step, t: Session)
    requires step.Offer? || step.Steer? || step.Look? || step.Fetch?
    requires t in Possible(a, OpOf(region, step)) && t != a
    ensures var act := ActOf(step, a, t);
            Legal(region, a, act) && t == Redo(region, a, act)
  {
    hide LifecycleStatus, HashText, Fits, FitsLatest, Submitted, Moved, Misread, SubmitAccepted, MoveAccepted,
         Signalled, Committed, Dropped, Passed;
  }

  /** The step a session made is the redo of the act that the history records for it. */
  lemma {:induction false} ActExplains(region: Region, s: System, step: Step, t: Session)
    requires Invariant(region, s) && Enabled(s, step)
    requires t in Possible(Abs(s.disk), OpOf(region, step)) && t != Abs(s.disk)
    ensures var act := ActOf(step, Abs(s.disk), t);
            Legal(region, Abs(s.disk), act) && t == Redo(region, Abs(s.disk), act)
  {
    hide Replay, Precedes, Prepared, Enabled, Possible, OpOf, Abs, Consistent, ActOf, Legal, Redo;
    match step
    case Settle(_, _, _) => WorkerExplains(region, s, step, t);
    case Drop(_, _) => WorkerExplains(region, s, step, t);
    case Pulse(_, _, _, _) => SignalExplains(region, s, step, t);
    case _ => CallerExplains(region, Abs(s.disk), step, t);
  }

  // ---------------------------------------------------------------- the invariant of every run

  lemma {:induction false} ReplayExtends(region: Region, acts: seq<Act>, act: Act, a: Session)
    requires Replay(region, acts) == Some(a) && Legal(region, a, act)
    ensures Replay(region, acts + [act]) == Some(Redo(region, a, act))
  {
    hide Legal, Redo;
    assert (acts + [act])[..|acts|] == acts;
  }

  /** The disk and history part of a step keep the invariant. */
  lemma {:induction false} MoveKeeps(region: Region, s: System, step: Step)
    requires Invariant(region, s) && Enabled(s, step)
    ensures var d := After(s.disk, OpOf(region, step), step.fault);
            Invariant(region, s.(disk := d, acts := Remember(s.acts, step, Abs(s.disk), Abs(d))))
  {
    hide Consistent, Abs, After, Possible, OpOf, Legal, Redo, ActOf, Replay;
    var a := Abs(s.disk);
    var op := OpOf(region, step);
    var d := After(s.disk, op, step.fault);
    var t := Abs(d);
    AbsSound(s.disk);
    EveryOutcomeFollows(a, op, t);
    var s' := s.(disk := d, acts := Remember(s.acts, step, a, t));
    forall b | b in s'.seen ensures Precedes(b, t) {
      PrecedesTransitive(b, a, t);
    }
    forall w | w in s'.works ensures Prepared(s', t, w) {
      assert Prepared(s, a, w);
    }
    if t != a {
      ActExplains(region, s, step, t);
      ReplayExtends(region, s.acts, ActOf(step, a, t), a);
    }
  }

  /** In an unbroken journal the scan of a prepare finds the next event in order. */
  lemma {:induction false} ScanFindsNext(log: seq<Event>, base: nat, after: nat)
    requires forall i | 0 <= i < |log| :: log[i].sequence == base + i + 1
    requires base <= after
    ensures FirstAfter(log, after) == if after < base + |log| then Some(log[after - base]) else None
    decreases |log|
  {
    if log != [] && base < after {
      ScanFindsNext(log[1..], base + 1, after);
    }
  }

  lemma {:induction false} LoadEndsClean(d: Disk, f: Fault)
    requires Consistent(d) && f.after >= |OpPlan(d, Load).ios|
    ensures After(d, Load, f) == Clean(Abs(d))
  {
    hide Consistent, Abs, OpPlan;
    OperationCompletes(d, Load);
    InterruptComplete(d, OpPlan(d, Load).ios, f);
  }

  lemma {:induction false} StepKeepsInvariant(region: Region, s: System, step: Step)
    requires Invariant(region, s)
    ensures Invariant(region, Next(region, s, step))
  {
    hide Consistent, Abs, After, Replay, OpPlan, Remember;
    if Enabled(s, step) {
      MoveKeeps(region, s, step);
      var op := OpOf(region, step);
      var d := After(s.disk, op, step.fault);
      var moved := s.(disk := d, acts := Remember(s.acts, step, Abs(s.disk), Abs(d)));
      if step.fault.after >= |OpPlan(s.disk, op).ios| {
        if step.Look? {
          assert Precedes(Abs(d), Abs(d));
        } else if step.Fetch? {
          LoadEndsClean(s.disk, step.fault);
          AbsSound(s.disk);
          CleanRoundTrip(Abs(s.disk));
          ScanFindsNext(d.log, 0, step.base.processed);
          assert Abs(d) == Abs(s.disk) && d.log == Abs(d).journal;
        }
      }
    }
  }

  /** Every run, whatever its interleaving and faults, keeps the invariant. */
  lemma {:induction false} EveryRun(region: Region, steps: seq<Step>)
    ensures Invariant(region, Run(region, steps))
    decreases |steps|
  {
    if steps == [] {
      CleanRoundTrip(FRESH);
    } else {
      EveryRun(region, steps[..|steps| - 1]);
      StepKeepsInvariant(region, Run(region, steps[..|steps| - 1]), steps[|steps| - 1]);
    }
  }
}
