/**
 What each operation does to the session that a disk stands for, field by field
 and case by case, said without the functions that define the operations.
 */
module SessionContracts {
  import opened SessionTypes
  import opened SessionDisk
  import opened SessionAtomic

  /** The session after an uninterrupted operation. */
  function EndOf(d: Disk, op: Op): Session
    requires Consistent(d)
  {
    OperationCompletes(d, op);
    Abs(PerformAll(d, OpPlan(d, op).ios))
  }

  function AnswerTo(d: Disk, op: Op): Reply {
    OpPlan(d, op).reply
  }

  // ---------------------------------------------------------------- transitions

  /** The moves that a lifecycle call may make. */
  predicate IsMove(from: Status, to: Status) {
    || (from == Active && to == Paused)
    || (from == Paused && to == Active)
    || (from == Active && to == Completed) || (from == Paused && to == Completed)
    || (from == Active && to == Canceled) || (from == Paused && to == Canceled)
  }

  function MoveName(to: Status): string {
    match to
    case Active => "session.resumed"
    case Paused => "session.paused"
    case Completed => "session.completed"
    case Canceled => "session.canceled"
  }

  /**
   A transition answers Ok and reaches its target exactly for the six moves, or when the session is
   there already; everything else is a conflict that changes nothing.
   */
  lemma {:induction false} TransitionContract(d: Disk, to: Status)
    requires Consistent(d)
    ensures var s := Abs(d);
            var t := EndOf(d, Transition(to));
            && (s.status == to ==> AnswerTo(d, Transition(to)) == Ok && t == s)
            && (IsMove(s.status, to) ==>
                  && AnswerTo(d, Transition(to)) == Ok
                  && t == s.(status := to,
                             journal := s.journal + [Event("godex", 0, |s.journal| + 1, s.stateVersion + 1,
                                                           MoveName(to), "", "", "{}")],
                             stateVersion := s.stateVersion + 1,
                             generation := s.generation + 1,
                             processed := if to == Completed || to == Canceled then |s.journal| + 1 else s.processed))
            && (s.status != to && !IsMove(s.status, to) ==> AnswerTo(d, Transition(to)) == Rejected(Conflict) && t == s)
  {
    hide OpPlan, Consistent, Abs, Possible;
    OperationCompletes(d, Transition(to));
  }

  /** Pausing and resuming an active session leaves two journal events and nothing else behind. */
  lemma {:induction false} PauseThenResume(d: Disk)
    requires Consistent(d) && Abs(d).status == Active
    ensures var d1 := PerformAll(d, OpPlan(d, Transition(Paused)).ios);
            && Consistent(d1)
            && AnswerTo(d, Transition(Paused)) == Ok && AnswerTo(d1, Transition(Active)) == Ok
            && var s, t := Abs(d), EndOf(d1, Transition(Active));
               && t.status == Active && t.state == s.state && t.cursors == s.cursors && t.processed == s.processed
               && |t.journal| == |s.journal| + 2 && s.journal <= t.journal && t.generation == s.generation + 2
  {
    hide OpPlan, Consistent, Abs, MoveName;
    var d1 := PerformAll(d, OpPlan(d, Transition(Paused)).ios);
    OperationCompletes(d, Transition(Paused));
    TransitionContract(d, Paused);
    TransitionContract(d1, Active);
  }

  // ---------------------------------------------------------------- submissions

  /** The event that keeps a submission. */
  function Kept(i: Input, sequence: nat, stateVersion: nat): Event {
    Event(i.source, i.sourceSeq, sequence, stateVersion, i.kind, i.correlation, i.occurredAt, i.payload)
  }

  function HashOf(i: Input): string {
    i.kind + "\0" + i.correlation + "\0" + i.occurredAt + "\0" + i.payload
  }

  /** A numbered submission whose number its source has used already. */
  predicate NumberUsed(s: Session, i: Input) {
    i.sourceSeq > 0 && i.source in s.cursors && i.sourceSeq <= s.cursors[i.source].sourceSeq
  }

  predicate SameAsLatest(s: Session, i: Input) {
    && i.sourceSeq > 0 && i.source in s.cursors
    && i.sourceSeq == s.cursors[i.source].sourceSeq && HashOf(i) == s.cursors[i.source].hash
  }

  /** The answer to a submission, case by case in the order of the checks. */
  function SubmitAnswer(s: Session, i: Input): Reply {
    if i.source == "godex" then Rejected(ReservedSource)
    else if SameAsLatest(s, i) then Receipt(s.cursors[i.source].eventSeq, true)
    else if NumberUsed(s, i) || s.status != Active then Rejected(Conflict)
    else if |s.journal| - s.processed >= 256 then Rejected(PendingLimit)
    else if i.source !in s.cursors && |s.cursors| >= 128 then Rejected(Conflict)
    else Receipt(|s.journal| + 1, false)
  }

  /** A submission is answered by these checks, and stored exactly as given when it gets a new receipt. */
  lemma {:induction false} SubmitContract(d: Disk, i: Input)
    requires Consistent(d)
    ensures var s := Abs(d);
            && AnswerTo(d, Submit(i)) == SubmitAnswer(s, i)
            && EndOf(d, Submit(i)) ==
               if SubmitAnswer(s, i) != Receipt(|s.journal| + 1, false) then s
               else s.(journal := s.journal + [Kept(i, |s.journal| + 1, s.stateVersion + 1)],
                       stateVersion := s.stateVersion + 1,
                       cursors := if i.sourceSeq == 0 then s.cursors
                                  else s.cursors[i.source := Cursor(i.sourceSeq, |s.journal| + 1, HashOf(i))])
  {
    hide OpPlan, Consistent, Abs, LifecycleStatus;
    OperationCompletes(d, Submit(i));
  }

  /** The submission that an event records. */
  function InputOf(e: Event): Input {
    Input(e.source, e.sourceSeq, e.kind, e.correlation, e.occurredAt, e.payload)
  }

  /**
   Whatever fault stops a submission: nothing happened, or the last journal event is the input as it
   was given, numbered or not.
   */
  lemma {:induction false} SubmissionIsKept(d: Disk, i: Input, f: Fault)
    requires Consistent(d)
    ensures var d' := Interrupt(d, OpPlan(d, Submit(i)).ios, f);
            && Consistent(d')
            && (Abs(d') == Abs(d) ||
                var j := Abs(d').journal;
                && |j| == |Abs(d).journal| + 1 && Abs(d).journal <= j
                && InputOf(j[|j| - 1]) == i && j[|j| - 1].sequence == |j|)
  {
    hide OpPlan, Consistent, Abs, LifecycleStatus, HashText;
    CrashAtomicity(d, Submit(i), f);
  }

  // ---------------------------------------------------------------- workers

  /** A result for event `n` at that generation is on time. */
  predicate OnTime(s: Session, n: nat, generation: nat) {
    s.generation == generation && s.status == Active && n == s.processed + 1 && n <= |s.journal|
  }

  function LateAnswer(s: Session, generation: nat): Reply {
    if s.generation != generation then Rejected(StaleWork) else Rejected(Conflict)
  }

  lemma {:induction false} CheckpointContract(d: Disk, n: nat, generation: nat)
    requires Consistent(d)
    ensures var s := Abs(d);
            var op := Checkpoint(n, generation);
            && AnswerTo(d, op) == (if OnTime(s, n, generation) then Ok else LateAnswer(s, generation))
            && EndOf(d, op) == if OnTime(s, n, generation) then s.(processed := n, generation := generation + 1) else s
  {
    hide OpPlan, Consistent, Abs;
    OperationCompletes(d, Checkpoint(n, generation));
  }

  lemma {:induction false} CancelContract(d: Disk, n: nat, generation: nat, kind: string)
    requires Consistent(d)
    ensures var s := Abs(d);
            var op := Cancel(n, generation, kind);
            && AnswerTo(d, op) == Settled(OnTime(s, n, generation))
            && EndOf(d, op) ==
               if !OnTime(s, n, generation) then s
               else s.(processed := n, stateVersion := s.stateVersion + 1, generation := generation + 1,
                       lastError := "", lastKind := kind)
  {
    hide OpPlan, Consistent, Abs;
    OperationCompletes(d, Cancel(n, generation, kind));
  }

  /** `journal` continues `before` with one event for each output, in order and with its own content. */
  predicate Continues(before: seq<Event>, journal: seq<Event>, made: seq<Output>, stateVersion: nat) {
    && |journal| == |before| + |made| && before <= journal
    && forall i | 0 <= i < |made| ::
         journal[|before| + i] == Event("godex", 0, |before| + 1 + i, stateVersion + 1 + i, "session.output",
                                        made[i].correlation, "", made[i].payload)
  }

  function Sum(sizes: seq<nat>): nat {
    if sizes == [] then 0 else sizes[0] + Sum(sizes[1..])
  }

  /** Sizes of at most 64 KiB each and 64 KiB together. */
  predicate Small(sizes: seq<nat>) {
    (forall n | n in sizes :: n <= 65536) && Sum(sizes) <= 65536
  }

  function PayloadSizes(made: seq<Output>): (sizes: seq<nat>)
    ensures |sizes| == |made| && forall i | 0 <= i < |made| :: sizes[i] == |made[i].payload|
  {
    seq(|made|, i requires 0 <= i < |made| => |made[i].payload|)
  }

  function LatestSizes(made: seq<Output>): (sizes: seq<nat>)
    ensures |sizes| == |made| && forall i | 0 <= i < |made| :: sizes[i] == made[i].latestBytes
  {
    seq(|made|, i requires 0 <= i < |made| => made[i].latestBytes)
  }

  lemma {:induction false} SumAppend(sizes: seq<nat>, n: nat)
    ensures Sum(sizes + [n]) == Sum(sizes) + n
    decreases |sizes|
  {
    if sizes == [] {
      assert [] + [n] == [n] && [n][1..] == [];
    } else {
      assert (sizes + [n])[1..] == sizes[1..] + [n];
      SumAppend(sizes[1..], n);
    }
  }

  lemma {:induction false} TotalsAreSums(made: seq<Output>)
    ensures TotalBytes(made) == Sum(PayloadSizes(made)) && LatestTotal(made) == Sum(LatestSizes(made))
    decreases |made|
  {
    hide Sum;
    if made == [] {
      NoSum();
      assert PayloadSizes(made) == [] && LatestSizes(made) == [];
    } else {
      var front, last := made[..|made| - 1], made[|made| - 1];
      TotalsAreSums(front);
      assert PayloadSizes(made) == PayloadSizes(front) + [|last.payload|];
      assert LatestSizes(made) == LatestSizes(front) + [last.latestBytes];
      SumAppend(PayloadSizes(front), |last.payload|);
      SumAppend(LatestSizes(front), last.latestBytes);
    }
  }

  lemma NoSum()
    ensures Sum([]) == 0
  {
  }

  lemma {:induction false} EachIsSmall(made: seq<Output>)
    ensures (forall o | o in made :: |o.payload| <= 65536) <==> forall n | n in PayloadSizes(made) :: n <= 65536
    ensures (forall o | o in made :: o.latestBytes <= 65536) <==> forall n | n in LatestSizes(made) :: n <= 65536
  {
    var p, l := PayloadSizes(made), LatestSizes(made);
    assert forall i | 0 <= i < |made| :: p[i] in p && made[i] in made;
    assert forall i | 0 <= i < |made| :: l[i] in l && made[i] in made;
  }

  /** The size limits, in bytes. */
  lemma {:induction false} FitsIsSmall(made: seq<Output>)
    ensures Fits(made) <==> Small(PayloadSizes(made))
    ensures FitsLatest(made) <==> Small(LatestSizes(made))
  {
    hide Sum, TotalBytes, LatestTotal, PayloadSizes, LatestSizes;
    TotalsAreSums(made);
    EachIsSmall(made);
  }

  /** A result is installed exactly when it is on time and its outputs fit; its outputs are journaled as they are. */
  lemma {:induction false} CommitContract(d: Disk, n: nat, generation: nat, kind: string, made: seq<Output>,
                                          state: Option<State>, error: string)
    requires Consistent(d)
    ensures var s := Abs(d);
            var op := Commit(n, generation, kind, made, state, error);
            var t := EndOf(d, op);
            && AnswerTo(d, op) == (if !OnTime(s, n, generation) then LateAnswer(s, generation)
                                else if Small(PayloadSizes(made)) then Ok else Rejected(TooLarge))
            && (AnswerTo(d, op) != Ok ==> t == s)
            && (AnswerTo(d, op) == Ok ==>
                  && Continues(s.journal, t.journal, made, s.stateVersion + 1)
                  && t == s.(journal := t.journal, state := if state.Some? then state.value else s.state,
                             processed := n, stateVersion := s.stateVersion + 1 + |made|,
                             generation := generation + 1, lastError := error, lastKind := kind))
  {
    hide OpPlan, Consistent, Abs, Fits, Small;
    FitsIsSmall(made);
    var op := Commit(n, generation, kind, made, state, error);
    OperationCompletes(d, op);
  }

  /** A signal is installed exactly on the very session it ran on, quiescent and active, if its outputs fit. */
  lemma {:induction false} SignalContract(d: Disk, stateVersion: nat, generation: nat, made: seq<Output>,
                                          state: Option<State>, error: string)
    requires Consistent(d)
    ensures var s := Abs(d);
            var op := Signal(stateVersion, generation, made, state, error);
            && AnswerTo(d, op) == (if s.status != Active then Rejected(Conflict)
                                else if |s.journal| > s.processed then Rejected(PendingEvents)
                                else if s.stateVersion != stateVersion then Rejected(StaleSignal)
                                else if s.generation != generation then Rejected(StaleSignal)
                                else if Small(LatestSizes(made)) then Ok else Rejected(TooLarge))
            && EndOf(d, op) ==
               if AnswerTo(d, op) != Ok then s
               else s.(state := if state.Some? then state.value else s.state, stateVersion := stateVersion + 1,
                       generation := generation + 1, lastError := error, signalOutputs := made)
  {
    hide OpPlan, Consistent, Abs, FitsLatest, Small;
    FitsIsSmall(made);
    var op := Signal(stateVersion, generation, made, state, error);
    OperationCompletes(d, op);
    AbsSound(d);
  }

  // ---------------------------------------------------------------- loading old records

  /** What a load makes of counters that older versions of the program left out of order. */
  function InOrder(r: Record): Record {
    r.(generation := if r.generation == 0 then 1 else r.generation,
       processed := if r.processed > r.last then r.last else r.processed,
       stateVersion := if r.stateVersion < r.last then r.last else r.stateVersion)
  }

  /** A snapshot that is level with its journal and has no outbox is loaded with its counters put in order. */
  lemma {:induction false} OldRecordIsLoaded(d: Disk)
    requires d.tail == NoTail && d.snap.pending == [] && LastSeq(d.log) == d.snap.last
    ensures LoadPlan(d).reply == Ok
    ensures PerformAll(d, LoadPlan(d).ios) == d.(snap := InOrder(d.snap))
  {
  }
}
