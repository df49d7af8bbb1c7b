/**
 The simple session that the two files stand for, and the proof that every
 operation is atomic on it whatever fault stops the operation.

 A `Session` has one journal and no outbox, no torn tail and no separate
 sequence counter; each operation changes it in one step.
 */
module SessionAtomic {
  import opened SessionTypes
  import opened SessionDisk

  datatype Session = Session(status: Status, state: State, journal: seq<Event>, processed: nat,
                             stateVersion: nat, generation: nat,
                             lastError: string, lastKind: string, signalOutputs: seq<Output>,
                             cursors: map<string, Cursor>)

  /** A session as `CreateFlowSession` starts it. */
  const FRESH: Session := Session(Active, "{}", [], 0, 0, 1, "", "", [], map[])

  // ---------------------------------------------------------------- atomic operations

  predicate MoveAccepted(s: Session, target: Status) {
    s.status != target && MayMove(s.status, target)
  }

  function Moved(s: Session, target: Status): Session {
    s.(status := target,
       journal := s.journal + [LifecycleEvent(target, |s.journal| + 1, s.stateVersion + 1)],
       stateVersion := s.stateVersion + 1,
       generation := s.generation + 1,
       processed := if Ended(target) then |s.journal| + 1 else s.processed)
  }

  predicate IsResubmission(s: Session, i: Input) {
    && i.sourceSeq > 0
    && i.source in s.cursors
    && i.sourceSeq == s.cursors[i.source].sourceSeq
    && HashText(i.kind, i.correlation, i.occurredAt, i.payload) == s.cursors[i.source].hash
  }

  predicate SourceAdvances(s: Session, i: Input) {
    i.sourceSeq > 0 && i.source in s.cursors ==> i.sourceSeq > s.cursors[i.source].sourceSeq
  }

  predicate SubmitAccepted(s: Session, i: Input) {
    && i.source != GODEX
    && SourceAdvances(s, i)
    && s.status == Active
    && |s.journal| - s.processed < MAX_PENDING
    && (i.source in s.cursors || |s.cursors| < MAX_SOURCES)
  }

  function SubmitEvent(s: Session, i: Input): Event {
    InputEvent(i, |s.journal| + 1, s.stateVersion + 1)
  }

  function Submitted(s: Session, i: Input): Session {
    s.(journal := s.journal + [SubmitEvent(s, i)],
       stateVersion := s.stateVersion + 1,
       cursors := WithCursor(s.cursors, SubmitEvent(s, i)))
  }

  /** An accepted submission whose kind tail recovery takes for a lifecycle change. */
  predicate Ambiguous(s: Session, op: Op) {
    op.Submit? && SubmitAccepted(s, op.input) && LifecycleStatus(op.input.kind).Some?
  }

  /** What recovery makes of an ambiguous submission that crashed before its snapshot. */
  function Misread(s: Session, i: Input): Session
    requires LifecycleStatus(i.kind).Some?
  {
    var status := LifecycleStatus(i.kind).value;
    Submitted(s, i).(status := status,
                     generation := s.generation + 1,
                     processed := if Ended(status) then |s.journal| + 1 else s.processed)
  }

  /** The fence every worker result passes: same generation, active, next sequence in order. */
  predicate Current(s: Session, sequence: nat, generation: nat) {
    && s.generation == generation
    && s.status == Active
    && sequence == s.processed + 1
    && sequence <= |s.journal|
  }

  function Passed(s: Session): Session {
    s.(processed := s.processed + 1, generation := s.generation + 1)
  }

  function Dropped(s: Session, kind: string): Session {
    s.(processed := s.processed + 1, stateVersion := s.stateVersion + 1, generation := s.generation + 1,
       lastError := "", lastKind := kind)
  }

  function NextState(s: Session, state: Option<State>): State {
    if state.Some? then state.value else s.state
  }

  function Committed(s: Session, kind: string, outputs: seq<Output>, state: Option<State>, error: string): Session {
    s.(state := NextState(s, state),
       journal := s.journal + OutputEvents(outputs, |s.journal|, s.stateVersion + 1),
       processed := s.processed + 1,
       stateVersion := s.stateVersion + 1 + |outputs|,
       generation := s.generation + 1,
       lastError := error, lastKind := kind)
  }

  predicate SignalAccepted(s: Session, stateVersion: nat, generation: nat) {
    && s.status == Active
    && |s.journal| == s.processed
    && s.stateVersion == stateVersion
    && s.generation == generation
  }

  function Signalled(s: Session, outputs: seq<Output>, state: Option<State>, error: string): Session {
    s.(state := NextState(s, state), lastError := error,
       stateVersion := s.stateVersion + 1, generation := s.generation + 1, signalOutputs := outputs)
  }

  /** One operation on the simple session. */
  function Apply(s: Session, op: Op): Session {
    match op
    case Load => s
    case Transition(target) => if MoveAccepted(s, target) then Moved(s, target) else s
    case Submit(i) => if SubmitAccepted(s, i) then Submitted(s, i) else s
    case Checkpoint(sequence, generation) => if Current(s, sequence, generation) then Passed(s) else s
    case Cancel(sequence, generation, kind) => if Current(s, sequence, generation) then Dropped(s, kind) else s
    case Commit(sequence, generation, kind, outputs, state, error) =>
      if Current(s, sequence, generation) && Fits(outputs) then Committed(s, kind, outputs, state, error) else s
    case Signal(stateVersion, generation, outputs, state, error) =>
      if SignalAccepted(s, stateVersion, generation) && FitsLatest(outputs)
      then Signalled(s, outputs, state, error)
      else s
  }

  /** The reply of one operation on the simple session. */
  function Answer(s: Session, op: Op): Reply {
    match op
    case Load => Ok
    case Transition(target) => if s.status == target || MoveAccepted(s, target) then Ok else Rejected(Conflict)
    case Submit(i) =>
      if i.source == GODEX then Rejected(ReservedSource)
      else if IsResubmission(s, i) then Receipt(s.cursors[i.source].eventSeq, true)
      else if SubmitAccepted(s, i) then Receipt(|s.journal| + 1, false)
      else if SourceAdvances(s, i) && s.status == Active && |s.journal| - s.processed >= MAX_PENDING
      then Rejected(PendingLimit)
      else Rejected(Conflict)
    case Checkpoint(sequence, generation) =>
      if Current(s, sequence, generation) then Ok
      else Rejected(if s.generation != generation then StaleWork else Conflict)
    case Cancel(sequence, generation, _) => Settled(Current(s, sequence, generation))
    case Commit(sequence, generation, _, outputs, _, _) =>
      if !Current(s, sequence, generation) then Rejected(if s.generation != generation then StaleWork else Conflict)
      else if Fits(outputs) then Ok else Rejected(TooLarge)
    case Signal(stateVersion, generation, outputs, _, _) =>
      if SignalAccepted(s, stateVersion, generation) then (if FitsLatest(outputs) then Ok else Rejected(TooLarge))
      else if s.status != Active then Rejected(Conflict)
      else if |s.journal| > s.processed then Rejected(PendingEvents)
      else Rejected(StaleSignal)
  }

  /** The sessions that a stopped operation may leave: all of it, none of it, or a misread submission. */
  ghost function Possible(s: Session, op: Op): set<Session> {
    {s, Apply(s, op)} + (if Ambiguous(s, op) then {Misread(s, op.input)} else {})
  }

  // ---------------------------------------------------------------- abstraction

  /** Journal entry `i` carries sequence `i + 1`: no gap and no duplicate. */
  predicate Numbered(log: seq<Event>) {
    forall i | 0 <= i < |log| :: log[i].sequence == i + 1
  }

  /** The outbox holds the top sequences up to `last`; the journal has reached some point in it. */
  predicate OutboxShape(r: Record, m: seq<Event>) {
    var k := |r.pending|;
    && k <= r.last
    && r.last - k <= |m| <= r.last
    && (forall i | 0 <= i < k :: r.pending[i].sequence == r.last - k + 1 + i)
    && (forall j | r.last - k <= j < |m| :: m[j] == r.pending[j - (r.last - k)])
  }

  /** The shape of every disk state that a fault can leave behind. */
  predicate Consistent(d: Disk) {
    var m := Mended(d);
    var r := d.snap;
    && r.generation >= 1
    && r.processed <= r.last <= r.stateVersion
    && Numbered(m)
    && if r.pending == []
       then |m| == r.last || (|m| == r.last + 1 && m[r.last].stateVersion == r.stateVersion + 1)
       else OutboxShape(r, m)
  }

  /** The outbox entries that have not reached the journal. */
  function Missing(d: Disk): seq<Event>
    requires Consistent(d)
  {
    if d.snap.pending == [] then []
    else d.snap.pending[|d.snap.pending| - (d.snap.last - |Mended(d)|)..]
  }

  /** The snapshot with the journal event it may not know about folded in. */
  function CaughtUp(d: Disk): Record
    requires Consistent(d)
  {
    if d.snap.pending == [] && |Mended(d)| > d.snap.last then Recover(d.snap, Mended(d)[d.snap.last])
    else d.snap
  }

  /** The session that a disk stands for. */
  function Abs(d: Disk): Session
    requires Consistent(d)
  {
    var r := CaughtUp(d);
    Session(r.status, r.state, Mended(d) + Missing(d), r.processed, r.stateVersion, r.generation,
            r.lastError, r.lastKind, r.signalOutputs, r.cursors)
  }

  function RecordOf(s: Session): Record {
    Record(s.status, s.state, |s.journal|, s.processed, s.stateVersion, s.generation,
           s.lastError, s.lastKind, s.signalOutputs, [], s.cursors)
  }

  /** The disk of a session on which no operation is unfinished. */
  function Clean(s: Session): Disk {
    Disk(RecordOf(s), s.journal, NoTail)
  }

  /** What every session satisfies for its clean disk to be consistent. */
  predicate Sound(s: Session) {
    && s.generation >= 1
    && s.processed <= |s.journal| <= s.stateVersion
    && Numbered(s.journal)
  }

  lemma {:induction false} CleanRoundTrip(s: Session)
    requires Sound(s)
    ensures Consistent(Clean(s)) && Abs(Clean(s)) == s
  {
    assert s.journal + [] == s.journal;
  }

  lemma {:induction false} AbsSound(d: Disk)
    requires Consistent(d)
    ensures Sound(Abs(d))
  {
    var r := d.snap;
    if r.pending != [] {
      var k := |r.pending|;
      forall i | 0 <= i < |Abs(d).journal|
        ensures Abs(d).journal[i].sequence == i + 1
      {
        if i >= |Mended(d)| {
          assert Abs(d).journal[i] == r.pending[i - (r.last - k)];
        }
      }
    }
  }

  // ---------------------------------------------------------------- fault points

  /** Every point at which a fault can stop the plan leaves a disk that stands for a member of `allowed`. */
  ghost predicate AllPoints(d: Disk, ios: seq<IO>, allowed: set<Session>)
    decreases |ios|
  {
    && Consistent(d) && Abs(d) in allowed
    && (ios != [] ==>
          && (ios[0].Append? ==>
                && Consistent(d.(tail := Torn)) && Abs(d.(tail := Torn)) in allowed
                && Consistent(d.(tail := Unterminated(ios[0].event)))
                && Abs(d.(tail := Unterminated(ios[0].event))) in allowed)
          && AllPoints(Perform(d, ios[0]), ios[1..], allowed))
  }

  lemma {:induction false} PointReached(d: Disk, ios: seq<IO>, f: Fault, allowed: set<Session>)
    requires AllPoints(d, ios, allowed)
    ensures Consistent(Interrupt(d, ios, f)) && Abs(Interrupt(d, ios, f)) in allowed
    decreases |ios|
  {
    hide Consistent, Abs, Perform;
    if ios != [] && f.after > 0 {
      PointReached(Perform(d, ios[0]), ios[1..], f.(after := f.after - 1), allowed);
    }
  }

  lemma {:induction false} PointsConcat(d: Disk, a: seq<IO>, b: seq<IO>, allowed: set<Session>)
    requires AllPoints(d, a, allowed)
    requires AllPoints(PerformAll(d, a), b, allowed)
    ensures AllPoints(d, a + b, allowed)
    decreases |a|
  {
    hide Consistent, Abs, Perform;
    if a == [] {
      assert a + b == b;
    } else {
      assert (a + b)[0] == a[0];
      assert (a + b)[1..] == a[1..] + b;
      PointsConcat(Perform(d, a[0]), a[1..], b, allowed);
    }
  }

  lemma {:induction false} PointsCons(d: Disk, io: IO, rest: seq<IO>, allowed: set<Session>)
    requires Consistent(d) && Abs(d) in allowed
    requires io.Append? ==>
               && Consistent(d.(tail := Torn)) && Abs(d.(tail := Torn)) in allowed
               && Consistent(d.(tail := Unterminated(io.event))) && Abs(d.(tail := Unterminated(io.event))) in allowed
    requires AllPoints(Perform(d, io), rest, allowed)
    ensures AllPoints(d, [io] + rest, allowed)
  {
    hide Consistent, Abs, Perform;
    assert ([io] + rest)[1..] == rest;
  }

  lemma {:induction false} PointsEnd(d: Disk, ios: seq<IO>, allowed: set<Session>)
    requires AllPoints(d, ios, allowed)
    ensures Consistent(PerformAll(d, ios)) && Abs(PerformAll(d, ios)) in allowed
  {
    PointReached(d, ios, Fault(|ios|, Nothing), allowed);
    InterruptComplete(d, ios, Fault(|ios|, Nothing));
  }

  /** Only the snapshot and the repaired journal count. */
  lemma {:induction false} SameMended(d: Disk, d': Disk)
    requires Consistent(d) && d'.snap == d.snap && Mended(d') == Mended(d)
    ensures Consistent(d') && Abs(d') == Abs(d)
  {
  }

  lemma {:induction false} PointsGrow(d: Disk, ios: seq<IO>, small: set<Session>, large: set<Session>)
    requires AllPoints(d, ios, small) && small <= large
    ensures AllPoints(d, ios, large)
    decreases |ios|
  {
    hide Consistent, Abs, Perform;
    if ios != [] {
      PointsGrow(Perform(d, ios[0]), ios[1..], small, large);
    }
  }

  // ---------------------------------------------------------------- loading

  lemma {:induction false} FlushRemainder(pending: seq<Event>, base: nat, last: nat)
    requires forall i | 0 <= i < |pending| :: pending[i].sequence == base + 1 + i
    requires base <= last <= base + |pending|
    ensures FlushFrom(pending, last) == Flush(pending[last - base..], true)
    decreases |pending|
  {
    if pending != [] {
      if base < last {
        FlushRemainder(pending[1..], base + 1, last);
      } else {
        FlushRemainder(pending[1..], base + 1, base + 1);
      }
    }
  }

  /** An append of the first missing outbox entry leaves the session as it was. */
  lemma {:induction false} FlushOne(d: Disk)
    requires Consistent(d) && d.tail == NoTail && Missing(d) != []
    ensures var d' := Perform(d, Append(Missing(d)[0]));
            && Consistent(d') && Abs(d') == Abs(d)
            && Missing(d') == Missing(d)[1..]
  {
    hide CaughtUp, Recover;
    var e := Missing(d)[0];
    var d' := Perform(d, Append(e));
    FlushOneShape(d);
    assert Missing(d') == Missing(d)[1..];
    assert d.log + [e] + Missing(d)[1..] == d.log + Missing(d);
    assert CaughtUp(d') == d.snap == CaughtUp(d) by { NothingToRecover(d); NothingToRecover(d'); }
  }

  lemma {:induction false} NothingToRecover(d: Disk)
    requires Consistent(d) && d.snap.pending != []
    ensures CaughtUp(d) == d.snap
  {
  }

  lemma {:induction false} FlushOneShape(d: Disk)
    requires Consistent(d) && d.tail == NoTail && Missing(d) != []
    ensures Consistent(Perform(d, Append(Missing(d)[0])))
  {
    var r := d.snap;
    var e := Missing(d)[0];
    assert e == r.pending[|d.log| - (r.last - |r.pending|)];
    var log := Perform(d, Append(e)).log;
    assert forall j | 0 <= j < |d.log| :: log[j] == d.log[j];
    assert log[|d.log|] == e;
  }

  lemma {:induction false} FlushTears(d: Disk)
    requires Consistent(d) && d.tail == NoTail && Missing(d) != []
    ensures var e := Missing(d)[0];
            var d' := Perform(d, Append(e));
            && Consistent(d') && Abs(d') == Abs(d) && Missing(d') == Missing(d)[1..]
            && Consistent(d.(tail := Torn)) && Abs(d.(tail := Torn)) == Abs(d)
            && Consistent(d.(tail := Unterminated(e))) && Abs(d.(tail := Unterminated(e))) == Abs(d)
  {
    var e := Missing(d)[0];
    FlushOne(d);
    SameMended(Perform(d, Append(e)), d.(tail := Unterminated(e)));
    SameMended(d, d.(tail := Torn));
  }

  lemma {:induction false} FlushPoints(d: Disk)
    requires Consistent(d) && d.tail == NoTail && d.snap.pending != []
    ensures AllPoints(d, Appends(Missing(d)), {Abs(d)})
    decreases |Missing(d)|
  {
    hide Consistent, Abs, Missing;
    var es := Missing(d);
    if es == [] {
      assert Appends(es) == [];
    } else {
      FlushTears(d);
      FlushPoints(Perform(d, Append(es[0])));
      PointsCons(d, Append(es[0]), Appends(es[1..]), {Abs(d)});
      assert Appends(es) == [Append(es[0])] + Appends(es[1..]);
    }
  }

  /** Clearing an outbox that has reached the journal leaves the session as it was. */
  lemma {:induction false} ClearOutbox(d: Disk)
    requires Consistent(d) && d.snap.pending != [] && Missing(d) == []
    ensures var d' := Perform(d, Replace(d.snap.(pending := [])));
            Consistent(d') && Abs(d') == Abs(d)
  {
    assert |Mended(d)| == d.snap.last;
  }

  lemma {:induction false} FlushIsMissing(d: Disk)
    requires Consistent(d) && d.tail == NoTail && d.snap.pending != []
    ensures FlushFrom(d.snap.pending, LastSeq(d.log)) == Flush(Missing(d), true)
  {
    assert LastSeq(d.log) == |d.log|;
    FlushRemainder(d.snap.pending, d.snap.last - |d.snap.pending|, |d.log|);
  }

  lemma {:induction false} FlushedNothingMissing(d: Disk)
    requires Consistent(d) && d.tail == NoTail && d.snap.pending != []
    requires Consistent(d.(log := d.log + Missing(d)))
    ensures Missing(d.(log := d.log + Missing(d))) == []
  {
    assert |d.log + Missing(d)| == d.snap.last;
  }

  /** The outbox phase of a load: flushes exactly the missing entries and clears the outbox. */
  lemma {:induction false} FlushPhase(d: Disk)
    requires Consistent(d) && d.tail == NoTail && d.snap.pending != []
    ensures var plan := FlushPlan(d.snap, d.log);
            var d' := d.(snap := d.snap.(pending := []), log := d.log + Missing(d));
            && plan.reply == Ok
            && PerformAll(d, plan.ios) == d'
            && AllPoints(d, plan.ios, {Abs(d)})
            && Consistent(d') && Abs(d') == Abs(d)
    ensures FlushFrom(d.snap.pending, LastSeq(d.log)).events == Missing(d)
  {
    hide Consistent, Abs, Missing, FlushFrom;
    var r := d.snap;
    var es := Missing(d);
    FlushIsMissing(d);
    FlushPoints(d);
    PerformAppends(d, es);
    var full := d.(log := d.log + es);
    PointsEnd(d, Appends(es), {Abs(d)});
    FlushedNothingMissing(d);
    ClearOutbox(full);
    var clear := Replace(r.(pending := []));
    PointsCons(full, clear, [], {Abs(d)});
    assert [clear] == [clear] + [];
    PerformAllConcat(d, Appends(es), [clear]);
    PointsConcat(d, Appends(es), [clear], {Abs(d)});
  }

  /** The tail phase of a load: folds in the one event the snapshot may lack. */
  lemma {:induction false} RecoverPhase(d: Disk)
    requires Consistent(d) && d.tail == NoTail && d.snap.pending == []
    ensures var plan := RecoverPlan(d.snap, d.log);
            && plan.reply == Ok
            && PerformAll(d, plan.ios) == Clean(Abs(d))
            && AllPoints(d, plan.ios, {Abs(d)})
    ensures CaughtUp(d) == RecordOf(Abs(d)) && Normalized(CaughtUp(d)) == CaughtUp(d)
  {
    AbsSound(d);
    CleanRoundTrip(Abs(d));
    assert d.log + [] == d.log;
    if |d.log| > d.snap.last {
      assert LastSeq(d.log) == |d.log|;
      assert Perform(d, Replace(CaughtUp(d))) == Clean(Abs(d));
    }
  }

  /** Repairing the tail is the first write of a load and leaves the session as it was. */
  lemma {:induction false} MendPhase(d: Disk)
    requires Consistent(d)
    ensures var mend := MendPlan(d).ios;
            var d1 := d.(log := Mended(d), tail := NoTail);
            && PerformAll(d, mend) == d1 && Consistent(d1) && Abs(d1) == Abs(d)
            && AllPoints(d, mend, {Abs(d)})
            && LoadPlan(d).ios == mend + LoadPlan(d1).ios
            && LoadPlan(d).reply == LoadPlan(d1).reply
  {
    hide Consistent, Abs, LoadPlan;
    var d1 := d.(log := Mended(d), tail := NoTail);
    SameMended(d, d1);
    MendFirst(d);
    assert AllPoints(d1, [], {Abs(d)});
    if !d.tail.NoTail? {
      PointsCons(d, Mend, [], {Abs(d)});
      assert [Mend] + [] == [Mend];
    }
  }

  lemma {:induction false} MendFirst(d: Disk)
    ensures var d1 := d.(log := Mended(d), tail := NoTail);
            LoadPlan(d) == Plan(MendPlan(d).ios + LoadPlan(d1).ios, LoadPlan(d1).reply)
  {
    hide FlushPlan, RecoverPlan, NormalizePlan, Flushed;
    var d1 := d.(log := Mended(d), tail := NoTail);
    assert Flushed(d) == Flushed(d1) && NormalizePlan(d) == NormalizePlan(d1) by { MendFirstParts(d); }
    assert MendPlan(d1).ios == [];
  }

  lemma {:induction false} MendFirstParts(d: Disk)
    ensures var d1 := d.(log := Mended(d), tail := NoTail);
            Flushed(d) == Flushed(d1) && NormalizePlan(d) == NormalizePlan(d1)
  {
    hide FlushFrom, Recover, Normalized;
  }

  /** A load always succeeds, ends on the clean disk, and changes the session at no point on the way. */
  lemma {:induction false} LoadIsStutter(d: Disk)
    requires Consistent(d)
    ensures LoadPlan(d).reply == Ok
    ensures PerformAll(d, LoadPlan(d).ios) == Clean(Abs(d))
    ensures AllPoints(d, LoadPlan(d).ios, {Abs(d)})
  {
    var mend := MendPlan(d).ios;
    var d1 := d.(log := Mended(d), tail := NoTail);
    MendPhase(d);
    LoadMended(d1);
    var rest := LoadPlan(d1).ios;
    PerformAllConcat(d, mend, rest);
    PointsConcat(d, mend, rest, {Abs(d)});
  }

  lemma {:induction false} LoadMended(d: Disk)
    requires Consistent(d) && d.tail == NoTail
    ensures LoadPlan(d).reply == Ok
    ensures PerformAll(d, LoadPlan(d).ios) == Clean(Abs(d))
    ensures AllPoints(d, LoadPlan(d).ios, {Abs(d)})
  {
    hide Consistent, Abs, Missing, LoadPlan, FlushPlan, RecoverPlan, AllPoints;
    var flush := FlushPlan(d.snap, d.log);
    var d' := d.(snap := d.snap.(pending := []), log := d.log + Missing(d));
    FlushOrNot(d);
    RecoverPhase(d');
    LoadParts(d);
    var recover := RecoverPlan(d'.snap, d'.log);
    PerformAllConcat(d, flush.ios, recover.ios);
    PointsConcat(d, flush.ios, recover.ios, {Abs(d)});
  }

  lemma {:induction false} FlushOrNot(d: Disk)
    requires Consistent(d) && d.tail == NoTail
    ensures var plan := FlushPlan(d.snap, d.log);
            var d' := d.(snap := d.snap.(pending := []), log := d.log + Missing(d));
            && plan.reply == Ok
            && PerformAll(d, plan.ios) == d'
            && AllPoints(d, plan.ios, {Abs(d)})
            && Consistent(d') && Abs(d') == Abs(d)
            && Flushed(d) == (d'.snap, d'.log)
  {
    hide Abs;
    if d.snap.pending == [] {
      assert d.(snap := d.snap.(pending := []), log := d.log + Missing(d)) == d;
    } else {
      FlushPhase(d);
    }
  }

  lemma {:induction false} LoadParts(d: Disk)
    requires Consistent(d) && d.tail == NoTail
    ensures var d' := d.(snap := d.snap.(pending := []), log := d.log + Missing(d));
            LoadPlan(d) == Plan(FlushPlan(d.snap, d.log).ios + RecoverPlan(d'.snap, d'.log).ios, Ok)
  {
    hide Abs, FlushPlan, Recover, Missing, AllPoints, OutboxShape, Numbered, Normalized;
    var d' := d.(snap := d.snap.(pending := []), log := d.log + Missing(d));
    FlushOrNot(d);
    RecoverPhase(d');
    assert Opened(d) == d.snap;
    assert NormalizePlan(d) == Plan([], Ok);
  }

  // ---------------------------------------------------------------- acting on a loaded session

  /** What the writes of one operation amount to, started on the clean disk of `s`. */
  ghost predicate Realizes(s: Session, plan: Plan, op: Op) {
    && Sound(Apply(s, op))
    && plan.reply == Answer(s, op)
    && PerformAll(Clean(s), plan.ios) == Clean(Apply(s, op))
    && AllPoints(Clean(s), plan.ios, Possible(s, op))
  }

  lemma {:induction false} NoWrites(s: Session, op: Op)
    requires Sound(s) && Apply(s, op) == s
    ensures Realizes(s, Plan([], Answer(s, op)), op)
  {
    CleanRoundTrip(s);
  }

  lemma {:induction false} OneReplace(s: Session, op: Op)
    requires Sound(s) && Sound(Apply(s, op)) && Apply(s, op).journal == s.journal
    ensures Realizes(s, Plan([Replace(RecordOf(Apply(s, op)))], Answer(s, op)), op)
  {
    var t := Apply(s, op);
    CleanRoundTrip(s);
    CleanRoundTrip(t);
    assert Perform(Clean(s), Replace(RecordOf(t))) == Clean(t);
  }

  /** A journal append followed by its snapshot; `u` is what recovery makes of the append alone. */
  lemma {:induction false} LogThenSnapshot(s: Session, op: Op, e: Event, u: Session)
    requires Sound(s) && Sound(u)
    requires e.sequence == |s.journal| + 1 && e.stateVersion == s.stateVersion + 1
    requires RecordOf(u) == Recover(RecordOf(s), e) && u.journal == s.journal + [e]
    requires Sound(Apply(s, op)) && Apply(s, op).journal == s.journal + [e]
    requires u in Possible(s, op)
    ensures Realizes(s, Plan([Append(e), Replace(RecordOf(Apply(s, op)))], Answer(s, op)), op)
  {
    hide AllPoints, Apply, Sound, Answer, Consistent, Abs;
    var t := Apply(s, op);
    var d := Clean(s);
    CleanRoundTrip(s);
    CleanRoundTrip(t);
    var logged := Perform(d, Append(e));
    LoggedStands(s, e, u);
    SameMended(logged, d.(tail := Unterminated(e)));
    SameMended(d, d.(tail := Torn));
    var snap := Replace(RecordOf(t));
    assert Perform(logged, snap) == Clean(t);
    assert s in Possible(s, op) && t in Possible(s, op);
    assert AllPoints(Clean(t), [], Possible(s, op)) by { NoPoints(Clean(t), Possible(s, op)); }
    PointsCons(logged, snap, [], Possible(s, op));
    assert [snap] + [] == [snap];
    PointsCons(d, Append(e), [snap], Possible(s, op));
    assert [Append(e)] + [snap] == [Append(e), snap];
    PerformAllConcat(d, [Append(e)], [snap]);
  }

  lemma {:induction false} NoPoints(d: Disk, allowed: set<Session>)
    requires Consistent(d) && Abs(d) in allowed
    ensures AllPoints(d, [], allowed)
  {
  }

  lemma {:induction false} LoggedStands(s: Session, e: Event, u: Session)
    requires Sound(s)
    requires e.sequence == |s.journal| + 1 && e.stateVersion == s.stateVersion + 1
    requires RecordOf(u) == Recover(RecordOf(s), e) && u.journal == s.journal + [e]
    ensures var d := Perform(Clean(s), Append(e)); Consistent(d) && Abs(d) == u
  {
    hide Recover;
    var d := Perform(Clean(s), Append(e));
    assert d.log + [] == d.log;
  }

  /** The snapshot that a commit with outputs writes first. */
  function StagedRecord(s: Session, op: Op): Record
    requires op.Commit?
  {
    RecordOf(Committed(s, op.kind, op.outputs, op.state, op.error))
      .(pending := OutputEvents(op.outputs, |s.journal|, s.stateVersion + 1))
  }

  lemma {:induction false} StagedStandsForCommit(s: Session, op: Op)
    requires Sound(s) && op.Commit? && Current(s, op.sequence, op.generation) && op.outputs != []
    ensures var d := Clean(s).(snap := StagedRecord(s, op));
            && Sound(Committed(s, op.kind, op.outputs, op.state, op.error))
            && Consistent(d) && Abs(d) == Committed(s, op.kind, op.outputs, op.state, op.error)
            && d.log + Missing(d) == Abs(d).journal
  {
    var r := StagedRecord(s, op);
    assert Numbered(Committed(s, op.kind, op.outputs, op.state, op.error).journal);
    assert OutboxShape(r, s.journal);
    assert Missing(Clean(s).(snap := r)) == r.pending;
  }

  lemma {:induction false} CommitPlan(s: Session, op: Op)
    requires op.Commit? && Current(s, op.sequence, op.generation) && Fits(op.outputs) && op.outputs != []
    ensures var r := StagedRecord(s, op);
            Body(RecordOf(s), s.journal, op) == Then(Plan([Replace(r)], Ok), FlushPlan(r, s.journal))
  {
    hide FlushPlan, Fits;
  }

  /** A snapshot with an outbox, followed by the flush of that outbox. */
  lemma {:induction false} StageThenFlush(s: Session, op: Op)
    requires Sound(s) && op.Commit? && Current(s, op.sequence, op.generation) && Fits(op.outputs) && op.outputs != []
    ensures Realizes(s, Body(RecordOf(s), s.journal, op), op)
  {
    hide Consistent, Abs, Missing, FlushPlan, AllPoints, Fits, Sound, Body;
    var t := Apply(s, op);
    CleanRoundTrip(s);
    var r := StagedRecord(s, op);
    var d := Clean(s).(snap := r);
    StagedStandsForCommit(s, op);
    FlushPhase(d);
    var flush := FlushPlan(r, s.journal);
    PointsGrow(d, flush.ios, {t}, Possible(s, op));
    PointsCons(Clean(s), Replace(r), flush.ios, Possible(s, op));
    PerformAllConcat(Clean(s), [Replace(r)], flush.ios);
    assert PerformAll(Clean(s), [Replace(r)]) == d;
    CommitPlan(s, op);
  }

  /** What recovery makes of a submission that was logged but not snapshotted. */
  function SubmitRecovered(s: Session, i: Input): Session {
    if LifecycleStatus(i.kind).Some? then Misread(s, i) else Submitted(s, i)
  }

  lemma {:induction false} SubmitRecovery(s: Session, i: Input)
    requires Sound(s)
    ensures var u := SubmitRecovered(s, i);
            && Sound(u) && RecordOf(u) == Recover(RecordOf(s), SubmitEvent(s, i))
            && u.journal == s.journal + [SubmitEvent(s, i)]
  {
    hide LifecycleStatus, HashText;
  }

  /** The plan of a submission, by what the simple session makes of it. */
  lemma {:induction false} SubmitPlan(s: Session, i: Input)
    requires i.source != GODEX
    ensures SubmitBody(RecordOf(s), i) ==
            if SubmitAccepted(s, i)
            then Plan([Append(SubmitEvent(s, i)), Replace(RecordOf(Submitted(s, i)))], Answer(s, Submit(i)))
            else Plan([], Answer(s, Submit(i)))
  {
    hide LifecycleStatus, HashText;
  }

  lemma {:induction false} SubmitRealized(s: Session, i: Input)
    requires Sound(s) && i.source != GODEX
    ensures Realizes(s, SubmitBody(RecordOf(s), i), Submit(i))
  {
    hide LifecycleStatus, HashText, Realizes, Sound, Recover, SubmitBody, SubmitAccepted, Answer, Submitted, RecordOf;
    SubmitPlan(s, i);
    if SubmitAccepted(s, i) {
      SubmitRecovery(s, i);
      SubmitSound(s, i);
      SubmittedJournal(s, i);
      LogThenSnapshot(s, Submit(i), SubmitEvent(s, i), SubmitRecovered(s, i));
    } else {
      NoWrites(s, Submit(i));
    }
  }

  lemma {:induction false} SubmittedJournal(s: Session, i: Input)
    ensures Submitted(s, i).journal == s.journal + [SubmitEvent(s, i)]
    ensures SubmitEvent(s, i).sequence == |s.journal| + 1 && SubmitEvent(s, i).stateVersion == s.stateVersion + 1
  {
    hide HashText;
  }

  lemma {:induction false} SubmitSound(s: Session, i: Input)
    requires Sound(s)
    ensures Sound(Submitted(s, i))
  {
  }

  lemma {:induction false} TransitionRecovery(s: Session, target: Status)
    requires Sound(s) && MoveAccepted(s, target)
    ensures var e := LifecycleEvent(target, |s.journal| + 1, s.stateVersion + 1);
            && Sound(Moved(s, target)) && RecordOf(Moved(s, target)) == Recover(RecordOf(s), e)
  {
    hide LifecycleStatus, LifecycleKind;
    LifecycleRoundTrip(target);
  }

  lemma {:induction false} TransitionRealized(s: Session, target: Status)
    requires Sound(s)
    ensures Realizes(s, TransitionBody(RecordOf(s), target), Transition(target))
  {
    hide LifecycleStatus, LifecycleKind, Realizes, Sound, Recover;
    if MoveAccepted(s, target) {
      TransitionRecovery(s, target);
      var e := LifecycleEvent(target, |s.journal| + 1, s.stateVersion + 1);
      LogThenSnapshot(s, Transition(target), e, Moved(s, target));
    } else {
      NoWrites(s, Transition(target));
    }
  }

  /** An operation that replaces the snapshot once, or nothing. */
  lemma {:induction false} ReplaceRealized(s: Session, op: Op, plan: Plan)
    requires Sound(s) && Sound(Apply(s, op)) && Apply(s, op).journal == s.journal && plan.reply == Answer(s, op)
    requires plan.ios == (if Apply(s, op) == s then [] else [Replace(RecordOf(Apply(s, op)))])
    ensures Realizes(s, plan, op)
  {
    hide Realizes, Sound, Answer, Apply;
    if Apply(s, op) == s {
      NoWrites(s, op);
    } else {
      OneReplace(s, op);
    }
  }

  lemma {:induction false} CheckpointRealized(s: Session, op: Op)
    requires Sound(s) && (op.Checkpoint? || op.Cancel?)
    ensures Realizes(s, Body(RecordOf(s), s.journal, op), op)
  {
    hide Realizes;
    var write := Replace(RecordOf(Apply(s, op)));
    assert [write] + [] == [write];
    ReplaceRealized(s, op, Body(RecordOf(s), s.journal, op));
  }

  lemma {:induction false} SignalRealized(s: Session, op: Op)
    requires Sound(s) && op.Signal?
    ensures Realizes(s, Body(RecordOf(s), s.journal, op), op)
  {
    hide Realizes, FitsLatest;
    ReplaceRealized(s, op, Body(RecordOf(s), s.journal, op));
  }

  lemma {:induction false} CommitRealized(s: Session, op: Op)
    requires Sound(s) && op.Commit?
    ensures Realizes(s, Body(RecordOf(s), s.journal, op), op)
  {
    hide Realizes, Fits;
    if Current(s, op.sequence, op.generation) && Fits(op.outputs) && op.outputs != [] {
      StageThenFlush(s, op);
    } else {
      assert s.journal + OutputEvents([], |s.journal|, s.stateVersion + 1) == s.journal;
      var write := Replace(RecordOf(Apply(s, op)));
      assert [write] + [] == [write];
      ReplaceRealized(s, op, Body(RecordOf(s), s.journal, op));
    }
  }

  lemma {:induction false} LoadRealized(s: Session)
    requires Sound(s)
    ensures Realizes(s, Plan([], Ok), Load)
  {
    hide Realizes;
    NoWrites(s, Load);
  }

  lemma {:induction false} BodyRealized(s: Session, op: Op)
    requires Sound(s) && !(op.Submit? && op.input.source == GODEX)
    ensures Realizes(s, Body(RecordOf(s), s.journal, op), op)
  {
    hide Realizes, RecordOf, Apply, Answer, TransitionBody, SubmitBody, CheckpointBody, CancelBody, CommitBody,
         SignalBody;
    match op
    case Load => LoadRealized(s);
    case Transition(target) => TransitionRealized(s, target);
    case Submit(i) => SubmitRealized(s, i);
    case Checkpoint(_, _) => CheckpointRealized(s, op);
    case Cancel(_, _, _) => CheckpointRealized(s, op);
    case Commit(_, _, _, _, _, _) => CommitRealized(s, op);
    case Signal(_, _, _, _, _) => SignalRealized(s, op);
  }

  // ---------------------------------------------------------------- main results

  /** Run to its end, an operation answers as the simple session does and leaves its clean disk. */
  lemma {:induction false} OperationCompletes(d: Disk, op: Op)
    requires Consistent(d)
    ensures OpPlan(d, op).reply == Answer(Abs(d), op)
    ensures Consistent(PerformAll(d, OpPlan(d, op).ios))
    ensures Abs(PerformAll(d, OpPlan(d, op).ios)) == Apply(Abs(d), op)
    ensures Answer(Abs(d), op) != Rejected(ReservedSource) ==>
              PerformAll(d, OpPlan(d, op).ios) == Clean(Apply(Abs(d), op))
  {
    var s := Abs(d);
    AbsSound(d);
    if !(op.Submit? && op.input.source == GODEX) {
      LoadIsStutter(d);
      BodyRealized(s, op);
      PerformAllConcat(d, LoadPlan(d).ios, Body(RecordOf(s), s.journal, op).ios);
      CleanRoundTrip(Apply(s, op));
    }
  }

  /** Stopped anywhere, an operation has happened entirely or not at all, or was misread. */
  lemma {:induction false} CrashAtomicity(d: Disk, op: Op, f: Fault)
    requires Consistent(d)
    ensures Consistent(Interrupt(d, OpPlan(d, op).ios, f))
    ensures Abs(Interrupt(d, OpPlan(d, op).ios, f)) in Possible(Abs(d), op)
  {
    var s := Abs(d);
    AbsSound(d);
    if !(op.Submit? && op.input.source == GODEX) {
      LoadIsStutter(d);
      BodyRealized(s, op);
      var load := LoadPlan(d).ios;
      var body := Body(RecordOf(s), s.journal, op).ios;
      PointsGrow(d, load, {s}, Possible(s, op));
      PointsConcat(d, load, body, Possible(s, op));
      PointReached(d, load + body, f, Possible(s, op));
    }
  }

  /** A crash after the journal append of an ambiguous submission and before its snapshot. */
  lemma {:induction false} AmbiguousIsMisread(d: Disk, op: Op)
    requires Consistent(d) && Ambiguous(Abs(d), op)
    ensures var d' := Interrupt(d, OpPlan(d, op).ios, Fault(|LoadPlan(d).ios| + 1, Nothing));
            Consistent(d') && Abs(d') == Misread(Abs(d), op.input)
  {
    hide Consistent, Abs, LoadPlan, Misread;
    var s := Abs(d);
    var load := LoadPlan(d).ios;
    var e := SubmitEvent(s, op.input);
    var snap := Replace(RecordOf(Submitted(s, op.input)));
    AbsSound(d);
    LoadIsStutter(d);
    assert Body(RecordOf(s), s.journal, op).ios == [Append(e)] + [snap] by {
      hide HashText, LifecycleStatus;
    }
    InterruptConcat(d, load, [Append(e)] + [snap], Fault(|load| + 1, Nothing));
    InterruptConcat(Clean(s), [Append(e)], [snap], Fault(1, Nothing));
    MisreadStands(s, op.input);
  }

  lemma {:induction false} MisreadStands(s: Session, i: Input)
    requires Sound(s) && LifecycleStatus(i.kind).Some?
    ensures var d := PerformAll(Clean(s), [Append(SubmitEvent(s, i))]);
            Consistent(d) && Abs(d) == Misread(s, i)
  {
    var d := PerformAll(Clean(s), [Append(SubmitEvent(s, i))]);
    assert d == Clean(s).(log := s.journal + [SubmitEvent(s, i)]);
    assert d.log + [] == d.log;
  }

  /** Whatever fault stops the operation, it has happened entirely or not at all. */
  ghost predicate AllOrNothing(d: Disk, op: Op)
    requires Consistent(d)
  {
    forall f: Fault :: var d' := Interrupt(d, OpPlan(d, op).ios, f);
                       Consistent(d') && Abs(d') in {Abs(d), Apply(Abs(d), op)}
  }

  /**
   The all-or-nothing promise holds under every fault exactly when recovery
   cannot take the submitted kind for a lifecycle change.
   */
  lemma {:induction false} AtomicUnlessAmbiguous(d: Disk, op: Op)
    requires Consistent(d)
    ensures AllOrNothing(d, op) <==> !Ambiguous(Abs(d), op)
  {
    hide Consistent, Abs, Interrupt, OpPlan, LoadPlan, Apply, Misread, Ambiguous;
    var s := Abs(d);
    if Ambiguous(s, op) {
      AmbiguousIsMisread(d, op);
      MisreadDiffers(s, op);
    } else {
      forall f: Fault
        ensures Consistent(Interrupt(d, OpPlan(d, op).ios, f))
        ensures Abs(Interrupt(d, OpPlan(d, op).ios, f)) in {s, Apply(s, op)}
      {
        CrashAtomicity(d, op, f);
      }
    }
  }

  lemma {:induction false} MisreadDiffers(s: Session, op: Op)
    requires Ambiguous(s, op)
    ensures Misread(s, op.input) !in {s, Apply(s, op)}
  {
    assert Misread(s, op.input).generation == s.generation + 1;
    assert Apply(s, op).generation == s.generation;
  }
}
