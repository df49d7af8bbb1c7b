/**
 The two files of a FlowSession and the durable writes that every operation
 performs on them.

 An operation is a plan: the list of durable writes it makes, in order, and the
 reply it gives when all of them succeed. A crash or an I/O error stops a plan
 after any prefix of it, and may tear the journal append it stopped in.
 */
module SessionDisk {
  import opened SessionTypes

  /** What follows the last newline of `events.jsonl`. */
  datatype Tail = NoTail | Torn | Unterminated(event: Event)

  datatype Disk = Disk(snap: Record, log: seq<Event>, tail: Tail)

  datatype IO = Mend | Append(event: Event) | Replace(snap: Record)

  datatype Reason = Conflict | PendingLimit | StaleWork | PendingEvents | StaleSignal | TooLarge | ReservedSource

  datatype Reply = Ok | Receipt(sequence: nat, duplicate: bool) | Settled(applied: bool)
                 | Rejected(reason: Reason) | JournalGap

  datatype Plan = Plan(ios: seq<IO>, reply: Reply)

  datatype Op =
    | Load
    | Transition(target: Status)
    | Submit(input: Input)
    | Checkpoint(sequence: nat, generation: nat)
    | Cancel(sequence: nat, generation: nat, kind: string)
    | Commit(sequence: nat, generation: nat, kind: string, outputs: seq<Output>, state: Option<State>, error: string)
    | Signal(stateVersion: nat, generation: nat, outputs: seq<Output>, state: Option<State>, error: string)

  // ---------------------------------------------------------------- writes

  function Perform(d: Disk, io: IO): Disk {
    match io
    case Mend => d.(log := Mended(d), tail := NoTail)
    case Append(e) => d.(log := d.log + [e])
    case Replace(r) => d.(snap := r)
  }

  /** The journal once `readLastFlowSessionEvent` has repaired its tail. */
  function Mended(d: Disk): seq<Event> {
    if d.tail.Unterminated? then d.log + [d.tail.event] else d.log
  }

  function PerformAll(d: Disk, ios: seq<IO>): Disk
    decreases |ios|
  {
    if ios == [] then d else PerformAll(Perform(d, ios[0]), ios[1..])
  }

  /** How an append that never finished left its bytes behind. */
  datatype Tear = Nothing | SomeBytes | AllButNewline

  /** A fault after `after` durable writes; a large `after` is no fault at all. */
  datatype Fault = Fault(after: nat, tear: Tear)

  function TearAppend(d: Disk, e: Event, tear: Tear): Disk {
    match tear
    case Nothing => d
    case SomeBytes => d.(tail := Torn)
    case AllButNewline => d.(tail := Unterminated(e))
  }

  function Interrupt(d: Disk, ios: seq<IO>, f: Fault): Disk
    decreases |ios|
  {
    if ios == [] then d
    else if f.after == 0 then (if ios[0].Append? then TearAppend(d, ios[0].event, f.tear) else d)
    else Interrupt(Perform(d, ios[0]), ios[1..], f.(after := f.after - 1))
  }

  function Appends(es: seq<Event>): (ios: seq<IO>)
    ensures |ios| == |es| && forall i | 0 <= i < |es| :: ios[i] == Append(es[i])
  {
    seq(|es|, i requires 0 <= i < |es| => Append(es[i]))
  }

  // ---------------------------------------------------------------- loading

  function LastSeq(log: seq<Event>): nat {
    if log == [] then 0 else log[|log| - 1].sequence
  }

  datatype Flush = Flush(events: seq<Event>, contiguous: bool)

  /** The staged events that still have to reach a journal ending at `last`. */
  function FlushFrom(pending: seq<Event>, last: nat): Flush
    decreases |pending|
  {
    if pending == [] then Flush([], true)
    else if pending[0].sequence <= last then FlushFrom(pending[1..], last)
    else if pending[0].sequence != last + 1 then Flush([], false)
    else
      var rest := FlushFrom(pending[1..], pending[0].sequence);
      Flush([pending[0]] + rest.events, rest.contiguous)
  }

  /** Writes the outbox of `r` to the journal, then a snapshot without it. */
  function FlushPlan(r: Record, log: seq<Event>): Plan {
    if r.pending == [] then Plan([], Ok)
    else
      var f := FlushFrom(r.pending, LastSeq(log));
      if f.contiguous then Plan(Appends(f.events) + [Replace(r.(pending := []))], Ok)
      else Plan(Appends(f.events), JournalGap)
  }

  /** Folds into the snapshot the journal event it does not know about yet. */
  function Recover(r: Record, e: Event): Record {
    var base := r.(last := e.sequence,
                   stateVersion := if e.stateVersion > r.stateVersion then e.stateVersion else r.stateVersion,
                   cursors := WithCursor(r.cursors, e),
                   processed := if r.processed > e.sequence then e.sequence else r.processed);
    match LifecycleStatus(e.kind)
    case None => base
    case Some(status) =>
      base.(status := status,
            generation := base.generation + 1,
            processed := if Ended(status) then e.sequence else base.processed)
  }

  function RecoverPlan(r: Record, log: seq<Event>): Plan {
    if LastSeq(log) <= r.last then Plan([], Ok)
    else if LastSeq(log) != r.last + 1 then Plan([], JournalGap)
    else Plan([Replace(Recover(r, log[|log| - 1]))], Ok)
  }

  function Normalized(r: Record): Record {
    var r1 := if r.processed > r.last then r.(processed := r.last) else r;
    if r1.stateVersion < r1.last then r1.(stateVersion := r1.last) else r1
  }

  /** Runs `second` after `first`, unless `first` already failed. */
  function Then(first: Plan, second: Plan): Plan {
    if first.reply == Ok then Plan(first.ios + second.ios, second.reply) else first
  }

  function MendPlan(d: Disk): Plan {
    Plan(if d.tail.NoTail? then [] else [Mend], Ok)
  }

  /** The snapshot as a load starts from it, with the generation of old records fixed. */
  function Opened(d: Disk): Record {
    if d.snap.generation == 0 then d.snap.(generation := 1) else d.snap
  }

  /** The snapshot and journal that tail recovery works on. */
  function Flushed(d: Disk): (Record, seq<Event>) {
    var r := Opened(d);
    var log := Mended(d);
    if r.pending == [] then (r, log)
    else (r.(pending := []), log + FlushFrom(r.pending, LastSeq(log)).events)
  }

  function NormalizePlan(d: Disk): Plan {
    var (r, log) := Flushed(d);
    var found := if LastSeq(log) <= r.last || log == [] then r else Recover(r, log[|log| - 1]);
    if d.snap.generation == 0 || Normalized(found) != found then Plan([Replace(Normalized(found))], Ok)
    else Plan([], Ok)
  }

  function LoadPlan(d: Disk): Plan {
    var (r, log) := Flushed(d);
    Then(MendPlan(d), Then(FlushPlan(Opened(d), Mended(d)), Then(RecoverPlan(r, log), NormalizePlan(d))))
  }

  // ---------------------------------------------------------------- operations

  function TransitionBody(r: Record, target: Status): Plan {
    if r.status == target then Plan([], Ok)
    else if !MayMove(r.status, target) then Plan([], Rejected(Conflict))
    else
      var e := LifecycleEvent(target, r.last + 1, r.stateVersion + 1);
      Plan([Append(e), Replace(r.(status := target, last := e.sequence, stateVersion := e.stateVersion,
                                  generation := r.generation + 1,
                                  processed := if Ended(target) then e.sequence else r.processed))], Ok)
  }

  function SubmitBody(r: Record, i: Input): Plan {
    var known := i.source in r.cursors;
    var hash := HashText(i.kind, i.correlation, i.occurredAt, i.payload);
    if i.sourceSeq > 0 && known && i.sourceSeq == r.cursors[i.source].sourceSeq && hash == r.cursors[i.source].hash then
      Plan([], Receipt(r.cursors[i.source].eventSeq, true))
    else if i.sourceSeq > 0 && known && i.sourceSeq <= r.cursors[i.source].sourceSeq then
      Plan([], Rejected(Conflict))
    else if r.status != Active then Plan([], Rejected(Conflict))
    else if r.last - r.processed >= MAX_PENDING then Plan([], Rejected(PendingLimit))
    else if !known && |r.cursors| >= MAX_SOURCES then Plan([], Rejected(Conflict))
    else
      var e := InputEvent(i, r.last + 1, r.stateVersion + 1);
      Plan([Append(e), Replace(r.(last := e.sequence, stateVersion := e.stateVersion,
                                  cursors := WithCursor(r.cursors, e)))], Receipt(e.sequence, false))
  }

  function CheckpointBody(r: Record, sequence: nat, generation: nat): Plan {
    if r.generation != generation then Plan([], Rejected(StaleWork))
    else if r.status != Active then Plan([], Rejected(Conflict))
    else if sequence != r.processed + 1 || sequence > r.last then Plan([], Rejected(Conflict))
    else Plan([Replace(r.(processed := sequence, generation := r.generation + 1))], Ok)
  }

  function CancelBody(r: Record, log: seq<Event>, sequence: nat, generation: nat, kind: string): Plan {
    if r.processed >= sequence || r.generation != generation || r.status != Active
       || sequence != r.processed + 1 || sequence > r.last
    then Plan([], Settled(false))
    else
      var r' := r.(processed := sequence, stateVersion := r.stateVersion + 1, generation := r.generation + 1,
                   lastError := "", lastKind := kind);
      Then(Then(Plan([Replace(r')], Ok), FlushPlan(r', log)), Plan([], Settled(true)))
  }

  /** Gives the outputs of a run their journal sequences and stages them in the snapshot. */
  function Staged(r: Record, outputs: seq<Output>): Record {
    if outputs == [] then r
    else r.(last := r.last + |outputs|,
            stateVersion := r.stateVersion + |outputs|,
            pending := OutputEvents(outputs, r.last, r.stateVersion))
  }

  function OutputEvents(outputs: seq<Output>, last: nat, stateVersion: nat): (es: seq<Event>)
    ensures |es| == |outputs|
    ensures forall i | 0 <= i < |es| :: es[i] == OutputEvent(outputs[i], last + 1 + i, stateVersion + 1 + i)
  {
    seq(|outputs|, i requires 0 <= i < |outputs| => OutputEvent(outputs[i], last + 1 + i, stateVersion + 1 + i))
  }

  function CommitBody(r: Record, log: seq<Event>, sequence: nat, generation: nat, kind: string,
                      outputs: seq<Output>, state: Option<State>, error: string): Plan {
    if r.generation != generation then Plan([], Rejected(StaleWork))
    else if r.status != Active then Plan([], Rejected(Conflict))
    else if sequence != r.processed + 1 || sequence > r.last then Plan([], Rejected(Conflict))
    else if !Fits(outputs) then Plan([], Rejected(TooLarge))
    else
      var r' := Staged(r.(state := if state.Some? then state.value else r.state, lastError := error,
                          processed := sequence, stateVersion := r.stateVersion + 1, generation := r.generation + 1,
                          lastKind := kind), outputs);
      Then(Plan([Replace(r')], Ok), FlushPlan(r', log))
  }

  function SignalBody(r: Record, stateVersion: nat, generation: nat,
                      outputs: seq<Output>, state: Option<State>, error: string): Plan {
    if r.status != Active then Plan([], Rejected(Conflict))
    else if r.last > r.processed then Plan([], Rejected(PendingEvents))
    else if r.stateVersion != stateVersion then Plan([], Rejected(StaleSignal))
    else if r.generation != generation then Plan([], Rejected(StaleSignal))
    else if !FitsLatest(outputs) then Plan([], Rejected(TooLarge))
    else Plan([Replace(r.(state := if state.Some? then state.value else r.state, lastError := error,
                          stateVersion := r.stateVersion + 1, generation := r.generation + 1,
                          signalOutputs := outputs))], Ok)
  }

  function Body(r: Record, log: seq<Event>, op: Op): Plan {
    match op
    case Load => Plan([], Ok)
    case Transition(target) => TransitionBody(r, target)
    case Submit(input) => SubmitBody(r, input)
    case Checkpoint(sequence, generation) => CheckpointBody(r, sequence, generation)
    case Cancel(sequence, generation, kind) => CancelBody(r, log, sequence, generation, kind)
    case Commit(sequence, generation, kind, outputs, state, error) =>
      CommitBody(r, log, sequence, generation, kind, outputs, state, error)
    case Signal(stateVersion, generation, outputs, state, error) =>
      SignalBody(r, stateVersion, generation, outputs, state, error)
  }

  /** The whole plan of an operation: repair and load the session, then act on it. */
  function OpPlan(d: Disk, op: Op): Plan {
    if op.Submit? && op.input.source == GODEX then Plan([], Rejected(ReservedSource))
    else
      var load := LoadPlan(d);
      var loaded := PerformAll(d, load.ios);
      Then(load, Body(loaded.snap, loaded.log, op))
  }

  // ---------------------------------------------------------------- plan algebra

  lemma {:induction false} PerformAllConcat(d: Disk, a: seq<IO>, b: seq<IO>)
    ensures PerformAll(d, a + b) == PerformAll(PerformAll(d, a), b)
    decreases |a|
  {
    if a == [] {
      assert a + b == b;
    } else {
      assert (a + b)[1..] == a[1..] + b;
      PerformAllConcat(Perform(d, a[0]), a[1..], b);
    }
  }

  /** A fault hits either the first part of a plan or, with the rest of its budget, the second. */
  lemma {:induction false} InterruptConcat(d: Disk, a: seq<IO>, b: seq<IO>, f: Fault)
    ensures Interrupt(d, a + b, f) ==
            if f.after < |a| then Interrupt(d, a, f)
            else Interrupt(PerformAll(d, a), b, f.(after := f.after - |a|))
    decreases |a|
  {
    if a == [] {
      assert a + b == b;
    } else {
      assert (a + b)[1..] == a[1..] + b;
      if f.after > 0 {
        InterruptConcat(Perform(d, a[0]), a[1..], b, f.(after := f.after - 1));
      }
    }
  }

  lemma {:induction false} InterruptComplete(d: Disk, ios: seq<IO>, f: Fault)
    requires f.after >= |ios|
    ensures Interrupt(d, ios, f) == PerformAll(d, ios)
    decreases |ios|
  {
    if ios != [] {
      InterruptComplete(Perform(d, ios[0]), ios[1..], f.(after := f.after - 1));
    }
  }

  lemma {:induction false} PerformAppends(d: Disk, es: seq<Event>)
    ensures PerformAll(d, Appends(es)) == d.(log := d.log + es)
    decreases |es|
  {
    if es != [] {
      assert Appends(es)[1..] == Appends(es[1..]);
      PerformAppends(d.(log := d.log + [es[0]]), es[1..]);
      assert d.log + [es[0]] + es[1..] == d.log + es;
    } else {
      assert Appends(es) == [];
      assert d.log + es == d.log;
    }
  }
}
