/**
 The durable values of a FlowSession: journal events, the snapshot record that
 `summary.json` holds, and the inputs and outputs that flow through them.

 Counters are natural numbers, a session state is its canonical JSON text, and
 the SHA-256 of an event is represented by the text that is hashed.
 */
module SessionTypes {

  datatype Option<+T> = None | Some(value: T)

  const MAX_PAYLOAD_BYTES: nat := 65536
  const MAX_BATCH_BYTES: nat := 65536
  const MAX_SOURCES: nat := 128
  const MAX_PENDING: nat := 256

  /** The source reserved for events that the runtime itself writes. */
  const GODEX := "godex"
  const OUTPUT_KIND := "session.output"

  datatype Status = Active | Paused | Completed | Canceled

  predicate Ended(s: Status) {
    s == Completed || s == Canceled
  }

  type State = string

  datatype Event = Event(source: string, sourceSeq: nat, sequence: nat, stateVersion: nat, kind: string,
                         correlation: string, occurredAt: string, payload: string)

  datatype Input = Input(source: string, sourceSeq: nat, kind: string,
                         correlation: string, occurredAt: string, payload: string)

  /** What a region puts out; `latestBytes` is its size as one of the latest outputs of a signal. */
  datatype Output = Output(correlation: string, payload: string, latestBytes: nat)

  datatype Cursor = Cursor(sourceSeq: nat, eventSeq: nat, hash: string)

  datatype Record = Record(status: Status, state: State, last: nat, processed: nat,
                           stateVersion: nat, generation: nat,
                           lastError: string, lastKind: string, signalOutputs: seq<Output>,
                           pending: seq<Event>, cursors: map<string, Cursor>)

  /** The event kind that a lifecycle transition to `target` writes. */
  function LifecycleKind(target: Status): string {
    match target
    case Active => "session.resumed"
    case Paused => "session.paused"
    case Completed => "session.completed"
    case Canceled => "session.canceled"
  }

  /** The status that tail recovery reads out of an event kind, if any. */
  function LifecycleStatus(kind: string): Option<Status> {
    if kind == "session.paused" then Some(Paused)
    else if kind == "session.resumed" then Some(Active)
    else if kind == "session.completed" then Some(Completed)
    else if kind == "session.canceled" then Some(Canceled)
    else None
  }

  lemma LifecycleRoundTrip(target: Status)
    ensures LifecycleStatus(LifecycleKind(target)) == Some(target)
    ensures LifecycleKind(target) != OUTPUT_KIND
  {
    var kinds := ["session.paused", "session.resumed", "session.completed", "session.canceled", OUTPUT_KIND];
    assert kinds[0][8] == 'p' && kinds[1][8] == 'r' && kinds[2][8..10] == "co" && kinds[3][8..10] == "ca";
    assert kinds[4][8] == 'o' && "co"[1] != "ca"[1];
  }

  predicate MayMove(from: Status, target: Status) {
    match target
    case Paused => from == Active
    case Active => from == Paused
    case Completed => !Ended(from)
    case Canceled => !Ended(from)
  }

  /** The text hashed to recognise a resubmitted event. */
  function HashText(kind: string, correlation: string, occurredAt: string, payload: string): string {
    kind + "\0" + correlation + "\0" + occurredAt + "\0" + payload
  }

  /** The cursor that an event leaves for its source. */
  function CursorOf(e: Event): Cursor {
    Cursor(e.sourceSeq, e.sequence, HashText(e.kind, e.correlation, e.occurredAt, e.payload))
  }

  function WithCursor(cursors: map<string, Cursor>, e: Event): map<string, Cursor> {
    if e.sourceSeq > 0 then cursors[e.source := CursorOf(e)] else cursors
  }

  function InputEvent(i: Input, sequence: nat, stateVersion: nat): Event {
    Event(i.source, i.sourceSeq, sequence, stateVersion, i.kind, i.correlation, i.occurredAt, i.payload)
  }

  function LifecycleEvent(target: Status, sequence: nat, stateVersion: nat): Event {
    Event(GODEX, 0, sequence, stateVersion, LifecycleKind(target), "", "", "{}")
  }

  function OutputEvent(o: Output, sequence: nat, stateVersion: nat): Event {
    Event(GODEX, 0, sequence, stateVersion, OUTPUT_KIND, o.correlation, "", o.payload)
  }

  function TotalBytes(outputs: seq<Output>): nat {
    if outputs == [] then 0 else TotalBytes(outputs[..|outputs| - 1]) + |outputs[|outputs| - 1].payload|
  }

  /** The size limits on the outputs of one region run. */
  predicate Fits(outputs: seq<Output>) {
    && (forall o | o in outputs :: |o.payload| <= MAX_PAYLOAD_BYTES)
    && TotalBytes(outputs) <= MAX_BATCH_BYTES
  }

  function LatestTotal(outputs: seq<Output>): nat {
    if outputs == [] then 0 else LatestTotal(outputs[..|outputs| - 1]) + outputs[|outputs| - 1].latestBytes
  }

  /** The size limits on the latest outputs that a snapshot keeps of a signal. */
  predicate FitsLatest(outputs: seq<Output>) {
    && (forall o | o in outputs :: o.latestBytes <= MAX_PAYLOAD_BYTES)
    && LatestTotal(outputs) <= MAX_BATCH_BYTES
  }
}
