/**
 The session store as it runs: fields updated step by step, a file appended to
 and a snapshot replaced. Each method is proved to perform exactly the plan of
 its operation, under any fault.

 `budget` is the number of durable writes that still succeed; the write after
 that fails, leaves what `tear` says, and the operation gives up there.
 */
module SessionStore {
  import opened SessionTypes
  import opened SessionDisk

  /** The disk and the budget of a store at one moment. */
  datatype Moment = Moment(disk: Disk, budget: nat, tear: Tear)

  /** From `m` to `m'` the writes `ios` were performed, as far as the budget went. */
  predicate Stretch(m: Moment, ios: seq<IO>, m': Moment, completed: bool) {
    && m'.tear == m.tear
    && m'.disk == Interrupt(m.disk, ios, Fault(m.budget, m.tear))
    && completed == (m.budget >= |ios|)
    && (completed ==> m'.budget == m.budget - |ios| && m'.disk == PerformAll(m.disk, ios))
  }

  /** The plan was followed to its reply, or as far as the budget went. */
  predicate Followed(m: Moment, plan: Plan, m': Moment, answer: Option<Reply>) {
    Stretch(m, plan.ios, m', answer.Some?) && (answer.Some? ==> answer.value == plan.reply)
  }

  lemma {:induction false} StretchNone(m: Moment)
    ensures Stretch(m, [], m, true)
  {
  }

  lemma {:induction false} StretchOne(m: Moment, io: IO, m': Moment, completed: bool)
    requires m'.tear == m.tear && completed == (m.budget > 0)
    requires completed ==> m'.budget == m.budget - 1 && m'.disk == Perform(m.disk, io)
    requires !completed ==> m'.disk == if io.Append? then TearAppend(m.disk, io.event, m.tear) else m.disk
    ensures Stretch(m, [io], m', completed)
  {
    assert [io][1..] == [];
  }

  /** Two stretches in a row are one stretch of both. */
  lemma {:induction false} StretchThen(m: Moment, a: seq<IO>, m1: Moment, b: seq<IO>, m2: Moment, completed: bool)
    requires Stretch(m, a, m1, true) && Stretch(m1, b, m2, completed)
    ensures Stretch(m, a + b, m2, completed)
  {
    InterruptConcat(m.disk, a, b, Fault(m.budget, m.tear));
    PerformAllConcat(m.disk, a, b);
  }

  /** A stretch that failed is the failure of every plan that begins with it. */
  lemma {:induction false} StretchFails(m: Moment, a: seq<IO>, b: seq<IO>, m': Moment)
    requires Stretch(m, a, m', false)
    ensures Stretch(m, a + b, m', false)
  {
    InterruptConcat(m.disk, a, b, Fault(m.budget, m.tear));
  }

  /** Following one plan and then another is following both. */
  lemma {:induction false} FollowThen(m: Moment, first: Plan, m1: Moment, second: Plan, m2: Moment,
                                      answer: Option<Reply>)
    requires Followed(m, first, m1, Some(Ok)) && Followed(m1, second, m2, answer)
    ensures Followed(m, Then(first, second), m2, answer)
  {
    hide Stretch;
    StretchThen(m, first.ios, m1, second.ios, m2, answer.Some?);
  }

  /** A plan that failed or refused fails or refuses whatever was to come after it. */
  lemma {:induction false} FollowStops(m: Moment, first: Plan, second: Plan, m': Moment, answer: Option<Reply>)
    requires Followed(m, first, m', answer) && answer != Some(Ok)
    ensures Followed(m, Then(first, second), m', answer)
  {
    hide Stretch;
    if answer.None? && first.reply == Ok {
      StretchFails(m, first.ios, second.ios, m');
    }
  }

  lemma {:induction false} FlushStep(pending: seq<Event>, i: nat, last: nat)
    requires i < |pending|
    ensures FlushFrom(pending[i..], last) ==
            if pending[i].sequence <= last then FlushFrom(pending[i + 1..], last)
            else if pending[i].sequence != last + 1 then Flush([], false)
            else
              var rest := FlushFrom(pending[i + 1..], pending[i].sequence);
              Flush([pending[i]] + rest.events, rest.contiguous)
  {
    assert pending[i..][1..] == pending[i + 1..];
  }

  lemma {:induction false} FlushNone(pending: seq<Event>, last: nat)
    requires pending == []
    ensures FlushFrom(pending, last) == Flush([], true)
  {
  }

  lemma {:induction false} AppendsConcat(a: seq<Event>, b: seq<Event>)
    ensures Appends(a + b) == Appends(a) + Appends(b)
  {
  }

  /** The snapshot after tail recovery. */
  function Recovered(r: Record, log: seq<Event>): Record {
    if LastSeq(log) <= r.last || log == [] then r else Recover(r, log[|log| - 1])
  }

  /** The first half of a load as the code runs it: repair the tail if there is an outbox, and flush it. */
  function FlushPart(d: Disk): Plan {
    if d.snap.pending == [] then Plan([], Ok) else Then(MendPlan(d), FlushPlan(Opened(d), Mended(d)))
  }

  /** The second half: repair the tail if that is still to do, and recover from it. */
  function RecoverPart(d: Disk): Plan {
    var (r, log) := Flushed(d);
    if d.snap.pending == [] then Then(MendPlan(d), RecoverPlan(r, log)) else RecoverPlan(r, log)
  }

  lemma {:induction false} LoadInParts(d: Disk)
    ensures LoadPlan(d) == Then(FlushPart(d), Then(RecoverPart(d), NormalizePlan(d)))
  {
    hide NormalizePlan, Flushed, FlushFrom;
  }

  /** Where tail recovery starts from once the outbox is flushed. */
  lemma {:induction false} AfterFlush(m: Moment, m1: Moment)
    requires Followed(m, FlushPart(m.disk), m1, Some(Ok))
    ensures var r := Opened(m.disk).(pending := []);
            && Flushed(m.disk) == (r, Mended(m1.disk))
            && RecoverPart(m.disk) == Then(MendPlan(m1.disk), RecoverPlan(r, Mended(m1.disk)))
  {
    hide RecoverPlan, FlushFrom;
    var d := m.disk;
    if d.snap.pending == [] {
      assert PerformAll(d, []) == d;
    } else {
      var es := FlushFrom(Opened(d).pending, LastSeq(Mended(d))).events;
      var clear := Replace(Opened(d).(pending := []));
      PerformAllConcat(d, MendPlan(d).ios, Appends(es) + [clear]);
      var d1 := d.(log := Mended(d), tail := NoTail);
      assert PerformAll(d, MendPlan(d).ios) == d1;
      PerformAllConcat(d1, Appends(es), [clear]);
      PerformAppends(d1, es);
    }
  }

  /** What an operation does once the session is loaded. */
  function Loaded(d: Disk, op: Op): Plan {
    var loaded := PerformAll(d, LoadPlan(d).ios);
    Body(loaded.snap, loaded.log, op)
  }

  lemma {:induction false} StretchCompleted(m: Moment, ios: seq<IO>, m': Moment)
    requires Stretch(m, ios, m', true)
    ensures m'.disk == PerformAll(m.disk, ios)
  {
  }

  lemma NoBytes()
    ensures TotalBytes([]) == 0
  {
  }

  lemma {:induction false} TotalBytesStep(outputs: seq<Output>, i: nat)
    requires i < |outputs|
    ensures TotalBytes(outputs[..i + 1]) == TotalBytes(outputs[..i]) + |outputs[i].payload|
  {
    assert outputs[..i + 1][..i] == outputs[..i];
  }

  lemma {:induction false} TotalBytesGrows(outputs: seq<Output>, i: nat)
    requires i <= |outputs|
    ensures TotalBytes(outputs[..i]) <= TotalBytes(outputs)
    decreases |outputs|
  {
    if i == |outputs| {
      assert outputs[..i] == outputs;
    } else {
      var shorter := outputs[..|outputs| - 1];
      TotalBytesGrows(shorter, i);
      assert shorter[..i] == outputs[..i];
    }
  }

  lemma NoLatest()
    ensures LatestTotal([]) == 0
  {
  }

  lemma {:induction false} LatestTotalStep(outputs: seq<Output>, i: nat)
    requires i < |outputs|
    ensures LatestTotal(outputs[..i + 1]) == LatestTotal(outputs[..i]) + outputs[i].latestBytes
  {
    assert outputs[..i + 1][..i] == outputs[..i];
  }

  lemma {:induction false} LatestTotalGrows(outputs: seq<Output>, i: nat)
    requires i <= |outputs|
    ensures LatestTotal(outputs[..i]) <= LatestTotal(outputs)
    decreases |outputs|
  {
    if i == |outputs| {
      assert outputs[..i] == outputs;
    } else {
      var shorter := outputs[..|outputs| - 1];
      LatestTotalGrows(shorter, i);
      assert shorter[..i] == outputs[..i];
    }
  }

  /** A completed load leaves the journal's tail repaired. */
  lemma {:induction false} LoadLeavesNoTail(m: Moment, m1: Moment)
    requires Followed(m, LoadPlan(m.disk), m1, Some(Ok))
    ensures m1.disk.tail == NoTail
  {
    hide FlushPlan, RecoverPlan, NormalizePlan, Flushed, Stretch;
    StretchCompleted(m, LoadPlan(m.disk).ios, m1);
    var mend := MendPlan(m.disk).ios;
    var rest := LoadPlan(m.disk).ios[|mend|..];
    assert LoadPlan(m.disk).ios == mend + rest;
    PerformAllConcat(m.disk, mend, rest);
    TailStays(PerformAll(m.disk, mend), rest);
  }

  lemma {:induction false} TailStays(d: Disk, ios: seq<IO>)
    requires d.tail == NoTail
    ensures PerformAll(d, ios).tail == NoTail
    decreases |ios|
  {
    if ios != [] {
      TailStays(Perform(d, ios[0]), ios[1..]);
    }
  }

  class Store {
    var snap: Record
    var log: seq<Event>
    var tail: Tail
    var budget: nat
    const tear: Tear

    constructor (snap: Record, log: seq<Event>, tail: Tail, budget: nat, tear: Tear)
      ensures Now() == Moment(Disk(snap, log, tail), budget, tear)
    {
      this.snap := snap;
      this.log := log;
      this.tail := tail;
      this.budget := budget;
      this.tear := tear;
    }

    ghost function Now(): Moment
      reads this
    {
      Moment(Disk(snap, log, tail), budget, tear)
    }

    // -------------------------------------------------------------- durable writes

    method WriteSnapshot(r: Record) returns (ok: bool)
      modifies this
      ensures Stretch(old(Now()), [Replace(r)], Now(), ok)
      ensures ok ==> Now().disk == old(Now().disk).(snap := r)
    {
      ghost var m := Now();
      ok := budget > 0;
      if ok {
        snap := r;
        budget := budget - 1;
      }
      StretchOne(m, Replace(r), Now(), ok);
    }

    method AppendEvent(e: Event) returns (ok: bool)
      modifies this
      ensures Stretch(old(Now()), [Append(e)], Now(), ok)
    {
      ghost var m := Now();
      ok := budget > 0;
      if ok {
        log := log + [e];
        budget := budget - 1;
      } else {
        match tear
        case Nothing =>
        case SomeBytes => tail := Torn;
        case AllButNewline => tail := Unterminated(e);
      }
      StretchOne(m, Append(e), Now(), ok);
    }

    /** Repairs the tail of the journal and reports the sequence of its last event. */
    method ReadLast() returns (ok: bool, last: nat)
      modifies this
      ensures Stretch(old(Now()), MendPlan(old(Now().disk)).ios, Now(), ok)
      ensures ok ==> Now().disk == old(Now().disk).(log := Mended(old(Now().disk)), tail := NoTail)
      ensures ok ==> last == LastSeq(log)
    {
      ghost var m := Now();
      ok, last := true, 0;
      if tail != NoTail {
        ok := budget > 0;
        if ok {
          if tail.Unterminated? {
            log := log + [tail.event];
          }
          tail := NoTail;
          budget := budget - 1;
        }
        StretchOne(m, Mend, Now(), ok);
      } else {
        StretchNone(m);
      }
      if ok && |log| > 0 {
        last := log[|log| - 1].sequence;
      }
    }

    // -------------------------------------------------------------- loading

    /** Appends the staged events that the journal lacks, in order. */
    method AppendPending(pending: seq<Event>, start: nat) returns (answer: Option<Reply>)
      modifies this
      ensures var f := FlushFrom(pending, start);
              Followed(old(Now()), Plan(Appends(f.events), if f.contiguous then Ok else JournalGap), Now(), answer)
    {
      hide Stretch, FlushFrom, Appends;
      var last := start;
      var i := 0;
      ghost var whole := FlushFrom(pending, start);
      ghost var sent: seq<Event> := [];
      ghost var left := whole;
      ghost var m := Now();
      assert pending[0..] == pending && Appends([]) == [];
      StretchNone(m);
      while i < |pending|
        invariant 0 <= i <= |pending|
        invariant left == FlushFrom(pending[i..], last)
        invariant whole == Flush(sent + left.events, left.contiguous)
        invariant Stretch(m, Appends(sent), Now(), true)
      {
        var e := pending[i];
        FlushStep(pending, i, last);
        if e.sequence > last {
          if e.sequence != last + 1 {
            assert whole.events == sent;
            return Some(JournalGap);
          }
          ghost var m1 := Now();
          var ok := AppendEvent(e);
          ghost var rest := FlushFrom(pending[i + 1..], e.sequence);
          assert whole.events == sent + [e] + rest.events;
          AppendsConcat(sent, [e]);
          assert Appends([e]) == [Append(e)];
          StretchThen(m, Appends(sent), m1, [Append(e)], Now(), ok);
          if !ok {
            AppendsConcat(sent + [e], rest.events);
            StretchFails(m, Appends(sent + [e]), Appends(rest.events), Now());
            return None;
          }
          sent := sent + [e];
          left := rest;
          last := e.sequence;
        }
        i := i + 1;
      }
      assert left == Flush([], true) by { FlushNone(pending[i..], last); }
      assert whole.events == sent;
      return Some(Ok);
    }

    /** Flushes the outbox of `r` to the journal and then forgets it. */
    method FlushPending(r: Record) returns (answer: Option<Reply>, r': Record)
      modifies this
      ensures var d := old(Now().disk);
              Followed(old(Now()), if r.pending == [] then Plan([], Ok)
                                   else Then(MendPlan(d), FlushPlan(r, Mended(d))), Now(), answer)
      ensures r' == r.(pending := [])
      ensures answer == Some(Ok) ==> snap == if r.pending == [] then old(snap) else r'
    {
      hide Stretch, FlushFrom;
      ghost var m := Now();
      r' := r.(pending := []);
      if r.pending == [] {
        StretchNone(m);
        return Some(Ok), r';
      }
      var ok, last := ReadLast();
      ghost var mend := MendPlan(m.disk);
      ghost var flush := FlushPlan(r, Mended(m.disk));
      if !ok {
        FollowStops(m, mend, flush, Now(), None);
        return None, r';
      }
      ghost var m1 := Now();
      ghost var f := FlushFrom(r.pending, last);
      ghost var appends := Plan(Appends(f.events), if f.contiguous then Ok else JournalGap);
      answer := AppendPending(r.pending, last);
      ghost var clear := Plan([Replace(r')], Ok);
      assert flush == Then(appends, clear);
      if answer != Some(Ok) {
        FollowStops(m1, appends, clear, Now(), answer);
      } else {
        ghost var m2 := Now();
        ok := WriteSnapshot(r');
        answer := if ok then Some(Ok) else None;
        FollowThen(m1, appends, m2, clear, Now(), answer);
      }
      FollowThen(m, mend, m1, flush, Now(), answer);
    }

    /** Folds into the snapshot the journal event that it lacks. */
    method RecoverTail(r: Record) returns (answer: Option<Reply>, r': Record)
      modifies this
      ensures var d := old(Now().disk);
              Followed(old(Now()), Then(MendPlan(d), RecoverPlan(r, Mended(d))), Now(), answer)
      ensures answer == Some(Ok) ==> r' == Recovered(r, Mended(old(Now().disk)))
      ensures answer == Some(Ok) ==> snap == r' || (r' == r && snap == old(snap))
    {
      hide Stretch, Recover;
      ghost var m := Now();
      r' := r;
      var ok, last := ReadLast();
      ghost var mend := MendPlan(m.disk);
      ghost var recover := RecoverPlan(r, Mended(m.disk));
      if !ok {
        FollowStops(m, mend, recover, Now(), None);
        return None, r';
      }
      ghost var m1 := Now();
      StretchNone(m1);
      if last <= r.last {
        answer := Some(Ok);
      } else if last != r.last + 1 {
        answer := Some(JournalGap);
      } else {
        r' := Recover(r, log[|log| - 1]);
        ok := WriteSnapshot(r');
        answer := if ok then Some(Ok) else None;
      }
      FollowThen(m, mend, m1, recover, Now(), answer);
    }

    /** Reads the snapshot, flushes its outbox, folds in the journal tail and normalises the result. */
    method LoadSession() returns (answer: Option<Reply>, r: Record)
      modifies this
      ensures Followed(old(Now()), LoadPlan(old(Now().disk)), Now(), answer)
      ensures answer == Some(Ok) ==> r == snap
    {
      hide Stretch, FlushPlan, RecoverPlan, FlushFrom, Recover, Normalized;
      ghost var m := Now();
      r := snap;
      var changed := false;
      if r.generation == 0 {
        r, changed := r.(generation := 1), true;
      }
      var start := r;
      answer, r := FlushPending(start);
      ghost var m1 := Now();
      ghost var flush := FlushPart(m.disk);
      ghost var rest := Then(RecoverPart(m.disk), NormalizePlan(m.disk));
      LoadInParts(m.disk);
      if answer != Some(Ok) {
        FollowStops(m, flush, rest, Now(), answer);
        return;
      }
      AfterFlush(m, m1);
      answer, r := RecoverTail(r);
      ghost var m2 := Now();
      if answer != Some(Ok) {
        FollowStops(m1, RecoverPart(m.disk), NormalizePlan(m.disk), Now(), answer);
        FollowThen(m, flush, m1, rest, Now(), answer);
        return;
      }
      var found := r;
      r := Normalized(found);
      StretchNone(m2);
      if changed || r != found {
        var ok := WriteSnapshot(r);
        answer := if ok then Some(Ok) else None;
      }
      FollowThen(m1, RecoverPart(m.disk), m2, NormalizePlan(m.disk), Now(), answer);
      FollowThen(m, flush, m1, rest, Now(), answer);
    }

    // -------------------------------------------------------------- operations

    /** Pauses, resumes, completes or cancels the session: journal first, snapshot second. */
    method TransitionSession(target: Status) returns (answer: Option<Reply>)
      modifies this
      ensures Followed(old(Now()), OpPlan(old(Now().disk), Transition(target)), Now(), answer)
    {
      hide Stretch, LoadPlan, LifecycleKind;
      ghost var m := Now();
      var r: Record;
      answer, r := LoadSession();
      ghost var m1 := Now();
      ghost var body := TransitionBody(r, target);
      if answer != Some(Ok) {
        FollowStops(m, LoadPlan(m.disk), Loaded(m.disk, Transition(target)), Now(), answer);
        return;
      }
      assert m1.disk == PerformAll(m.disk, LoadPlan(m.disk).ios) by { StretchCompleted(m, LoadPlan(m.disk).ios, m1); }
      if r.status == target {
        StretchNone(m1);
      } else if !MayMove(r.status, target) {
        StretchNone(m1);
        answer := Some(Rejected(Conflict));
      } else {
        var e := LifecycleEvent(target, r.last + 1, r.stateVersion + 1);
        var r' := r.(status := target, last := e.sequence, stateVersion := e.stateVersion,
                     generation := r.generation + 1);
        if Ended(target) {
          r' := r'.(processed := e.sequence);
        }
        answer := LogThenSnapshot(e, r', Ok);
      }
      FollowThen(m, LoadPlan(m.disk), m1, body, Now(), answer);
    }

    method LogThenSnapshot(e: Event, r: Record, reply: Reply) returns (answer: Option<Reply>)
      modifies this
      ensures Followed(old(Now()), Plan([Append(e), Replace(r)], reply), Now(), answer)
    {
      hide Stretch;
      ghost var m := Now();
      assert [Append(e)] + [Replace(r)] == [Append(e), Replace(r)];
      var ok := AppendEvent(e);
      ghost var m1 := Now();
      if !ok {
        StretchFails(m, [Append(e)], [Replace(r)], m1);
        return None;
      }
      ok := WriteSnapshot(r);
      StretchThen(m, [Append(e)], m1, [Replace(r)], Now(), ok);
      return if ok then Some(reply) else None;
    }

    /** Logs one external event, recognising the resubmission of the latest one of its source. */
    method SubmitEvent(i: Input) returns (answer: Option<Reply>)
      modifies this
      ensures Followed(old(Now()), OpPlan(old(Now().disk), Submit(i)), Now(), answer)
    {
      hide Stretch, LoadPlan, HashText;
      ghost var m := Now();
      if i.source == GODEX {
        StretchNone(m);
        return Some(Rejected(ReservedSource));
      }
      var r: Record;
      answer, r := LoadSession();
      ghost var m1 := Now();
      ghost var body := SubmitBody(r, i);
      if answer != Some(Ok) {
        FollowStops(m, LoadPlan(m.disk), Loaded(m.disk, Submit(i)), Now(), answer);
        return;
      }
      assert m1.disk == PerformAll(m.disk, LoadPlan(m.disk).ios) by { StretchCompleted(m, LoadPlan(m.disk).ios, m1); }
      StretchNone(m1);
      var known := i.source in r.cursors;
      var hash := HashText(i.kind, i.correlation, i.occurredAt, i.payload);
      if i.sourceSeq > 0 && known && i.sourceSeq == r.cursors[i.source].sourceSeq && hash == r.cursors[i.source].hash {
        answer := Some(Receipt(r.cursors[i.source].eventSeq, true));
      } else if i.sourceSeq > 0 && known && i.sourceSeq <= r.cursors[i.source].sourceSeq {
        answer := Some(Rejected(Conflict));
      } else if r.status != Active {
        answer := Some(Rejected(Conflict));
      } else if r.last - r.processed >= MAX_PENDING {
        answer := Some(Rejected(PendingLimit));
      } else if !known && |r.cursors| >= MAX_SOURCES {
        answer := Some(Rejected(Conflict));
      } else {
        var e := InputEvent(i, r.last + 1, r.stateVersion + 1);
        var r' := r.(last := e.sequence, stateVersion := e.stateVersion);
        if i.sourceSeq > 0 {
          r' := r'.(cursors := r.cursors[i.source := Cursor(i.sourceSeq, e.sequence, hash)]);
        }
        answer := LogThenSnapshot(e, r', Receipt(e.sequence, false));
      }
      FollowThen(m, LoadPlan(m.disk), m1, body, Now(), answer);
    }

    /** Moves the cursor past a runtime event. */
    method CheckpointCursor(sequence: nat, generation: nat) returns (answer: Option<Reply>)
      modifies this
      ensures Followed(old(Now()), OpPlan(old(Now().disk), Checkpoint(sequence, generation)), Now(), answer)
    {
      hide Stretch, LoadPlan;
      ghost var m := Now();
      var r: Record;
      answer, r := LoadSession();
      ghost var m1 := Now();
      ghost var body := CheckpointBody(r, sequence, generation);
      if answer != Some(Ok) {
        FollowStops(m, LoadPlan(m.disk), Loaded(m.disk, Checkpoint(sequence, generation)), Now(), answer);
        return;
      }
      assert m1.disk == PerformAll(m.disk, LoadPlan(m.disk).ios) by { StretchCompleted(m, LoadPlan(m.disk).ios, m1); }
      StretchNone(m1);
      if r.generation != generation {
        answer := Some(Rejected(StaleWork));
      } else if r.status != Active {
        answer := Some(Rejected(Conflict));
      } else if sequence != r.processed + 1 || sequence > r.last {
        answer := Some(Rejected(Conflict));
      } else {
        var ok := WriteSnapshot(r.(processed := sequence, generation := r.generation + 1));
        answer := if ok then Some(Ok) else None;
      }
      FollowThen(m, LoadPlan(m.disk), m1, body, Now(), answer);
    }

    /** Skips a prepared event without running it. */
    method CancelWork(sequence: nat, generation: nat, kind: string) returns (answer: Option<Reply>)
      modifies this
      ensures Followed(old(Now()), OpPlan(old(Now().disk), Cancel(sequence, generation, kind)), Now(), answer)
    {
      hide Stretch, LoadPlan, FlushPlan, MendPlan;
      ghost var m := Now();
      var r: Record;
      answer, r := LoadSession();
      ghost var m1 := Now();
      ghost var body := CancelBody(r, log, sequence, generation, kind);
      if answer != Some(Ok) {
        FollowStops(m, LoadPlan(m.disk), Loaded(m.disk, Cancel(sequence, generation, kind)), Now(), answer);
        return;
      }
      assert m1.disk == PerformAll(m.disk, LoadPlan(m.disk).ios) by { StretchCompleted(m, LoadPlan(m.disk).ios, m1); }
      StretchNone(m1);
      if r.processed >= sequence || r.generation != generation || r.status != Active
         || sequence != r.processed + 1 || sequence > r.last {
        answer := Some(Settled(false));
      } else {
        var r' := r.(processed := sequence, stateVersion := r.stateVersion + 1, generation := r.generation + 1,
                     lastError := "", lastKind := kind);
        LoadLeavesNoTail(m, m1);
        answer := SnapshotThenFlush(r');
        StretchNone(Now());
        ghost var m2 := Now();
        ghost var written := Then(Plan([Replace(r')], Ok), FlushPlan(r', m1.disk.log));
        if answer == Some(Ok) {
          answer := Some(Settled(true));
          FollowThen(m1, written, m2, Plan([], Settled(true)), m2, answer);
        } else {
          FollowStops(m1, written, Plan([], Settled(true)), m2, answer);
        }
      }
      FollowThen(m, LoadPlan(m.disk), m1, body, Now(), answer);
    }

    /** Writes a snapshot and then flushes the outbox it holds. */
    method SnapshotThenFlush(r: Record) returns (answer: Option<Reply>)
      requires tail == NoTail
      modifies this
      ensures Followed(old(Now()), Then(Plan([Replace(r)], Ok), FlushPlan(r, old(log))), Now(), answer)
    {
      hide Stretch, FlushFrom;
      ghost var m := Now();
      var ok := WriteSnapshot(r);
      ghost var m1 := Now();
      if !ok {
        FollowStops(m, Plan([Replace(r)], Ok), FlushPlan(r, m.disk.log), m1, None);
        return None;
      }
      ghost var flush := FlushPlan(r, m1.disk.log);
      assert Then(MendPlan(m1.disk), flush) == flush by { assert [] + flush.ios == flush.ios; }
      var r';
      answer, r' := FlushPending(r);
      FollowThen(m, Plan([Replace(r)], Ok), m1, flush, Now(), answer);
    }

    /** Gives each output its journal sequence, within the size limits. */
    method StageOutputs(r: Record, outputs: seq<Output>) returns (ok: bool, r': Record)
      ensures ok == Fits(outputs)
      ensures ok ==> r' == Staged(r, outputs)
    {
      hide TotalBytes;
      r' := r;
      assert TotalBytes([]) == 0 by { NoBytes(); }
      if |outputs| == 0 {
        return true, r;
      }
      var pending: seq<Event> := [];
      var total := 0;
      for i := 0 to |outputs|
        invariant total == TotalBytes(outputs[..i]) <= MAX_BATCH_BYTES
        invariant forall o | o in outputs[..i] :: |o.payload| <= MAX_PAYLOAD_BYTES
        invariant r' == r.(last := r.last + i, stateVersion := r.stateVersion + i)
        invariant pending == OutputEvents(outputs[..i], r.last, r.stateVersion)
      {
        TotalBytesStep(outputs, i);
        var size := |outputs[i].payload|;
        if size > MAX_PAYLOAD_BYTES {
          assert outputs[i] in outputs;
          return false, r;
        }
        total := total + size;
        if total > MAX_BATCH_BYTES {
          TotalBytesGrows(outputs, i + 1);
          return false, r;
        }
        r' := r'.(last := r'.last + 1, stateVersion := r'.stateVersion + 1);
        pending := pending + [OutputEvent(outputs[i], r'.last, r'.stateVersion)];
      }
      assert outputs[..|outputs|] == outputs;
      return true, r'.(pending := pending);
    }

    /** Whether the latest outputs of a signal fit a snapshot. */
    method SnapshotOutputs(outputs: seq<Output>) returns (ok: bool)
      ensures ok == FitsLatest(outputs)
    {
      hide LatestTotal;
      assert LatestTotal([]) == 0 by { NoLatest(); }
      var total := 0;
      for i := 0 to |outputs|
        invariant total == LatestTotal(outputs[..i]) <= MAX_BATCH_BYTES
        invariant forall o | o in outputs[..i] :: o.latestBytes <= MAX_PAYLOAD_BYTES
      {
        LatestTotalStep(outputs, i);
        if outputs[i].latestBytes > MAX_PAYLOAD_BYTES {
          assert outputs[i] in outputs;
          return false;
        }
        total := total + outputs[i].latestBytes;
        if total > MAX_BATCH_BYTES {
          LatestTotalGrows(outputs, i + 1);
          return false;
        }
      }
      assert outputs[..|outputs|] == outputs;
      return true;
    }

    /** Installs a worker's result: outbox in the snapshot first, journal second. */
    method CommitProgress(sequence: nat, generation: nat, kind: string,
                          outputs: seq<Output>, state: Option<State>, error: string) returns (answer: Option<Reply>)
      modifies this
      ensures Followed(old(Now()), OpPlan(old(Now().disk), Commit(sequence, generation, kind, outputs, state, error)),
                       Now(), answer)
    {
      hide Stretch, LoadPlan, FlushPlan, MendPlan, Fits, Staged;
      ghost var m := Now();
      ghost var op := Commit(sequence, generation, kind, outputs, state, error);
      var r: Record;
      answer, r := LoadSession();
      ghost var m1 := Now();
      ghost var body := CommitBody(r, log, sequence, generation, kind, outputs, state, error);
      if answer != Some(Ok) {
        FollowStops(m, LoadPlan(m.disk), Loaded(m.disk, op), Now(), answer);
        return;
      }
      assert m1.disk == PerformAll(m.disk, LoadPlan(m.disk).ios) by { StretchCompleted(m, LoadPlan(m.disk).ios, m1); }
      StretchNone(m1);
      if r.generation != generation {
        answer := Some(Rejected(StaleWork));
      } else if r.status != Active {
        answer := Some(Rejected(Conflict));
      } else if sequence != r.processed + 1 || sequence > r.last {
        answer := Some(Rejected(Conflict));
      } else {
        var next := r.(lastError := error, processed := sequence, stateVersion := r.stateVersion + 1,
                       generation := r.generation + 1, lastKind := kind);
        if state.Some? {
          next := next.(state := state.value);
        }
        var ok, r' := StageOutputs(next, outputs);
        if !ok {
          answer := Some(Rejected(TooLarge));
        } else {
          LoadLeavesNoTail(m, m1);
          answer := SnapshotThenFlush(r');
        }
      }
      FollowThen(m, LoadPlan(m.disk), m1, body, Now(), answer);
    }

    /** Installs the result of a signal, if nothing happened since it was read. */
    method CheckpointSignal(stateVersion: nat, generation: nat,
                            outputs: seq<Output>, state: Option<State>, error: string) returns (answer: Option<Reply>)
      modifies this
      ensures Followed(old(Now()), OpPlan(old(Now().disk), Signal(stateVersion, generation, outputs, state, error)),
                       Now(), answer)
    {
      hide Stretch, LoadPlan, FitsLatest;
      ghost var m := Now();
      ghost var op := Signal(stateVersion, generation, outputs, state, error);
      var r: Record;
      answer, r := LoadSession();
      ghost var m1 := Now();
      ghost var body := SignalBody(r, stateVersion, generation, outputs, state, error);
      if answer != Some(Ok) {
        FollowStops(m, LoadPlan(m.disk), Loaded(m.disk, op), Now(), answer);
        return;
      }
      assert m1.disk == PerformAll(m.disk, LoadPlan(m.disk).ios) by { StretchCompleted(m, LoadPlan(m.disk).ios, m1); }
      StretchNone(m1);
      if r.status != Active {
        answer := Some(Rejected(Conflict));
      } else if r.last > r.processed {
        answer := Some(Rejected(PendingEvents));
      } else if r.stateVersion != stateVersion || r.generation != generation {
        answer := Some(Rejected(StaleSignal));
      } else {
        var fits := SnapshotOutputs(outputs);
        if !fits {
          answer := Some(Rejected(TooLarge));
        } else {
          var ok := WriteSnapshot(r.(state := if state.Some? then state.value else r.state, lastError := error,
                                     stateVersion := r.stateVersion + 1, generation := r.generation + 1,
                                     signalOutputs := outputs));
          answer := if ok then Some(Ok) else None;
        }
      }
      FollowThen(m, LoadPlan(m.disk), m1, body, Now(), answer);
    }
  }
}
