/**
 What the replayed history of a run says about the session: where its state
 comes from, which journal entry each act wrote, and what its counters count.
 */
module SessionHistory {
  import opened SessionTypes
  import opened SessionDisk
  import opened SessionAtomic
  import opened SessionRuns

  function Butlast(acts: seq<Act>): seq<Act>
    requires acts != []
  {
    acts[..|acts| - 1]
  }

  function Newest(acts: seq<Act>): Act
    requires acts != []
  {
    acts[|acts| - 1]
  }

  // ---------------------------------------------------------------- conservation

  datatype Tally = Tally(commits: nat, cancels: nat, signals: nat, passes: nat, moves: nat, misreads: nat)

  function Counted(t: Tally, act: Act): Tally {
    match act
    case Submission(_) => t
    case Misreading(_) => t.(misreads := t.misreads + 1)
    case Movement(_) => t.(moves := t.moves + 1)
    case Commitment(_) => t.(commits := t.commits + 1)
    case Cancellation => t.(cancels := t.cancels + 1)
    case Passage => t.(passes := t.passes + 1)
    case Pulsing(_, _) => t.(signals := t.signals + 1)
  }

  function Count(acts: seq<Act>): Tally
    decreases |acts|
  {
    if acts == [] then Tally(0, 0, 0, 0, 0, 0) else Counted(Count(Butlast(acts)), Newest(acts))
  }

  predicate Balanced(s: Session, t: Tally) {
    && s.stateVersion == |s.journal| + t.commits + t.cancels + t.signals
    && s.generation == 1 + t.commits + t.passes + t.cancels + t.signals + t.moves + t.misreads
    && s.processed <= |s.journal|
  }

  lemma {:induction false} RedoBalances(region: Region, b: Session, act: Act, t: Tally)
    requires Legal(region, b, act) && Balanced(b, t)
    ensures Balanced(Redo(region, b, act), Counted(t, act))
  {
    hide LifecycleStatus, HashText, Fits, FitsLatest, WithCursor;
  }

  /** The two version counters count exactly the acts that raise them. */
  lemma {:induction false} CountersCountActs(region: Region, acts: seq<Act>, s: Session)
    requires Replay(region, acts) == Some(s)
    ensures Balanced(s, Count(acts))
    decreases |acts|
  {
    hide Legal, Redo, Balanced;
    if acts == [] {
      assert Balanced(FRESH, Tally(0, 0, 0, 0, 0, 0)) by { FreshBalanced(); }
    } else {
      var b := Replay(region, Butlast(acts)).value;
      CountersCountActs(region, Butlast(acts), b);
      RedoBalances(region, b, Newest(acts), Count(Butlast(acts)));
    }
  }

  lemma FreshBalanced()
    ensures Balanced(FRESH, Tally(0, 0, 0, 0, 0, 0))
  {
  }

  // ---------------------------------------------------------------- replay of the journal

  predicate Handles(act: Act) {
    act.Commitment? || act.Cancellation? || act.Passage?
  }

  /** What became of each journal event, in the order the events were handled. */
  function Dispositions(acts: seq<Act>): seq<Act>
    decreases |acts|
  {
    if acts == [] then []
    else if Handles(Newest(acts)) then Dispositions(Butlast(acts)) + [Newest(acts)]
    else Dispositions(Butlast(acts))
  }

  /** The state left by an outcome: a failed run, or one without a trigger, leaves it alone. */
  function Updated(state: State, o: Outcome): State {
    if StateOf(o).Some? then StateOf(o).value else state
  }

  /**
   The fold of a journal: the `n`-th handled act runs, fails, cancels or passes
   the `n`-th journal event, and a signal runs on the state as it then is.
   */
  function Fold(region: Region, journal: seq<Event>, acts: seq<Act>): State
    decreases |acts|
  {
    if acts == [] then FRESH.state
    else
      var state := Fold(region, journal, Butlast(acts));
      var n := |Dispositions(Butlast(acts))|;
      match Newest(acts)
      case Commitment(mishap) => if n < |journal| then Updated(state, Ran(region, state, journal[n], mishap)) else state
      case Pulsing(i, mishap) => Updated(state, Ran(region, state, SignalEvent(i), mishap))
      case _ => state
  }

  lemma {:induction false} FoldReadsHandled(region: Region, j: seq<Event>, j': seq<Event>, acts: seq<Act>)
    requires j <= j' && |Dispositions(acts)| <= |j|
    ensures Fold(region, j, acts) == Fold(region, j', acts)
    decreases |acts|
  {
    if acts != [] {
      FoldReadsHandled(region, j, j', Butlast(acts));
    }
  }

  /** The journal part of the history, before and after one more act. */
  predicate Accounted(region: Region, acts: seq<Act>, s: Session) {
    && |Dispositions(acts)| <= s.processed <= |s.journal|
    && (!Ended(s.status) ==> |Dispositions(acts)| == s.processed)
    && (forall i | 0 <= i < |Dispositions(acts)| ::
          Dispositions(acts)[i].Passage? <==> s.journal[i].source == GODEX)
    && s.state == Fold(region, s.journal, acts)
  }

  /** The state of a session is the fold of its journal in sequence order. */
  lemma {:induction false} StateIsFold(region: Region, acts: seq<Act>, s: Session)
    requires Replay(region, acts) == Some(s)
    ensures Accounted(region, acts, s)
    decreases |acts|
  {
    hide LifecycleStatus, HashText, Fits, FitsLatest, Misread, Moved, Committed, Dropped, Submitted, Signalled, Passed;
    if acts != [] {
      var before := Butlast(acts);
      var b := Replay(region, before).value;
      StateIsFold(region, before, b);
      RedoGrows(region, b, Newest(acts));
      FoldReadsHandled(region, b.journal, s.journal, before);
      assert s.state == Fold(region, s.journal, acts);
    }
  }

  /** How one act moves the journal, the cursor and the state. */
  lemma {:induction false} RedoGrows(region: Region, b: Session, act: Act)
    requires Legal(region, b, act) && b.processed <= |b.journal|
    ensures var s := Redo(region, b, act);
            && !Ended(b.status)
            && b.journal <= s.journal
            && b.processed <= s.processed <= |s.journal|
            && (!Ended(s.status) ==> s.processed == b.processed + (if Handles(act) then 1 else 0))
            && (Handles(act) ==> s.processed == b.processed + 1 && s.status == Active)
            && (act.Commitment? ==>
                  s.state == Updated(b.state, Ran(region, b.state, b.journal[b.processed], act.mishap)))
            && (act.Pulsing? ==> s.state == Updated(b.state, Ran(region, b.state, SignalEvent(act.signal), act.mishap)))
            && (!act.Commitment? && !act.Pulsing? ==> s.state == b.state)
  {
    hide LifecycleStatus, HashText, Fits, FitsLatest;
  }

  // ---------------------------------------------------------------- outputs, exactly once

  predicate IsOutput(e: Event) {
    e.source == GODEX && e.kind == OUTPUT_KIND
  }

  function CountOutputs(journal: seq<Event>): nat
    decreases |journal|
  {
    if journal == [] then 0
    else CountOutputs(journal[..|journal| - 1]) + (if IsOutput(journal[|journal| - 1]) then 1 else 0)
  }

  /** The outputs that an act produced when it was done on `s`. */
  function Produced(region: Region, s: Session, act: Act): seq<Output> {
    if act.Commitment? && s.processed < |s.journal|
    then OutputsOf(Ran(region, s.state, s.journal[s.processed], act.mishap)) else []
  }

  function TotalProduced(region: Region, acts: seq<Act>): nat
    decreases |acts|
  {
    if acts == [] then 0
    else
      var b := Replay(region, Butlast(acts));
      TotalProduced(region, Butlast(acts)) + (if b.Some? then |Produced(region, b.value, Newest(acts))| else 0)
  }

  lemma {:induction false} CountOutputsConcat(a: seq<Event>, b: seq<Event>)
    ensures CountOutputs(a + b) == CountOutputs(a) + CountOutputs(b)
    decreases |b|
  {
    if b == [] {
      assert a + b == a;
    } else {
      assert (a + b)[..|a + b| - 1] == a + b[..|b| - 1];
      CountOutputsConcat(a, b[..|b| - 1]);
    }
  }

  lemma {:induction false} OutputEventsAreOutputs(outputs: seq<Output>, last: nat, version: nat)
    ensures CountOutputs(OutputEvents(outputs, last, version)) == |outputs|
    decreases |outputs|
  {
    if outputs != [] {
      var es := OutputEvents(outputs, last, version);
      assert es[..|es| - 1] == OutputEvents(outputs[..|outputs| - 1], last, version);
      OutputEventsAreOutputs(outputs[..|outputs| - 1], last, version);
    }
  }

  /** The journal entries that an act writes. */
  function Written(region: Region, b: Session, act: Act): seq<Event>
    requires Legal(region, b, act)
  {
    match act
    case Submission(i) => [SubmitEvent(b, i)]
    case Misreading(i) => [SubmitEvent(b, i)]
    case Movement(target) => [LifecycleEvent(target, |b.journal| + 1, b.stateVersion + 1)]
    case Commitment(_) => OutputEvents(Produced(region, b, act), |b.journal|, b.stateVersion + 1)
    case _ => []
  }

  lemma {:induction false} RedoWrites(region: Region, b: Session, act: Act)
    requires Legal(region, b, act)
    ensures Redo(region, b, act).journal == b.journal + Written(region, b, act)
    ensures CountOutputs(Written(region, b, act)) == |Produced(region, b, act)|
  {
    hide LifecycleStatus, HashText, Fits, FitsLatest;
    var w := Written(region, b, act);
    match act
    case Commitment(_) => OutputEventsAreOutputs(Produced(region, b, act), |b.journal|, b.stateVersion + 1);
    case Movement(target) =>
      LifecycleRoundTrip(target);
      assert w[..0] == [] && !IsOutput(w[0]);
    case Submission(_) => assert w[..0] == [] && !IsOutput(w[0]);
    case Misreading(_) => assert w[..0] == [] && !IsOutput(w[0]);
    case _ => assert b.journal + [] == b.journal;
  }

  /** The journal holds as many outputs as committed runs produced: none lost, none repeated. */
  lemma {:induction false} OutputsCounted(region: Region, acts: seq<Act>, s: Session)
    requires Replay(region, acts) == Some(s)
    ensures CountOutputs(s.journal) == TotalProduced(region, acts)
    decreases |acts|
  {
    hide Legal, Redo, Written, Produced;
    if acts != [] {
      var b := Replay(region, Butlast(acts)).value;
      OutputsCounted(region, Butlast(acts), b);
      RedoWrites(region, b, Newest(acts));
      CountOutputsConcat(b.journal, Written(region, b, Newest(acts)));
    }
  }

  /** A prefix of a replayable history is replayable, on a prefix of the journal. */
  lemma {:induction false} PrefixReplays(region: Region, acts: seq<Act>, k: nat, s: Session)
    requires Replay(region, acts) == Some(s) && k <= |acts|
    ensures Replay(region, acts[..k]).Some? && Replay(region, acts[..k]).value.journal <= s.journal
    decreases |acts|
  {
    hide Legal, Redo, Written, Produced;
    if k == |acts| {
      assert acts[..k] == acts;
    } else {
      var b := Replay(region, Butlast(acts)).value;
      PrefixReplays(region, Butlast(acts), k, b);
      assert Butlast(acts)[..k] == acts[..k];
      RedoWrites(region, b, Newest(acts));
    }
  }

  /** Each act's journal entries stand together, in order, at the place they were written. */
  lemma {:induction false} WrittenStays(region: Region, acts: seq<Act>, k: nat, s: Session)
    requires Replay(region, acts) == Some(s) && k < |acts|
    ensures Replay(region, acts[..k]).Some?
    ensures var b := Replay(region, acts[..k]).value;
            Legal(region, b, acts[k]) && b.journal + Written(region, b, acts[k]) <= s.journal
  {
    hide Legal, Redo, Written;
    PrefixReplays(region, acts, k, s);
    PrefixReplays(region, acts, k + 1, s);
    assert Butlast(acts[..k + 1]) == acts[..k] && Newest(acts[..k + 1]) == acts[k];
    RedoWrites(region, Replay(region, acts[..k]).value, acts[k]);
  }

  // ---------------------------------------------------------------- sources

  predicate FromSource(e: Event, source: string) {
    e.source == source && e.sourceSeq > 0
  }

  /** Each source's numbers rise along the journal. */
  predicate Rising(journal: seq<Event>) {
    forall i, j | 0 <= i < j < |journal| && FromSource(journal[i], journal[j].source) && journal[j].sourceSeq > 0 ::
      journal[i].sourceSeq < journal[j].sourceSeq
  }

  predicate CursorPoints(journal: seq<Event>, source: string, c: Cursor) {
    && 1 <= c.eventSeq <= |journal|
    && FromSource(journal[c.eventSeq - 1], source)
    && CursorOf(journal[c.eventSeq - 1]) == c
  }

  /** The cursor of a source is its latest numbered event, and every numbered source has one. */
  predicate CursorsLatest(s: Session) {
    && (forall i | 0 <= i < |s.journal| && s.journal[i].sourceSeq > 0 ::
          && s.journal[i].source in s.cursors
          && s.journal[i].sourceSeq <= s.cursors[s.journal[i].source].sourceSeq)
    && (forall source | source in s.cursors :: CursorPoints(s.journal, source, s.cursors[source]))
  }

  predicate Orderly(s: Session) {
    Rising(s.journal) && CursorsLatest(s)
  }

  /** An entry appended without a source number leaves the cursors as they are. */
  lemma {:induction false} OrderlyQuiet(s: Session, t: Session, w: seq<Event>)
    requires Orderly(s) && t.journal == s.journal + w && t.cursors == s.cursors
    requires forall e | e in w :: e.sourceSeq == 0
    ensures Orderly(t)
  {
    forall source | source in t.cursors ensures CursorPoints(t.journal, source, t.cursors[source]) {
      assert CursorPoints(s.journal, source, s.cursors[source]);
    }
    assert forall i | |s.journal| <= i < |t.journal| :: t.journal[i] in w;
  }

  /** An accepted numbered entry moves its source's cursor forward. */
  lemma {:induction false} OrderlyNumbered(s: Session, t: Session, e: Event)
    requires Orderly(s) && t.journal == s.journal + [e] && t.cursors == s.cursors[e.source := CursorOf(e)]
    requires e.sequence == |s.journal| + 1 && e.sourceSeq > 0
    requires e.source in s.cursors ==> e.sourceSeq > s.cursors[e.source].sourceSeq
    ensures Orderly(t)
  {
    NumberedRises(s, e);
    NumberedCursors(s, t, e);
  }

  lemma {:induction false} NumberedRises(s: Session, e: Event)
    requires Orderly(s)
    requires e.source in s.cursors ==> e.sourceSeq > s.cursors[e.source].sourceSeq
    ensures Rising(s.journal + [e])
  {
    hide CursorPoints;
    var t := s.journal + [e];
    forall i, j | 0 <= i < j < |t| && FromSource(t[i], t[j].source) && t[j].sourceSeq > 0
      ensures t[i].sourceSeq < t[j].sourceSeq
    {
      assert t[i] == s.journal[i];
      if j < |s.journal| {
        assert t[j] == s.journal[j];
      }
    }
  }

  lemma {:induction false} NumberedCursors(s: Session, t: Session, e: Event)
    requires CursorsLatest(s) && t.journal == s.journal + [e] && t.cursors == s.cursors[e.source := CursorOf(e)]
    requires e.sequence == |s.journal| + 1 && e.sourceSeq > 0
    requires e.source in s.cursors ==> e.sourceSeq > s.cursors[e.source].sourceSeq
    ensures CursorsLatest(t)
  {
    hide HashText;
    forall source | source in t.cursors ensures CursorPoints(t.journal, source, t.cursors[source]) {
      if source != e.source {
        assert CursorPoints(s.journal, source, s.cursors[source]);
      }
    }
  }

  lemma {:induction false} RedoKeepsOrder(region: Region, b: Session, act: Act)
    requires Legal(region, b, act) && Orderly(b)
    ensures Orderly(Redo(region, b, act))
  {
    hide LifecycleStatus, HashText, Fits, FitsLatest, Orderly, CursorOf;
    RedoWrites(region, b, act);
    var t := Redo(region, b, act);
    if (act.Submission? || act.Misreading?) && act.input.sourceSeq > 0 {
      OrderlyNumbered(b, t, SubmitEvent(b, act.input));
    } else {
      OrderlyQuiet(b, t, Written(region, b, act));
    }
  }

  lemma {:induction false} SourcesOrderly(region: Region, acts: seq<Act>, s: Session)
    requires Replay(region, acts) == Some(s)
    ensures Orderly(s)
    decreases |acts|
  {
    hide Legal, Redo;
    if acts != [] {
      var b := Replay(region, Butlast(acts)).value;
      SourcesOrderly(region, Butlast(acts), b);
      RedoKeepsOrder(region, b, Newest(acts));
    }
  }

  // ---------------------------------------------------------------- backlog

  function CountExternal(es: seq<Event>): nat
    decreases |es|
  {
    if es == [] then 0 else (if es[0].source != GODEX then 1 else 0) + CountExternal(es[1..])
  }

  lemma {:induction false} CountExternalConcat(a: seq<Event>, b: seq<Event>)
    ensures CountExternal(a + b) == CountExternal(a) + CountExternal(b)
    decreases |a|
  {
    if a == [] {
      assert a + b == b;
    } else {
      assert (a + b)[1..] == a[1..] + b;
      CountExternalConcat(a[1..], b);
    }
  }

  lemma {:induction false} CountExternalBounded(es: seq<Event>)
    ensures CountExternal(es) <= |es|
    ensures (forall e | e in es :: e.source == GODEX) ==> CountExternal(es) == 0
    decreases |es|
  {
    if es != [] {
      CountExternalBounded(es[1..]);
    }
  }

  function Backlog(s: Session): nat
    requires s.processed <= |s.journal|
  {
    CountExternal(s.journal[s.processed..])
  }

  /** Handling events and appending runtime events never lengthens the backlog. */
  lemma {:induction false} BacklogShrinks(j: seq<Event>, w: seq<Event>, from: nat, to: nat)
    requires from <= |j| && from <= to <= |j + w|
    requires forall e | e in w :: e.source == GODEX
    ensures CountExternal((j + w)[to..]) <= CountExternal(j[from..])
  {
    CountExternalBounded(w);
    var open := (j + w)[to..];
    if to <= |j| {
      assert open == j[to..] + w;
      assert j[from..] == j[from..to] + j[to..];
      CountExternalConcat(j[to..], w);
      CountExternalConcat(j[from..to], j[to..]);
    } else {
      assert open == w[to - |j|..];
      CountExternalBounded(open);
    }
  }

  lemma {:induction false} RedoKeepsBacklog(region: Region, b: Session, act: Act)
    requires Legal(region, b, act) && b.processed <= |b.journal| && Backlog(b) <= MAX_PENDING
    ensures Redo(region, b, act).processed <= |Redo(region, b, act).journal|
    ensures Backlog(Redo(region, b, act)) <= MAX_PENDING
  {
    hide Redo, LifecycleStatus, HashText, Fits, FitsLatest, CountExternal;
    var t := Redo(region, b, act);
    RedoGrows(region, b, act);
    RedoWrites(region, b, act);
    if act.Submission? || act.Misreading? {
      CountExternalBounded(t.journal[t.processed..]);
    } else {
      BacklogShrinks(b.journal, Written(region, b, act), b.processed, t.processed);
    }
  }

  /** At most 256 external events wait, although outputs and transitions bypass the limit. */
  lemma {:induction false} BacklogBounded(region: Region, acts: seq<Act>, s: Session)
    requires Replay(region, acts) == Some(s)
    ensures s.processed <= |s.journal| && Backlog(s) <= MAX_PENDING
    decreases |acts|
  {
    hide Legal, Redo;
    if acts != [] {
      var b := Replay(region, Butlast(acts)).value;
      BacklogBounded(region, Butlast(acts), b);
      RedoKeepsBacklog(region, b, Newest(acts));
    }
  }
}
