/**
 When the hash of an event identifies its content. The hashed text joins kind,
 correlation, time and payload with NUL characters. The formatted time and the
 canonical JSON payload contain none; the kind and the correlation may.
 */
module EventIdentity {
  import opened SessionTypes
  import opened SessionDisk
  import opened SessionAtomic
  import opened Text

  datatype Content = Content(kind: string, correlation: string, occurredAt: string, payload: string)

  const MAX_KIND_BYTES: nat := 128
  const MAX_CORRELATION_BYTES: nat := 256

  predicate NulFree(s: string) {
    '\0' !in s
  }

  predicate AcceptedKind(kind: string) {
    kind != "" && Trim(kind) == kind && ByteLength(kind) <= MAX_KIND_BYTES
  }

  predicate AcceptedCorrelation(correlation: string) {
    Trim(correlation) == correlation && ByteLength(correlation) <= MAX_CORRELATION_BYTES
  }

  /** Content that normalisation lets through: trimmed and bounded, a formatted time, a canonical payload. */
  predicate Accepted(c: Content) {
    AcceptedKind(c.kind) && AcceptedCorrelation(c.correlation) && NulFree(c.occurredAt) && NulFree(c.payload)
  }

  function Hashed(c: Content): string {
    HashText(c.kind, c.correlation, c.occurredAt, c.payload)
  }

  /** No other content that can be submitted has the same hashed text. */
  ghost predicate Identified(c: Content) {
    forall c': Content :: Accepted(c') && Hashed(c') == Hashed(c) ==> c' == c
  }

  // ---------------------------------------------------------------- submitting

  /** Trims an input and refuses what is reserved, empty or too long. The payload arrives in canonical form. */
  function Normalize(i: Input): Option<Input> {
    var n := i.(source := Trim(i.source), kind := Trim(i.kind), correlation := Trim(i.correlation));
    if n.source == "" || ByteLength(n.source) > MAX_KIND_BYTES || n.source == GODEX then None
    else if n.kind == "" || ByteLength(n.kind) > MAX_KIND_BYTES then None
    else if ByteLength(n.correlation) > MAX_CORRELATION_BYTES || |n.payload| > MAX_PAYLOAD_BYTES then None
    else Some(n)
  }

  function ContentOf(i: Input): Content {
    Content(i.kind, i.correlation, i.occurredAt, i.payload)
  }

  /** What normalisation returns is accepted, never reserved, and not changed by normalising again. */
  lemma {:induction false} NormalizedIsAccepted(i: Input)
    requires NulFree(i.occurredAt) && NulFree(i.payload) && Normalize(i).Some?
    ensures var n := Normalize(i).value;
            && Accepted(ContentOf(n)) && n.source != GODEX && Normalize(n) == Some(n)
            && n.occurredAt == i.occurredAt && n.payload == i.payload && n.sourceSeq == i.sourceSeq
  {
    TrimTwice(i.source);
    TrimTwice(i.kind);
    TrimTwice(i.correlation);
  }

  /** An input is normalised exactly when its trimmed source, kind and correlation and its payload are in bounds. */
  lemma {:induction false} NormalizedIff(i: Input)
    ensures var source, kind, correlation := Trim(i.source), Trim(i.kind), Trim(i.correlation);
            Normalize(i) ==
            if && source != "" && ByteLength(source) <= 128 && source != "godex"
               && kind != "" && ByteLength(kind) <= 128 && ByteLength(correlation) <= 256 && |i.payload| <= 65536
            then Some(Input(source, i.sourceSeq, kind, correlation, i.occurredAt, i.payload)) else None
  {
    hide Trim, ByteLength;
  }

  // ---------------------------------------------------------------- splitting the hashed text

  /** What the hashed text says of kind and correlation. */
  function Label(kind: string, correlation: string): string {
    kind + "\0" + correlation
  }

  lemma {:induction false} HashedNested(c: Content)
    ensures Hashed(c) == Label(c.kind, c.correlation) + "\0" + c.occurredAt + "\0" + c.payload
  {
  }

  /** The last NUL splits a text in one way. */
  lemma {:induction false} LastSplitUnique(a: string, x: string, b: string, y: string)
    requires NulFree(x) && NulFree(y) && a + "\0" + x == b + "\0" + y
    ensures a == b && x == y
  {
    var s := a + "\0" + x;
    assert s[|a|] == '\0' && s[|b|] == '\0';
    assert forall i | |a| < i < |s| :: s[i] == x[i - |a| - 1];
    assert forall i | |b| < i < |s| :: s[i] == y[i - |b| - 1];
    assert |a| == |b|;
    assert a == s[..|a|] && b == s[..|b|];
    assert x == s[|a| + 1..] && y == s[|b| + 1..];
  }

  /** Equal hashed texts leave only the border between kind and correlation open. */
  lemma {:induction false} OnlyTheLabelIsOpen(c: Content, c': Content)
    requires NulFree(c.occurredAt) && NulFree(c.payload) && NulFree(c'.occurredAt) && NulFree(c'.payload)
    ensures Hashed(c) == Hashed(c') <==>
            && Label(c.kind, c.correlation) == Label(c'.kind, c'.correlation)
            && c.occurredAt == c'.occurredAt && c.payload == c'.payload
  {
    hide Hashed, NulFree, Label;
    HashedNested(c);
    HashedNested(c');
    var l, l' := Label(c.kind, c.correlation), Label(c'.kind, c'.correlation);
    if Hashed(c) == Hashed(c') {
      LastSplitUnique(l + "\0" + c.occurredAt, c.payload, l' + "\0" + c'.occurredAt, c'.payload);
      LastSplitUnique(l, c.occurredAt, l', c'.occurredAt);
    }
  }

  /** Another NUL of the label, at `k`, leaves an accepted kind before it and an accepted correlation after it. */
  predicate SplitsAt(c: Content, k: nat) {
    var joined := Label(c.kind, c.correlation);
    && k < |joined| && joined[k] == '\0' && k != |c.kind|
    && AcceptedKind(joined[..k]) && AcceptedCorrelation(joined[k + 1..])
  }

  /** Content that another kind and correlation would be hashed like. */
  predicate Splittable(c: Content) {
    exists k: nat | k < |Label(c.kind, c.correlation)| :: SplitsAt(c, k)
  }

  function SplitContent(c: Content, k: nat): Content
    requires k < |Label(c.kind, c.correlation)|
  {
    var joined := Label(c.kind, c.correlation);
    c.(kind := joined[..k], correlation := joined[k + 1..])
  }

  /** Every such split is other content that can be submitted, with the same hashed text. */
  lemma {:induction false} SplitCollides(c: Content, k: nat)
    requires Accepted(c) && SplitsAt(c, k)
    ensures var c' := SplitContent(c, k); Accepted(c') && c' != c && Hashed(c') == Hashed(c)
  {
    hide AcceptedKind, AcceptedCorrelation, Hashed;
    var joined := Label(c.kind, c.correlation);
    var c' := SplitContent(c, k);
    assert Label(c'.kind, c'.correlation) == joined;
    assert |c'.kind| == k != |c.kind|;
    OnlyTheLabelIsOpen(c, c');
  }

  /** Other accepted content with the same hashed text is such a split. */
  lemma {:induction false} CollisionSplits(c: Content, c': Content)
    requires Accepted(c) && Accepted(c') && c' != c && Hashed(c') == Hashed(c)
    ensures SplitsAt(c, |c'.kind|)
  {
    hide AcceptedKind, AcceptedCorrelation, Hashed;
    OnlyTheLabelIsOpen(c, c');
    var joined := Label(c.kind, c.correlation);
    assert joined == Label(c'.kind, c'.correlation);
    assert joined[..|c'.kind|] == c'.kind && joined[|c'.kind| + 1..] == c'.correlation;
    assert c.kind == joined[..|c.kind|] && c.correlation == joined[|c.kind| + 1..];
  }

  /**
   The duplicate test recognises exactly the same content if and only if no other NUL of kind and
   correlation splits them into an accepted kind and an accepted correlation.
   */
  lemma {:induction false} IdentifiedUnlessSplittable(c: Content)
    requires Accepted(c)
    ensures Identified(c) <==> !Splittable(c)
  {
    hide Accepted, Hashed, SplitsAt, SplitContent;
    if k: nat :| k < |Label(c.kind, c.correlation)| && SplitsAt(c, k) {
      SplitCollides(c, k);
    }
    forall c': Content | Accepted(c') && Hashed(c') == Hashed(c) && c' != c ensures Splittable(c) {
      CollisionSplits(c, c');
      assert SplitsAt(c, |c'.kind|) && |c'.kind| < |Label(c.kind, c.correlation)| by { SplitIsInside(c, |c'.kind|); }
    }
  }

  lemma SplitIsInside(c: Content, k: nat)
    requires SplitsAt(c, k)
    ensures k < |Label(c.kind, c.correlation)|
  {
  }

  /** In particular, content without NUL is identified. */
  lemma {:induction false} NulFreeIsIdentified(c: Content)
    requires Accepted(c) && NulFree(c.kind) && NulFree(c.correlation)
    ensures Identified(c)
  {
    hide Accepted, AcceptedKind, AcceptedCorrelation, Identified;
    IdentifiedUnlessSplittable(c);
    var joined := Label(c.kind, c.correlation);
    assert forall k | 0 <= k < |c.kind| :: joined[k] == c.kind[k];
    assert forall k | |c.kind| < k < |joined| :: joined[k] == c.correlation[k - |c.kind| - 1];
  }

  /** A NUL alone does no harm: the only other split of this accepted content has an empty kind. */
  lemma {:induction false} LoneNulIsIdentified()
    ensures Accepted(Content("\0", "", "", "{}")) && Identified(Content("\0", "", "", "{}"))
  {
    var c := Content("\0", "", "", "{}");
    assert ByteLength("\0") == 1 by { assert "\0"[1..] == ""; }
    TrimmedEnds("\0");
    assert Label("\0", "") == "\0\0";
    IdentifiedUnlessSplittable(c);
    assert "\0\0"[..0] == "";
  }

  // ---------------------------------------------------------------- the mistaken duplicate

  function InputOf(source: string, sourceSeq: nat, c: Content): Input {
    Input(source, sourceSeq, c.kind, c.correlation, c.occurredAt, c.payload)
  }

  /** After an accepted submission, anything with its hashed text and number is answered as its duplicate. */
  lemma {:induction false} CollisionIsDuplicate(s: Session, source: string, n: nat, c: Content, c': Content)
    requires SubmitAccepted(s, InputOf(source, n, c)) && n > 0 && source != GODEX && Hashed(c') == Hashed(c)
    ensures var t := Submitted(s, InputOf(source, n, c));
            && Answer(t, Submit(InputOf(source, n, c'))) == Receipt(|s.journal| + 1, true)
            && Apply(t, Submit(InputOf(source, n, c'))) == t
  {
    hide HashText;
  }

  const FIRST := Content("a\0b", "c", "", "{}")
  const SECOND := Content("a", "b\0c", "", "{}")

  /** Two different events that can be submitted; the second one is lost as a duplicate of the first. */
  lemma {:induction false} DifferentEventIsLost()
    ensures Accepted(FIRST) && Accepted(SECOND) && FIRST != SECOND && Hashed(FIRST) == Hashed(SECOND)
    ensures var s := Submitted(FRESH, InputOf("sensor", 1, FIRST));
            && OpPlan(Clean(s), Submit(InputOf("sensor", 1, SECOND))).reply == Receipt(1, true)
            && PerformAll(Clean(s), OpPlan(Clean(s), Submit(InputOf("sensor", 1, SECOND))).ios) == Clean(s)
  {
    hide Accepted, Hashed, OpPlan, SubmitAccepted, Answer, Apply, Submitted, PerformAll;
    FirstAccepted();
    SecondAccepted();
    SameHash();
    SensorIsOutside();
    CollisionIsDuplicate(FRESH, "sensor", 1, FIRST, SECOND);
    var s := Submitted(FRESH, InputOf("sensor", 1, FIRST));
    SubmitSound(FRESH, InputOf("sensor", 1, FIRST));
    CleanRoundTrip(s);
    OperationCompletes(Clean(s), Submit(InputOf("sensor", 1, SECOND)));
  }

  lemma {:induction false} SameHash()
    ensures Hashed(FIRST) == Hashed(SECOND)
  {
    hide Hashed;
    assert Label(FIRST.kind, FIRST.correlation) == Label(SECOND.kind, SECOND.correlation) == "a\0b\0c";
    OnlyTheLabelIsOpen(FIRST, SECOND);
  }

  lemma {:induction false} FirstAccepted()
    ensures Accepted(FIRST) && FIRST != SECOND
  {
    ShortLength(FIRST.kind);
    ShortLength(FIRST.correlation);
    TrimmedEnds(FIRST.kind);
    TrimmedEnds(FIRST.correlation);
    assert |FIRST.kind| == 3 && |SECOND.kind| == 1;
  }

  lemma {:induction false} SecondAccepted()
    ensures Accepted(SECOND)
  {
    ShortLength(SECOND.kind);
    ShortLength(SECOND.correlation);
    TrimmedEnds(SECOND.kind);
    TrimmedEnds(SECOND.correlation);
  }

  lemma {:induction false} ShortLength(s: string)
    ensures ByteLength(s) <= 4 * |s|
    decreases |s|
  {
    if s != "" {
      ShortLength(s[1..]);
    }
  }

  lemma {:induction false} SensorIsOutside()
    ensures "sensor" != GODEX && SubmitAccepted(FRESH, InputOf("sensor", 1, FIRST))
  {
    hide HashText;
    assert "sensor"[0] != GODEX[0];
  }
}
