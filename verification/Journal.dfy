/**
 The bytes of `events.jsonl`: repairing a torn tail, and reading the journal in
 full or page by page.
 */
module Journal {
  import opened SessionTypes
  import opened SessionDisk

  type Byte = b: int | 0 <= b < 256

  const NEWLINE: Byte := 10
  const CHUNK: nat := 4096

  /** The JSON encoding of an event. */
  datatype Codec = Codec(encode: Event -> seq<Byte>, decode: seq<Byte> -> Option<Event>)

  /** Encoding is injective and newline-free, and no proper prefix of an encoded event decodes. */
  ghost predicate Lawful(c: Codec) {
    forall e: Event :: LawfulFor(c, e)
  }

  ghost predicate LawfulFor(c: Codec, e: Event) {
    && |c.encode(e)| > 0
    && NEWLINE !in c.encode(e)
    && c.decode(c.encode(e)) == Some(e)
    && forall k | 0 <= k < |c.encode(e)| :: c.decode(c.encode(e)[..k]) == None
  }

  function Line(c: Codec, e: Event): seq<Byte> {
    c.encode(e) + [NEWLINE]
  }

  /** The bytes of a journal that ends with a complete record. */
  function Lines(c: Codec, es: seq<Event>): seq<Byte>
    decreases |es|
  {
    if es == [] then [] else Lines(c, es[..|es| - 1]) + Line(c, es[|es| - 1])
  }

  // ---------------------------------------------------------------- reading the last record

  datatype LastRead = LastRead(found: Option<Event>, corrupt: bool, bytes: seq<Byte>)

  /** Where the bytes end once trailing newlines are dropped. */
  function ContentEnd(b: seq<Byte>): (end: nat)
    ensures end <= |b|
    decreases |b|
  {
    if b == [] || b[|b| - 1] != NEWLINE then |b| else ContentEnd(b[..|b| - 1])
  }

  /** Where the line that ends at `end` starts. */
  function LineStart(b: seq<Byte>, end: nat): (start: nat)
    requires end <= |b|
    ensures start <= end
  {
    if end == 0 || b[end - 1] == NEWLINE then end else LineStart(b, end - 1)
  }

  lemma {:induction false} ContentEndStops(b: seq<Byte>)
    ensures ContentEnd(b) > 0 ==> b[ContentEnd(b) - 1] != NEWLINE
    decreases |b|
  {
    if b != [] && b[|b| - 1] == NEWLINE {
      ContentEndStops(b[..|b| - 1]);
    }
  }

  /** The last record of a file, and the file once its tail is repaired. */
  function ReadLast(c: Codec, b: seq<Byte>): LastRead
    decreases |b|
  {
    var end := ContentEnd(b);
    if end == 0 then LastRead(None, false, b)
    else
      var start := LineStart(b, end);
      ContentEndStops(b);
      match c.decode(b[start..end])
      case None => if end == |b| then ReadLast(c, b[..start]) else LastRead(None, true, b)
      case Some(e) => LastRead(Some(e), false, if end == |b| then b + [NEWLINE] else b)
  }

  /** The journal file as the store holds it open. */
  class JournalFile {
    var bytes: seq<Byte>
    const codec: Codec

    constructor (codec: Codec, bytes: seq<Byte>)
      ensures this.codec == codec && this.bytes == bytes
    {
      this.codec := codec;
      this.bytes := bytes;
    }

    /** Finds the last record by scanning backwards in chunks, and repairs an unterminated tail. */
    method Last() returns (found: Option<Event>, corrupt: bool)
      modifies this
      ensures LastRead(found, corrupt, bytes) == ReadLast(codec, old(bytes))
      decreases |bytes|
    {
      var size := |bytes|;
      var end := size;
      var finalNewline := false;
      assert bytes[..end] == bytes;
      while end > 0 && bytes[end - 1] == NEWLINE
        invariant 0 <= end <= size && bytes == old(bytes)
        invariant ContentEnd(bytes) == ContentEnd(bytes[..end])
        invariant finalNewline == (end < size)
      {
        assert bytes[..end][..end - 1] == bytes[..end - 1];
        finalNewline := true;
        end := end - 1;
      }
      assert ContentEnd(bytes) == end;
      if end == 0 {
        return None, false;
      }
      var lineStart := FindLineStart(bytes, end);
      var event := codec.decode(bytes[lineStart..end]);
      if event.None? {
        if finalNewline {
          return None, true;
        }
        ContentEndStops(bytes);
        bytes := bytes[..lineStart];
        found, corrupt := Last();
        return;
      }
      if !finalNewline {
        bytes := bytes + [NEWLINE];
      }
      return event, false;
    }
  }

  /** The index after the last newline before `end`, searched in chunks from the back. */
  method FindLineStart(b: seq<Byte>, end: nat) returns (start: nat)
    requires end <= |b|
    ensures start == LineStart(b, end)
  {
    var searchEnd := end;
    start := 0;
    while searchEnd > 0
      invariant 0 <= searchEnd <= end
      invariant LineStart(b, end) == LineStart(b, searchEnd)
    {
      var chunkStart := if searchEnd > CHUNK then searchEnd - CHUNK else 0;
      var index := LastNewline(b[chunkStart..searchEnd]);
      if index >= 0 {
        start := chunkStart + index + 1;
        LineStartSkips(b, start, searchEnd);
        return;
      }
      LineStartSkips(b, chunkStart, searchEnd);
      searchEnd := chunkStart;
    }
  }

  method LastNewline(chunk: seq<Byte>) returns (index: int)
    ensures -1 <= index < |chunk|
    ensures index >= 0 ==> chunk[index] == NEWLINE
    ensures forall k | index < k < |chunk| :: chunk[k] != NEWLINE
  {
    index := |chunk| - 1;
    while index >= 0 && chunk[index] != NEWLINE
      invariant -1 <= index < |chunk|
      invariant forall k | index < k < |chunk| :: chunk[k] != NEWLINE
    {
      index := index - 1;
    }
  }

  lemma {:induction false} LineStartSkips(b: seq<Byte>, from: nat, end: nat)
    requires from <= end <= |b|
    requires forall k | from <= k < end :: b[k] != NEWLINE
    ensures LineStart(b, end) == LineStart(b, from)
    decreases end - from
  {
    if from < end {
      LineStartSkips(b, from, end - 1);
    }
  }

  // ---------------------------------------------------------------- the torn tail

  /** The bytes that a stopped append leaves after the last newline. */
  ghost predicate TailBytes(c: Codec, tail: Tail, rest: seq<Byte>) {
    match tail
    case NoTail => rest == []
    case Unterminated(e) => rest == c.encode(e)
    case Torn => exists e: Event, k: nat :: 0 < k < |c.encode(e)| && rest == c.encode(e)[..k]
  }

  /** The file holds the journal and the tail of a disk. */
  ghost predicate Represents(c: Codec, b: seq<Byte>, d: Disk) {
    exists rest: seq<Byte> :: TailBytes(c, d.tail, rest) && b == Lines(c, d.log) + rest
  }

  lemma {:induction false} LinesAppend(c: Codec, es: seq<Event>, e: Event)
    ensures Lines(c, es + [e]) == Lines(c, es) + Line(c, e)
  {
    assert (es + [e])[..|es|] == es;
  }

  lemma {:induction false} RepresentsBy(c: Codec, d: Disk, rest: seq<Byte>)
    requires TailBytes(c, d.tail, rest)
    ensures Represents(c, Lines(c, d.log) + rest, d)
  {
    hide Lines, TailBytes;
  }

  /** Every way to stop an append is one of the three tails, or the finished append. */
  lemma {:induction false} AppendTears(c: Codec, d: Disk, e: Event, k: nat)
    requires d.tail == NoTail && k <= |Line(c, e)|
    ensures var b := Lines(c, d.log) + Line(c, e)[..k];
            || Represents(c, b, TearAppend(d, e, Nothing))
            || Represents(c, b, TearAppend(d, e, SomeBytes))
            || Represents(c, b, TearAppend(d, e, AllButNewline))
            || Represents(c, b, Perform(d, Append(e)))
  {
    hide Lines, Represents;
    var rest := Line(c, e)[..k];
    if k == 0 {
      RepresentsBy(c, TearAppend(d, e, Nothing), rest);
    } else if k < |c.encode(e)| {
      assert rest == c.encode(e)[..k];
      RepresentsBy(c, TearAppend(d, e, SomeBytes), rest);
    } else if k == |c.encode(e)| {
      assert rest == c.encode(e);
      RepresentsBy(c, TearAppend(d, e, AllButNewline), rest);
    } else {
      assert rest == Line(c, e);
      LinesAppend(c, d.log, e);
      RepresentsBy(c, Perform(d, Append(e)), []);
      assert Lines(c, d.log + [e]) + [] == Lines(c, d.log) + rest;
    }
  }

  lemma {:induction false} LinesEndWithNewline(c: Codec, es: seq<Event>)
    ensures Lines(c, es) != [] ==> Lines(c, es)[|Lines(c, es)| - 1] == NEWLINE
    ensures es != [] ==> Lines(c, es) != []
  {
  }

  /** After a complete journal, a newline-free remainder is exactly the last line. */
  lemma {:induction false} LastLine(c: Codec, es: seq<Event>, rest: seq<Byte>, more: seq<Byte>)
    requires NEWLINE !in rest && rest != []
    requires more == [] || more == [NEWLINE]
    ensures var b := Lines(c, es) + rest + more;
            && ContentEnd(b) == |Lines(c, es)| + |rest|
            && LineStart(b, ContentEnd(b)) == |Lines(c, es)|
            && b[|Lines(c, es)|..ContentEnd(b)] == rest
  {
    hide Lines, ContentEnd, LineStart;
    LinesEndWithNewline(c, es);
    LastLineOf(Lines(c, es), rest, more);
  }

  /** A newline-free line at the end of any file is found as its last line. */
  lemma {:induction false} LastLineOf(front: seq<Byte>, line: seq<Byte>, more: seq<Byte>)
    requires front == [] || front[|front| - 1] == NEWLINE
    requires NEWLINE !in line && line != [] && (more == [] || more == [NEWLINE])
    ensures var b := front + line + more;
            && ContentEnd(b) == |front| + |line|
            && LineStart(b, ContentEnd(b)) == |front|
            && b[|front|..ContentEnd(b)] == line
  {
    var b := front + line + more;
    var end := |front| + |line|;
    assert b[end - 1] == line[|line| - 1];
    assert (front + line)[|front + line| - 1] == line[|line| - 1];
    if more == [NEWLINE] {
      assert b[..|b| - 1] == front + line;
    } else {
      assert b == front + line;
    }
    forall k | |front| <= k < end ensures b[k] != NEWLINE {
      assert b[k] == line[k - |front|];
    }
    LineStartSkips(b, |front|, end);
    assert front != [] ==> b[|front| - 1] == front[|front| - 1];
  }

  /**
   A last line that does not decode is reported as corruption when it is newline-terminated, and
   nothing is cut; without its newline it is cut off, and what stands before it is read instead.
   */
  lemma {:induction false} UndecodableLast(c: Codec, front: seq<Byte>, line: seq<Byte>)
    requires front == [] || front[|front| - 1] == NEWLINE
    requires NEWLINE !in line && line != [] && c.decode(line).None?
    ensures ReadLast(c, front + line + [NEWLINE]) == LastRead(None, true, front + line + [NEWLINE])
    ensures ReadLast(c, front + line) == ReadLast(c, front)
  {
    hide ContentEnd, LineStart;
    LastLineOf(front, line, [NEWLINE]);
    LastLineOf(front, line, []);
    assert front + line + [] == front + line;
    assert (front + line)[..|front|] == front;
  }

  lemma {:induction false} CompleteJournal(c: Codec, es: seq<Event>)
    requires Lawful(c)
    ensures ReadLast(c, Lines(c, es)) ==
            LastRead(if es == [] then None else Some(es[|es| - 1]), false, Lines(c, es))
  {
    if es != [] {
      var e := es[|es| - 1];
      var front := es[..|es| - 1];
      assert LawfulFor(c, e);
      LastLine(c, front, c.encode(e), [NEWLINE]);
      assert Lines(c, es) == Lines(c, front) + c.encode(e) + [NEWLINE];
    }
  }

  /** A record that lacks only its newline is kept. */
  lemma {:induction false} WholeTailKept(c: Codec, es: seq<Event>, e: Event)
    requires Lawful(c)
    ensures ReadLast(c, Lines(c, es) + c.encode(e)) == LastRead(Some(e), false, Lines(c, es + [e]))
  {
    assert LawfulFor(c, e);
    var b := Lines(c, es) + c.encode(e);
    LastLine(c, es, c.encode(e), []);
    assert b == Lines(c, es) + c.encode(e) + [];
    assert (es + [e])[..|es + [e]| - 1] == es;
  }

  /** A record that lacks more than its newline is dropped, and nothing else is. */
  lemma {:induction false} PartialTailDropped(c: Codec, es: seq<Event>, e: Event, k: nat)
    requires Lawful(c) && 0 < k < |c.encode(e)|
    ensures ReadLast(c, Lines(c, es) + c.encode(e)[..k]) == ReadLast(c, Lines(c, es))
  {
    assert LawfulFor(c, e);
    var rest := c.encode(e)[..k];
    var b := Lines(c, es) + rest;
    LastLine(c, es, rest, []);
    assert b == Lines(c, es) + rest + [];
    assert b[..|Lines(c, es)|] == Lines(c, es);
  }

  /**
   Repair keeps every complete record, keeps the last record exactly when all of
   its bytes arrived, and leaves the file newline-terminated.
   */
  lemma {:induction false} TornTailRepaired(c: Codec, b: seq<Byte>, d: Disk)
    requires Lawful(c) && Represents(c, b, d)
    ensures ReadLast(c, b).bytes == Lines(c, Mended(d))
    ensures !ReadLast(c, b).corrupt
    ensures ReadLast(c, b).found == if Mended(d) == [] then None else Some(Mended(d)[|Mended(d)| - 1])
    ensures Represents(c, ReadLast(c, b).bytes, Perform(d, Mend))
  {
    hide Lawful, ReadLast, Lines;
    var rest :| TailBytes(c, d.tail, rest) && b == Lines(c, d.log) + rest;
    CompleteJournal(c, d.log);
    match d.tail {
      case NoTail =>
        assert b == Lines(c, d.log);
      case Unterminated(e) =>
        WholeTailKept(c, d.log, e);
      case Torn =>
        var e: Event, k: nat :| 0 < k < |c.encode(e)| && rest == c.encode(e)[..k];
        PartialTailDropped(c, d.log, e, k);
    }
    assert TailBytes(c, NoTail, []);
    assert Lines(c, Mended(d)) + [] == Lines(c, Mended(d));
  }

  // ---------------------------------------------------------------- scanning

  datatype Page = Page(events: seq<Event>, next: nat)

  /** The first `limit` events after `after`, from record `i` on, and the record after the last one read. */
  function PageOf(es: seq<Event>, i: nat, after: nat, limit: nat): (p: Page)
    requires i <= |es| && limit >= 1
    ensures i <= p.next <= |es| && |p.events| <= limit
    decreases |es| - i
  {
    if i == |es| then Page([], i)
    else if es[i].sequence <= after then PageOf(es, i + 1, after, limit)
    else if limit == 1 then Page([es[i]], i + 1)
    else
      var rest := PageOf(es, i + 1, after, limit - 1);
      Page([es[i]] + rest.events, rest.next)
  }

  /** The byte offset of record `i`. */
  function Boundary(c: Codec, es: seq<Event>, i: nat): nat
    requires i <= |es|
  {
    |Lines(c, es[..i])|
  }

  lemma {:induction false} BoundaryStep(c: Codec, es: seq<Event>, i: nat)
    requires i < |es|
    ensures Boundary(c, es, i + 1) == Boundary(c, es, i) + |c.encode(es[i])| + 1
  {
    assert es[..i + 1][..i] == es[..i];
  }

  lemma {:induction false} LinesPrefix(c: Codec, es: seq<Event>, i: nat)
    requires i <= |es|
    ensures Lines(c, es[..i]) <= Lines(c, es)
    decreases |es|
  {
    if i == |es| {
      assert es[..i] == es;
    } else {
      var front := es[..|es| - 1];
      LinesPrefix(c, front, i);
      assert front[..i] == es[..i];
    }
  }

  /** Between two boundaries stands one encoded record and its newline. */
  lemma {:induction false} RecordAt(c: Codec, es: seq<Event>, i: nat)
    requires i < |es|
    ensures var o := Boundary(c, es, i);
            var n := |c.encode(es[i])|;
            && o + n + 1 == Boundary(c, es, i + 1) <= |Lines(c, es)|
            && Lines(c, es)[o..o + n] == c.encode(es[i])
            && Lines(c, es)[o + n] == NEWLINE
  {
    BoundaryStep(c, es, i);
    LinesPrefix(c, es, i + 1);
    var o := Boundary(c, es, i);
    var n := |c.encode(es[i])|;
    var upto := Lines(c, es[..i + 1]);
    assert es[..i + 1][..i] == es[..i];
    assert upto == Lines(c, es[..i]) + c.encode(es[i]) + [NEWLINE];
    assert upto[o..o + n] == c.encode(es[i]) && upto[o + n] == NEWLINE;
    assert Lines(c, es)[..|upto|] == upto;
    assert Lines(c, es)[o..o + n] == upto[o..o + n];
  }

  /** The end of the line that starts at `from`: its newline, or the end of the file. */
  function EndOfLine(b: seq<Byte>, from: nat): (end: nat)
    requires from <= |b|
    ensures from <= end <= |b|
    decreases |b| - from
  {
    if from == |b| || b[from] == NEWLINE then from else EndOfLine(b, from + 1)
  }

  lemma {:induction false} EndOfLineIs(b: seq<Byte>, from: nat, end: nat)
    requires from <= end <= |b| && NEWLINE !in b[from..end] && (end < |b| ==> b[end] == NEWLINE)
    ensures EndOfLine(b, from) == end
    decreases end - from
  {
    if from < end {
      assert b[from] == b[from..end][0];
      assert b[from..end][1..] == b[from + 1..end];
      EndOfLineIs(b, from + 1, end);
    }
  }

  method LineEnd(b: seq<Byte>, from: nat) returns (end: nat)
    requires from <= |b|
    ensures end == EndOfLine(b, from)
  {
    end := from;
    while end < |b| && b[end] != NEWLINE
      invariant from <= end <= |b|
      invariant EndOfLine(b, from) == EndOfLine(b, end)
    {
      end := end + 1;
    }
  }

  lemma {:induction false} LineEndFound(c: Codec, es: seq<Event>, i: nat)
    requires Lawful(c) && i < |es|
    ensures Boundary(c, es, i) + |c.encode(es[i])| < |Lines(c, es)|
    ensures EndOfLine(Lines(c, es), Boundary(c, es, i)) == Boundary(c, es, i) + |c.encode(es[i])|
    ensures Lines(c, es)[Boundary(c, es, i)..Boundary(c, es, i) + |c.encode(es[i])|] == c.encode(es[i])
  {
    hide Lines, Boundary, Lawful;
    RecordAt(c, es, i);
    Decodes(c, es[i]);
    EndOfLineIs(Lines(c, es), Boundary(c, es, i), Boundary(c, es, i) + |c.encode(es[i])|);
  }

  datatype PageRead = PageRead(events: seq<Event>, next: nat) | Refused

  function Prepend(events: seq<Event>, p: PageRead): PageRead {
    if p.Refused? then Refused else p.(events := events + p.events)
  }

  /** Where the line after the one that ends at `end` starts. */
  function NextLine(b: seq<Byte>, end: nat): nat {
    if end < |b| then end + 1 else end
  }

  /** The first `limit` events after `after` in the lines from a byte offset on, if all lines up to there decode. */
  function Scanned(c: Codec, b: seq<Byte>, from: nat, after: nat, limit: nat): PageRead
    requires from <= |b| && limit >= 1
    decreases |b| - from
  {
    if from == |b| then PageRead([], from)
    else
      var end := EndOfLine(b, from);
      var e := c.decode(b[from..end]);
      var next := NextLine(b, end);
      if e.None? then Refused
      else if e.value.sequence <= after then Scanned(c, b, next, after, limit)
      else if limit == 1 then PageRead([e.value], next)
      else Prepend([e.value], Scanned(c, b, next, after, limit - 1))
  }

  lemma {:induction false} PrependTwice(a: seq<Event>, b: seq<Event>, p: PageRead)
    ensures Prepend(a, Prepend(b, p)) == Prepend(a + b, p) && Prepend([], p) == p
  {
    if p.PageRead? {
      assert a + (b + p.events) == a + b + p.events;
    }
  }

  /** A line that does not decode ends a scan with an error, wherever it is met. */
  lemma {:induction false} UndecodableLineRefuses(c: Codec, front: seq<Byte>, line: seq<Byte>, rest: seq<Byte>,
                                                  after: nat, limit: nat)
    requires NEWLINE !in line && (line != [] || rest != []) && (rest == [] || rest[0] == NEWLINE)
    requires c.decode(line).None? && limit >= 1
    ensures Scanned(c, front + line + rest, |front|, after, limit) == Refused
  {
    hide EndOfLine;
    var b := front + line + rest;
    assert b[|front|..|front| + |line|] == line;
    EndOfLineIs(b, |front|, |front| + |line|);
  }

  /** Reads a page from a byte offset, which may be any offset in the file. */
  method ReadPage(c: Codec, b: seq<Byte>, after: nat, offset: int, limit: nat) returns (page: PageRead)
    requires limit >= 1
    ensures page == if offset < 0 || offset > |b| then Refused else Scanned(c, b, offset, after, limit)
  {
    hide EndOfLine, Prepend;
    if offset < 0 || offset > |b| {
      return Refused;
    }
    var events: seq<Event> := [];
    var next: nat := offset;
    PrependTwice([], [], Scanned(c, b, next, after, limit));
    while next < |b|
      invariant offset <= next <= |b| && |events| < limit
      invariant Scanned(c, b, offset, after, limit) == Prepend(events, Scanned(c, b, next, after, limit - |events|))
      decreases |b| - next
    {
      var end := LineEnd(b, next);
      var event := c.decode(b[next..end]);
      PrependRefused(events);
      if event.None? {
        return Refused;
      }
      next := NextLine(b, end);
      if event.value.sequence > after {
        ghost var left := if |events| + 1 < limit then limit - |events| - 1 else 1;
        PrependTwice(events, [event.value], Scanned(c, b, next, after, left));
        PrependPage(events, [event.value], next);
        events := events + [event.value];
        if |events| >= limit {
          return PageRead(events, next);
        }
      }
    }
    PrependPage(events, [], next);
    assert events + [] == events;
    return PageRead(events, next);
  }

  lemma PrependRefused(events: seq<Event>)
    ensures Prepend(events, Refused) == Refused
  {
  }

  lemma PrependPage(a: seq<Event>, b: seq<Event>, next: nat)
    ensures Prepend(a, PageRead(b, next)) == PageRead(a + b, next)
  {
  }

  /** Reads the journal from its beginning, as far as `limit` newer events. */
  method ReadEvents(c: Codec, b: seq<Byte>, after: nat, limit: nat) returns (events: Option<seq<Event>>)
    requires limit >= 1
    ensures var p := Scanned(c, b, 0, after, limit);
            events == if p.Refused? then None else Some(p.events)
  {
    hide EndOfLine, Prepend;
    var found: seq<Event> := [];
    var next: nat := 0;
    PrependTwice([], [], Scanned(c, b, next, after, limit));
    while next < |b|
      invariant 0 <= next <= |b| && |found| < limit
      invariant Scanned(c, b, 0, after, limit) == Prepend(found, Scanned(c, b, next, after, limit - |found|))
      decreases |b| - next
    {
      var end := LineEnd(b, next);
      var event := c.decode(b[next..end]);
      PrependRefused(found);
      if event.None? {
        return None;
      }
      next := NextLine(b, end);
      if event.value.sequence > after {
        ghost var left := if |found| + 1 < limit then limit - |found| - 1 else 1;
        PrependTwice(found, [event.value], Scanned(c, b, next, after, left));
        PrependPage(found, [event.value], next);
        found := found + [event.value];
        if |found| >= limit {
          return Some(found);
        }
      }
    }
    PrependPage(found, [], next);
    assert found + [] == found;
    return Some(found);
  }

  /**
   In a complete journal, a page from the offset of any record holds the events that `PageOf`
   describes, and the next offset is again the offset of a record.
   */
  lemma {:induction false} PageOfBytes(c: Codec, es: seq<Event>, i: nat, after: nat, limit: nat)
    requires Lawful(c) && i <= |es| && limit >= 1
    ensures Boundary(c, es, i) <= |Lines(c, es)|
    ensures var p := PageOf(es, i, after, limit);
            Scanned(c, Lines(c, es), Boundary(c, es, i), after, limit) == PageRead(p.events, Boundary(c, es, p.next))
    decreases |es| - i
  {
    hide Lawful, Lines, Boundary, EndOfLine, Prepend;
    BoundaryBelow(c, es, i);
    if i == |es| {
      LastBoundary(c, es);
    } else {
      LineEndFound(c, es, i);
      Decodes(c, es[i]);
      BoundaryStep(c, es, i);
      PageOfBytes(c, es, i + 1, after, limit);
      if es[i].sequence > after && limit > 1 {
        PageOfBytes(c, es, i + 1, after, limit - 1);
        var rest := PageOf(es, i + 1, after, limit - 1);
        PrependPage([es[i]], rest.events, Boundary(c, es, rest.next));
      }
    }
  }

  lemma {:induction false} LastBoundary(c: Codec, es: seq<Event>)
    ensures Boundary(c, es, |es|) == |Lines(c, es)|
  {
    assert es[..|es|] == es;
  }

  lemma {:induction false} BoundaryBelow(c: Codec, es: seq<Event>, i: nat)
    requires i <= |es|
    ensures Boundary(c, es, i) <= |Lines(c, es)|
  {
    LinesPrefix(c, es, i);
  }

  lemma {:induction false} Decodes(c: Codec, e: Event)
    requires Lawful(c)
    ensures c.decode(c.encode(e)) == Some(e) && NEWLINE !in c.encode(e)
  {
    assert LawfulFor(c, e);
  }

  // ---------------------------------------------------------------- paging

  function NewerThan(es: seq<Event>, after: nat): seq<Event>
    decreases |es|
  {
    if es == [] then []
    else if es[0].sequence > after then [es[0]] + NewerThan(es[1..], after)
    else NewerThan(es[1..], after)
  }

  lemma {:induction false} NewerThanStep(es: seq<Event>, i: nat, after: nat)
    requires i < |es|
    ensures NewerThan(es[i..], after) ==
            (if es[i].sequence > after then [es[i]] else []) + NewerThan(es[i + 1..], after)
  {
    assert es[i..][1..] == es[i + 1..];
  }

  /** A page is the beginning of what is newer, and the rest is still to come. */
  lemma {:induction false} PageSplits(es: seq<Event>, i: nat, after: nat, limit: nat)
    requires i <= |es| && limit >= 1
    ensures var p := PageOf(es, i, after, limit);
            && NewerThan(es[i..], after) == p.events + NewerThan(es[p.next..], after)
            && (|p.events| < limit ==> p.next == |es|)
            && (p.events != [] ==> i < p.next)
    decreases |es| - i
  {
    hide NewerThan;
    if i < |es| {
      NewerThanStep(es, i, after);
      if es[i].sequence <= after {
        PageSplits(es, i + 1, after, limit);
      } else if limit > 1 {
        PageSplits(es, i + 1, after, limit - 1);
      }
    }
  }

  /** Skipping records that are not newer changes nothing. */
  lemma {:induction false} SkipOlder(es: seq<Event>, i: nat, after: nat, limit: nat)
    requires i <= |es| && limit >= 1
    requires forall k | 0 <= k < i :: es[k].sequence <= after
    ensures PageOf(es, i, after, limit) == PageOf(es, 0, after, limit)
    decreases i
  {
    if i > 0 {
      SkipOlder(es, i - 1, after, limit);
    }
  }

  /** A page from any record before which nothing is newer is what the scan of the whole file finds. */
  lemma {:induction false} PageRefinesScan(c: Codec, es: seq<Event>, i: nat, after: nat, limit: nat)
    requires Lawful(c) && i <= |es| && limit >= 1
    requires forall k | 0 <= k < i :: es[k].sequence <= after
    ensures Boundary(c, es, i) <= |Lines(c, es)|
    ensures Scanned(c, Lines(c, es), Boundary(c, es, i), after, limit) == Scanned(c, Lines(c, es), 0, after, limit)
  {
    hide Lawful, Lines, Scanned;
    PageOfBytes(c, es, i, after, limit);
    PageOfBytes(c, es, 0, after, limit);
    SkipOlder(es, i, after, limit);
    assert Boundary(c, es, 0) == 0 by { FirstBoundary(c, es); }
  }

  lemma FirstBoundary(c: Codec, es: seq<Event>)
    ensures Boundary(c, es, 0) == 0
  {
  }

  /** Pages read one after another, each from where the last one stopped, until one is empty. */
  function Chain(es: seq<Event>, i: nat, after: nat, limit: nat): seq<Event>
    requires i <= |es| && limit >= 1
    decreases |es| - i
  {
    var p := PageOf(es, i, after, limit);
    PageSplits(es, i, after, limit);
    if p.events == [] then [] else p.events + Chain(es, p.next, after, limit)
  }

  lemma {:induction false} EmptyTail(es: seq<Event>, after: nat)
    ensures NewerThan(es[|es|..], after) == []
  {
  }

  /** Chained pages deliver every newer event exactly once and in order, for any limit. */
  lemma {:induction false} ChainDeliversAll(es: seq<Event>, i: nat, after: nat, limit: nat)
    requires i <= |es| && limit >= 1
    ensures Chain(es, i, after, limit) == NewerThan(es[i..], after)
    decreases |es| - i
  {
    var p := PageOf(es, i, after, limit);
    PageSplits(es, i, after, limit);
    EmptyTail(es, after);
    if p.events == [] {
      assert p.next == |es|;
    } else {
      ChainDeliversAll(es, p.next, after, limit);
    }
  }

  // ---------------------------------------------------------------- paging a growing journal

  /** A journal at several moments: it only grows. */
  predicate Growing(journals: seq<seq<Event>>) {
    forall j, k | 0 <= j <= k < |journals| :: journals[j] <= journals[k]
  }

  /** Pages read one after another, each from the journal of its moment and from where the last one stopped. */
  function Stream(journals: seq<seq<Event>>, i: nat, after: nat, limit: nat): (p: Page)
    requires Growing(journals) && limit >= 1 && (journals != [] ==> i <= |journals[0]|)
    ensures i <= p.next && (journals == [] ==> p.next == i)
    ensures journals != [] ==> p.next <= |journals[|journals| - 1]|
    decreases |journals|
  {
    if journals == [] then Page([], i)
    else
      var before := Stream(journals[..|journals| - 1], i, after, limit);
      var last := journals[|journals| - 1];
      assert |journals| > 1 ==> journals[|journals| - 2] <= last;
      var p := PageOf(last, before.next, after, limit);
      Page(before.events + p.events, p.next)
  }

  lemma {:induction false} NewerThanConcat(a: seq<Event>, b: seq<Event>, after: nat)
    ensures NewerThan(a + b, after) == NewerThan(a, after) + NewerThan(b, after)
    decreases |a|
  {
    if a == [] {
      assert a + b == b;
    } else {
      assert (a + b)[1..] == a[1..] + b;
      NewerThanConcat(a[1..], b, after);
    }
  }

  /** A page holds exactly the newer events among the records it passes. */
  lemma {:induction false} PageHolds(es: seq<Event>, i: nat, after: nat, limit: nat)
    requires i <= |es| && limit >= 1
    ensures var p := PageOf(es, i, after, limit); p.events == NewerThan(es[i..p.next], after)
  {
    hide NewerThan;
    var p := PageOf(es, i, after, limit);
    PageSplits(es, i, after, limit);
    assert es[i..] == es[i..p.next] + es[p.next..];
    NewerThanConcat(es[i..p.next], es[p.next..], after);
    SameFront(p.events, NewerThan(es[i..p.next], after), NewerThan(es[p.next..], after));
  }

  lemma {:induction false} SameFront(a: seq<Event>, b: seq<Event>, x: seq<Event>)
    requires a + x == b + x
    ensures a == b
  {
    assert |a + x| == |b + x|;
    assert a == (a + x)[..|a|] && b == (b + x)[..|b|];
  }

  /**
   A stream over a growing journal has delivered, exactly once and in order, every newer event up to
   where it stands, and has caught up with the journal when its last page was not full.
   */
  lemma {:induction false} StreamDelivers(journals: seq<seq<Event>>, i: nat, after: nat, limit: nat)
    requires Growing(journals) && journals != [] && i <= |journals[0]| && limit >= 1
    ensures var last := journals[|journals| - 1];
            var p := Stream(journals, i, after, limit);
            var before := Stream(journals[..|journals| - 1], i, after, limit);
            && p.events == NewerThan(last[i..p.next], after)
            && (|p.events| - |before.events| < limit ==> p.next == |last| && p.events == NewerThan(last[i..], after))
    decreases |journals|
  {
    hide NewerThan, PageOf, Growing;
    var last := journals[|journals| - 1];
    var front := journals[..|journals| - 1];
    FrontGrows(journals);
    var before := Stream(front, i, after, limit);
    if front == [] {
      assert last[i..i] == [];
      EmptyIsNotNewer(after);
    } else {
      StreamDelivers(front, i, after, limit);
      assert front[|front| - 1][i..before.next] == last[i..before.next];
    }
    PageHolds(last, before.next, after, limit);
    PageSplits(last, before.next, after, limit);
    NewerInParts(last, i, before.next, PageOf(last, before.next, after, limit).next, after);
  }

  lemma {:induction false} FrontGrows(journals: seq<seq<Event>>)
    requires Growing(journals) && journals != []
    ensures var front := journals[..|journals| - 1];
            && Growing(front)
            && (front != [] ==> front[0] == journals[0] && front[|front| - 1] <= journals[|journals| - 1])
  {
  }

  /** What is newer between two records is what is newer up to a third between them and from there on. */
  lemma {:induction false} NewerInParts(es: seq<Event>, i: nat, mid: nat, next: nat, after: nat)
    requires i <= mid <= next <= |es|
    ensures NewerThan(es[i..next], after) == NewerThan(es[i..mid], after) + NewerThan(es[mid..next], after)
    ensures next == |es| ==> es[i..next] == es[i..]
  {
    hide NewerThan;
    NewerThanConcat(es[i..mid], es[mid..next], after);
    assert es[i..next] == es[i..mid] + es[mid..next];
  }

  lemma EmptyIsNotNewer(after: nat)
    ensures NewerThan([], after) == []
  {
  }

  /** The offset of a record stays its offset when the journal grows. */
  lemma {:induction false} OffsetsStay(c: Codec, es: seq<Event>, es': seq<Event>, i: nat)
    requires es <= es' && i <= |es|
    ensures Boundary(c, es, i) == Boundary(c, es', i)
  {
    assert es[..i] == es'[..i];
  }
}
