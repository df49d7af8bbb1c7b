/**
 The names of repair nodes: a story id, the mark `_repair_` and a decimal number.
 Attempts are recognised by scanning a number after the mark, so a name counts as an
 attempt even when other text follows the number.
 */
module RepairNames {
  import opened SessionTypes
  import opened Text

  const MARK := "_repair_"
  const MAX_INT: nat := 0x7fff_ffff_ffff_ffff

  // ---------------------------------------------------------------- numbers

  predicate IsDigit(c: char) {
    '0' <= c <= '9'
  }

  function Digit(n: nat): char
    requires n < 10
  {
    '0' + n as char
  }

  function Decimal(n: nat): string {
    if n < 10 then [Digit(n)] else Decimal(n / 10) + [Digit(n % 10)]
  }

  predicate AllDigits(s: string) {
    forall i | 0 <= i < |s| :: IsDigit(s[i])
  }

  function Value(s: string): nat
    requires AllDigits(s)
    decreases |s|
  {
    if s == "" then 0 else Value(s[..|s| - 1]) * 10 + (s[|s| - 1] - '0') as nat
  }

  /** The digits that a text begins with. */
  function DigitPrefix(s: string): (d: string)
    ensures AllDigits(d)
    decreases |s|
  {
    if s == "" || !IsDigit(s[0]) then "" else [s[0]] + DigitPrefix(s[1..])
  }

  /** Drops leading space; a line break is not skipped. */
  function SkipSpace(s: string): string
    decreases |s|
  {
    if s != "" && Space(s[0]) && s[0] != '\n' then SkipSpace(s[1..]) else s
  }

  predicate Sign(s: string) {
    s != "" && (s[0] == '-' || s[0] == '+')
  }

  /** Scans one decimal integer: space, a sign, digits; what follows is ignored. */
  function Scan(s: string): Option<int> {
    var t := SkipSpace(s);
    var digits := DigitPrefix(if Sign(t) then t[1..] else t);
    var n: int := Value(digits);
    if digits == "" || n > MAX_INT then None
    else if Sign(t) && t[0] == '-' then Some(-n)
    else Some(n)
  }

  lemma {:induction false} DecimalValue(n: nat)
    ensures AllDigits(Decimal(n)) && Decimal(n) != "" && Value(Decimal(n)) == n
    decreases n
  {
    if n >= 10 {
      DecimalValue(n / 10);
      var front := Decimal(n / 10);
      assert (front + [Digit(n % 10)])[..|front|] == front;
    } else {
      assert Decimal(n)[..0] == "";
    }
  }

  lemma {:induction false} PrefixOfDigits(s: string)
    requires AllDigits(s)
    ensures DigitPrefix(s) == s
    decreases |s|
  {
    if s != "" {
      PrefixOfDigits(s[1..]);
      assert [s[0]] + s[1..] == s;
    }
  }

  /** Scanning reads back a number that was printed, unless it is too large for 64 bits. */
  lemma {:induction false} ScanDecimal(n: nat)
    ensures Scan(Decimal(n)) == if n <= 9223372036854775807 then Some(n) else None
  {
    DecimalValue(n);
    PrefixOfDigits(Decimal(n));
    assert IsDigit(Decimal(n)[0]);
  }

  lemma {:induction false} SkipExtend(x: string, y: string)
    requires y != "" && y[0] == '_'
    ensures SkipSpace(x + y) == SkipSpace(x) + y
    decreases |x|
  {
    if x == "" {
      assert x + y == y;
    } else {
      assert (x + y)[1..] == x[1..] + y;
      SkipExtend(x[1..], y);
    }
  }

  lemma {:induction false} PrefixExtend(x: string, y: string)
    requires y != "" && y[0] == '_'
    ensures DigitPrefix(x + y) == DigitPrefix(x)
    decreases |x|
  {
    if x == "" {
      assert x + y == y;
    } else {
      assert (x + y)[1..] == x[1..] + y;
      PrefixExtend(x[1..], y);
    }
  }

  /** Text from an underscore on does not change what is scanned. */
  lemma {:induction false} ScanExtend(x: string, y: string)
    requires y != "" && y[0] == '_'
    ensures Scan(x + y) == Scan(x)
  {
    SkipExtend(x, y);
    var t := SkipSpace(x);
    if t != "" {
      assert (t + y)[1..] == t[1..] + y;
      PrefixExtend(t[1..], y);
    }
    PrefixExtend(t, y);
  }

  /** Space before a number is skipped, and a minus makes it negative, so that it names no attempt. */
  lemma {:induction false} ScanPrefixes(n: nat)
    requires n <= MAX_INT
    ensures Scan(" " + Decimal(n)) == Some(n) && Scan("+" + Decimal(n)) == Some(n)
    ensures var m: int := n; Scan("-" + Decimal(n)) == Some(-m)
  {
    hide Decimal, Value;
    ScanDecimal(n);
    DecimalValue(n);
    PrefixOfDigits(Decimal(n));
    assert IsDigit(Decimal(n)[0]);
    assert (" " + Decimal(n))[1..] == Decimal(n);
    assert ("+" + Decimal(n))[1..] == Decimal(n) && ("-" + Decimal(n))[1..] == Decimal(n);
    assert SkipSpace("+" + Decimal(n)) == "+" + Decimal(n) && SkipSpace("-" + Decimal(n)) == "-" + Decimal(n);
  }

  // ---------------------------------------------------------------- names

  function RepairId(story: string, attempt: nat): string {
    story + MARK + Decimal(attempt)
  }

  /** The attempt at a story that an id names, if it does. */
  function AttemptOf(story: string, id: string): Option<nat> {
    if story + MARK <= id then
      var k := Scan(id[|story + MARK|..]);
      if k.Some? && k.value > 0 then Some(k.value) else None
    else None
  }

  /** A repair of a story is recognised, with its number. */
  lemma {:induction false} OwnAttempt(story: string, k: nat)
    requires 0 < k <= MAX_INT
    ensures AttemptOf(story, RepairId(story, k)) == Some(k)
  {
    hide Scan, Decimal;
    ScanDecimal(k);
    assert RepairId(story, k)[|story + MARK|..] == Decimal(k);
  }

  /** The mark does not begin inside another mark that digits follow, except at its last character. */
  lemma {:induction false} MarkOverlap(digits: string, d: nat)
    requires AllDigits(digits) && digits != "" && 0 < d < |MARK + digits|
    ensures (MARK + digits)[d] == '_' <==> d == 7
  {
    assert MARK[0] == '_' && MARK[7] == '_' && MARK[1] == 'r' && MARK[2] == 'e' && MARK[3] == 'p'
      && MARK[4] == 'a' && MARK[5] == 'i' && MARK[6] == 'r';
    assert d < 8 ==> (MARK + digits)[d] == MARK[d];
    assert d >= 8 ==> (MARK + digits)[d] == digits[d - 8] && IsDigit(digits[d - 8]);
  }

  /** A repair of one story is never taken for an attempt at another. */
  lemma {:induction false} ForeignAttempt(a: string, b: string, k: nat)
    requires a != b && AttemptOf(a, b).None?
    ensures AttemptOf(a, RepairId(b, k)).None?
  {
    hide Scan, Decimal, AllDigits;
    var digits := Decimal(k);
    DecimalValue(k);
    var id := b + MARK + digits;
    var p := a + MARK;
    assert id == b + (MARK + digits);
    if |b| <= |a| {
      NotLonger(a, b, digits);
    } else if p <= id {
      if |p| <= |b| {
        assert p <= b;
        assert id[|p|..] == b[|p|..] + (MARK + digits);
        assert (MARK + digits)[0] == '_';
        ScanExtend(b[|p|..], MARK + digits);
      } else {
        Overlapping(a, b, digits);
      }
    }
  }

  /** The mark after `a` overlaps the mark after a longer `b` in one character only; no number follows. */
  lemma {:induction false} Overlapping(a: string, b: string, digits: string)
    requires AllDigits(digits) && digits != "" && |a| < |b| < |a + MARK| && a + MARK <= b + (MARK + digits)
    ensures Scan((b + (MARK + digits))[|a + MARK|..]).None?
  {
    var d := |b| - |a|;
    var id := b + (MARK + digits);
    assert id[|b|] == (MARK + digits)[0] == '_';
    assert id[|b|] == (a + MARK)[|b|] == MARK[d];
    MarkOverlap(digits, d);
    assert (MARK + digits)[d] == MARK[d];
    var rest := id[|a + MARK|..];
    assert rest[0] == id[|b| + 1] == (MARK + digits)[1] == 'r';
    assert SkipSpace(rest) == rest;
    assert DigitPrefix(rest) == "";
  }

  /** The name of a repair of `b` does not begin with another story of at least that length and the mark. */
  lemma {:induction false} NotLonger(a: string, b: string, digits: string)
    requires AllDigits(digits) && digits != "" && |b| <= |a| && a != b
    ensures !(a + MARK <= b + (MARK + digits))
  {
    var id := b + (MARK + digits);
    var p := a + MARK;
    var d := |a| - |b|;
    assert MARK[0] == '_' && MARK[1] == 'r';
    if d == 0 {
      var i :| 0 <= i < |a| && a[i] != b[i];
      assert p[i] == a[i] && id[i] == b[i];
      Differ(p, id, i);
    } else if d >= |MARK + digits| {
      Differ(p, id, |a|);
    } else {
      MarkOverlap(digits, d);
      assert id[|a|] == (MARK + digits)[d] && p[|a|] == '_';
      if d == 7 {
        assert id[|a| + 1] == digits[0] && IsDigit(digits[0]) && p[|a| + 1] == 'r';
        Differ(p, id, |a| + 1);
      } else {
        Differ(p, id, |a|);
      }
    }
  }

  lemma {:induction false} Differ(p: string, id: string, i: nat)
    requires i < |p| && (i >= |id| || p[i] != id[i])
    ensures !(p <= id)
  {
  }
}
