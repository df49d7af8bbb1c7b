/** Text as the program handles it: white space, trimming and the size of its UTF-8 form. */
module Text {

  /** White space, as Unicode defines it. */
  predicate Space(c: char) {
    var n := c as int;
    (9 <= n <= 13) || n == 32 || n == 0x85 || n == 0xa0 || n == 0x1680 || (0x2000 <= n <= 0x200a)
    || n == 0x2028 || n == 0x2029 || n == 0x202f || n == 0x205f || n == 0x3000
  }

  function Trim(s: string): string
    decreases |s|
  {
    if s == "" then ""
    else if Space(s[0]) then Trim(s[1..])
    else if Space(s[|s| - 1]) then Trim(s[..|s| - 1])
    else s
  }

  lemma {:induction false} TrimTwice(s: string)
    ensures Trim(Trim(s)) == Trim(s)
    decreases |s|
  {
    if s != "" {
      if Space(s[0]) {
        TrimTwice(s[1..]);
      } else if Space(s[|s| - 1]) {
        TrimTwice(s[..|s| - 1]);
      }
    }
  }

  /** A text is trimmed exactly when neither of its ends is white space. */
  lemma {:induction false} TrimmedEnds(s: string)
    ensures Trim(s) == s <==> s == "" || (!Space(s[0]) && !Space(s[|s| - 1]))
  {
    if s != "" && (Space(s[0]) || Space(s[|s| - 1])) {
      TrimShortens(s);
    }
  }

  lemma {:induction false} TrimShortens(s: string)
    ensures |Trim(s)| <= |s|
    ensures s != "" && (Space(s[0]) || Space(s[|s| - 1])) ==> |Trim(s)| < |s|
    decreases |s|
  {
    if s != "" {
      if Space(s[0]) {
        TrimShortens(s[1..]);
      } else if Space(s[|s| - 1]) {
        TrimShortens(s[..|s| - 1]);
      }
    }
  }

  /** Trimming takes white space off both ends, and as much of it as there is. */
  lemma {:induction false} TrimTakesSpace(s: string) returns (from: nat, to: nat)
    ensures from <= to <= |s| && Trim(s) == s[from..to]
    ensures forall i | 0 <= i < from || to <= i < |s| :: Space(s[i])
    ensures from < to ==> !Space(s[from]) && !Space(s[to - 1])
    decreases |s|
  {
    hide Space;
    from, to := 0, |s|;
    if s != "" {
      if Space(s[0]) {
        from, to := TrimTakesSpace(s[1..]);
        assert s[1..][from..to] == s[from + 1..to + 1];
        assert forall i | 1 <= i < |s| :: s[i] == s[1..][i - 1];
        from, to := from + 1, to + 1;
      } else if Space(s[|s| - 1]) {
        var front := s[..|s| - 1];
        from, to := TrimTakesSpace(front);
        assert front[from..to] == s[from..to];
        assert forall i | 0 <= i < |front| :: s[i] == front[i];
      }
    }
  }

  /** The number of bytes that a character takes in UTF-8. */
  function Width(c: char): nat {
    var n := c as int;
    if n < 0x80 then 1 else if n < 0x800 then 2 else if n < 0x10000 then 3 else 4
  }

  function ByteLength(s: string): nat
    decreases |s|
  {
    if s == "" then 0 else Width(s[0]) + ByteLength(s[1..])
  }
}
