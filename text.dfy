/**
 * String helpers shared by the model: splitting on a separator the way
 * Python's `str.split(sep)` does, joining the way `sep.join(parts)` does,
 * and decimal formatting the way `str(n)` / `Integer.toString(n)` do.
 */
module Text {
  import opened Wrappers

  /** `sep` occurs in `s` starting at position `j`. */
  predicate OccursAt(s: string, sep: string, j: nat) {
    j + |sep| <= |s| && s[j..j + |sep|] == sep
  }

  /** `sep` occurs somewhere in `s`. */
  ghost predicate Contains(s: string, sep: string) {
    exists j: nat :: OccursAt(s, sep, j)
  }

  /** A separator none of whose proper prefixes is also a suffix of it (true of ": " and "\n"). */
  ghost predicate Unbordered(sep: string) {
    forall k :: 0 < k < |sep| ==> sep[..k] != sep[|sep| - k..]
  }

  /** The first position at or after `from` where `sep` occurs in `s`, if any. */
  function IndexFrom(s: string, sep: string, from: nat): (r: Option<nat>)
    requires |sep| > 0
    ensures r.Some? ==> from <= r.value && r.value + |sep| <= |s|
    decreases |s| - from
  {
    if from + |sep| > |s| then None
    else if s[from..from + |sep|] == sep then Some(from)
    else IndexFrom(s, sep, from + 1)
  }

  /** `IndexFrom` finds an occurrence with none before it, and finds nothing only when there is none. */
  lemma {:induction false} IndexFromSpec(s: string, sep: string, from: nat)
    requires |sep| > 0
    ensures var r := IndexFrom(s, sep, from);
      && (r.Some? ==> OccursAt(s, sep, r.value))
      && (r.Some? ==> forall j: nat :: from <= j < r.value ==> !OccursAt(s, sep, j))
      && (r.None? ==> forall j: nat :: from <= j ==> !OccursAt(s, sep, j))
    decreases |s| - from
  {
    if from + |sep| <= |s| && s[from..from + |sep|] != sep {
      IndexFromSpec(s, sep, from + 1);
    }
  }

  /** The first position where `sep` occurs in `s`, if any. */
  function IndexOf(s: string, sep: string): (r: Option<nat>)
    requires |sep| > 0
    ensures r.Some? ==> r.value + |sep| <= |s|
  {
    IndexFrom(s, sep, 0)
  }

  /** `IndexOf` finds the first occurrence, and finds nothing exactly when `sep` does not occur. */
  lemma IndexOfSpec(s: string, sep: string)
    requires |sep| > 0
    ensures IndexOf(s, sep).None? <==> !Contains(s, sep)
    ensures IndexOf(s, sep).Some? ==>
      OccursAt(s, sep, IndexOf(s, sep).value) && forall j: nat :: j < IndexOf(s, sep).value ==> !OccursAt(s, sep, j)
  {
    IndexFromSpec(s, sep, 0);
  }

  /** `s.split(sep)`: the maximal pieces between non-overlapping occurrences, scanned left to right. */
  function Split(s: string, sep: string): (r: seq<string>)
    requires |sep| > 0
    ensures |r| >= 1
    decreases |s|
  {
    match IndexOf(s, sep)
    case None => [s]
    case Some(i) => [s[..i]] + Split(s[i + |sep|..], sep)
  }

  /** A split has more than one piece exactly when the separator occurs, and no piece contains it. */
  lemma {:induction false} SplitPieces(s: string, sep: string)
    requires |sep| > 0
    ensures |Split(s, sep)| == 1 <==> !Contains(s, sep)
    ensures forall k :: 0 <= k < |Split(s, sep)| ==> !Contains(Split(s, sep)[k], sep)
    decreases |s|
  {
    IndexOfSpec(s, sep);
    if IndexOf(s, sep).Some? {
      var i := IndexOf(s, sep).value;
      PrefixBeforeFirst(s, sep);
      SplitPieces(s[i + |sep|..], sep);
      SplitStep(s, sep);
    }
  }

  /** The text before the first occurrence of `sep` does not contain `sep`. */
  lemma PrefixBeforeFirst(s: string, sep: string)
    requires |sep| > 0 && IndexOf(s, sep).Some?
    ensures !Contains(s[..IndexOf(s, sep).value], sep)
  {
    var i := IndexOf(s, sep).value;
    IndexOfSpec(s, sep);
    forall j: nat | OccursAt(s[..i], sep, j)
      ensures false
    {
      assert s[..i][j..j + |sep|] == s[j..j + |sep|];
      assert OccursAt(s, sep, j);
    }
  }

  /** `sep.join(parts)`. */
  function Join(parts: seq<string>, sep: string): string
  {
    if |parts| == 0 then ""
    else if |parts| == 1 then parts[0]
    else parts[0] + sep + Join(parts[1..], sep)
  }

  /** One step of a split that finds the separator at position `i`. */
  lemma SplitStep(s: string, sep: string)
    requires |sep| > 0 && IndexOf(s, sep).Some?
    ensures var i := IndexOf(s, sep).value;
      && Split(s, sep) == [s[..i]] + Split(s[i + |sep|..], sep)
      && s == s[..i] + sep + s[i + |sep|..]
  {
    var i := IndexOf(s, sep).value;
    IndexOfSpec(s, sep);
    assert s[i..i + |sep|] == sep;
    assert s == s[..i] + s[i..i + |sep|] + s[i + |sep|..];
  }

  /** Joining the pieces of a split gives back the original string. */
  lemma {:induction false} JoinSplit(s: string, sep: string)
    requires |sep| > 0
    ensures Join(Split(s, sep), sep) == s
    decreases |s|
  {
    if IndexOf(s, sep).Some? {
      var i := IndexOf(s, sep).value;
      var rest := s[i + |sep|..];
      SplitStep(s, sep);
      var tail := Split(rest, sep);
      assert ([s[..i]] + tail)[1..] == tail;
      JoinSplit(rest, sep);
    }
  }

  /** In `p + sep + tail`, where `p` does not contain an unbordered `sep`, the first occurrence is right after `p`. */
  lemma FirstOccurrenceAfterPiece(p: string, sep: string, tail: string)
    requires |sep| > 0 && Unbordered(sep) && !Contains(p, sep)
    ensures IndexOf(p + sep + tail, sep) == Some(|p|)
  {
    var s := p + sep + tail;
    IndexOfSpec(s, sep);
    assert s[|p|..|p| + |sep|] == sep;
    assert OccursAt(s, sep, |p|);
    forall j: nat | j < |p|
      ensures !OccursAt(s, sep, j)
    {
      if j + |sep| <= |p| {
        assert s[j..j + |sep|] == p[j..j + |sep|];
        assert !OccursAt(p, sep, j);
      } else {
        NoStraddlingOccurrence(p, sep, tail, j);
      }
    }
  }

  /** An unbordered separator cannot occur across the start of one of its own occurrences. */
  lemma NoStraddlingOccurrence(p: string, sep: string, tail: string, j: nat)
    requires Unbordered(sep) && j < |p| < j + |sep|
    ensures !OccursAt(p + sep + tail, sep, j)
  {
    var s := p + sep + tail;
    var t := |p| - j;
    var w := s[j..j + |sep|];
    assert w[t..] == sep[..|sep| - t];
    assert sep[|sep| - (|sep| - t)..] == sep[t..];
    assert sep[..|sep| - t] != sep[|sep| - (|sep| - t)..];
  }

  /** Splitting the join of separator-free pieces gives the pieces back (for an unbordered separator). */
  lemma {:induction false} SplitJoin(parts: seq<string>, sep: string)
    requires |sep| > 0 && Unbordered(sep) && |parts| > 0
    requires forall k :: 0 <= k < |parts| ==> !Contains(parts[k], sep)
    ensures Split(Join(parts, sep), sep) == parts
    decreases |parts|
  {
    IndexOfSpec(parts[0], sep);
    if |parts| > 1 {
      var tail := Join(parts[1..], sep);
      FirstOccurrenceAfterPiece(parts[0], sep, tail);
      var s := parts[0] + sep + tail;
      assert s[..|parts[0]|] == parts[0];
      assert s[|parts[0]| + |sep|..] == tail;
      SplitJoin(parts[1..], sep);
      assert parts == [parts[0]] + parts[1..];
    }
  }

  lemma ColonSpaceUnbordered()
    ensures Unbordered(": ")
  {
    assert ": "[..1] == ":" && ": "[1..] == " ";
  }

  lemma NewlineUnbordered()
    ensures Unbordered("\n")
  {
  }

  lemma SpaceUnbordered()
    ensures Unbordered(" ")
  {
  }

  // ----- decimal numbers -----

  predicate IsDigit(c: char) {
    '0' <= c <= '9'
  }

  function DigitChar(d: nat): (c: char)
    requires d < 10
    ensures IsDigit(c)
  {
    (('0' as int) + d) as char
  }

  function DigitValue(c: char): (d: nat)
    requires IsDigit(c)
    ensures d < 10 && DigitChar(d) == c
  {
    (c as int) - ('0' as int)
  }

  predicate AllDigits(s: string) {
    forall k :: 0 <= k < |s| ==> IsDigit(s[k])
  }

  /** A string of decimal digits holds no newline. */
  lemma DigitsHoldNoNewline(s: string)
    requires AllDigits(s)
    ensures !Contains(s, "\n")
  {
    forall j: nat
      ensures !OccursAt(s, "\n", j)
    {
      if j + 1 <= |s| {
        assert s[j..j + 1][0] == s[j];
      }
    }
  }

  /** `str(n)` for a non-negative integer: decimal digits, no leading zero. */
  function NatToString(n: nat): (r: string)
    ensures |r| >= 1 && AllDigits(r)
    ensures r[0] == '0' ==> n == 0
    decreases n
  {
    if n < 10 then [DigitChar(n)] else NatToString(n / 10) + [DigitChar(n % 10)]
  }

  /** The value of a string of decimal digits (the reading `int(s)` does of `str(n)`). */
  function ParseNat(s: string): nat
    requires AllDigits(s)
  {
    if |s| == 0 then 0 else ParseNat(s[..|s| - 1]) * 10 + DigitValue(s[|s| - 1])
  }

  /** Reading back a formatted number gives the number. */
  lemma {:induction false} ParseNatToString(n: nat)
    ensures ParseNat(NatToString(n)) == n
    decreases n
  {
    if n >= 10 {
      var s := NatToString(n);
      assert s[..|s| - 1] == NatToString(n / 10);
      ParseNatToString(n / 10);
    }
  }

  /** Distinct numbers are formatted differently. */
  lemma NatToStringInjective(a: nat, b: nat)
    requires a != b
    ensures NatToString(a) != NatToString(b)
  {
    ParseNatToString(a);
    ParseNatToString(b);
  }

  /** `Integer.toString(i)` / `str(i)` for any integer: a minus sign before the digits of a negative number. */
  function IntToString(i: int): (r: string)
  {
    if i < 0 then "-" + NatToString(-i) else NatToString(i)
  }

  function ParseInt(s: string): int
    requires |s| >= 1
    requires if s[0] == '-' then AllDigits(s[1..]) else AllDigits(s)
  {
    if s[0] == '-' then 0 - (ParseNat(s[1..]) as int) else ParseNat(s)
  }

  /** Reading back a formatted integer gives the integer, so the format is one-to-one. */
  lemma IntToStringRoundTrip(i: int)
    ensures var s := IntToString(i);
      |s| >= 1 && (if s[0] == '-' then AllDigits(s[1..]) else AllDigits(s)) && ParseInt(s) == i
  {
    if i < 0 {
      var s := IntToString(i);
      assert s[1..] == NatToString(-i);
      ParseNatToString(-i);
    } else {
      ParseNatToString(i);
    }
  }
}
