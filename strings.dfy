/** The JavaScript string built-ins the File model relies on: `lastIndexOf`,
    `substring` after a separator, `Array.prototype.join`, `toUpperCase`
    (ASCII letters) and the decimal rendering of a non-negative integer. */
module Strings {

  /** `s.lastIndexOf(c)`: the index of the last occurrence of `c`, or -1. */
  function LastIndexOf(s: string, c: char): (r: int)
    ensures -1 <= r < |s|
    ensures 0 <= r ==> s[r] == c
    ensures forall j :: r < j < |s| ==> s[j] != c
    ensures r == -1 <==> c !in s
  {
    if |s| == 0 then -1
    else if s[|s| - 1] == c then |s| - 1
    else
      var init := s[..|s| - 1];
      var r := LastIndexOf(init, c);
      assert forall j :: 0 <= j < |init| ==> init[j] == s[j];
      r
  }

  /** The text after the last `c` in `s`, or all of `s` when `c` does not
      occur: `s.substring(s.lastIndexOf(c) + 1)`. The result is the longest
      suffix of `s` free of `c`. */
  function AfterLast(s: string, c: char): (r: string)
    ensures c !in r
    ensures |r| <= |s| && s[|s| - |r|..] == r
    ensures |r| < |s| ==> s[|s| - |r| - 1] == c
    ensures c !in s ==> r == s
  {
    var slash := LastIndexOf(s, c);
    if slash >= 0 then
      var r := s[slash + 1..];
      assert forall k :: 0 <= k < |r| ==> r[k] == s[slash + 1 + k];
      r
    else s
  }

  /** The three properties of AfterLast's contract determine its result. */
  lemma AfterLastUnique(s: string, c: char, r: string)
    requires c !in r
    requires |r| <= |s| && s[|s| - |r|..] == r
    requires |r| < |s| ==> s[|s| - |r| - 1] == c
    ensures r == AfterLast(s, c)
  {
  }

  /** Whatever precedes the last separator does not matter. */
  lemma AfterLastAppend(a: string, c: char, b: string)
    ensures AfterLast(a + [c] + b, c) == AfterLast(b, c)
  {
    var s := a + [c] + b;
    var r := AfterLast(b, c);
    assert s[|s| - |r|..] == b[|b| - |r|..];
    if |r| == |b| {
      assert s[|s| - |r| - 1] == c;
    } else {
      assert s[|s| - |r| - 1] == b[|b| - |r| - 1];
    }
    AfterLastUnique(s, c, r);
  }

  /** `parts.join(sep)`: the parts with one separator between each two.
      JoinLength and JoinParts give its length and its contents. */
  function Join(parts: seq<string>, sep: string): (r: string)
    ensures |parts| == 0 ==> r == ""
    ensures |parts| > 0 ==> |parts[0]| <= |r| && r[..|parts[0]|] == parts[0]
    decreases |parts|
  {
    if |parts| == 0 then ""
    else if |parts| == 1 then parts[0]
    else parts[0] + sep + Join(parts[1..], sep)
  }

  /** A slice of the first half of a concatenation. */
  lemma SliceOfAppendLeft(a: string, b: string, x: nat, y: nat)
    requires x <= y <= |a|
    ensures (a + b)[x..y] == a[x..y]
  {
    assert forall j :: 0 <= j < y - x ==> (a + b)[x..y][j] == a[x..y][j];
  }

  /** Where part `i` starts in `Join(parts, sep)`: after the parts before
      it, each followed by one separator. */
  function JoinOffset(parts: seq<string>, sep: string, i: nat): (o: nat)
    requires i <= |parts|
  {
    if i == 0 then 0 else JoinOffset(parts, sep, i - 1) + |parts[i - 1]| + |sep|
  }

  /** Dropping the first part moves every later offset back by that part
      and one separator. */
  lemma {:induction false} JoinOffsetTail(parts: seq<string>, sep: string, i: nat)
    requires 1 <= i <= |parts|
    ensures JoinOffset(parts, sep, i) == |parts[0]| + |sep| + JoinOffset(parts[1..], sep, i - 1)
  {
    if i > 1 {
      JoinOffsetTail(parts, sep, i - 1);
      assert parts[1..][i - 2] == parts[i - 1];
    }
  }

  /** A slice of the second half of a concatenation. */
  lemma SliceOfAppend(a: string, b: string, x: nat, y: nat)
    requires x <= y <= |b|
    ensures (a + b)[|a| + x..|a| + y] == b[x..y]
  {
    assert forall j :: 0 <= j < y - x ==> (a + b)[|a| + x..|a| + y][j] == b[x..y][j];
  }

  /** A join of two or more parts starts with the first part and the
      separator, followed by the join of the others. */
  lemma JoinCons(parts: seq<string>, sep: string)
    requires |parts| >= 2
    ensures Join(parts, sep) == (parts[0] + sep) + Join(parts[1..], sep)
  {
  }

  /** `s` occurs in `r` at offset `o`. */
  predicate Occurs(r: string, o: nat, s: string)
  {
    o + |s| <= |r| && r[o..o + |s|] == s
  }

  /** An occurrence in `b` is an occurrence in `a + b`, shifted by `a`. */
  lemma OccursShift(a: string, b: string, o: nat, s: string)
    requires Occurs(b, o, s)
    ensures Occurs(a + b, |a| + o, s)
  {
    SliceOfAppend(a, b, o, o + |s|);
  }

  /** An occurrence in `a` is an occurrence in `a + b`. */
  lemma OccursPrefix(a: string, b: string, o: nat, s: string)
    requires Occurs(a, o, s)
    ensures Occurs(a + b, o, s)
  {
    SliceOfAppendLeft(a, b, o, o + |s|);
  }

  /** Part `i` of `parts` occurs in `r` at its offset. */
  predicate PartAt(r: string, parts: seq<string>, sep: string, i: nat)
    requires i < |parts|
  {
    Occurs(r, JoinOffset(parts, sep, i), parts[i])
  }

  /** The separator occurs in `r` right after part `i` of `parts`. */
  predicate SepAfter(r: string, parts: seq<string>, sep: string, i: nat)
    requires i < |parts|
  {
    Occurs(r, JoinOffset(parts, sep, i) + |parts[i]|, sep)
  }

  /** Part `i - 1` of the tail at its offset in `rest` is part `i` at its
      offset once the first part and a separator are put in front. */
  lemma PartAtCons(parts: seq<string>, sep: string, i: nat, rest: string)
    requires 1 <= i < |parts|
    requires PartAt(rest, parts[1..], sep, i - 1)
    ensures PartAt(parts[0] + sep + rest, parts, sep, i)
  {
    assert parts[1..][i - 1] == parts[i];
    OccursShift(parts[0] + sep, rest, JoinOffset(parts[1..], sep, i - 1), parts[i]);
    JoinOffsetTail(parts, sep, i);
  }

  /** The same shift for the separator after part `i`. */
  lemma SepAfterCons(parts: seq<string>, sep: string, i: nat, rest: string)
    requires 1 <= i < |parts|
    requires SepAfter(rest, parts[1..], sep, i - 1)
    ensures SepAfter(parts[0] + sep + rest, parts, sep, i)
  {
    assert parts[1..][i - 1] == parts[i];
    OccursShift(parts[0] + sep, rest, JoinOffset(parts[1..], sep, i - 1) + |parts[i]|, sep);
    JoinOffsetTail(parts, sep, i);
  }

  /** Part `i` of `parts.join(sep)` sits at its offset. */
  lemma {:induction false} JoinPartAt(parts: seq<string>, sep: string, i: nat)
    requires i < |parts|
    ensures PartAt(Join(parts, sep), parts, sep, i)
    decreases i
  {
    if |parts| >= 2 {
      var rest := Join(parts[1..], sep);
      JoinCons(parts, sep);
      if i == 0 {
        OccursPrefix(parts[0], sep, 0, parts[0]);
        OccursPrefix(parts[0] + sep, rest, 0, parts[0]);
      } else {
        JoinPartAt(parts[1..], sep, i - 1);
        PartAtCons(parts, sep, i, rest);
      }
    }
  }

  /** The separator follows the first part of a join of two or more. */
  lemma JoinSepFirst(parts: seq<string>, sep: string)
    requires |parts| >= 2
    ensures SepAfter(Join(parts, sep), parts, sep, 0)
  {
    var head := parts[0] + sep;
    JoinCons(parts, sep);
    OccursShift(parts[0], sep, 0, sep);
    OccursPrefix(head, Join(parts[1..], sep), |parts[0]|, sep);
  }

  /** After part `i` of `parts.join(sep)`, unless it is the last part,
      stands the separator. */
  lemma {:induction false} JoinSepAt(parts: seq<string>, sep: string, i: nat)
    requires i < |parts| - 1
    ensures SepAfter(Join(parts, sep), parts, sep, i)
    decreases i
  {
    if i == 0 {
      JoinSepFirst(parts, sep);
    } else {
      JoinCons(parts, sep);
      JoinSepAt(parts[1..], sep, i - 1);
      SepAfterCons(parts, sep, i, Join(parts[1..], sep));
    }
  }

  /** The contents of `parts.join(sep)`: every part sits at its offset,
      after every part but the last stands exactly one separator, and the
      last part ends the string. This fixes the joined string. */
  lemma JoinParts(parts: seq<string>, sep: string)
    ensures forall i :: 0 <= i < |parts| ==> PartAt(Join(parts, sep), parts, sep, i)
    ensures forall i :: 0 <= i < |parts| - 1 ==> SepAfter(Join(parts, sep), parts, sep, i)
    ensures |parts| > 0 ==> |Join(parts, sep)| == JoinOffset(parts, sep, |parts| - 1) + |parts[|parts| - 1]|
  {
    if |parts| > 0 {
      JoinLength(parts, sep);
    }
    forall i | 0 <= i < |parts|
      ensures PartAt(Join(parts, sep), parts, sep, i)
    {
      JoinPartAt(parts, sep, i);
    }
    forall i | 0 <= i < |parts| - 1
      ensures SepAfter(Join(parts, sep), parts, sep, i)
    {
      JoinSepAt(parts, sep, i);
    }
  }

  /** A join of at least one part ends with its last part: its length is
      the last part's offset plus the last part's length. */
  lemma {:induction false} JoinLength(parts: seq<string>, sep: string)
    requires |parts| > 0
    ensures |Join(parts, sep)| == JoinOffset(parts, sep, |parts| - 1) + |parts[|parts| - 1]|
    decreases |parts|
  {
    if |parts| >= 2 {
      var tail := parts[1..];
      JoinCons(parts, sep);
      JoinLength(tail, sep);
      JoinOffsetTail(parts, sep, |parts| - 1);
      assert tail[|tail| - 1] == parts[|parts| - 1];
    }
  }

  /** The character of a decimal digit. */
  function DigitChar(d: nat): (ch: char)
    requires d < 10
    ensures '0' <= ch <= '9'
  {
    ('0' as int + d) as char
  }

  predicate IsDigits(s: string)
  {
    forall i :: 0 <= i < |s| ==> '0' <= s[i] <= '9'
  }

  /** `String(n)` for a non-negative integer below 10^21. The contract
      says only that it is non-empty; NatToStringDigits and
      NatToStringRoundTrip state the rest as lemmas, so that literal
      widths can be rendered without unfolding them. */
  function NatToString(n: nat): (r: string)
    ensures |r| >= 1
    decreases n
  {
    if n < 10 then [DigitChar(n)] else NatToString(n / 10) + [DigitChar(n % 10)]
  }

  /** The rendering of `n` is a non-empty string of decimal digits without
      a leading zero, ending in the digit of `n % 10`. */
  lemma {:induction false} NatToStringDigits(n: nat)
    ensures |NatToString(n)| >= 1 && IsDigits(NatToString(n))
    ensures |NatToString(n)| > 1 ==> NatToString(n)[0] != '0'
    ensures NatToString(n)[|NatToString(n)| - 1] == DigitChar(n % 10)
    decreases n
  {
    if n >= 10 {
      var high := NatToString(n / 10);
      NatToStringDigits(n / 10);
      var s := NatToString(n);
      assert s == high + [DigitChar(n % 10)];
      forall i | 0 <= i < |s| ensures '0' <= s[i] <= '9' {
        if i < |high| { assert s[i] == high[i]; }
      }
      if |high| == 1 {
        assert high[0] != '0';
      }
    }
  }

  /** The value of a string of decimal digits. */
  function DecimalValue(s: string): (v: nat)
    requires IsDigits(s)
  {
    if |s| == 0 then 0
    else
      var init := s[..|s| - 1];
      assert IsDigits(init) by {
        forall i | 0 <= i < |init| ensures '0' <= init[i] <= '9' { assert init[i] == s[i]; }
      }
      10 * DecimalValue(init) + (s[|s| - 1] as int - '0' as int)
  }

  /** Reading back the decimal digits of `n` gives `n`. */
  lemma {:induction false} NatToStringRoundTrip(n: nat)
    ensures IsDigits(NatToString(n)) && DecimalValue(NatToString(n)) == n
    decreases n
  {
    var s := NatToString(n);
    NatToStringDigits(n);
    if n >= 10 {
      NatToStringDigits(n / 10);
      NatToStringRoundTrip(n / 10);
      assert s[..|s| - 1] == NatToString(n / 10);
    }
  }

  /** Distinct numbers are rendered as distinct strings. */
  lemma NatToStringInjective(m: nat, n: nat)
    requires NatToString(m) == NatToString(n)
    ensures m == n
  {
    NatToStringRoundTrip(m);
    NatToStringRoundTrip(n);
  }

  /** `toUpperCase` of one character, for the ASCII letters. */
  function UpperChar(ch: char): (u: char)
  {
    if 'a' <= ch <= 'z' then (ch as int - 32) as char else ch
  }

  /** `s.toUpperCase()`, restricted to ASCII letters: every lower-case
      ASCII letter becomes its capital, every other character stays. */
  function ToUpper(s: string): (r: string)
    ensures |r| == |s|
    ensures forall i :: 0 <= i < |s| ==> !('a' <= r[i] <= 'z')
    ensures forall i :: 0 <= i < |s| && !('a' <= s[i] <= 'z') ==> r[i] == s[i]
    ensures forall i :: 0 <= i < |s| && 'a' <= s[i] <= 'z' ==> r[i] as int == s[i] as int - 32
    decreases |s|
  {
    if |s| == 0 then ""
    else
      var init := ToUpper(s[..|s| - 1]);
      assert forall i :: 0 <= i < |s| - 1 ==> s[..|s| - 1][i] == s[i];
      init + [UpperChar(s[|s| - 1])]
  }
}
