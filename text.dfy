// Strings as the two programs use them: substring tests (JavaScript's
// String.prototype.includes, Python's `in`), ASCII lower-casing, and the
// decimal digit strings that strftime/strptime produce and read.
module Text {

  /** `t` occurs in `s` starting at index `i`. */
  predicate MatchesAt(s: string, t: string, i: int)
  {
    0 <= i && i + |t| <= |s| && s[i..i + |t|] == t
  }

  /** `s.includes(t)` in JavaScript, `t in s` in Python. */
  predicate Contains(s: string, t: string)
  {
    exists i | 0 <= i <= |s| :: MatchesAt(s, t, i)
  }

  /** Reading one character of a match: it is the pattern's character. */
  lemma MatchChar(s: string, t: string, i: int, j: int)
    ensures MatchesAt(s, t, i) && 0 <= j < |t| ==> s[i + j] == t[j]
  {
    if MatchesAt(s, t, i) && 0 <= j < |t| {
      assert s[i..i + |t|][j] == t[j];
    }
  }

  /** A string that lacks one of the pattern's characters cannot contain it. */
  lemma MissingCharExcludes(s: string, t: string, c: char)
    requires c in t && c !in s
    ensures !Contains(s, t)
  {
    var j :| 0 <= j < |t| && t[j] == c;
    forall i | 0 <= i <= |s|
      ensures !MatchesAt(s, t, i)
    {
      MatchChar(s, t, i, j);
    }
  }

  /** A match at a known index is a witness for Contains. */
  lemma ContainsAt(s: string, t: string, i: int)
    requires MatchesAt(s, t, i)
    ensures Contains(s, t)
  {
  }

  /** Containment is transitive: a string containing `t` contains every piece of `t`. */
  lemma {:induction false} ContainsTransitive(s: string, t: string, u: string)
    requires Contains(s, t) && Contains(t, u)
    ensures Contains(s, u)
  {
    var i :| 0 <= i <= |s| && MatchesAt(s, t, i);
    var j :| 0 <= j <= |t| && MatchesAt(t, u, j);
    forall k | 0 <= k < |u|
      ensures s[i + j + k] == u[k]
    {
      MatchChar(s, t, i, j + k);
      MatchChar(t, u, j, k);
    }
    assert s[i + j..i + j + |u|] == u;
    assert MatchesAt(s, u, i + j);
  }

  /** Containment survives putting text before and after. */
  lemma ContainsExtended(pre: string, s: string, post: string, t: string)
    requires Contains(s, t)
    ensures Contains(pre + s + post, t)
  {
    var i :| 0 <= i <= |s| && MatchesAt(s, t, i);
    assert (pre + s + post)[|pre| + i..|pre| + i + |t|] == s[i..i + |t|];
    assert MatchesAt(pre + s + post, t, |pre| + i);
  }

  // ---------------------------------------------------------------------
  // Case

  /** ASCII lower case of one character; every other character is kept. */
  function LowerChar(c: char): (r: char)
    ensures 'A' <= c <= 'Z' ==> 'a' <= r <= 'z' && r as int - c as int == 32
    ensures !('A' <= c <= 'Z') ==> r == c
  {
    if 'A' <= c <= 'Z' then (c as int + 32) as char else c
  }

  /**
   * Python's str.lower() restricted to ASCII letters. For the comparisons
   * the scheduler makes ("today", "tomorrow", "am", "pm") this is exact:
   * no non-ASCII character lower-cases to one of those letters.
   */
  function Lower(s: string): (r: string)
    ensures |r| == |s|
    ensures forall i :: 0 <= i < |s| ==> r[i] == LowerChar(s[i])
  {
    seq(|s|, i requires 0 <= i < |s| => LowerChar(s[i]))
  }

  // ---------------------------------------------------------------------
  // Decimal digits

  predicate IsDigit(c: char) { '0' <= c <= '9' }

  predicate AllDigits(s: string)
  {
    forall i :: 0 <= i < |s| ==> IsDigit(s[i])
  }

  function DigitChar(d: nat): (c: char)
    requires d < 10
    ensures IsDigit(c) && c as int - '0' as int == d
  {
    ('0' as int + d) as char
  }

  function DigitValue(c: char): (d: nat)
    requires IsDigit(c)
    ensures d < 10 && DigitChar(d) == c
  {
    c as int - '0' as int
  }

  function Pow10(w: nat): (p: nat)
    ensures p >= 1
  {
    if w == 0 then 1 else 10 * Pow10(w - 1)
  }

  /** The `w` low-order decimal digits of `n`, zero-padded (strftime's %02d, %04d). */
  function Digits(n: nat, w: nat): (s: string)
    ensures |s| == w
    ensures forall i :: 0 <= i < |s| ==> IsDigit(s[i])
  {
    if w == 0 then "" else Digits(n / 10, w - 1) + [DigitChar(n % 10)]
  }

  /** The number a string of decimal digits denotes (strptime's reading of %d, %M, ...). */
  function Value(s: string): (v: nat)
    requires forall i :: 0 <= i < |s| ==> IsDigit(s[i])
    ensures v < Pow10(|s|)
  {
    if s == [] then 0 else 10 * Value(s[..|s| - 1]) + DigitValue(s[|s| - 1])
  }

  /** Reading back a zero-padded field gives the number that was written. */
  lemma {:induction false} ValueDigits(n: nat, w: nat)
    requires n < Pow10(w)
    ensures Value(Digits(n, w)) == n
  {
    if w > 0 {
      var s := Digits(n, w);
      assert s[..w - 1] == Digits(n / 10, w - 1);
      ValueDigits(n / 10, w - 1);
    }
  }

  /** Decimal text of a natural number, without padding (Python's str(int), f"{i}"). */
  function Decimal(n: nat): (s: string)
    ensures |s| >= 1
    ensures forall i :: 0 <= i < |s| ==> IsDigit(s[i])
    ensures Value(s) == n
    decreases n
  {
    if n < 10 then
      var s := [DigitChar(n)];
      assert s[..0] == "";
      s
    else
      var s := Decimal(n / 10) + [DigitChar(n % 10)];
      assert s[..|s| - 1] == Decimal(n / 10);
      s
  }
}
