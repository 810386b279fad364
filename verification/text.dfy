/**
 * String helpers used by the contact form validator: the ECMAScript
 * whitespace class shared by `String.prototype.trim` and the regular
 * expression escape `\S`, the `trim` operation itself, and the unanchored
 * e-mail shape `\S+@\S+\.\S+` tested with `RegExp.prototype.test`.
 */
module Text {

  /** ECMAScript WhiteSpace and LineTerminator code points: the set that
      `trim()` strips and that `\s` matches (so `\S` is its complement). */
  predicate IsSpace(c: char)
  {
    || c == '\t' || c == '\n' || c == '\U{0B}' || c == '\U{0C}' || c == '\r' || c == ' '
    || c == '\U{A0}' || c == '\U{1680}' || ('\U{2000}' <= c <= '\U{200A}')
    || c == '\U{2028}' || c == '\U{2029}' || c == '\U{202F}' || c == '\U{205F}'
    || c == '\U{3000}' || c == '\U{FEFF}'
  }

  /** Every character of `s` is whitespace (vacuously true of ""). */
  ghost predicate AllSpace(s: string)
  {
    forall i :: 0 <= i < |s| ==> IsSpace(s[i])
  }

  /** No character of `s` is whitespace: `s` is a run of `\S`. */
  ghost predicate NoSpace(s: string)
  {
    forall i :: 0 <= i < |s| ==> !IsSpace(s[i])
  }

  /** `trim()`'s leading half: drop whitespace from the front. */
  function TrimStart(s: string): string
    decreases |s|
  {
    if |s| > 0 && IsSpace(s[0]) then TrimStart(s[1..]) else s
  }

  /** `trim()`'s trailing half: drop whitespace from the back. */
  function TrimEnd(s: string): string
    decreases |s|
  {
    if |s| > 0 && IsSpace(s[|s| - 1]) then TrimEnd(s[..|s| - 1]) else s
  }

  /** `s.trim()`: no longer than `s`, and when not empty it neither starts
      nor ends with whitespace. */
  function Trim(s: string): (r: string)
    ensures |r| <= |s|
    ensures r != "" ==> !IsSpace(r[0]) && !IsSpace(r[|r| - 1])
  {
    TrimStartSpec(s);
    TrimEndSpec(TrimStart(s));
    TrimEnd(TrimStart(s))
  }

  /** `!s.trim()`: the trimmed string is the (falsy) empty string, which
      happens exactly when `s` is empty or only whitespace. */
  predicate IsBlank(s: string)
    ensures IsBlank(s) <==> AllSpace(s)
  {
    TrimEmptyIffAllSpace(s);
    Trim(s) == ""
  }

  /** TrimStart keeps a suffix of `s`, everything it drops is whitespace, and
      what it keeps does not start with whitespace. */
  lemma {:induction false} TrimStartSpec(s: string)
    ensures |TrimStart(s)| <= |s| && TrimStart(s) == s[|s| - |TrimStart(s)|..]
    ensures forall k :: 0 <= k < |s| - |TrimStart(s)| ==> IsSpace(s[k])
    ensures TrimStart(s) != [] ==> !IsSpace(TrimStart(s)[0])
    decreases |s|
  {
    if |s| > 0 && IsSpace(s[0]) {
      TrimStartSpec(s[1..]);
    }
  }

  /** TrimEnd keeps a prefix of `s`, everything it drops is whitespace, and
      what it keeps does not end with whitespace. */
  lemma {:induction false} TrimEndSpec(s: string)
    ensures |TrimEnd(s)| <= |s| && TrimEnd(s) == s[..|TrimEnd(s)|]
    ensures forall k :: |TrimEnd(s)| <= k < |s| ==> IsSpace(s[k])
    ensures TrimEnd(s) != [] ==> !IsSpace(TrimEnd(s)[|TrimEnd(s)| - 1])
    decreases |s|
  {
    if |s| > 0 && IsSpace(s[|s| - 1]) {
      TrimEndSpec(s[..|s| - 1]);
    }
  }

  /** Trimming gives "" exactly when the string is all whitespace, so the
      validator's `!x.trim()` guard is the same as "empty or only spaces". */
  lemma TrimEmptyIffAllSpace(s: string)
    ensures TrimEnd(TrimStart(s)) == "" <==> AllSpace(s)
  {
    var t := TrimStart(s);
    TrimStartSpec(s);
    TrimEndSpec(t);
    if !AllSpace(s) {
      var i :| 0 <= i < |s| && !IsSpace(s[i]);
      assert i >= |s| - |t|;
      assert t != [];
      assert !IsSpace(t[0]);
      assert TrimEnd(t) != [];
    }
  }

  /** One concrete match of `\S+@\S+\.\S+` in `s`: the match is
      `s[a..e]`, with the `@` at `at` and the literal dot at `dot`; the three
      `\S+` runs are `s[a..at]`, `s[at+1..dot]` and `s[dot+1..e]`. */
  ghost predicate EmailMatchAt(s: string, a: int, at: int, dot: int, e: int)
  {
    && 0 <= a < at && at + 1 < dot && dot + 1 < e <= |s|
    && s[at] == '@' && s[dot] == '.'
    && NoSpace(s[a..at]) && NoSpace(s[at + 1..dot]) && NoSpace(s[dot + 1..e])
  }

  /** `/\S+@\S+\.\S+/.test(s)`: the pattern is not anchored, so it holds
      when some substring of `s` matches it. */
  ghost predicate MatchesEmailPattern(s: string)
  {
    exists a, at, dot, e :: EmailMatchAt(s, a, at, dot, e)
  }

  /** The shortest possible match around an `@` at `at` and a dot at `dot`:
      one non-space before the `@`, only non-spaces between `@` and dot, one
      non-space after the dot. */
  predicate ShortestEmailMatch(s: string, at: int, dot: int)
  {
    && 0 < at < |s| && at + 1 < dot < |s| - 1
    && s[at] == '@' && s[dot] == '.'
    && !IsSpace(s[at - 1]) && !IsSpace(s[dot + 1])
    && forall k :: at < k < dot ==> !IsSpace(s[k])
  }

  /** There is a shortest match somewhere in `s`. */
  predicate HasShortestEmailMatch(s: string)
  {
    exists at, dot | 0 < at < |s| && at + 1 < dot < |s| - 1 :: ShortestEmailMatch(s, at, dot)
  }

  /** A match exists iff a shortest match exists. */
  lemma ShortestEmailMatchCorrect(s: string)
    ensures HasShortestEmailMatch(s) <==> MatchesEmailPattern(s)
  {
    if HasShortestEmailMatch(s) {
      var at, dot :| 0 < at < |s| && at + 1 < dot < |s| - 1 && ShortestEmailMatch(s, at, dot);
      assert s[at - 1..at] == [s[at - 1]];
      assert s[dot + 1..dot + 2] == [s[dot + 1]];
      assert EmailMatchAt(s, at - 1, at, dot, dot + 2);
    }
    if MatchesEmailPattern(s) {
      var a, at, dot, e :| EmailMatchAt(s, a, at, dot, e);
      assert s[a..at][at - 1 - a] == s[at - 1];
      assert s[dot + 1..e][0] == s[dot + 1];
      forall k | at < k < dot
        ensures !IsSpace(s[k])
      {
        assert s[at + 1..dot][k - at - 1] == s[k];
      }
      assert ShortestEmailMatch(s, at, dot);
    }
  }

  /** Decision procedure for the e-mail pattern: look for a shortest match.
      It agrees with the regular-expression semantics on every string. */
  predicate EmailPatternTest(s: string)
    ensures EmailPatternTest(s) <==> MatchesEmailPattern(s)
  {
    ShortestEmailMatchCorrect(s);
    HasShortestEmailMatch(s)
  }
}
