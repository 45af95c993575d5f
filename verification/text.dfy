/** String primitives the pages rely on, as JavaScript defines them:
    `trim`, `toLowerCase`, `includes`, `endsWith` and `slice(0, n)`. */
module Text {

  /** ECMAScript WhiteSpace and LineTerminator code points (what `String.prototype.trim` strips). */
  predicate IsWhitespace(c: char) {
    || c == '\t' || c == '\n' || c == '\U{000B}' || c == '\U{000C}' || c == '\r' || c == ' '
    || c == '\U{00A0}' || c == '\U{1680}' || ('\U{2000}' <= c <= '\U{200A}')
    || c == '\U{2028}' || c == '\U{2029}' || c == '\U{202F}' || c == '\U{205F}'
    || c == '\U{3000}' || c == '\U{FEFF}'
  }

  predicate IsBlank(s: string) {
    forall i :: 0 <= i < |s| ==> IsWhitespace(s[i])
  }

  /** Leading whitespace removed: the result is a suffix of `s` and what was dropped is blank. */
  function TrimStart(s: string): (r: string)
    ensures |r| <= |s| && r == s[|s| - |r|..]
    ensures IsBlank(s[..|s| - |r|])
    ensures r == [] || !IsWhitespace(r[0])
  {
    if s == [] || !IsWhitespace(s[0]) then s
    else
      var r := TrimStart(s[1..]);
      assert s[..|s| - |r|] == [s[0]] + s[1..][..|s[1..]| - |r|];
      r
  }

  /** Trailing whitespace removed: the result is a prefix of `s` and what was dropped is blank. */
  function TrimEnd(s: string): (r: string)
    ensures |r| <= |s| && r == s[..|r|]
    ensures IsBlank(s[|r|..])
    ensures r == [] || !IsWhitespace(r[|r| - 1])
  {
    if s == [] || !IsWhitespace(s[|s| - 1]) then s
    else
      var r := TrimEnd(s[..|s| - 1]);
      assert s[|r|..] == s[..|s| - 1][|r|..] + [s[|s| - 1]];
      r
  }

  /** `s.trim()`. */
  function Trim(s: string): (r: string)
  {
    TrimEnd(TrimStart(s))
  }

  /** `!s.trim()` holds exactly for the strings made only of whitespace (including ""). */
  lemma TrimEmptyIffBlank(s: string)
    ensures Trim(s) == "" <==> IsBlank(s)
  {
    if IsBlank(s) {
      BlankTrimsToEmpty(s);
    }
    if Trim(s) == "" {
      EmptyTrimIsBlank(s);
    }
  }

  lemma BlankTrimsToEmpty(s: string)
    requires IsBlank(s)
    ensures Trim(s) == ""
  {
    var t := TrimStart(s);
    assert t == s[|s| - |t|..];
  }

  lemma EmptyTrimIsBlank(s: string)
    requires Trim(s) == ""
    ensures IsBlank(s)
  {
    var t := TrimStart(s);
    assert t[0..] == t;
    assert s[..|s| - |t|] == s;
  }

  /** `toLowerCase` on the Basic Latin letters; every other character is kept. */
  function LowerChar(c: char): char {
    if 'A' <= c <= 'Z' then (c as int + 32) as char else c
  }

  function Lower(s: string): (r: string)
    ensures |r| == |s|
    ensures forall i :: 0 <= i < |s| ==> r[i] == LowerChar(s[i])
  {
    if s == [] then [] else [LowerChar(s[0])] + Lower(s[1..])
  }

  /** `s.includes(sub)`. */
  predicate Contains(s: string, sub: string) {
    exists i :: 0 <= i <= |s| - |sub| && MatchesAt(s, sub, i)
  }

  predicate MatchesAt(s: string, sub: string, i: int)
    requires 0 <= i <= |s| - |sub|
  {
    s[i..i + |sub|] == sub
  }

  /** `s.endsWith(suffix)`. */
  predicate EndsWith(s: string, suffix: string) {
    |suffix| <= |s| && s[|s| - |suffix|..] == suffix
  }

  /** `s.slice(0, n)`: the first `n` characters, or all of them when `s` is shorter. */
  function Take(s: string, n: nat): (r: string)
    ensures |r| == if |s| < n then |s| else n
    ensures r == s[..|r|]
  {
    if |s| <= n then s else s[..n]
  }

  /** Text around a match does not hide it. */
  lemma ContainsExtended(s: string, sub: string, before: string, after: string)
    requires Contains(s, sub)
    ensures Contains(before + s + after, sub)
  {
    var i :| 0 <= i <= |s| - |sub| && MatchesAt(s, sub, i);
    var t := before + s + after;
    assert t[|before| + i..|before| + i + |sub|] == s[i..i + |sub|];
    assert MatchesAt(t, sub, |before| + i);
  }
}
