/**
 * Blacklist patterns. Both the content script and the popup turn a pattern into
 * a regular expression by replacing every `*` with `.*` and test it, unanchored,
 * against a string. Over patterns whose only regular-expression metacharacters
 * are `*` and `.`, that regular expression is the glob language below:
 *   `*`  any run of characters other than line terminators (the regex `.*`),
 *   `.`  any one character other than a line terminator (the regex `.`),
 *   any other character stands for itself, compared with ASCII case folding
 *   when the expression carries the `i` flag.
 */
module Glob {
  import opened Strings

  /** The characters the regular-expression `.` does not match (ECMA-262 LineTerminator). */
  predicate IsLineTerminator(c: char) {
    c == '\n' || c == '\r' || c == '\U{2028}' || c == '\U{2029}'
  }

  /** Character comparison under the expression's case-folding flag. */
  predicate SameChar(a: char, b: char, ignoreCase: bool) {
    if ignoreCase then LowerChar(a) == LowerChar(b) else a == b
  }

  /** One non-`*` pattern character against one text character. */
  predicate AtomMatches(p: char, c: char, ignoreCase: bool) {
    if p == '.' then !IsLineTerminator(c) else SameChar(p, c, ignoreCase)
  }

  /** The whole of `s` is in the language of pattern `p` (the reference definition). */
  predicate FullMatch(p: string, s: string, ignoreCase: bool)
    decreases |p| + |s|
  {
    if p == [] then s == []
    else if p[0] == '*' then
      FullMatch(p[1..], s, ignoreCase)
      || (s != [] && !IsLineTerminator(s[0]) && FullMatch(p, s[1..], ignoreCase))
    else
      s != [] && AtomMatches(p[0], s[0], ignoreCase) && FullMatch(p[1..], s[1..], ignoreCase)
  }

  /** Some prefix of `s` is in the language of `p`: the regex engine trying one start position. */
  predicate PrefixMatch(p: string, s: string, ignoreCase: bool)
    decreases |p| + |s|
  {
    if p == [] then true
    else if p[0] == '*' then
      PrefixMatch(p[1..], s, ignoreCase)
      || (s != [] && !IsLineTerminator(s[0]) && PrefixMatch(p, s[1..], ignoreCase))
    else
      s != [] && AtomMatches(p[0], s[0], ignoreCase) && PrefixMatch(p[1..], s[1..], ignoreCase)
  }

  /** `RegExp.prototype.test`: try every start position from left to right. */
  predicate Search(p: string, s: string, ignoreCase: bool)
    decreases |s|
  {
    PrefixMatch(p, s, ignoreCase) || (s != [] && Search(p, s[1..], ignoreCase))
  }

  /** The unanchored meaning: some infix `s[i..j]` is in the language of `p`. */
  ghost predicate Occurs(p: string, s: string, ignoreCase: bool) {
    exists i, j :: 0 <= i <= j <= |s| && FullMatch(p, s[i..j], ignoreCase)
  }

  /** A prefix match is a full match of some prefix. */
  lemma {:induction false} PrefixMatchSound(p: string, s: string, ic: bool)
    requires PrefixMatch(p, s, ic)
    ensures exists j :: 0 <= j <= |s| && FullMatch(p, s[..j], ic)
    decreases |p| + |s|
  {
    if p == [] {
      assert FullMatch(p, s[..0], ic);
    } else if p[0] == '*' {
      if PrefixMatch(p[1..], s, ic) {
        PrefixMatchSound(p[1..], s, ic);
        var j :| 0 <= j <= |s| && FullMatch(p[1..], s[..j], ic);
        assert FullMatch(p, s[..j], ic);
      } else {
        PrefixMatchSound(p, s[1..], ic);
        var j :| 0 <= j <= |s| - 1 && FullMatch(p, s[1..][..j], ic);
        assert s[..j + 1][1..] == s[1..][..j];
        assert FullMatch(p, s[..j + 1], ic);
      }
    } else {
      PrefixMatchSound(p[1..], s[1..], ic);
      var j :| 0 <= j <= |s| - 1 && FullMatch(p[1..], s[1..][..j], ic);
      assert s[..j + 1][1..] == s[1..][..j];
      assert FullMatch(p, s[..j + 1], ic);
    }
  }

  /** A full match of a prefix is found by the prefix matcher. */
  lemma {:induction false} PrefixMatchComplete(p: string, s: string, j: nat, ic: bool)
    requires j <= |s| && FullMatch(p, s[..j], ic)
    ensures PrefixMatch(p, s, ic)
    decreases |p| + |s|
  {
    if p == [] {
    } else if p[0] == '*' {
      if FullMatch(p[1..], s[..j], ic) {
        PrefixMatchComplete(p[1..], s, j, ic);
      } else {
        assert s[..j][1..] == s[1..][..j - 1];
        PrefixMatchComplete(p, s[1..], j - 1, ic);
      }
    } else {
      assert s[..j][1..] == s[1..][..j - 1];
      PrefixMatchComplete(p[1..], s[1..], j - 1, ic);
    }
  }

  /** The left-to-right search finds a match exactly when some infix matches. */
  lemma {:induction false} SearchIsOccurs(p: string, s: string, ic: bool)
    ensures Search(p, s, ic) <==> Occurs(p, s, ic)
    decreases |s|
  {
    if s != [] {
      SearchIsOccurs(p, s[1..], ic);
    }
    if Search(p, s, ic) {
      if PrefixMatch(p, s, ic) {
        PrefixMatchSound(p, s, ic);
        var j :| 0 <= j <= |s| && FullMatch(p, s[..j], ic);
        assert s[0..j] == s[..j];
      } else {
        var i, j :| 0 <= i <= j <= |s| - 1 && FullMatch(p, s[1..][i..j], ic);
        assert s[1..][i..j] == s[i + 1..j + 1];
      }
    }
    if Occurs(p, s, ic) {
      var i, j :| 0 <= i <= j <= |s| && FullMatch(p, s[i..j], ic);
      if i == 0 {
        assert s[..j] == s[i..j];
        PrefixMatchComplete(p, s, j, ic);
      } else {
        assert s[1..][i - 1..j - 1] == s[i..j];
        assert Occurs(p, s[1..], ic);
      }
    }
  }

  /** Does the pattern match the url or the hostname: one step of `some` in both callers. */
  predicate PatternHits(pattern: string, url: string, hostname: string, ignoreCase: bool) {
    Search(pattern, url, ignoreCase) || Search(pattern, hostname, ignoreCase)
  }

  /** `patterns.some(p => test(p, url) || test(p, hostname))`. */
  function AnyPatternHits(patterns: seq<string>, url: string, hostname: string, ignoreCase: bool): (r: bool)
    ensures r <==> exists k :: 0 <= k < |patterns| && PatternHits(patterns[k], url, hostname, ignoreCase)
    ensures patterns == [] ==> !r
  {
    if patterns == [] then false
    else
      var rest := AnyPatternHits(patterns[1..], url, hostname, ignoreCase);
      assert forall k :: 1 <= k < |patterns| ==> patterns[k] == patterns[1..][k - 1];
      PatternHits(patterns[0], url, hostname, ignoreCase) || rest
  }
}
