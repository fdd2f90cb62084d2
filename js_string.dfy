/** `String.prototype.trim` of JavaScript, which the todo page uses to reject
    blank input. */
module JsString {

  /** ECMAScript's WhiteSpace: tab, vertical tab, form feed, the byte order
      mark and every Unicode space separator. */
  const WhiteSpace: set<char> := {
    '\t', '\U{000B}', '\U{000C}', '\U{FEFF}',
    ' ', '\U{00A0}', '\U{1680}',
    '\U{2000}', '\U{2001}', '\U{2002}', '\U{2003}', '\U{2004}', '\U{2005}',
    '\U{2006}', '\U{2007}', '\U{2008}', '\U{2009}', '\U{200A}',
    '\U{202F}', '\U{205F}', '\U{3000}'
  }

  /** ECMAScript's LineTerminator: line feed, carriage return, line separator
      and paragraph separator. */
  const LineTerminators: set<char> := {'\n', '\r', '\U{2028}', '\U{2029}'}

  /** The characters `trim` strips, tested by ranges. */
  predicate IsTrimmable(c: char) {
    || c == '\t' || c == '\n' || c == '\U{000B}' || c == '\U{000C}' || c == '\r'
    || c == ' ' || c == '\U{00A0}' || c == '\U{1680}'
    || ('\U{2000}' <= c <= '\U{200A}')
    || c == '\U{2028}' || c == '\U{2029}' || c == '\U{202F}' || c == '\U{205F}'
    || c == '\U{3000}' || c == '\U{FEFF}'
  }

  /** The range test picks exactly the WhiteSpace and LineTerminator
      characters. */
  lemma TrimmableIsWhiteSpaceOrLineTerminator(c: char)
    ensures IsTrimmable(c) <==> c in WhiteSpace || c in LineTerminators
  {
  }

  /** Every character of `s` is trimmable (the empty string included). */
  predicate IsBlank(s: string) {
    forall i :: 0 <= i < |s| ==> IsTrimmable(s[i])
  }

  /** `s` without its leading trimmable characters. */
  function TrimStart(s: string): (r: string)
    ensures |r| <= |s| && r == s[|s| - |r|..]
    ensures IsBlank(s[..|s| - |r|])
    ensures r == [] || !IsTrimmable(r[0])
  {
    if s != [] && IsTrimmable(s[0]) then TrimStart(s[1..]) else s
  }

  /** `s` without its trailing trimmable characters. */
  function TrimEnd(s: string): (r: string)
    ensures |r| <= |s| && r == s[..|r|]
    ensures IsBlank(s[|r|..])
    ensures r == [] || !IsTrimmable(r[|r| - 1])
  {
    if s != [] && IsTrimmable(s[|s| - 1]) then TrimEnd(s[..|s| - 1]) else s
  }

  /** `s.trim()`: the result is empty exactly when `s` is blank, and otherwise
      begins and ends with a character that is not trimmable. */
  function Trim(s: string): (r: string)
    ensures |r| <= |s|
    ensures r == [] <==> IsBlank(s)
    ensures r == [] || (!IsTrimmable(r[0]) && !IsTrimmable(r[|r| - 1]))
  {
    var t := TrimStart(s);
    var r := TrimEnd(t);
    assert r == [] ==> IsBlank(s) by {
      if r == [] {
        assert s == s[..|s| - |t|] + t;
      }
    }
    r
  }

  /** `trim` only removes a blank prefix and a blank suffix: `s` is such a
      prefix, then `Trim(s)`, then such a suffix. */
  lemma TrimSplits(s: string) returns (prefix: string, suffix: string)
    ensures s == prefix + Trim(s) + suffix
    ensures IsBlank(prefix) && IsBlank(suffix)
  {
    var t := TrimStart(s);
    var r := TrimEnd(t);
    prefix, suffix := s[..|s| - |t|], t[|r|..];
    SplitAround(s, |s| - |t|, r, suffix);
  }

  /** If `s[k..]` is `middle + suffix`, then `s` is `s[..k] + middle + suffix`. */
  lemma SplitAround(s: string, k: nat, middle: string, suffix: string)
    requires k <= |s| && s[k..] == middle + suffix
    ensures s == s[..k] + middle + suffix
  {
    assert s == s[..k] + s[k..];
  }

  /** Trimming twice is trimming once. */
  lemma TrimIdempotent(s: string)
    ensures Trim(Trim(s)) == Trim(s)
  {
    var r := Trim(s);
    if r != [] {
      assert TrimStart(r) == r;
      assert TrimEnd(r) == r;
    }
  }
}
