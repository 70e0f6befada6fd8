/** Character classes and string helpers shared by the validators: the
    ECMAScript whitespace set (used both by `String.prototype.trim` and by the
    regular-expression class `\s`), trimming, ASCII lower-casing and the
    unanchored e-mail pattern `\S+@\S+\.\S+`. */
module Text {

  /** ECMAScript WhiteSpace and LineTerminator code points: the set `trim`
      strips and `\s` matches. */
  predicate IsWhitespace(c: char) {
    || c == '\t' || c == '\n' || c == '\U{000B}' || c == '\U{000C}' || c == '\r'
    || c == ' ' || c == '\U{00A0}' || c == '\U{1680}'
    || ('\U{2000}' <= c <= '\U{200A}')
    || c == '\U{2028}' || c == '\U{2029}' || c == '\U{202F}' || c == '\U{205F}'
    || c == '\U{3000}' || c == '\U{FEFF}'
  }

  /** Every character of `s` is whitespace (vacuously true of ""). */
  predicate IsBlank(s: string) {
    forall i :: 0 <= i < |s| ==> IsWhitespace(s[i])
  }

  /** Number of leading whitespace characters. */
  function LeadingSpace(s: string): (k: nat)
    ensures k <= |s|
    ensures IsBlank(s[..k])
    ensures k < |s| ==> !IsWhitespace(s[k])
  {
    if |s| == 0 || !IsWhitespace(s[0]) then 0
    else
      var k := 1 + LeadingSpace(s[1..]);
      assert s[..k] == [s[0]] + s[1..][..k - 1];
      k
  }

  /** Length of `s` once trailing whitespace is dropped. */
  function TrailingCut(s: string): (k: nat)
    ensures k <= |s|
    ensures IsBlank(s[k..])
    ensures k > 0 ==> !IsWhitespace(s[k - 1])
  {
    if |s| == 0 || !IsWhitespace(s[|s| - 1]) then |s|
    else
      var k := TrailingCut(s[..|s| - 1]);
      assert s[k..] == s[..|s| - 1][k..] + [s[|s| - 1]];
      k
  }

  /** `String.prototype.trim`: `s` without leading and trailing whitespace. */
  function Trim(s: string): (r: string)
    ensures |r| <= |s|
    ensures r == [] <==> IsBlank(s)
    ensures r != [] ==> !IsWhitespace(r[0]) && !IsWhitespace(r[|r| - 1])
    ensures exists a :: 0 <= a <= |s| - |r| && r == s[a..a + |r|]
                          && IsBlank(s[..a]) && IsBlank(s[a + |r|..])
  {
    var a := LeadingSpace(s);
    var b := TrailingCut(s[a..]);
    TrimSlice(s, a, b);
    s[a..a + b]
  }

  lemma TrimSlice(s: string, a: nat, b: nat)
    requires a == LeadingSpace(s) && b == TrailingCut(s[a..])
    ensures a + b <= |s|
    ensures s[a..a + b] == [] <==> IsBlank(s)
    ensures b > 0 ==> !IsWhitespace(s[a]) && !IsWhitespace(s[a + b - 1])
    ensures IsBlank(s[..a]) && IsBlank(s[a + b..])
  {
    TrimEnds(s, a, b);
    if b == 0 {
      TrimEmpty(s, a);
    } else {
      assert !IsBlank(s) by {
        assert !IsWhitespace(s[a + b - 1]);
      }
    }
  }

  /** The kept slice starts and ends with non-space characters and what
      lies around it is white space. */
  lemma TrimEnds(s: string, a: nat, b: nat)
    requires a == LeadingSpace(s) && b == TrailingCut(s[a..])
    ensures a + b <= |s|
    ensures b > 0 ==> !IsWhitespace(s[a]) && !IsWhitespace(s[a + b - 1])
    ensures IsBlank(s[a + b..])
  {
    var rest := s[a..];
    assert s[a + b..] == rest[b..];
    if b > 0 {
      assert s[a] == rest[0];
      assert s[a + b - 1] == rest[b - 1];
    }
  }

  /** Nothing is kept only from a blank string. */
  lemma TrimEmpty(s: string, a: nat)
    requires a == LeadingSpace(s) && TrailingCut(s[a..]) == 0
    ensures IsBlank(s)
  {
    var rest := s[a..];
    assert rest[0..] == rest;
    assert s == s[..a] + rest;
    BlankConcat(s[..a], rest);
  }

  lemma BlankConcat(u: string, v: string)
    requires IsBlank(u) && IsBlank(v)
    ensures IsBlank(u + v)
  {
  }

  /** ASCII upper-case letter, the regular-expression class `[A-Z]`. */
  predicate IsUpper(c: char) { 'A' <= c <= 'Z' }

  /** ASCII lower-case letter, the regular-expression class `[a-z]`. */
  predicate IsLower(c: char) { 'a' <= c <= 'z' }

  /** Decimal digit, the regular-expression class `\d`. */
  predicate IsDigit(c: char) { '0' <= c <= '9' }

  /** Lower-cases ASCII letters and leaves every other character alone. */
  function LowerChar(c: char): (d: char)
    ensures !IsUpper(d)
    ensures IsUpper(c) ==> IsLower(d) && d as int - c as int == 32
    ensures !IsUpper(c) ==> d == c
  {
    if IsUpper(c) then (c as int + 32) as char else c
  }

  /** `toLowerCase`, restricted to ASCII letters. */
  function Lower(s: string): (r: string)
    ensures |r| == |s|
    ensures forall i :: 0 <= i < |s| ==> r[i] == LowerChar(s[i])
  {
    seq(|s|, i requires 0 <= i < |s| => LowerChar(s[i]))
  }

  /** An '@' at `i` preceded by a non-space character, with every character
      after it up to and including `k` non-space: the part of `\S+@\S+`
      that has been read once the scan reaches `k`. */
  predicate AtRun(s: string, i: int, k: int) {
    && 1 <= i <= k < |s|
    && s[i] == '@'
    && !IsWhitespace(s[i - 1])
    && forall m :: i < m <= k ==> !IsWhitespace(s[m])
  }

  /** `\S+@\S+\.\S+` matches with its '@' at `i` and its '.' at `j`. */
  predicate EmailMatchAt(s: string, i: int, j: int) {
    && i + 2 <= j
    && j + 1 < |s|
    && AtRun(s, i, j - 1)
    && s[j] == '.'
    && !IsWhitespace(s[j + 1])
  }

  /** `/\S+@\S+\.\S+/.test(s)`: the pattern is unanchored, so it holds
      when a match exists anywhere in `s`. */
  predicate LooksLikeEmail(s: string) {
    exists i, j :: 0 <= i < j < |s| && EmailMatchAt(s, i, j)
  }

  lemma AtRunStep(s: string, i: int, k: int)
    requires 1 <= i < k < |s|
    ensures AtRun(s, i, k) <==> AtRun(s, i, k - 1) && !IsWhitespace(s[k])
  {
  }

  /** An '@' run of `\S+@\S*` ends at position `k`. */
  predicate RunOpen(s: string, k: int) {
    exists i {:trigger AtRun(s, i, k)} :: 1 <= i <= k && AtRun(s, i, k)
  }

  /** An '@' run of `\S+@\S+` ends at position `k`. */
  predicate RunLong(s: string, k: int) {
    exists i {:trigger AtRun(s, i, k)} :: 1 <= i < k && AtRun(s, i, k)
  }

  /** Position `k` holds a '.' that closes an `\S+@\S+` run. */
  predicate DotReady(s: string, k: int) {
    1 <= k < |s| && s[k] == '.' && RunLong(s, k - 1)
  }

  /** A match of the pattern lies entirely inside `s[..k]`. */
  predicate MatchBefore(s: string, k: int) {
    exists i, j :: 0 <= i < j && j + 1 < k && EmailMatchAt(s, i, j)
  }

  /** A single left-to-right scan that decides the e-mail pattern in linear
      time, without backtracking. */
  method ScanEmail(s: string) returns (found: bool)
    ensures found <==> LooksLikeEmail(s)
  {
    found := false;
    var open, long, dot := false, false, false;
    var k := 0;
    while k < |s|
      invariant 0 <= k <= |s|
      invariant open <==> 1 <= k && RunOpen(s, k - 1)
      invariant long <==> 1 <= k && RunLong(s, k - 1)
      invariant dot <==> 1 <= k && DotReady(s, k - 1)
      invariant found <==> MatchBefore(s, k)
    {
      var c := s[k];
      MatchStep(s, k);
      OpenStep(s, k);
      found := found || (dot && !IsWhitespace(c));
      dot := c == '.' && long;
      if IsWhitespace(c) {
        open, long := false, false;
      } else {
        long := open;
        open := open || (c == '@' && k >= 1 && !IsWhitespace(s[k - 1]));
      }
      k := k + 1;
    }
  }

  lemma MatchStep(s: string, k: int)
    requires 0 <= k < |s|
    ensures MatchBefore(s, k + 1)
            <==> MatchBefore(s, k) || (1 <= k && DotReady(s, k - 1) && !IsWhitespace(s[k]))
  {
    if MatchBefore(s, k + 1) {
      var i, j :| 0 <= i < j && j + 1 < k + 1 && EmailMatchAt(s, i, j);
      if j + 1 == k {
        assert AtRun(s, i, k - 2);
      }
    }
    if 1 <= k && DotReady(s, k - 1) && !IsWhitespace(s[k]) {
      var i :| 1 <= i < k - 2 && AtRun(s, i, k - 2);
      assert EmailMatchAt(s, i, k - 1);
    }
  }

  lemma OpenStep(s: string, k: int)
    requires 0 <= k < |s|
    ensures RunOpen(s, k)
            <==> !IsWhitespace(s[k])
                 && ((1 <= k && RunOpen(s, k - 1)) || (s[k] == '@' && k >= 1 && !IsWhitespace(s[k - 1])))
    ensures RunLong(s, k) <==> !IsWhitespace(s[k]) && 1 <= k && RunOpen(s, k - 1)
  {
    if RunOpen(s, k) {
      var i :| 1 <= i <= k && AtRun(s, i, k);
      if i < k {
        AtRunStep(s, i, k);
      }
    }
    if RunLong(s, k) {
      var i :| 1 <= i < k && AtRun(s, i, k);
      AtRunStep(s, i, k);
    }
    if 1 <= k && RunOpen(s, k - 1) && !IsWhitespace(s[k]) {
      var i :| 1 <= i <= k - 1 && AtRun(s, i, k - 1);
      AtRunStep(s, i, k);
    }
    if !IsWhitespace(s[k]) && s[k] == '@' && k >= 1 && !IsWhitespace(s[k - 1]) {
      assert AtRun(s, k, k);
    }
  }
}
