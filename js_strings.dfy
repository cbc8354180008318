/**
 * The JavaScript string operations the modelled code uses, on Dafny strings
 * (sequences of Unicode scalar values). Case mapping covers ASCII only.
 */
module JsStrings {

  /**
   * The ECMAScript WhiteSpace and LineTerminator code points: what `\s`
   * matches in a regular expression and what `String.prototype.trim` removes.
   */
  predicate IsWhitespace(c: char) {
    || c == '\t' || c == '\n' || c == '\U{000B}' || c == '\U{000C}' || c == '\r'
    || c == ' ' || c == '\U{00A0}' || c == '\U{1680}'
    || ('\U{2000}' <= c <= '\U{200A}')
    || c == '\U{2028}' || c == '\U{2029}' || c == '\U{202F}' || c == '\U{205F}'
    || c == '\U{3000}' || c == '\U{FEFF}'
  }

  /** The line terminators, which `.` does not match in a regular expression. */
  predicate IsLineTerminator(c: char) {
    c == '\n' || c == '\r' || c == '\U{2028}' || c == '\U{2029}'
  }

  /** `\d` without the `u` flag. */
  predicate IsDigit(c: char) {
    '0' <= c <= '9'
  }

  predicate IsAsciiLetter(c: char) {
    ('a' <= c <= 'z') || ('A' <= c <= 'Z')
  }

  predicate IsAsciiAlnum(c: char) {
    IsAsciiLetter(c) || IsDigit(c)
  }

  /** `\w`: ASCII letters, digits and the underscore. */
  predicate IsWordChar(c: char) {
    IsAsciiAlnum(c) || c == '_'
  }

  predicate AllWhitespace(s: string) {
    forall i :: 0 <= i < |s| ==> IsWhitespace(s[i])
  }

  /** ASCII lower-casing of one character. */
  function LowerChar(c: char): char {
    if 'A' <= c <= 'Z' then (c as int + 32) as char else c
  }

  /** `toLowerCase`, restricted to ASCII letters. */
  function Lower(s: string): string {
    seq(|s|, i requires 0 <= i < |s| => LowerChar(s[i]))
  }

  /** `s.trimStart()` */
  function TrimStart(s: string): (r: string)
    ensures |r| <= |s| && r == s[|s| - |r|..]
    ensures r == [] || !IsWhitespace(r[0])
    ensures forall i :: 0 <= i < |s| - |r| ==> IsWhitespace(s[i])
  {
    if |s| > 0 && IsWhitespace(s[0]) then
      var r := TrimStart(s[1..]);
      assert forall i :: 1 <= i < |s| ==> s[1..][i - 1] == s[i];
      r
    else s
  }

  /** `s.trimEnd()` */
  function TrimEnd(s: string): (r: string)
    ensures |r| <= |s| && r == s[..|r|]
    ensures r == [] || !IsWhitespace(r[|r| - 1])
    ensures forall i :: |r| <= i < |s| ==> IsWhitespace(s[i])
  {
    if |s| > 0 && IsWhitespace(s[|s| - 1]) then
      var r := TrimEnd(s[..|s| - 1]);
      assert forall i :: 0 <= i < |s| - 1 ==> s[..|s| - 1][i] == s[i];
      r
    else s
  }

  /**
   * A suffix `t` of `s` after whitespace, and a prefix `r` of `t` before
   * whitespace: `r` is a slice of `s` with whitespace on both sides.
   */
  lemma WhitespaceAround(s: string, t: string, r: string)
    requires |t| <= |s| && t == s[|s| - |t|..] && forall i :: 0 <= i < |s| - |t| ==> IsWhitespace(s[i])
    requires |r| <= |t| && r == t[..|r|] && forall i :: |r| <= i < |t| ==> IsWhitespace(t[i])
    ensures var k := |s| - |t|;
      k + |r| <= |s| && r == s[k..k + |r|] && AllWhitespace(s[..k]) && AllWhitespace(s[k + |r|..])
  {
    var k := |s| - |t|;
    var head := s[..k];
    forall i | 0 <= i < |head| ensures IsWhitespace(head[i]) {
      assert head[i] == s[i];
    }
    var tail := s[k + |r|..];
    forall i | 0 <= i < |tail| ensures IsWhitespace(tail[i]) {
      assert tail[i] == t[|r| + i];
    }
  }

  /** `s.trim()`: whitespace is removed from both ends, and only there. */
  function Trim(s: string): (r: string)
    ensures |r| <= |s|
    ensures r == [] || (!IsWhitespace(r[0]) && !IsWhitespace(r[|r| - 1]))
    ensures exists k :: 0 <= k && k + |r| <= |s| && r == s[k..k + |r|]
                        && AllWhitespace(s[..k]) && AllWhitespace(s[k + |r|..])
  {
    var t := TrimStart(s);
    var r := TrimEnd(t);
    WhitespaceAround(s, t, r);
    r
  }

  /** Trimming gives the empty string exactly when the string is all whitespace. */
  lemma TrimEmptyIff(s: string)
    ensures Trim(s) == [] <==> AllWhitespace(s)
  {
    var t := TrimStart(s);
    var r := TrimEnd(t);
    var k := |s| - |t|;
    if r != [] {
      assert s[k] == t[0] == r[0];
    }
  }

  /** `pat` occurs in `s` at position `i`. */
  predicate OccursAt(s: string, pat: string, i: int) {
    0 <= i && i + |pat| <= |s| && s[i..i + |pat|] == pat
  }

  /** `s.includes(sub)` */
  predicate Contains(s: string, sub: string) {
    exists i :: 0 <= i <= |s| && OccursAt(s, sub, i)
  }

  /** Every string contains the strings it is concatenated from. */
  lemma ContainsParts(a: string, b: string, c: string)
    ensures Contains(a + b + c, b)
  {
    var s := a + b + c;
    assert s[|a|..|a| + |b|] == b;
    assert OccursAt(s, b, |a|);
  }

  /** A concatenation of three strings contains each of them. */
  lemma ContainsEach(a: string, b: string, c: string)
    ensures Contains(a + b + c, a) && Contains(a + b + c, b) && Contains(a + b + c, c)
  {
    var s := a + b + c;
    assert s[0..|a|] == a;
    assert OccursAt(s, a, 0);
    ContainsParts(a, b, c);
    assert s[|a| + |b|..|s|] == c;
    assert OccursAt(s, c, |a| + |b|);
  }

  /** A substring of a substring is a substring. */
  lemma ContainsTransitive(a: string, b: string, c: string)
    requires Contains(a, b) && Contains(b, c)
    ensures Contains(a, c)
  {
    var i :| 0 <= i <= |a| && OccursAt(a, b, i);
    var j :| 0 <= j <= |b| && OccursAt(b, c, j);
    forall k | 0 <= k < |c| ensures a[i + j + k] == c[k] {
      assert a[i + j + k] == a[i..i + |b|][j + k] == b[j + k] == b[j..j + |c|][k];
    }
    assert a[i + j..i + j + |c|] == c;
    assert OccursAt(a, c, i + j);
  }

  /**
   * `s.indexOf(pat, from)`: the first position at or after `from` where `pat`
   * occurs, or -1.
   */
  function IndexFrom(s: string, pat: string, from: nat): (r: int)
    decreases |s| - from
    ensures r == -1 || (from <= r && OccursAt(s, pat, r))
    ensures forall j :: from <= j && (r == -1 || j < r) ==> !OccursAt(s, pat, j)
  {
    if from + |pat| > |s| then -1
    else if s[from..from + |pat|] == pat then from
    else IndexFrom(s, pat, from + 1)
  }

  /** `s.indexOf(pat)`: the first occurrence, or -1 when there is none. */
  function IndexOf(s: string, pat: string): (r: int)
    ensures r == -1 <==> !Contains(s, pat)
    ensures r != -1 ==> OccursAt(s, pat, r)
    ensures forall j :: 0 <= j && (r == -1 || j < r) ==> !OccursAt(s, pat, j)
  {
    IndexFrom(s, pat, 0)
  }

  /** `s.replace(pat, rep)` with a string pattern: only the first occurrence is replaced. */
  function ReplaceFirst(s: string, pat: string, rep: string): (r: string)
    ensures !Contains(s, pat) ==> r == s
    ensures Contains(s, pat) ==>
              exists i :: OccursAt(s, pat, i) && r == s[..i] + rep + s[i + |pat|..]
                          && forall j :: 0 <= j < i ==> !OccursAt(s, pat, j)
  {
    var i := IndexOf(s, pat);
    if i == -1 then s else s[..i] + rep + s[i + |pat|..]
  }

  /** `s.split(sep)[0]` for a one-character separator: everything before the first `sep`. */
  function FirstPiece(s: string, sep: char): (r: string)
    ensures r <= s
    ensures forall i :: 0 <= i < |r| ==> r[i] != sep
    ensures |r| == |s| || s[|r|] == sep
  {
    if s == [] || s[0] == sep then [] else [s[0]] + FirstPiece(s[1..], sep)
  }

  /** `xs.join(sep)` */
  function Join(xs: seq<string>, sep: string): string {
    if |xs| == 0 then ""
    else if |xs| == 1 then xs[0]
    else xs[0] + sep + Join(xs[1..], sep)
  }

  /**
   * A reference for `replace(/\s+/g, rep)`, one character at a time: other
   * characters are kept, a whitespace character that starts a run (none
   * before it, `afterWhitespace` false) becomes `rep`, and one that
   * continues a run is dropped.
   */
  function Collapsed(s: string, rep: string, afterWhitespace: bool): string {
    if s == [] then []
    else if IsWhitespace(s[0]) then (if afterWhitespace then [] else rep) + Collapsed(s[1..], rep, true)
    else [s[0]] + Collapsed(s[1..], rep, false)
  }

  /** Inside a run, the scan emits nothing until the run ends. */
  lemma {:induction false} CollapsedSkipsRun(s: string, rep: string)
    ensures Collapsed(s, rep, true) == Collapsed(TrimStart(s), rep, false)
  {
    if s != [] && IsWhitespace(s[0]) {
      CollapsedSkipsRun(s[1..], rep);
    }
  }

  /**
   * `s.replace(/\s+/g, rep)`: every maximal run of whitespace becomes `rep`,
   * as the character-at-a-time scan `Collapsed` gives it.
   */
  function ReplaceWhitespaceRuns(s: string, rep: string): (r: string)
    ensures r == Collapsed(s, rep, false)
    decreases |s|
  {
    if s == [] then []
    else if IsWhitespace(s[0]) then
      CollapsedSkipsRun(s[1..], rep);
      rep + ReplaceWhitespaceRuns(TrimStart(s), rep)
    else [s[0]] + ReplaceWhitespaceRuns(s[1..], rep)
  }

  /** Runs of whitespace are replaced, so a replacement without whitespace leaves none. */
  lemma {:induction false} ReplaceWhitespaceRunsNoWhitespace(s: string, rep: string)
    requires !exists i :: 0 <= i < |rep| && IsWhitespace(rep[i])
    ensures forall i :: 0 <= i < |ReplaceWhitespaceRuns(s, rep)| ==> !IsWhitespace(ReplaceWhitespaceRuns(s, rep)[i])
    decreases |s|
  {
    if s == [] {
    } else if IsWhitespace(s[0]) {
      ReplaceWhitespaceRunsNoWhitespace(TrimStart(s), rep);
      var tail := ReplaceWhitespaceRuns(TrimStart(s), rep);
      forall i | 0 <= i < |rep + tail| ensures !IsWhitespace((rep + tail)[i]) {
        if i >= |rep| { assert (rep + tail)[i] == tail[i - |rep|]; }
      }
    } else {
      ReplaceWhitespaceRunsNoWhitespace(s[1..], rep);
    }
  }

  /** A string without whitespace is left as it is. */
  lemma {:induction false} ReplaceWhitespaceRunsIdentity(s: string, rep: string)
    requires !exists i :: 0 <= i < |s| && IsWhitespace(s[i])
    ensures ReplaceWhitespaceRuns(s, rep) == s
  {
    if s != [] {
      assert !IsWhitespace(s[0]);
      assert forall i :: 0 <= i < |s[1..]| ==> s[1..][i] == s[i + 1];
      ReplaceWhitespaceRunsIdentity(s[1..], rep);
    }
  }

  function DigitChar(d: nat): char
    requires d < 10
  {
    "0123456789"[d]
  }

  /** The decimal rendering of a natural number, as `String(n)` gives it. */
  function NatToString(n: nat): (r: string)
    ensures |r| >= 1
    ensures forall i :: 0 <= i < |r| ==> IsDigit(r[i])
  {
    if n < 10 then [DigitChar(n)] else NatToString(n / 10) + [DigitChar(n % 10)]
  }

  /** The decimal rendering of an integer, with a leading '-' when negative. */
  function IntToString(n: int): string {
    if n < 0 then "-" + NatToString(-n) else NatToString(n)
  }

  function DigitValue(c: char): nat
    requires IsDigit(c)
  {
    c as int - '0' as int
  }

  /** Reads a decimal numeral back, the partner of NatToString. */
  function ParseNat(s: string): nat
    requires forall i :: 0 <= i < |s| ==> IsDigit(s[i])
  {
    if s == [] then 0 else 10 * ParseNat(s[..|s| - 1]) + DigitValue(s[|s| - 1])
  }

  /** Rendering a number in decimal loses nothing: reading it back gives the number. */
  lemma {:induction false} NatToStringRoundTrip(n: nat)
    ensures ParseNat(NatToString(n)) == n
  {
    if n >= 10 {
      var s := NatToString(n);
      assert s[..|s| - 1] == NatToString(n / 10);
      NatToStringRoundTrip(n / 10);
    }
  }

  /** So distinct numbers have distinct renderings. */
  lemma NatToStringInjective(m: nat, n: nat)
    requires NatToString(m) == NatToString(n)
    ensures m == n
  {
    NatToStringRoundTrip(m);
    NatToStringRoundTrip(n);
  }
}
