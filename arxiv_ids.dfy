/**
 * Turning an arXiv identifier, or a URL that holds one, into the identifier
 * used in a PDF link. Two regular expressions are involved:
 * `/(\d{4}\.\d{4,5})/`, whose first match is a new-style identifier, and
 * `/^.*\//`, whose replacement drops everything up to the last '/' of the
 * first line (`.` does not match line terminators).
 */
module ArxivIds {
  import opened JsRuntime
  import opened JsStrings

  predicate AllDigits(s: string) {
    forall i :: 0 <= i < |s| ==> IsDigit(s[i])
  }

  /** `\d{4}\.\d{4}` matches at position i (a fifth digit after it is optional). */
  predicate IdAt(s: string, i: int) {
    0 <= i && i + 9 <= |s| && AllDigits(s[i..i + 4]) && s[i + 4] == '.' && AllDigits(s[i + 5..i + 9])
  }

  /** The length of the match at i: `\d{4,5}` is greedy, so a fifth digit is taken when there is one. */
  function IdLength(s: string, i: int): (n: nat)
    requires IdAt(s, i)
    ensures n == 9 || n == 10
    ensures i + n <= |s|
  {
    if i + 9 < |s| && IsDigit(s[i + 9]) then 10 else 9
  }

  /** The leftmost match position at or after `from`. */
  function FindIdFrom(s: string, from: nat): (r: Option<nat>)
    ensures r.Some? ==> from <= r.value && IdAt(s, r.value)
    ensures forall j :: from <= j && (r.None? || j < r.value) ==> !IdAt(s, j)
    decreases |s| - from
  {
    if from + 9 > |s| then None
    else if IdAt(s, from) then Some(from)
    else FindIdFrom(s, from + 1)
  }

  /** `s.match(/(\d{4}\.\d{4,5})/)?.[1]`: the leftmost new-style identifier in s. */
  function FindArxivId(s: string): (r: Option<string>)
    ensures r.None? <==> forall i :: 0 <= i <= |s| ==> !IdAt(s, i)
    ensures r.Some? ==> exists i :: IdAt(s, i) && r.value == s[i..i + IdLength(s, i)]
                                    && forall j :: 0 <= j < i ==> !IdAt(s, j)
  {
    var p := FindIdFrom(s, 0);
    if p.None? then None else Some(s[p.value..p.value + IdLength(s, p.value)])
  }

  /** A found identifier has the shape NNNN.NNNN or NNNN.NNNNN. */
  lemma FoundIdShape(s: string)
    requires FindArxivId(s).Some?
    ensures var id := FindArxivId(s).value;
      (|id| == 9 || |id| == 10) && id[4] == '.' && AllDigits(id[..4]) && AllDigits(id[5..])
  {
    var i :| IdAt(s, i) && FindArxivId(s).value == s[i..i + IdLength(s, i)];
    var id := s[i..i + IdLength(s, i)];
    assert id[..4] == s[i..i + 4];
    assert forall k :: 5 <= k < |id| ==> id[k] == s[i + k];
    var tail := s[i + 5..i + 9];
    assert forall k :: 0 <= k < 4 ==> tail[k] == s[i + 5 + k];
  }

  /** The length of the first line: the position of the first line terminator, or |s|. */
  function FirstLineLength(s: string): (n: nat)
    ensures n <= |s|
    ensures forall i :: 0 <= i < n ==> !IsLineTerminator(s[i])
    ensures n < |s| ==> IsLineTerminator(s[n])
  {
    if s == [] || IsLineTerminator(s[0]) then 0 else 1 + FirstLineLength(s[1..])
  }

  /** The position of the last '/' among the first n characters, or -1. */
  function LastSlashBefore(s: string, n: nat): (r: int)
    requires n <= |s|
    ensures -1 <= r < n
    ensures r >= 0 ==> s[r] == '/'
    ensures forall i :: r < i < n ==> s[i] != '/'
  {
    if n == 0 then -1 else if s[n - 1] == '/' then n - 1 else LastSlashBefore(s, n - 1)
  }

  /**
   * `s.replace(/^.*\//, '')`: the removed part lies within the first line and
   * ends with '/', and no '/' is left in what remains of the first line.
   */
  function StripThroughLastSlash(s: string): (r: string)
    ensures |r| <= |s| && r == s[|s| - |r|..]
    ensures |s| - |r| <= FirstLineLength(s)
    ensures |r| < |s| ==> s[|s| - |r| - 1] == '/'
    ensures forall i :: |s| - |r| <= i < FirstLineLength(s) ==> s[i] != '/'
  {
    var k := LastSlashBefore(s, FirstLineLength(s));
    s[k + 1..]
  }

  /** On a single line, stripping leaves no '/' at all. */
  lemma StripSingleLineHasNoSlash(s: string)
    requires forall i :: 0 <= i < |s| ==> !IsLineTerminator(s[i])
    ensures forall i :: 0 <= i < |StripThroughLastSlash(s)| ==> StripThroughLastSlash(s)[i] != '/'
  {
    var r := StripThroughLastSlash(s);
    assert FirstLineLength(s) == |s|;
    forall i | 0 <= i < |r| ensures r[i] != '/' {
      assert r[i] == s[|s| - |r| + i];
    }
  }

  /** `https://arxiv.org/pdf/<id>.pdf` */
  function PdfUrlFor(id: string): string {
    "https://arxiv.org/pdf/" + id + ".pdf"
  }
}
