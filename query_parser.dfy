/**
 * Natural-language query parsing (`src/utils/queryParser.ts`): a date
 * filter, a sort order, and search terms made of the query's words and
 * their synonyms, de-duplicated in insertion order and capped at twelve.
 *
 * The current year is a parameter. Case mapping covers ASCII only.
 */
module QueryParser {
  import opened JsRuntime
  import opened JsStrings

  /** `{ searchTerms, category?, dateFilter?, sortBy? }` */
  datatype ParsedQuery = ParsedQuery(
    searchTerms: seq<string>,
    category: Option<string>,
    dateFilter: Option<string>,
    sortBy: Option<string>)

  const MaxTerms := 12

  const StopWords: seq<string> := [
    "the", "and", "or", "but", "in", "on", "at", "to", "for", "of", "with", "by", "from",
    "that", "how", "can", "any", "papers", "paper"]

  const SynonymMap: map<string, seq<string>> := map[
    "ai" := ["artificial intelligence", "machine learning", "ML", "deep learning", "neural"],
    "artificial" := ["AI", "machine learning", "intelligent"],
    "intelligence" := ["AI", "artificial", "smart", "cognitive"],
    "economy" := ["economic", "economics", "financial", "finance", "market", "business"],
    "economic" := ["economy", "economics", "financial", "finance", "market"],
    "impact" := ["effect", "influence", "consequence", "affect", "outcome"],
    "predict" := ["prediction", "forecast", "anticipate", "model", "estimate"],
    "global" := ["worldwide", "international", "world", "universal"],
    "learning" := ["ML", "machine learning", "neural", "training"],
    "machine" := ["ML", "artificial", "automated", "computational"]
  ]

  const Combinations: seq<string> := ["computational economics", "algorithmic trading", "fintech"]

  // ---------------------------------------------------------------- date and sort

  /** `\b(20[0-2][0-9])\b` matches at position i. */
  predicate YearAt(s: string, i: int) {
    && 0 <= i && i + 4 <= |s|
    && s[i] == '2' && s[i + 1] == '0' && '0' <= s[i + 2] <= '2' && IsDigit(s[i + 3])
    && (i == 0 || !IsWordChar(s[i - 1]))
    && (i + 4 == |s| || !IsWordChar(s[i + 4]))
  }

  /** The leftmost year mention at or after `from`. */
  function FindYearFrom(s: string, from: nat): (r: Option<nat>)
    ensures r.Some? ==> from <= r.value && YearAt(s, r.value)
    ensures forall j :: from <= j && (r.None? || j < r.value) ==> !YearAt(s, j)
    decreases |s| - from
  {
    if from + 4 > |s| then None
    else if YearAt(s, from) then Some(from)
    else FindYearFrom(s, from + 1)
  }

  /** `query.match(/\b(20[0-2][0-9])\b/)?.[1]` */
  function YearMention(query: string): (r: Option<string>)
    ensures r.None? <==> forall i :: 0 <= i <= |query| ==> !YearAt(query, i)
    ensures r.Some? ==> exists i :: YearAt(query, i) && r.value == query[i..i + 4]
                                    && forall j :: 0 <= j < i ==> !YearAt(query, j)
  {
    var p := FindYearFrom(query, 0);
    if p.None? then None else Some(query[p.value..p.value + 4])
  }

  /** "recent", "latest" or "new" in the lowercased query. */
  predicate MentionsRecency(lowerQuery: string) {
    Contains(lowerQuery, "recent") || Contains(lowerQuery, "latest") || Contains(lowerQuery, "new")
  }

  /** The date filter: an explicit year overrides the current year that a recency word asks for. */
  function DateFilter(query: string, currentYear: int): (r: Option<string>)
    ensures YearMention(query).Some? ==> r == YearMention(query)
    ensures YearMention(query).None? && MentionsRecency(Lower(query)) ==> r == Some(IntToString(currentYear))
    ensures YearMention(query).None? && !MentionsRecency(Lower(query)) ==> r == None
  {
    var fromRecency := if MentionsRecency(Lower(query)) then Some(IntToString(currentYear)) else None;
    var mention := YearMention(query);
    if mention.Some? then mention else fromRecency
  }

  /** The sort order: citations over date over relevance. */
  function SortBy(lowerQuery: string): (r: string)
    ensures r == "citations" <==> Contains(lowerQuery, "most cited") || Contains(lowerQuery, "popular")
    ensures r == "date" <==>
              !(Contains(lowerQuery, "most cited") || Contains(lowerQuery, "popular"))
              && (Contains(lowerQuery, "latest") || Contains(lowerQuery, "newest") || Contains(lowerQuery, "recent"))
    ensures r == "citations" || r == "date" || r == "relevance"
  {
    if Contains(lowerQuery, "most cited") || Contains(lowerQuery, "popular") then "citations"
    else if Contains(lowerQuery, "latest") || Contains(lowerQuery, "newest") || Contains(lowerQuery, "recent") then "date"
    else "relevance"
  }

  // ---------------------------------------------------------------- words

  /** `.replace(/[^\w\s]/g, ' ')` */
  function Sanitize(s: string): (r: string)
    ensures |r| == |s|
    ensures forall i :: 0 <= i < |s| ==> r[i] == if IsWordChar(s[i]) || IsWhitespace(s[i]) then s[i] else ' '
  {
    seq(|s|, i requires 0 <= i < |s| => if IsWordChar(s[i]) || IsWhitespace(s[i]) then s[i] else ' ')
  }

  /** The position of the first whitespace character, or |s|. */
  function FirstWhitespace(s: string): (n: nat)
    ensures n <= |s|
    ensures forall i :: 0 <= i < n ==> !IsWhitespace(s[i])
    ensures n < |s| ==> IsWhitespace(s[n])
  {
    if s == [] || IsWhitespace(s[0]) then 0 else 1 + FirstWhitespace(s[1..])
  }

  /**
   * `.split(/\s+/)`: the pieces between maximal whitespace runs. No piece
   * holds whitespace, and the first piece is empty exactly when the string
   * is empty or starts with whitespace; `SplitWhitespaceJoin` gives the
   * rest of its meaning.
   */
  function SplitWhitespace(s: string): (r: seq<string>)
    ensures |r| >= 1
    ensures forall k :: 0 <= k < |r| ==> forall i :: 0 <= i < |r[k]| ==> !IsWhitespace(r[k][i])
    ensures r[0] == [] <==> s == [] || IsWhitespace(s[0])
    decreases |s|
  {
    var n := FirstWhitespace(s);
    if n == |s| then [s]
    else
      var rest := SplitWhitespace(TrimStart(s[n..]));
      var r := [s[..n]] + rest;
      assert r[0] == s[..n] && forall i :: 0 <= i < n ==> r[0][i] == s[i];
      assert forall k :: 0 < k < |r| ==> r[k] == rest[k - 1];
      r
  }

  /**
   * Joined with " ", the pieces give the string with each whitespace run
   * collapsed to one space, and every piece but the first and the last is
   * non-empty.
   */
  lemma {:induction false} SplitWhitespaceJoin(s: string)
    ensures Join(SplitWhitespace(s), " ") == Collapsed(s, " ", false)
    ensures forall k :: 0 < k < |SplitWhitespace(s)| - 1 ==> SplitWhitespace(s)[k] != []
    decreases |s|
  {
    var n := FirstWhitespace(s);
    if n == |s| {
      CollapsedKeepsWord(s, []);
      assert s + [] == s;
    } else {
      var t := TrimStart(s[n..]);
      var rest := SplitWhitespace(t);
      SplitWhitespaceJoin(t);
      SplitJoinStep(s, n, rest);
      assert t == [] ==> rest == [t];
      InteriorStep(s[..n], rest, t);
    }
  }

  lemma InteriorStep(a: string, rest: seq<string>, t: string)
    requires |rest| >= 1
    requires rest[0] == [] <==> t == [] || IsWhitespace(t[0])
    requires t != [] ==> !IsWhitespace(t[0])
    requires t == [] ==> |rest| == 1
    requires forall k :: 0 < k < |rest| - 1 ==> rest[k] != []
    ensures forall k :: 0 < k < |[a] + rest| - 1 ==> ([a] + rest)[k] != []
  {
    assert forall k :: 0 < k < |[a] + rest| ==> ([a] + rest)[k] == rest[k - 1];
  }

  lemma SplitJoinStep(s: string, n: nat, rest: seq<string>)
    requires n == FirstWhitespace(s) < |s|
    requires |rest| >= 1 && Join(rest, " ") == Collapsed(TrimStart(s[n..]), " ", false)
    requires rest[0] == [] <==> TrimStart(s[n..]) == [] || IsWhitespace(TrimStart(s[n..])[0])
    ensures Join([s[..n]] + rest, " ") == Collapsed(s, " ", false)
    ensures TrimStart(s[n..]) != [] ==> rest[0] != []
  {
    CollapsedWordThenRun(s, n);
    JoinCons(s[..n], rest, " ");
    JoinGlue(s, s[..n], Collapsed(TrimStart(s[n..]), " ", false), rest);
  }

  /** The word before the first run is kept, and the run becomes one space. */
  lemma CollapsedWordThenRun(s: string, n: nat)
    requires n == FirstWhitespace(s) < |s|
    ensures Collapsed(s, " ", false) == s[..n] + (" " + Collapsed(TrimStart(s[n..]), " ", false))
  {
    var a, u := s[..n], s[n..];
    PrefixBeforeRun(s, n);
    CollapsedKeepsWord(a, u);
    CollapsedAtRun(u);
  }

  lemma PrefixBeforeRun(s: string, n: nat)
    requires n == FirstWhitespace(s) < |s|
    ensures forall i :: 0 <= i < |s[..n]| ==> !IsWhitespace(s[..n][i])
    ensures s[..n] + s[n..] == s
    ensures s[n..] != [] && IsWhitespace(s[n..][0])
  {
    assert forall i :: 0 <= i < n ==> s[..n][i] == s[i];
  }

  lemma JoinGlue(s: string, a: string, x: string, rest: seq<string>)
    requires Collapsed(s, " ", false) == a + (" " + x)
    requires Join([a] + rest, " ") == a + " " + Join(rest, " ")
    requires Join(rest, " ") == x
    ensures Join([a] + rest, " ") == Collapsed(s, " ", false)
  {
    ConcatAssoc(a, " ", x);
  }

  /** A whitespace run at the front becomes one space. */
  lemma CollapsedAtRun(u: string)
    requires u != [] && IsWhitespace(u[0])
    ensures Collapsed(u, " ", false) == " " + Collapsed(TrimStart(u), " ", false)
  {
    CollapsedSkipsRun(u[1..], " ");
  }

  lemma JoinCons(a: string, rest: seq<string>, sep: string)
    requires |rest| >= 1
    ensures Join([a] + rest, sep) == a + sep + Join(rest, sep)
  {
    assert ([a] + rest)[1..] == rest;
  }

  lemma ConcatAssoc(x: string, y: string, z: string)
    ensures x + y + z == x + (y + z)
  {
  }

  /** A word without whitespace passes through the scan unchanged. */
  lemma {:induction false} CollapsedKeepsWord(u: string, v: string)
    requires forall i :: 0 <= i < |u| ==> !IsWhitespace(u[i])
    ensures Collapsed(u + v, " ", false) == u + Collapsed(v, " ", false)
  {
    if u != [] {
      assert (u + v)[0] == u[0];
      assert (u + v)[1..] == u[1..] + v;
      assert forall i :: 0 <= i < |u[1..]| ==> u[1..][i] == u[i + 1];
      CollapsedKeepsWord(u[1..], v);
      assert u == [u[0]] + u[1..];
    } else {
      assert u + v == v;
    }
  }

  predicate Kept(w: string) {
    |w| > 2 && w !in StopWords
  }

  /** `.filter(word => word.length > 2 && !stopWords.includes(word))` */
  function KeepWords(ws: seq<string>): (r: seq<string>)
    ensures forall k :: 0 <= k < |r| ==> Kept(r[k]) && r[k] in ws
    ensures forall w :: w in r <==> w in ws && Kept(w)
    ensures |r| <= |ws|
  {
    if ws == [] then []
    else (if Kept(ws[0]) then [ws[0]] else []) + KeepWords(ws[1..])
  }

  /** The filter keeps the order of the pieces: it distributes over concatenation. */
  lemma {:induction false} KeepWordsAppend(a: seq<string>, b: seq<string>)
    ensures KeepWords(a + b) == KeepWords(a) + KeepWords(b)
  {
    if a != [] {
      var w, tail := a[0], a[1..];
      assert a == [w] + tail;
      assert a + b == [w] + (tail + b);
      KeepWordsCons(w, tail + b);
      KeepWordsCons(w, tail);
      KeepWordsAppend(tail, b);
      SeqAssoc(KeepWords([w]), KeepWords(tail), KeepWords(b));
    } else {
      assert a + b == b;
    }
  }

  lemma KeepWordsCons(w: string, ws: seq<string>)
    ensures KeepWords([w] + ws) == KeepWords([w]) + KeepWords(ws)
  {
    var v := [w] + ws;
    assert v[0] == w && v[1..] == ws;
    assert [w][1..] == [];
    assert KeepWords(v) == (if Kept(w) then [w] else []) + KeepWords(ws);
    assert KeepWords([w]) == (if Kept(w) then [w] else []) + [];
  }

  lemma SeqAssoc(x: seq<string>, y: seq<string>, z: seq<string>)
    ensures x + y + z == x + (y + z)
  {
  }

  /** The query's words: lowercased, cut at anything but letters, digits and '_', short words and stop words dropped. */
  function Words(query: string): seq<string> {
    KeepWords(SplitWhitespace(Sanitize(Lower(query))))
  }

  /**
   * The words are exactly the kept pieces of the sanitized, lower-cased
   * query: each is longer than two characters, no stop word, made of word
   * characters only, and has no upper-case ASCII letter.
   */
  lemma WordsShape(query: string)
    ensures forall w :: w in Words(query) <==> w in SplitWhitespace(Sanitize(Lower(query))) && Kept(w)
    ensures forall k :: 0 <= k < |Words(query)| ==>
              var w := Words(query)[k];
              |w| > 2 && w !in StopWords && WordCharsOnly(w) && NoAsciiUpper(w)
  {
    var s := Sanitize(Lower(query));
    SplitPiecesFromSanitized(s);
    SanitizedLowerNoUpper(query);
    SplitPiecesNoUpper(s);
    KeptPiecesShape(SplitWhitespace(s), Words(query));
  }

  lemma KeptPiecesShape(pieces: seq<string>, words: seq<string>)
    requires words == KeepWords(pieces)
    requires forall w :: w in pieces ==> WordCharsOnly(w) && NoAsciiUpper(w)
    ensures forall k :: 0 <= k < |words| ==>
              var w := words[k];
              |w| > 2 && w !in StopWords && WordCharsOnly(w) && NoAsciiUpper(w)
  {
  }

  /** Lower-casing leaves no upper-case ASCII letter, and sanitizing adds none. */
  lemma SanitizedLowerNoUpper(query: string)
    ensures NoAsciiUpper(Sanitize(Lower(query)))
  {
    var l := Lower(query);
    var s := Sanitize(l);
    forall i | 0 <= i < |s| ensures !IsAsciiUpper(s[i]) {
      assert l[i] == LowerChar(query[i]);
    }
  }

  predicate WordCharsOnly(w: string) {
    forall i :: 0 <= i < |w| ==> IsWordChar(w[i])
  }

  /** The pieces of a sanitized string hold only word characters. */
  lemma {:induction false} SplitPiecesFromSanitized(s: string)
    requires forall i :: 0 <= i < |s| ==> IsWordChar(s[i]) || IsWhitespace(s[i])
    ensures forall w :: w in SplitWhitespace(s) ==> WordCharsOnly(w)
    decreases |s|
  {
    var n := FirstWhitespace(s);
    assert WordCharsOnly(s[..n]) by {
      assert forall i :: 0 <= i < n ==> s[..n][i] == s[i];
    }
    if n < |s| {
      var rest := TrimStart(s[n..]);
      assert forall i :: 0 <= i < |rest| ==> rest[i] == s[|s| - |rest| + i];
      SplitPiecesFromSanitized(rest);
      assert SplitWhitespace(s) == [s[..n]] + SplitWhitespace(rest);
    } else {
      assert s[..n] == s;
    }
  }

  predicate IsAsciiUpper(c: char) {
    'A' <= c <= 'Z'
  }

  predicate NoAsciiUpper(w: string) {
    forall i :: 0 <= i < |w| ==> !IsAsciiUpper(w[i])
  }

  /** The pieces of a string without upper-case ASCII letters have none either. */
  lemma {:induction false} SplitPiecesNoUpper(s: string)
    requires NoAsciiUpper(s)
    ensures forall w :: w in SplitWhitespace(s) ==> NoAsciiUpper(w)
    decreases |s|
  {
    var n := FirstWhitespace(s);
    assert NoAsciiUpper(s[..n]) by {
      assert forall i :: 0 <= i < n ==> s[..n][i] == s[i];
    }
    if n < |s| {
      var rest := TrimStart(s[n..]);
      assert NoAsciiUpper(rest) by {
        assert forall i :: 0 <= i < |rest| ==> rest[i] == s[|s| - |rest| + i];
      }
      SplitPiecesNoUpper(rest);
      assert SplitWhitespace(s) == [s[..n]] + SplitWhitespace(rest);
    } else {
      assert s[..n] == s;
    }
  }

  /** The "ai" entry of the synonym map never fires: two-letter words are dropped first. */
  lemma AiNeverLookedUp(query: string)
    ensures "ai" !in Words(query)
  {
  }

  // ---------------------------------------------------------------- the term set

  /** The synonyms of a word, looked up among the map's own keys. */
  function SynonymsOf(w: string): seq<string> {
    if w in SynonymMap then SynonymMap[w] else []
  }

  /** The synonyms of all words, word by word, in order. */
  function AllSynonyms(ws: seq<string>): seq<string> {
    if ws == [] then [] else AllSynonyms(ws[..|ws| - 1]) + SynonymsOf(ws[|ws| - 1])
  }

  lemma AllSynonymsStep(ws: seq<string>, i: nat)
    requires i < |ws|
    ensures ws + AllSynonyms(ws[..i + 1]) == ws + AllSynonyms(ws[..i]) + SynonymsOf(ws[i])
  {
    assert ws[..i + 1][..i] == ws[..i];
  }

  function CombinationsFor(lowerQuery: string): seq<string> {
    if Contains(lowerQuery, "ai") && Contains(lowerQuery, "econom") then Combinations else []
  }

  /** The iteration order of a `Set` built by adding xs one by one: first occurrences, in order. */
  function Dedup(xs: seq<string>): seq<string> {
    if xs == [] then []
    else
      var d := Dedup(xs[..|xs| - 1]);
      if xs[|xs| - 1] in d then d else d + [xs[|xs| - 1]]
  }

  predicate NoDuplicates(xs: seq<string>) {
    forall i, j :: 0 <= i < j < |xs| ==> xs[i] != xs[j]
  }

  /** A `Set` holds exactly what was added to it, each value once. */
  lemma {:induction false} DedupIsSet(xs: seq<string>)
    ensures NoDuplicates(Dedup(xs))
    ensures forall x :: x in Dedup(xs) <==> x in xs
  {
    if xs != [] {
      var init := xs[..|xs| - 1];
      DedupIsSet(init);
      assert xs == init + [xs[|xs| - 1]];
    }
  }

  /** Insertion order is kept: what was added first comes first, and later values are only those not seen before. */
  lemma {:induction false} DedupAppend(a: seq<string>, b: seq<string>)
    ensures |Dedup(a)| <= |Dedup(a + b)| && Dedup(a + b)[..|Dedup(a)|] == Dedup(a)
    ensures forall x :: x in Dedup(a + b)[|Dedup(a)|..] ==> x !in a
    decreases |b|
  {
    if b == [] {
      assert a + b == a;
    } else {
      var init := b[..|b| - 1];
      assert (a + b)[..|a + b| - 1] == a + init;
      DedupAppend(a, init);
      DedupIsSet(a);
      DedupIsSet(a + init);
      var d := Dedup(a + init);
      if (a + b)[|a + b| - 1] !in d {
        assert Dedup(a + b) == d + [(a + b)[|a + b| - 1]];
        assert Dedup(a + b)[|Dedup(a)|..] == d[|Dedup(a)|..] + [(a + b)[|a + b| - 1]];
      }
    }
  }

  /** Everything the term set is built from, in insertion order: words, their synonyms, then the combinations. */
  function Additions(query: string): seq<string> {
    Words(query) + AllSynonyms(Words(query)) + CombinationsFor(Lower(query))
  }

  function Take(xs: seq<string>, n: nat): (r: seq<string>)
    ensures |r| <= n && |r| <= |xs| && r == xs[..|r|]
    ensures |xs| >= n ==> |r| == n
    ensures |xs| < n ==> r == xs
  {
    if |xs| <= n then xs else xs[..n]
  }

  /** Adding one value to a set: it is appended unless already there. */
  method Add(expanded: seq<string>, ghost added: seq<string>, x: string) returns (e: seq<string>)
    requires expanded == Dedup(added)
    ensures e == Dedup(added + [x])
  {
    assert (added + [x])[..|added|] == added;
    e := if x in expanded then expanded else expanded + [x];
  }

  /** `xs.forEach(x => set.add(x))` */
  method AddAll(expanded: seq<string>, ghost added: seq<string>, xs: seq<string>) returns (e: seq<string>)
    requires expanded == Dedup(added)
    ensures e == Dedup(added + xs)
  {
    e := expanded;
    assert added + xs[..0] == added;
    for k := 0 to |xs|
      invariant e == Dedup(added + xs[..k])
    {
      e := Add(e, added + xs[..k], xs[k]);
      assert added + xs[..k] + [xs[k]] == added + xs[..k + 1];
    }
    assert xs[..|xs|] == xs;
  }

  /**
   * The term set, built as the source builds it: the words, then each
   * word's synonyms, then the combinations, each added when not yet there;
   * then the first twelve.
   */
  method ExpandTerms(words: seq<string>, lowerQuery: string) returns (terms: seq<string>)
    ensures terms == Take(Dedup(words + AllSynonyms(words) + CombinationsFor(lowerQuery)), MaxTerms)
  {
    var expanded := AddWordsAndSynonyms(words);
    if Contains(lowerQuery, "ai") && Contains(lowerQuery, "econom") {
      expanded := AddAll(expanded, words + AllSynonyms(words), Combinations);
    } else {
      assert words + AllSynonyms(words) + [] == words + AllSynonyms(words);
    }
    terms := if |expanded| <= MaxTerms then expanded else expanded[..MaxTerms];
  }

  /** The set after the words and then, word by word, their synonyms were added. */
  method AddWordsAndSynonyms(words: seq<string>) returns (expanded: seq<string>)
    ensures expanded == Dedup(words + AllSynonyms(words))
  {
    expanded := AddAll([], [], words);
    assert [] + words == words;
    assert words + AllSynonyms(words[..0]) == words;
    for i := 0 to |words|
      invariant expanded == Dedup(words + AllSynonyms(words[..i]))
    {
      var synonyms := SynonymsOf(words[i]);
      expanded := AddAll(expanded, words + AllSynonyms(words[..i]), synonyms);
      AllSynonymsStep(words, i);
    }
    assert words[..|words|] == words;
  }

  /** `parseNaturalLanguageQuery(query)`: `category` is never set and `sortBy` always is. */
  method ParseNaturalLanguageQuery(query: string, currentYear: int) returns (result: ParsedQuery)
    ensures result.category.None?
    ensures result.sortBy == Some(SortBy(Lower(query)))
    ensures result.dateFilter == DateFilter(query, currentYear)
    ensures result.searchTerms == Take(Dedup(Additions(query)), MaxTerms)
    ensures result == Parse(query, currentYear)
  {
    var lowerQuery := Lower(query);
    result := ParsedQuery([], None, None, None);
    if MentionsRecency(lowerQuery) {
      result := result.(dateFilter := Some(IntToString(currentYear)));
    }
    var yearMatch := YearMention(query);
    if yearMatch.Some? {
      result := result.(dateFilter := yearMatch);
    }
    result := result.(sortBy := Some(SortBy(lowerQuery)));
    var words := Words(query);
    var terms := ExpandTerms(words, lowerQuery);
    result := result.(searchTerms := terms);
  }

  /** What `parseNaturalLanguageQuery` returns, with synonyms looked up among the map's own keys. */
  function Parse(query: string, currentYear: int): ParsedQuery {
    ParsedQuery(Take(Dedup(Additions(query)), MaxTerms), None,
                DateFilter(query, currentYear), Some(SortBy(Lower(query))))
  }

  /**
   * The search terms: at most twelve, no duplicates, every one of them a
   * word, a synonym or a combination; the distinct words come first.
   */
  lemma SearchTermsShape(query: string)
    ensures var terms := Take(Dedup(Additions(query)), MaxTerms);
      && |terms| <= MaxTerms
      && NoDuplicates(terms)
      && (forall t :: t in terms ==> t in Additions(query))
      && (|Dedup(Words(query))| <= MaxTerms ==> Dedup(Words(query)) <= terms)
      && (forall k :: |Dedup(Words(query))| <= k < |terms| ==> terms[k] !in Words(query))
  {
    var ws := Words(query);
    var extra := AllSynonyms(ws) + CombinationsFor(Lower(query));
    assert Additions(query) == ws + extra;
    TakeDedupShape(ws, extra);
  }

  /** The first values of a set built from `ws` and then `extra`: the distinct values of `ws` first, then values not in `ws`. */
  lemma TakeDedupShape(ws: seq<string>, extra: seq<string>)
    ensures var terms := Take(Dedup(ws + extra), MaxTerms);
      && NoDuplicates(terms)
      && (forall t :: t in terms ==> t in ws + extra)
      && (|Dedup(ws)| <= MaxTerms ==> Dedup(ws) <= terms)
      && (forall k :: |Dedup(ws)| <= k < |terms| ==> terms[k] !in ws)
  {
    var d := Dedup(ws + extra);
    var terms := Take(d, MaxTerms);
    DedupIsSet(ws + extra);
    DedupAppend(ws, extra);
    forall k | |Dedup(ws)| <= k < |terms| ensures terms[k] !in ws {
      assert terms[k] == d[k] == d[|Dedup(ws)|..][k - |Dedup(ws)|];
    }
  }

  /** The three combination terms are added exactly when the query mentions both "ai" and "econom". */
  lemma CombinationsIff(query: string)
    ensures CombinationsFor(Lower(query)) == Combinations <==>
              Contains(Lower(query), "ai") && Contains(Lower(query), "econom")
    ensures CombinationsFor(Lower(query)) == [] <==>
              !(Contains(Lower(query), "ai") && Contains(Lower(query), "econom"))
  {
  }

  // ---------------------------------------------------------------- the lookup as written

  /**
   * The lower-case names an object literal inherits from `Object.prototype`.
   * `synonymMap[word]` finds them too: a function and an object, both truthy,
   * neither with a `forEach`.
   */
  const InheritedKeys: set<string> := {"constructor", "__proto__"}

  const ForEachTypeError := "synonymMap[word].forEach is not a function"

  /**
   * The source's lookup `if (synonymMap[word]) synonymMap[word].forEach(...)`
   * on a plain object: a word naming an inherited property throws a
   * TypeError; otherwise the result is the one `ParseNaturalLanguageQuery` gives.
   */
  function ParseAsWritten(query: string, currentYear: int): (r: Result<ParsedQuery, string>)
    ensures r.Err? <==> exists k :: 0 <= k < |Words(query)| && Words(query)[k] in InheritedKeys
    ensures r.Err? ==> r.error == ForEachTypeError
    ensures r.Ok? ==> r.value == Parse(query, currentYear)
  {
    var ws := Words(query);
    if exists k :: 0 <= k < |ws| && ws[k] in InheritedKeys then Err(ForEachTypeError)
    else Ok(Parse(query, currentYear))
  }

  /** A lower-case single word is its own word list, when it is kept. */
  lemma {:induction false} SingleWordQuery(q: string)
    requires forall i :: 0 <= i < |q| ==> 'a' <= q[i] <= 'z' || q[i] == '_'
    requires Kept(q)
    ensures Lower(q) == q && Words(q) == [q]
  {
    assert Lower(q) == q;
    assert Sanitize(q) == q;
    assert FirstWhitespace(q) == |q|;
    assert KeepWords([q]) == [q] + KeepWords([]);
  }

  /** The query "constructor" throws as written. */
  lemma ConstructorQueryThrows(currentYear: int)
    ensures ParseAsWritten("constructor", currentYear).Err?
  {
    SingleWordQuery("constructor");
    assert Words("constructor")[0] in InheritedKeys;
  }

  /** The corrected lookup searches for "constructor" as the word itself. */
  lemma ConstructorQueryCorrected(currentYear: int)
    ensures Parse("constructor", currentYear).searchTerms == ["constructor"]
  {
    ConstructorAdditions();
    assert Dedup(["constructor"]) == Dedup([]) + ["constructor"];
  }

  /** A single word with no synonyms and no 'e' adds only itself. */
  lemma UnknownWordAdditions(q: string)
    requires forall i :: 0 <= i < |q| ==> ('a' <= q[i] <= 'z' || q[i] == '_') && q[i] != 'e'
    requires Kept(q) && q !in SynonymMap
    ensures Additions(q) == [q]
  {
    SingleWordQuery(q);
    assert [q][..0] == [];
    assert AllSynonyms([q]) == [];
    NoEconom(q);
  }

  lemma ConstructorAdditions()
    ensures Additions("constructor") == ["constructor"]
  {
    UnknownWordAdditions("constructor");
  }

  lemma NoEconom(q: string)
    requires forall i :: 0 <= i < |q| ==> q[i] != 'e'
    ensures CombinationsFor(q) == []
  {
    forall i | 0 <= i <= |q| ensures !OccursAt(q, "econom", i) {
      if i + 6 <= |q| {
        assert q[i..i + 6][0] == q[i] != 'e';
      }
    }
  }

  /** So does "__proto__", which `\w` keeps whole. */
  lemma ProtoQueryThrows(currentYear: int)
    ensures ParseAsWritten("__proto__", currentYear).Err?
  {
    SingleWordQuery("__proto__");
    assert Words("__proto__")[0] in InheritedKeys;
  }
}
