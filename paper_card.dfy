/**
 * A search-result card (`src/components/EnhancedPaperCard.tsx`): the colour
 * of the category badge, looked up by the archive prefix of the category;
 * the author line; and the two places that show the citation count.
 *
 * A JSX child `{a && b}` renders `a` itself when `a` is falsy. React prints
 * a number, 0 included, and prints nothing for `undefined` and `false`;
 * `Child` records which of these a slot comes to.
 */
module PaperCard {
  import opened JsRuntime
  import opened JsStrings

  /** The badge classes of line 36's fallback. */
  const DefaultColor := "bg-gray-100 text-gray-700 border-gray-200"

  /** Lines 24-33: the archive prefixes that have their own colour. */
  const Colors: map<string, string> := map[
    "cs" := "bg-academic-blue/10 text-academic-blue border-academic-blue/20",
    "math" := "bg-academic-indigo/10 text-academic-indigo border-academic-indigo/20",
    "physics" := "bg-academic-purple/10 text-academic-purple border-academic-purple/20",
    "q-bio" := "bg-academic-teal/10 text-academic-teal border-academic-teal/20",
    "q-fin" := "bg-academic-emerald/10 text-academic-emerald border-academic-emerald/20",
    "stat" := "bg-academic-amber/10 text-academic-amber border-academic-amber/20",
    "eess" := "bg-academic-orange/10 text-academic-orange border-academic-orange/20",
    "econ" := "bg-academic-rose/10 text-academic-rose border-academic-rose/20"
  ]

  /** Line 35: the text before the first '.', or, only when that is empty, the text before the first '-'. */
  function ColorPrefix(category: string): (r: string)
    ensures r <= category
    ensures |r| == |category| || category[|r|] == '.' || category[|r|] == '-'
    ensures (category == [] || category[0] != '.') ==> forall i :: 0 <= i < |r| ==> r[i] != '.'
    ensures category != [] && category[0] == '.' ==> forall i :: 0 <= i < |r| ==> r[i] != '-'
  {
    var beforeDot := FirstPiece(category, '.');
    if beforeDot != "" then beforeDot else FirstPiece(category, '-')
  }

  /** Lines 23-37. */
  function GetCategoryColor(category: string): (r: string)
    ensures ColorPrefix(category) in Colors ==> r == Colors[ColorPrefix(category)]
    ensures r == DefaultColor <==> ColorPrefix(category) !in Colors
  {
    var prefix := ColorPrefix(category);
    if prefix in Colors then Colors[prefix] else DefaultColor
  }

  /** The prefix of "archive.subject" is the archive, when the archive is not empty and has no '.'. */
  lemma {:induction false} ArchivePrefix(archive: string, subject: string)
    requires archive != [] && forall i :: 0 <= i < |archive| ==> archive[i] != '.'
    ensures ColorPrefix(archive + "." + subject) == archive
  {
    var category := archive + "." + subject;
    var p := FirstPiece(category, '.');
    assert category[|archive|] == '.';
    assert p == category[..|p|];
    assert category[..|archive|] == archive;
  }

  /** A category of a listed archive gets that archive's colour, whatever follows the '.'. */
  lemma KnownArchiveColor(archive: string, subject: string)
    requires archive in Colors
    requires forall i :: 0 <= i < |archive| ==> archive[i] != '.'
    ensures GetCategoryColor(archive + "." + subject) == Colors[archive]
  {
    assert archive != [];
    ArchivePrefix(archive, subject);
  }

  /**
   * A hyphenated archive with a subject, such as "astro-ph.CO", is looked
   * up by the whole archive "astro-ph", which has no entry: it gets the
   * default colour.
   */
  lemma HyphenatedArchiveDefault(subject: string)
    ensures GetCategoryColor("astro-ph" + "." + subject) == DefaultColor
  {
    ArchivePrefix("astro-ph", subject);
    assert "astro-ph" !in Colors;
  }

  /** So the colour depends only on the prefix: a category is coloured as its own prefix is. */
  lemma {:induction false} ColorOfPrefix(category: string)
    requires ColorPrefix(category) != []
    ensures ColorPrefix(ColorPrefix(category)) == ColorPrefix(category)
    ensures GetCategoryColor(ColorPrefix(category)) == GetCategoryColor(category)
  {
    var p := ColorPrefix(category);
    var beforeDot := FirstPiece(category, '.');
    if beforeDot != [] {
      FirstPieceFixed(p, '.');
    } else {
      FirstPieceFixed(p, '-');
      assert category[0] == '.' by {
        assert |category| > 0;
      }
      assert p[0] == '.';
      assert FirstPiece(p, '.') == [];
    }
  }

  /** A string with no `sep` in it is its own first piece. */
  lemma {:induction false} FirstPieceFixed(s: string, sep: char)
    requires forall i :: 0 <= i < |s| ==> s[i] != sep
    ensures FirstPiece(s, sep) == s
  {
    if s != [] {
      assert forall i :: 0 <= i < |s[1..]| ==> s[1..][i] == s[i + 1];
      FirstPieceFixed(s[1..], sep);
    }
  }

  /** Lines 73-74: the first three authors, and " +N more" when there are N more. */
  function AuthorLine(authors: seq<string>): (r: string)
    ensures var named := Join(authors[..if |authors| > 3 then 3 else |authors|], ", ");
      named <= r && (r == named <==> |authors| <= 3)
  {
    if |authors| > 3 then Join(authors[..3], ", ") + " +" + IntToString(|authors| - 3) + " more"
    else
      assert authors[..|authors|] == authors;
      Join(authors, ", ")
  }

  /** Up to three authors are listed in full; beyond that the line names three and counts the rest, which can be read back. */
  lemma AuthorLineShape(authors: seq<string>)
    ensures |authors| <= 3 ==> AuthorLine(authors) == Join(authors, ", ")
    ensures |authors| > 3 ==>
              var count := NatToString(|authors| - 3);
              && AuthorLine(authors) == Join(authors[..3], ", ") + " +" + count + " more"
              && ParseNat(count) + 3 == |authors|
  {
    if |authors| > 3 {
      NatToStringRoundTrip(|authors| - 3);
    }
  }

  /** What a JSX child slot comes to. */
  datatype Child = Nothing | Number(n: int) | Element(count: int)

  /** What the slot shows on the page: nothing, the bare number, or the part with the count. */
  function Shown(c: Child): string {
    match c
    case Nothing => ""
    case Number(n) => IntToString(n)
    case Element(count) => IntToString(count)
  }

  /** Line 51 as written: `{paper.citations && paper.citations > 10 && <Badge/>}`. */
  function BadgeSlotAsWritten(citations: Option<int>): (c: Child)
    ensures c.Number? <==> citations == Some(0)
    ensures c.Number? ==> c.n == 0
    ensures c.Element? <==> citations.Some? && citations.value > 10
    ensures c.Element? ==> c.count == citations.value
  {
    match citations
    case None => Nothing
    case Some(n) => if n == 0 then Number(0) else if n > 10 then Element(n) else Nothing
  }

  /** Line 86 as written: `{paper.citations && <span/>}`. */
  function CountSlotAsWritten(citations: Option<int>): (c: Child)
    ensures c.Number? <==> citations == Some(0)
    ensures c.Number? ==> c.n == 0
    ensures c.Element? <==> citations.Some? && citations.value != 0
    ensures c.Element? ==> c.count == citations.value
  {
    match citations
    case None => Nothing
    case Some(n) => if n == 0 then Number(0) else Element(n)
  }

  /** A paper with no citations shows a stray "0" in both slots. */
  lemma ZeroCitationsAsWritten()
    ensures BadgeSlotAsWritten(Some(0)) == Number(0) && Shown(BadgeSlotAsWritten(Some(0))) == "0"
    ensures CountSlotAsWritten(Some(0)) == Number(0) && Shown(CountSlotAsWritten(Some(0))) == "0"
  {
    assert NatToString(0) == [DigitChar(0)];
  }

  /** The badge as intended: shown exactly for more than ten citations. */
  function BadgeSlot(citations: Option<int>): (c: Child)
    ensures c.Element? <==> citations.Some? && citations.value > 10
    ensures c.Element? ==> c.count == citations.value
    ensures !c.Number?
  {
    if citations.Some? && citations.value > 10 then Element(citations.value) else Nothing
  }

  /** The count as intended: shown exactly for a truthy count, so 0 is hidden. */
  function CountSlot(citations: Option<int>): (c: Child)
    ensures c.Element? <==> citations.Some? && citations.value != 0
    ensures c.Element? ==> c.count == citations.value
    ensures !c.Number?
  {
    if citations.Some? && citations.value != 0 then Element(citations.value) else Nothing
  }

  /** The intended slots agree with the written ones on every count but 0. */
  lemma SlotsAgreeExceptZero(citations: Option<int>)
    ensures citations != Some(0) ==> BadgeSlot(citations) == BadgeSlotAsWritten(citations)
    ensures citations != Some(0) ==> CountSlot(citations) == CountSlotAsWritten(citations)
    ensures BadgeSlot(Some(0)) == Nothing && CountSlot(Some(0)) == Nothing
  {
  }

  /** A count that earns the badge is also shown as a count. */
  lemma BadgeImpliesCount(citations: Option<int>)
    ensures BadgeSlot(citations).Element? ==> CountSlot(citations) == BadgeSlot(citations)
  {
  }

  /** What a card shows, with the slots as intended. */
  datatype CardView = CardView(categoryClass: string, badge: Child, authorLine: string, count: Child)

  function Card(category: string, authors: seq<string>, citations: Option<int>): (r: CardView)
    ensures r.categoryClass == GetCategoryColor(category) && r.authorLine == AuthorLine(authors)
    ensures !r.badge.Number? && !r.count.Number?
    ensures r.badge.Element? ==> r.count == r.badge && r.badge.count > 10
    ensures r.count.Element? <==> citations.Some? && citations.value != 0
  {
    CardView(GetCategoryColor(category), BadgeSlot(citations), AuthorLine(authors), CountSlot(citations))
  }
}
