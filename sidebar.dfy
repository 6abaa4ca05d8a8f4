/**
 * The sidebar (sidebar.js): one request brings the recommended posts and the post count per
 * category; each becomes the contents of its list, and a failure puts an error message in
 * both. The slug of a recommended post without one is derived from its title.
 */
module Sidebar {
  import opened Wrappers
  import opened Text

  // ---------------------------------------------------------------------------------------
  // slug derivation

  /** A character of the regular-expression class `\w`: an ASCII letter, digit or `_`. */
  predicate IsWordChar(c: char) {
    ('a' <= c <= 'z') || ('A' <= c <= 'Z') || ('0' <= c <= '9') || c == '_'
  }

  /** The characters a derived slug is made of. */
  predicate IsSlugChar(c: char) {
    ('a' <= c <= 'z') || ('0' <= c <= '9') || c == '_' || c == '-'
  }

  /** `replace(/\s+/g, "-")`: every maximal run of white space becomes a single `-`. The
      run is replaced at its last character: a space followed by a space gives nothing,
      any other space gives `-`, and other characters stay. */
  function CollapseSpaces(s: string): (r: string)
    ensures forall i :: 0 <= i < |r| ==> !IsSpace(r[i])
    decreases |s|
  {
    if s == [] then [] else Emitted(s) + CollapseSpaces(s[1..])
  }

  /** What the first character of `s` turns into. */
  function Emitted(s: string): (r: string)
    requires s != []
    ensures forall i :: 0 <= i < |r| ==> !IsSpace(r[i])
  {
    if !IsSpace(s[0]) then [s[0]]
    else if |s| > 1 && IsSpace(s[1]) then []
    else "-"
  }

  /** Collapsing brings in no character but `-`. */
  lemma {:induction false} CollapseChars(s: string)
    ensures forall i :: 0 <= i < |CollapseSpaces(s)| ==> CollapseSpaces(s)[i] == '-' || CollapseSpaces(s)[i] in s
    decreases |s|
  {
    if s != [] {
      CollapseChars(s[1..]);
      assert forall c :: c in s[1..] ==> c in s;
    }
  }

  /** `replace(/[^\w-]+/g, "")`: every character other than `\w` and `-` is removed. */
  function StripNonWord(s: string): (r: string)
    ensures forall i :: 0 <= i < |r| ==> IsWordChar(r[i]) || r[i] == '-'
    decreases |s|
  {
    if s == [] then []
    else if IsWordChar(s[0]) || s[0] == '-' then [s[0]] + StripNonWord(s[1..])
    else StripNonWord(s[1..])
  }

  /** Stripping keeps only characters of its input. */
  lemma {:induction false} StripChars(s: string)
    ensures forall i :: 0 <= i < |StripNonWord(s)| ==> StripNonWord(s)[i] in s
    decreases |s|
  {
    if s != [] {
      StripChars(s[1..]);
      assert forall c :: c in s[1..] ==> c in s;
    }
  }

  /** `title.toLowerCase().replace(/\s+/g, "-").replace(/[^\w-]+/g, "")`. A derived slug holds
      only lower-case ASCII letters, digits, `_` and `-`. */
  function DeriveSlug(title: string): (slug: string)
    ensures forall i :: 0 <= i < |slug| ==> IsSlugChar(slug[i])
  {
    var slug := StripNonWord(CollapseSpaces(Lower(title)));
    DerivedSlugChars(title);
    slug
  }

  /** The three steps of the derivation leave only slug characters. */
  lemma DerivedSlugChars(title: string)
    ensures forall i :: 0 <= i < |StripNonWord(CollapseSpaces(Lower(title)))| ==>
      IsSlugChar(StripNonWord(CollapseSpaces(Lower(title)))[i])
  {
    var lowered := Lower(title);
    var collapsed := CollapseSpaces(lowered);
    var slug := StripNonWord(collapsed);
    CollapseChars(lowered);
    StripChars(collapsed);
    forall i | 0 <= i < |slug|
      ensures IsSlugChar(slug[i])
    {
      if slug[i] != '-' {
        assert slug[i] in collapsed;
        assert slug[i] in lowered;
        assert !IsUpper(slug[i]);
      }
    }
  }

  /** A run of white space between two pieces becomes one `-` between their collapses. */
  lemma CollapseRun(p: string, run: string, q: string)
    requires run != [] && forall i :: 0 <= i < |run| ==> IsSpace(run[i])
    requires p == [] || !IsSpace(p[|p| - 1])
    requires q == [] || !IsSpace(q[0])
    ensures CollapseSpaces(p + run + q) == CollapseSpaces(p) + "-" + CollapseSpaces(q)
  {
    CollapseAppend(p, run + q);
    CollapseFrontRun(run, q);
    assert p + run + q == p + (run + q);
  }

  /** Collapsing works piecewise across a boundary that follows a non-space character. */
  lemma {:induction false} CollapseAppend(p: string, t: string)
    requires p == [] || !IsSpace(p[|p| - 1])
    ensures CollapseSpaces(p + t) == CollapseSpaces(p) + CollapseSpaces(t)
    decreases |p|
  {
    if p == [] {
      assert p + t == t;
    } else {
      var s := p + t;
      assert s[1..] == p[1..] + t;
      assert Emitted(s) == Emitted(p);
      CollapseAppend(p[1..], t);
    }
  }

  /** A leading run of white space before a non-space character collapses to one `-`. */
  lemma {:induction false} CollapseFrontRun(run: string, q: string)
    requires run != [] && forall i :: 0 <= i < |run| ==> IsSpace(run[i])
    requires q == [] || !IsSpace(q[0])
    ensures CollapseSpaces(run + q) == "-" + CollapseSpaces(q)
    decreases |run|
  {
    var s := run + q;
    assert s[1..] == run[1..] + q;
    if |run| > 1 {
      CollapseFrontRun(run[1..], q);
    } else {
      assert run[1..] + q == q;
    }
  }

  /** A string made of slug characters derives itself: deriving a derived slug again
      changes nothing. */
  lemma DeriveSlugIdempotent(title: string)
    ensures DeriveSlug(DeriveSlug(title)) == DeriveSlug(title)
  {
    SlugCharsDerive(DeriveSlug(title));
  }

  lemma SlugCharsDerive(slug: string)
    requires forall i :: 0 <= i < |slug| ==> IsSlugChar(slug[i])
    ensures DeriveSlug(slug) == slug
  {
    assert Lower(slug) == slug;
    CollapseNoSpace(slug);
    StripSlugChars(slug);
  }

  lemma {:induction false} CollapseNoSpace(s: string)
    requires forall i :: 0 <= i < |s| ==> !IsSpace(s[i])
    ensures CollapseSpaces(s) == s
    decreases |s|
  {
    if s != [] {
      CollapseNoSpace(s[1..]);
      assert [s[0]] + s[1..] == s;
    }
  }

  lemma {:induction false} StripSlugChars(s: string)
    requires forall i :: 0 <= i < |s| ==> IsSlugChar(s[i])
    ensures StripNonWord(s) == s
    decreases |s|
  {
    if s != [] {
      StripSlugChars(s[1..]);
      assert [s[0]] + s[1..] == s;
    }
  }

  /** The example of the derivation: the spaces around `&` become dashes and `&` goes. */
  lemma DeriveSlugExample()
    ensures DeriveSlug("A & B") == "a--b"
  {
    assert Lower("A & B") == "a & b";
    CollapseExample();
    StripExample();
  }

  lemma CollapseExample()
    ensures CollapseSpaces("a & b") == "a-&-b"
  {
    assert "a & b" == "a" + " " + ("&" + " " + "b");
    CollapseNoSpace("a");
    CollapseNoSpace("&");
    CollapseNoSpace("b");
    CollapseRun("&", " ", "b");
    CollapseRun("a", " ", "& b");
  }

  lemma StripExample()
    ensures StripNonWord("a-&-b") == "a--b"
  {
    assert "a-&-b"[1..] == "-&-b" && "-&-b"[1..] == "&-b" && "&-b"[1..] == "-b";
  }

  // ---------------------------------------------------------------------------------------
  // the two lists

  /** A recommended post. `Title` is `None` when the property is absent; the other absent
      properties are the empty string. */
  datatype RecommendedRow = RecommendedRow(
    Title: Option<string>, Slug: string, ImageURL: string, ReadTime: string, Excerpt: string)

  /** `row.Slug || row.Title?.toLowerCase()...`: the slug, or the one derived from the
      title, or undefined when there is neither. */
  function SlugFor(row: RecommendedRow): (slug: Option<string>)
    ensures row.Slug != "" ==> slug == Some(row.Slug)
    ensures row.Slug == "" && row.Title.Some? ==> slug == Some(DeriveSlug(row.Title.value))
    ensures row.Slug == "" && row.Title.None? ==> slug.None?
  {
    if row.Slug != "" then Some(row.Slug)
    else match row.Title
      case Some(title) => Some(DeriveSlug(title))
      case None => None
  }

  /** How a template literal prints a possibly undefined string. */
  function Printed(s: Option<string>): string {
    match s
    case Some(text) => text
    case None => "undefined"
  }

  /** The card's picture, or the "No Image" placeholder for a falsy image address. */
  datatype Thumbnail = Picture(src: string, alt: string) | NoImage

  datatype RecommendedCard = RecommendedCard(
    readTime: string, thumbnail: Thumbnail, title: string, excerpt: string, link: string)

  const DefaultReadTime := "Few minutes"

  function RecommendedCardOf(row: RecommendedRow): (c: RecommendedCard)
    ensures c.readTime != ""
    ensures c.readTime == if row.ReadTime != "" then row.ReadTime else DefaultReadTime
    ensures c.thumbnail == if row.ImageURL != "" then Picture(row.ImageURL, Printed(row.Title)) else NoImage
    ensures c.title == Printed(row.Title) && c.excerpt == row.Excerpt
    ensures c.link == "articles/" + Printed(SlugFor(row)) + ".html"
  {
    RecommendedCard(
      Or(row.ReadTime, DefaultReadTime),
      if row.ImageURL != "" then Picture(row.ImageURL, Printed(row.Title)) else NoImage,
      Printed(row.Title),
      Or(row.Excerpt, ""),
      "articles/" + Printed(SlugFor(row)) + ".html")
  }

  /** One card per recommended post, in order; an absent list gives none. */
  function RecommendedCards(recommended: Option<seq<RecommendedRow>>): (cards: seq<RecommendedCard>)
    ensures recommended.None? ==> cards == []
    ensures recommended.Some? ==>
      |cards| == |recommended.value|
      && forall i :: 0 <= i < |cards| ==> cards[i] == RecommendedCardOf(recommended.value[i])
  {
    var rows := recommended.GetOr([]);
    seq(|rows|, i requires 0 <= i < |rows| => RecommendedCardOf(rows[i]))
  }

  /** One entry of the `categories` object, with its count as printed. */
  datatype CategoryCount = CategoryCount(name: string, count: string)

  /** An item of the category list. */
  datatype CategoryItem =
    | CategoryLink(name: string, count: string, href: string)
    | NoCategories
    | CategoriesError

  /** The category list: the one "No categories found" item for an empty (or absent) object,
      otherwise one link per entry, in entry order, to the category page. */
  function CategoryItems(categories: seq<CategoryCount>, encode: string -> string): (items: seq<CategoryItem>)
    ensures categories == [] ==> items == [NoCategories]
    ensures categories != [] ==>
      |items| == |categories|
      && forall i :: 0 <= i < |items| ==>
        items[i] == CategoryLink(categories[i].name, categories[i].count, "category.html?cat=" + encode(categories[i].name))
  {
    if categories == [] then [NoCategories]
    else
      seq(|categories|, i requires 0 <= i < |categories| =>
        CategoryLink(categories[i].name, categories[i].count, "category.html?cat=" + encode(categories[i].name)))
  }

  /** The sidebar reply: the request, the parse or the rendering throws, or a payload arrives
      (`recommended` is `None` when falsy, and an absent `categories` is the empty object). */
  datatype SidebarReply = SidebarFailed | Payload(recommended: Option<seq<RecommendedRow>>, categories: seq<CategoryCount>)

  /** What each list shows afterwards; `None` for a list the page does not have. */
  datatype RecommendedView = RecommendedList(cards: seq<RecommendedCard>) | RecommendedError

  datatype SidebarView = SidebarView(recommended: Option<RecommendedView>, categories: Option<seq<CategoryItem>>)

  /** The whole script: each list the page has shows the payload's items, or, when anything
      failed, its error message. */
  function Render(reply: SidebarReply, hasRecommended: bool, hasCategories: bool, encode: string -> string): (v: SidebarView)
    ensures v.recommended.Some? <==> hasRecommended
    ensures v.categories.Some? <==> hasCategories
    ensures reply.SidebarFailed? ==>
      (hasRecommended ==> v.recommended == Some(RecommendedError))
      && (hasCategories ==> v.categories == Some([CategoriesError]))
    ensures reply.Payload? ==>
      (hasRecommended ==> v.recommended == Some(RecommendedList(RecommendedCards(reply.recommended))))
      && (hasCategories ==> v.categories == Some(CategoryItems(reply.categories, encode)))
  {
    match reply
    case SidebarFailed =>
      SidebarView(if hasRecommended then Some(RecommendedError) else None,
                  if hasCategories then Some([CategoriesError]) else None)
    case Payload(recommended, categories) =>
      SidebarView(if hasRecommended then Some(RecommendedList(RecommendedCards(recommended))) else None,
                  if hasCategories then Some(CategoryItems(categories, encode)) else None)
  }

  /** With a derived slug, the part of a recommended post's link between `articles/` and
      `.html` holds slug characters only. */
  lemma DerivedLinkChars(row: RecommendedRow)
    requires row.Slug == "" && row.Title.Some?
    ensures var slug := Printed(SlugFor(row));
      forall i :: 0 <= i < |slug| ==> IsSlugChar(slug[i])
  {
  }
}
