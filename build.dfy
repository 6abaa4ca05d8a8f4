/**
 * The offline build (build.js): spreadsheet rows become article and thought records, and
 * every article is rendered into a page of the output directory. The spreadsheet client,
 * `slugify` and the Mustache renderer are outside the model and enter as parameters.
 */
module Build {
  import opened Wrappers
  import opened Text

  /** `res.data.values`: absent when the range is empty, otherwise the rows of cell strings,
      header row first. A row may be shorter than the header row. */
  datatype SheetValues = NoValues | Rows(rows: seq<seq<string>>)

  /** An article record as `fetchArticles` returns it. */
  datatype Article = Article(
    slug: string,
    Title: string,
    Content: string,
    Excerpt: string,
    DateTime: string,
    Category: string,
    Author: string,
    ReadTime: string,
    ImageURL: string,
    Keywords: string,
    MetaDescription: string,
    CanonicalURL: string)

  /** A motivational thought as `fetchThoughts` returns it. */
  datatype Thought = Thought(id: nat, text: string, author: string, bg: string, showAd: bool)

  /** The object a row is spread into: header name to cell text. */
  type RowRecord = map<string, string>

  const ArticleUrlPrefix := "https://smartfinance360.com/articles/"
  const PageSuffix := ".html"

  // ---------------------------------------------------------------------------------------
  // rows to objects

  /** `row[i] || ''`: a cell beyond the end of a short row reads as the empty string. */
  function Cell(row: seq<string>, i: nat): string {
    if i < |row| then row[i] else ""
  }

  /** `obj.key` read through `||`: an absent key reads as the empty string. */
  function Field(obj: RowRecord, key: string): string {
    if key in obj then obj[key] else ""
  }

  /** The object after `headers.forEach((header, i) => obj[header] = row[i] || '')`. */
  function RowObject(headers: seq<string>, row: seq<string>): (obj: RowRecord)
    ensures headers != [] ==> headers[|headers| - 1] in obj && obj[headers[|headers| - 1]] == Cell(row, |headers| - 1)
    decreases |headers|
  {
    if headers == [] then map[]
    else
      var n := |headers| - 1;
      RowObject(headers[..n], row)[headers[n] := Cell(row, n)]
  }

  /** The object has exactly the header names as keys. */
  lemma {:induction false} RowObjectKeys(headers: seq<string>, row: seq<string>, key: string)
    ensures key in RowObject(headers, row) <==> key in headers
    decreases |headers|
  {
    if headers != [] {
      var n := |headers| - 1;
      RowObjectKeys(headers[..n], row, key);
      assert headers == headers[..n] + [headers[n]];
    }
  }

  /** Each header name holds the cell of the LAST column with that name: a later duplicate
      header overwrites an earlier one. */
  lemma {:induction false} RowObjectColumn(headers: seq<string>, row: seq<string>, i: nat)
    requires i < |headers|
    requires forall j :: i < j < |headers| ==> headers[j] != headers[i]
    ensures headers[i] in RowObject(headers, row)
    ensures RowObject(headers, row)[headers[i]] == Cell(row, i)
    decreases |headers|
  {
    var n := |headers| - 1;
    if i < n {
      RowObjectColumn(headers[..n], row, i);
    }
  }

  /** The `forEach` loop that fills a row object, one header at a time. */
  method FillRow(headers: seq<string>, row: seq<string>) returns (obj: RowRecord)
    ensures obj == RowObject(headers, row)
  {
    obj := map[];
    for i := 0 to |headers|
      invariant obj == RowObject(headers[..i], row)
    {
      assert headers[..i + 1][..i] == headers[..i];
      obj := obj[headers[i] := Cell(row, i)];
    }
    assert headers[..|headers|] == headers;
  }

  /** `rows[0].map(h => h.trim())`. */
  function ArticleHeaders(first: seq<string>): (h: seq<string>)
    ensures |h| == |first|
    ensures forall i :: 0 <= i < |h| ==> h[i] == Trim(first[i])
  {
    seq(|first|, i requires 0 <= i < |first| => Trim(first[i]))
  }

  /** `rows[0].map(h => h.trim().toLowerCase())`. */
  function ThoughtHeaders(first: seq<string>): (h: seq<string>)
    ensures |h| == |first|
    ensures forall i :: 0 <= i < |h| ==> h[i] == Lower(Trim(first[i]))
  {
    seq(|first|, i requires 0 <= i < |first| => Lower(Trim(first[i])))
  }

  // ---------------------------------------------------------------------------------------
  // articles

  /** The record `fetchArticles` builds from one row object; `slugify` stands for the
      `slugify(_, { lower: true, strict: true })` library call. */
  function NormaliseArticle(obj: RowRecord, slugify: string -> string): (a: Article)
    ensures a.Title != "" && a.Author != "" && a.ReadTime != "" && a.ImageURL != ""
    ensures a.Title == if Field(obj, "Title") != "" then Field(obj, "Title")
                       else if Field(obj, "MetaTitle") != "" then Field(obj, "MetaTitle")
                       else "Untitled"
    ensures a.slug == slugify(if Field(obj, "Slug") != "" then Field(obj, "Slug")
                              else if Field(obj, "MetaTitle") != "" then Field(obj, "MetaTitle")
                              else if Field(obj, "Title") != "" then Field(obj, "Title")
                              else "Untitled")
    ensures a.Author == if Field(obj, "Author") != "" then Field(obj, "Author") else "Admin"
    ensures a.ReadTime == if Field(obj, "ReadTime") != "" then Field(obj, "ReadTime") else "2"
    ensures a.ImageURL == if Field(obj, "ImageURL") != "" then Field(obj, "ImageURL") else "images/default.jpg"
    ensures a.Content == Field(obj, "Content") && a.Excerpt == Field(obj, "Excerpt")
    ensures a.DateTime == Field(obj, "DateTime") && a.Category == Field(obj, "Category")
    ensures a.Keywords == Field(obj, "Keywords") && a.MetaDescription == Field(obj, "MetaDescription")
    ensures SlugOfCanonicalURL(a.CanonicalURL) == Some(a.slug)
  {
    var title := Or(Field(obj, "MetaTitle"), Or(Field(obj, "Title"), "Untitled"));
    var slug := slugify(Or(Field(obj, "Slug"), title));
    var a := Article(
      slug := slug,
      Title := Or(Field(obj, "Title"), title),
      Content := Field(obj, "Content"),
      Excerpt := Field(obj, "Excerpt"),
      DateTime := Field(obj, "DateTime"),
      Category := Field(obj, "Category"),
      Author := Or(Field(obj, "Author"), "Admin"),
      ReadTime := Or(Field(obj, "ReadTime"), "2"),
      ImageURL := Or(Field(obj, "ImageURL"), "images/default.jpg"),
      Keywords := Field(obj, "Keywords"),
      MetaDescription := Field(obj, "MetaDescription"),
      CanonicalURL := ArticleUrlPrefix + slug + PageSuffix);
    CanonicalURLRoundTrip(slug);
    a
  }

  /** The slug a canonical article URL names, if the URL has the canonical form. */
  function SlugOfCanonicalURL(url: string): (r: Option<string>)
    ensures r.Some? ==> url == ArticleUrlPrefix + r.value + PageSuffix
  {
    var p, q := |ArticleUrlPrefix|, |PageSuffix|;
    if |url| >= p + q && url[..p] == ArticleUrlPrefix && url[|url| - q..] == PageSuffix
    then
      assert url == url[..p] + url[p..|url| - q] + url[|url| - q..];
      Some(url[p..|url| - q])
    else None
  }

  lemma CanonicalURLRoundTrip(slug: string)
    ensures SlugOfCanonicalURL(ArticleUrlPrefix + slug + PageSuffix) == Some(slug)
  {
    var url := ArticleUrlPrefix + slug + PageSuffix;
    assert url[..|ArticleUrlPrefix|] == ArticleUrlPrefix;
    assert url[|url| - |PageSuffix|..] == PageSuffix;
    assert url[|ArticleUrlPrefix|..|url| - |PageSuffix|] == slug;
  }

  /** `fetchArticles` after the spreadsheet call: no rows gives no articles, otherwise the
      header row is dropped and each further row gives one record, in row order. */
  method FetchArticles(values: SheetValues, slugify: string -> string) returns (articles: seq<Article>)
    ensures values.NoValues? || values.rows == [] ==> articles == []
    ensures values.Rows? && values.rows != [] ==>
      |articles| == |values.rows| - 1 &&
      forall k :: 0 <= k < |articles| ==>
        articles[k] == NormaliseArticle(RowObject(ArticleHeaders(values.rows[0]), values.rows[k + 1]), slugify)
  {
    if values.NoValues? || values.rows == [] {
      return [];
    }
    var rows := values.rows;
    articles := ArticleRows(ArticleHeaders(rows[0]), rows[1..], slugify);
  }

  /** `rows.slice(1).map(row => ...)` for articles, on the rows after the header. */
  method ArticleRows(headers: seq<string>, dataRows: seq<seq<string>>, slugify: string -> string)
    returns (articles: seq<Article>)
    ensures |articles| == |dataRows|
    ensures forall k :: 0 <= k < |articles| ==> articles[k] == NormaliseArticle(RowObject(headers, dataRows[k]), slugify)
  {
    articles := [];
    for k := 0 to |dataRows|
      invariant |articles| == k
      invariant forall j :: 0 <= j < k ==> articles[j] == NormaliseArticle(RowObject(headers, dataRows[j]), slugify)
    {
      var obj := FillRow(headers, dataRows[k]);
      articles := articles + [NormaliseArticle(obj, slugify)];
    }
  }

  /** Seen from the sheet: the record of row `k + 1` takes the cell under the last header
      named "Author" when that cell is non-empty, and "Admin" otherwise. */
  lemma {:induction false} AuthorFromSheet(values: SheetValues, slugify: string -> string, articles: seq<Article>, k: nat, i: nat)
    requires values.Rows? && values.rows != [] && |articles| == |values.rows| - 1
    requires forall j :: 0 <= j < |articles| ==>
      articles[j] == NormaliseArticle(RowObject(ArticleHeaders(values.rows[0]), values.rows[j + 1]), slugify)
    requires k < |articles|
    requires i < |values.rows[0]| && Trim(values.rows[0][i]) == "Author"
    requires forall j :: i < j < |values.rows[0]| ==> Trim(values.rows[0][j]) != "Author"
    ensures articles[k].Author == if Cell(values.rows[k + 1], i) != "" then Cell(values.rows[k + 1], i) else "Admin"
  {
    var headers := ArticleHeaders(values.rows[0]);
    RowObjectColumn(headers, values.rows[k + 1], i);
  }

  // ---------------------------------------------------------------------------------------
  // thoughts

  /** The record `fetchThoughts` builds from the row object of the row at position `index`
      (0-based, header row excluded). */
  function NormaliseThought(obj: RowRecord, index: nat): (t: Thought)
    ensures t.id == index + 1
    ensures t.showAd <==> t.id % 3 == 0
    ensures t.text != "" && t.author != "" && t.bg != ""
    ensures t.text == if Field(obj, "thought") != "" then Field(obj, "thought")
                      else if Field(obj, "Thought") != "" then Field(obj, "Thought")
                      else "Stay motivated!"
    ensures t.author == if Field(obj, "author") != "" then Field(obj, "author") else "Smart Finance 360"
    ensures t.bg == if Field(obj, "color") != "" then Field(obj, "color") else "#ffffff"
  {
    Thought(
      id := index + 1,
      text := Or(Field(obj, "thought"), Or(Field(obj, "Thought"), "Stay motivated!")),
      author := Or(Field(obj, "author"), "Smart Finance 360"),
      bg := Or(Field(obj, "color"), "#ffffff"),
      showAd := (index + 1) % 3 == 0)
  }

  /** Headers are lower-cased, so no row object has the key "Thought": the capitalised
      fallback never fires, and a missing "thought" column gives the default text. */
  lemma CapitalisedThoughtKeyAbsent(first: seq<string>, row: seq<string>, index: nat)
    ensures "Thought" !in RowObject(ThoughtHeaders(first), row)
    ensures NormaliseThought(RowObject(ThoughtHeaders(first), row), index).text
         == Or(Field(RowObject(ThoughtHeaders(first), row), "thought"), "Stay motivated!")
  {
    var headers := ThoughtHeaders(first);
    RowObjectKeys(headers, row, "Thought");
    forall i | 0 <= i < |headers|
      ensures headers[i] != "Thought"
    {
      if |headers[i]| > 0 {
        assert !IsUpper(headers[i][0]);
      }
    }
  }

  /** `fetchThoughts` after the spreadsheet call: fewer than two rows give none, otherwise one
      thought per row after the header, numbered from 1, with an advertisement on every third. */
  method FetchThoughts(values: SheetValues) returns (thoughts: seq<Thought>)
    ensures values.NoValues? || |values.rows| <= 1 ==> thoughts == []
    ensures values.Rows? && |values.rows| > 1 ==>
      |thoughts| == |values.rows| - 1 &&
      forall k :: 0 <= k < |thoughts| ==>
        thoughts[k] == NormaliseThought(RowObject(ThoughtHeaders(values.rows[0]), values.rows[k + 1]), k)
    ensures forall k :: 0 <= k < |thoughts| ==> thoughts[k].id == k + 1 && (thoughts[k].showAd <==> (k + 1) % 3 == 0)
  {
    if values.NoValues? || |values.rows| <= 1 {
      return [];
    }
    var rows := values.rows;
    thoughts := ThoughtRows(ThoughtHeaders(rows[0]), rows[1..]);
  }

  /** `rows.slice(1).map((row, index) => ...)` for thoughts, on the rows after the header. */
  method ThoughtRows(headers: seq<string>, dataRows: seq<seq<string>>) returns (thoughts: seq<Thought>)
    ensures |thoughts| == |dataRows|
    ensures forall k :: 0 <= k < |thoughts| ==> thoughts[k] == NormaliseThought(RowObject(headers, dataRows[k]), k)
  {
    thoughts := [];
    for k := 0 to |dataRows|
      invariant |thoughts| == k
      invariant forall j :: 0 <= j < k ==> thoughts[j] == NormaliseThought(RowObject(headers, dataRows[j]), j)
    {
      var obj := FillRow(headers, dataRows[k]);
      thoughts := thoughts + [NormaliseThought(obj, k)];
    }
  }

  /** The number of thoughts that carry an advertisement. */
  function AdCount(thoughts: seq<Thought>): nat {
    if thoughts == [] then 0
    else AdCount(thoughts[..|thoughts| - 1]) + (if thoughts[|thoughts| - 1].showAd then 1 else 0)
  }

  /** With ids numbered from 1, exactly one thought in three carries an advertisement. */
  lemma {:induction false} OneAdInThree(thoughts: seq<Thought>)
    requires forall k :: 0 <= k < |thoughts| ==> (thoughts[k].showAd <==> (k + 1) % 3 == 0)
    ensures AdCount(thoughts) == |thoughts| / 3
    decreases |thoughts|
  {
    if thoughts != [] {
      var n := |thoughts| - 1;
      OneAdInThree(thoughts[..n]);
    }
  }

  // ---------------------------------------------------------------------------------------
  // output pages

  /** The file name `${article.slug}.html` inside the articles directory. */
  function PageName(slug: string): string {
    slug + PageSuffix
  }

  lemma PageNameInjective(s1: string, s2: string)
    requires PageName(s1) == PageName(s2)
    ensures s1 == s2
  {
    assert |s1| == |s2|;
    assert s1 == PageName(s1)[..|s1|];
    assert s2 == PageName(s2)[..|s2|];
  }

  /** The article output loop, with the articles directory as a map from file name to file
      contents and `render` standing for `Mustache.render` of the article template with the
      article, the site-wide data and `root: '../'`. */
  method WriteArticlePages(dir: map<string, string>, articles: seq<Article>, render: Article -> string)
    returns (out: map<string, string>)
    ensures out.Keys == dir.Keys + set a | a in articles :: PageName(a.slug)
    ensures forall k :: 0 <= k < |articles| && (forall j :: k < j < |articles| ==> articles[j].slug != articles[k].slug) ==>
      out[PageName(articles[k].slug)] == render(articles[k])
    ensures forall f :: f in dir && (forall a :: a in articles ==> PageName(a.slug) != f) ==> out[f] == dir[f]
  {
    out := dir;
    for i := 0 to |articles|
      invariant out.Keys == dir.Keys + set a | a in articles[..i] :: PageName(a.slug)
      invariant forall k :: 0 <= k < i && (forall j :: k < j < i ==> articles[j].slug != articles[k].slug) ==>
        out[PageName(articles[k].slug)] == render(articles[k])
      invariant forall f :: f in dir && (forall a :: a in articles[..i] ==> PageName(a.slug) != f) ==> out[f] == dir[f]
    {
      var a := articles[i];
      forall k | 0 <= k < i && PageName(articles[k].slug) == PageName(a.slug)
        ensures articles[k].slug == a.slug
      {
        PageNameInjective(articles[k].slug, a.slug);
      }
      assert articles[..i + 1] == articles[..i] + [a];
      out := out[PageName(a.slug) := render(a)];
    }
    assert articles[..|articles|] == articles;
  }
}
