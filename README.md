# Smart Finance 360, modelled in Dafny

Smart Finance 360 is a static finance blog. An offline build step (`build.js`) reads two
spreadsheets. From the articles sheet it writes one HTML page per article and a
`sitemap.xml`. From the thoughts sheet it builds the list of motivational thoughts. In the
browser, four scripts fill the pages from a posts service:

- `index.js`: the home page, a page of ten posts per request;
- `finance.js`: a category page, fetched whole and shown ten cards at a time;
- `article.js`: a single article, including the SEO and Open Graph tags of the document head;
- `sidebar.js`: the recommended posts and the category list.

The model has one module per source file, plus shared modules:

- `Text` holds the JavaScript string operations the scripts use: `||` on strings, `trim`,
  `split`/`join` on one character, ASCII `toLowerCase` and decimal printing.
- `RelativeTime` holds `timeAgo`. Each of the three page scripts carries an identical copy.
- `Posts` holds the post record and the cards that the two listing pages build from it.
- `Wrappers` holds `Option`.

State that the scripts change in place is a class with those fields:

- `CategoryPage.CategoryFeed` is the category page's cursor, posts, container and button.
- `HomePage.HomeFeed` is the home page's page counter, container and button. It also keeps
  a ghost record of the page numbers requested.
- `ArticlePage.ArticleView` is the article container, `document.title` and the head
  elements the page looks up.

Loops in the source are `for` loops with invariants. This covers the row-object `forEach`,
the row maps, the article-page loop, the sitemap `forEach` and the Open Graph `forEach`.
Each loop is proved against a function on values. Pure string and record logic is made of
functions and lemmas.

What is proved, in outline:

- **Spreadsheet rows:** each record takes the last column with its header name. Each copied
  field is its cell, or its fallback chain when the cell is empty: the title falls back to
  MetaTitle and then "Untitled", and a thought's text to the "Thought" cell and then
  "Stay motivated!". The slug is slugified from the first non-empty of Slug, MetaTitle, Title
  and "Untitled", and it can be read back out of the canonical URL. A thought's id is its
  position among the data rows, counted from 1, and one thought in three carries an
  advertisement.
- **Article pages:** each page file holds the last article with its slug, and no other file
  changes.
- **Sitemap:** the document is the XML declaration, then the urlset element holding one
  block per listed page. It has exactly one `<url>` start tag per page, provided no location
  or change frequency contains `<`.
- **`timeAgo`:** the chain of floor divisions agrees with a reference function that
  compares the elapsed milliseconds against thresholds. Each bucket is characterised with
  its exact bounds.
- **Category page:** after every render the container shows the posts before the cursor,
  latest first, each once and in order. Each card is labelled at the time of the render that
  added it. The button is hidden exactly when everything is shown.
- **Home page:** pages are requested as 0, 1, 2, … and a page comes back short only once.
  After that the button stays hidden.
- **Article head:** the "find or create, then set" step never creates a second element
  with a key, and it keeps keys unique. Loading a second article on the same head creates
  nothing.
- **Sidebar:** a derived slug is made only of slug characters, and deriving it again
  changes nothing.

On the category page, the "load more" handler is registered before the posts arrive.
`CategoryFeed.FetchPosts` therefore states its result for any cursor position. A click
before the reply moves the cursor past the first ten posts, and that batch is then never
shown.

## Model

| member | source | states |
|---|---|---|
| Text.LeadingSpaces | public/js/finance.js:72 | the length of the all-white-space prefix that `trim` removes at the front: all of it is white space, and the next character is not |
| Text.TrailingSpaces | public/js/finance.js:72 | the same for the all-white-space suffix at the back |
| Text.Trim | public/js/finance.js:72 | `trim` gives the block of the input between its first and last non-space characters; it is empty exactly when the input is all white space |
| Text.TrimIdempotent | public/js/finance.js:75 | trimming a trimmed string changes nothing |
| Text.Split | public/js/finance.js:74 | `split` on one character gives one piece more than there are separators, and no piece holds the separator |
| Text.JoinSplit | public/js/finance.js:74-77 | joining the pieces of a split with the same character gives the string back |
| Text.SplitJoin | public/js/finance.js:74-77 | splitting the join of separator-free pieces gives the pieces back |
| Text.TrimmedPieces | public/js/article.js:119 | `split(",").map(c => c.trim())`: one trimmed piece per piece of the split |
| Text.Lower | build.js:98 | ASCII `toLowerCase`: same length, no upper-case letter left, each upper-case letter moved by 32, every other character kept |
| Text.NatToString | public/js/finance.js:133 | the decimal printing of a count: at least one digit, digits only, no leading zero |
| Text.DigitsValueOfNatToString | public/js/finance.js:133 | reading the printed digits back gives the number |
| Text.Or | public/js/finance.js:66 | JavaScript `\|\|` on strings: the first operand when it is not empty, otherwise the second; empty only when both are |
| Text.Join | public/js/finance.js:77 | `join`: no parts give the empty string; the result starts with the first part, followed by the separator when there is a second part |
| RelativeTime.TimeAgo | public/js/article.js:190-212 | an empty date string gives the empty string, and an unparsable one is returned unchanged |
| RelativeTime.TimeAgoAt | public/js/finance.js:87 | `timeAgo` at a clock: empty for the empty string, the input back when it is not a date, and the calendar form from 48 h on |
| RelativeTime.TimeAgoIsDescribed | public/js/finance.js:121-141 | the chained floor divisions into seconds, minutes, hours and days pick the same bucket and count as thresholds at 1 min, 1 h, 24 h and 48 h on the milliseconds |
| RelativeTime.CountedIsNotAWord | public/js/index.js:117-118 | a counted form ("5 mins ago") starts with a digit, so it is never "just now" or "yesterday" |
| RelativeTime.JustNowExactly | public/js/index.js:116 | "just now" if and only if less than a minute has elapsed, including dates in the future |
| RelativeTime.MinuteBucket | public/js/index.js:117 | from one minute up to an hour: the whole minutes, 1 to 59, singular only for one |
| RelativeTime.HourBucket | public/js/index.js:118 | from one hour up to a day: the whole hours, 1 to 23, singular only for one |
| RelativeTime.YesterdayExactly | public/js/index.js:119 | "yesterday" if and only if 24 h up to but excluding 48 h have elapsed |
| RelativeTime.AbsoluteFromTwoDays | public/js/index.js:121-124 | from 48 h on, the absolute "day month year" date |
| Build.RowObjectKeys | build.js:66 | the row object's keys are exactly the header names |
| Build.RowObjectColumn | build.js:66 | a header name holds the cell of the last column with that name, and the empty string beyond the end of a short row |
| Build.RowObject | build.js:66 | the last header name holds the cell of the last column, or the empty string beyond the end of a short row |
| Build.FillRow | build.js:65-66 | the `forEach` over the headers builds that row object |
| Build.ArticleHeaders | build.js:63 | the article headers are the trimmed header cells, position by position |
| Build.ThoughtHeaders | build.js:98 | the thought headers are the trimmed, lower-cased header cells |
| Build.NormaliseArticle | build.js:67-83 | title, author, read time and image are never empty; the title is Title, else MetaTitle, else "Untitled"; the slug is slugified from Slug, then MetaTitle, then Title, then "Untitled"; author, read time and image are their cells, or "Admin", "2" and "images/default.jpg" exactly when the cell is empty; content, excerpt, date, category, keywords and meta description are their cells; the canonical URL names the slug |
| Build.SlugOfCanonicalURL | build.js:82 | a URL of the canonical form yields the slug between the prefix and ".html" |
| Build.CanonicalURLRoundTrip | build.js:82 | the slug is read back unchanged from the canonical URL built from it |
| Build.FetchArticles | build.js:53-85 | no rows give no articles; otherwise one record per row after the header, in row order, built from that row's object |
| Build.ArticleRows | build.js:64-84 | the map over the data rows gives one normalised record per row |
| Build.AuthorFromSheet | build.js:66-77 | seen from the sheet, an article's author is the cell under the last "Author" header, or "Admin" when that cell is empty |
| Build.NormaliseThought | build.js:103-109 | the id is the row position from 1; the advertisement flag is set exactly when the id is a multiple of 3; text, author and colour are never empty; the text is the "thought" cell, else the "Thought" cell, else "Stay motivated!"; author and colour are their cells, or "Smart Finance 360" and "#ffffff" exactly when the cell is empty |
| Build.CapitalisedThoughtKeyAbsent | build.js:98-105 | headers are lower-cased, so no row object has the key "Thought"; the text is the "thought" cell or "Stay motivated!" |
| Build.FetchThoughts | build.js:88-113 | fewer than two rows give no thoughts; otherwise one thought per data row, numbered from 1, with an advertisement on every third |
| Build.ThoughtRows | build.js:99-110 | the indexed map over the data rows gives one thought per row |
| Build.OneAdInThree | build.js:108 | with ids numbered from 1, exactly one thought in three (rounded down) carries an advertisement |
| Build.PageNameInjective | build.js:128 | different slugs give different page file names |
| Build.WriteArticlePages | build.js:126-131 | the loop writes exactly one file per distinct slug; that file holds the page of the last article with the slug; every other file of the directory is unchanged |
| Sitemap.StaticPages | build.js:170-179 | the eight fixed pages, each with priority at most 1.0 |
| Sitemap.StaticPagesPlain | build.js:170-179 | no fixed location or change frequency contains `<` |
| Sitemap.SitemapPages | build.js:181-187 | the list is the eight fixed pages, then one entry per article, in order, with its canonical URL, "daily" and priority 0.9 |
| Sitemap.PriorityText | build.js:194 | a printed priority contains no `<` |
| Sitemap.UrlBlocks | build.js:191-195 | one `<url>` block per page, in order |
| Sitemap.UrlBlockText | build.js:191-195 | a block is "  <url>", then the loc, changefreq and priority lines, each indented by four spaces, then "  </url>" |
| Sitemap.LocLineText | build.js:192 | the `<loc>` line of a block |
| Sitemap.ChangefreqLineText | build.js:193 | the `<changefreq>` line of a block |
| Sitemap.PriorityLineText | build.js:194 | the `<priority>` line of a block |
| Sitemap.UrlsetOpenText | build.js:190 | the urlset start tag with the sitemaps.org 0.9 namespace, followed by a newline |
| Sitemap.SitemapXmlText | build.js:189-196 | the document is the XML declaration (version 1.0, UTF-8), a newline, the urlset start tag, the blocks joined by newlines, and the urlset end tag on its own line |
| Sitemap.BlockTags | build.js:191-195 | a block with a `<`-free location and change frequency holds exactly one `<url>` start tag |
| Sitemap.JoinTags | build.js:195 | joining blocks with newlines adds up their `<url>` start tags |
| Sitemap.HeadTags | build.js:189-190 | the XML declaration and the urlset start tag contain no `<url>` start tag |
| Sitemap.TailTags | build.js:196 | the urlset end tag contains no `<url>` start tag |
| Sitemap.SitemapUrlCount | build.js:189-196 | the document has exactly one `<url>` start tag per listed page, provided no location or change frequency contains `<` |
| Sitemap.BuildSitemapUrlCount | build.js:170-196 | the build's sitemap has 8 plus the number of articles `<url>` elements, provided no canonical URL contains `<` |
| Posts.ImageOrDefault | public/js/finance.js:72 | the card image is never empty: the trimmed URL when it has a non-space character, otherwise "images/default.jpg" |
| Posts.ImageIsTrimmed | public/js/index.js:58 | the displayed image address has no surrounding white space |
| Posts.CategoryLinks | public/js/finance.js:74-77 | an empty category string gives no links, and only it does; otherwise one link per comma-separated piece, showing the trimmed piece and linking to its encoded category page |
| Posts.FinanceCard | public/js/finance.js:65-105 | the link falls back to "articles/#.html" without a slug; the date is DateTime, else Date; categories as above; the image is the trimmed URL or the default, never empty; title, read time and excerpt are the post's |
| Posts.IndexCard | public/js/index.js:53-88 | the link is the encoded slug, or the encoded "#"; only DateTime is dated, so a post without one has no date label; categories as above; the image is the trimmed URL or the default; title, read time and excerpt are the post's |
| Posts.CardsAgree | public/js/index.js:53-88 | for a post with a DateTime and a slug that needs no encoding, the two pages build the same card |
| Posts.CategoryNamesRejoin | public/js/index.js:54-56 | when no category piece has surrounding white space, the shown names joined with commas give the category string back |
| Posts.Texts | public/js/index.js:55 | the shown texts of a link list, one per link |
| Posts.FinanceCards | public/js/finance.js:65-106 | one category-page card per post, in order |
| Posts.IndexCards | public/js/index.js:53-89 | one home-page card per post, in order |
| Posts.FinanceCardsAppend | public/js/finance.js:109 | rendering two runs of posts one after the other renders their concatenation |
| Posts.IndexCardsAppend | public/js/index.js:92 | the same for home-page cards |
| CategoryPage.CategoryName | public/js/finance.js:31-32 | the category of the page's meta tag, or "Finance" when there is none |
| CategoryPage.Reverse | public/js/finance.js:50 | `reverse` keeps the length and puts position i at position n-1-i |
| CategoryPage.ReverseKeepsPosts | public/js/finance.js:50 | reversing neither adds nor drops a post |
| CategoryPage.Slice | public/js/finance.js:64 | `slice` of non-negative bounds: both are clamped to the length, and elements are taken from the start on |
| CategoryPage.SliceExtendsPrefix | public/js/finance.js:64 | the prefix before the cursor followed by the next slice is the prefix before the advanced cursor |
| CategoryPage.NextBatchShown | public/js/finance.js:60-115 | a container showing the cards of the posts before the cursor, each at its own render time, followed by the next batch's cards at this render's time, shows the posts before the advanced cursor, which is all posts once the cursor has passed the end |
| CategoryPage.LabelsExtend | public/js/finance.js:64-109 | appending one batch, labelled at one time, extends a labelled prefix of the posts by the batch and records that time for each of its posts |
| CategoryPage.CategoryFeed.constructor | public/js/finance.js:27-38 | the page's initial state: no posts, the cursor at 0, and the container showing the page's markup and no cards |
| CategoryPage.CategoryFeed.RenderPosts | public/js/finance.js:60-115 | appends the cards of the next ten posts, labelled at the time of the call, and advances the cursor by ten; hides the button exactly when the cursor has reached the end; keeps the container showing every post before the cursor once and in order, each at the time it was rendered, and all posts once the button is hidden |
| CategoryPage.CategoryFeed.FetchPosts | public/js/finance.js:41-57 | a failed request shows the error message; a reply that is not an array or is empty shows "No … posts found."; both hide the button. Otherwise the posts are stored latest first and the first batch is rendered, at the time of the reply, after what the container held |
| HomePage.Fetched | public/js/index.js:34-42 | a request that throws counts as an empty page |
| HomePage.HomeFeed.constructor | public/js/index.js:30-32 | the counter starts at 0, nothing has been requested, and the objects the page keeps are well formed |
| HomePage.HomeFeed.RenderPosts | public/js/index.js:44-93 | an empty page hides the button and replaces the container by "No posts found." or, when appending, leaves it; otherwise the cards replace or are appended to the container; the button is never shown again and the feed stays well formed |
| HomePage.HomeFeed.Init | public/js/index.js:143-155 | requests page 0. For an array: the cards (or the message) replace the container, a short page hides the button, and the counter becomes 1. For a falsy value other than `null`: "No posts found.", the button hidden and the counter 1. For `null` or another non-array value: the error message is shown, the button hidden and the counter left at 0 |
| HomePage.HomeFeed.BeginLoadMore | public/js/index.js:95-97 | a click disables the button and requests the next page, one never requested before |
| HomePage.HomeFeed.FinishLoadMore | public/js/index.js:97-103 | the reply's cards are appended; a short page hides the button for good; the counter advances and the button is enabled. A falsy reply other than `null` appends nothing, hides the button and advances the counter. A `null` or other non-array reply throws part-way: the counter stays and the button stays disabled. The container's earlier contents are always kept |
| ArticlePage.Lookup | public/js/article.js:66 | `querySelector` finds nothing exactly when no element has the key |
| ArticlePage.Upsert | public/js/article.js:66-72 | "find or create, then set" adds one element exactly when the key was absent, at the end; every element keeps its key and place |
| ArticlePage.UpsertLookup | public/js/article.js:66-72 | afterwards the key shows the new value, and every other key shows what it showed |
| ArticlePage.UpsertOccurrences | public/js/article.js:66-72 | an element with the key is created only when there was none; the count for every other key is unchanged |
| ArticlePage.UpsertKeepsKeysUnique | public/js/article.js:97-105 | a head without duplicate keys keeps none |
| ArticlePage.UpsertLatest | public/js/article.js:97-105 | setting a key twice equals setting it once to the later value |
| ArticlePage.LastValue | public/js/article.js:63-105 | the last value given to a key is absent exactly when no update names the key |
| ArticlePage.ApplyAllLookup | public/js/article.js:63-105 | after a run of updates, each key shows its last update's value, and unmentioned keys are unchanged |
| ArticlePage.ApplyAllKeepsKeysUnique | public/js/article.js:63-105 | a run of updates keeps keys unique |
| ArticlePage.ApplyAllToPresentKeys | public/js/article.js:63-105 | updates whose keys all exist create no element |
| ArticlePage.ApplyAll | public/js/article.js:63-105 | a run of updates keeps every element in place with its key and adds at most one element per update at the end |
| ArticlePage.PageViews | public/js/article.js:60 | `Views \|\| 112`: a positive count is shown, and zero or an absent count shows 112 |
| ArticlePage.DocumentTitle | public/js/article.js:64 | the document title is MetaTitle, else Title, else "Smart Finance 360", and never empty |
| ArticlePage.OgUpdates | public/js/article.js:91-96 | four Open Graph tags |
| ArticlePage.HeadUpdateKeys | public/js/article.js:63-105 | the seven keys a loaded article sets are the same for every article |
| ArticlePage.HeadUpdateKeysDistinct | public/js/article.js:63-105 | the seven keys are distinct |
| ArticlePage.KeywordLinks | public/js/article.js:151-156 | one badge per comma-separated piece of the keywords, even when they are empty; each shows the trimmed piece and links to its encoded search |
| ArticlePage.ArticleBody | public/js/article.js:53-61 | title, read time and content are the post's; author and image are the post's, or the defaults exactly when missing, so never empty; the view count is never zero; the date is `timeAgo` of DateTime; the categories are the trimmed comma pieces, so an empty category gives one empty item; the keyword badges; no view note yet |
| ArticlePage.ArticleView.constructor | public/js/article.js:31 | the container shows the page's own markup |
| ArticlePage.ArticleView.LoadArticle | public/js/article.js:30-187 | no container: nothing changes. No slug: "Article not found.". A failed request: "Error loading article.". An error reply: its message. In those cases the title and head are unchanged. Otherwise the article is shown, the title is set, and the head is the old head with the seven updates applied in order |
| ArticlePage.ArticleView.SetHeadTags | public/js/article.js:63-105 | the three SEO tags, then the Open Graph tags in a loop, leave exactly the old head with the seven updates applied in order |
| ArticlePage.ArticleView.TrackPageView | public/js/article.js:216-232 | with the article shown and `views` defined, the count is appended to the byline; otherwise nothing changes |
| ArticlePage.LoadedHeadShows | public/js/article.js:63-105 | after a load, each of the seven keys shows this article's value |
| ArticlePage.LoadedHeadKeepsOthers | public/js/article.js:63-105 | every other head element keeps its value |
| ArticlePage.ReloadCreatesNothing | public/js/article.js:66-105 | loading a second article, at any address, on the same head creates no element, keeps keys unique, and shows the second article's values |
| Sidebar.CollapseSpaces | public/js/sidebar.js:19 | `replace(/\s+/g, "-")` leaves no white space |
| Sidebar.CollapseChars | public/js/sidebar.js:19 | collapsing brings in no character other than `-` |
| Sidebar.CollapseRun | public/js/sidebar.js:19 | a maximal run of white space between two pieces becomes exactly one `-` |
| Sidebar.CollapseAppend | public/js/sidebar.js:19 | collapsing works piece by piece across a boundary after a non-space character |
| Sidebar.CollapseFrontRun | public/js/sidebar.js:19 | a leading run of white space before a non-space character becomes one `-` |
| Sidebar.CollapseNoSpace | public/js/sidebar.js:19 | a string without white space is unchanged by collapsing |
| Sidebar.StripNonWord | public/js/sidebar.js:19 | `replace(/[^\w-]+/g, "")` leaves only `\w` characters and `-` |
| Sidebar.StripChars | public/js/sidebar.js:19 | stripping keeps only characters of its input |
| Sidebar.StripSlugChars | public/js/sidebar.js:19 | a string of slug characters is unchanged by stripping |
| Sidebar.DerivedSlugChars | public/js/sidebar.js:19 | a slug derived from a title holds only lower-case ASCII letters, digits, `_` and `-` |
| Sidebar.DeriveSlug | public/js/sidebar.js:19 | `toLowerCase`, the white-space collapse and the strip, in that order, give only slug characters |
| Sidebar.SlugCharsDerive | public/js/sidebar.js:19 | a string of slug characters derives itself |
| Sidebar.DeriveSlugIdempotent | public/js/sidebar.js:19 | deriving a derived slug again changes nothing |
| Sidebar.CollapseExample | public/js/sidebar.js:19 | "a & b" collapses to "a-&-b" |
| Sidebar.StripExample | public/js/sidebar.js:19 | "a-&-b" strips to "a--b" |
| Sidebar.DeriveSlugExample | public/js/sidebar.js:19 | "A & B" derives "a--b": each space becomes a dash, and the `&` is dropped, not the dashes |
| Sidebar.SlugFor | public/js/sidebar.js:19 | the slug is Slug, else the slug derived from Title, else undefined |
| Sidebar.RecommendedCardOf | public/js/sidebar.js:13-40 | the read time is the post's, or "Few minutes" exactly when it is empty; the picture of the image URL with the printed title as alt text, or the placeholder exactly when the URL is empty; the printed title and the excerpt; the link prints the slug, as "undefined" when there is none |
| Sidebar.RecommendedCards | public/js/sidebar.js:9-40 | one card per recommended post, in order; an absent list gives none |
| Sidebar.CategoryItems | public/js/sidebar.js:45-61 | an empty object gives the single "No categories found" item; otherwise one link per entry, in entry order, to its encoded category page |
| Sidebar.Render | public/js/sidebar.js:1-70 | each list the page has shows the payload's items, or its error message when anything failed; a list the page lacks is left alone |
| Sidebar.DerivedLinkChars | public/js/sidebar.js:19-35 | with a derived slug, the part of the link between "articles/" and ".html" holds only slug characters |

## Left out

- Network and file I/O, which enter as reply values:
  - the spreadsheet client;
  - every `fetch` and `res.json()`;
  - `fs` writes, which appear as a map from file name to contents;
  - `includeHTML` and its header, sidebar and footer loading;
  - the insertion of the sidebar script.
- Foreign library calls are parameters of the model: `slugify`, `Mustache.render` and
  `encodeURIComponent`.
- `new Date(...)`, the current time and `toLocaleString` are a `Clock` parameter. It gives
  the elapsed milliseconds or "not a date", and the printed "day month year" form.
  Parsing date strings is not modelled.
- CategoryPage.CategoryFeed.RenderPosts and HomePage.HomeFeed.RenderPosts: each call takes
  the `Clock` of its own time, so a later batch is labelled against a later time. Within one
  call all cards share that instant. The source reads the time once per card, a few
  microseconds apart, and that difference is not modelled.
- The motivational page render (`build.js:134-167`) is a single call to the template
  engine with constant data and the thoughts. Only the thoughts it is given are modelled.
- HTML text is not produced for cards, articles and sidebar items. They are records of what
  they show and link to. Not modelled: the `data-post` attribute (`JSON.stringify`), the
  social share blocks and the markup around the fields.
- The post-link click handlers of `index.js` and `finance.js` only navigate.
  `console` output is not modelled either.
- Text.Lower: only ASCII letters are lower-cased. JavaScript's `toLowerCase` also maps
  other Unicode letters.
- Sidebar.IsWordChar: `\w` is the ASCII class, and `\s` is the ECMAScript white-space set
  in `Text.IsSpace`.
- Sidebar.CategoryItems: the category object is given as its list of entries, in the order
  `Object.entries` yields them. JavaScript puts integer-like keys first, and that ordering
  is not modelled.
- Post and article fields are strings, and an absent property is the empty string. Reading
  a numeric or otherwise non-string field is not modelled, and neither are the
  `TypeError`s it can raise. `Views` is an optional natural number, and a recommended
  post's `Title` is an optional string.
- ArticlePage.PageViews: `Views` is an optional natural number. A truthy non-numeric
  value, which `Views || 112` would show as written, is not modelled.
- On the home page the falsy replies `""`, `0` and `false` are one case. For `0` and
  `false` the later `posts.length < 10` reads `undefined` and is false, but the button is
  already hidden by then, so the three behave alike.
- ArticlePage.ArticleView.LoadArticle: the "Loading article..." paragraph is overwritten
  within the same call, so only the final state is stated.
- ArticlePage.ArticleView.TrackPageView: the byline is taken to be the first `.text-muted.small`
  element of the document. The model appends the count to the shown article rather than
  searching the page. It is a separate call after `LoadArticle`, not awaited inside it.
- HomePage.HomeFeed.BeginLoadMore: a click before `init` has finished is not modelled
  (the method requires `Init` to have run). Overlapping requests are not modelled either:
  a click while a page is awaited cannot happen, because the button is disabled.
- CategoryPage.CategoryFeed.RenderPosts: a click on "load more" before the posts arrive
  is covered, as a call with no posts. What the browser does between awaits is not
  modelled otherwise.
- Sitemap.PriorityText: priorities are kept in tenths. The JavaScript printing of the
  floating-point numbers 1.0, 0.9, 0.8 and 0.6 is modelled only for those tenths.
- Sitemap.SitemapUrlCount: the structure of the document is stated only by counting `<url>`
  start tags, with `<`-free locations and change frequencies. The source does not escape
  XML special characters.
- Build.WriteArticlePages: `ensureDir` and the article directory's path are not modelled.
  The directory is a map from page name to contents.
