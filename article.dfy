/**
 * The article page (article.js): the article named by the `slug` query parameter is fetched,
 * the document title and the SEO and Open Graph tags of the head are set, and the article is
 * rendered into the container; the view counter's reply is appended to the byline later.
 */
module ArticlePage {
  import opened Wrappers
  import opened Text
  import opened RelativeTime
  import opened Posts

  // ---------------------------------------------------------------------------------------
  // head tags

  /** What a head element is looked up by: `meta[name=..]`, `link[rel=..]` or
      `meta[property=..]`. */
  datatype TagKey = MetaName(name: string) | LinkRel(rel: string) | MetaProperty(property: string)

  /** A head element with its key and the attribute the page sets on it (`content` for a
      meta element, `href` for a link). */
  datatype HeadTag = HeadTag(key: TagKey, value: string)

  datatype TagUpdate = TagUpdate(key: TagKey, value: string)

  /** What `document.querySelector` finds for a key: the first element that has it. */
  function Lookup(head: seq<HeadTag>, key: TagKey): (r: Option<string>)
    ensures r.None? <==> forall i :: 0 <= i < |head| ==> head[i].key != key
  {
    if head == [] then None
    else if head[0].key == key then Some(head[0].value)
    else Lookup(head[1..], key)
  }

  /** The number of elements with a key. */
  function Occurrences(head: seq<HeadTag>, key: TagKey): nat {
    if head == [] then 0 else (if head[0].key == key then 1 else 0) + Occurrences(head[1..], key)
  }

  /** "Find or create, then set": set the value of the first element with the key, or
      append a new element with the key and set its value when there is none. Every
      element keeps its key and its place. */
  function Upsert(head: seq<HeadTag>, key: TagKey, value: string): (h: seq<HeadTag>)
    ensures |h| == |head| + (if Lookup(head, key).None? then 1 else 0)
    ensures forall i :: 0 <= i < |head| ==> h[i].key == head[i].key
    ensures Lookup(head, key).None? ==> h[|head|] == HeadTag(key, value)
  {
    if head == [] then [HeadTag(key, value)]
    else if head[0].key == key then [HeadTag(key, value)] + head[1..]
    else
      var rest := Upsert(head[1..], key, value);
      assert ([head[0]] + rest)[1..] == rest;
      [head[0]] + rest
  }

  /** After an upsert the key shows the new value and every other key what it showed. */
  lemma {:induction false} UpsertLookup(head: seq<HeadTag>, key: TagKey, value: string, other: TagKey)
    ensures Lookup(Upsert(head, key, value), key) == Some(value)
    ensures other != key ==> Lookup(Upsert(head, key, value), other) == Lookup(head, other)
    decreases |head|
  {
    if head != [] && head[0].key != key {
      UpsertLookup(head[1..], key, value, other);
      assert Upsert(head, key, value)[1..] == Upsert(head[1..], key, value);
    }
  }

  /** An upsert creates an element with the key only when there was none, and leaves the
      number of elements with any other key alone. */
  lemma {:induction false} UpsertOccurrences(head: seq<HeadTag>, key: TagKey, value: string, other: TagKey)
    ensures Occurrences(Upsert(head, key, value), key) == (if Occurrences(head, key) == 0 then 1 else Occurrences(head, key))
    ensures other != key ==> Occurrences(Upsert(head, key, value), other) == Occurrences(head, other)
    decreases |head|
  {
    var h := Upsert(head, key, value);
    if head == [] {
      assert h[1..] == [];
    } else if head[0].key == key {
      assert h[1..] == head[1..];
    } else {
      UpsertOccurrences(head[1..], key, value, other);
      assert h[1..] == Upsert(head[1..], key, value);
    }
  }

  /** No two elements share a key. */
  predicate UniqueKeys(head: seq<HeadTag>) {
    forall i, j :: 0 <= i < j < |head| ==> head[i].key != head[j].key
  }

  lemma UpsertKeepsKeysUnique(head: seq<HeadTag>, key: TagKey, value: string)
    requires UniqueKeys(head)
    ensures UniqueKeys(Upsert(head, key, value))
  {
    var h := Upsert(head, key, value);
    forall i, j | 0 <= i < j < |h|
      ensures h[i].key != h[j].key
    {
      if j < |head| {
        assert h[i].key == head[i].key && h[j].key == head[j].key;
      } else {
        assert h[i].key == head[i].key;
      }
    }
  }

  /** Setting a key twice leaves what setting it once to the later value leaves. */
  lemma {:induction false} UpsertLatest(head: seq<HeadTag>, key: TagKey, first: string, second: string)
    ensures Upsert(Upsert(head, key, first), key, second) == Upsert(head, key, second)
  {
    if head != [] && head[0].key != key {
      UpsertLatest(head[1..], key, first, second);
      var once := Upsert(head, key, first);
      assert once == [head[0]] + Upsert(head[1..], key, first);
      assert once[1..] == Upsert(head[1..], key, first);
    }
  }

  /** The updates applied one after the other, in order. Existing elements keep their keys
      and places, and at most one element per update is added, at the end. */
  function ApplyAll(head: seq<HeadTag>, updates: seq<TagUpdate>): (h: seq<HeadTag>)
    ensures |head| <= |h| <= |head| + |updates|
    ensures forall i :: 0 <= i < |head| ==> h[i].key == head[i].key
    decreases |updates|
  {
    if updates == [] then head
    else
      var last := updates[|updates| - 1];
      Upsert(ApplyAll(head, updates[..|updates| - 1]), last.key, last.value)
  }

  /** The value the last update with the key sets, if any update has the key. */
  function LastValue(updates: seq<TagUpdate>, key: TagKey): (r: Option<string>)
    ensures r.None? <==> forall i :: 0 <= i < |updates| ==> updates[i].key != key
    decreases |updates|
  {
    if updates == [] then None
    else if updates[|updates| - 1].key == key then Some(updates[|updates| - 1].value)
    else LastValue(updates[..|updates| - 1], key)
  }

  /** After a run of updates each key shows the value of its last update, and a key no
      update mentions keeps what it had. */
  lemma {:induction false} ApplyAllLookup(head: seq<HeadTag>, updates: seq<TagUpdate>, key: TagKey)
    ensures Lookup(ApplyAll(head, updates), key) == if LastValue(updates, key).Some? then LastValue(updates, key) else Lookup(head, key)
    decreases |updates|
  {
    if updates != [] {
      var last := updates[|updates| - 1];
      ApplyAllLookup(head, updates[..|updates| - 1], key);
      UpsertLookup(ApplyAll(head, updates[..|updates| - 1]), last.key, last.value, key);
    }
  }

  lemma {:induction false} ApplyAllKeepsKeysUnique(head: seq<HeadTag>, updates: seq<TagUpdate>)
    requires UniqueKeys(head)
    ensures UniqueKeys(ApplyAll(head, updates))
    decreases |updates|
  {
    if updates != [] {
      var last := updates[|updates| - 1];
      ApplyAllKeepsKeysUnique(head, updates[..|updates| - 1]);
      UpsertKeepsKeysUnique(ApplyAll(head, updates[..|updates| - 1]), last.key, last.value);
    }
  }

  /** Updates whose keys all exist already create no element. */
  lemma {:induction false} ApplyAllToPresentKeys(head: seq<HeadTag>, updates: seq<TagUpdate>)
    requires forall i :: 0 <= i < |updates| ==> Lookup(head, updates[i].key).Some?
    ensures |ApplyAll(head, updates)| == |head|
    decreases |updates|
  {
    if updates != [] {
      var init, last := updates[..|updates| - 1], updates[|updates| - 1];
      ApplyAllToPresentKeys(head, init);
      ApplyAllLookup(head, init, last.key);
    }
  }

  // ---------------------------------------------------------------------------------------
  // the article

  /** The reply of the article service; an absent property is the empty string, and an
      absent `Views` is `None`. */
  datatype ArticlePost = ArticlePost(
    error: string, Title: string, DateTime: string, ReadTime: string, Category: string,
    ImageURL: string, Author: string, Content: string, Views: Option<nat>, Keywords: string,
    MetaTitle: string, MetaDescription: string)

  /** How the article request ends: the fetch or the parse throws (a `null` reply throws at
      the `error` check), or a post arrives. */
  datatype ArticleReply = LoadFailed | Loaded(post: ArticlePost)

  /** The rendered article. `viewNotes` are the view counts appended to the byline. */
  datatype Body = Body(
    title: string, dateLabel: string, readTime: string, author: string, pageViews: nat,
    categories: seq<string>, image: string, content: string, keywords: seq<Link>,
    viewNotes: seq<string>)

  /** What the article container shows: the page's own markup, a paragraph, or the article. */
  datatype View = Original | Paragraph(text: string) | Article(body: Body)

  const NotFoundMessage := "Article not found."
  const LoadingMessage := "Loading article..."
  const LoadErrorMessage := "Error loading article."
  const SiteName := "Smart Finance 360"
  const DefaultAuthor := "Admin"
  const DefaultViews: nat := 112

  /** `post.Views || 112`: zero and an absent count both show 112. */
  function PageViews(views: Option<nat>): (n: nat)
    ensures n > 0
    ensures views.Some? && views.value > 0 ==> n == views.value
    ensures views.None? || views == Some(0) ==> n == DefaultViews
  {
    match views
    case Some(v) => if v != 0 then v else DefaultViews
    case None => DefaultViews
  }

  /** `document.title`: `MetaTitle || Title || "Smart Finance 360"`, never empty. */
  function DocumentTitle(post: ArticlePost): (t: string)
    ensures t != ""
    ensures post.MetaTitle != "" ==> t == post.MetaTitle
    ensures post.MetaTitle == "" && post.Title != "" ==> t == post.Title
    ensures post.MetaTitle == "" && post.Title == "" ==> t == SiteName
  {
    Or(Or(post.MetaTitle, post.Title), SiteName)
  }

  function Image(post: ArticlePost): string {
    Or(post.ImageURL, DefaultImage)
  }

  /** The description, keywords and canonical tags, in the order the page sets them. */
  function SeoUpdates(post: ArticlePost, href: string): seq<TagUpdate> {
    [ TagUpdate(MetaName("description"), Or(post.MetaDescription, "")),
      TagUpdate(MetaName("keywords"), Or(post.Keywords, "")),
      TagUpdate(LinkRel("canonical"), href) ]
  }

  /** The Open Graph tags, in the order of the `ogTags` list. */
  function OgUpdates(post: ArticlePost, href: string): (u: seq<TagUpdate>)
    ensures |u| == 4
  {
    [ TagUpdate(MetaProperty("og:title"), Or(post.MetaTitle, Or(post.Title, ""))),
      TagUpdate(MetaProperty("og:description"), Or(post.MetaDescription, "")),
      TagUpdate(MetaProperty("og:image"), Image(post)),
      TagUpdate(MetaProperty("og:url"), href) ]
  }

  /** Every head update a loaded article makes, in order. */
  function HeadUpdates(post: ArticlePost, href: string): seq<TagUpdate> {
    SeoUpdates(post, href) + OgUpdates(post, href)
  }

  /** The seven keys, which do not depend on the article. */
  lemma HeadUpdateKeys(post: ArticlePost, other: ArticlePost, href: string, otherHref: string)
    ensures |HeadUpdates(post, href)| == |HeadUpdates(other, otherHref)| == 7
    ensures forall i :: 0 <= i < 7 ==> HeadUpdates(post, href)[i].key == HeadUpdates(other, otherHref)[i].key
  {
  }

  /** The seven keys are distinct, so each is set exactly once. */
  lemma HeadUpdateKeysDistinct(post: ArticlePost, href: string)
    ensures forall i, j :: 0 <= i < j < |HeadUpdates(post, href)| ==> HeadUpdates(post, href)[i].key != HeadUpdates(post, href)[j].key
  {
  }

  /** The keyword badges: one per comma-separated piece, even for an empty string. */
  function KeywordLinks(keywords: string, encode: string -> string): (links: seq<Link>)
    ensures |links| == multiset(keywords)[','] + 1
    ensures forall i :: 0 <= i < |links| ==>
      links[i].text == Trim(Split(keywords, ',')[i])
      && links[i].href == "search.html?keyword=" + encode(links[i].text)
  {
    var texts := TrimmedPieces(keywords, ',');
    seq(|texts|, i requires 0 <= i < |texts| => Link(texts[i], "search.html?keyword=" + encode(texts[i])))
  }

  /** The rendered article with its defaults. The category line is split without an
      emptiness check, so an article without categories shows one empty item. */
  function ArticleBody(post: ArticlePost, clock: Clock, encode: string -> string): (b: Body)
    ensures b.author != "" && b.image != "" && b.pageViews > 0
    ensures b.title == post.Title && b.readTime == post.ReadTime && b.content == post.Content
    ensures b.author == if post.Author != "" then post.Author else DefaultAuthor
    ensures b.image == if post.ImageURL != "" then post.ImageURL else DefaultImage
    ensures b.pageViews == PageViews(post.Views)
    ensures b.dateLabel == TimeAgoAt(post.DateTime, clock)
    ensures b.categories == TrimmedPieces(post.Category, ',')
    ensures |b.categories| == multiset(post.Category)[','] + 1
    ensures post.Category == "" ==> b.categories == [""]
    ensures b.keywords == KeywordLinks(post.Keywords, encode)
    ensures b.viewNotes == []
  {
    var categories := TrimmedPieces(Or(post.Category, ""), ',');
    assert post.Category == "" ==> Split(post.Category, ',') == [""];
    Body(Or(post.Title, ""), TimeAgoAt(Or(post.DateTime, ""), clock), Or(post.ReadTime, ""),
         Or(post.Author, DefaultAuthor), PageViews(post.Views), categories, Image(post),
         Or(post.Content, ""), KeywordLinks(Or(post.Keywords, ""), encode), [])
  }

  /** The reply of the view counter: the fetch, the parse or the property access throws,
      or an object arrives whose `views` is printed as the string given, or is undefined. */
  datatype ViewsReply = TrackFailed | Tracked(views: Option<string>)

  class ArticleView {
    /** `#article-container` exists on the page. */
    const hasContainer: bool
    var container: View
    /** `document.title`. */
    var title: string
    /** The elements of `document.head` that the page looks up. */
    var head: seq<HeadTag>

    constructor (hasContainer: bool, title: string, head: seq<HeadTag>)
      ensures this.hasContainer == hasContainer && container == Original
      ensures this.title == title && this.head == head
    {
      this.hasContainer := hasContainer;
      container := Original;
      this.title := title;
      this.head := head;
    }

    /** `loadArticle`, from the query's `slug` (the empty string when absent) and the reply
        of the article service, for a page at `href`. */
    method LoadArticle(slug: string, reply: ArticleReply, href: string, clock: Clock, encode: string -> string)
      modifies this
      ensures !hasContainer ==> container == old(container) && title == old(title) && head == old(head)
      ensures hasContainer && slug == "" ==>
        container == Paragraph(NotFoundMessage) && title == old(title) && head == old(head)
      ensures hasContainer && slug != "" && reply.LoadFailed? ==>
        container == Paragraph(LoadErrorMessage) && title == old(title) && head == old(head)
      ensures hasContainer && slug != "" && reply.Loaded? && reply.post.error != "" ==>
        container == Paragraph(reply.post.error) && title == old(title) && head == old(head)
      ensures hasContainer && slug != "" && reply.Loaded? && reply.post.error == "" ==>
        container == Article(ArticleBody(reply.post, clock, encode))
        && title == DocumentTitle(reply.post)
        && head == ApplyAll(old(head), HeadUpdates(reply.post, href))
    {
      if !hasContainer {
        return;
      }
      if slug == "" {
        container := Paragraph(NotFoundMessage);
        return;
      }
      container := Paragraph(LoadingMessage);
      match reply
      case LoadFailed =>
        container := Paragraph(LoadErrorMessage);
      case Loaded(post) =>
        if post.error != "" {
          container := Paragraph(post.error);
          return;
        }
        title := DocumentTitle(post);
        SetHeadTags(post, href);
        container := Article(ArticleBody(post, clock, encode));
    }

    /** The head updates of a loaded article: the description, keywords and canonical
        tags one by one, then the Open Graph tags in a loop. */
    method SetHeadTags(post: ArticlePost, href: string)
      modifies this`head
      ensures head == ApplyAll(old(head), HeadUpdates(post, href))
    {
      var seo := SeoUpdates(post, href);
      ghost var start := head;
      head := Upsert(head, seo[0].key, seo[0].value);
      assert seo[..1][..0] == [];
      assert head == ApplyAll(start, seo[..1]);
      head := Upsert(head, seo[1].key, seo[1].value);
      assert seo[..2][..1] == seo[..1];
      assert head == ApplyAll(start, seo[..2]);
      head := Upsert(head, seo[2].key, seo[2].value);
      assert seo[..3][..2] == seo[..2] && seo[..3] == seo;
      assert head == ApplyAll(start, seo);
      var og := OgUpdates(post, href);
      assert seo + og[..0] == seo;
      for i := 0 to |og|
        invariant head == ApplyAll(start, seo + og[..i])
      {
        ghost var next := seo + og[..i + 1];
        assert next[..|next| - 1] == seo + og[..i] && next[|next| - 1] == og[i];
        head := Upsert(head, og[i].key, og[i].value);
      }
      assert og[..|og|] == og;
    }

    /** The view counter's reply: when the article is shown and `views` is defined, the
        count is appended to the byline; otherwise nothing changes. */
    method TrackPageView(reply: ViewsReply)
      modifies this`container
      ensures container.Article? <==> old(container).Article?
      ensures old(container).Article? && reply.Tracked? && reply.views.Some? ==>
        container == Article(old(container).body.(viewNotes := old(container).body.viewNotes + [reply.views.value]))
      ensures !(old(container).Article? && reply.Tracked? && reply.views.Some?) ==> container == old(container)
    {
      if container.Article? && reply.Tracked? && reply.views.Some? {
        container := Article(container.body.(viewNotes := container.body.viewNotes + [reply.views.value]));
      }
    }
  }

  /** After a load, each of the seven keys shows the value this article gives it, and every
      other element of the head keeps its value. */
  lemma LoadedHeadShows(head: seq<HeadTag>, post: ArticlePost, href: string, i: nat)
    requires i < 7
    ensures Lookup(ApplyAll(head, HeadUpdates(post, href)), HeadUpdates(post, href)[i].key) == Some(HeadUpdates(post, href)[i].value)
  {
    var u := HeadUpdates(post, href);
    HeadUpdateKeysDistinct(post, href);
    ApplyAllLookup(head, u, u[i].key);
    LastIsOnly(u, i);
  }

  lemma {:induction false} LastIsOnly(updates: seq<TagUpdate>, i: nat)
    requires i < |updates|
    requires forall a, b :: 0 <= a < b < |updates| ==> updates[a].key != updates[b].key
    ensures LastValue(updates, updates[i].key) == Some(updates[i].value)
    decreases |updates|
  {
    if i < |updates| - 1 {
      LastIsOnly(updates[..|updates| - 1], i);
    }
  }

  lemma LoadedHeadKeepsOthers(head: seq<HeadTag>, post: ArticlePost, href: string, key: TagKey)
    requires forall i :: 0 <= i < 7 ==> HeadUpdates(post, href)[i].key != key
    ensures Lookup(ApplyAll(head, HeadUpdates(post, href)), key) == Lookup(head, key)
  {
    ApplyAllLookup(head, HeadUpdates(post, href), key);
  }

  /** Loading a second article, at its own address, on the same head creates no element:
      the head keeps its size, its keys stay unique if they were, and each key shows the
      second article's value. */
  lemma ReloadCreatesNothing(head: seq<HeadTag>, first: ArticlePost, second: ArticlePost,
                              href: string, secondHref: string, i: nat)
    requires i < 7
    ensures var once := ApplyAll(head, HeadUpdates(first, href));
      var twice := ApplyAll(once, HeadUpdates(second, secondHref));
      |twice| == |once|
      && (UniqueKeys(head) ==> UniqueKeys(twice))
      && Lookup(twice, HeadUpdates(second, secondHref)[i].key) == Some(HeadUpdates(second, secondHref)[i].value)
  {
    var u1, u2 := HeadUpdates(first, href), HeadUpdates(second, secondHref);
    var once := ApplyAll(head, u1);
    HeadUpdateKeys(first, second, href, secondHref);
    forall j | 0 <= j < |u2|
      ensures Lookup(once, u2[j].key).Some?
    {
      LoadedHeadShows(head, first, href, j);
    }
    ApplyAllToPresentKeys(once, u2);
    if UniqueKeys(head) {
      ApplyAllKeepsKeysUnique(head, u1);
      ApplyAllKeepsKeysUnique(once, u2);
    }
    LoadedHeadShows(once, second, secondHref, i);
  }

}
