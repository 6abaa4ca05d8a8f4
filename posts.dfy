/**
 * The post records the listing pages receive from the posts service, and the cards that
 * finance.js (the category page) and index.js (the home page) build from them. A card is
 * kept as its fields rather than as HTML: what it shows and where its links go.
 */
module Posts {
  import opened Text
  import opened RelativeTime

  /** A post as the service sends it; an absent property is the empty string. */
  datatype Post = Post(
    Title: string, Slug: string, DateTime: string, Date: string, ReadTime: string,
    Category: string, Excerpt: string, ImageURL: string)

  /** A link: the text shown and the `href`. */
  datatype Link = Link(text: string, href: string)

  /** One article card. `dateLabel` is the `timeAgo` text, `link` the address all three
      anchors of the card point to. */
  datatype Card = Card(
    dateLabel: string, readTime: string, image: string, categories: seq<Link>,
    title: string, excerpt: string, link: string)

  /** What a listing container holds: cards, and the `<h3>` messages that replace them. */
  datatype Block = CardBlock(card: Card) | Heading(text: string)

  const DefaultImage := "images/default.jpg"

  /** The message both listing pages show when loading their posts throws. */
  const ErrorMessage := "Error loading posts."

  /** `url && url.trim() !== "" ? url.trim() : "images/default.jpg"`. */
  function ImageOrDefault(url: string): (img: string)
    ensures img != ""
    ensures Trim(url) != "" ==> img == Trim(url)
    ensures Trim(url) == "" ==> img == DefaultImage
  {
    if url != "" && Trim(url) != "" then Trim(url) else DefaultImage
  }

  /** A displayed image address never carries surrounding white space. */
  lemma ImageIsTrimmed(url: string)
    ensures Trim(ImageOrDefault(url)) == ImageOrDefault(url)
  {
    if Trim(url) != "" {
      TrimIdempotent(url);
    } else {
      assert !IsSpace(DefaultImage[0]) && !IsSpace(DefaultImage[|DefaultImage| - 1]);
      assert LeadingSpaces(DefaultImage) == 0;
      assert TrailingSpaces(DefaultImage) == 0;
    }
  }

  /** The category line: no items for an empty category string, otherwise one item per
      comma-separated piece, showing the trimmed piece and linking to its category page. */
  function CategoryLinks(category: string, encode: string -> string): (links: seq<Link>)
    ensures category == "" <==> links == []
    ensures category != "" ==> |links| == multiset(category)[','] + 1
    ensures category != "" ==> forall i :: 0 <= i < |links| ==>
      links[i].text == Trim(Split(category, ',')[i])
      && links[i].href == "category.html?cat=" + encode(links[i].text)
  {
    if category == "" then []
    else
      var texts := TrimmedPieces(category, ',');
      seq(|texts|, i requires 0 <= i < |texts| => Link(texts[i], "category.html?cat=" + encode(texts[i])))
  }

  /** Where a card's anchors point for a given URL slug. */
  function ArticleLink(slug: string): string {
    "articles/" + slug + ".html"
  }

  /** The category-page card (finance.js). */
  function FinanceCard(post: Post, clock: Clock, encode: string -> string): (c: Card)
    ensures c.image != "" && c.link != ""
    ensures post.Slug == "" ==> c.link == ArticleLink("#")
    ensures post.Slug != "" ==> c.link == ArticleLink(post.Slug)
    ensures post.DateTime != "" ==> c.dateLabel == TimeAgoAt(post.DateTime, clock)
    ensures post.DateTime == "" ==> c.dateLabel == TimeAgoAt(post.Date, clock)
    ensures c.categories == CategoryLinks(post.Category, encode)
    ensures c.image == ImageOrDefault(post.ImageURL)
    ensures c.readTime == post.ReadTime && c.title == post.Title && c.excerpt == post.Excerpt
  {
    Card(TimeAgoAt(Or(Or(post.DateTime, post.Date), ""), clock),
         Or(post.ReadTime, ""),
         ImageOrDefault(post.ImageURL),
         CategoryLinks(Or(post.Category, ""), encode),
         Or(post.Title, ""),
         Or(post.Excerpt, ""),
         ArticleLink(Or(post.Slug, "#")))
  }

  /** The home-page card (index.js): the slug is URL-encoded and only `DateTime` is dated. */
  function IndexCard(post: Post, clock: Clock, encode: string -> string): (c: Card)
    ensures c.image != ""
    ensures c.link == ArticleLink(encode(if post.Slug == "" then "#" else post.Slug))
    ensures c.dateLabel == TimeAgoAt(post.DateTime, clock)
    ensures post.DateTime == "" ==> c.dateLabel == ""
    ensures c.categories == CategoryLinks(post.Category, encode)
    ensures c.image == ImageOrDefault(post.ImageURL)
    ensures c.readTime == post.ReadTime && c.title == post.Title && c.excerpt == post.Excerpt
  {
    Card(TimeAgoAt(post.DateTime, clock),
         Or(post.ReadTime, ""),
         ImageOrDefault(post.ImageURL),
         CategoryLinks(Or(post.Category, ""), encode),
         Or(post.Title, ""),
         Or(post.Excerpt, ""),
         ArticleLink(encode(Or(post.Slug, "#"))))
  }

  /** The two pages build the same card from a post whose slug needs no encoding and that
      carries a `DateTime`. */
  lemma CardsAgree(post: Post, clock: Clock, encode: string -> string)
    requires post.DateTime != ""
    requires encode(Or(post.Slug, "#")) == Or(post.Slug, "#")
    ensures FinanceCard(post, clock, encode) == IndexCard(post, clock, encode)
  {
  }

  /** When no piece of the category string has white space around it, the shown category
      names joined with commas give the string back. */
  lemma CategoryNamesRejoin(category: string, encode: string -> string)
    requires category != ""
    requires forall i :: 0 <= i < |Split(category, ',')| ==> Trim(Split(category, ',')[i]) == Split(category, ',')[i]
    ensures Join(Texts(CategoryLinks(category, encode)), ",") == category
  {
    var links := CategoryLinks(category, encode);
    assert Texts(links) == Split(category, ',');
    JoinSplit(category, ',');
  }

  function Texts(links: seq<Link>): (texts: seq<string>)
    ensures |texts| == |links|
    ensures forall i :: 0 <= i < |links| ==> texts[i] == links[i].text
  {
    seq(|links|, i requires 0 <= i < |links| => links[i].text)
  }

  /** The cards of a run of posts, one per post and in order. */
  function FinanceCards(posts: seq<Post>, clock: Clock, encode: string -> string): (blocks: seq<Block>)
    ensures |blocks| == |posts|
    ensures forall i :: 0 <= i < |posts| ==> blocks[i] == CardBlock(FinanceCard(posts[i], clock, encode))
  {
    seq(|posts|, i requires 0 <= i < |posts| => CardBlock(FinanceCard(posts[i], clock, encode)))
  }

  function IndexCards(posts: seq<Post>, clock: Clock, encode: string -> string): (blocks: seq<Block>)
    ensures |blocks| == |posts|
    ensures forall i :: 0 <= i < |posts| ==> blocks[i] == CardBlock(IndexCard(posts[i], clock, encode))
  {
    seq(|posts|, i requires 0 <= i < |posts| => CardBlock(IndexCard(posts[i], clock, encode)))
  }

  /** Rendering two runs one after the other renders their concatenation. */
  lemma FinanceCardsAppend(a: seq<Post>, b: seq<Post>, clock: Clock, encode: string -> string)
    ensures FinanceCards(a + b, clock, encode) == FinanceCards(a, clock, encode) + FinanceCards(b, clock, encode)
  {
    var whole, left, right := FinanceCards(a + b, clock, encode), FinanceCards(a, clock, encode), FinanceCards(b, clock, encode);
    forall i | 0 <= i < |whole|
      ensures whole[i] == (left + right)[i]
    {
      if i < |a| {
        assert (a + b)[i] == a[i];
      } else {
        assert (a + b)[i] == b[i - |a|];
      }
    }
  }

  lemma IndexCardsAppend(a: seq<Post>, b: seq<Post>, clock: Clock, encode: string -> string)
    ensures IndexCards(a + b, clock, encode) == IndexCards(a, clock, encode) + IndexCards(b, clock, encode)
  {
    var whole, left, right := IndexCards(a + b, clock, encode), IndexCards(a, clock, encode), IndexCards(b, clock, encode);
    forall i | 0 <= i < |whole|
      ensures whole[i] == (left + right)[i]
    {
      if i < |a| {
        assert (a + b)[i] == a[i];
      } else {
        assert (a + b)[i] == b[i - |a|];
      }
    }
  }
}
