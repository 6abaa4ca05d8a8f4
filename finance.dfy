/**
 * The category page (finance.js): the whole category is fetched once, reversed so that the
 * latest post comes first, and shown ten cards at a time behind a "load more" button.
 */
module CategoryPage {
  import opened Wrappers
  import opened RelativeTime
  import opened Posts

  const BatchSize: nat := 10

  /** The category named by the page's `<meta name="category">`, or "Finance" without one. */
  function CategoryName(meta: Option<string>): (c: string)
    ensures meta.Some? ==> c == meta.value
    ensures meta.None? ==> c == "Finance"
  {
    match meta
    case Some(content) => content
    case None => "Finance"
  }

  function NoPostsMessage(category: string): string {
    "No " + category + " posts found."
  }

  /** How the category request ends: the fetch or the JSON parse throws, the reply is not an
      array, or it is an array of posts. */
  datatype CategoryReply = FetchFailed | NotAnArray | PostArray(data: seq<Post>)

  function Min(a: nat, b: nat): nat {
    if a <= b then a else b
  }

  /** `s.reverse()`. */
  function Reverse<T>(s: seq<T>): (r: seq<T>)
    ensures |r| == |s|
    ensures forall i :: 0 <= i < |s| ==> r[i] == s[|s| - 1 - i]
  {
    seq(|s|, i requires 0 <= i < |s| => s[|s| - 1 - i])
  }

  lemma ReverseKeepsPosts<T>(s: seq<T>)
    ensures multiset(Reverse(s)) == multiset(s)
  {
    if s != [] {
      var r := Reverse(s);
      var t := s[..|s| - 1];
      assert r == [s[|s| - 1]] + Reverse(t);
      ReverseKeepsPosts(t);
      assert s == t + [s[|s| - 1]];
    }
  }

  /** `s.slice(start, end)` for non-negative bounds: both are clamped to the length. */
  function Slice<T>(s: seq<T>, start: nat, end: nat): (r: seq<T>)
    ensures |r| == if Min(start, |s|) <= Min(end, |s|) then Min(end, |s|) - Min(start, |s|) else 0
    ensures forall i :: 0 <= i < |r| ==> r[i] == s[start + i]
  {
    var lo, hi := Min(start, |s|), Min(end, |s|);
    if lo <= hi then s[lo..hi] else []
  }

  /** The next batch continues the shown prefix: after it, one batch more is shown, or all. */
  lemma SliceExtendsPrefix<T>(s: seq<T>, k: nat, size: nat)
    ensures s[..Min(k, |s|)] + Slice(s, k, k + size) == s[..Min(k + size, |s|)]
  {
  }

  /** `container` is `base` followed by one label for each of the first `n` posts, in
      order; post `i` is labelled at `stamps[i]`. */
  ghost predicate Labels<P, K, B>(container: seq<B>, base: seq<B>, posts: seq<P>, n: nat, stamps: seq<K>, labelOf: (P, K) -> B)
  {
    && n <= |posts| && |stamps| == n
    && |container| == |base| + n && container[..|base|] == base
    && forall i :: 0 <= i < n ==> container[|base| + i] == labelOf(posts[i], stamps[i])
  }

  /** Labelling the batch that starts at the cursor at one time and appending it extends the
      labelled prefix to the advanced cursor. */
  lemma LabelsExtend<P, K, B>(container: seq<B>, base: seq<B>, posts: seq<P>, k: nat, stamps: seq<K>,
                              labelOf: (P, K) -> B, batch: seq<B>, now: K)
    requires Labels(container, base, posts, Min(k, |posts|), stamps, labelOf)
    requires |batch| == |Slice(posts, k, k + BatchSize)|
    requires forall j :: 0 <= j < |batch| ==> batch[j] == labelOf(Slice(posts, k, k + BatchSize)[j], now)
    ensures Labels(container + batch, base, posts, Min(k + BatchSize, |posts|), stamps + seq(|batch|, _ => now), labelOf)
  {
    var slice := Slice(posts, k, k + BatchSize);
    var stamps' := stamps + seq(|batch|, _ => now);
    var n, n' := Min(k, |posts|), Min(k + BatchSize, |posts|);
    forall i | 0 <= i < n'
      ensures (container + batch)[|base| + i] == labelOf(posts[i], stamps'[i])
    {
      if i < n {
        assert (container + batch)[|base| + i] == container[|base| + i];
        assert stamps'[i] == stamps[i];
      } else {
        assert n == k && stamps'[i] == now;
        assert (container + batch)[|base| + i] == batch[i - n];
        assert slice[i - n] == posts[i];
      }
    }
    assert (container + batch)[..|base|] == container[..|base|];
  }

  /** The container shows `base`, then one card for each of the first `n` posts, each once
      and in order; the card of post `i` is labelled at `stamps[i]`, the time of the render
      that added it. */
  ghost predicate ShowsPrefix(container: seq<Block>, base: seq<Block>, posts: seq<Post>, n: nat,
                              stamps: seq<Clock>, encode: string -> string)
  {
    Labels(container, base, posts, n, stamps, (p, c) => CardBlock(FinanceCard(p, c, encode)))
  }

  /** Appending the batch that starts at the cursor, labelled at the time of this render, to
      a container that shows the posts before the cursor shows the posts before the advanced
      cursor, which is all of them once the cursor has passed the end. */
  lemma NextBatchShown(container: seq<Block>, base: seq<Block>, posts: seq<Post>, k: nat,
                       stamps: seq<Clock>, clock: Clock, encode: string -> string)
    requires ShowsPrefix(container, base, posts, Min(k, |posts|), stamps, encode)
    ensures ShowsPrefix(container + FinanceCards(Slice(posts, k, k + BatchSize), clock, encode), base, posts,
                        Min(k + BatchSize, |posts|), stamps + seq(|Slice(posts, k, k + BatchSize)|, _ => clock), encode)
  {
    LabelsExtend(container, base, posts, k, stamps, (p, c) => CardBlock(FinanceCard(p, c, encode)),
                 FinanceCards(Slice(posts, k, k + BatchSize), clock, encode), clock);
  }

  class CategoryFeed {
    const category: string
    const encode: string -> string
    var allPosts: seq<Post>
    var currentIndex: nat
    /** The contents of `#articles-container`. */
    var container: seq<Block>
    var loaderPresent: bool
    var buttonHidden: bool
    /** What the container held when the posts arrived: the cards are appended to it. */
    ghost var base: seq<Block>
    /** The time each card after `base` was labelled at: the time of the render that added it. */
    ghost var stamps: seq<Clock>

    /** The page as it loads: the container's initial contents and the button's initial
        visibility come from the HTML. */
    constructor (meta: Option<string>, encode: string -> string, page: seq<Block>, hidden: bool)
      ensures category == CategoryName(meta) && this.encode == encode
      ensures allPosts == [] && currentIndex == 0 && container == page && base == page && stamps == []
      ensures loaderPresent && buttonHidden == hidden
      ensures Shows()
    {
      category := CategoryName(meta);
      this.encode := encode;
      allPosts := [];
      currentIndex := 0;
      container := page;
      base := page;
      stamps := [];
      loaderPresent := true;
      buttonHidden := hidden;
    }

    /** The container holds what it held before the cards, then the first `currentIndex`
        posts (all of them once the index has passed the end), each once and in order. */
    ghost predicate Shows()
      reads this
    {
      ShowsPrefix(container, base, allPosts, Min(currentIndex, |allPosts|), stamps, encode)
    }

    /** `renderPosts`: append the next batch, labelled at the time of this call, advance the
        cursor by a batch, and hide the button exactly when the cursor has reached the end. */
    method RenderPosts(clock: Clock)
      modifies this
      ensures !loaderPresent
      ensures container == old(container) + FinanceCards(Slice(allPosts, old(currentIndex), old(currentIndex) + BatchSize), clock, encode)
      ensures currentIndex == old(currentIndex) + BatchSize
      ensures buttonHidden <==> currentIndex >= |allPosts|
      ensures allPosts == old(allPosts) && base == old(base)
      ensures stamps == old(stamps) + seq(|Slice(allPosts, old(currentIndex), currentIndex)|, _ => clock)
      ensures old(Shows()) ==> Shows()
      ensures old(Shows()) && buttonHidden ==> ShowsPrefix(container, base, allPosts, |allPosts|, stamps, encode)
    {
      ghost var shown := Shows();
      if shown {
        NextBatchShown(container, base, allPosts, currentIndex, stamps, clock, encode);
      }
      var batch := FinanceCards(Slice(allPosts, currentIndex, currentIndex + BatchSize), clock, encode);
      stamps := stamps + seq(|Slice(allPosts, currentIndex, currentIndex + BatchSize)|, _ => clock);
      loaderPresent, container, currentIndex, buttonHidden :=
        false, container + batch, currentIndex + BatchSize, currentIndex + BatchSize >= |allPosts|;
    }

    /** `fetchPosts`: a failed request or a reply without posts replaces the container by a
        message and hides the button; otherwise the posts are stored latest first and the
        first batch is rendered, at the time the reply arrives. */
    method FetchPosts(reply: CategoryReply, clock: Clock)
      modifies this
      ensures reply.FetchFailed? ==>
        container == [Heading(ErrorMessage)] && buttonHidden
        && allPosts == old(allPosts) && currentIndex == old(currentIndex) && loaderPresent == old(loaderPresent)
      ensures (reply.NotAnArray? || reply == PostArray([])) ==>
        container == [Heading(NoPostsMessage(category))] && buttonHidden
        && allPosts == old(allPosts) && currentIndex == old(currentIndex) && loaderPresent == old(loaderPresent)
      ensures reply.PostArray? && reply.data != [] ==>
        allPosts == Reverse(reply.data) && currentIndex == old(currentIndex) + BatchSize
        && !loaderPresent && (buttonHidden <==> currentIndex >= |allPosts|)
        && container == old(container) + FinanceCards(Slice(allPosts, old(currentIndex), currentIndex), clock, encode)
      ensures reply.PostArray? && reply.data != [] && old(currentIndex) == 0 ==>
        Shows() && container == old(container) + FinanceCards(allPosts[..Min(BatchSize, |allPosts|)], clock, encode)
    {
      match reply
      case FetchFailed =>
        container := [Heading(ErrorMessage)];
        buttonHidden := true;
      case NotAnArray =>
        container := [Heading(NoPostsMessage(category))];
        buttonHidden := true;
      case PostArray(data) =>
        if data == [] {
          container := [Heading(NoPostsMessage(category))];
          buttonHidden := true;
        } else {
          allPosts := Reverse(data);
          base := container;
          stamps := [];
          assert container[..|base|] == base;
          RenderPosts(clock);
        }
    }
  }
}
