/**
 * The home page (index.js): posts are requested from the service a page of ten at a time.
 * The first page replaces the container's contents, every later page is appended, and the
 * "load more" button is hidden for good as soon as a page comes back short.
 */
module HomePage {
  import opened RelativeTime
  import opened Posts

  const BatchSize: nat := 10
  const NoPostsMessage := "No posts found."

  /** What `res.json()` yields: an array of posts, `null`, another falsy value (`""`, `0` or
      `false`, which `renderPosts` treats as no posts and whose `length` reads without
      throwing), or some other value (an object such as an error report), which has no
      `length` and no `map`. */
  datatype JsonValue = PostList(posts: seq<Post>) | Null | Falsy | OtherValue

  /** How a page request ends: the fetch or the parse throws, or a JSON value arrives. */
  datatype PageReply = RequestFailed | Json(value: JsonValue)

  /** `fetchPosts(page)`: a request that throws is reported as an empty page. */
  function Fetched(reply: PageReply): (v: JsonValue)
    ensures reply.RequestFailed? ==> v == PostList([])
    ensures reply.Json? ==> v == reply.value
  {
    match reply
    case RequestFailed => PostList([])
    case Json(value) => value
  }

  class HomeFeed {
    const encode: string -> string
    var currentPage: nat
    /** The contents of `#articles-container`. */
    var container: seq<Block>
    var loaderPresent: bool
    var buttonHidden: bool
    var buttonDisabled: bool
    /** `init` has run. */
    var initialised: bool
    /** A `loadMore` is waiting for its page. */
    var loading: bool
    /** The page numbers requested so far, in request order. */
    ghost var requested: seq<nat>

    constructor (encode: string -> string, page: seq<Block>, hidden: bool)
      ensures this.encode == encode
      ensures currentPage == 0 && container == page && loaderPresent && buttonHidden == hidden
      ensures !buttonDisabled && !initialised && !loading && requested == []
      ensures Valid()
    {
      this.encode := encode;
      currentPage := 0;
      container := page;
      loaderPresent := true;
      buttonHidden := hidden;
      buttonDisabled := false;
      initialised := false;
      loading := false;
      requested := [];
    }

    /** The user can press "load more": the page is set up and the button is visible and
        enabled. */
    predicate Clickable()
      reads this
    {
      initialised && !buttonHidden && !buttonDisabled
    }

    /** Pages are requested as 0, 1, 2, ... and the counter names the next one to request
        whenever the button can be pressed; while a page is awaited the button is disabled. */
    ghost predicate Valid()
      reads this
    {
      && (forall i :: 0 <= i < |requested| ==> requested[i] == i)
      && (!initialised ==> requested == [] && currentPage == 0 && !loading)
      && (loading ==> buttonDisabled && currentPage + 1 == |requested|)
      && (Clickable() ==> currentPage == |requested|)
    }

    /** `renderPosts(posts, append)` for an array of posts, or no posts for a falsy value; the
        cards are labelled at `clock`, the time of this call. It only ever hides the button,
        so what `Valid` says of the counter stays true. */
    method RenderPosts(posts: seq<Post>, append: bool, clock: Clock)
      modifies this`container, this`loaderPresent, this`buttonHidden
      ensures old(Valid()) ==> Valid()
      ensures old(buttonHidden) ==> buttonHidden
      ensures !loaderPresent
      ensures posts == [] ==> buttonHidden && container == (if append then old(container) else [Heading(NoPostsMessage)])
      ensures posts != [] ==>
        buttonHidden == old(buttonHidden)
        && container == (if append then old(container) else []) + IndexCards(posts, clock, encode)
    {
      loaderPresent := false;
      if posts == [] {
        if !append {
          container := [Heading(NoPostsMessage)];
        }
        buttonHidden := true;
      } else {
        var cards := IndexCards(posts, clock, encode);
        if !append {
          container := cards;
        } else {
          container := container + cards;
        }
      }
    }

    /** `init`: request page 0 and replace the container by its cards, or by a message when
        there are none (an empty array or another falsy value); a short page hides the
        button. `null` makes the length check throw
        and any other non-array makes the card building throw: the container then shows
        the error message and the button is hidden. */
    method Init(reply: PageReply, clock: Clock)
      requires Valid() && !initialised
      modifies this
      ensures Valid() && initialised && !loading && requested == [0]
      ensures !loaderPresent && buttonDisabled == old(buttonDisabled)
      ensures old(buttonHidden) ==> buttonHidden
      ensures Fetched(reply).PostList? ==>
        currentPage == 1
        && container == (if Fetched(reply).posts == [] then [Heading(NoPostsMessage)] else IndexCards(Fetched(reply).posts, clock, encode))
        && (|Fetched(reply).posts| < BatchSize ==> buttonHidden)
        && (|Fetched(reply).posts| >= BatchSize ==> buttonHidden == old(buttonHidden))
      ensures Fetched(reply) == Falsy ==> currentPage == 1 && container == [Heading(NoPostsMessage)] && buttonHidden
      ensures Fetched(reply) == Null || Fetched(reply) == OtherValue ==>
        currentPage == 0 && container == [Heading(ErrorMessage)] && buttonHidden
    {
      requested := requested + [currentPage];
      initialised := true;
      match Fetched(reply)
      case PostList(posts) =>
        RenderPosts(posts, false, clock);
        if |posts| < BatchSize {
          buttonHidden := true;
        }
        currentPage := 1;
      case Falsy =>
        RenderPosts([], false, clock);
        currentPage := 1;
      case Null =>
        RenderPosts([], false, clock);
        container := [Heading(ErrorMessage)];
        buttonHidden := true;
      case OtherValue =>
        loaderPresent := false;
        container := [Heading(ErrorMessage)];
        buttonHidden := true;
    }

    /** A click on "load more", up to the request: the button is disabled and the page the
        counter names, the next page never requested before, is requested. */
    method BeginLoadMore()
      requires Valid() && Clickable()
      modifies this`buttonDisabled, this`loading, this`requested
      ensures Valid() && loading && buttonDisabled && !Clickable()
      ensures requested == old(requested) + [|old(requested)|]
    {
      buttonDisabled := true;
      requested := requested + [currentPage];
      loading := true;
    }

    /** The rest of `loadMore`, once its page has arrived: the cards are appended, a short
        page hides the button, the counter advances and the button is enabled again; a falsy
        reply other than `null` appends nothing and hides the button. When
        the reply is not an array the call throws part-way: the counter does not advance and
        the button stays disabled. */
    method FinishLoadMore(reply: PageReply, clock: Clock)
      requires Valid() && loading
      modifies this`container, this`loaderPresent, this`buttonHidden, this`buttonDisabled, this`currentPage, this`loading
      ensures Valid() && !loading && !loaderPresent
      ensures old(buttonHidden) ==> buttonHidden
      ensures |container| >= |old(container)| && container[..|old(container)|] == old(container)
      ensures Fetched(reply).PostList? ==>
        container == old(container) + IndexCards(Fetched(reply).posts, clock, encode)
        && (|Fetched(reply).posts| < BatchSize ==> buttonHidden)
        && (|Fetched(reply).posts| >= BatchSize ==> buttonHidden == old(buttonHidden))
        && currentPage == old(currentPage) + 1 && !buttonDisabled
      ensures Fetched(reply) == Falsy ==> container == old(container) && buttonHidden && currentPage == old(currentPage) + 1 && !buttonDisabled
      ensures Fetched(reply) == Null ==> container == old(container) && buttonHidden && currentPage == old(currentPage) && buttonDisabled
      ensures Fetched(reply) == OtherValue ==> container == old(container) && buttonHidden == old(buttonHidden) && currentPage == old(currentPage) && buttonDisabled
    {
      loading := false;
      match Fetched(reply)
      case PostList(posts) =>
        RenderPosts(posts, true, clock);
        if |posts| < BatchSize {
          buttonHidden := true;
        }
        currentPage := currentPage + 1;
        buttonDisabled := false;
      case Falsy =>
        RenderPosts([], true, clock);
        currentPage := currentPage + 1;
        buttonDisabled := false;
      case Null =>
        RenderPosts([], true, clock);
      case OtherValue =>
        loaderPresent := false;
    }
  }
}
