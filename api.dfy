/**
 * The fan-site API client (src/api.rs) over an abstract HTTP layer: a server is a function
 * from a URL to what the HTTP layer delivers for it (a decoded response envelope, or a
 * transport error). Modelled are the envelope classification of `fetch`, the sequential
 * next-URL walk of `get_post_comments` and the gathering of post pages in `get_posts`.
 */
module Api {
  import opened Wrappers
  import opened Strings
  import Seqs

  /** The client's errors: one from the HTTP layer, a rejected session, or any other API error. */
  datatype ApiError = Transport(detail: String) | InvalidSession | InvalidResponse(error: String)

  /** `FanboxAPIResponse<T>`: an optional body, and an error string that is empty when absent. */
  datatype Envelope<T> = Envelope(body: Option<T>, error: String)

  /** A server answers each URL with a decoded envelope or a transport error. */
  type Server<T> = String -> Result<Envelope<T>, ApiError>

  /**
   * `fetch`: a transport error is passed on; an envelope with a body yields the body,
   * whatever its error field says; without a body, `general_error` means the session
   * was rejected and any other error string is reported as it is.
   */
  function Fetch<T>(response: Result<Envelope<T>, ApiError>): (r: Result<T, ApiError>)
    ensures r.Ok? <==> response.Ok? && response.value.body.Some?
    ensures r.Ok? ==> r.value == response.value.body.value
    ensures response.Err? ==> r == Err(response.error)
    ensures response.Ok? && r.Err? ==>
      (r.error == InvalidSession <==> response.value.error == "general_error")
    ensures response.Ok? && r.Err? && response.value.error != "general_error" ==>
      r.error == InvalidResponse(response.value.error)
  {
    match response
    case Err(e) => Err(e)
    case Ok(envelope) =>
      match envelope.body
      case Some(body) => Ok(body)
      case None =>
        if envelope.error == "general_error" then Err(InvalidSession)
        else Err(InvalidResponse(envelope.error))
  }

  // ---------------------------------------------------------------------------
  // Comment pages
  // ---------------------------------------------------------------------------

  /** One page of comments and the URL of the next page, if any. */
  datatype CommentList<C> = CommentList(items: seq<C>, nextUrl: Option<String>)

  /** `PostComments`: the comment list is absent when there is nothing (more) to list. */
  datatype PostComments<C> = PostComments(commentList: Option<CommentList<C>>)

  const CommentsEndpoint: String := "https://api.fanbox.cc/post.getComments?postId="

  /** The first page of a post's comments, ten to a page. */
  function FirstCommentsUrl(postId: String): (url: String)
    ensures CommentsEndpoint <= url
    ensures |url| == |CommentsEndpoint| + |postId| + 9
    ensures url[|CommentsEndpoint|..|url| - 9] == postId && url[|url| - 9..] == "&limit=10"
  {
    CommentsEndpoint + postId + "&limit=10"
  }

  /**
   * The URLs a walk fetched, in order, and how it ended: `None` when the fetch budget ran
   * out with pages left, otherwise the comments gathered or the error that stopped it.
   */
  datatype Walk<C> = Walk(fetched: seq<String>, outcome: Option<Result<seq<C>, ApiError>>)

  /** The walk that fetched `urls` and gathered `items` first, then went on as `w`. */
  function Prepend<C>(urls: seq<String>, items: seq<C>, w: Walk<C>): (r: Walk<C>)
    ensures r.fetched == urls + w.fetched
    ensures w.outcome.Some? && w.outcome.value.Ok? ==> r.outcome == Some(Ok(items + w.outcome.value.value))
    ensures !(w.outcome.Some? && w.outcome.value.Ok?) ==> r.outcome == w.outcome
  {
    Walk(urls + w.fetched,
         if w.outcome.Some? && w.outcome.value.Ok? then Some(Ok(items + w.outcome.value.value))
         else w.outcome)
  }

  lemma PrependAssociative<C>(u1: seq<String>, i1: seq<C>, u2: seq<String>, i2: seq<C>, w: Walk<C>)
    ensures Prepend(u1, i1, Prepend(u2, i2, w)) == Prepend(u1 + u2, i1 + i2, w)
  {
    assert u1 + (u2 + w.fetched) == (u1 + u2) + w.fetched;
    if w.outcome.Some? && w.outcome.value.Ok? {
      assert i1 + (i2 + w.outcome.value.value) == (i1 + i2) + w.outcome.value.value;
    }
  }

  /**
   * The walk from `next`, allowed `fuel` more fetches: stop when there is no next URL;
   * otherwise fetch it, stop on an error, stop (keeping what was gathered) when the page
   * has no comment list, and otherwise keep its items and follow its `next_url`.
   */
  function WalkFrom<C>(server: Server<PostComments<C>>, next: Option<String>, fuel: nat): (w: Walk<C>)
    ensures |w.fetched| <= fuel
    ensures w.fetched == [] <==> next.None? || fuel == 0
    ensures w.fetched != [] ==> w.fetched[0] == next.value
    ensures w.outcome.None? ==> next.Some? && |w.fetched| == fuel
    decreases fuel
  {
    match next
    case None => Walk([], Some(Ok([])))
    case Some(url) =>
      if fuel == 0 then Walk([], None)
      else
        match Fetch(server(url))
        case Err(e) => Walk([url], Some(Err(e)))
        case Ok(page) =>
          match page.commentList
          case None => Walk([url], Some(Ok([])))
          case Some(list) => Prepend([url], list.items, WalkFrom(server, list.nextUrl, fuel - 1))
  }

  /** `get_post_comments(id, comment_count)`: a post without comments is answered without a fetch. */
  function CommentsWalk<C>(postId: String, commentCount: nat, server: Server<PostComments<C>>, fuel: nat): (w: Walk<C>)
    ensures commentCount == 0 ==> w == Walk([], Some(Ok([])))
    ensures commentCount > 0 && fuel > 0 ==> w.fetched != [] && w.fetched[0] == FirstCommentsUrl(postId)
  {
    if commentCount == 0 then Walk([], Some(Ok([])))
    else WalkFrom(server, Some(FirstCommentsUrl(postId)), fuel)
  }

  /** The comments one response contributes: its items, or none. */
  function ItemsOf<C>(response: Result<Envelope<PostComments<C>>, ApiError>): seq<C> {
    match Fetch(response)
    case Ok(page) => if page.commentList.Some? then page.commentList.value.items else []
    case Err(_) => []
  }

  function PageItems<C>(server: Server<PostComments<C>>): String -> seq<C> {
    (url: String) => ItemsOf(server(url))
  }

  /** A finished walk returns the items of the pages it fetched, concatenated in fetch order. */
  lemma {:induction false} WalkConcatenatesPages<C>(server: Server<PostComments<C>>, next: Option<String>, fuel: nat)
    requires WalkFrom(server, next, fuel).outcome.Some? && WalkFrom(server, next, fuel).outcome.value.Ok?
    ensures WalkFrom(server, next, fuel).outcome.value.value
      == Seqs.Flatten(Seqs.Map(WalkFrom(server, next, fuel).fetched, PageItems(server)))
    decreases fuel
  {
    var w := WalkFrom(server, next, fuel);
    if next.Some? {
      var url := next.value;
      var page := Fetch(server(url)).value;
      if page.commentList.Some? {
        var list := page.commentList.value;
        var rest := WalkFrom(server, list.nextUrl, fuel - 1);
        WalkConcatenatesPages(server, list.nextUrl, fuel - 1);
        Seqs.MapConcat([url], rest.fetched, PageItems(server));
        assert Seqs.Map([url], PageItems(server)) == [list.items];
        assert Seqs.Flatten([list.items] + Seqs.Map(rest.fetched, PageItems(server)))
          == list.items + Seqs.Flatten(Seqs.Map(rest.fetched, PageItems(server)));
      } else {
        assert Seqs.Map([url], PageItems(server)) == [[]];
      }
    }
  }

  /**
   * A walk that ended in an error stopped at the fetch that failed, and every fetch before
   * it succeeded.
   */
  lemma {:induction false} WalkAbortsOnError<C>(server: Server<PostComments<C>>, next: Option<String>, fuel: nat)
    requires WalkFrom(server, next, fuel).outcome.Some? && WalkFrom(server, next, fuel).outcome.value.Err?
    ensures var w := WalkFrom(server, next, fuel);
      |w.fetched| > 0 && Fetch(server(w.fetched[|w.fetched| - 1])) == Err(w.outcome.value.error)
      && forall i :: 0 <= i < |w.fetched| - 1 ==> Fetch(server(w.fetched[i])).Ok?
    decreases fuel
  {
    var url := next.value;
    var response := Fetch(server(url));
    if response.Ok? {
      var list := response.value.commentList.value;
      var rest := WalkFrom(server, list.nextUrl, fuel - 1);
      WalkAbortsOnError(server, list.nextUrl, fuel - 1);
      var w := WalkFrom(server, next, fuel);
      assert w.fetched == [url] + rest.fetched;
      assert forall i :: 1 <= i < |w.fetched| ==> w.fetched[i] == rest.fetched[i - 1];
    }
  }

  /** Each fetch after the first follows the `next_url` of the page fetched before it. */
  lemma {:induction false} WalkFollowsNextUrl<C>(server: Server<PostComments<C>>, next: Option<String>, fuel: nat, i: nat)
    requires i + 1 < |WalkFrom(server, next, fuel).fetched|
    ensures var w := WalkFrom(server, next, fuel);
      && Fetch(server(w.fetched[i])).Ok?
      && Fetch(server(w.fetched[i])).value.commentList.Some?
      && Fetch(server(w.fetched[i])).value.commentList.value.nextUrl == Some(w.fetched[i + 1])
    decreases fuel
  {
    var url := next.value;
    var list := Fetch(server(url)).value.commentList.value;
    var rest := WalkFrom(server, list.nextUrl, fuel - 1);
    var w := WalkFrom(server, next, fuel);
    assert w.fetched == [url] + rest.fetched;
    if i == 0 {
      assert rest.fetched[0] == list.nextUrl.value;
    } else {
      WalkFollowsNextUrl(server, list.nextUrl, fuel - 1, i - 1);
    }
  }

  /** A budget that sufficed is never too small: more fuel gives the same walk. */
  lemma {:induction false} WalkFuelSuffices<C>(server: Server<PostComments<C>>, next: Option<String>, fuel: nat)
    requires WalkFrom(server, next, fuel).outcome.Some?
    ensures WalkFrom(server, next, fuel + 1) == WalkFrom(server, next, fuel)
    decreases fuel
  {
    if next.Some? {
      var response := Fetch(server(next.value));
      if response.Ok? && response.value.commentList.Some? {
        WalkFuelSuffices(server, response.value.commentList.value.nextUrl, fuel - 1);
      }
    }
  }

  /**
   * `get_post_comments`: the `while let Some(url) = next_url` loop, with at most `fuel`
   * fetches. It returns the URLs fetched and the outcome (`None` when the budget ran out).
   */
  method GetPostComments<C>(postId: String, commentCount: nat, server: Server<PostComments<C>>, fuel: nat)
    returns (fetched: seq<String>, r: Option<Result<seq<C>, ApiError>>)
    ensures Walk(fetched, r) == CommentsWalk(postId, commentCount, server, fuel)
    ensures commentCount == 0 ==> fetched == [] && r == Some(Ok([]))
  {
    fetched := [];
    if commentCount == 0 {
      return [], Some(Ok([]));
    }
    var nextUrl: Option<String> := Some(FirstCommentsUrl(postId));
    var comments: seq<C> := [];
    var budget := fuel;
    ghost var start := WalkFrom(server, nextUrl, budget);
    assert Prepend(fetched, comments, start).fetched == start.fetched;
    if start.outcome.Some? && start.outcome.value.Ok? {
      assert comments + start.outcome.value.value == start.outcome.value.value;
    }
    while nextUrl.Some?
      invariant Prepend(fetched, comments, WalkFrom(server, nextUrl, budget))
        == CommentsWalk(postId, commentCount, server, fuel)
      decreases budget
    {
      if budget == 0 {
        return fetched, None;
      }
      var url := nextUrl.value;
      var response := Fetch(server(url));
      if response.Err? {
        return fetched + [url], Some(Err(response.error));
      }
      var page := response.value;
      if page.commentList.None? {
        fetched := fetched + [url];
        assert WalkFrom(server, Some(url), budget) == Walk([url], Some(Ok([])));
        assert comments + [] == comments;
        break;
      }
      var list := page.commentList.value;
      PrependAssociative(fetched, comments, [url], list.items, WalkFrom(server, list.nextUrl, budget - 1));
      fetched := fetched + [url];
      comments := comments + list.items;
      nextUrl := list.nextUrl;
      budget := budget - 1;
    }
    assert comments + [] == comments;
    return fetched, Some(Ok(comments));
  }

  // ---------------------------------------------------------------------------
  // Post pages
  // ---------------------------------------------------------------------------

  const PaginateEndpoint: String := "https://api.fanbox.cc/post.paginateCreator?creatorId="

  /** `try_collect`: the values in order when every result is `Ok`, else the first error. */
  function TryCollect<T>(rs: seq<Result<T, ApiError>>): (r: Result<seq<T>, ApiError>)
    ensures r.Ok? <==> forall i :: 0 <= i < |rs| ==> rs[i].Ok?
    ensures r.Ok? ==> |r.value| == |rs| && forall i :: 0 <= i < |rs| ==> rs[i] == Ok(r.value[i])
    ensures r.Err? ==> exists i :: 0 <= i < |rs| && rs[i] == Err(r.error) && forall j :: 0 <= j < i ==> rs[j].Ok?
  {
    if rs == [] then Ok([])
    else
      match rs[0]
      case Err(e) => Err(e)
      case Ok(v) =>
        var rest := TryCollect(rs[1..]);
        assert forall i :: 1 <= i < |rs| ==> rs[i] == rs[1..][i - 1];
        match rest
        case Err(e) =>
          assert exists i :: 0 <= i < |rs| && rs[i] == Err(e) && forall j :: 0 <= j < i ==> rs[j].Ok? by {
            var i :| 0 <= i < |rs[1..]| && rs[1..][i] == Err(e) && forall j :: 0 <= j < i ==> rs[1..][j].Ok?;
            assert rs[i + 1] == Err(e);
          }
          Err(e)
        case Ok(vs) => Ok([v] + vs)
  }

  /** The result of fetching one page of posts. */
  function PageResult<P>(pages: Server<seq<P>>): String -> Result<seq<P>, ApiError> {
    (url: String) => Fetch(pages(url))
  }

  /** The posts a page result contributes: its list, or none when it failed. */
  function ValueOr<P>(r: Result<seq<P>, ApiError>): seq<P> {
    if r.Ok? then r.value else []
  }

  /**
   * `get_posts(creator)`: the page URLs are fetched first (an error there is the result),
   * then every page; `completed` is the page results in the order the tasks finished,
   * the same results as one per URL in some order. Any failed page fails the call;
   * otherwise the pages' posts are concatenated in completion order.
   */
  function GetPosts<P>(creatorId: String, paginate: Server<seq<String>>, pages: Server<seq<P>>,
                       completed: seq<Result<seq<P>, ApiError>>): (r: Result<seq<P>, ApiError>)
    requires Fetch(paginate(PaginateEndpoint + creatorId)).Ok? ==>
      multiset(completed) == multiset(Seqs.Map(Fetch(paginate(PaginateEndpoint + creatorId)).value, PageResult(pages)))
    ensures Fetch(paginate(PaginateEndpoint + creatorId)).Err? ==>
      r == Err(Fetch(paginate(PaginateEndpoint + creatorId)).error)
    ensures r.Err? && Fetch(paginate(PaginateEndpoint + creatorId)).Ok? ==> Err(r.error) in completed
  {
    match Fetch(paginate(PaginateEndpoint + creatorId))
    case Err(e) => Err(e)
    case Ok(urls) =>
      match TryCollect(completed)
      case Err(e) => Err(e)
      case Ok(lists) => Ok(Seqs.Flatten(lists))
  }

  /**
   * Whatever order the pages finished in, `get_posts` succeeds exactly when the listing and
   * every page succeed, and then returns the posts of all pages: the same multiset as the
   * pages' lists concatenated in URL order.
   */
  lemma GetPostsIsUnionOfPages<P>(creatorId: String, paginate: Server<seq<String>>, pages: Server<seq<P>>,
                                  completed: seq<Result<seq<P>, ApiError>>)
    requires Fetch(paginate(PaginateEndpoint + creatorId)).Ok?
    requires multiset(completed)
      == multiset(Seqs.Map(Fetch(paginate(PaginateEndpoint + creatorId)).value, PageResult(pages)))
    ensures var urls := Fetch(paginate(PaginateEndpoint + creatorId)).value;
      GetPosts(creatorId, paginate, pages, completed).Ok? <==>
        forall i :: 0 <= i < |urls| ==> Fetch(pages(urls[i])).Ok?
    ensures var urls := Fetch(paginate(PaginateEndpoint + creatorId)).value;
      GetPosts(creatorId, paginate, pages, completed).Ok? ==>
        multiset(GetPosts(creatorId, paginate, pages, completed).value)
        == multiset(Seqs.Flatten(Seqs.Map(Seqs.Map(urls, PageResult(pages)), ValueOr)))
  {
    var urls := Fetch(paginate(PaginateEndpoint + creatorId)).value;
    var inOrder := Seqs.Map(urls, PageResult(pages));
    assert forall i :: 0 <= i < |urls| ==> inOrder[i] == Fetch(pages(urls[i]));
    CollectPermuted(completed, inOrder);
  }

  /**
   * Collecting the page results in any order of the same results succeeds exactly when
   * every result is `Ok`, and then holds the same posts as the results' lists in order.
   */
  lemma CollectPermuted<P>(completed: seq<Result<seq<P>, ApiError>>, inOrder: seq<Result<seq<P>, ApiError>>)
    requires multiset(completed) == multiset(inOrder)
    ensures TryCollect(completed).Ok? <==> forall i :: 0 <= i < |inOrder| ==> inOrder[i].Ok?
    ensures TryCollect(completed).Ok? ==>
      multiset(Seqs.Flatten(TryCollect(completed).value)) == multiset(Seqs.Flatten(Seqs.Map(inOrder, ValueOr)))
  {
    forall i | 0 <= i < |inOrder| ensures inOrder[i] in completed {
      assert inOrder[i] in multiset(inOrder);
    }
    forall i | 0 <= i < |completed| ensures completed[i] in inOrder {
      assert completed[i] in multiset(completed);
    }
    var collected := TryCollect(completed);
    if collected.Ok? {
      var lists := collected.value;
      assert lists == Seqs.Map(completed, ValueOr);
      Seqs.MapPermutation(completed, inOrder, ValueOr);
      Seqs.FlattenPermutation(lists, Seqs.Map(inOrder, ValueOr));
    } else {
      var k :| 0 <= k < |completed| && completed[k] == Err(collected.error);
      var i :| 0 <= i < |inOrder| && inOrder[i] == completed[k];
    }
  }
}
