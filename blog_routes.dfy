/**
 * The blog routes: the post list, which never fails because it falls back to
 * the fixed fallback post, the lookup of one post by id among the first 50,
 * and the health check. The service object is the request's dependency and
 * is passed in.
 */
module BlogRoutes {
  import opened Wrappers
  import opened Json
  import opened BlogService

  const DefaultMaxResults: int := 10
  const LookupMaxResults: int := 50
  const PostNotFound: string := "Blog post not found"

  /** The route's answer: on a service error the fallback posts, otherwise the service's result. */
  function ChoosePosts(fetched: ServiceResult, now: string): (r: ServiceResult)
    ensures r.Success?
    ensures fetched.Error? ==> r == GetFallbackPosts(now)
    ensures fetched.Success? ==> r == fetched
  {
    if fetched.Error? then GetFallbackPosts(now) else fetched
  }

  /** `GET /blog/posts?max_results=n` (n defaults to 10 when the query leaves it out). */
  method GetBlogPosts(service: BlogService, maxResults: Option<int>, transport: Request -> HttpOutcome,
                      unescape: string -> string, parseDate: string -> Option<string>, now: string)
    returns (r: ServiceResult)
    ensures var n := if maxResults.Some? then maxResults.value else DefaultMaxResults;
      r == ChoosePosts(service.Fetch(n, transport, unescape, parseDate, now), now)
  {
    var n := if maxResults.Some? then maxResults.value else DefaultMaxResults;
    var result := service.FetchBlogPosts(n, transport, unescape, parseDate, now);
    if result.Error? {
      r := GetFallbackPosts(now);
    } else {
      r := result;
    }
  }

  /** The list route always answers with success; it is the fallback exactly when the fetch failed. */
  lemma PostsAlwaysSucceed(service: BlogService, n: int, transport: Request -> HttpOutcome,
                           unescape: string -> string, parseDate: string -> Option<string>, now: string)
    ensures var f := service.Fetch(n, transport, unescape, parseDate, now);
      var r := ChoosePosts(f, now);
      && r.Success?
      && (r.data.isFallback == Some(true) <==> f.Error?)
      && (!service.Configured() ==> r == GetFallbackPosts(now))
  {
    var f := service.Fetch(n, transport, unescape, parseDate, now);
    if f.Success? {
      service.FetchSuccessCount(n, transport, unescape, parseDate, now);
    }
  }

  /** The outcome of the lookup route: the post, or an HTTP error with its detail. */
  datatype PostLookup = Found(post: ProcessedPost) | HttpError(status: int, detail: string)

  /** The position of the first post whose id equals the requested id. */
  function FirstIndexWithId(posts: seq<ProcessedPost>, postId: string): (r: Option<nat>)
    ensures r.None? ==> forall k :: 0 <= k < |posts| ==> posts[k].id != JStr(postId)
    ensures r.Some? ==> r.value < |posts| && posts[r.value].id == JStr(postId)
                        && forall j :: 0 <= j < r.value ==> posts[j].id != JStr(postId)
  {
    if posts == [] then None
    else if posts[0].id == JStr(postId) then Some(0)
    else match FirstIndexWithId(posts[1..], postId)
      case None => None
      case Some(k) => Some(k + 1)
  }

  /** The first post whose id equals the requested id, as a generator search with a None default. */
  function FirstWithId(posts: seq<ProcessedPost>, postId: string): (r: Option<ProcessedPost>)
    ensures r.None? ==> forall k :: 0 <= k < |posts| ==> posts[k].id != JStr(postId)
    ensures r.Some? ==> exists k :: 0 <= k < |posts| && posts[k] == r.value && r.value.id == JStr(postId)
                                     && forall j :: 0 <= j < k ==> posts[j].id != JStr(postId)
  {
    match FirstIndexWithId(posts, postId)
    case None => None
    case Some(k) => Some(posts[k])
  }

  /** The lookup answer for a given fetch result. */
  function LookupIn(fetched: ServiceResult, postId: string): PostLookup {
    if fetched.Error? then HttpError(404, PostNotFound)
    else match FirstWithId(fetched.data.posts, postId)
      case Some(p) => Found(p)
      case None => HttpError(404, PostNotFound)
  }

  /** `GET /blog/posts/{post_id}`: a search among the first 50 posts. */
  method GetBlogPostById(service: BlogService, postId: string, transport: Request -> HttpOutcome,
                         unescape: string -> string, parseDate: string -> Option<string>, now: string)
    returns (r: PostLookup)
    ensures r == LookupIn(service.Fetch(LookupMaxResults, transport, unescape, parseDate, now), postId)
  {
    var result := service.FetchBlogPosts(LookupMaxResults, transport, unescape, parseDate, now);
    if result.Error? {
      return HttpError(404, PostNotFound);
    }
    var post := FirstWithId(result.data.posts, postId);
    if post.None? {
      return HttpError(404, PostNotFound);
    }
    r := Found(post.value);
  }

  /**
   * The lookup finds a post exactly when the fetch succeeded with a post of that id, and then the
   * first such post; every other case is a 404. The fallback post is never searched.
   */
  lemma LookupFacts(fetched: ServiceResult, postId: string)
    ensures var r := LookupIn(fetched, postId);
      && (r.Found? <==> fetched.Success? && exists k :: 0 <= k < |fetched.data.posts| && fetched.data.posts[k].id == JStr(postId))
      && (r.Found? ==> r.post.id == JStr(postId) && r.post in fetched.data.posts)
      && (r.HttpError? ==> r == HttpError(404, PostNotFound))
  {
    if fetched.Success? {
      var posts := fetched.data.posts;
      if FirstWithId(posts, postId).Some? {
        var k :| 0 <= k < |posts| && posts[k] == FirstWithId(posts, postId).value
                 && FirstWithId(posts, postId).value.id == JStr(postId)
                 && forall j :: 0 <= j < k ==> posts[j].id != JStr(postId);
        assert posts[k].id == JStr(postId);
      }
    }
  }

  datatype Health = Health(status: string, service: string, timestamp: string)

  /** `GET /blog/health`. */
  function HealthCheck(now: string): (h: Health)
    ensures h.status == "healthy" && h.service == "blog" && h.timestamp == now
  {
    Health("healthy", "blog", now)
  }
}
