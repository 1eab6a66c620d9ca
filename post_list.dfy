/**
 * The home feed (`PostList`): a paged window onto the posts, newest first,
 * that grows by infinite scroll and is kept current by a live change feed.
 * The backend query and the change subscription are not modelled; a fetch
 * reply and a change payload are inputs.
 */
module Feed {

  import opened Common
  import Keyed

  /** Rows requested per page. */
  const PostsPerPage: nat := 10

  /** A feed post, as the `Posts` table returns it. */
  datatype Post = Post(id: string, title: string, description: string, createdAt: string)

  /** The id a post is keyed by. */
  function PostId(p: Post): string { p.id }

  // ------------------------------------------------------------- paging

  /** An inclusive row range, `.range(from, to)`. */
  datatype Window = Window(from: int, to: int)

  /** The rows requested for page `pageNum`: `pageNum * 10` through `pageNum * 10 + 9`. */
  function PageWindow(pageNum: nat): (w: Window)
    ensures w.from == pageNum * PostsPerPage && w.from >= 0
    ensures w.to - w.from + 1 == PostsPerPage
  {
    var from := pageNum * PostsPerPage;
    Window(from, from + PostsPerPage - 1)
  }

  /** Consecutive pages tile the rows: each page starts right after the previous one ends. */
  lemma PagesTile(pageNum: nat)
    ensures PageWindow(pageNum).to + 1 == PageWindow(pageNum + 1).from
  {
  }

  /** What the feed shows: the posts, whether more pages may exist, and whether a fetch is outstanding. */
  datatype FeedView = FeedView(posts: seq<Post>, hasMore: bool, loading: bool)

  /**
   * The view after a fetch started from `v` receives `reply`. An error stops
   * loading and keeps the list; rows are appended to the list or replace it,
   * and a short page (fewer than 10 rows) means there is nothing more. A reply
   * with neither rows nor an error, or one that throws, leaves loading set.
   */
  function Fetched(v: FeedView, append: bool, reply: Reply<Option<seq<Post>>>): (r: FeedView)
  {
    match reply
    case Err => v.(loading := false)
    case Threw => v.(loading := true)
    case Ok(None) => v.(loading := true)
    case Ok(Some(rows)) =>
      FeedView(if append then v.posts + rows else rows,
               if |rows| < PostsPerPage then false else v.hasMore,
               false)
  }

  /** A fetch that fails keeps the list and the has-more flag. */
  lemma FetchErrorKeepsList(v: FeedView, append: bool)
    ensures Fetched(v, append, Err).posts == v.posts
    ensures Fetched(v, append, Err).hasMore == v.hasMore
    ensures !Fetched(v, append, Err).loading
  {
  }

  /**
   * A page of rows: appended, the old list is an unchanged prefix followed by
   * the rows in order; otherwise the rows replace the list. Loading ends.
   */
  lemma FetchPageMerges(v: FeedView, append: bool, rows: seq<Post>)
    ensures var r := Fetched(v, append, Ok(Some(rows)));
      !r.loading &&
      (append ==> |r.posts| == |v.posts| + |rows| && r.posts[..|v.posts|] == v.posts && r.posts[|v.posts|..] == rows) &&
      (!append ==> r.posts == rows)
  {
    var r := Fetched(v, append, Ok(Some(rows)));
    if append {
      assert r.posts[..|v.posts|] == v.posts;
      assert r.posts[|v.posts|..] == rows;
    }
  }

  /** A short page clears the has-more flag; a full page leaves it as it was. */
  lemma FetchPageHasMore(v: FeedView, append: bool, rows: seq<Post>)
    ensures Fetched(v, append, Ok(Some(rows))).hasMore == (|rows| >= PostsPerPage && v.hasMore)
  {
  }

  /** The infinite-scroll sentinel asks for the next page only when it is visible, more may exist and nothing is loading. */
  predicate ShouldAdvance(isIntersecting: bool, v: FeedView) {
    isIntersecting && v.hasMore && !v.loading
  }

  // ------------------------------------------------------- live changes

  /** A live change of the `Posts` table, as the subscription delivers it. */
  datatype Change = Insert(newRow: Post) | Update(newRow: Post) | Delete(oldRow: Post)

  /**
   * The list after a change: an INSERT goes to the front unless its id is
   * already listed, an UPDATE replaces every post with its id, a DELETE drops
   * every post with its id.
   */
  function ApplyChange(posts: seq<Post>, c: Change): (r: seq<Post>)
    ensures c.Insert? && Keyed.HasKey(posts, PostId, c.newRow.id) ==> r == posts
    ensures c.Insert? && !Keyed.HasKey(posts, PostId, c.newRow.id) ==> r == [c.newRow] + posts
    ensures c.Update? ==> |r| == |posts| && Keyed.Keys(r, PostId) == Keyed.Keys(posts, PostId)
    ensures c.Update? ==> forall i :: 0 <= i < |posts| ==>
      r[i] == if posts[i].id == c.newRow.id then c.newRow else posts[i]
    ensures c.Delete? ==> !Keyed.HasKey(r, PostId, c.oldRow.id)
    ensures c.Delete? ==> forall i :: 0 <= i < |posts| && posts[i].id != c.oldRow.id ==> posts[i] in r
  {
    match c
    case Insert(p) => Keyed.PrependIfNew(posts, PostId, p)
    case Update(p) => Keyed.ReplaceKeepsKeys(posts, PostId, p); Keyed.ReplaceByKey(posts, PostId, p)
    case Delete(p) => Keyed.RemoveByKey(posts, PostId, p.id)
  }

  /** The view after a change: every INSERT, even of a post already listed, sets has-more again. */
  function Changed(v: FeedView, c: Change): (r: FeedView)
    ensures r.posts == ApplyChange(v.posts, c) && r.loading == v.loading
    ensures r.hasMore == (c.Insert? || v.hasMore)
  {
    v.(posts := ApplyChange(v.posts, c), hasMore := if c.Insert? then true else v.hasMore)
  }

  /** No change ever makes an id appear twice in a list that had distinct ids. */
  lemma ChangeKeepsDistinct(posts: seq<Post>, c: Change)
    requires Keyed.DistinctKeys(posts, PostId)
    ensures Keyed.DistinctKeys(ApplyChange(posts, c), PostId)
  {
    match c
    case Insert(p) => Keyed.PrependKeepsDistinct(posts, PostId, p);
    case Update(p) => Keyed.ReplaceKeepsKeys(posts, PostId, p);
    case Delete(p) => Keyed.RemoveKeepsDistinct(posts, PostId, p.id);
  }

  /** A DELETE works on each part of the list separately, so the posts that stay keep their order. */
  lemma DeleteKeepsOrder(a: seq<Post>, b: seq<Post>, p: Post)
    ensures ApplyChange(a + b, Delete(p)) == ApplyChange(a, Delete(p)) + ApplyChange(b, Delete(p))
  {
    Keyed.RemoveConcat(a, b, PostId, p.id);
  }

  /** A post inserted live and then deleted leaves the list as it was. */
  lemma InsertThenDelete(posts: seq<Post>, p: Post)
    requires !Keyed.HasKey(posts, PostId, p.id)
    ensures ApplyChange(ApplyChange(posts, Insert(p)), Delete(p)) == posts
  {
    Keyed.PrependThenRemove(posts, PostId, p);
  }

  /** Deleting an id that is not listed, or updating one, changes nothing. */
  lemma AbsentIdUntouched(posts: seq<Post>, p: Post)
    requires !Keyed.HasKey(posts, PostId, p.id)
    ensures ApplyChange(posts, Delete(p)) == posts
    ensures ApplyChange(posts, Update(p)) == posts
  {
    Keyed.RemoveAbsent(posts, PostId, p.id);
    Keyed.ReplaceAbsent(posts, PostId, p);
  }

  // -------------------------------------------------------- the component

  /** The component's state: `post`, `loading`, `page` and `hasMore`. */
  class PostList {
    var posts: seq<Post>
    var loading: bool
    var page: nat
    var hasMore: bool

    /** The part of the state a fetch or a change rewrites. */
    function View(): FeedView
      reads this
    {
      FeedView(posts, hasMore, loading)
    }

    /** An empty feed on page 0 that assumes more posts exist. */
    constructor ()
      ensures posts == [] && !loading && page == 0 && hasMore
    {
      posts, loading, page, hasMore := [], false, 0, true;
    }

    /**
     * `fetchPosts(pageNum, append)`: set loading, request the page's window,
     * then react to the reply. Returns the window that was requested.
     */
    method FetchPosts(pageNum: nat, append: bool, reply: Reply<Option<seq<Post>>>) returns (requested: Window)
      modifies this
      ensures requested == PageWindow(pageNum)
      ensures View() == Fetched(old(View()), append, reply)
      ensures page == old(page)
    {
      loading := true;
      requested := PageWindow(pageNum);
      match reply {
        case Err =>
          loading := false;
        case Threw =>
        case Ok(data) =>
          if data.Some? {
            var rows := data.value;
            if |rows| < PostsPerPage {
              hasMore := false;
            }
            if append {
              posts := posts + rows;
            } else {
              posts := rows;
            }
            loading := false;
          }
      }
    }

    /**
     * The intersection observer's callback: when the sentinel is visible, more
     * may exist and nothing is loading, advance `page` by one and append that
     * page; otherwise do nothing. Returns the window requested, if any.
     */
    method OnIntersect(isIntersecting: bool, reply: Reply<Option<seq<Post>>>) returns (requested: Option<Window>)
      modifies this
      ensures ShouldAdvance(isIntersecting, old(View())) ==>
        page == old(page) + 1 && requested == Some(PageWindow(page))
        && View() == Fetched(old(View()), true, reply)
      ensures !ShouldAdvance(isIntersecting, old(View())) ==>
        requested == None && page == old(page) && View() == old(View())
    {
      if isIntersecting && hasMore && !loading {
        var nextPage := page + 1;
        page := nextPage;
        var w := FetchPosts(nextPage, true, reply);
        requested := Some(w);
      } else {
        requested := None;
      }
    }

    /** The change subscription's callback. */
    method OnChange(c: Change)
      modifies this
      ensures View() == Changed(old(View()), c)
      ensures page == old(page)
    {
      match c {
        case Insert(p) =>
          posts := Keyed.PrependIfNew(posts, PostId, p);
          hasMore := true;
        case Update(p) =>
          posts := Keyed.ReplaceByKey(posts, PostId, p);
        case Delete(p) =>
          posts := Keyed.RemoveByKey(posts, PostId, p.id);
      }
    }
  }
}
