/**
 * The saved-posts page: the posts the user bookmarked, with a like toggle on
 * each (the set of liked ids and the per-post counts change optimistically and
 * are put back if `toggle_like` reports an error) and an unsave action that
 * drops a post once the backend has deleted the bookmark.
 */
module SavedPosts {

  import opened Common
  import Keyed

  /** A saved post as `get_user_saved_posts` returns it (the fields this page reads). */
  datatype SavedPost = SavedPost(
    id: string, title: string, description: string,
    images: Option<seq<string>>, linkUrl: Option<string>,
    userName: Option<string>, userEmail: Option<string>,
    userAvatarUrl: Option<string>, userCustomAvatarUrl: Option<string>,
    likesCount: Option<int>, commentsCount: Option<int>)

  /** The id a saved post is keyed by. */
  function SavedPostId(p: SavedPost): string { p.id }

  // ------------------------------------------------------------ like set

  /** The liked-id set after a click on `id`: `id` leaves the set if it was in it and joins it if not. */
  function ToggledLike(likes: set<string>, id: string): (r: set<string>)
    ensures id in r <==> id !in likes
    ensures forall k :: k != id ==> (k in r <==> k in likes)
  {
    if id in likes then likes - {id} else likes + {id}
  }

  /** Clicking the same post twice gives back the liked set. */
  lemma ToggleTwice(likes: set<string>, id: string)
    ensures ToggledLike(ToggledLike(likes, id), id) == likes
  {
  }

  // ---------------------------------------------------------- like counts

  /** A change to one post's like count: move it by `d`, or take the server's value. */
  datatype CountEdit = Shift(d: int) | Overwrite(n: int)

  /** The count after an edit; a shift reads a missing count as 0. */
  function Edited(count: Option<int>, e: CountEdit): Option<int> {
    match e
    case Shift(d) => Shifted(count, d)
    case Overwrite(n) => Some(n)
  }

  /** `posts.map(p => p.id === id ? {...p, likes_count: edit(p.likes_count)} : p)`. */
  function EditLikes(posts: seq<SavedPost>, id: string, e: CountEdit): (r: seq<SavedPost>)
    ensures |r| == |posts|
    ensures forall i :: 0 <= i < |posts| ==>
      r[i] == if posts[i].id == id then posts[i].(likesCount := Edited(posts[i].likesCount, e)) else posts[i]
  {
    if posts == [] then []
    else
      [if posts[0].id == id then posts[0].(likesCount := Edited(posts[0].likesCount, e)) else posts[0]]
      + EditLikes(posts[1..], id, e)
  }

  /** Editing a count keeps the list's ids, in order. */
  lemma EditKeepsIds(posts: seq<SavedPost>, id: string, e: CountEdit)
    ensures Keyed.Keys(EditLikes(posts, id, e), SavedPostId) == Keyed.Keys(posts, SavedPostId)
  {
  }

  /**
   * Moving a post's count by `d` and back by `-d` gives back every post:
   * the others unchanged, the clicked ones with the count they read as.
   */
  lemma ShiftThenUnshift(posts: seq<SavedPost>, id: string, d: int)
    ensures var r := EditLikes(EditLikes(posts, id, Shift(d)), id, Shift(-d));
      |r| == |posts| &&
      forall i :: 0 <= i < |posts| ==>
        r[i] == if posts[i].id == id then posts[i].(likesCount := Some(CountOrZero(posts[i].likesCount))) else posts[i]
  {
    var mid := EditLikes(posts, id, Shift(d));
    var r := EditLikes(mid, id, Shift(-d));
    forall i | 0 <= i < |posts|
      ensures r[i] == if posts[i].id == id then posts[i].(likesCount := Some(CountOrZero(posts[i].likesCount))) else posts[i]
    {
      if posts[i].id == id {
        ShiftBack(posts[i].likesCount, d);
      }
    }
  }

  // ------------------------------------------------------------- the click

  /** The liked set and the saved list. */
  datatype SavedView = SavedView(likes: set<string>, posts: seq<SavedPost>)

  /** The optimistic step of a click on `id`. */
  function Optimistic(v: SavedView, id: string): SavedView {
    SavedView(ToggledLike(v.likes, id), EditLikes(v.posts, id, Shift(LikeDelta(id in v.likes))))
  }

  /**
   * The liked set and the list after a click on `id` once `toggle_like`
   * replies. An error puts the liked set back and moves the counts back; a
   * success keeps the toggled set and takes the server's count when it sent
   * one. An exception is only logged: the optimistic state stays.
   */
  function LikeClicked(v: SavedView, id: string, reply: Reply<seq<LikeRow>>): (r: SavedView)
    ensures |r.posts| == |v.posts|
    ensures forall i :: 0 <= i < |v.posts| && v.posts[i].id != id ==> r.posts[i] == v.posts[i]
    ensures reply.Err? ==> r.likes == v.likes
    ensures !reply.Err? ==> r.likes == ToggledLike(v.likes, id)
    ensures reply.Threw? ==> r == Optimistic(v, id)
  {
    var wasLiked := id in v.likes;
    var pending := Optimistic(v, id);
    match reply
    case Err => SavedView(v.likes, EditLikes(pending.posts, id, Shift(-LikeDelta(wasLiked))))
    case Ok(rows) =>
      if |rows| > 0 then pending.(posts := EditLikes(pending.posts, id, Overwrite(rows[0].likesCount)))
      else pending
    case Threw => pending
  }

  /**
   * After an error the clicked post is as it was except that a missing count
   * now reads 0, and the list keeps its ids in order.
   */
  lemma LikeErrorRestores(v: SavedView, id: string)
    ensures var r := LikeClicked(v, id, Err);
      Keyed.Keys(r.posts, SavedPostId) == Keyed.Keys(v.posts, SavedPostId) &&
      forall i :: 0 <= i < |v.posts| && v.posts[i].id == id ==>
        r.posts[i] == v.posts[i].(likesCount := Some(CountOrZero(v.posts[i].likesCount)))
  {
    var d := LikeDelta(id in v.likes);
    ShiftThenUnshift(v.posts, id, d);
    EditKeepsIds(v.posts, id, Shift(d));
    EditKeepsIds(EditLikes(v.posts, id, Shift(d)), id, Shift(-d));
  }

  /** A success with a row shows the server's count on every post with the clicked id. */
  lemma LikeServerCount(v: SavedView, id: string, rows: seq<LikeRow>)
    requires |rows| > 0
    ensures forall i :: 0 <= i < |v.posts| && v.posts[i].id == id ==>
      LikeClicked(v, id, Ok(rows)).posts[i].likesCount == Some(rows[0].likesCount)
  {
  }

  /**
   * A success without a row, or an exception, leaves the optimistic count:
   * one more than before for a post that was not liked, one less for one that was.
   */
  lemma LikeOptimisticCount(v: SavedView, id: string, reply: Reply<seq<LikeRow>>)
    requires reply.Threw? || (reply.Ok? && |reply.data| == 0)
    ensures forall i :: 0 <= i < |v.posts| && v.posts[i].id == id ==>
      CountOrZero(LikeClicked(v, id, reply).posts[i].likesCount)
        == CountOrZero(v.posts[i].likesCount) + (if id in v.likes then -1 else 1)
  {
  }

  // ---------------------------------------------------------- image preview

  /** One preview tile: the image and, on the last tile of a longer list, the "+k" count of hidden images. */
  datatype Tile = Tile(url: string, more: Option<nat>)

  /** At most this many images are previewed. */
  const MaxPreview: nat := 4

  /**
   * The preview grid: the first four images in order; only the fourth tile,
   * and only when there are more than four images, carries `+(n - 4)`.
   */
  function PreviewTiles(images: seq<string>): (r: seq<Tile>)
    ensures |r| == if |images| < MaxPreview then |images| else MaxPreview
    ensures forall i :: 0 <= i < |r| ==> r[i].url == images[i]
    ensures forall i :: 0 <= i < |r| ==> (r[i].more.Some? <==> i == 3 && |images| > MaxPreview)
    ensures forall i :: 0 <= i < |r| && r[i].more.Some? ==> |r| + r[i].more.value == |images|
  {
    var n := |images|;
    var shown := if n < MaxPreview then n else MaxPreview;
    seq(shown, i requires 0 <= i < shown => Tile(images[i], if n > MaxPreview && i == 3 then Some(n - MaxPreview) else None))
  }

  // --------------------------------------------------------------- toasts

  /** The warning a signed-out click on a heart shows (a `toast.warning`, modelled as a failure notice). */
  const LoginToLike := "Please login to like posts"

  /**
   * The toast after an unsave: an error reply shows one; a success removes
   * the post silently and an exception is only logged.
   */
  function UnsaveNotice(reply: Reply<()>): (n: Option<Notice>)
    ensures n.Some? <==> reply.Err?
    ensures n.Some? ==> n.value == Failure("Failed to remove from saved posts")
  {
    if reply.Err? then Some(Failure("Failed to remove from saved posts")) else None
  }

  // -------------------------------------------------------------- the page

  /** The page's state that the two handlers touch. */
  class SavedPostsPage {
    var savedPosts: seq<SavedPost>
    var userLikes: set<string>
    var currentUserId: Option<string>

    /** The liked set and the list. */
    function View(): SavedView
      reads this
    {
      SavedView(userLikes, savedPosts)
    }

    /** A page before anything has loaded. */
    constructor ()
      ensures savedPosts == [] && userLikes == {} && currentUserId.None?
    {
      savedPosts, userLikes, currentUserId := [], {}, None;
    }

    /**
     * `handleLikeClick(postId)`. Without a signed-in user nothing changes
     * and the login warning shows. Otherwise the optimistic state is shown
     * while the call is out (returned as `pending`), the reply then settles
     * it, and no toast shows.
     */
    method HandleLikeClick(postId: string, reply: Reply<seq<LikeRow>>)
      returns (pending: Option<SavedView>, notice: Option<Notice>)
      modifies this
      ensures !Truthy(old(currentUserId)) ==>
        pending.None? && notice == Some(Failure(LoginToLike)) && View() == old(View())
      ensures Truthy(old(currentUserId)) ==>
        pending == Some(Optimistic(old(View()), postId)) && notice.None?
        && View() == LikeClicked(old(View()), postId, reply)
      ensures currentUserId == old(currentUserId)
    {
      if !Truthy(currentUserId) {
        return None, Some(Failure(LoginToLike));
      }
      notice := None;
      var wasLiked := postId in userLikes;
      var snapshot := userLikes;
      var newLikes := userLikes;
      if wasLiked {
        newLikes := newLikes - {postId};
      } else {
        newLikes := newLikes + {postId};
      }
      userLikes := newLikes;
      savedPosts := EditLikes(savedPosts, postId, Shift(LikeDelta(wasLiked)));
      pending := Some(View());
      match reply {
        case Err =>
          userLikes := snapshot;
          savedPosts := EditLikes(savedPosts, postId, Shift(-LikeDelta(wasLiked)));
        case Ok(rows) =>
          if |rows| > 0 {
            savedPosts := EditLikes(savedPosts, postId, Overwrite(rows[0].likesCount));
          }
        case Threw =>
      }
    }

    /**
     * `handleUnsavePost(postId)`. Without a signed-in user nothing changes; once
     * the bookmark is deleted, every post with that id leaves the list and the
     * others keep their order; on an error or an exception the list stays.
     * Returns the toast shown.
     */
    method HandleUnsavePost(postId: string, reply: Reply<()>) returns (notice: Option<Notice>)
      modifies this
      ensures Truthy(old(currentUserId)) && reply.Ok? ==>
        savedPosts == Keyed.RemoveByKey(old(savedPosts), SavedPostId, postId)
      ensures !Truthy(old(currentUserId)) || reply.Failed() ==> savedPosts == old(savedPosts)
      ensures notice == if Truthy(old(currentUserId)) then UnsaveNotice(reply) else None
      ensures userLikes == old(userLikes) && currentUserId == old(currentUserId)
    {
      if !Truthy(currentUserId) {
        return None;
      }
      notice := None;
      match reply {
        case Ok(_) =>
          savedPosts := Keyed.RemoveByKey(savedPosts, SavedPostId, postId);
        case Err =>
          notice := Some(Failure("Failed to remove from saved posts"));
        case Threw =>
      }
    }
  }
}
