/**
 * The post detail page: one post with its like toggle and its comment thread.
 * Liking is optimistic (the heart and the count change at once and are put
 * back if the `toggle_like` procedure fails); a comment is shown only once
 * the `add_comment` procedure has returned it.
 */
module PostDetail {

  import opened Common
  import opened Text

  /** The post as `get_post_detail` returns it (the fields this page reads). */
  datatype DetailPost = DetailPost(
    id: string, title: string, description: string,
    userName: Option<string>, userEmail: Option<string>,
    userAvatarUrl: Option<string>, userCustomAvatarUrl: Option<string>,
    likesCount: Option<int>, commentsCount: Option<int>)

  /** A comment as `get_post_comments` and `add_comment` return it. */
  datatype Comment = Comment(
    id: string, content: string, createdAt: string,
    userName: Option<string>, userEmail: Option<string>,
    userAvatarUrl: Option<string>, userCustomAvatarUrl: Option<string>)

  // --------------------------------------------------------------- likes

  /** The heart and the like count as the page shows them. */
  datatype LikeView = LikeView(liked: bool, likes: Option<int>)

  /** The optimistic step: flip the heart and move the count by one the same way. */
  function Optimistic(v: LikeView): (r: LikeView)
    ensures r.liked == !v.liked
    ensures CountOrZero(r.likes) == CountOrZero(v.likes) + (if v.liked then -1 else 1)
  {
    LikeView(!v.liked, Shifted(v.likes, LikeDelta(v.liked)))
  }

  /** The revert after a failure: the heart back to `wasLiked` and the count moved back by one. */
  function Reverted(v: LikeView, wasLiked: bool): LikeView {
    LikeView(wasLiked, Shifted(v.likes, -LikeDelta(wasLiked)))
  }

  /**
   * The like state after a click from `v` once the procedure's reply is in:
   * on failure the heart and the count are as before the click; on success
   * the heart is flipped, and the count is the server's if it sent a row and
   * the optimistic one otherwise.
   */
  function LikeClicked(v: LikeView, reply: Reply<seq<LikeRow>>): (r: LikeView)
    ensures reply.Failed() ==> r.liked == v.liked && CountOrZero(r.likes) == CountOrZero(v.likes)
    ensures reply.Ok? ==> r.liked == !v.liked
    ensures reply.Ok? && |reply.data| > 0 ==> r.likes == Some(reply.data[0].likesCount)
    ensures reply.Ok? && |reply.data| == 0 ==>
      CountOrZero(r.likes) == CountOrZero(v.likes) + LikeDelta(v.liked)
  {
    var pending := Optimistic(v);
    match reply
    case Ok(rows) => if |rows| > 0 then pending.(likes := Some(rows[0].likesCount)) else pending
    case _ => Reverted(pending, v.liked)
  }

  /** Applying the optimistic step and then its revert is the identity, up to a missing count now reading 0. */
  lemma OptimisticThenRevert(v: LikeView)
    ensures Reverted(Optimistic(v), v.liked) == LikeView(v.liked, Some(CountOrZero(v.likes)))
  {
    ShiftBack(v.likes, LikeDelta(v.liked));
  }

  /** Two successful clicks without a server count bring the heart and the count back. */
  lemma TwoClicksRestore(v: LikeView)
    ensures LikeClicked(LikeClicked(v, Ok([])), Ok([])) == LikeView(v.liked, Some(CountOrZero(v.likes)))
  {
  }

  // ------------------------------------------------------------ comments

  /** The thread and the comment box. */
  datatype CommentView = CommentView(comments: seq<Comment>, draft: string)

  /**
   * The thread after `add_comment` replies: a returned comment goes on top
   * and clears the box; an error, an exception or an empty reply leaves both
   * as they were.
   */
  function CommentPosted(v: CommentView, reply: Reply<seq<Comment>>): (r: CommentView)
    ensures !(reply.Ok? && |reply.data| > 0) ==> r == v
    ensures reply.Ok? && |reply.data| > 0 ==>
      |r.comments| == |v.comments| + 1 && r.comments[0] == reply.data[0]
      && r.comments[1..] == v.comments && r.draft == ""
  {
    match reply
    case Ok(rows) => if |rows| > 0 then CommentView([rows[0]] + v.comments, "") else v
    case _ => v
  }

  /** A comment is sent only with a non-blank box, a signed-in user and a post id in the route. */
  predicate CanComment(draft: string, currentUserId: Option<string>, postId: Option<string>) {
    !IsBlank(draft) && Truthy(currentUserId) && Truthy(postId)
  }


  // -------------------------------------------------------------- the page

  /** The page's state that the two handlers touch. */
  class PostDetailPage {
    var post: Option<DetailPost>
    var isLiked: bool
    var comments: seq<Comment>
    var newComment: string
    var isSubmittingComment: bool
    var currentUserId: Option<string>
    var postId: Option<string>

    /** The heart and the count, when a post is loaded. */
    function Likes(): LikeView
      reads this
      requires post.Some?
    {
      LikeView(isLiked, post.value.likesCount)
    }

    /** A page for route id `postId` before anything has loaded. */
    constructor (postId: Option<string>)
      ensures this.postId == postId && post.None? && currentUserId.None?
      ensures !isLiked && comments == [] && newComment == "" && !isSubmittingComment
    {
      this.postId := postId;
      post, currentUserId := None, None;
      isLiked, comments, newComment, isSubmittingComment := false, [], "", false;
    }

    /**
     * `handleLikeClick`. Without a signed-in user or a loaded post nothing
     * changes. Otherwise the optimistic state is shown while the call is out
     * (returned as `pending`) and the reply then settles the heart and the
     * count; nothing else on the post changes.
     */
    method HandleLikeClick(reply: Reply<seq<LikeRow>>) returns (pending: Option<LikeView>)
      modifies this
      ensures !Truthy(old(currentUserId)) || old(post).None? ==>
        pending.None? && post == old(post) && isLiked == old(isLiked)
      ensures Truthy(old(currentUserId)) && old(post).Some? ==>
        post.Some? && pending == Some(Optimistic(old(Likes())))
        && Likes() == LikeClicked(old(Likes()), reply)
        && post.value == old(post).value.(likesCount := post.value.likesCount)
      ensures comments == old(comments) && newComment == old(newComment)
      ensures currentUserId == old(currentUserId) && postId == old(postId)
      ensures isSubmittingComment == old(isSubmittingComment)
    {
      if !Truthy(currentUserId) || post.None? {
        return None;
      }
      var wasLiked := isLiked;
      isLiked := !wasLiked;
      post := Some(post.value.(likesCount := Shifted(post.value.likesCount, LikeDelta(wasLiked))));
      pending := Some(Likes());
      match reply {
        case Ok(rows) =>
          if |rows| > 0 {
            post := Some(post.value.(likesCount := Some(rows[0].likesCount)));
          }
        case _ =>
          isLiked := wasLiked;
          post := Some(post.value.(likesCount := Shifted(post.value.likesCount, -LikeDelta(wasLiked))));
      }
    }

    /**
     * `handleSubmitComment`. A blank box, no signed-in user or no post id
     * sends nothing and changes nothing. Otherwise the trimmed text is sent
     * (returned as `sent`); a returned comment is put on top, the box is
     * cleared and the post's comment count rises by one. The in-flight flag is
     * down again afterwards whatever the outcome.
     */
    method HandleSubmitComment(reply: Reply<seq<Comment>>) returns (sent: Option<string>)
      modifies this
      ensures !CanComment(old(newComment), currentUserId, postId) ==>
        sent.None? && comments == old(comments) && newComment == old(newComment) && post == old(post)
        && isSubmittingComment == old(isSubmittingComment)
      ensures CanComment(old(newComment), currentUserId, postId) ==>
        sent == Some(Trim(old(newComment))) && !isSubmittingComment
        && CommentView(comments, newComment) == CommentPosted(CommentView(old(comments), old(newComment)), reply)
        && (reply.Ok? && |reply.data| > 0 && old(post).Some? ==>
              post == Some(old(post).value.(commentsCount := Shifted(old(post).value.commentsCount, 1))))
        && (!(reply.Ok? && |reply.data| > 0) || old(post).None? ==> post == old(post))
      ensures isLiked == old(isLiked) && currentUserId == old(currentUserId) && postId == old(postId)
    {
      if IsBlank(newComment) || !Truthy(currentUserId) || !Truthy(postId) {
        return None;
      }
      isSubmittingComment := true;
      sent := Some(Trim(newComment));
      if reply.Ok? && |reply.data| > 0 {
        comments := [reply.data[0]] + comments;
        newComment := "";
        if post.Some? {
          post := Some(post.value.(commentsCount := Shifted(post.value.commentsCount, 1)));
        }
      }
      isSubmittingComment := false;
    }
  }
}
