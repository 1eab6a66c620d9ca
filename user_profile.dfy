/**
 * Another user's profile page: the follow toggle with its follower count, the
 * friend-request button, which of the action buttons are shown, and the
 * header's avatar, initials and name for a profile that may not have loaded.
 */
module UserProfile {

  import opened Common
  import opened Display

  /** The profile as `get_user_profile` returns it (the fields this page reads). */
  datatype Profile = Profile(
    id: string, name: Option<string>, email: Option<string>,
    avatarUrl: Option<string>, customAvatarUrl: Option<string>)

  // ------------------------------------------------------------ who is who

  /** `currentUserId === userId`: a signed-in viewer whose id is the route's. */
  predicate IsOwnProfile(currentUserId: Option<string>, userId: Option<string>) {
    currentUserId.Some? && userId.Some? && currentUserId.value == userId.value
  }

  /** The guard of both handlers, `!currentUserId || currentUserId === userId` negated: they act only for a signed-in visitor. */
  predicate CanAct(currentUserId: Option<string>, userId: Option<string>) {
    Truthy(currentUserId) && !IsOwnProfile(currentUserId, userId)
  }

  /** The Follow / Add Friend row is rendered when `!isOwnProfile && currentUserId`. */
  predicate ActionsVisible(currentUserId: Option<string>, userId: Option<string>) {
    !IsOwnProfile(currentUserId, userId) && Truthy(currentUserId)
  }

  /** "Add Friend" is rendered inside that row unless the two are friends already. */
  predicate AddFriendVisible(currentUserId: Option<string>, userId: Option<string>, isFriend: bool) {
    ActionsVisible(currentUserId, userId) && !isFriend
  }

  /** The buttons are on screen exactly when pressing them does something. */
  lemma VisibleIffActs(currentUserId: Option<string>, userId: Option<string>)
    ensures ActionsVisible(currentUserId, userId) <==> CanAct(currentUserId, userId)
  {
  }

  /** `user && user.id !== userId`: friendship and follow status are looked up for a signed-in viewer of someone else's profile. */
  predicate QueriesRelationship(viewerId: Option<string>, userId: Option<string>) {
    viewerId.Some? && (userId.None? || viewerId.value != userId.value)
  }

  /** The status is looked up exactly when the viewer is signed in and the profile is not theirs. */
  lemma QueriesIffOther(viewerId: Option<string>, userId: Option<string>)
    ensures QueriesRelationship(viewerId, userId) <==> viewerId.Some? && !IsOwnProfile(viewerId, userId)
  {
  }

  // ---------------------------------------------------------------- follow

  /** The follow button's state and the follower counter. */
  datatype FollowView = FollowView(following: bool, followers: int)

  /**
   * The state after a follow click whose delete or insert got `reply`: on
   * success the button flips and the counter moves by one the same way; on
   * an error (rethrown) or an exception, which both land in the catch,
   * nothing changes.
   */
  function FollowToggled(v: FollowView, reply: Reply<()>): (r: FollowView)
    ensures reply.Ok? ==> r.following == !v.following
    ensures reply.Ok? && v.following ==> r.followers == v.followers - 1
    ensures reply.Ok? && !v.following ==> r.followers == v.followers + 1
    ensures reply.Failed() ==> r == v
  {
    if reply.Failed() then v
    else if v.following then FollowView(false, v.followers - 1)
    else FollowView(true, v.followers + 1)
  }

  /** Following and then unfollowing (or the reverse), both succeeding, gives back the button and the counter. */
  lemma TwoTogglesRestore(v: FollowView)
    ensures FollowToggled(FollowToggled(v, Ok(())), Ok(())) == v
  {
  }

  /** The toast of a follow click. */
  function FollowNotice(wasFollowing: bool, reply: Reply<()>): (n: Notice)
    ensures n.Success? <==> reply.Ok?
    ensures reply.Failed() ==> n.text == "Failed to update follow status"
  {
    if reply.Failed() then Failure("Failed to update follow status")
    else if wasFollowing then Success("Unfollowed successfully")
    else Success("Followed successfully")
  }

  /** The toast of a friend request. */
  function AddFriendNotice(reply: Reply<()>): (n: Notice)
    ensures n.Success? <==> reply.Ok?
  {
    if reply.Failed() then Failure("Failed to send friend request") else Success("Friend request sent!")
  }

  // ------------------------------------------------------------ the header

  /** The profile's name, or none before it has loaded (`userProfile?.name`). */
  function NameOf(p: Option<Profile>): Option<string> {
    if p.Some? then p.value.name else None
  }

  /** The profile's email, or none before it has loaded (`userProfile?.email`). */
  function EmailOf(p: Option<Profile>): Option<string> {
    if p.Some? then p.value.email else None
  }

  /** `getAvatarUrl()`: the shared avatar choice on the loaded profile; no profile, no avatar. */
  function HeaderAvatar(p: Option<Profile>): (r: Option<string>)
    ensures p.None? ==> r.None?
    ensures p.Some? ==> r == AvatarUrl(p.value.avatarUrl, p.value.customAvatarUrl)
  {
    if p.None? then None else AvatarUrl(p.value.avatarUrl, p.value.customAvatarUrl)
  }

  /** `getUserInitials()`: initials of `name || email || "User"`; before the profile loads they are "U". */
  function HeaderInitials(p: Option<Profile>): (r: string)
    ensures |r| <= 2 && Text.IsUpperCased(r)
    ensures p.None? ==> r == "U"
    ensures p.Some? ==> r == ProfileInitials(p.value.name, p.value.email)
  {
    ProfileInitials(NameOf(p), EmailOf(p))
  }

  /** `getDisplayName()`: the name, else the email's local part, else "Anonymous User", which also shows before the profile loads. */
  function HeaderName(p: Option<Profile>): (r: string)
    ensures r != ""
    ensures p.None? ==> r == AnonymousUser
    ensures p.Some? ==> r == DisplayName(p.value.name, p.value.email, AnonymousUser)
  {
    DisplayName(NameOf(p), EmailOf(p), AnonymousUser)
  }

  // -------------------------------------------------------------- the page

  /** The page's state that the two handlers touch. */
  class UserProfilePage {
    var currentUserId: Option<string>
    var userId: Option<string>
    var isFriend: bool
    var isFollowing: bool
    var followersCount: int
    var isAddingFriend: bool
    var isTogglingFollow: bool

    /** The follow button and the counter. */
    function Follow(): FollowView
      reads this
    {
      FollowView(isFollowing, followersCount)
    }

    /** The page for route id `userId` before anything has loaded. */
    constructor (userId: Option<string>)
      ensures this.userId == userId && currentUserId.None?
      ensures !isFriend && !isFollowing && followersCount == 0 && !isAddingFriend && !isTogglingFollow
    {
      this.userId := userId;
      currentUserId := None;
      isFriend, isFollowing, followersCount := false, false, 0;
      isAddingFriend, isTogglingFollow := false, false;
    }

    /**
     * `handleFollow()`. For a visitor who cannot act nothing happens.
     * Otherwise the button shows its busy state while the call is out
     * (`toggling`), the reply settles the follow state, and the busy state
     * ends whatever the outcome.
     */
    method HandleFollow(reply: Reply<()>) returns (toggling: bool, notice: Option<Notice>)
      modifies this
      ensures !CanAct(currentUserId, userId) ==>
        !toggling && notice.None? && Follow() == old(Follow()) && isTogglingFollow == old(isTogglingFollow)
      ensures CanAct(currentUserId, userId) ==>
        toggling && !isTogglingFollow && Follow() == FollowToggled(old(Follow()), reply)
        && notice == Some(FollowNotice(old(isFollowing), reply))
      ensures currentUserId == old(currentUserId) && userId == old(userId)
      ensures isFriend == old(isFriend) && isAddingFriend == old(isAddingFriend)
    {
      if !Truthy(currentUserId) || IsOwnProfile(currentUserId, userId) {
        return false, None;
      }
      isTogglingFollow := true;
      toggling := isTogglingFollow;
      if reply.Ok? {
        if isFollowing {
          isFollowing := false;
          followersCount := followersCount - 1;
          notice := Some(Success("Unfollowed successfully"));
        } else {
          isFollowing := true;
          followersCount := followersCount + 1;
          notice := Some(Success("Followed successfully"));
        }
      } else {
        notice := Some(Failure("Failed to update follow status"));
      }
      isTogglingFollow := false;
    }

    /**
     * `handleAddFriend()`. For a visitor who cannot act nothing happens.
     * Otherwise the request is sent with the button busy (`adding`), and the
     * busy state ends whatever the outcome. The request is pending on the
     * server, so the page's friendship flag does not change.
     */
    method HandleAddFriend(reply: Reply<()>) returns (adding: bool, notice: Option<Notice>)
      modifies this
      ensures !CanAct(currentUserId, userId) ==> !adding && notice.None? && isAddingFriend == old(isAddingFriend)
      ensures CanAct(currentUserId, userId) ==> adding && !isAddingFriend && notice == Some(AddFriendNotice(reply))
      ensures Follow() == old(Follow()) && isFriend == old(isFriend) && isTogglingFollow == old(isTogglingFollow)
      ensures currentUserId == old(currentUserId) && userId == old(userId)
    {
      if !Truthy(currentUserId) || IsOwnProfile(currentUserId, userId) {
        return false, None;
      }
      isAddingFriend := true;
      adding := isAddingFriend;
      if reply.Ok? {
        notice := Some(Success("Friend request sent!"));
      } else {
        notice := Some(Failure("Failed to send friend request"));
      }
      isAddingFriend := false;
    }
  }
}
