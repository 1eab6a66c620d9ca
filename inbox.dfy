/**
 * The inbox: pending friend requests and the followers of the last thirty
 * days. Loading fetches both lists; answering a request (accept or reject)
 * drops it from the list once the procedure reports success, and marks it as
 * being processed while the call is out.
 */
module Inbox {

  import opened Common
  import Keyed
  import opened Display

  /** A pending friend request as `get_friend_requests` returns it. */
  datatype FriendRequest = FriendRequest(
    id: int, userId: string, friendId: string, status: string, createdAt: string,
    userName: string, userEmail: string,
    userAvatarUrl: Option<string>, userCustomAvatarUrl: Option<string>)

  /** The id a request is keyed by. */
  function RequestId(r: FriendRequest): int { r.id }

  /**
   * A follower as `get_user_followers` returns it. `followedAt` is the
   * follow time in milliseconds since the epoch, or `None` when the
   * timestamp does not parse.
   */
  datatype Follower = Follower(
    id: string, name: string, email: string,
    avatarUrl: Option<string>, customAvatarUrl: Option<string>,
    followedAt: Option<int>)

  // ----------------------------------------------------- recent followers

  /** Milliseconds in a day. */
  const DayMs: int := 86_400_000
  /** How far back a follower still counts as new. */
  const RecentDays: int := 30

  /** Thirty days before `now`. */
  function Cutoff(now: int): (t: int)
    ensures t < now
  {
    now - RecentDays * DayMs
  }

  /** Followed strictly after the cutoff; an unparsable time is never after it. */
  predicate IsRecent(f: Follower, now: int) {
    f.followedAt.Some? && f.followedAt.value > Cutoff(now)
  }

  /** `followers.filter(f => dayjs(f.followed_at).isAfter(thirtyDaysAgo))`. */
  function Recent(followers: seq<Follower>, now: int): (r: seq<Follower>)
    ensures |r| <= |followers|
    ensures forall i :: 0 <= i < |r| ==> r[i] in followers && IsRecent(r[i], now)
    ensures forall i :: 0 <= i < |followers| && IsRecent(followers[i], now) ==> followers[i] in r
  {
    if followers == [] then []
    else if IsRecent(followers[0], now) then [followers[0]] + Recent(followers[1..], now)
    else Recent(followers[1..], now)
  }

  /** The filter works piece by piece, so the followers kept stay in the server's order. */
  lemma {:induction false} RecentConcat(a: seq<Follower>, b: seq<Follower>, now: int)
    ensures Recent(a + b, now) == Recent(a, now) + Recent(b, now)
  {
    if a == [] {
      assert a + b == b;
    } else {
      assert (a + b)[1..] == a[1..] + b;
      RecentConcat(a[1..], b, now);
    }
  }

  /** Filtering an already filtered list changes nothing. */
  lemma {:induction false} RecentIdempotent(followers: seq<Follower>, now: int)
    ensures Recent(Recent(followers, now), now) == Recent(followers, now)
  {
    if followers != [] {
      RecentIdempotent(followers[1..], now);
      if IsRecent(followers[0], now) {
        assert ([followers[0]] + Recent(followers[1..], now))[1..] == Recent(followers[1..], now);
      }
    }
  }

  /** A later load keeps no more followers than an earlier one: whoever is new at `later` was new at `earlier`. */
  lemma RecentShrinksOverTime(followers: seq<Follower>, earlier: int, later: int)
    requires earlier <= later
    ensures forall i :: 0 <= i < |Recent(followers, later)| ==> Recent(followers, later)[i] in Recent(followers, earlier)
  {
  }

  // -------------------------------------------------------------- loading

  /** The two lists and the loading flag. */
  datatype InboxView = InboxView(requests: seq<FriendRequest>, followers: seq<Follower>, loading: bool)

  /**
   * `loadNotifications` once both replies are in, at time `now`. Each list is
   * replaced only when its call returned rows; an error or a missing result
   * keeps it. An exception in the first call skips the second. Loading ends
   * whatever happened.
   */
  function Loaded(v: InboxView, now: int,
                  requests: Reply<Option<seq<FriendRequest>>>,
                  followers: Reply<Option<seq<Follower>>>): (r: InboxView)
    ensures !r.loading
    ensures requests.Ok? && requests.data.Some? ==> r.requests == requests.data.value
    ensures !(requests.Ok? && requests.data.Some?) ==> r.requests == v.requests
    ensures !requests.Threw? && followers.Ok? && followers.data.Some? ==>
      r.followers == Recent(followers.data.value, now)
    ensures requests.Threw? || !(followers.Ok? && followers.data.Some?) ==> r.followers == v.followers
  {
    var reqs := if requests.Ok? && requests.data.Some? then requests.data.value else v.requests;
    if requests.Threw? then v.(loading := false)
    else
      var fols := if followers.Ok? && followers.data.Some? then Recent(followers.data.value, now) else v.followers;
      InboxView(reqs, fols, false)
  }

  /** After a load that received followers, every listed follower followed within the last thirty days. */
  lemma LoadedFollowersRecent(v: InboxView, now: int, requests: Reply<Option<seq<FriendRequest>>>, rows: seq<Follower>)
    requires !requests.Threw?
    ensures forall i :: 0 <= i < |Loaded(v, now, requests, Ok(Some(rows))).followers| ==>
      IsRecent(Loaded(v, now, requests, Ok(Some(rows))).followers[i], now)
  {
  }

  // ------------------------------------------------------------ answering

  /** A row of the `accept_friend_request` / `reject_friend_request` reply. */
  datatype AnswerRow = AnswerRow(success: bool, message: Option<string>)

  /** The toast of an exception, also raised when the reply has no data to index. */
  const ErrorOccurred := "An error occurred"

  /** `data && data.length > 0 && data[0].success`. */
  predicate Succeeded(reply: Reply<Option<seq<AnswerRow>>>) {
    reply.Ok? && reply.data.Some? && |reply.data.value| > 0 && reply.data.value[0].success
  }

  /**
   * The toast after answering. Success shows `okText`; an error shows
   * `failText`. An unsuccessful reply shows the first row's message, or
   * `failText` when there is no row or no message; a reply with no data at
   * all makes `data[0]` throw, which lands in the catch. An exception shows
   * the generic text.
   */
  function AnswerNotice(reply: Reply<Option<seq<AnswerRow>>>, okText: string, failText: string): (n: Notice)
    ensures n.Success? <==> Succeeded(reply)
    ensures n.Success? ==> n.text == okText
    ensures reply.Err? ==> n == Failure(failText)
    ensures reply.Threw? || (reply.Ok? && reply.data.None?) ==> n == Failure(ErrorOccurred)
    ensures reply.Ok? && reply.data.Some? && !Succeeded(reply) ==>
      n == Failure(if |reply.data.value| > 0 then Or(reply.data.value[0].message, Some(failText)).value else failText)
  {
    match reply
    case Err => Failure(failText)
    case Threw => Failure(ErrorOccurred)
    case Ok(None) => Failure(ErrorOccurred)
    case Ok(Some(rows)) =>
      if |rows| > 0 && rows[0].success then Success(okText)
      else if |rows| > 0 then Failure(Or(rows[0].message, Some(failText)).value)
      else Failure(failText)
  }

  /** The request list after an answer to `requestId`: the request leaves only on success. */
  function Answered(requests: seq<FriendRequest>, requestId: int, reply: Reply<Option<seq<AnswerRow>>>): (r: seq<FriendRequest>)
    ensures Succeeded(reply) ==> !Keyed.HasKey(r, RequestId, requestId)
    ensures Succeeded(reply) ==> forall i :: 0 <= i < |requests| && requests[i].id != requestId ==> requests[i] in r
    ensures !Succeeded(reply) ==> r == requests
  {
    if Succeeded(reply) then Keyed.RemoveByKey(requests, RequestId, requestId) else requests
  }

  /** The counter in the header: pending requests plus new followers. */
  function TotalNotifications(v: InboxView): nat {
    |v.requests| + |v.followers|
  }

  /** A successful answer to a listed request lowers the counter by exactly one when ids are distinct. */
  lemma AnswerLowersTotal(v: InboxView, requestId: int, reply: Reply<Option<seq<AnswerRow>>>)
    requires Keyed.DistinctKeys(v.requests, RequestId) && Keyed.HasKey(v.requests, RequestId, requestId)
    requires Succeeded(reply)
    ensures TotalNotifications(v.(requests := Answered(v.requests, requestId, reply))) == TotalNotifications(v) - 1
  {
    Keyed.RemoveListedDistinct(v.requests, RequestId, requestId);
  }

  // ------------------------------------------------------------- initials

  /**
   * `getInitials(name || email)` for a request's sender or a follower: the
   * upper-cased initials of the name, or, without a name, of the email, which
   * for an address without spaces is its first character upper-cased.
   */
  function ContactInitials(name: string, email: string): (r: string)
    ensures |r| <= 2 && Text.IsUpperCased(r)
    ensures name != "" ==> r == WordInitials(name)
    ensures name == "" ==> r == WordInitials(email)
    ensures name == "" && email != "" && ' ' !in email ==> r == [Text.UpperChar(email[0])]
    ensures name == "" && email == "" ==> r == ""
  {
    if name != "" then WordInitials(name)
    else if email != "" && ' ' !in email then SingleWordInitial(email); WordInitials(email)
    else WordInitials(email)
  }

  // -------------------------------------------------------------- the page

  /** The page's state that loading and answering touch. */
  class InboxPage {
    var friendRequests: seq<FriendRequest>
    var newFollowers: seq<Follower>
    var loading: bool
    var processingId: Option<int>

    /** The two lists and the loading flag. */
    function View(): InboxView
      reads this
    {
      InboxView(friendRequests, newFollowers, loading)
    }

    /** The page as first rendered: empty lists, loading, nothing being processed. */
    constructor ()
      ensures friendRequests == [] && newFollowers == [] && loading && processingId.None?
    {
      friendRequests, newFollowers, loading, processingId := [], [], true, None;
    }

    /**
     * `loadNotifications(userId)` with the current time `now` and the two
     * replies. Returns whether the followers were asked for.
     */
    method LoadNotifications(now: int,
                             requests: Reply<Option<seq<FriendRequest>>>,
                             followers: Reply<Option<seq<Follower>>>) returns (followersAsked: bool)
      modifies this
      ensures followersAsked <==> !requests.Threw?
      ensures View() == Loaded(old(View()), now, requests, followers)
      ensures processingId == old(processingId)
    {
      loading := true;
      followersAsked := false;
      match requests {
        case Threw =>
        case Err =>
        case Ok(data) =>
          if data.Some? {
            friendRequests := data.value;
          }
      }
      if !requests.Threw? {
        followersAsked := true;
        if followers.Ok? && followers.data.Some? {
          newFollowers := Recent(followers.data.value, now);
        }
      }
      loading := false;
    }

    /**
     * `handleAcceptRequest(requestId)` when `accept`, `handleRejectRequest`
     * otherwise. While the call is out the request is marked as processed
     * (`during`); afterwards nothing is. The request leaves the list only on
     * success. Returns the toast shown.
     */
    method HandleAnswer(requestId: int, accept: bool, reply: Reply<Option<seq<AnswerRow>>>)
      returns (during: Option<int>, notice: Notice)
      modifies this
      ensures during == Some(requestId) && processingId.None?
      ensures friendRequests == Answered(old(friendRequests), requestId, reply)
      ensures notice == if accept
        then AnswerNotice(reply, "Friend request accepted!", "Failed to accept friend request")
        else AnswerNotice(reply, "Friend request rejected", "Failed to reject friend request")
      ensures newFollowers == old(newFollowers) && loading == old(loading)
    {
      processingId := Some(requestId);
      during := processingId;
      var okText := if accept then "Friend request accepted!" else "Friend request rejected";
      var failText := if accept then "Failed to accept friend request" else "Failed to reject friend request";
      match reply {
        case Err =>
          notice := Failure(failText);
        case Threw =>
          notice := Failure(ErrorOccurred);
        case Ok(data) =>
          if data.None? {
            notice := Failure(ErrorOccurred);
          } else if |data.value| > 0 && data.value[0].success {
            notice := Success(okText);
            friendRequests := Keyed.RemoveByKey(friendRequests, RequestId, requestId);
          } else if |data.value| > 0 {
            notice := Failure(Or(data.value[0].message, Some(failText)).value);
          } else {
            notice := Failure(failText);
          }
      }
      processingId := None;
    }
  }
}
