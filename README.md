# Job-board client: page state transitions and display helpers

This project models, in Dafny, the deterministic core of a React client for a
job board and social feed. What the client does beyond calling its hosted
backend and drawing pages is a set of small state transitions and string
helpers:

- **Feed list (`PostList`).** A paged window of 10 rows per page. A page is
  appended to the list or replaces it. A has-more flag is kept. Live INSERT /
  UPDATE / DELETE events are applied to the list by post id. Modelled in
  module `Feed`.
- **Optimistic toggles with revert.** These are:
  - the like button on the post detail page (`PostDetail`);
  - the liked-set and per-post counts on the saved-posts page (`SavedPosts`);
  - follow / unfollow with the follower counter on another user's profile
    (`UserProfile`);
  - adding a comment (`PostDetail`).
- **Removal by id after a successful call.** This covers answering a friend
  request and unsaving a post. The inbox also keeps only the followers of the
  last thirty days (`Inbox`, `SavedPosts`).
- **Display helpers.** These are the avatar URL choice, the initials and the
  display name (`Display`).
- **The friends page's menu.** At most one friend's menu is open at a time
  (`Friends`).
- **The post composer (`PostInput`).** It covers the 80/500 character caps,
  when the button is off, when the form is unfolded, submit and reset, and
  the link and image attachments (`Composer`).

The shared modules are:

- `Common` covers missing values, JavaScript truthiness, the outcome of one
  backend call and like-count arithmetic.
- `Text` covers `trim`, `split`/`join`, `toUpperCase`, `slice`, `includes`
  and `replace`.
- `Keyed` covers id-keyed lists, for `some`/`map`/`filter` by id.

Every backend call is an input to the handler that awaits it. It is a
`Reply`: `Ok(data)`, `Err` (the call returned an `error`) or `Threw` (the
`await` threw). The pages differ in how their `try`/`catch` blocks treat the
last two, and each handler follows its own page:

- On the post detail page, an exception reverts the like just as an error
  does.
- On the saved-posts page, the `catch` only logs, so an exception leaves the
  optimistic like in place (`SavedPosts.LikeClicked`).
- In the feed, `fetchPosts` has no `catch`: an exception, or a reply with
  neither rows nor an error, leaves `loading` set.
- In the inbox, a reply with no data makes `data[0]` throw. That lands in the
  `catch` and shows the generic toast (`Inbox.AnswerNotice`).

Each page that keeps state is a class. Its fields are the page's React state,
and each handler is a method with `modifies this`. Its `ensures` clauses tie
the new state to a pure function of the old state and the reply. The
properties are proved about those functions.

The avatar helper is the same code in five files:

- src/Pages/PostDetailPage.tsx:200-206
- src/Pages/SavedPostsPage.tsx:103-109
- src/Pages/InboxPage.tsx:161-167
- src/Pages/UserProfilePage.tsx:206-212
- src/Pages/FriendsPage.tsx:70-78

It is modelled once, as `Display.AvatarUrl`.

The plain `getInitials` of the inbox and the friends page
(src/Pages/InboxPage.tsx:169-176, src/Pages/FriendsPage.tsx:80-87) is also
one function, `Display.WordInitials`. The other variants keep their own
fallbacks and are modelled separately:

- post detail: `"??"` and the email prefix;
- saved posts and user profile: `name || email || "User"`.

## Model

| member | source | states |
|---|---|---|
| `Common.LikeDelta` | src/Pages/PostDetailPage.tsx:128 | the optimistic change is +1 or −1, and negative exactly when the post was liked |
| `Common.Shifted` | src/Pages/PostDetailPage.tsx:126-129 | `(count \|\| 0) + d`: a missing count reads as 0 and the result is always present |
| `Common.ShiftBack` | src/Pages/PostDetailPage.tsx:140-143 | moving a count by d and back by −d gives the count it read as |
| `Common.Or` | src/Pages/SavedPostsPage.tsx:112 | `a \|\| b` on strings is `a` when it is non-empty and `b` otherwise |
| `Text.TrimStart` | src/custom-components/PostInput.tsx:26 | the leading half of `trim`: drops white space from the front; its contract is `Text.TrimStartSpec` |
| `Text.TrimEnd` | src/custom-components/PostInput.tsx:26 | the trailing half of `trim`: drops white space from the back; its contract is `Text.TrimEndSpec` |
| `Text.Trim` | src/custom-components/PostInput.tsx:26 | `trim()`: both ends stripped of white space, as `TrimStartSpec`, `TrimEndSpec` and `TrimIdempotent` state |
| `Text.IsBlank` | src/custom-components/PostInput.tsx:26 | `s.trim().length === 0`, which `BlankIffAllSpace` shows is "every character is white space" |
| `Text.TrimStartSpec` | src/Pages/PostDetailPage.tsx:162 | trimming the start drops exactly the leading white space: a suffix remains, all that was dropped is white space, and the remainder starts with a non-space |
| `Text.TrimEndSpec` | src/custom-components/PostInput.tsx:26 | trimming the end drops exactly the trailing white space, symmetrically |
| `Text.BlankIffAllSpace` | src/custom-components/PostInput.tsx:25-28 | `s.trim().length === 0` holds exactly when every character of `s` is white space |
| `Text.TrimIdempotent` | src/Pages/PostDetailPage.tsx:174 | trimming an already trimmed string changes nothing |
| `Text.Upper` | src/Pages/InboxPage.tsx:174 | `toUpperCase` keeps the length, maps each character through the ASCII upper-casing and leaves no lower-case letter |
| `Text.Take` | src/Pages/InboxPage.tsx:175 | `slice(0, n)` is the prefix of length `min(\|s\|, n)` |
| `Text.TakeUpper` | src/Pages/InboxPage.tsx:174-175 | upper-casing then slicing equals slicing then upper-casing |
| `Text.Split` | src/Pages/InboxPage.tsx:171 | `split` always yields at least one part |
| `Text.JoinSplit` | src/Pages/FriendsPage.tsx:82 | joining the parts of a split with the separator gives back the string |
| `Text.SplitPartsFree` | src/Pages/FriendsPage.tsx:82 | no part of a split contains the separator |
| `Text.SplitHead` | src/Pages/PostDetailPage.tsx:262 | the first part of a split is the prefix before the first separator, or the whole string |
| `Text.BeforeFirst` | src/Pages/SavedPostsPage.tsx:117 | `email.split("@")[0]` is a prefix of the email without `@`, followed in the email by `@` unless it is all of it |
| `Text.FirstLetters` | src/Pages/InboxPage.tsx:172-173 | `map(n => n[0]).join("")` gives at most one character per word |
| `Text.WordStarts` | src/Pages/InboxPage.tsx:171-173 | the independent reading of "word starts" never contains the separator |
| `Text.FirstLettersOfSplit` | src/Pages/FriendsPage.tsx:82-84 | the first letters of the split's parts are exactly the characters that start a space-separated word |
| `Text.NoWordStartsInsideWord` | src/Pages/SavedPostsPage.tsx:112-113 | a string without the separator has no word start after its first character |
| `Text.IndexFrom` | src/Pages/InboxPage.tsx:164 | the search finds the first occurrence at or after `from`, and none means no occurrence there |
| `Text.IndexOf` | src/Pages/FriendsPage.tsx:75 | `indexOf` is the first occurrence of the pattern |
| `Text.ContainsIff` | src/Pages/InboxPage.tsx:163 | `includes` holds exactly when the pattern occurs at some index |
| `Text.ReplaceFirst` | src/Pages/UserProfilePage.tsx:209 | `replace` with a string pattern rewrites only its first occurrence, and leaves a string without it unchanged |
| `Text.ReplaceFirstAt` | src/Pages/SavedPostsPage.tsx:106 | after the replacement, the text before the first occurrence and after it is kept, and the replacement stands at that index |
| `Text.Contains` | src/Pages/InboxPage.tsx:163 | `includes`, defined through `IndexOf`; `ContainsIff` ties it to an occurrence at some index |
| `Display.AvatarUrl` | src/Pages/PostDetailPage.tsx:200-206 | a non-empty custom URL wins; else a Google-hosted URL has its first `s96-c` raised to `s400-c`; else the URL itself; empty or missing gives none, and a given avatar is never empty |
| `Display.GoogleAvatarUpscaled` | src/Pages/SavedPostsPage.tsx:103-109 | for a Google-hosted avatar, exactly the first `s96-c` becomes `s400-c` and the rest of the URL is kept |
| `Display.FirstLettersCount` | src/Pages/FriendsPage.tsx:80-87 | the first-letter string has one letter per non-empty word |
| `Display.WordInitials` | src/Pages/InboxPage.tsx:169-176 | at most two upper-case characters: the upper-cased first two word starts, one per non-empty space-separated word |
| `Display.InitialsStartWithName` | src/Pages/FriendsPage.tsx:192 | a name that starts with a non-space has initials starting with that character upper-cased |
| `Display.SingleWordInitial` | src/Pages/UserProfilePage.tsx:215-216 | a word without spaces, such as an email, has exactly one initial: its first character upper-cased |
| `Display.DetailInitials` | src/Pages/PostDetailPage.tsx:208-216 | initials of the name; else the first two characters of the email upper-cased; else `"??"`; always at most two upper-case characters |
| `Display.ProfileInitials` | src/Pages/SavedPostsPage.tsx:111-114 | initials of `name \|\| email \|\| "User"`, so `"U"` without either; at most two upper-case characters |
| `Display.DisplayName` | src/Pages/PostDetailPage.tsx:262 | the name; else the part of the email before the first `@` when non-empty; else the fallback, so never empty with a non-empty fallback |
| `Display.LeadingAtFallsBack` | src/Pages/SavedPostsPage.tsx:116-118 | an email starting with `@` gives the fallback |
| `Display.CountNoun` | src/Pages/PostDetailPage.tsx:389 | the noun is singular exactly when the count is 1, and it is always one of the two given forms; the same ternary labels the comment count (PostDetailPage.tsx:395), the saved-job count (SavedPostsPage.tsx:240), the notification total (InboxPage.tsx:208) and the friend count (FriendsPage.tsx:165) |
| `Keyed.PrependIfNew` | src/custom-components/PostList.tsx:83-88 | a record whose id is listed leaves the list identical; otherwise it goes to index 0 with the old list after it unchanged |
| `Keyed.PrependKeepsDistinct` | src/custom-components/PostList.tsx:85-87 | prepending keeps the ids distinct |
| `Keyed.PrependIdempotent` | src/custom-components/PostList.tsx:85-86 | a second arrival of the same record changes nothing |
| `Keyed.ReplaceByKey` | src/custom-components/PostList.tsx:94-96 | same length; each element with the record's id is replaced by it and every other element is kept |
| `Keyed.ReplaceKeepsKeys` | src/custom-components/PostList.tsx:95 | replacing keeps the id sequence, and with it distinctness |
| `Keyed.ReplaceAbsent` | src/custom-components/PostList.tsx:91-96 | an update for an id not listed changes nothing |
| `Keyed.ReplaceIdempotent` | src/custom-components/PostList.tsx:94-95 | applying the same update twice is applying it once |
| `Keyed.RemoveByKey` | src/custom-components/PostList.tsx:100 | no element with the id remains, every other element remains, and nothing new appears |
| `Keyed.RemoveConcat` | src/Pages/SavedPostsPage.tsx:136 | removal distributes over concatenation, so the elements kept keep their relative order |
| `Keyed.RemoveAbsent` | src/Pages/InboxPage.tsx:122 | removing an id that is not listed changes nothing |
| `Keyed.RemoveKeepsDistinct` | src/Pages/InboxPage.tsx:149 | removal keeps the ids distinct |
| `Keyed.RemoveListedDistinct` | src/Pages/InboxPage.tsx:120-122 | with distinct ids, removing a listed id drops exactly one element |
| `Keyed.PrependThenRemove` | src/custom-components/PostList.tsx:80-100 | inserting a new record and then deleting its id gives back the list |
| `Feed.PageWindow` | src/custom-components/PostList.tsx:30-33 | page n asks for rows n·10 through n·10+9, a window of exactly 10 |
| `Feed.PagesTile` | src/custom-components/PostList.tsx:115-117 | the next page starts right after the current one ends |
| `Feed.Fetched` | src/custom-components/PostList.tsx:41-57 | the feed after a fetch: an error ends loading and keeps the rest; rows are appended or replace the list, a short page clears has-more, and loading ends; no rows and no error, or an exception, leaves loading set, as `FetchErrorKeepsList`, `FetchPageMerges` and `FetchPageHasMore` state |
| `Feed.FetchErrorKeepsList` | src/custom-components/PostList.tsx:41-45 | a failed fetch keeps the list and the has-more flag and ends loading |
| `Feed.FetchPageMerges` | src/custom-components/PostList.tsx:52-57 | appended, the old list is an unchanged prefix followed by the rows in order; otherwise the rows replace it |
| `Feed.FetchPageHasMore` | src/custom-components/PostList.tsx:47-50 | a page of fewer than 10 rows clears has-more; a full page leaves it as it was |
| `Feed.ApplyChange` | src/custom-components/PostList.tsx:80-101 | INSERT is prepended unless its id is listed; UPDATE keeps the ids and replaces exactly the matching posts; DELETE leaves no post with the id and keeps all others |
| `Feed.Changed` | src/custom-components/PostList.tsx:89-90 | every INSERT, even of a listed post, sets has-more; other events keep it |
| `Feed.ChangeKeepsDistinct` | src/custom-components/PostList.tsx:83-100 | no event makes an id appear twice |
| `Feed.DeleteKeepsOrder` | src/custom-components/PostList.tsx:97-100 | DELETE works on each part of the list separately, so the posts kept keep their order |
| `Feed.InsertThenDelete` | src/custom-components/PostList.tsx:85-100 | a new post inserted and then deleted leaves the list as it was |
| `Feed.AbsentIdUntouched` | src/custom-components/PostList.tsx:91-100 | UPDATE or DELETE of an unlisted id changes nothing |
| `Feed.PostList.constructor` | src/custom-components/PostList.tsx:24-27 | empty list, not loading, page 0, has-more set |
| `Feed.ShouldAdvance` | src/custom-components/PostList.tsx:114 | the sentinel advances only when it is visible, more may exist and nothing is loading; `OnIntersect` acts exactly on it |
| `Feed.PostList.FetchPosts` | src/custom-components/PostList.tsx:30-59 | requests the page's window and moves the list, has-more and loading as `Fetched` says; the page number is untouched |
| `Feed.PostList.OnIntersect` | src/custom-components/PostList.tsx:113-118 | when the sentinel is visible, more may exist and nothing is loading, the page advances by exactly 1 and that page is appended; otherwise nothing changes |
| `Feed.PostList.OnChange` | src/custom-components/PostList.tsx:77-102 | the list and has-more move as `Changed` says |
| `PostDetail.Optimistic` | src/Pages/PostDetailPage.tsx:124-129 | the heart flips and the count moves by −1 if it was liked, +1 otherwise |
| `PostDetail.Reverted` | src/Pages/PostDetailPage.tsx:150-156 | the heart goes back to its state before the click and the count moves back by one; `OptimisticThenRevert` shows it undoes `Optimistic` |
| `PostDetail.LikeClicked` | src/Pages/PostDetailPage.tsx:137-157 | on an error or an exception the heart and the count are as before the click; on success the heart is flipped and the count is the server's when it sent a row, the optimistic one otherwise |
| `PostDetail.OptimisticThenRevert` | src/Pages/PostDetailPage.tsx:150-156 | the optimistic step followed by its revert is the identity, up to a missing count now reading 0 |
| `PostDetail.TwoClicksRestore` | src/Pages/PostDetailPage.tsx:124-149 | two successful clicks without a server count restore the heart and the count |
| `PostDetail.CommentPosted` | src/Pages/PostDetailPage.tsx:177-191 | a returned comment goes on top of the unchanged thread and clears the box; otherwise both stay |
| `PostDetail.CanComment` | src/Pages/PostDetailPage.tsx:162 | a comment is sent only with a non-blank box, a signed-in user and a post id; `HandleSubmitComment` does nothing otherwise |
| `PostDetail.PostDetailPage.constructor` | src/Pages/PostDetailPage.tsx:45-53 | no post, no user, no comments, empty box, not liked, not submitting |
| `PostDetail.PostDetailPage.HandleLikeClick` | src/Pages/PostDetailPage.tsx:118-158 | without a user or a post nothing changes; otherwise the optimistic state is shown while the call is out and `LikeClicked` settles it; only the post's like count changes |
| `PostDetail.PostDetailPage.HandleSubmitComment` | src/Pages/PostDetailPage.tsx:160-198 | a blank box, no user or no post id changes nothing; otherwise the trimmed text is sent, a returned comment is prepended, the box cleared and the comment count raised by 1, and the in-flight flag ends false |
| `SavedPosts.ToggledLike` | src/Pages/SavedPostsPage.tsx:151-159 | the clicked id leaves the liked set if it was in it and joins it if not; every other id keeps its membership |
| `SavedPosts.ToggleTwice` | src/Pages/SavedPostsPage.tsx:152-158 | clicking the same post twice gives back the liked set |
| `SavedPosts.EditLikes` | src/Pages/SavedPostsPage.tsx:161-165 | same length and order; only the posts with the id get the new count, and every other post is unchanged |
| `SavedPosts.EditKeepsIds` | src/Pages/SavedPostsPage.tsx:180-184 | editing counts keeps the id sequence |
| `SavedPosts.ShiftThenUnshift` | src/Pages/SavedPostsPage.tsx:172-178 | moving the counts by d and back by −d gives back every post, up to a missing count now reading 0 |
| `SavedPosts.Optimistic` | src/Pages/SavedPostsPage.tsx:151-165 | the clicked id toggles in the liked set and its posts move by one the same way; `LikeClicked` keeps it after an exception, and `LikeErrorRestores` shows an error undoes it |
| `SavedPosts.LikeClicked` | src/Pages/SavedPostsPage.tsx:144-190 | an error restores the liked set; otherwise the set is toggled; an exception keeps the optimistic state; posts with other ids never change |
| `SavedPosts.LikeErrorRestores` | src/Pages/SavedPostsPage.tsx:172-179 | after an error the clicked posts are as before, up to a missing count now reading 0, and the ids keep their order |
| `SavedPosts.LikeServerCount` | src/Pages/SavedPostsPage.tsx:180-186 | a success with a row shows the server's count on the clicked posts |
| `SavedPosts.LikeOptimisticCount` | src/Pages/SavedPostsPage.tsx:187-189 | after an exception, or a success without a row, the clicked posts keep the optimistic ±1 |
| `SavedPosts.PreviewTiles` | src/Pages/SavedPostsPage.tsx:350-368 | at most four tiles showing the first images in order; only the fourth carries an overlay, only when there are more than four images, and the overlay's count plus the tiles shown is the number of images |
| `SavedPosts.UnsaveNotice` | src/Pages/SavedPostsPage.tsx:130-139 | a toast shows exactly after an error reply, with the fixed failure text; a success and an exception show none |
| `SavedPosts.SavedPostsPage.constructor` | src/Pages/SavedPostsPage.tsx:33-38 | no posts, no likes, no user |
| `SavedPosts.SavedPostsPage.HandleLikeClick` | src/Pages/SavedPostsPage.tsx:144-190 | without a user nothing changes and the login warning shows; otherwise no toast shows, the optimistic state is shown while the call is out and `LikeClicked` settles it |
| `SavedPosts.SavedPostsPage.HandleUnsavePost` | src/Pages/SavedPostsPage.tsx:121-141 | without a user, or on an error or exception, the list stays; on success exactly the posts with that id leave; the toast is `UnsaveNotice` of the reply for a signed-in user and none otherwise |
| `Inbox.Cutoff` | src/Pages/InboxPage.tsx:94 | the cutoff lies before the current time |
| `Inbox.IsRecent` | src/Pages/InboxPage.tsx:96 | a follower is new when the follow time parses and lies strictly after the cutoff |
| `Inbox.Recent` | src/Pages/InboxPage.tsx:95-97 | keeps exactly the followers who followed strictly after the cutoff, and nothing else |
| `Inbox.RecentConcat` | src/Pages/InboxPage.tsx:92-98 | the filter works piece by piece, so the followers kept stay in the server's order |
| `Inbox.RecentIdempotent` | src/Pages/InboxPage.tsx:98 | filtering the filtered list changes nothing |
| `Inbox.RecentShrinksOverTime` | src/Pages/InboxPage.tsx:94-97 | whoever is new at a later time was new at an earlier one |
| `Inbox.Loaded` | src/Pages/InboxPage.tsx:71-105 | each list is replaced only when its call returned data (the followers filtered); an exception in the first call skips the second; loading ends |
| `Inbox.LoadedFollowersRecent` | src/Pages/InboxPage.tsx:90-99 | after a load that got followers, every listed follower is recent |
| `Inbox.Succeeded` | src/Pages/InboxPage.tsx:120 | `data && data.length > 0 && data[0].success`; `AnswerNotice` shows its success text exactly when it holds |
| `Inbox.AnswerNotice` | src/Pages/InboxPage.tsx:114-128 | a success toast exactly when the first row reports success; an error shows the fixed failure text, an exception or a missing result the generic one, and an unsuccessful row its message or the fixed text |
| `Inbox.Answered` | src/Pages/InboxPage.tsx:120-125 | on success no request with that id remains and every other request does; otherwise the list is unchanged |
| `Inbox.TotalNotifications` | src/Pages/InboxPage.tsx:178 | the badge counts the pending requests plus the new followers; `AnswerLowersTotal` states how an answer moves it |
| `Inbox.AnswerLowersTotal` | src/Pages/InboxPage.tsx:178 | with distinct ids, a successful answer to a listed request lowers the total by exactly one |
| `Inbox.ContactInitials` | src/Pages/InboxPage.tsx:285 | at most two upper-case characters: the initials of the name, or without a name the initials of the email, which for an address without spaces is its first character upper-cased |
| `Inbox.InboxPage.constructor` | src/Pages/InboxPage.tsx:39-43 | empty lists, loading, nothing being processed |
| `Inbox.InboxPage.LoadNotifications` | src/Pages/InboxPage.tsx:71-105 | the state becomes `Loaded` of the old state, and the followers are asked for exactly when the first call did not throw |
| `Inbox.InboxPage.HandleAnswer` | src/Pages/InboxPage.tsx:107-159 | the request is marked as processed while the call is out and nothing is afterwards; the list becomes `Answered`; the toast is `AnswerNotice` with the accept or reject texts |
| `UserProfile.IsOwnProfile` | src/Pages/UserProfilePage.tsx:261 | the viewer is signed in and the route's id is theirs |
| `UserProfile.CanAct` | src/Pages/UserProfilePage.tsx:145 | the handlers' guard, negated: a signed-in viewer on someone else's profile |
| `UserProfile.ActionsVisible` | src/Pages/UserProfilePage.tsx:355 | the action row's render condition; `VisibleIffActs` shows it equals `CanAct` |
| `UserProfile.AddFriendVisible` | src/Pages/UserProfilePage.tsx:370 | "Add Friend" is rendered inside the action row only while the two are not friends |
| `UserProfile.QueriesRelationship` | src/Pages/UserProfilePage.tsx:94 | the status queries run for a signed-in viewer whose id differs from the route's; `QueriesIffOther` ties it to `IsOwnProfile` |
| `UserProfile.VisibleIffActs` | src/Pages/UserProfilePage.tsx:355 | the action buttons are shown exactly when the handlers act: a signed-in visitor on someone else's profile |
| `UserProfile.QueriesIffOther` | src/Pages/UserProfilePage.tsx:94 | friendship and follow status are looked up exactly for a signed-in viewer of another profile |
| `UserProfile.FollowToggled` | src/Pages/UserProfilePage.tsx:172-200 | a success flips the follow state and moves the counter by −1 on unfollow, +1 on follow; a failure changes nothing |
| `UserProfile.TwoTogglesRestore` | src/Pages/UserProfilePage.tsx:181-195 | two successful toggles restore the follow state and the counter |
| `UserProfile.FollowNotice` | src/Pages/UserProfilePage.tsx:183-200 | a success toast exactly on success; a failure shows the fixed failure text |
| `UserProfile.AddFriendNotice` | src/Pages/UserProfilePage.tsx:157-161 | a success toast exactly when the insert succeeded |
| `UserProfile.HeaderAvatar` | src/Pages/UserProfilePage.tsx:206-212 | no avatar before the profile loads; after, the shared avatar choice |
| `UserProfile.HeaderInitials` | src/Pages/UserProfilePage.tsx:214-217 | `"U"` before the profile loads; after, the initials of `name \|\| email \|\| "User"`; at most two upper-case characters |
| `UserProfile.HeaderName` | src/Pages/UserProfilePage.tsx:219-221 | never empty; "Anonymous User" before the profile loads; after, the name, the email's local part or "Anonymous User" |
| `UserProfile.UserProfilePage.constructor` | src/Pages/UserProfilePage.tsx:41-47 | no user, not friends, not following, counter 0, no busy flag |
| `UserProfile.UserProfilePage.HandleFollow` | src/Pages/UserProfilePage.tsx:167-204 | for a visitor who cannot act nothing changes; otherwise the busy flag is raised, `FollowToggled` settles the state, and the flag ends false |
| `UserProfile.UserProfilePage.HandleAddFriend` | src/Pages/UserProfilePage.tsx:144-165 | for a visitor who cannot act nothing changes; otherwise the busy flag is raised and ends false whatever the outcome, and the follow state and friendship flag are untouched |
| `Friends.MenuOpen` | src/Pages/FriendsPage.tsx:252 | a friend's menu is rendered when `activeMenu` holds that friend's id; `Toggled` and `ClickedOutside` are stated through it |
| `Friends.Toggled` | src/Pages/FriendsPage.tsx:246 | the open menu's button closes it and any other opens that friend's menu; no other menu is open afterwards |
| `Friends.ToggleTwice` | src/Pages/FriendsPage.tsx:246 | pressing the same button twice keeps that menu as it was and leaves every other menu closed |
| `Friends.ClickedOutside` | src/Pages/FriendsPage.tsx:290-294 | the backdrop closes an open menu; it is not rendered for an empty id, so such a menu stays open |
| `Friends.FriendsPage.constructor` | src/Pages/FriendsPage.tsx:21-23 | no friends, no menu open |
| `Friends.FriendsPage.ToggleMenu` | src/Pages/FriendsPage.tsx:246 | the open menu becomes `Toggled` of the old one |
| `Friends.FriendsPage.RemoveFriend` | src/Pages/FriendsPage.tsx:89-93 | the menu is closed and the list is untouched |
| `Friends.FriendsPage.SendMessage` | src/Pages/FriendsPage.tsx:95-99 | the menu is closed and the list is untouched |
| `Friends.FriendsPage.ClickOutside` | src/Pages/FriendsPage.tsx:290-294 | the open menu becomes `ClickedOutside` of the old one |
| `Composer.Capped` | src/custom-components/PostInput.tsx:127 | what a field keeps is a prefix of the input no longer than the cap, all of it when it fits, and exactly the cap when it does not |
| `Composer.CappedIdempotent` | src/custom-components/PostInput.tsx:155 | capping a capped value changes nothing |
| `Composer.Disabled` | src/custom-components/PostInput.tsx:25-26 | `isDisabled`: a submit is in flight or a field is blank after trimming; `DisabledIffSpaceOnly` restates it over characters |
| `Composer.Expanded` | src/custom-components/PostInput.tsx:27-28 | `isExpanded`: the flag is set or a field has text other than white space; `EnabledIsExpanded` relates it to `Disabled` |
| `Composer.DisabledIffSpaceOnly` | src/custom-components/PostInput.tsx:25-26 | outside a submit, the button is off exactly when the title or the description is all white space |
| `Composer.EnabledIsExpanded` | src/custom-components/PostInput.tsx:25-28 | an enabled button is always on an unfolded form |
| `Composer.ClearedFields` | src/custom-components/PostInput.tsx:51-52 | with both fields cleared the button is off and the form is unfolded only by its flag |
| `Composer.FormField` | src/custom-components/PostInput.tsx:35-36 | the trimmed form field, or empty when there is none |
| `Composer.FormFieldTrimmed` | src/custom-components/PostInput.tsx:35 | a field as sent has no white space at either end |
| `Composer.FileNames` | src/custom-components/PostInput.tsx:79 | the chosen files' names, one per file, in order |
| `Composer.PostInput.constructor` | src/custom-components/PostInput.tsx:10-19 | empty fields, folded, no link, no images, no posts |
| `Composer.PostInput.OnTitleChange` | src/custom-components/PostInput.tsx:126-129 | the title keeps the first 80 characters and the draft copy all of them; the caps invariant holds |
| `Composer.PostInput.OnContentChange` | src/custom-components/PostInput.tsx:154-156 | the description keeps the first 500 characters; the caps invariant holds |
| `Composer.PostInput.OnTitleFocus` | src/custom-components/PostInput.tsx:130 | focusing the title unfolds the form |
| `Composer.PostInput.HandleSubmit` | src/custom-components/PostInput.tsx:30-56 | with the button off nothing happens; otherwise the trimmed form fields are inserted; once the insert replies the returned row is appended on success, the trimmed form title and the trimmed, non-blank state description are handed on (the title is non-blank too when the form field holds the state title, as the bound input makes it), and both fields are cleared even after an error; an exception keeps the fields; the in-flight flag ends false |
| `Composer.PostInput.HandleBlur` | src/custom-components/PostInput.tsx:58-69 | the form folds only when both fields are blank and focus has left it |
| `Composer.PostInput.HandlePickImages` | src/custom-components/PostInput.tsx:71-74 | the form unfolds |
| `Composer.PostInput.HandleImagesChange` | src/custom-components/PostInput.tsx:76-84 | the image names become the chosen files' names in order, or empty; choosing files unfolds the form |
| `Composer.PostInput.HandleAddLink` | src/custom-components/PostInput.tsx:86-89 | the form unfolds and the link field shows |
| `Composer.PostInput.OnLinkChange` | src/custom-components/PostInput.tsx:214 | the link becomes the typed value |
| `Composer.PostInput.HandleClearLink` | src/custom-components/PostInput.tsx:91-94 | the link is emptied and its field hidden, and the form stays as it was |

## Left out

- Backend calls are not modelled. This covers auth, `rpc`,
  `from(...).select/insert/delete` and the realtime channel. Each reply is an
  input to the handler, and each realtime payload is a `Feed.Change`.
- Async interleaving, React's batched state updates and stale closures are
  not modelled. Each handler runs as one atomic step over the current state.
  For example, the saved-posts revert restores the liked set captured at the
  click, and the inbox filters the request list captured at the click. With
  no interleaving, both equal the current state.
- Toasts are modelled as returned notices: the inbox answers, the profile's
  follow and friend-request buttons, and the saved-posts page's unsave error
  and signed-out like warning (a `toast.warning`, returned as a failure
  notice). The post detail page's `alert`s on a signed-out click and a failed
  comment are not modelled.
- dayjs is not modelled. A timestamp is integer milliseconds, or `None` when
  it does not parse. The thirty days are 30 × 86 400 000 ms, with no
  daylight-saving shift. Relative time formatting (`fromNow`) is left out.
- `toUpperCase` is modelled for ASCII letters only. `n[0]` and `substring`
  work on characters, not UTF-16 code units.
- `parseInt` of route ids is not modelled. Ids are opaque strings, and
  request ids are integers.
- Browser plumbing is not modelled:
  - the IntersectionObserver: its callback is `Feed.PostList.OnIntersect`,
    with the visibility as a parameter;
  - the `setTimeout` of the friends page's mock loader, and the deferred blur
    check: whether focus is still inside the form is the parameter of
    `Composer.PostInput.HandleBlur`;
  - `FormData`: the form's two fields are parameters of
    `Composer.PostInput.HandleSubmit`;
  - the file input beyond the chosen names;
  - navigation and `window.history`.
- The initial data loads are not modelled: post detail, saved posts, the
  profile's posts and counts, and the friends list. The same goes for the
  image modal and all rendering. The only exceptions are the decisions
  modelled above: counter nouns, preview tiles and button visibility.
- `Feed.PostList.FetchPosts`: an exception from the query is unhandled in
  the source. The model leaves `loading` set and changes nothing else, which
  is what the state shows afterwards. The rejected promise itself is not
  modelled.
- `Composer.PostInput.HandleSubmit`: the `onSubmit` callback and the console
  fallback are not called. The payload it would receive is returned instead.
  Its title is the trimmed form field, because the handler's local `title`
  shadows the state. The model takes the form field as an input and does not
  tie it to the bound input's value, so the payload title is promised
  non-blank only when the form field equals the state title.
