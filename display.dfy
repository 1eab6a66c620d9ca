/**
 * Profile display helpers. Five pages each carry their own copy of the avatar
 * choice (`getAvatarUrl` / `getAvatarSrc`); the copies are the same code and
 * are modelled once here. The initials and display-name helpers differ in
 * their fallback chains, and each variant is modelled as written.
 */
module Display {

  import opened Common
  import opened Text

  /** Marks an avatar served by Google's image host. */
  const GoogleHost := "googleusercontent.com"
  /** Google's 96-pixel square size suffix ... */
  const SmallSize := "s96-c"
  /** ... and the 400-pixel one the pages ask for instead. */
  const LargeSize := "s400-c"

  // --------------------------------------------------------------- avatar

  /**
   * The avatar to show: a non-empty custom URL wins; otherwise a URL on
   * Google's image host has its first size suffix `s96-c` raised to `s400-c`;
   * otherwise the URL itself, where a missing or empty URL gives no avatar.
   */
  function AvatarUrl(avatarUrl: Option<string>, customUrl: Option<string>): (r: Option<string>)
    ensures Truthy(customUrl) ==> r == customUrl
    ensures !Truthy(customUrl) && avatarUrl.Some? && Contains(avatarUrl.value, GoogleHost) ==>
      r == Some(ReplaceFirst(avatarUrl.value, SmallSize, LargeSize))
    ensures !Truthy(customUrl) && !(avatarUrl.Some? && Contains(avatarUrl.value, GoogleHost)) ==>
      r == (if Truthy(avatarUrl) then avatarUrl else None)
    ensures r.Some? ==> r.value != ""
    ensures r.None? <==> !Truthy(customUrl) && !Truthy(avatarUrl)
  {
    if Truthy(customUrl) then customUrl
    else if avatarUrl.Some? && Contains(avatarUrl.value, GoogleHost) then
      Some(ReplaceFirst(avatarUrl.value, SmallSize, LargeSize))
    else if Truthy(avatarUrl) then avatarUrl
    else None
  }

  /**
   * For a Google-hosted avatar and no custom one, exactly the first `s96-c`
   * becomes `s400-c`: the text before it and after it is kept, and an avatar
   * without `s96-c` is shown unchanged.
   */
  lemma GoogleAvatarUpscaled(url: string, customUrl: Option<string>)
    requires !Truthy(customUrl) && Contains(url, GoogleHost)
    ensures var r := AvatarUrl(Some(url), customUrl);
      r.Some? &&
      (!Contains(url, SmallSize) ==> r.value == url) &&
      (Contains(url, SmallSize) ==>
        var i := IndexOf(url, SmallSize).value;
        r.value[..i] == url[..i] && OccursAt(r.value, LargeSize, i)
        && r.value[i + |LargeSize|..] == url[i + |SmallSize|..])
  {
    if Contains(url, SmallSize) {
      ReplaceFirstAt(url, SmallSize, LargeSize);
    }
  }

  // ------------------------------------------------------------- initials

  /** Number of non-empty words in a split. */
  function NonEmptyCount(words: seq<string>): nat {
    if words == [] then 0 else (if words[0] == [] then 0 else 1) + NonEmptyCount(words[1..])
  }

  /** `FirstLetters` gives one letter per non-empty word. */
  lemma {:induction false} FirstLettersCount(words: seq<string>)
    ensures |FirstLetters(words)| == NonEmptyCount(words)
  {
    if words != [] {
      FirstLettersCount(words[1..]);
    }
  }

  /**
   * `getInitials(name)`: `name.split(" ").map(n => n[0]).join("").toUpperCase().slice(0, 2)`.
   * The result is the upper-cased first letters of the first two words, which
   * is at most two upper-case characters, one per non-empty word.
   */
  function WordInitials(name: string): (r: string)
    ensures |r| <= 2 && IsUpperCased(r)
    ensures r == Take(Upper(WordStarts(name, ' ', true)), 2)
    ensures |r| == if NonEmptyCount(Split(name, ' ')) < 2 then NonEmptyCount(Split(name, ' ')) else 2
  {
    FirstLettersOfSplit(name, ' ');
    FirstLettersCount(Split(name, ' '));
    Take(Upper(FirstLetters(Split(name, ' '))), 2)
  }

  /** The initials of a name start with the name's first character, upper-cased, when it is not a space. */
  lemma InitialsStartWithName(name: string)
    requires name != [] && name[0] != ' '
    ensures WordInitials(name) != [] && WordInitials(name)[0] == UpperChar(name[0])
  {
  }

  /** A single word (no space) has one initial: its first character, upper-cased. */
  lemma SingleWordInitial(w: string)
    requires w != [] && ' ' !in w
    ensures WordInitials(w) == [UpperChar(w[0])]
  {
    NoWordStartsInsideWord(w[1..], ' ');
  }

  /**
   * `getUserInitials(name, email)` on the post detail page: initials of the
   * name; without a name, the first two characters of the email upper-cased;
   * without either, `"??"`.
   */
  function DetailInitials(name: Option<string>, email: Option<string>): (r: string)
    ensures |r| <= 2 && IsUpperCased(r)
    ensures Truthy(name) ==> r == WordInitials(name.value)
    ensures !Truthy(name) && Truthy(email) ==>
      |r| == (if |email.value| < 2 then |email.value| else 2) && r == Upper(email.value[..|r|])
    ensures !Truthy(name) && !Truthy(email) ==> r == "??"
  {
    if Truthy(name) then WordInitials(name.value)
    else if Truthy(email) then Upper(Take(email.value, 2))
    else "??"
  }

  /**
   * `getUserInitials` on the saved-posts and user-profile pages: the initials
   * of `name || email || "User"`, so an email (which has no spaces) gives its
   * first character and a missing identity gives `"U"`.
   */
  function ProfileInitials(name: Option<string>, email: Option<string>): (r: string)
    ensures |r| <= 2 && IsUpperCased(r)
    ensures Truthy(name) ==> r == WordInitials(name.value)
    ensures !Truthy(name) && Truthy(email) ==> r == WordInitials(email.value)
    ensures !Truthy(name) && !Truthy(email) ==> r == "U"
  {
    var source := Or(name, Or(email, Some("User")));
    assert WordStarts("User", ' ', true) == "U" + WordStarts("ser", ' ', false);
    WordInitials(source.value)
  }

  // --------------------------------------------------------- display name

  /**
   * `name || email?.split("@")[0] || fallback`: the name, else the part of the
   * email before its first `@`, else the page's fixed fallback.
   */
  function DisplayName(name: Option<string>, email: Option<string>, fallback: string): (r: string)
    ensures Truthy(name) ==> r == name.value
    ensures !Truthy(name) && email.Some? && BeforeFirst(email.value, '@') != "" ==>
      r == BeforeFirst(email.value, '@') && '@' !in r && r == email.value[..|r|]
    ensures !Truthy(name) && (email.None? || BeforeFirst(email.value, '@') == "") ==> r == fallback
    ensures fallback != "" ==> r != ""
  {
    if Truthy(name) then name.value
    else if email.Some? && BeforeFirst(email.value, '@') != "" then BeforeFirst(email.value, '@')
    else fallback
  }

  /** The fallback of the post, saved-post and profile headers. */
  const AnonymousUser := "Anonymous User"
  /** The fallback of a comment's author line on the post detail page. */
  const Anonymous := "Anonymous"

  /** An email that starts with `@` is as good as none: the fallback is shown. */
  lemma LeadingAtFallsBack(email: string, fallback: string)
    requires email != [] && email[0] == '@'
    ensures DisplayName(None, Some(email), fallback) == fallback
  {
  }

  // ---------------------------------------------------------- count label

  /** `${n} ${n === 1 ? one : many}`'s noun: singular exactly when the count is 1. */
  function CountNoun(n: int, one: string, many: string): (r: string)
    ensures one != many ==> (r == one <==> n == 1)
    ensures r == one || r == many
  {
    if n == 1 then one else many
  }
}
