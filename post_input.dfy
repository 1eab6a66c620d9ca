/**
 * The post composer (`PostInput`): a title capped at 80 characters and a
 * description capped at 500, a submit button that is off while a post is
 * being sent or either field is blank, a form that unfolds once used and
 * folds again when left empty, and the link and image attachments.
 */
module Composer {

  import opened Common
  import opened Text

  /** Longest title kept. */
  const TitleLimit: nat := 80
  /** Longest description kept. */
  const ContentLimit: nat := 500

  // ---------------------------------------------------------------- input

  /** `value.slice(0, limit)`: what a field keeps of what was typed. */
  function Capped(value: string, limit: nat): (r: string)
    ensures |r| <= limit && |r| <= |value|
    ensures r == value[..|r|]
    ensures |value| <= limit ==> r == value
    ensures |value| > limit ==> |r| == limit
  {
    Take(value, limit)
  }

  /** Capping what is already capped changes nothing, so retyping the kept text keeps it. */
  lemma CappedIdempotent(value: string, limit: nat)
    ensures Capped(Capped(value, limit), limit) == Capped(value, limit)
  {
  }

  // ------------------------------------------------------------- the flags

  /** `isDisabled`: a post is being sent, or the title or the description is blank after trimming. */
  predicate Disabled(isSubmitting: bool, title: string, content: string) {
    isSubmitting || IsBlank(title) || IsBlank(content)
  }

  /** `isExpanded`: the form was unfolded, or either field has text other than white space. */
  predicate Expanded(expanded: bool, title: string, content: string) {
    expanded || !IsBlank(title) || !IsBlank(content)
  }

  /**
   * Outside a submit, the button is off exactly when one of the fields holds
   * nothing but white space.
   */
  lemma DisabledIffSpaceOnly(title: string, content: string)
    ensures Disabled(false, title, content) <==> AllSpace(title) || AllSpace(content)
  {
    BlankIffAllSpace(title);
    BlankIffAllSpace(content);
  }

  /** An enabled button is always on an unfolded form. */
  lemma EnabledIsExpanded(isSubmitting: bool, expanded: bool, title: string, content: string)
    requires !Disabled(isSubmitting, title, content)
    ensures Expanded(expanded, title, content)
  {
  }

  /** Once the fields are cleared, the button is off and the form is unfolded only if the flag says so. */
  lemma ClearedFields(isSubmitting: bool, expanded: bool)
    ensures Disabled(isSubmitting, "", "")
    ensures Expanded(expanded, "", "") == expanded
  {
    assert Trim("") == "";
  }

  // ---------------------------------------------------------- submitting

  /** The row inserted into `Posts`. */
  datatype NewRow = NewRow(title: string, description: string)

  /** What is handed to the `onSubmit` callback. */
  datatype Payload = Payload(title: string, content: string)

  /** `formData.get(field)?.toString().trim() || ""`: the trimmed field, or empty when the form has no such field. */
  function FormField(field: Option<string>): (r: string)
    ensures field.None? ==> r == ""
    ensures field.Some? ==> r == Trim(field.value)
  {
    if field.Some? then Trim(field.value) else ""
  }

  /** A form field as sent has no white space at either end. */
  lemma FormFieldTrimmed(field: Option<string>)
    ensures FormField(field) == Trim(FormField(field))
  {
    if field.Some? {
      TrimIdempotent(field.value);
    }
  }

  // ----------------------------------------------------------- attachments

  /** A chosen file; only its name is used. */
  datatype ChosenFile = ChosenFile(name: string)

  /** `files.map(f => f.name)`. */
  function FileNames(files: seq<ChosenFile>): (r: seq<string>)
    ensures |r| == |files|
    ensures forall i :: 0 <= i < |files| ==> r[i] == files[i].name
  {
    seq(|files|, i requires 0 <= i < |files| => files[i].name)
  }

  // ------------------------------------------------------------ the form

  /** The composer's state. */
  class PostInput {
    var title: string
    var content: string
    var isSubmitting: bool
    var expanded: bool
    var showLinkInput: bool
    var linkUrl: string
    var imageNames: seq<string>
    var posts: seq<NewRow>
    var newPost: string

    /** Both fields stay within their caps. */
    predicate Valid()
      reads this
    {
      |title| <= TitleLimit && |content| <= ContentLimit
    }

    /** An empty, folded composer. */
    constructor ()
      ensures Valid()
      ensures title == "" && content == "" && !isSubmitting && !expanded
      ensures !showLinkInput && linkUrl == "" && imageNames == [] && posts == [] && newPost == ""
    {
      title, content, isSubmitting, expanded := "", "", false, false;
      showLinkInput, linkUrl, imageNames, posts, newPost := false, "", [], [], "";
    }

    /** The title field's change handler: keep the first 80 characters; the draft copy takes all of it. */
    method OnTitleChange(value: string)
      requires Valid()
      modifies this
      ensures Valid()
      ensures title == Capped(value, TitleLimit) && newPost == value
      ensures content == old(content) && expanded == old(expanded) && isSubmitting == old(isSubmitting)
      ensures showLinkInput == old(showLinkInput) && linkUrl == old(linkUrl) && imageNames == old(imageNames)
      ensures posts == old(posts)
    {
      title := Take(value, TitleLimit);
      newPost := value;
    }

    /** The description field's change handler: keep the first 500 characters. */
    method OnContentChange(value: string)
      requires Valid()
      modifies this
      ensures Valid()
      ensures content == Capped(value, ContentLimit)
      ensures title == old(title) && expanded == old(expanded) && isSubmitting == old(isSubmitting)
      ensures showLinkInput == old(showLinkInput) && linkUrl == old(linkUrl) && imageNames == old(imageNames)
      ensures posts == old(posts) && newPost == old(newPost)
    {
      content := Take(value, ContentLimit);
    }

    /** Focusing the title unfolds the form. */
    method OnTitleFocus()
      modifies this
      ensures expanded
      ensures title == old(title) && content == old(content) && isSubmitting == old(isSubmitting)
      ensures showLinkInput == old(showLinkInput) && linkUrl == old(linkUrl) && imageNames == old(imageNames)
      ensures posts == old(posts) && newPost == old(newPost)
    {
      expanded := true;
    }

    /**
     * `handleSubmit`. While the button is off nothing happens. Otherwise the
     * form's trimmed fields are inserted (`row`); when the insert replies, the
     * row it returns is appended on success and the draft copy cleared, an
     * error is only logged, and in both cases a payload is handed on and both
     * fields are cleared. The payload's title is the trimmed form field, since
     * the handler's local `title` shadows the state's, while its content is
     * the trimmed state description. The title input is bound to the state
     * (`value={title}`), so with `formTitle == Some(title)` the two agree and
     * the payload's title is not blank. An exception from the insert skips all
     * of that and keeps the fields. The in-flight flag is down afterwards
     * whatever happened.
     */
    method HandleSubmit(formTitle: Option<string>, formDescription: Option<string>, reply: Reply<NewRow>)
      returns (row: Option<NewRow>, payload: Option<Payload>)
      requires Valid()
      modifies this
      ensures Valid()
      ensures Disabled(old(isSubmitting), old(title), old(content)) ==>
        row.None? && payload.None? && title == old(title) && content == old(content)
        && isSubmitting == old(isSubmitting) && posts == old(posts) && newPost == old(newPost)
      ensures !Disabled(old(isSubmitting), old(title), old(content)) ==>
        row == Some(NewRow(FormField(formTitle), FormField(formDescription))) && !isSubmitting
      ensures !Disabled(old(isSubmitting), old(title), old(content)) && !reply.Threw? ==>
        payload == Some(Payload(FormField(formTitle), Trim(old(content))))
        && payload.value.content != "" && title == "" && content == ""
      ensures !Disabled(old(isSubmitting), old(title), old(content)) && !reply.Threw? && formTitle == Some(old(title)) ==>
        payload.value.title == Trim(old(title)) && payload.value.title != ""
      ensures !Disabled(old(isSubmitting), old(title), old(content)) && reply.Ok? ==>
        posts == old(posts) + [reply.data] && newPost == ""
      ensures !Disabled(old(isSubmitting), old(title), old(content)) && !reply.Ok? ==>
        posts == old(posts) && newPost == old(newPost)
      ensures !Disabled(old(isSubmitting), old(title), old(content)) && reply.Threw? ==>
        payload.None? && title == old(title) && content == old(content)
      ensures expanded == old(expanded) && showLinkInput == old(showLinkInput)
      ensures linkUrl == old(linkUrl) && imageNames == old(imageNames)
    {
      if isSubmitting || IsBlank(title) || IsBlank(content) {
        return None, None;
      }
      var sentTitle := FormField(formTitle);
      var sentDescription := FormField(formDescription);
      isSubmitting := true;
      row := Some(NewRow(sentTitle, sentDescription));
      payload := None;
      match reply {
        case Threw =>
        case Err =>
          payload := Some(Payload(sentTitle, Trim(content)));
          title := "";
          content := "";
        case Ok(inserted) =>
          posts := posts + [inserted];
          newPost := "";
          payload := Some(Payload(sentTitle, Trim(content)));
          title := "";
          content := "";
      }
      isSubmitting := false;
    }

    /**
     * `handleBlurForm`, with `focusInside` telling whether, once focus has
     * settled, it is still inside the form. The form folds only when both
     * fields are blank and focus has left it.
     */
    method HandleBlur(focusInside: bool)
      modifies this
      ensures expanded == (old(expanded) && !(IsBlank(title) && IsBlank(content) && !focusInside))
      ensures title == old(title) && content == old(content) && isSubmitting == old(isSubmitting)
      ensures showLinkInput == old(showLinkInput) && linkUrl == old(linkUrl) && imageNames == old(imageNames)
      ensures posts == old(posts) && newPost == old(newPost)
    {
      if IsBlank(title) && IsBlank(content) {
        if !focusInside {
          expanded := false;
        }
      }
    }

    /** `handlePickImages`: unfold the form (the file picker itself opens outside the model). */
    method HandlePickImages()
      modifies this
      ensures expanded
      ensures title == old(title) && content == old(content) && isSubmitting == old(isSubmitting)
      ensures showLinkInput == old(showLinkInput) && linkUrl == old(linkUrl) && imageNames == old(imageNames)
      ensures posts == old(posts) && newPost == old(newPost)
    {
      expanded := true;
    }

    /** `handleImagesChange`: the chosen files' names in order; choosing some also unfolds the form. */
    method HandleImagesChange(files: seq<ChosenFile>)
      modifies this
      ensures imageNames == FileNames(files)
      ensures expanded == (old(expanded) || |files| > 0)
      ensures title == old(title) && content == old(content) && isSubmitting == old(isSubmitting)
      ensures showLinkInput == old(showLinkInput) && linkUrl == old(linkUrl)
      ensures posts == old(posts) && newPost == old(newPost)
    {
      if |files| > 0 {
        imageNames := FileNames(files);
        expanded := true;
      } else {
        imageNames := [];
      }
    }

    /** `handleAddLink`: unfold the form and show the link field. */
    method HandleAddLink()
      modifies this
      ensures expanded && showLinkInput
      ensures title == old(title) && content == old(content) && isSubmitting == old(isSubmitting)
      ensures linkUrl == old(linkUrl) && imageNames == old(imageNames)
      ensures posts == old(posts) && newPost == old(newPost)
    {
      expanded := true;
      showLinkInput := true;
    }

    /** The link field's change handler. */
    method OnLinkChange(value: string)
      modifies this
      ensures linkUrl == value
      ensures title == old(title) && content == old(content) && isSubmitting == old(isSubmitting)
      ensures expanded == old(expanded) && showLinkInput == old(showLinkInput) && imageNames == old(imageNames)
      ensures posts == old(posts) && newPost == old(newPost)
    {
      linkUrl := value;
    }

    /** `handleClearLink`: empty the link and hide its field; the form stays as it is. */
    method HandleClearLink()
      modifies this
      ensures linkUrl == "" && !showLinkInput
      ensures title == old(title) && content == old(content) && isSubmitting == old(isSubmitting)
      ensures expanded == old(expanded) && imageNames == old(imageNames)
      ensures posts == old(posts) && newPost == old(newPost)
    {
      linkUrl := "";
      showLinkInput := false;
    }
  }
}
