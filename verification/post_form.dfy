/**
 * The create-post form: its schema (trimmed content of 1 to 512
 * characters, a post type defaulting to the first declared one), the
 * submit-button state and the page it redirects to after a successful post.
 */
module PostForm {
  import opened Wrappers
  import opened Schema
  import opened Text
  import opened Zod

  const MaxPostLength: nat := 512
  const EmptyMessage := "Post cannot be empty."
  const TooLongMessage := "Post cannot be longer than 512 characters."

  /** The raw form values: the textarea content and the selected type, if any. */
  datatype PostInput = PostInput(content: string, postType: Option<string>)

  /** A validated post, as handed to the create mutation. */
  datatype NewPost = NewPost(content: string, postType: PostType)

  /** The two length checks run on the trimmed content; both run, so every failing one is reported. */
  function ContentIssues(trimmed: string): (r: seq<Issue>)
    ensures r == [] <==> 1 <= |trimmed| <= MaxPostLength
    ensures |r| <= 1
  {
    (if |trimmed| < 1 then [TooSmall("content", 1, EmptyMessage)] else [])
    + (if |trimmed| > MaxPostLength then [TooBig("content", MaxPostLength, TooLongMessage)] else [])
  }

  /** The enum check on the type, after a missing type has been replaced by `PostTypes[0]`. */
  function ParseType(postType: Option<string>): (r: Result<PostType, Issue>)
    ensures postType.None? ==> r == Success(Following)
    ensures postType.Some? && r.Success? ==> PostTypeName(r.value) == postType.value
    ensures postType.Some? && r.Failure? ==> forall t: PostType :: PostTypeName(t) != postType.value
  {
    var name := postType.GetOr(PostTypeName(PostTypes[0]));
    match ParsePostType(name)
    case Some(t) => Success(t)
    case None => Failure(InvalidEnumValue("type", PostTypeNames(), name))
  }

  /** The create-post schema. */
  function ValidatePost(input: PostInput): (r: Result<NewPost, seq<Issue>>)
    ensures r.Success? <==>
      && 1 <= |Trim(input.content)| <= MaxPostLength
      && (input.postType.None? || ParsePostType(input.postType.value).Some?)
    ensures r.Success? ==> r.value.content == Trim(input.content)
    ensures r.Success? && input.postType.None? ==> r.value.postType == Following
    ensures r.Success? && input.postType.Some? ==> PostTypeName(r.value.postType) == input.postType.value
    ensures r.Failure? ==> 1 <= |r.error| <= 2
  {
    var content := Trim(input.content);
    var issues := ContentIssues(content);
    match ParseType(input.postType)
    case Success(t) => if issues == [] then Success(NewPost(content, t)) else Failure(issues)
    case Failure(issue) => Failure(issues + [issue])
  }

  /** Whitespace-only content is rejected as empty, whatever its raw length. */
  lemma WhitespaceOnlyRejected(input: PostInput)
    requires AllWhitespace(input.content)
    ensures ValidatePost(input).Failure?
    ensures ValidatePost(input).error[0] == TooSmall("content", 1, EmptyMessage)
  {
    TrimEmptyIffWhitespace(input.content);
  }

  /** Content whose trimmed form is longer than 512 characters is rejected as too long. */
  lemma TooLongRejected(input: PostInput)
    requires |Trim(input.content)| > MaxPostLength
    ensures ValidatePost(input).Failure?
    ensures ValidatePost(input).error[0] == TooBig("content", MaxPostLength, TooLongMessage)
  {
  }

  /**
   * The length limit applies after trimming: any amount of surrounding
   * whitespace is accepted and dropped, even when it pushes the raw input
   * past 512 characters.
   */
  lemma PaddingIsDropped(p: string, s: string, q: string, postType: Option<string>)
    requires AllWhitespace(p) && AllWhitespace(q)
    requires NotPadded(s) && 1 <= |s| <= MaxPostLength
    requires postType.None? || ParsePostType(postType.value).Some?
    ensures ValidatePost(PostInput(p + s + q, postType)).Success?
    ensures ValidatePost(PostInput(p + s + q, postType)).value.content == s
  {
    TrimOfPadded(p, s, q);
  }

  /** Content that is its own trim, with a named type, validates to exactly that post. */
  lemma ValidateTrimmed(content: string, t: PostType)
    requires Trim(content) == content && 1 <= |content| <= MaxPostLength
    ensures ValidatePost(PostInput(content, Some(PostTypeName(t)))) == Success(NewPost(content, t))
  {
    ParseTypeOfName(t);
  }

  lemma ParseTypeOfName(t: PostType)
    ensures ParseType(Some(PostTypeName(t))) == Success(t)
  {
    NamesRoundTrip(Student, t, Like);
  }

  /** Validating a validated post again gives the same post. */
  lemma ValidateIdempotent(input: PostInput, post: NewPost)
    requires ValidatePost(input) == Success(post)
    ensures ValidatePost(PostInput(post.content, Some(PostTypeName(post.postType)))) == Success(post)
  {
    assert post.content == Trim(input.content) && 1 <= |post.content| <= MaxPostLength;
    TrimIdempotent(input.content);
    ValidateTrimmed(post.content, post.postType);
  }

  /** The submit button is enabled only for a valid form that is not already being submitted. */
  function SubmitDisabled(isSubmitting: bool, values: PostInput): (r: bool)
    ensures r <==>
      || isSubmitting
      || !(1 <= |Trim(values.content)| <= MaxPostLength)
      || (values.postType.Some? && ParsePostType(values.postType.value).None?)
  {
    isSubmitting || ValidatePost(values).Failure?
  }

  /** When no submit is running, the button is enabled exactly for the values the schema accepts. */
  lemma SubmitEnabledIffAccepted(values: PostInput)
    ensures !SubmitDisabled(false, values) <==> ValidatePost(values).Success?
  {
  }

  /** The form's initial values (empty content, type "following") cannot be submitted. */
  lemma InitialFormDisabled()
    ensures SubmitDisabled(false, PostInput("", Some("following")))
  {
    assert Trim("") == "";
  }

  /** Where the browser goes after a successful post: the home feed, on the tab of the post's type. */
  function RedirectPath(t: PostType): (r: string)
    ensures r == "/" <==> t == Following
    ensures t != Following ==> TabPrefix <= r
  {
    if t == Following then "/" else TabPrefix + PostTypeName(t)
  }

  const TabPrefix := "/?tab="

  /**
   * This model's reading of a redirect path: "/" stands for the default
   * "following" tab, and "/?tab=" is followed by a post-type name. The
   * home feed's own handling of `tab` is not part of this model.
   */
  function SelectedTab(path: string): Option<PostType> {
    if path == "/" then Some(Following)
    else if TabPrefix <= path then ParsePostType(path[|TabPrefix|..])
    else None
  }

  /** The redirect always lands on the tab of the type just posted. */
  lemma RedirectSelectsPostedTab(t: PostType)
    ensures SelectedTab(RedirectPath(t)) == Some(t)
  {
    if t != Following {
      var r := RedirectPath(t);
      assert r[|TabPrefix|..] == PostTypeName(t);
    }
  }
}
