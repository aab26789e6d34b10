/**
 * The update-post dialog: its schema (a non-empty post id and non-empty
 * content, with no trimming and no upper bound), the dirty check that
 * guards the update, the submit-button state and the reset on opening.
 */
module UpdatePost {
  import opened Wrappers
  import opened Text
  import opened Zod
  import PostForm

  const EmptyMessage := "Post cannot be empty."

  /** The form values; they are sent to the update mutation as they are. */
  datatype Values = Values(postId: string, content: string)

  /** The stored post the dialog edits. */
  datatype Post = Post(id: string, content: string)

  /** The form state: the values it was last reset to, the current values, and whether a submit is running. */
  datatype Form = Form(defaults: Values, values: Values, isSubmitting: bool)

  /** The update schema; each of the two length checks reports its own issue. */
  function ValidateUpdate(v: Values): (r: Result<Values, seq<Issue>>)
    ensures r.Success? <==> |v.postId| >= 1 && |v.content| >= 1
    ensures r.Success? ==> r.value == v
    ensures r.Failure? ==> 1 <= |r.error| <= 2
    ensures |v.content| == 0 ==> r.Failure? && TooSmall("content", 1, EmptyMessage) in r.error
  {
    var issues :=
      (if |v.postId| < 1 then [TooSmall("post_id", 1, DefaultMinOneMessage)] else [])
      + (if |v.content| < 1 then [TooSmall("content", 1, EmptyMessage)] else []);
    if issues == [] then Success(v) else Failure(issues)
  }

  /** The update schema accepts content the create schema refuses: whitespace only, or past 512 characters. */
  lemma UpdateLooserThanCreate(postId: string, content: string)
    requires |postId| >= 1 && |content| >= 1
    requires AllWhitespace(content) || |content| > PostForm.MaxPostLength
    ensures ValidateUpdate(Values(postId, content)).Success?
    ensures AllWhitespace(content) ==> PostForm.ValidatePost(PostForm.PostInput(content, None)).Failure?
  {
    if AllWhitespace(content) {
      PostForm.WhitespaceOnlyRejected(PostForm.PostInput(content, None));
    }
  }

  /** The form differs from the values it was last reset to, compared field by field. */
  predicate IsDirty(f: Form)
    ensures IsDirty(f) <==> f.values.postId != f.defaults.postId || f.values.content != f.defaults.content
  {
    f.values != f.defaults
  }

  function PostValues(post: Post): Values {
    Values(post.id, post.content)
  }

  /** The form as first created for `post`. */
  function NewForm(post: Post): (r: Form)
    ensures !IsDirty(r) && !r.isSubmitting
    ensures r.values == PostValues(post)
  {
    Form(PostValues(post), PostValues(post), false)
  }

  /** Opening the dialog resets the form to the post's current id and content. */
  function OnOpen(f: Form, open: bool, post: Post): (r: Form)
    ensures open ==> !IsDirty(r) && r.values == PostValues(post) && r.isSubmitting == f.isSubmitting
    ensures !open ==> r == f
  {
    if open then f.(defaults := PostValues(post), values := PostValues(post)) else f
  }

  /** The submit button: disabled while submitting or while nothing has been edited. */
  function SubmitDisabled(f: Form): (r: bool)
    ensures !r <==> !f.isSubmitting && f.values != f.defaults
  {
    f.isSubmitting || !IsDirty(f)
  }

  /**
   * What a submit does: an invalid form is stopped by the validator, a
   * clean form returns without calling the mutation, and a dirty valid
   * form sends its values; the dialog closes once the mutation has
   * completed, and stays open when it throws.
   */
  datatype SubmitOutcome = Invalid(issues: seq<Issue>) | Skipped | Updated(sent: Values, dialogClosed: bool)

  function Submit(f: Form, mutationSucceeds: bool): (r: SubmitOutcome)
    ensures r.Invalid? <==> ValidateUpdate(f.values).Failure?
    ensures r.Skipped? <==> ValidateUpdate(f.values).Success? && !IsDirty(f)
    ensures r.Updated? <==> ValidateUpdate(f.values).Success? && IsDirty(f)
    ensures r.Updated? ==> r.sent == f.values && (r.dialogClosed <==> mutationSucceeds)
  {
    match ValidateUpdate(f.values)
    case Failure(issues) => Invalid(issues)
    case Success(values) =>
      if !IsDirty(f) then Skipped
      else Updated(values, mutationSucceeds)
  }

  /** Right after opening, the button is disabled and a submit never reaches the mutation. */
  lemma OpenedFormSendsNothing(f: Form, post: Post, mutationSucceeds: bool)
    ensures SubmitDisabled(OnOpen(f, true, post))
    ensures !Submit(OnOpen(f, true, post), mutationSucceeds).Updated?
  {
  }

  /** An enabled button on a valid form always reaches the mutation with the edited values. */
  lemma EnabledValidSubmitSends(f: Form, mutationSucceeds: bool)
    requires !SubmitDisabled(f)
    requires |f.values.postId| >= 1 && |f.values.content| >= 1
    ensures Submit(f, mutationSucceeds) == Updated(f.values, mutationSucceeds)
  {
  }
}
