/**
 * The enumerations of the relational schema: account types, post types
 * (the visibility scope of a post) and notification types, each with its
 * wire name and a parser that is its exact inverse.
 */
module Schema {
  import opened Wrappers

  datatype AccountType = Student | Faculty | Alumni

  datatype PostType = Following | Program | College | Campus | All

  datatype NotificationType = Like | Comment | Follow | MentionPost | MentionComment

  /** The post types in declaration order; the order matters for `PostTypes[0]`. */
  const PostTypes: seq<PostType> := [Following, Program, College, Campus, All]

  function AccountTypeName(t: AccountType): string {
    match t
    case Student => "student"
    case Faculty => "faculty"
    case Alumni => "alumni"
  }

  function PostTypeName(t: PostType): string {
    match t
    case Following => "following"
    case Program => "program"
    case College => "college"
    case Campus => "campus"
    case All => "all"
  }

  function NotificationTypeName(t: NotificationType): string {
    match t
    case Like => "like"
    case Comment => "comment"
    case Follow => "follow"
    case MentionPost => "mention_post"
    case MentionComment => "mention_comment"
  }

  /** The names a post-type enum validator accepts, in declaration order. */
  function PostTypeNames(): (r: seq<string>)
    ensures |r| == |PostTypes|
    ensures forall i :: 0 <= i < |r| ==> r[i] == PostTypeName(PostTypes[i])
    ensures forall s :: s in r <==> ParsePostType(s).Some?
  {
    ["following", "program", "college", "campus", "all"]
  }

  /** Parses an account-type name; exactly the three declared names are accepted. */
  function ParseAccountType(s: string): (r: Option<AccountType>)
    ensures r.Some? ==> AccountTypeName(r.value) == s
    ensures r.None? ==> forall t: AccountType :: AccountTypeName(t) != s
  {
    if s == "student" then Some(Student)
    else if s == "faculty" then Some(Faculty)
    else if s == "alumni" then Some(Alumni)
    else None
  }

  /** Parses a post-type name; exactly the five declared names are accepted. */
  function ParsePostType(s: string): (r: Option<PostType>)
    ensures r.Some? ==> PostTypeName(r.value) == s
    ensures r.None? ==> forall t: PostType :: PostTypeName(t) != s
  {
    if s == "following" then Some(Following)
    else if s == "program" then Some(Program)
    else if s == "college" then Some(College)
    else if s == "campus" then Some(Campus)
    else if s == "all" then Some(All)
    else None
  }

  /** Parses a notification-type name; exactly the five declared names are accepted. */
  function ParseNotificationType(s: string): (r: Option<NotificationType>)
    ensures r.Some? ==> NotificationTypeName(r.value) == s
    ensures r.None? ==> forall t: NotificationType :: NotificationTypeName(t) != s
  {
    if s == "like" then Some(Like)
    else if s == "comment" then Some(Comment)
    else if s == "follow" then Some(Follow)
    else if s == "mention_post" then Some(MentionPost)
    else if s == "mention_comment" then Some(MentionComment)
    else None
  }

  /** Names and parsers are mutually inverse, for all three enumerations. */
  lemma NamesRoundTrip(a: AccountType, p: PostType, n: NotificationType)
    ensures ParseAccountType(AccountTypeName(a)) == Some(a)
    ensures ParsePostType(PostTypeName(p)) == Some(p)
    ensures ParseNotificationType(NotificationTypeName(n)) == Some(n)
  {
  }

  /** Every post type is listed exactly once, so the list is the enumeration. */
  lemma PostTypesComplete(p: PostType)
    ensures p in PostTypes
    ensures PostTypes[0] == Following
    ensures forall i, j :: 0 <= i < j < |PostTypes| ==> PostTypes[i] != PostTypes[j]
  {
  }
}
