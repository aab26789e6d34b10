/**
 * The post card of the feed: the displayed (possibly truncated) content,
 * the links the card and its author header lead to, and the owner-only
 * post menu.
 */
module PostCard {
  import opened Wrappers
  import opened Text

  const DisplayLimit: nat := 512
  const Ellipsis := "..."

  /** Content longer than 512 characters is cut to its first 512 and marked with "...". */
  function DisplayContent(content: string): (r: string)
    ensures |content| <= DisplayLimit ==> r == content
    ensures |content| > DisplayLimit ==> |r| == DisplayLimit + |Ellipsis| && r[DisplayLimit..] == Ellipsis
    ensures |r| <= DisplayLimit + |Ellipsis|
    ensures var n := if |content| < DisplayLimit then |content| else DisplayLimit;
      r[..n] == content[..n]
  {
    if |content| > DisplayLimit then content[..DisplayLimit] + Ellipsis else content
  }

  /**
   * The card shows the content verbatim exactly when it is short enough, or
   * when it already has the truncated shape: 512 characters followed by "...".
   */
  lemma DisplayUnchangedIff(content: string)
    ensures DisplayContent(content) == content <==>
      |content| <= DisplayLimit || (|content| == DisplayLimit + |Ellipsis| && content[DisplayLimit..] == Ellipsis)
  {
    if |content| > DisplayLimit && |content| == DisplayLimit + |Ellipsis| && content[DisplayLimit..] == Ellipsis {
      assert content == content[..DisplayLimit] + content[DisplayLimit..];
    }
  }

  /** Displaying displayed text again leaves it as it is. */
  lemma DisplayIdempotent(content: string)
    ensures DisplayContent(DisplayContent(content)) == DisplayContent(content)
  {
    DisplayUnchangedIff(DisplayContent(content));
  }

  /** The profile page of a user. */
  function AuthorHref(username: Option<string>): (r: string)
    ensures |r| == |LinkName(username)| + 1 && r[0] == '/' && r[1..] == LinkName(username)
  {
    "/" + LinkName(username)
  }

  /** The page of one post, under its author's profile. */
  function PostHref(username: Option<string>, postId: string): (r: string)
    ensures AuthorHref(username) + "/" <= r
    ensures r[|LinkName(username)| + 2..] == postId
  {
    "/" + LinkName(username) + "/" + postId
  }

  /**
   * For ids without a slash, the links are the routes `/[username]` and
   * `/[username]/[postId]`: their path segments are exactly the ids, and a
   * missing username becomes the segment "null".
   */
  lemma HrefSegments(username: Option<string>, postId: string)
    requires username.Some? ==> '/' !in username.value
    requires '/' !in postId
    ensures Split(AuthorHref(username), '/') == ["", LinkName(username)]
    ensures Split(PostHref(username, postId), '/') == ["", LinkName(username), postId]
    ensures AuthorHref(username) <= PostHref(username, postId)
  {
    var name := LinkName(username);
    var parts := ["", name, postId];
    assert Join(parts[2..], '/') == postId;
    assert Join(parts[1..], '/') == name + "/" + postId by {
      assert parts[1..][1..] == parts[2..];
    }
    assert Join(parts, '/') == PostHref(username, postId);
    SplitJoin(["", name], '/');
    SplitJoin(parts, '/');
  }

  datatype MenuItem = Delete

  /** What the card renders for one post. */
  datatype Card = Card(href: string, authorHref: string, handle: string, menu: seq<MenuItem>, text: string)

  /**
   * Renders a post by `username`; only its owner gets the menu, whose one
   * item is Delete. The handle is rendered as JSX text, where a missing
   * username prints nothing.
   */
  function RenderPost(username: Option<string>, postId: string, content: string, isMyPost: bool): (r: Card)
    ensures r.href == PostHref(username, postId) && r.authorHref == AuthorHref(username)
    ensures username.Some? ==> r.handle == "@" + username.value
    ensures username.None? ==> r.handle == "@"
    ensures Delete in r.menu <==> isMyPost
    ensures |r.menu| <= 1
    ensures r.text == DisplayContent(content)
  {
    Card(PostHref(username, postId), AuthorHref(username), "@" + username.GetOr(""),
         if isMyPost then [Delete] else [], DisplayContent(content))
  }

  /**
   * A post whose author has no username links to "/null" and "/null/<id>",
   * which are the profile and post routes of a user named "null", and shows
   * the bare handle "@".
   */
  lemma NullUsernameCard(postId: string, content: string, isMyPost: bool)
    ensures var card := RenderPost(None, postId, content, isMyPost);
      && card.authorHref == "/null"
      && card.href == "/null/" + postId
      && card.handle == "@"
  {
    var card := RenderPost(None, postId, content, isMyPost);
    assert card.href[..6] == "/null/";
    assert card.href == card.href[..6] + card.href[6..];
  }
}
