/**
 * The notification popover: the unread badge, the "mark all as read"
 * button state, and the rows rendered from the notification list, with
 * each row's link, message and unread dot.
 */
module Notifications {
  import opened Wrappers
  import opened Schema
  import opened Text

  /**
   * A notification as the list query returns it: sender, type, link target
   * and read flag. The sender is an identity-provider user, whose username
   * may be missing.
   */
  datatype Notification = Notification(id: string, fromUsername: Option<string>, kind: NotificationType, link: string, read: bool)

  /** The state of the list query: still loading, and the data it has, if any. */
  datatype Query = Query(isLoading: bool, data: Option<seq<Notification>>)

  /** The unread notifications, in list order. */
  function Unread(ns: seq<Notification>): (r: seq<Notification>)
    ensures |r| <= |ns|
    ensures forall i :: 0 <= i < |r| ==> !r[i].read && r[i] in ns
    ensures forall i :: 0 <= i < |ns| && !ns[i].read ==> ns[i] in r
    ensures r == [] <==> forall i :: 0 <= i < |ns| ==> ns[i].read
  {
    if ns == [] then []
    else if ns[0].read then Unread(ns[1..])
    else [ns[0]] + Unread(ns[1..])
  }

  /** Counting unread notifications distributes over concatenated lists. */
  lemma {:induction false} UnreadAppend(a: seq<Notification>, b: seq<Notification>)
    ensures Unread(a + b) == Unread(a) + Unread(b)
  {
    if a != [] {
      assert (a + b)[0] == a[0];
      assert (a + b)[1..] == a[1..] + b;
      UnreadAppend(a[1..], b);
    } else {
      assert a + b == b;
    }
  }

  /** The number on the bell: unread notifications, or 0 while there is no data. */
  function BadgeCount(q: Query): (r: nat)
    ensures q.data.None? ==> r == 0
    ensures q.data.Some? ==> r <= |q.data.value|
    ensures r == 0 <==> q.data.None? || forall i :: 0 <= i < |q.data.value| ==> q.data.value[i].read
  {
    match q.data
    case None => 0
    case Some(ns) => |Unread(ns)|
  }

  /** The "mark all as read" button state, as the five disabling conditions. */
  function MarkAllDisabled(mutationLoading: bool, q: Query): (r: bool)
    ensures !r <==>
      && !mutationLoading && !q.isLoading && q.data.Some?
      && exists i :: 0 <= i < |q.data.value| && !q.data.value[i].read
  {
    || mutationLoading
    || q.isLoading
    || q.data.None?
    || |q.data.value| == 0
    || |Unread(q.data.value)| == 0
  }

  /** The empty-list condition is subsumed by the no-unread condition. */
  lemma MarkAllEmptyTestRedundant(mutationLoading: bool, q: Query)
    ensures MarkAllDisabled(mutationLoading, q) ==
      (mutationLoading || q.isLoading || q.data.None? || BadgeCount(q) == 0)
  {
  }

  /** Where clicking a notification leads, by its type. */
  function Href(n: Notification): (r: string)
    ensures n.kind == Follow ==> r == "/" + LinkName(n.fromUsername)
    ensures n.kind == Like ==> r == "/" + LinkName(n.fromUsername) + "/" + n.link
    ensures n.kind == Comment ==> r == "/" + LinkName(n.fromUsername) + "//" + n.link
    ensures n.kind in {MentionPost, MentionComment} <==> r == ""
  {
    var user := LinkName(n.fromUsername);
    match n.kind
    case Follow => "/" + user
    case Like => "/" + user + "/" + n.link
    case Comment => "/" + user + "//" + n.link
    case _ => ""
  }

  /**
   * Path segments of the links: a like points at the post page, while a
   * comment's doubled slash puts an empty segment between user and post.
   * A missing username becomes the segment "null".
   */
  lemma HrefSegments(n: Notification)
    requires n.fromUsername.Some? ==> '/' !in n.fromUsername.value
    requires '/' !in n.link
    ensures n.kind == Follow ==> Split(Href(n), '/') == ["", LinkName(n.fromUsername)]
    ensures n.kind == Like ==> Split(Href(n), '/') == ["", LinkName(n.fromUsername), n.link]
    ensures n.kind == Comment ==> Split(Href(n), '/') == ["", LinkName(n.fromUsername), "", n.link]
  {
    var u, l := LinkName(n.fromUsername), n.link;
    var follow, like, comment := ["", u], ["", u, l], ["", u, "", l];
    JoinCons("", [u], '/');
    assert Join(follow, '/') == "/" + u;
    JoinCons(u, [l], '/');
    JoinCons("", [u, l], '/');
    assert Join(like, '/') == "/" + u + "/" + l;
    JoinCons("", [l], '/');
    JoinCons(u, ["", l], '/');
    JoinCons("", [u, "", l], '/');
    assert Join(comment, '/') == "/" + u + "//" + l;
    SplitJoin(follow, '/');
    SplitJoin(like, '/');
    SplitJoin(comment, '/');
  }

  /** The sentence after the sender's handle, by type. */
  function Message(kind: NotificationType): (r: string)
    ensures kind == Follow ==> r == "started following you"
    ensures kind == Like ==> r == "liked your post"
    ensures kind == Comment ==> r == "commented on your post"
    ensures r == "" <==> kind in {MentionPost, MentionComment}
  {
    match kind
    case Follow => "started following you"
    case Like => "liked your post"
    case Comment => "commented on your post"
    case _ => ""
  }

  /** The two switches agree: a notification links somewhere exactly when it has a message. */
  lemma HrefIffMessage(n: Notification)
    ensures Href(n) == "" <==> Message(n.kind) == ""
  {
  }

  /** One rendered notification row. */
  datatype Row = Row(href: string, avatarHref: string, text: string, unreadDot: bool)

  /** The popover body: placeholder rows while loading, a notice for an empty list, or the rows. */
  datatype Panel = Skeletons(count: nat) | NoNotifications | Rows(rows: seq<Row>)

  const SkeletonCount: nat := 11

  /**
   * One row: the links interpolate the sender's username ("null" when it is
   * missing), while the JSX text prints a missing username as nothing.
   */
  function RenderRow(n: Notification): (r: Row)
    ensures r.unreadDot <==> !n.read
    ensures r.href == Href(n) && r.avatarHref == "/" + LinkName(n.fromUsername)
    ensures n.fromUsername.Some? ==> r.text == "@" + n.fromUsername.value + " " + Message(n.kind)
    ensures n.fromUsername.None? ==> r.text == "@ " + Message(n.kind)
  {
    Row(Href(n), "/" + LinkName(n.fromUsername), "@" + n.fromUsername.GetOr("") + " " + Message(n.kind), !n.read)
  }

  /**
   * A sender without a username gives links under "/null" and the text
   * "@ " followed by the message.
   */
  lemma NullSenderRow(id: string, kind: NotificationType, link: string, read: bool)
    ensures var r := RenderRow(Notification(id, None, kind, link, read));
      && r.avatarHref == "/null"
      && (kind == Follow ==> r.href == "/null")
      && (kind == Like ==> r.href == "/null/" + link)
      && (kind == Comment ==> r.href == "/null//" + link)
      && (kind == Follow ==> r.text == "@ started following you")
  {
  }

  function RenderPanel(q: Query): (r: Panel)
    ensures q.isLoading || q.data.None? <==> r == Skeletons(SkeletonCount)
    ensures r == NoNotifications <==> !q.isLoading && q.data == Some([])
    ensures !q.isLoading && q.data.Some? && q.data.value != [] ==> r.Rows?
    ensures r.Rows? ==>
      && q.data.Some? && |r.rows| == |q.data.value| >= 1
      && forall i :: 0 <= i < |r.rows| ==> r.rows[i] == RenderRow(q.data.value[i])
  {
    if q.isLoading || q.data.None? then Skeletons(SkeletonCount)
    else if |q.data.value| == 0 then NoNotifications
    else Rows(seq(|q.data.value|, i requires 0 <= i < |q.data.value| => RenderRow(q.data.value[i])))
  }

  /** The number of unread dots on screen equals the badge count. */
  lemma DotsMatchBadge(q: Query)
    requires RenderPanel(q).Rows?
    ensures |set i | 0 <= i < |RenderPanel(q).rows| && RenderPanel(q).rows[i].unreadDot| == BadgeCount(q)
  {
    var ns := q.data.value;
    UnreadIndicesCount(ns);
    var rows := RenderPanel(q).rows;
    assert (set i | 0 <= i < |rows| && rows[i].unreadDot) == UnreadIndices(ns);
  }

  /** The positions of the unread entries. */
  function UnreadIndices(ns: seq<Notification>): set<int> {
    set i | 0 <= i < |ns| && !ns[i].read
  }

  /** Appending one entry adds its position to the unread positions exactly when it is unread. */
  lemma UnreadIndicesSnoc(ns: seq<Notification>)
    requires ns != []
    ensures |UnreadIndices(ns)| == |UnreadIndices(ns[..|ns| - 1])| + (if ns[|ns| - 1].read then 0 else 1)
  {
    var n := |ns| - 1;
    var front := UnreadIndices(ns[..n]);
    assert n !in front;
    if ns[n].read {
      assert UnreadIndices(ns) == front;
    } else {
      assert UnreadIndices(ns) == front + {n};
    }
  }

  /** The unread notifications are counted by the positions of unread entries. */
  lemma {:induction false} UnreadIndicesCount(ns: seq<Notification>)
    ensures |UnreadIndices(ns)| == |Unread(ns)|
  {
    if ns != [] {
      var n := |ns| - 1;
      UnreadIndicesCount(ns[..n]);
      UnreadIndicesSnoc(ns);
      assert ns == ns[..n] + [ns[n]];
      UnreadAppend(ns[..n], [ns[n]]);
    }
  }
}
