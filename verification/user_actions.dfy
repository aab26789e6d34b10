/**
 * The user server actions: follow and unfollow over the two mirrored
 * edge tables, the bio update and the program/account-type update on the
 * user table. Each action is one step from a database state to a result;
 * every error is raised before the first write, so a `Failure` leaves
 * the state as it was.
 */
module UserActions {
  import opened Wrappers
  import opened Schema

  type UserId = string

  /** A row of either edge table, by its two id columns. */
  datatype Edge = Edge(followerId: UserId, followeeId: UserId) {
    /** The same pair with the columns exchanged. */
    function Swap(): Edge {
      Edge(followeeId, followerId)
    }
  }

  /** A subset of the user columns; the actions write only `bio`, `programId` and `accountType`, and the rest stay as they were. */
  datatype UserRow = UserRow(
    name: string,
    email: string,
    username: Option<string>,
    bio: Option<string>,
    link: Option<string>,
    accountType: Option<AccountType>,
    programId: Option<string>)

  /**
   * The tables the actions touch. `followers` holds (caller, target) rows;
   * `followees` holds the same relationship with the columns swapped.
   * Rows are counted, since neither table has a uniqueness constraint.
   */
  datatype Db = Db(users: map<UserId, UserRow>, followers: multiset<Edge>, followees: multiset<Edge>)

  datatype ActionError = UserNotFound | AlreadyFollowing {
    /** The message the thrown error carries. */
    function Message(): string {
      match this
      case UserNotFound => "User not found"
      case AlreadyFollowing => "Already following user"
    }
  }

  /**
   * The session guard `!userId`: a missing id and the empty string are
   * both falsy, so both are rejected.
   */
  predicate SignedIn(caller: Option<UserId>) {
    caller.Some? && caller.value != ""
  }

  /** Every `followers` row has exactly as many column-swapped copies in `followees`. */
  ghost predicate Mirrored(db: Db) {
    forall e: Edge :: db.followers[e] == db.followees[e.Swap()]
  }

  /** No pair appears twice in either table. */
  ghost predicate NoDuplicates(db: Db) {
    forall e: Edge :: db.followers[e] <= 1 && db.followees[e] <= 1
  }

  ghost predicate Valid(db: Db) {
    Mirrored(db) && NoDuplicates(db)
  }

  /** Under the mirror, (a, b) follows in one table exactly when (b, a) is in the other. */
  lemma MirroredMembership(db: Db, a: UserId, b: UserId)
    requires Mirrored(db)
    ensures Edge(a, b) in db.followers <==> Edge(b, a) in db.followees
  {
    assert db.followers[Edge(a, b)] == db.followees[Edge(a, b).Swap()];
  }

  /** The first write of a follow: one row into `followers`. */
  function InsertFollower(db: Db, e: Edge): (r: Db)
    ensures r.users == db.users && r.followees == db.followees
    ensures r.followers[e] == db.followers[e] + 1
    ensures forall x :: x != e ==> r.followers[x] == db.followers[x]
  {
    db.(followers := db.followers + multiset{e})
  }

  /** The second write of a follow: one row into `followees`. */
  function InsertFollowee(db: Db, e: Edge): (r: Db)
    ensures r.users == db.users && r.followers == db.followers
    ensures r.followees[e] == db.followees[e] + 1
    ensures forall x :: x != e ==> r.followees[x] == db.followees[x]
  {
    db.(followees := db.followees + multiset{e})
  }

  /**
   * Follow `target` as the authenticated caller. Only `followers` is
   * consulted for an existing edge; there is no self-follow check.
   */
  function FollowUser(db: Db, caller: Option<UserId>, target: UserId): (r: Result<Db, ActionError>)
    ensures !SignedIn(caller) ==> r == Failure(UserNotFound)
    ensures SignedIn(caller) && Edge(caller.value, target) in db.followers ==> r == Failure(AlreadyFollowing)
    ensures r.Success? <==> SignedIn(caller) && Edge(caller.value, target) !in db.followers
    ensures r.Success? ==>
      var me := caller.value;
      && r.value.users == db.users
      && r.value.followers[Edge(me, target)] == 1
      && r.value.followees[Edge(target, me)] == db.followees[Edge(target, me)] + 1
      && (forall e :: e != Edge(me, target) ==> r.value.followers[e] == db.followers[e])
      && (forall e :: e != Edge(target, me) ==> r.value.followees[e] == db.followees[e])
  {
    if !SignedIn(caller) then Failure(UserNotFound)
    else
      var me := caller.value;
      if Edge(me, target) in db.followers then Failure(AlreadyFollowing)
      else Success(InsertFollowee(InsertFollower(db, Edge(me, target)), Edge(target, me)))
  }

  /** Unfollow `target`: delete every matching row from both tables. */
  function UnfollowUser(db: Db, caller: Option<UserId>, target: UserId): (r: Result<Db, ActionError>)
    ensures r.Success? <==> SignedIn(caller)
    ensures !SignedIn(caller) ==> r == Failure(UserNotFound)
    ensures r.Success? ==>
      var me := caller.value;
      && r.value.users == db.users
      && Edge(me, target) !in r.value.followers
      && Edge(target, me) !in r.value.followees
      && (forall e :: e != Edge(me, target) ==> r.value.followers[e] == db.followers[e])
      && (forall e :: e != Edge(target, me) ==> r.value.followees[e] == db.followees[e])
  {
    if !SignedIn(caller) then Failure(UserNotFound)
    else
      var me := caller.value;
      Success(db.(followers := db.followers[Edge(me, target) := 0],
                  followees := db.followees[Edge(target, me) := 0]))
  }

  /** An empty session id is rejected by every guarded action, exactly as a missing one. */
  lemma EmptyIdRejected(db: Db, target: UserId, bio: string)
    ensures FollowUser(db, Some(""), target) == Failure(UserNotFound)
    ensures UnfollowUser(db, Some(""), target) == Failure(UserNotFound)
    ensures UpdateBio(db, Some(""), "", bio) == Failure(UserNotFound)
  {
  }

  /** A successful follow keeps both tables mirrored and free of duplicates. */
  lemma FollowPreservesValid(db: Db, caller: Option<UserId>, target: UserId)
    requires Valid(db)
    requires FollowUser(db, caller, target).Success?
    ensures Valid(FollowUser(db, caller, target).value)
  {
    var me := caller.value;
    var r := FollowUser(db, caller, target).value;
    assert db.followees[Edge(target, me)] == 0 by {
      assert db.followers[Edge(me, target)] == db.followees[Edge(me, target).Swap()];
    }
    forall e: Edge
      ensures r.followers[e] == r.followees[e.Swap()]
      ensures r.followers[e] <= 1 && r.followees[e] <= 1
    {
      assert db.followers[e] == db.followees[e.Swap()];
      if e != Edge(me, target) {
        assert e.Swap() != Edge(target, me);
      }
    }
  }

  /** A successful unfollow keeps both tables mirrored and free of duplicates. */
  lemma UnfollowPreservesValid(db: Db, caller: Option<UserId>, target: UserId)
    requires Valid(db)
    requires UnfollowUser(db, caller, target).Success?
    ensures Valid(UnfollowUser(db, caller, target).value)
  {
    var me := caller.value;
    var r := UnfollowUser(db, caller, target).value;
    forall e: Edge
      ensures r.followers[e] == r.followees[e.Swap()]
      ensures r.followers[e] <= 1 && r.followees[e] <= 1
    {
      assert db.followers[e] == db.followees[e.Swap()];
      if e != Edge(me, target) {
        assert e.Swap() != Edge(target, me);
      }
    }
  }

  /**
   * The two follow inserts are separate writes: between them, a reader
   * sees a `followers` row with no mirror in `followees`.
   */
  lemma FollowIntermediateBreaksMirror(db: Db, me: UserId, target: UserId)
    requires Mirrored(db)
    ensures !Mirrored(InsertFollower(db, Edge(me, target)))
  {
    var mid := InsertFollower(db, Edge(me, target));
    assert db.followers[Edge(me, target)] == db.followees[Edge(me, target).Swap()];
    assert mid.followers[Edge(me, target)] != mid.followees[Edge(me, target).Swap()];
  }

  /**
   * Following and then unfollowing the same user restores both tables
   * exactly, from any state where the follow succeeds and `followees` has
   * no stale (target, caller) row; the rest of the tables need not be
   * mirrored.
   */
  lemma FollowUnfollowRoundTrip(db: Db, caller: Option<UserId>, target: UserId)
    requires FollowUser(db, caller, target).Success?
    requires Edge(target, caller.value) !in db.followees
    ensures UnfollowUser(FollowUser(db, caller, target).value, caller, target) == Success(db)
  {
    var mid := FollowUser(db, caller, target).value;
    var r := UnfollowUser(mid, caller, target).value;
    assert r.followers == db.followers by {
      forall e ensures r.followers[e] == db.followers[e] {
      }
    }
    assert r.followees == db.followees by {
      forall e ensures r.followees[e] == db.followees[e] {
      }
    }
  }

  /**
   * From a mirrored state the round trip always applies: a successful follow
   * there finds no (target, caller) row in `followees`.
   */
  lemma MirroredFollowUnfollowRoundTrip(db: Db, caller: Option<UserId>, target: UserId)
    requires Mirrored(db)
    requires FollowUser(db, caller, target).Success?
    ensures UnfollowUser(FollowUser(db, caller, target).value, caller, target) == Success(db)
  {
    var me := caller.value;
    assert db.followees[Edge(target, me)] == 0 by {
      assert db.followers[Edge(me, target)] == db.followees[Edge(me, target).Swap()];
    }
    FollowUnfollowRoundTrip(db, caller, target);
  }

  /**
   * With a stale (target, caller) row in `followees`, a follow and then an
   * unfollow do not restore the state: the unfollow deletes the stale row
   * together with the new one, and everything else is as before.
   */
  lemma FollowUnfollowClearsStaleFollowee(db: Db, caller: Option<UserId>, target: UserId)
    requires FollowUser(db, caller, target).Success?
    requires Edge(target, caller.value) in db.followees
    ensures var r := UnfollowUser(FollowUser(db, caller, target).value, caller, target);
      && r.Success? && r != Success(db)
      && r.value.followers == db.followers
      && r.value.users == db.users
      && r.value.followees == db.followees[Edge(target, caller.value) := 0]
  {
    var mid := FollowUser(db, caller, target).value;
    var r := UnfollowUser(mid, caller, target).value;
    assert r.followers == db.followers by {
      forall e ensures r.followers[e] == db.followers[e] {
      }
    }
    var expected := db.followees[Edge(target, caller.value) := 0];
    assert r.followees == expected by {
      forall e ensures r.followees[e] == expected[e] {
      }
    }
    assert r.followees[Edge(target, caller.value)] != db.followees[Edge(target, caller.value)];
  }

  /** After a successful unfollow, a second one succeeds and changes nothing. */
  lemma UnfollowIdempotent(db: Db, caller: Option<UserId>, target: UserId)
    ensures var first := UnfollowUser(db, caller, target);
      first.Success? ==> UnfollowUser(first.value, caller, target) == first
  {
    var first := UnfollowUser(db, caller, target);
    if first.Success? {
      var once := first.value;
      var twice := UnfollowUser(once, caller, target).value;
      assert twice.followers == once.followers by {
        forall e ensures twice.followers[e] == once.followers[e] {
        }
      }
      assert twice.followees == once.followees by {
        forall e ensures twice.followees[e] == once.followees[e] {
        }
      }
    }
  }

  /**
   * The duplicate check reads `followers` only: from a state whose mirror
   * is already broken, a follow puts a second copy of the row into
   * `followees`.
   */
  lemma FollowDuplicatesFolloweeWhenUnmirrored(users: map<UserId, UserRow>, me: UserId, target: UserId)
    ensures var db := Db(users, multiset{}, multiset{Edge(target, me)});
      me != "" ==>
        && FollowUser(db, Some(me), target).Success?
        && FollowUser(db, Some(me), target).value.followees[Edge(target, me)] == 2
    ensures me == "" ==> FollowUser(Db(users, multiset{}, multiset{Edge(target, me)}), Some(me), target) == Failure(UserNotFound)
  {
  }

  /** Applies `f` to the row of `id`; an update whose `where` matches no row changes nothing. */
  function UpdateWhere(users: map<UserId, UserRow>, id: UserId, f: UserRow -> UserRow): (r: map<UserId, UserRow>)
    ensures r.Keys == users.Keys
    ensures id in users ==> r[id] == f(users[id])
    ensures forall other :: other in users && other != id ==> r[other] == users[other]
  {
    if id in users then users[id := f(users[id])] else users
  }

  /** Set the caller's bio; the caller must be signed in and be the user named in the request. */
  function UpdateBio(db: Db, caller: Option<UserId>, userId: UserId, bio: string): (r: Result<Db, ActionError>)
    ensures r.Success? <==> SignedIn(caller) && caller.value == userId
    ensures r.Failure? ==> r.error == UserNotFound
    ensures r.Success? ==>
      && r.value.followers == db.followers && r.value.followees == db.followees
      && r.value.users.Keys == db.users.Keys
      && (userId in db.users ==>
            r.value.users[userId].bio == Some(bio)
            && r.value.users[userId].(bio := db.users[userId].bio) == db.users[userId])
      && (forall other :: other in db.users && other != userId ==> r.value.users[other] == db.users[other])
  {
    if !SignedIn(caller) || caller.value != userId then Failure(UserNotFound)
    else Success(db.(users := UpdateWhere(db.users, userId, (u: UserRow) => u.(bio := Some(bio)))))
  }

  /**
   * Record the program and account type chosen at sign-up. The action
   * performs no authentication check of its own.
   */
  function AddProgramToUserMetadata(db: Db, userId: UserId, programId: string, accountType: AccountType): (r: Db)
    ensures r.followers == db.followers && r.followees == db.followees
    ensures r.users.Keys == db.users.Keys
    ensures userId in db.users ==>
      && r.users[userId].programId == Some(programId)
      && r.users[userId].accountType == Some(accountType)
      && r.users[userId].(programId := db.users[userId].programId, accountType := db.users[userId].accountType)
         == db.users[userId]
    ensures forall other :: other in db.users && other != userId ==> r.users[other] == db.users[other]
  {
    db.(users := UpdateWhere(db.users, userId,
      (u: UserRow) => u.(programId := Some(programId), accountType := Some(accountType))))
  }
}
