/** The profile screen's data: the user's own rankings, profile edits, follow and unfollow. */
module Profile {
  import opened Wrappers
  import opened RankingModel
  import opened UserModel
  import opened Store

  /** The rankings `userId` created, newest first. */
  function UserRankings(db: Db, userId: string): seq<Ranking>
    requires Valid(db)
  {
    Where(Recent(db), OwnerIs(userId))
  }

  /** The query returns every ranking of the user and nothing else, newest first. */
  lemma UserRankingsExact(db: Db, userId: string)
    requires Valid(db)
    ensures forall k :: k in db.rankings && db.rankings[k].userId == userId ==> db.rankings[k] in UserRankings(db, userId)
    ensures forall r :: r in UserRankings(db, userId) ==> r.userId == userId && r.id.Some? && r.id.value in db.rankings
    ensures NewestFirst(UserRankings(db, userId)) && DistinctIds(UserRankings(db, userId))
  {
  }

  /** The store after a pair of writes and the error reported, if any. */
  datatype Outcome = Outcome(db: Db, error: Option<StoreError>)

  /**
   * The two writes of following or unfollowing: first the current user's
   * `following`, then, only if that succeeded, the other user's `followers`.
   * The writes are not atomic: the first stays when the second fails.
   */
  function EdgeWrites(db: Db, me: string, userId: string, mine: ArrayEdit, theirs: ArrayEdit,
                      firstFails: bool, secondFails: bool): (r: Outcome)
    requires Valid(db)
    ensures Valid(r.db)
    ensures r.db.rankings == db.rankings && r.db.index == db.index && r.db.users.Keys == db.users.Keys
    ensures r.error.None? <==> !firstFails && !secondFails && me in db.users && userId in db.users
    ensures firstFails || me !in db.users ==> r.db == db
    ensures forall k :: k in db.users && k != me && k != userId ==> r.db.users[k] == db.users[k]
    ensures r.error.None? ==> r.db.users == EditUser(EditUser(db.users, me, Following, mine), userId, Followers, theirs)
  {
    match Call(firstFails, UpdateUserArray(db, me, Following, mine))
    case Err(e) => Outcome(db, Some(e))
    case Ok(afterFirst) =>
      match Call(secondFails, UpdateUserArray(afterFirst, userId, Followers, theirs))
      case Err(e) => Outcome(afterFirst, Some(e))
      case Ok(afterSecond) => Outcome(afterSecond, None)
  }

  /** The profiles after one array write to the profile of `uid`. */
  function EditUser(users: map<string, User>, uid: string, f: ArrayField, e: ArrayEdit): (r: map<string, User>)
    requires uid in users
    ensures r.Keys == users.Keys
  {
    users[uid := WithArray(users[uid], f, Apply(e, ArrayOf(users[uid], f)))]
  }

  /** `followUser(_:)`'s writes. */
  function Follow(db: Db, me: string, userId: string, firstFails: bool, secondFails: bool): Outcome
    requires Valid(db)
  {
    EdgeWrites(db, me, userId, Union([userId]), Union([me]), firstFails, secondFails)
  }

  /** `unfollowUser(_:)`'s writes. */
  function Unfollow(db: Db, me: string, userId: string, firstFails: bool, secondFails: bool): Outcome
    requires Valid(db)
  {
    EdgeWrites(db, me, userId, Remove([userId]), Remove([me]), firstFails, secondFails)
  }

  /** A follow that succeeds records the edge on both profiles and adds nothing else to them. */
  lemma FollowRecordsBothSides(db: Db, me: string, userId: string)
    requires Valid(db) && me in db.users && userId in db.users
    ensures var r := Follow(db, me, userId, false, false);
      && r.error == None
      && (forall x :: x in r.db.users[me].following <==> x in db.users[me].following || x == userId)
      && (forall x :: x in r.db.users[userId].followers <==> x in db.users[userId].followers || x == me)
  {
    var first := UpdateUserArray(db, me, Following, Union([userId])).value;
    var second := UpdateUserArray(first, userId, Followers, Union([me])).value;
    assert Follow(db, me, userId, false, false).db == second;
    assert second.users[me].following == first.users[me].following;
    assert first.users[userId].followers == db.users[userId].followers;
  }

  /** An unfollow that succeeds removes the edge from both profiles and removes nothing else. */
  lemma UnfollowRemovesBothSides(db: Db, me: string, userId: string)
    requires Valid(db) && me in db.users && userId in db.users
    ensures var r := Unfollow(db, me, userId, false, false);
      && r.error == None
      && (forall x :: x in r.db.users[me].following <==> x in db.users[me].following && x != userId)
      && (forall x :: x in r.db.users[userId].followers <==> x in db.users[userId].followers && x != me)
  {
    var first := UpdateUserArray(db, me, Following, Remove([userId])).value;
    var second := UpdateUserArray(first, userId, Followers, Remove([me])).value;
    assert Unfollow(db, me, userId, false, false).db == second;
    assert second.users[me].following == first.users[me].following;
    assert first.users[userId].followers == db.users[userId].followers;
  }

  /** Unfollowing someone not followed, who does not list the user as a follower, changes nothing. */
  lemma UnfollowAbsentIsNoop(db: Db, me: string, userId: string)
    requires Valid(db) && me in db.users && userId in db.users
    requires userId !in db.users[me].following && me !in db.users[userId].followers
    ensures Unfollow(db, me, userId, false, false).db == db
  {
    var after := Unfollow(db, me, userId, false, false).db;
    RemoveAbsentKeepsUser(db.users, me, Following, userId);
    var u1 := EditUser(db.users, me, Following, Remove([userId]));
    assert u1[userId].followers == db.users[userId].followers;
    RemoveAbsentKeepsUser(u1, userId, Followers, me);
    assert after.users == db.users;
  }

  lemma RemoveAbsentKeepsUser(users: map<string, User>, uid: string, f: ArrayField, x: string)
    requires uid in users && x !in ArrayOf(users[uid], f)
    ensures EditUser(users, uid, f, Remove([x])) == users
  {
    ArrayRemoveAbsent(ArrayOf(users[uid], f), [x]);
    assert WithArray(users[uid], f, ArrayOf(users[uid], f)) == users[uid] by { match f { case Following => case Followers => } }
  }

  /** Following someone already followed changes nothing. */
  lemma FollowIdempotent(db: Db, me: string, userId: string)
    requires Valid(db) && me in db.users && userId in db.users
    ensures var once := Follow(db, me, userId, false, false).db;
      Follow(once, me, userId, false, false).db == once
  {
    var once := Follow(db, me, userId, false, false).db;
    var twice := Follow(once, me, userId, false, false).db;
    UnionTwiceKeepsUsers(db.users, me, userId);
    assert twice.users == once.users;
  }

  lemma UnionTwiceKeepsUsers(users: map<string, User>, me: string, userId: string)
    requires me in users && userId in users
    ensures var once := EditUser(EditUser(users, me, Following, Union([userId])), userId, Followers, Union([me]));
      EditUser(EditUser(once, me, Following, Union([userId])), userId, Followers, Union([me])) == once
  {
    var once := EditUser(EditUser(users, me, Following, Union([userId])), userId, Followers, Union([me]));
    UnionPresentKeepsUser(once, me, Following, userId);
    UnionPresentKeepsUser(once, userId, Followers, me);
  }

  /** A union of an element the array holds already leaves the profiles as they are. */
  lemma UnionPresentKeepsUser(users: map<string, User>, uid: string, f: ArrayField, x: string)
    requires uid in users && x in ArrayOf(users[uid], f)
    ensures EditUser(users, uid, f, Union([x])) == users
  {
    ArrayUnionPresent(ArrayOf(users[uid], f), [x]);
    assert WithArray(users[uid], f, ArrayOf(users[uid], f)) == users[uid] by { match f { case Following => case Followers => } }
  }

  /** Unfollowing right after a fresh follow restores both profiles exactly. */
  lemma UnfollowUndoesFollow(db: Db, me: string, userId: string)
    requires Valid(db) && me in db.users && userId in db.users
    requires userId !in db.users[me].following && me !in db.users[userId].followers
    ensures var followed := Follow(db, me, userId, false, false).db;
      Unfollow(followed, me, userId, false, false).db == db
  {
    var followed := Follow(db, me, userId, false, false).db;
    var back := Unfollow(followed, me, userId, false, false).db;
    RemoveUndoesUnion(db.users, me, userId);
    assert back.users == db.users;
  }

  lemma RemoveUndoesUnion(users: map<string, User>, me: string, userId: string)
    requires me in users && userId in users
    requires userId !in users[me].following && me !in users[userId].followers
    ensures var u2 := EditUser(EditUser(users, me, Following, Union([userId])), userId, Followers, Union([me]));
      EditUser(EditUser(u2, me, Following, Remove([userId])), userId, Followers, Remove([me])) == users
  {
    var u1 := EditUser(users, me, Following, Union([userId]));
    EditsOfTwoFieldsCommute(u1, userId, Followers, Union([me]), me, Following, Remove([userId]));
    RemoveUndoesUnionOfOne(users, me, Following, userId);
    RemoveUndoesUnionOfOne(users, userId, Followers, me);
  }

  /** Writes to different array fields can be applied in either order. */
  lemma EditsOfTwoFieldsCommute(users: map<string, User>, a: string, f: ArrayField, e: ArrayEdit,
                                b: string, g: ArrayField, d: ArrayEdit)
    requires a in users && b in users && f != g
    ensures EditUser(EditUser(users, a, f, e), b, g, d) == EditUser(EditUser(users, b, g, d), a, f, e)
  {
    if a == b {
      SameProfileEditsCommute(users, a, f, e, g, d);
    } else {
      OtherProfileEditsCommute(users, a, f, e, b, g, d);
    }
  }

  lemma SameProfileEditsCommute(users: map<string, User>, a: string, f: ArrayField, e: ArrayEdit,
                                g: ArrayField, d: ArrayEdit)
    requires a in users && f != g
    ensures EditUser(EditUser(users, a, f, e), a, g, d) == EditUser(EditUser(users, a, g, d), a, f, e)
  {
    var u := users[a];
    var x, y := Apply(e, ArrayOf(u, f)), Apply(d, ArrayOf(u, g));
    OtherFieldUntouched(u, f, g, x);
    OtherFieldUntouched(u, g, f, y);
    FieldWritesCommute(u, f, x, g, y);
  }

  lemma OtherProfileEditsCommute(users: map<string, User>, a: string, f: ArrayField, e: ArrayEdit,
                                 b: string, g: ArrayField, d: ArrayEdit)
    requires a in users && b in users && a != b
    ensures EditUser(EditUser(users, a, f, e), b, g, d) == EditUser(EditUser(users, b, g, d), a, f, e)
  {
    OtherUserUntouched(users, a, f, e, b);
    OtherUserUntouched(users, b, g, d, a);
  }

  /** An array write to one profile leaves every other profile as it was. */
  lemma OtherUserUntouched(users: map<string, User>, a: string, f: ArrayField, e: ArrayEdit, b: string)
    requires a in users && b in users && a != b
    ensures EditUser(users, a, f, e)[b] == users[b]
  {
  }

  lemma OtherFieldUntouched(u: User, f: ArrayField, g: ArrayField, v: seq<string>)
    requires f != g
    ensures ArrayOf(WithArray(u, f, v), g) == ArrayOf(u, g)
  {
    match f { case Following => case Followers => }
  }

  lemma FieldWritesCommute(u: User, f: ArrayField, x: seq<string>, g: ArrayField, y: seq<string>)
    requires f != g
    ensures WithArray(WithArray(u, f, x), g, y) == WithArray(WithArray(u, g, y), f, x)
  {
    match f { case Following => case Followers => }
  }

  /** A removal of an element a union has just added to an array not holding it restores the profiles. */
  lemma RemoveUndoesUnionOfOne(users: map<string, User>, uid: string, f: ArrayField, x: string)
    requires uid in users && x !in ArrayOf(users[uid], f)
    ensures EditUser(EditUser(users, uid, f, Union([x])), uid, f, Remove([x])) == users
  {
    ArrayUnionThenRemove(ArrayOf(users[uid], f), [x]);
    EditTwiceRestores(users, uid, f, Union([x]), Remove([x]));
  }

  /** Two writes to one array whose second undoes the first restore the profiles. */
  lemma EditTwiceRestores(users: map<string, User>, uid: string, f: ArrayField, first: ArrayEdit, second: ArrayEdit)
    requires uid in users
    requires Apply(second, Apply(first, ArrayOf(users[uid], f))) == ArrayOf(users[uid], f)
    ensures EditUser(EditUser(users, uid, f, first), uid, f, second) == users
  {
    var u := users[uid];
    var v := Apply(first, ArrayOf(u, f));
    WrittenArrayReads(u, f, v);
    RewriteRestores(u, f, v);
  }

  lemma WrittenArrayReads(u: User, f: ArrayField, v: seq<string>)
    ensures ArrayOf(WithArray(u, f, v), f) == v
  {
    match f { case Following => case Followers => }
  }

  /** Writing an array and then writing back its old contents restores the profile. */
  lemma RewriteRestores(u: User, f: ArrayField, v: seq<string>)
    ensures WithArray(WithArray(u, f, v), f, ArrayOf(u, f)) == u
  {
    match f { case Following => case Followers => }
  }

  /** When only the first write goes through, the follow is recorded on one side alone. */
  lemma HalfFollowKeepsFirstWrite(db: Db, me: string, userId: string, secondFails: bool)
    requires Valid(db) && me in db.users
    requires secondFails || userId !in db.users
    ensures var r := Follow(db, me, userId, false, secondFails);
      && r.error.Some?
      && userId in r.db.users[me].following
      && (userId in db.users && userId != me ==> r.db.users[userId] == db.users[userId])
  {
  }

  class ProfileViewModel {
    var db: Db
    var rankings: seq<Ranking>
    var error: Option<StoreError>
    var isLoading: bool

    ghost predicate Valid()
      reads this
    {
      Store.Valid(db)
    }

    constructor (db: Db)
      requires Store.Valid(db)
      ensures Valid() && this.db == db && rankings == [] && error == None && !isLoading
    {
      this.db := db;
      rankings := [];
      error := None;
      isLoading := false;
    }

    /** `fetchUserRankings()` for the signed-in user `currentUser`. */
    method FetchUserRankings(currentUser: Option<string>, fails: bool)
      requires Valid()
      modifies this
      ensures Valid() && db == old(db)
      ensures currentUser.None? ==> rankings == old(rankings) && error == old(error) && isLoading == old(isLoading)
      ensures currentUser.Some? ==> !isLoading
      ensures currentUser.Some? && fails ==> rankings == old(rankings) && error == Some(Unavailable)
      ensures currentUser.Some? && !fails ==> rankings == UserRankings(db, currentUser.value) && error == old(error)
    {
      if currentUser.None? {
        return;
      }
      var userId := currentUser.value;
      isLoading := true;
      var snapshot := Call(fails, Ok(UserRankings(db, userId)));
      match snapshot {
        case Ok(documents) => rankings := documents;
        case Err(e) => error := Some(e);
      }
      isLoading := false;
    }

    /** `updateProfile(bio:favoriteCategories:)`. */
    method UpdateProfile(currentUser: Option<string>, bio: string, favoriteCategories: seq<Category>, fails: bool)
      requires Valid()
      modifies this
      ensures Valid() && rankings == old(rankings) && isLoading == old(isLoading)
      ensures currentUser.None? ==> db == old(db) && error == old(error)
      ensures currentUser.Some? ==>
        var write := Call(fails, UpdateProfileFields(old(db), currentUser.value, bio, favoriteCategories));
        && (write.Ok? ==> db == write.value && error == old(error))
        && (write.Err? ==> db == old(db) && error == Some(write.error))
    {
      if currentUser.None? {
        return;
      }
      var write := Call(fails, UpdateProfileFields(db, currentUser.value, bio, favoriteCategories));
      match write {
        case Ok(updated) => db := updated;
        case Err(e) => error := Some(e);
      }
    }

    /** Applies a pair of follow-graph writes; the error, if any, is reported. */
    method WriteEdges(me: string, userId: string, mine: ArrayEdit, theirs: ArrayEdit,
                      firstFails: bool, secondFails: bool)
      requires Valid()
      modifies this
      ensures Valid() && rankings == old(rankings) && isLoading == old(isLoading)
      ensures var r := EdgeWrites(old(db), me, userId, mine, theirs, firstFails, secondFails);
        db == r.db && error == (if r.error.Some? then r.error else old(error))
    {
      var first := Call(firstFails, UpdateUserArray(db, me, Following, mine));
      match first {
        case Err(e) =>
          error := Some(e);
        case Ok(afterFirst) =>
          db := afterFirst;
          var second := Call(secondFails, UpdateUserArray(db, userId, Followers, theirs));
          match second {
            case Err(e) => error := Some(e);
            case Ok(afterSecond) => db := afterSecond;
          }
      }
    }

    /** `followUser(_:)`. */
    method FollowUser(currentUser: Option<string>, userId: string, firstFails: bool, secondFails: bool)
      requires Valid()
      modifies this
      ensures Valid() && rankings == old(rankings) && isLoading == old(isLoading)
      ensures currentUser.None? ==> db == old(db) && error == old(error)
      ensures currentUser.Some? ==>
        var r := Follow(old(db), currentUser.value, userId, firstFails, secondFails);
        db == r.db && error == (if r.error.Some? then r.error else old(error))
    {
      if currentUser.None? {
        return;
      }
      WriteEdges(currentUser.value, userId, Union([userId]), Union([currentUser.value]), firstFails, secondFails);
    }

    /** `unfollowUser(_:)`. */
    method UnfollowUser(currentUser: Option<string>, userId: string, firstFails: bool, secondFails: bool)
      requires Valid()
      modifies this
      ensures Valid() && rankings == old(rankings) && isLoading == old(isLoading)
      ensures currentUser.None? ==> db == old(db) && error == old(error)
      ensures currentUser.Some? ==>
        var r := Unfollow(old(db), currentUser.value, userId, firstFails, secondFails);
        db == r.db && error == (if r.error.Some? then r.error else old(error))
    {
      if currentUser.None? {
        return;
      }
      WriteEdges(currentUser.value, userId, Remove([userId]), Remove([currentUser.value]), firstFails, secondFails);
    }
  }
}
