/** The detail screen's actions on one ranking: like, comment, delete. */
module RankingDetail {
  import opened Wrappers
  import opened RankingModel
  import opened Store

  /** The comment `addComment(_:to:)` builds from the text, the author, a fresh id and the clock. */
  function NewComment(commentId: string, userId: string, text: string, now: int): Comment {
    Comment(commentId, userId, text, now)
  }

  /** Increments add up: liking `a` times and then `b` times is liking `a + b` times. */
  lemma LikesAccumulate(db: Db, id: string, a: int, b: int)
    requires Valid(db) && id in db.rankings
    ensures IncrementLikes(IncrementLikes(db, id, a).value, id, b) == IncrementLikes(db, id, a + b)
  {
    var m := db.rankings;
    assert AddLikes(AddLikes(m, id, a), id, b) == AddLikes(m, id, a + b);
  }

  /** Three likes in a row are one increment by three: the count rises by exactly three, nothing else changes. */
  lemma ThreeLikesAddThree(db: Db, id: string)
    requires Valid(db) && id in db.rankings
    ensures var twice := IncrementLikes(IncrementLikes(db, id, 1).value, id, 1).value;
      IncrementLikes(twice, id, 1) == IncrementLikes(db, id, 3)
  {
    LikesAccumulate(db, id, 1, 1);
    LikesAccumulate(db, id, 2, 1);
  }

  /** A comment with a fresh id is appended at the end of the thread. */
  lemma FreshCommentAppended(db: Db, id: string, c: Comment)
    requires Valid(db) && id in db.rankings && c !in db.rankings[id].comments
    ensures UnionComments(db, id, [c]).value.rankings[id].comments == db.rankings[id].comments + [c]
  {
    var cs := db.rankings[id].comments;
    var r := ArrayUnion(cs, [c]);
    assert [c][1..] == [];
    assert r == ArrayUnion(cs + [c], []);
  }

  /** Sending the very same comment again leaves the thread as it is. */
  lemma RepeatedCommentIgnored(db: Db, id: string, c: Comment)
    requires Valid(db) && id in db.rankings && c in db.rankings[id].comments
    ensures UnionComments(db, id, [c]).value == db
  {
    ArrayUnionPresent(db.rankings[id].comments, [c]);
    var after := UnionComments(db, id, [c]).value;
    assert after.rankings[id] == db.rankings[id];
    assert after.rankings == db.rankings;
  }

  /** After a delete no query can return the ranking, and a second delete changes nothing. */
  lemma DeleteIsFinal(db: Db, id: string)
    requires Valid(db)
    ensures forall r :: r in Recent(DeleteDocument(db, id)) ==> r.id != Some(id)
    ensures DeleteDocument(DeleteDocument(db, id), id) == DeleteDocument(db, id)
  {
    var once := DeleteDocument(db, id);
    assert id !in once.index;
    WithoutAbsent(once.index, id);
    assert once.rankings - {id} == once.rankings;
  }

  class RankingDetailViewModel {
    var db: Db
    var error: Option<StoreError>
    var isLoading: bool

    ghost predicate Valid()
      reads this
    {
      Store.Valid(db)
    }

    constructor (db: Db)
      requires Store.Valid(db)
      ensures Valid() && this.db == db && error == None && !isLoading
    {
      this.db := db;
      error := None;
      isLoading := false;
    }

    /** `likeRanking(_:)`. */
    method LikeRanking(ranking: Ranking, fails: bool)
      requires Valid()
      modifies this
      ensures Valid() && isLoading == old(isLoading)
      ensures ranking.id.None? ==> db == old(db) && error == old(error)
      ensures ranking.id.Some? ==>
        var write := Call(fails, IncrementLikes(old(db), ranking.id.value, 1));
        && (write.Ok? ==> db == write.value && error == old(error))
        && (write.Err? ==> db == old(db) && error == Some(write.error))
    {
      if ranking.id.None? {
        return;
      }
      var write := Call(fails, IncrementLikes(db, ranking.id.value, 1));
      match write {
        case Ok(updated) => db := updated;
        case Err(e) => error := Some(e);
      }
    }

    /**
     * `addComment(_:to:)` by the signed-in user `currentUser`; `commentId`
     * stands for the fresh UUID and `now` for the clock.
     */
    method AddComment(comment: string, ranking: Ranking, currentUser: Option<string>,
                      commentId: string, now: int, fails: bool)
      requires Valid()
      modifies this
      ensures Valid() && isLoading == old(isLoading)
      ensures ranking.id.None? || currentUser.None? ==> db == old(db) && error == old(error)
      ensures ranking.id.Some? && currentUser.Some? ==>
        var c := NewComment(commentId, currentUser.value, comment, now);
        var write := Call(fails, UnionComments(old(db), ranking.id.value, [c]));
        && (write.Ok? ==> db == write.value && error == old(error))
        && (write.Err? ==> db == old(db) && error == Some(write.error))
    {
      if ranking.id.None? || currentUser.None? {
        return;
      }
      var newComment := NewComment(commentId, currentUser.value, comment, now);
      var write := Call(fails, UnionComments(db, ranking.id.value, [newComment]));
      match write {
        case Ok(updated) => db := updated;
        case Err(e) => error := Some(e);
      }
    }

    /** `deleteRanking(_:)`: no ownership test is made before the delete. */
    method DeleteRanking(ranking: Ranking, fails: bool)
      requires Valid()
      modifies this
      ensures Valid() && isLoading == old(isLoading)
      ensures ranking.id.None? || fails ==> db == old(db)
      ensures ranking.id.None? ==> error == old(error)
      ensures ranking.id.Some? && fails ==> error == Some(Unavailable)
      ensures ranking.id.Some? && !fails ==> db == DeleteDocument(old(db), ranking.id.value) && error == old(error)
    {
      if ranking.id.None? {
        return;
      }
      var write := Call(fails, Ok(DeleteDocument(db, ranking.id.value)));
      match write {
        case Ok(updated) => db := updated;
        case Err(e) => error := Some(e);
      }
    }
  }
}
