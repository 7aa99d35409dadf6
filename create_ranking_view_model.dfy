/** Publishing a new ranking: image uploads for the items, then one new document. */
module CreateRanking {
  import opened Wrappers
  import opened RankingModel
  import opened Store
  import Profile

  /** An item as handed to `createRanking`, with whether image data waits to be uploaded. */
  datatype DraftItem = DraftItem(item: RankingItem, hasImageData: bool)

  /** The upload of a pending image failed. */
  predicate UploadFails(d: DraftItem, upload: Option<string>) {
    d.hasImageData && upload.None?
  }

  /** The item as stored: a pending image replaced by the URL its upload returned. */
  function WithUpload(d: DraftItem, upload: Option<string>): RankingItem {
    if d.hasImageData && upload.Some? then d.item.(imageURL := upload) else d.item
  }

  /**
   * The items after the upload loop. `uploads[i]` is what uploading item `i`'s
   * image gives: a download URL, or `None` when the upload throws.
   */
  function UploadedItems(items: seq<DraftItem>, uploads: seq<Option<string>>): (r: Result<seq<RankingItem>>)
    requires |uploads| == |items|
    ensures r.Err? <==> exists i :: 0 <= i < |items| && UploadFails(items[i], uploads[i])
    ensures r.Err? ==> r.error == UploadFailed
    ensures r.Ok? ==> |r.value| == |items|
    ensures r.Ok? ==> forall i :: 0 <= i < |items| ==>
      && r.value[i].id == items[i].item.id && r.value[i].title == items[i].item.title
      && r.value[i].description == items[i].item.description
      && r.value[i].rating == items[i].item.rating && r.value[i].position == items[i].item.position
      && r.value[i].imageURL == (if items[i].hasImageData then uploads[i] else items[i].item.imageURL)
  {
    if items == [] then Ok([])
    else if UploadFails(items[0], uploads[0]) then Err(UploadFailed)
    else
      var rest := UploadedItems(items[1..], uploads[1..]);
      assert forall i :: 1 <= i < |items| ==> items[1..][i - 1] == items[i] && uploads[1..][i - 1] == uploads[i];
      match rest
      case Err(e) => Err(e)
      case Ok(tail) => Ok([WithUpload(items[0], uploads[0])] + tail)
  }

  /** The uid `createRanking` files the ranking under: the signed-in user's, or the empty string. */
  function OwnerOf(currentUser: Option<string>): string {
    match currentUser
    case Some(u) => u
    case None => ""
  }

  /** The record `createRanking` builds: no likes and no comments yet. */
  function NewRanking(title: string, category: Category, items: seq<RankingItem>, userId: string,
                      createdAt: int, updatedAt: int): Ranking
  {
    Ranking(None, title, category, items, userId, createdAt, updatedAt, 0, [])
  }

  /** A ranking created after every stored one opens the feed. */
  lemma NewestOpensFeed(db: Db, id: string, doc: Ranking)
    requires Valid(db) && id !in db.rankings
    requires forall k :: k in db.rankings ==> db.rankings[k].createdAt < doc.createdAt
    ensures Recent(AddDocument(db, id, doc))[0] == doc.(id := Some(id))
  {
    var after := AddDocument(db, id, doc);
    assert after.index[0] == id;
  }

  /** The new ranking shows on its author's profile. */
  lemma PublishedOnProfile(db: Db, id: string, doc: Ranking)
    requires Valid(db) && id !in db.rankings
    ensures doc.(id := Some(id)) in Profile.UserRankings(AddDocument(db, id, doc), doc.userId)
  {
    var after := AddDocument(db, id, doc);
    assert after.rankings[id] in Recent(after);
  }

  class CreateRankingViewModel {
    var db: Db
    var error: Option<StoreError>
    var isLoading: bool

    ghost predicate Valid()
      reads this
    {
      Store.Valid(db)
    }

    constructor (db: Db)
      requires Store.Valid(db)
      ensures Valid() && this.db == db && error == None && !isLoading
    {
      this.db := db;
      error := None;
      isLoading := false;
    }

    /** The `for (index, item) in items.enumerated()` loop; it stops at the first failed upload. */
    method UploadImages(items: seq<DraftItem>, uploads: seq<Option<string>>) returns (r: Result<seq<RankingItem>>)
      requires |uploads| == |items|
      ensures r == UploadedItems(items, uploads)
    {
      var updatedItems := seq(|items|, i requires 0 <= i < |items| => items[i].item);
      var index := 0;
      while index < |items|
        invariant 0 <= index <= |items| && |updatedItems| == |items|
        invariant forall j :: 0 <= j < index ==> !UploadFails(items[j], uploads[j])
        invariant forall j :: 0 <= j < index ==> updatedItems[j] == WithUpload(items[j], uploads[j])
        invariant forall j :: index <= j < |items| ==> updatedItems[j] == items[j].item
      {
        if items[index].hasImageData {
          match uploads[index] {
            case None =>
              return Err(UploadFailed);
            case Some(imageURL) =>
              updatedItems := updatedItems[index := updatedItems[index].(imageURL := Some(imageURL))];
          }
        }
        index := index + 1;
      }
      UploadedAllAgree(items, uploads, updatedItems);
      return Ok(updatedItems);
    }

    /**
     * `createRanking(title:category:items:)`. `newId` stands for the id the store
     * assigns; the two clock reads give `now` and then `now + elapsed`.
     */
    method CreateRanking(title: string, category: Category, items: seq<DraftItem>, uploads: seq<Option<string>>,
                         currentUser: Option<string>, newId: string, now: int, elapsed: nat, fails: bool)
      requires Valid() && |uploads| == |items| && newId !in db.rankings
      modifies this
      ensures Valid() && !isLoading
      ensures var uploaded := UploadedItems(items, uploads);
        && (uploaded.Err? ==> db == old(db) && error == Some(UploadFailed))
        && (uploaded.Ok? && fails ==> db == old(db) && error == Some(Unavailable))
        && (uploaded.Ok? && !fails ==>
              && error == old(error)
              && db == AddDocument(old(db), newId,
                         NewRanking(title, category, uploaded.value, OwnerOf(currentUser), now, now + elapsed)))
    {
      isLoading := true;
      var uploaded := UploadImages(items, uploads);
      match uploaded {
        case Err(e) =>
          error := Some(e);
        case Ok(updatedItems) =>
          var createdAt := now;
          var updatedAt := now + elapsed;
          var ranking := NewRanking(title, category, updatedItems, OwnerOf(currentUser), createdAt, updatedAt);
          assert ranking == NewRanking(title, category, UploadedItems(items, uploads).value,
                                       OwnerOf(currentUser), now, now + elapsed);
          AddRanking(newId, ranking, fails);
      }
      isLoading := false;
    }

    /** `addDocument(from:)` on the rankings collection. */
    method AddRanking(newId: string, ranking: Ranking, fails: bool)
      requires Valid() && newId !in db.rankings
      modifies this
      ensures Valid() && isLoading == old(isLoading)
      ensures fails ==> db == old(db) && error == Some(Unavailable)
      ensures !fails ==> db == AddDocument(old(db), newId, ranking) && error == old(error)
    {
      var write := Call(fails, Ok(AddDocument(db, newId, ranking)));
      match write {
        case Ok(added) => db := added;
        case Err(e) => error := Some(e);
      }
    }
  }

  /** When no upload failed, the loop's items are the uploaded items. */
  lemma UploadedAllAgree(items: seq<DraftItem>, uploads: seq<Option<string>>, updated: seq<RankingItem>)
    requires |uploads| == |items| && |updated| == |items|
    requires forall j :: 0 <= j < |items| ==> !UploadFails(items[j], uploads[j])
    requires forall j :: 0 <= j < |items| ==> updated[j] == WithUpload(items[j], uploads[j])
    ensures UploadedItems(items, uploads) == Ok(updated)
  {
    var r := UploadedItems(items, uploads);
    assert r.Ok?;
    assert r.value == updated;
  }

  /**
   * A successful publication adds exactly one document: the given title,
   * category and items, the signed-in user (or "") as owner, no likes, no
   * comments, created no later than it was updated; every other document stays.
   */
  lemma PublicationAddsOne(db: Db, newId: string, title: string, category: Category, items: seq<RankingItem>,
                           currentUser: Option<string>, now: int, elapsed: nat)
    requires Valid(db) && newId !in db.rankings
    ensures var after := AddDocument(db, newId, NewRanking(title, category, items, OwnerOf(currentUser), now, now + elapsed));
      var r := after.rankings[newId];
      && |after.rankings| == |db.rankings| + 1
      && after.rankings.Keys == db.rankings.Keys + {newId}
      && (forall k :: k in db.rankings ==> after.rankings[k] == db.rankings[k])
      && r.id == Some(newId) && r.title == title && r.category == category && r.items == items
      && r.userId == (if currentUser.Some? then currentUser.value else "")
      && r.createdAt <= r.updatedAt
      && r.likes == 0 && r.comments == []
  {
  }
}
