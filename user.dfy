/** The user profile document. */
module UserModel {
  import opened Wrappers
  import opened RankingModel

  datatype User = User(
    id: Option<string>,
    email: string,
    displayName: string,
    photoURL: Option<string>,
    bio: Option<string>,
    followers: seq<string>,
    following: seq<string>,
    favoriteCategories: seq<Category>,
    createdAt: int,
    lastActive: int)

  /** A profile is complete when it has a display name and a photo. */
  predicate IsProfileComplete(u: User) {
    |u.displayName| > 0 && u.photoURL.Some?
  }

  /** An empty display name makes a profile incomplete, whatever the photo. */
  lemma EmptyNameIsIncomplete(u: User, photo: Option<string>)
    requires u.displayName == ""
    ensures !IsProfileComplete(u.(photoURL := photo))
  {
  }

  /** A missing photo makes a profile incomplete, whatever the name. */
  lemma MissingPhotoIsIncomplete(u: User, name: string)
    requires u.photoURL.None?
    ensures !IsProfileComplete(u.(displayName := name))
  {
  }

  /** Completeness holds exactly for a non-empty name with a photo and ignores every mutable field. */
  lemma CompletenessIgnoresMutableFields(u: User, bio: Option<string>, followers: seq<string>,
                                         following: seq<string>, cats: seq<Category>, lastActive: int)
    ensures IsProfileComplete(u) <==> u.displayName != "" && u.photoURL != None
    ensures IsProfileComplete(u.(bio := bio, followers := followers, following := following,
                                 favoriteCategories := cats, lastActive := lastActive))
            == IsProfileComplete(u)
  {
  }

  /** `b` agrees with `a` on every field declared `let`. */
  predicate ProfileIdentityKept(a: User, b: User) {
    a.id == b.id && a.email == b.email && a.displayName == b.displayName
    && a.photoURL == b.photoURL && a.createdAt == b.createdAt
  }

  /** The raw strings an array of categories is written as, in the given order. */
  function EncodeCategories(cs: seq<Category>): (raw: seq<string>)
    ensures |raw| == |cs|
    ensures forall i :: 0 <= i < |cs| ==> raw[i] == RawValue(cs[i])
  {
    if cs == [] then [] else [RawValue(cs[0])] + EncodeCategories(cs[1..])
  }

  /** Decoding an array of raw strings; it fails if any entry is not a category. */
  function DecodeCategories(raw: seq<string>): (r: Option<seq<Category>>)
    ensures r.Some? ==> |r.value| == |raw|
  {
    if raw == [] then Some([])
    else match (ParseCategory(raw[0]), DecodeCategories(raw[1..]))
      case (Some(c), Some(cs)) => Some([c] + cs)
      case _ => None
  }

  /** Writing favourite categories as raw values and reading them back gives the same list. */
  lemma {:induction false} CategoriesRoundTrip(cs: seq<Category>)
    ensures DecodeCategories(EncodeCategories(cs)) == Some(cs)
  {
    if cs != [] {
      RawValueRoundTrip(cs[0]);
      CategoriesRoundTrip(cs[1..]);
      assert EncodeCategories(cs)[1..] == EncodeCategories(cs[1..]);
      assert [cs[0]] + cs[1..] == cs;
    }
  }
}
