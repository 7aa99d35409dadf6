/** The ranking document, its items and comments, and the category enumeration. */
module RankingModel {
  import opened Wrappers

  /** The seven categories, in declaration order. */
  datatype Category = Movies | TVShows | Music | Books | Games | Restaurants | Other

  /** The raw string each category is stored and displayed as. */
  function RawValue(c: Category): string {
    match c
    case Movies => "Movies"
    case TVShows => "TV Shows"
    case Music => "Music"
    case Books => "Books"
    case Games => "Games"
    case Restaurants => "Restaurants"
    case Other => "Other"
  }

  /** The failable initialiser `Category(rawValue:)` used when a document is decoded. */
  function ParseCategory(s: string): (r: Option<Category>)
    ensures r.Some? ==> RawValue(r.value) == s
    ensures r.None? ==> forall c: Category :: RawValue(c) != s
  {
    if s == "Movies" then Some(Movies)
    else if s == "TV Shows" then Some(TVShows)
    else if s == "Music" then Some(Music)
    else if s == "Books" then Some(Books)
    else if s == "Games" then Some(Games)
    else if s == "Restaurants" then Some(Restaurants)
    else if s == "Other" then Some(Other)
    else None
  }

  /** Decoding the raw value of a category gives the category back. */
  lemma RawValueRoundTrip(c: Category)
    ensures ParseCategory(RawValue(c)) == Some(c)
  {
    RawValueInjective(c, ParseCategory(RawValue(c)).value);
  }

  /** No two categories share a raw value. */
  lemma RawValueInjective(c: Category, d: Category)
    ensures RawValue(c) == RawValue(d) ==> c == d
  {
    if RawValue(c) == RawValue(d) {
      assert RawValue(c)[0] == RawValue(d)[0] && |RawValue(c)| == |RawValue(d)|;
    }
  }

  /** `Category.allCases` (the enumeration is `CaseIterable`). */
  function AllCases(): (cs: seq<Category>)
    ensures |cs| == 7
    ensures forall i, j :: 0 <= i < j < |cs| ==> cs[i] != cs[j]
    ensures cs[0] == Movies && cs[6] == Other
  {
    [Movies, TVShows, Music, Books, Games, Restaurants, Other]
  }

  /** Every category is listed in `allCases`, at the position it has in the declaration. */
  lemma AllCasesListsEvery(c: Category)
    ensures c in AllCases()
    ensures AllCases()[Ordinal(c)] == c
  {
    match c
    case Movies =>
    case TVShows =>
    case Music =>
    case Books =>
    case Games =>
    case Restaurants =>
    case Other =>
  }

  /** The position of a case in the declaration. */
  function Ordinal(c: Category): nat {
    match c
    case Movies => 0
    case TVShows => 1
    case Music => 2
    case Books => 3
    case Games => 4
    case Restaurants => 5
    case Other => 6
  }

  /** A ranked entry; `rating` (a `Double` in the app) is carried and never computed with. */
  datatype RankingItem = RankingItem(
    id: string,
    title: string,
    description: Option<string>,
    imageURL: Option<string>,
    rating: real,
    position: int)

  datatype Comment = Comment(id: string, userId: string, text: string, createdAt: int)

  /** A ranking document; `id` is the document id, filled in when the document is read. */
  datatype Ranking = Ranking(
    id: Option<string>,
    title: string,
    category: Category,
    items: seq<RankingItem>,
    userId: string,
    createdAt: int,
    updatedAt: int,
    likes: int,
    comments: seq<Comment>)

  /** `b` agrees with `a` on every field declared `let`: only `likes` and `comments` may differ. */
  predicate FixedFieldsKept(a: Ranking, b: Ranking) {
    && a.id == b.id
    && a.title == b.title
    && a.category == b.category
    && a.items == b.items
    && a.userId == b.userId
    && a.createdAt == b.createdAt
    && a.updatedAt == b.updatedAt
  }
}
