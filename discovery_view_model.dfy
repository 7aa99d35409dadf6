/** The discovery feed: recency pages, load-more, title search, category filter, likes. */
module Discovery {
  import opened Wrappers
  import opened RankingModel
  import opened TextOrder
  import opened Store

  /** Documents per page of the feed. */
  const PageSize: nat := 10

  /** The first page: the newest rankings. */
  function FirstPage(db: Db): seq<Ranking>
    requires Valid(db)
  {
    Limit(Recent(db), PageSize)
  }

  /** The page after `cursor` in the same order. */
  function NextPage(db: Db, cursor: Ranking): seq<Ranking>
    requires Valid(db)
  {
    Limit(StartAfter(Recent(db), cursor), PageSize)
  }

  /** The answer to a title search for `q`, served by title. */
  function SearchResults(db: Db, q: string): seq<Ranking>
    requires Valid(db)
  {
    SortByTitle(Where(Where(Recent(db), TitleAtLeast(q)), TitleAtMost(q + [SearchSentinel])))
  }

  /** The rankings stored under category `c`, newest first. */
  function CategoryResults(db: Db, c: Category): seq<Ranking>
    requires Valid(db)
  {
    Where(Recent(db), CategoryIs(RawValue(c)))
  }

  /** The test `firstIndex(where:)` is given: the entry carries this document id. */
  function IdIs(id: Option<string>): Ranking -> bool {
    (r: Ranking) => r.id == id
  }

  /** The first page holds the ten newest rankings, or all of them when there are fewer. */
  lemma FirstPageIsNewest(db: Db)
    requires Valid(db)
    ensures |FirstPage(db)| == if |db.rankings| < PageSize then |db.rankings| else PageSize
    ensures FirstPage(db) <= Recent(db)
    ensures NewestFirst(FirstPage(db)) && DistinctIds(FirstPage(db))
    ensures forall r :: r in FirstPage(db) ==> r.id.Some? && r.id.value in db.rankings && db.rankings[r.id.value] == r
    ensures forall i, k :: 0 <= i < |FirstPage(db)| && k in db.rankings && db.rankings[k] !in FirstPage(db)
                           ==> db.rankings[k].createdAt <= FirstPage(db)[i].createdAt
  {
    var rs := Recent(db);
    PrefixHoldsNewest(rs, PageSize);
    LimitKeepsDistinct(rs, PageSize);
    assert forall r :: r in Limit(rs, PageSize) ==> r in rs;
  }

  /** A page cut from a list with distinct ids has distinct ids. */
  lemma LimitKeepsDistinct(rs: seq<Ranking>, n: nat)
    requires DistinctIds(rs)
    ensures DistinctIds(Limit(rs, n))
  {
    var page := Limit(rs, n);
    forall i, j | 0 <= i < j < |page| ensures page[i].id != page[j].id {
      assert page[i] == rs[i] && page[j] == rs[j];
    }
  }

  /** A prefix of a newest-first list is newest first and holds nothing older than what it leaves out. */
  lemma PrefixHoldsNewest(rs: seq<Ranking>, n: nat)
    requires NewestFirst(rs)
    ensures NewestFirst(Limit(rs, n))
    ensures forall i, x :: 0 <= i < |Limit(rs, n)| && x in rs && x !in Limit(rs, n) ==>
      x.createdAt <= Limit(rs, n)[i].createdAt
  {
    var page := Limit(rs, n);
    forall i, x | 0 <= i < |page| && x in rs && x !in page
      ensures x.createdAt <= page[i].createdAt
    {
      var j :| 0 <= j < |rs| && rs[j] == x;
      assert |page| <= j by {
        assert forall t :: 0 <= t < |page| ==> page[t] == rs[t];
      }
      assert page[i] == rs[i];
    }
  }

  /**
   * Pages do not overlap and leave nothing out: after the first `m` rankings of
   * the order, the next page follows on exactly where they end.
   */
  lemma LoadMoreContinues(db: Db, m: nat)
    requires Valid(db) && 0 < m <= |Recent(db)|
    ensures Recent(db)[..m] + NextPage(db, Recent(db)[m - 1]) == Limit(Recent(db), m + PageSize)
  {
    ContinuesAfter(Recent(db), m);
  }

  lemma ContinuesAfter(rs: seq<Ranking>, m: nat)
    requires NewestFirst(rs) && DistinctIds(rs) && 0 < m <= |rs|
    ensures rs[..m] + Limit(StartAfter(rs, rs[m - 1]), PageSize) == Limit(rs, m + PageSize)
  {
    var rest := StartAfter(rs, rs[m - 1]);
    assert rest == rs[m..] by { StartAfterListed(rs, m - 1); }
    PrefixThenLimit(rs, m, PageSize);
  }

  /** The first `m` elements followed by the next `n` are the first `m + n`. */
  lemma PrefixThenLimit<T>(s: seq<T>, m: nat, n: nat)
    requires m <= |s|
    ensures s[..m] + Limit(s[m..], n) == Limit(s, m + n)
  {
    if |s| < m + n {
      assert s[..m] + s[m..] == s;
    } else {
      assert s[..m] + s[m..][..n] == s[..m + n];
    }
  }

  /** The cached list is a prefix of the recency order ending at the cursor. */
  ghost predicate PagingOf(db: Db, rankings: seq<Ranking>, lastDocument: Option<Ranking>)
    requires Valid(db)
  {
    lastDocument.Some? ==>
      |rankings| > 0 && rankings <= Recent(db) && lastDocument.value == rankings[|rankings| - 1]
  }

  /** The first page is a prefix of the order whose last entry is the cursor. */
  lemma FirstPageStartsPaging(db: Db)
    requires Valid(db)
    ensures PagingOf(db, FirstPage(db), Last(FirstPage(db)))
  {
  }

  /** A page loaded after a cached prefix of the order extends that prefix, ending at the new cursor. */
  lemma NextPageKeepsPaging(db: Db, before: seq<Ranking>, cursor: Ranking)
    requires Valid(db) && PagingOf(db, before, Some(cursor))
    ensures PagingOf(db, before + NextPage(db, cursor), Last(NextPage(db, cursor)))
  {
    PrefixExtends(Recent(db), before);
  }

  lemma PrefixExtends(rs: seq<Ranking>, before: seq<Ranking>)
    requires NewestFirst(rs) && DistinctIds(rs) && |before| > 0 && before <= rs
    ensures var page := Limit(StartAfter(rs, before[|before| - 1]), PageSize);
      && before + page <= rs
      && (Last(page).Some? ==> Last(page).value == (before + page)[|before + page| - 1])
  {
    assert before == rs[..|before|];
    ContinuesAfter(rs, |before|);
  }

  /** Sorting keeps exactly the elements it was given. */
  lemma SortKeepsMembers(w: seq<Ranking>)
    ensures forall r :: r in SortByTitle(w) <==> r in w
  {
    forall r ensures r in SortByTitle(w) <==> r in w {
      assert r in SortByTitle(w) <==> r in multiset(SortByTitle(w));
      assert r in w <==> r in multiset(w);
    }
  }

  /** Search returns exactly the rankings whose title lies in `[q, q + "\u{f8ff}"]`, in title order. */
  lemma SearchMatchesTitleRange(db: Db, q: string)
    requires Valid(db)
    ensures forall r :: r in SearchResults(db, q) <==> r in Recent(db) && InSearchRange(q, r.title)
    ensures TitleOrdered(SearchResults(db, q)) && DistinctIds(SearchResults(db, q))
  {
    TitleRangeMembers(Recent(db), q);
    var w := Where(Where(Recent(db), TitleAtLeast(q)), TitleAtMost(q + [SearchSentinel]));
    PermutationKeepsDistinct(SortByTitle(w), w);
  }

  lemma TitleRangeMembers(rs: seq<Ranking>, q: string)
    ensures var w := SortByTitle(Where(Where(rs, TitleAtLeast(q)), TitleAtMost(q + [SearchSentinel])));
      forall r :: r in w <==> r in rs && InSearchRange(q, r.title)
  {
    SortKeepsMembers(Where(Where(rs, TitleAtLeast(q)), TitleAtMost(q + [SearchSentinel])));
  }

  /** A list with distinct ids holds each ranking at most once. */
  lemma {:induction false} DistinctCountsOne(s: seq<Ranking>, x: Ranking)
    requires DistinctIds(s)
    ensures multiset(s)[x] <= 1
  {
    if s != [] {
      assert s == [s[0]] + s[1..];
      assert DistinctIds(s[1..]) by {
        forall i, j | 0 <= i < j < |s[1..]| ensures s[1..][i].id != s[1..][j].id {
          assert s[1..][i] == s[i + 1] && s[1..][j] == s[j + 1];
        }
      }
      DistinctCountsOne(s[1..], x);
      if s[0] == x {
        assert x !in s[1..] by {
          forall k | 0 <= k < |s[1..]| ensures s[1..][k] != x {
            assert s[1..][k] == s[k + 1];
          }
        }
      }
    }
  }

  /** Reordering a list with distinct ids keeps them distinct. */
  lemma PermutationKeepsDistinct(a: seq<Ranking>, b: seq<Ranking>)
    requires multiset(a) == multiset(b) && DistinctIds(b)
    ensures DistinctIds(a)
  {
    forall i, j | 0 <= i < j < |a| ensures a[i].id != a[j].id {
      if a[i] == a[j] {
        assert a == a[..j] + a[j..];
        assert a[i] in a[..j] && a[j] in a[j..];
        assert multiset(a)[a[i]] == multiset(a[..j])[a[i]] + multiset(a[j..])[a[i]];
        DistinctCountsOne(b, a[i]);
      } else {
        assert a[i] in multiset(b) && a[j] in multiset(b);
        var p :| 0 <= p < |b| && b[p] == a[i];
        var q :| 0 <= q < |b| && b[q] == a[j];
        assert b[p].id != b[q].id by {
          if p < q { } else { }
        }
      }
    }
  }

  /** So a title that does not start with `q` is never returned. */
  lemma SearchOnlyPrefixes(db: Db, q: string, r: Ranking)
    requires Valid(db) && r in SearchResults(db, q)
    ensures q <= r.title
  {
    SearchMatchesTitleRange(db, q);
    InSearchRangeHasPrefix(q, r.title);
  }

  /** Filtering by a category returns exactly that category's rankings, newest first, each once. */
  lemma CategoryResultsExact(db: Db, c: Category)
    requires Valid(db)
    ensures forall r :: r in CategoryResults(db, c) <==> r in Recent(db) && r.category == c
    ensures NewestFirst(CategoryResults(db, c)) && DistinctIds(CategoryResults(db, c))
  {
    forall r ensures Matches(CategoryIs(RawValue(c)), r) <==> r.category == c {
      RawValueInjective(r.category, c);
    }
  }

  class DiscoveryViewModel {
    var db: Db
    var rankings: seq<Ranking>
    var error: Option<StoreError>
    var isLoading: bool
    /** The last document of the last page served, where the next page starts after. */
    var lastDocument: Option<Ranking>

    ghost predicate Valid()
      reads this
    {
      Store.Valid(db)
    }

    /** The cached list is a prefix of the recency order ending at the cursor. */
    ghost predicate Paging()
      reads this
      requires Valid()
    {
      PagingOf(db, rankings, lastDocument)
    }

    constructor (db: Db)
      requires Store.Valid(db)
      ensures Valid() && this.db == db
      ensures rankings == [] && error == None && !isLoading && lastDocument == None
    {
      this.db := db;
      rankings := [];
      error := None;
      isLoading := false;
      lastDocument := None;
    }

    /** `fetchRankings`. */
    method FetchRankings(fails: bool)
      requires Valid()
      modifies this
      ensures Valid() && db == old(db) && !isLoading
      ensures fails ==> rankings == old(rankings) && lastDocument == old(lastDocument) && error == Some(Unavailable)
      ensures !fails ==> rankings == FirstPage(db) && lastDocument == Last(rankings) && error == old(error)
      ensures !fails ==> Paging()
    {
      isLoading := true;
      var snapshot := Call(fails, Ok(FirstPage(db)));
      FirstPageStartsPaging(db);
      match snapshot {
        case Ok(documents) =>
          rankings := documents;
          lastDocument := Last(documents);
        case Err(e) =>
          error := Some(e);
      }
      isLoading := false;
    }

    /** `loadMoreRankings`. */
    method LoadMoreRankings(fails: bool)
      requires Valid()
      modifies this
      ensures Valid() && db == old(db) && isLoading == old(isLoading)
      ensures old(lastDocument).None? ==> rankings == old(rankings) && lastDocument == None && error == old(error)
      ensures old(lastDocument).Some? && fails ==>
        rankings == old(rankings) && lastDocument == old(lastDocument) && error == Some(Unavailable)
      ensures old(lastDocument).Some? && !fails ==>
        var page := NextPage(db, old(lastDocument).value);
        rankings == old(rankings) + page && lastDocument == Last(page) && error == old(error)
      ensures old(Paging()) ==> Paging()
    {
      if lastDocument.None? {
        return;
      }
      var cursor := lastDocument.value;
      var snapshot := Call(fails, Ok(NextPage(db, cursor)));
      match snapshot {
        case Ok(documents) =>
          if PagingOf(db, rankings, lastDocument) {
            NextPageKeepsPaging(db, rankings, cursor);
          }
          rankings := rankings + documents;
          lastDocument := Last(documents);
        case Err(e) =>
          error := Some(e);
      }
    }

    /** `searchRankings(query:)`. */
    method SearchRankings(query: string, fails: bool)
      requires Valid()
      modifies this
      ensures Valid() && db == old(db)
      ensures query == "" ==> !isLoading
      ensures query == "" && fails ==>
        rankings == old(rankings) && lastDocument == old(lastDocument) && error == Some(Unavailable)
      ensures query == "" && !fails ==>
        rankings == FirstPage(db) && lastDocument == Last(rankings) && error == old(error)
      ensures query != "" ==> isLoading == old(isLoading) && lastDocument == old(lastDocument)
      ensures query != "" && fails ==> rankings == old(rankings) && error == Some(Unavailable)
      ensures query != "" && !fails ==> rankings == SearchResults(db, query) && error == old(error)
    {
      if query == "" {
        FetchRankings(fails);
        return;
      }
      var snapshot := Call(fails, Ok(SearchResults(db, query)));
      match snapshot {
        case Ok(documents) => rankings := documents;
        case Err(e) => error := Some(e);
      }
    }

    /** `filterByCategory(_:)`. */
    method FilterByCategory(category: Option<Category>, fails: bool)
      requires Valid()
      modifies this
      ensures Valid() && db == old(db)
      ensures category.None? ==> !isLoading
      ensures category.None? && fails ==>
        rankings == old(rankings) && lastDocument == old(lastDocument) && error == Some(Unavailable)
      ensures category.None? && !fails ==>
        rankings == FirstPage(db) && lastDocument == Last(rankings) && error == old(error)
      ensures category.Some? ==> isLoading == old(isLoading) && lastDocument == old(lastDocument)
      ensures category.Some? && fails ==> rankings == old(rankings) && error == Some(Unavailable)
      ensures category.Some? && !fails ==> rankings == CategoryResults(db, category.value) && error == old(error)
    {
      if category.None? {
        FetchRankings(fails);
        return;
      }
      var snapshot := Call(fails, Ok(CategoryResults(db, category.value)));
      match snapshot {
        case Ok(documents) => rankings := documents;
        case Err(e) => error := Some(e);
      }
    }

    /** `likeRanking(_:)`: one more like in the store, then in the cached list. */
    method LikeRanking(ranking: Ranking, fails: bool)
      requires Valid()
      modifies this
      ensures Valid()
      ensures isLoading == old(isLoading) && lastDocument == old(lastDocument)
      ensures ranking.id.None? ==> db == old(db) && rankings == old(rankings) && error == old(error)
      ensures ranking.id.Some? ==>
        var write := Call(fails, IncrementLikes(old(db), ranking.id.value, 1));
        && (write.Err? ==> db == old(db) && rankings == old(rankings) && error == Some(write.error))
        && (write.Ok? ==>
              && db == write.value && error == old(error)
              && match FirstIndex(old(rankings), IdIs(ranking.id))
                 case None => rankings == old(rankings)
                 case Some(i) => rankings == old(rankings)[i := ranking.(likes := ranking.likes + 1)])
    {
      if ranking.id.None? {
        return;
      }
      var rankingId := ranking.id.value;
      var write := Call(fails, IncrementLikes(db, rankingId, 1));
      match write {
        case Err(e) =>
          error := Some(e);
        case Ok(updated) =>
          db := updated;
          var index := FirstIndex(rankings, IdIs(Some(rankingId)));
          if index.Some? {
            var updatedRanking := ranking.(likes := ranking.likes + 1);
            rankings := rankings[index.value := updatedRanking];
          }
      }
    }
  }
}
