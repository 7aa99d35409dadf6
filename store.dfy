/**
 * The document store as an in-memory value: the `rankings` and `users`
 * collections, and the operations the view models issue against them
 * (ordered queries with a limit and a start-after cursor, equality and
 * title-range filters, atomic increment, array union and removal, added and
 * deleted documents).
 */
module Store {
  import opened Wrappers
  import opened RankingModel
  import opened UserModel
  import opened TextOrder

  /** Why a store call throws. */
  datatype StoreError = NotFound | Unavailable | UploadFailed

  datatype Result<T> = Ok(value: T) | Err(error: StoreError)

  /** A call whose failure flag is set throws `Unavailable` instead of answering. */
  function Call<T>(fails: bool, r: Result<T>): Result<T> {
    if fails then Err(Unavailable) else r
  }

  /**
   * Both collections, keyed by document id. `index` lists the ranking ids in
   * the order the store serves `createdAt` descending; among rankings created
   * at the same time the order is any order, and a new ranking goes before them.
   */
  datatype Db = Db(rankings: map<string, Ranking>, index: seq<string>, users: map<string, User>)

  ghost predicate Distinct<T>(s: seq<T>) {
    forall i, j :: 0 <= i < j < |s| ==> s[i] != s[j]
  }

  /** The listed ids are newest first. */
  ghost predicate NewestFirstIds(m: map<string, Ranking>, ids: seq<string>) {
    forall i, j :: 0 <= i < j < |ids| && ids[i] in m && ids[j] in m ==> m[ids[i]].createdAt >= m[ids[j]].createdAt
  }

  /** `ids` lists every document of `m` once, newest first. */
  ghost predicate IsRecencyIndex(m: map<string, Ranking>, ids: seq<string>) {
    && (forall i :: 0 <= i < |ids| ==> ids[i] in m)
    && (forall k :: k in m ==> k in ids)
    && Distinct(ids)
    && NewestFirstIds(m, ids)
  }

  /** A read document carries its document id, and the index matches the collection. */
  ghost predicate Valid(db: Db) {
    && (forall k :: k in db.rankings ==> db.rankings[k].id == Some(k))
    && (forall k :: k in db.users ==> db.users[k].id == Some(k))
    && IsRecencyIndex(db.rankings, db.index)
  }

  ghost predicate NewestFirst(rs: seq<Ranking>) {
    forall i, j :: 0 <= i < j < |rs| ==> rs[i].createdAt >= rs[j].createdAt
  }

  ghost predicate DistinctIds(rs: seq<Ranking>) {
    forall i, j :: 0 <= i < j < |rs| ==> rs[i].id != rs[j].id
  }

  // ---------------------------------------------------------------- queries

  /** The collection ordered by `createdAt`, descending. */
  function Recent(db: Db): (rs: seq<Ranking>)
    requires Valid(db)
    ensures |rs| == |db.rankings|
    ensures NewestFirst(rs) && DistinctIds(rs)
    ensures forall k :: k in db.rankings ==> db.rankings[k] in rs
    ensures forall r :: r in rs ==> r.id.Some? && r.id.value in db.rankings && db.rankings[r.id.value] == r
  {
    var rs := Listed(db.rankings, db.index);
    ListedIsOrdered(db);
    ListedCoversAll(db);
    rs
  }

  /** The documents the ids name, in the ids' order. */
  function Listed(m: map<string, Ranking>, ids: seq<string>): (rs: seq<Ranking>)
    requires forall i :: 0 <= i < |ids| ==> ids[i] in m
    ensures |rs| == |ids| && forall i :: 0 <= i < |ids| ==> rs[i] == m[ids[i]]
  {
    seq(|ids|, i requires 0 <= i < |ids| => m[ids[i]])
  }

  lemma ListedIsOrdered(db: Db)
    requires Valid(db)
    ensures NewestFirst(Listed(db.rankings, db.index)) && DistinctIds(Listed(db.rankings, db.index))
  {
    var rs := Listed(db.rankings, db.index);
    forall i, j | 0 <= i < j < |rs| ensures rs[i].id != rs[j].id {
      assert rs[i].id == Some(db.index[i]) && rs[j].id == Some(db.index[j]);
    }
  }

  lemma ListedCoversAll(db: Db)
    requires Valid(db)
    ensures |Listed(db.rankings, db.index)| == |db.rankings|
    ensures forall k :: k in db.rankings ==> db.rankings[k] in Listed(db.rankings, db.index)
    ensures forall r :: r in Listed(db.rankings, db.index) ==>
      r.id.Some? && r.id.value in db.rankings && db.rankings[r.id.value] == r
  {
    var rs := Listed(db.rankings, db.index);
    forall k | k in db.rankings ensures db.rankings[k] in rs {
      var i :| 0 <= i < |db.index| && db.index[i] == k;
      assert rs[i] == db.rankings[k];
    }
    DistinctCovering(db.index, db.rankings.Keys);
  }

  /** A duplicate-free list of a set's elements is as long as the set is large. */
  lemma {:induction false} DistinctCovering(ids: seq<string>, keys: set<string>)
    requires Distinct(ids)
    requires forall i :: 0 <= i < |ids| ==> ids[i] in keys
    requires forall k :: k in keys ==> k in ids
    ensures |keys| == |ids|
  {
    if ids != [] {
      var rest := keys - {ids[0]};
      assert Distinct(ids[1..]) by {
        forall i, j | 0 <= i < j < |ids[1..]| ensures ids[1..][i] != ids[1..][j] {
          assert ids[1..][i] == ids[i + 1] && ids[1..][j] == ids[j + 1];
        }
      }
      forall k | k in rest ensures k in ids[1..] {
        var i :| 0 <= i < |ids| && ids[i] == k;
        assert ids[1..][i - 1] == k;
      }
      forall i | 0 <= i < |ids[1..]| ensures ids[1..][i] in rest {
        assert ids[1..][i] == ids[i + 1];
      }
      DistinctCovering(ids[1..], rest);
    }
  }

  /** A `whereField` filter; a category is compared by its stored raw value. */
  datatype Condition =
    | CategoryIs(raw: string)
    | OwnerIs(uid: string)
    | TitleAtLeast(lower: string)
    | TitleAtMost(upper: string)

  predicate Matches(c: Condition, r: Ranking) {
    match c
    case CategoryIs(raw) => RawValue(r.category) == raw
    case OwnerIs(uid) => r.userId == uid
    case TitleAtLeast(lower) => LexLe(lower, r.title)
    case TitleAtMost(upper) => LexLe(r.title, upper)
  }

  lemma NewestHeadDominates(rs: seq<Ranking>, x: Ranking)
    requires NewestFirst(rs) && |rs| > 0 && x in rs[1..]
    ensures rs[0].createdAt >= x.createdAt
  {
    var j :| 0 <= j < |rs[1..]| && rs[1..][j] == x;
    assert rs[j + 1] == x;
  }

  lemma DistinctHead(rs: seq<Ranking>, x: Ranking)
    requires DistinctIds(rs) && |rs| > 0 && x in rs[1..]
    ensures rs[0].id != x.id
  {
    var j :| 0 <= j < |rs[1..]| && rs[1..][j] == x;
    assert rs[j + 1] == x;
  }

  /** Keeps the documents that satisfy `c`, in their order. */
  function Where(rs: seq<Ranking>, c: Condition): (r: seq<Ranking>)
    ensures forall x :: x in r <==> x in rs && Matches(c, x)
    ensures |r| <= |rs|
    ensures NewestFirst(rs) ==> NewestFirst(r)
    ensures DistinctIds(rs) ==> DistinctIds(r)
  {
    if rs == [] then []
    else
      var rest := Where(rs[1..], c);
      assert NewestFirst(rs) ==> NewestFirst(rs[1..]);
      assert DistinctIds(rs) ==> DistinctIds(rs[1..]);
      assert forall x :: x in rs <==> x == rs[0] || x in rs[1..] by {
        assert rs == [rs[0]] + rs[1..];
      }
      if Matches(c, rs[0]) then
        ConsKeepsRecency(rs, rest);
        [rs[0]] + rest
      else rest
  }

  lemma ConsKeepsRecency(rs: seq<Ranking>, rest: seq<Ranking>)
    requires |rs| > 0 && forall x :: x in rest ==> x in rs[1..]
    ensures NewestFirst(rs) && NewestFirst(rest) ==> NewestFirst([rs[0]] + rest)
    ensures DistinctIds(rs) && DistinctIds(rest) ==> DistinctIds([rs[0]] + rest)
  {
    var r := [rs[0]] + rest;
    if NewestFirst(rs) && NewestFirst(rest) {
      forall i, j | 0 <= i < j < |r| ensures r[i].createdAt >= r[j].createdAt {
        if i == 0 { assert r[j] in rest; NewestHeadDominates(rs, r[j]); }
        else { assert r[i] == rest[i - 1] && r[j] == rest[j - 1]; }
      }
    }
    if DistinctIds(rs) && DistinctIds(rest) {
      forall i, j | 0 <= i < j < |r| ensures r[i].id != r[j].id {
        if i == 0 { assert r[j] in rest; DistinctHead(rs, r[j]); }
        else { assert r[i] == rest[i - 1] && r[j] == rest[j - 1]; }
      }
    }
  }

  /**
   * `start(afterDocument:)`: walking the order, resume right after the cursor's
   * document, or, when that document is gone, at the first strictly older one.
   */
  function StartAfter(rs: seq<Ranking>, cursor: Ranking): (r: seq<Ranking>)
    ensures |r| <= |rs| && r == rs[|rs| - |r|..]
  {
    if rs == [] then []
    else if rs[0].id == cursor.id then rs[1..]
    else if rs[0].createdAt < cursor.createdAt then rs
    else StartAfter(rs[1..], cursor)
  }

  /** After the `k`-th document of a newest-first order comes exactly the rest of that order. */
  lemma {:induction false} StartAfterListed(rs: seq<Ranking>, k: nat)
    requires NewestFirst(rs) && DistinctIds(rs) && k < |rs|
    ensures StartAfter(rs, rs[k]) == rs[k + 1..]
  {
    if k > 0 {
      assert rs[0].id != rs[k].id;
      assert rs[0].createdAt >= rs[k].createdAt;
      StartAfterListed(rs[1..], k - 1);
    }
  }

  /** `limit(to:)`. */
  function Limit<T>(s: seq<T>, n: nat): (r: seq<T>)
    ensures |r| == if |s| < n then |s| else n
    ensures r == s[..|r|]
  {
    if |s| <= n then s else s[..n]
  }

  // --------------------------------------------------------- title ordering

  ghost predicate TitleOrdered(rs: seq<Ranking>) {
    forall i, j :: 0 <= i < j < |rs| ==> LexLe(rs[i].title, rs[j].title)
  }

  lemma InsertFrontKeepsOrder(x: Ranking, s: seq<Ranking>)
    requires |s| > 0 && LexLe(x.title, s[0].title)
    ensures TitleOrdered(s) ==> TitleOrdered([x] + s)
  {
    if TitleOrdered(s) {
      var r := [x] + s;
      forall i, j | 0 <= i < j < |r| ensures LexLe(r[i].title, r[j].title) {
        if i == 0 && j > 1 { LexLeTransitive(x.title, s[0].title, s[j - 1].title); }
        else if i > 0 { assert r[i] == s[i - 1] && r[j] == s[j - 1]; }
      }
    }
  }

  lemma InsertLaterKeepsOrder(x: Ranking, s: seq<Ranking>, rest: seq<Ranking>)
    requires |s| > 0 && !LexLe(x.title, s[0].title)
    requires multiset(rest) == multiset(s[1..]) + multiset{x}
    requires TitleOrdered(s[1..]) ==> TitleOrdered(rest)
    ensures TitleOrdered(s) ==> TitleOrdered([s[0]] + rest)
  {
    if TitleOrdered(s) {
      LexLeTotal(x.title, s[0].title);
      assert TitleOrdered(s[1..]) by {
        forall i, j | 0 <= i < j < |s[1..]| ensures LexLe(s[1..][i].title, s[1..][j].title) {
          assert s[1..][i] == s[i + 1] && s[1..][j] == s[j + 1];
        }
      }
      var r := [s[0]] + rest;
      forall i, j | 0 <= i < j < |r| ensures LexLe(r[i].title, r[j].title) {
        if i == 0 {
          var z := r[j];
          assert z in multiset(rest);
          if z != x {
            assert z in multiset(s[1..]);
            var m :| 0 <= m < |s[1..]| && s[1..][m] == z;
            assert s[m + 1] == z;
          }
        } else {
          assert r[i] == rest[i - 1] && r[j] == rest[j - 1];
        }
      }
    }
  }

  /** Inserts `x` before the first document whose title is not below it. */
  function InsertByTitle(x: Ranking, s: seq<Ranking>): (r: seq<Ranking>)
    ensures multiset(r) == multiset(s) + multiset{x}
    ensures TitleOrdered(s) ==> TitleOrdered(r)
  {
    if s == [] then [x]
    else if LexLe(x.title, s[0].title) then
      InsertFrontKeepsOrder(x, s);
      [x] + s
    else
      var rest := InsertByTitle(x, s[1..]);
      assert s == [s[0]] + s[1..];
      InsertLaterKeepsOrder(x, s, rest);
      [s[0]] + rest
  }

  /** The order the store serves a title-range query in: by title, ascending. */
  function SortByTitle(rs: seq<Ranking>): (r: seq<Ranking>)
    ensures multiset(r) == multiset(rs)
    ensures TitleOrdered(r)
  {
    if rs == [] then []
    else
      assert rs == [rs[0]] + rs[1..];
      InsertByTitle(rs[0], SortByTitle(rs[1..]))
  }

  // ------------------------------------------------------ ranking mutations

  /** The index still fits a collection whose documents kept their keys and creation times. */
  lemma SameTimesKeepIndex(m: map<string, Ranking>, m': map<string, Ranking>, ids: seq<string>)
    requires m'.Keys == m.Keys
    requires forall k :: k in m ==> m'[k].createdAt == m[k].createdAt
    requires IsRecencyIndex(m, ids)
    ensures IsRecencyIndex(m', ids)
  {
  }

  /** `updateData(["likes": FieldValue.increment(amount)])` on one ranking. */
  function IncrementLikes(db: Db, id: string, amount: int): (r: Result<Db>)
    requires Valid(db)
    ensures r.Err? <==> id !in db.rankings
    ensures r.Err? ==> r.error == NotFound
    ensures r.Ok? ==> Valid(r.value) && r.value.users == db.users
    ensures r.Ok? ==> r.value.rankings.Keys == db.rankings.Keys
    ensures r.Ok? ==> r.value.rankings[id].likes == db.rankings[id].likes + amount
    ensures r.Ok? ==> r.value.rankings[id].comments == db.rankings[id].comments
    ensures r.Ok? ==> forall k :: k in db.rankings ==> FixedFieldsKept(db.rankings[k], r.value.rankings[k])
    ensures r.Ok? ==> forall k :: k in db.rankings && k != id ==> r.value.rankings[k] == db.rankings[k]
  {
    if id !in db.rankings then Err(NotFound)
    else
      var m := AddLikes(db.rankings, id, amount);
      SameTimesKeepIndex(db.rankings, m, db.index);
      Ok(db.(rankings := m))
  }

  /** The collection with `amount` added to the likes of document `id`. */
  function AddLikes(m: map<string, Ranking>, id: string, amount: int): map<string, Ranking>
    requires id in m
  {
    m[id := m[id].(likes := m[id].likes + amount)]
  }

  /** `updateData(["comments": FieldValue.arrayUnion(cs)])` on one ranking. */
  function UnionComments(db: Db, id: string, cs: seq<Comment>): (r: Result<Db>)
    requires Valid(db)
    ensures r.Err? <==> id !in db.rankings
    ensures r.Err? ==> r.error == NotFound
    ensures r.Ok? ==> Valid(r.value) && r.value.users == db.users
    ensures r.Ok? ==> r.value.rankings.Keys == db.rankings.Keys
    ensures r.Ok? ==> r.value.rankings[id].comments == ArrayUnion(db.rankings[id].comments, cs)
    ensures r.Ok? ==> r.value.rankings[id].likes == db.rankings[id].likes
    ensures r.Ok? ==> forall k :: k in db.rankings ==> FixedFieldsKept(db.rankings[k], r.value.rankings[k])
    ensures r.Ok? ==> forall k :: k in db.rankings && k != id ==> r.value.rankings[k] == db.rankings[k]
  {
    if id !in db.rankings then Err(NotFound)
    else
      var d := db.rankings[id];
      var m := db.rankings[id := d.(comments := ArrayUnion(d.comments, cs))];
      SameTimesKeepIndex(db.rankings, m, db.index);
      Ok(db.(rankings := m))
  }

  /** Puts `id` in front of the first listed document that is not newer than it. */
  function InsertNewest(m: map<string, Ranking>, ids: seq<string>, id: string): (r: seq<string>)
    requires id in m && forall i :: 0 <= i < |ids| ==> ids[i] in m
    ensures |r| == |ids| + 1
    ensures forall x :: x in r <==> x in ids || x == id
    ensures id !in ids && Distinct(ids) ==> Distinct(r)
    ensures NewestFirstIds(m, ids) ==> NewestFirstIds(m, r)
  {
    if ids == [] || m[ids[0]].createdAt <= m[id].createdAt then
      assert forall x :: x in [id] + ids <==> x in ids || x == id;
      [id] + ids
    else
      var rest := InsertNewest(m, ids[1..], id);
      assert forall x :: x in ids <==> x == ids[0] || x in ids[1..] by {
        assert ids == [ids[0]] + ids[1..];
      }
      InsertLaterKeepsIndex(m, ids, id, rest);
      [ids[0]] + rest
  }

  lemma InsertLaterKeepsIndex(m: map<string, Ranking>, ids: seq<string>, id: string, rest: seq<string>)
    requires id in m && |ids| > 0 && forall i :: 0 <= i < |ids| ==> ids[i] in m
    requires m[ids[0]].createdAt > m[id].createdAt
    requires forall x :: x in rest <==> x in ids[1..] || x == id
    requires id !in ids[1..] && Distinct(ids[1..]) ==> Distinct(rest)
    requires NewestFirstIds(m, ids[1..]) ==> NewestFirstIds(m, rest)
    ensures id !in ids && Distinct(ids) ==> Distinct([ids[0]] + rest)
    ensures NewestFirstIds(m, ids) ==> NewestFirstIds(m, [ids[0]] + rest)
  {
    var r := [ids[0]] + rest;
    if id !in ids && Distinct(ids) {
      assert Distinct(ids[1..]) by {
        forall i, j | 0 <= i < j < |ids[1..]| ensures ids[1..][i] != ids[1..][j] {
          assert ids[1..][i] == ids[i + 1] && ids[1..][j] == ids[j + 1];
        }
      }
      forall i, j | 0 <= i < j < |r| ensures r[i] != r[j] {
        if i == 0 {
          assert r[j] in rest;
          if r[j] != id {
            var p :| 0 <= p < |ids[1..]| && ids[1..][p] == r[j];
            assert ids[p + 1] == r[j];
          }
        } else {
          assert r[i] == rest[i - 1] && r[j] == rest[j - 1];
        }
      }
    }
    if NewestFirstIds(m, ids) {
      assert NewestFirstIds(m, ids[1..]) by {
        forall i, j | 0 <= i < j < |ids[1..]| && ids[1..][i] in m && ids[1..][j] in m
          ensures m[ids[1..][i]].createdAt >= m[ids[1..][j]].createdAt
        {
          assert ids[1..][i] == ids[i + 1] && ids[1..][j] == ids[j + 1];
        }
      }
      forall i, j | 0 <= i < j < |r| && r[i] in m && r[j] in m
        ensures m[r[i]].createdAt >= m[r[j]].createdAt
      {
        if i == 0 {
          assert r[j] in rest;
          if r[j] != id {
            var p :| 0 <= p < |ids[1..]| && ids[1..][p] == r[j];
            assert ids[p + 1] == r[j];
          }
        } else {
          assert r[i] == rest[i - 1] && r[j] == rest[j - 1];
        }
      }
    }
  }

  /** `addDocument(from:)`: the store files `doc` under the fresh id `id`. */
  function AddDocument(db: Db, id: string, doc: Ranking): (r: Db)
    requires Valid(db) && id !in db.rankings
    ensures Valid(r) && r.users == db.users
    ensures |r.rankings| == |db.rankings| + 1
    ensures r.rankings.Keys == db.rankings.Keys + {id}
    ensures r.rankings[id] == doc.(id := Some(id))
    ensures forall k :: k in db.rankings ==> r.rankings[k] == db.rankings[k]
  {
    var m := db.rankings[id := doc.(id := Some(id))];
    IndexWithin(db, m);
    var ids := InsertNewest(m, db.index, id);
    AddKeepsValid(db, id, m, ids);
    MapGrowsByOne(db.rankings, id, doc.(id := Some(id)));
    Db(m, ids, db.users)
  }

  /** Filing a value under a new key adds exactly that key. */
  lemma MapGrowsByOne(m: map<string, Ranking>, id: string, v: Ranking)
    requires id !in m
    ensures m[id := v].Keys == m.Keys + {id}
    ensures |m[id := v]| == |m| + 1
    ensures forall k :: k in m ==> m[id := v][k] == m[k]
  {
  }

  lemma IndexWithin(db: Db, m: map<string, Ranking>)
    requires Valid(db) && db.rankings.Keys <= m.Keys
    ensures forall i :: 0 <= i < |db.index| ==> db.index[i] in m
  {
  }

  lemma AddKeepsValid(db: Db, id: string, m: map<string, Ranking>, ids: seq<string>)
    requires Valid(db) && id !in db.rankings && id in m
    requires m == db.rankings[id := m[id]] && m[id].id == Some(id)
    requires forall i :: 0 <= i < |db.index| ==> db.index[i] in m
    requires forall x :: x in ids <==> x in db.index || x == id
    requires id !in db.index && Distinct(db.index) ==> Distinct(ids)
    requires NewestFirstIds(m, db.index) ==> NewestFirstIds(m, ids)
    ensures Valid(Db(m, ids, db.users))
  {
    assert id !in db.index;
    assert NewestFirstIds(m, db.index);
    forall i | 0 <= i < |ids| ensures ids[i] in m {
      assert ids[i] in ids;
    }
  }

  lemma DeleteKeepsValid(db: Db, id: string, m: map<string, Ranking>, ids: seq<string>)
    requires Valid(db) && m == db.rankings - {id}
    requires forall x :: x in ids <==> x in db.index && x != id
    requires Distinct(ids) && NewestFirstIds(db.rankings, ids)
    ensures Valid(Db(m, ids, db.users))
  {
    forall i | 0 <= i < |ids| ensures ids[i] in m {
      assert ids[i] in ids;
    }
  }

  /** Drops every occurrence of `id`. */
  function Without(ids: seq<string>, id: string): (r: seq<string>)
    ensures forall x :: x in r <==> x in ids && x != id
    ensures Distinct(ids) ==> Distinct(r)
  {
    if ids == [] then []
    else
      var rest := Without(ids[1..], id);
      assert forall x :: x in ids <==> x == ids[0] || x in ids[1..] by {
        assert ids == [ids[0]] + ids[1..];
      }
      if ids[0] == id then rest
      else
        WithoutKeepsDistinct(ids, rest);
        [ids[0]] + rest
  }

  /** Dropping an id that is not listed changes nothing. */
  lemma {:induction false} WithoutAbsent(ids: seq<string>, id: string)
    requires id !in ids
    ensures Without(ids, id) == ids
  {
    if ids != [] {
      assert id !in ids[1..];
      WithoutAbsent(ids[1..], id);
      assert ids == [ids[0]] + ids[1..];
    }
  }

  lemma WithoutKeepsDistinct(ids: seq<string>, rest: seq<string>)
    requires |ids| > 0 && forall x :: x in rest ==> x in ids[1..]
    requires Distinct(ids[1..]) ==> Distinct(rest)
    ensures Distinct(ids) ==> Distinct([ids[0]] + rest)
  {
    if Distinct(ids) {
      assert Distinct(ids[1..]) by {
        forall i, j | 0 <= i < j < |ids[1..]| ensures ids[1..][i] != ids[1..][j] {
          assert ids[1..][i] == ids[i + 1] && ids[1..][j] == ids[j + 1];
        }
      }
      var r := [ids[0]] + rest;
      forall i, j | 0 <= i < j < |r| ensures r[i] != r[j] {
        if i == 0 {
          assert r[j] in rest;
          var p :| 0 <= p < |ids[1..]| && ids[1..][p] == r[j];
          assert ids[p + 1] == r[j];
        } else {
          assert r[i] == rest[i - 1] && r[j] == rest[j - 1];
        }
      }
    }
  }

  lemma {:induction false} WithoutKeepsOrder(m: map<string, Ranking>, ids: seq<string>, id: string)
    requires NewestFirstIds(m, ids)
    ensures NewestFirstIds(m, Without(ids, id))
  {
    if ids != [] {
      assert NewestFirstIds(m, ids[1..]) by {
        forall i, j | 0 <= i < j < |ids[1..]| && ids[1..][i] in m && ids[1..][j] in m
          ensures m[ids[1..][i]].createdAt >= m[ids[1..][j]].createdAt
        {
          assert ids[1..][i] == ids[i + 1] && ids[1..][j] == ids[j + 1];
        }
      }
      WithoutKeepsOrder(m, ids[1..], id);
      var rest := Without(ids[1..], id);
      if ids[0] != id {
        var r := [ids[0]] + rest;
        forall i, j | 0 <= i < j < |r| && r[i] in m && r[j] in m
          ensures m[r[i]].createdAt >= m[r[j]].createdAt
        {
          if i == 0 {
            assert r[j] in rest;
            var p :| 0 <= p < |ids[1..]| && ids[1..][p] == r[j];
            assert ids[p + 1] == r[j];
          } else {
            assert r[i] == rest[i - 1] && r[j] == rest[j - 1];
          }
        }
      }
    }
  }

  /** `delete()`: the document is gone; deleting a missing document succeeds. */
  function DeleteDocument(db: Db, id: string): (r: Db)
    requires Valid(db)
    ensures Valid(r) && r.users == db.users
    ensures r.rankings.Keys == db.rankings.Keys - {id}
    ensures forall k :: k in r.rankings ==> r.rankings[k] == db.rankings[k]
  {
    var m := db.rankings - {id};
    var ids := Without(db.index, id);
    WithoutKeepsOrder(db.rankings, db.index, id);
    DeleteKeepsValid(db, id, m, ids);
    Db(m, ids, db.users)
  }

  // ------------------------------------------------------ array transforms

  /** `FieldValue.arrayUnion(ys)`: appends, in order, each element not already present. */
  function ArrayUnion<T(==,!new)>(xs: seq<T>, ys: seq<T>): (r: seq<T>)
    ensures |xs| <= |r| && r[..|xs|] == xs
    ensures forall z :: z in r <==> z in xs || z in ys
    ensures forall i :: |xs| <= i < |r| ==> r[i] in ys && r[i] !in xs
    ensures Distinct(xs) ==> Distinct(r)
    decreases |ys|
  {
    if ys == [] then xs
    else if ys[0] in xs then
      assert forall z :: z in ys <==> z == ys[0] || z in ys[1..] by { assert ys == [ys[0]] + ys[1..]; }
      ArrayUnion(xs, ys[1..])
    else
      var xs' := xs + [ys[0]];
      var r := ArrayUnion(xs', ys[1..]);
      assert forall z :: z in ys <==> z == ys[0] || z in ys[1..] by { assert ys == [ys[0]] + ys[1..]; }
      assert r[..|xs|] == xs by { assert r[..|xs'|][..|xs|] == xs; }
      assert Distinct(xs) ==> Distinct(xs');
      r
  }

  /** A union whose elements are all present already changes nothing. */
  lemma {:induction false} ArrayUnionPresent<T(!new)>(xs: seq<T>, ys: seq<T>)
    requires forall y :: y in ys ==> y in xs
    ensures ArrayUnion(xs, ys) == xs
    decreases |ys|
  {
    if ys != [] { ArrayUnionPresent(xs, ys[1..]); }
  }

  /** A second identical union changes nothing. */
  lemma ArrayUnionIdempotent<T(!new)>(xs: seq<T>, ys: seq<T>)
    ensures ArrayUnion(ArrayUnion(xs, ys), ys) == ArrayUnion(xs, ys)
  {
    ArrayUnionPresent(ArrayUnion(xs, ys), ys);
  }

  /** `FieldValue.arrayRemove(ys)`: drops every occurrence of every element of `ys`. */
  function ArrayRemove<T(==,!new)>(xs: seq<T>, ys: seq<T>): (r: seq<T>)
    ensures forall z :: z in r <==> z in xs && z !in ys
    ensures |r| <= |xs|
  {
    if xs == [] then []
    else
      assert forall z :: z in xs <==> z == xs[0] || z in xs[1..] by { assert xs == [xs[0]] + xs[1..]; }
      (if xs[0] in ys then [] else [xs[0]]) + ArrayRemove(xs[1..], ys)
  }

  /** Removing absent elements changes nothing. */
  lemma {:induction false} ArrayRemoveAbsent<T(!new)>(xs: seq<T>, ys: seq<T>)
    requires forall x :: x in xs ==> x !in ys
    ensures ArrayRemove(xs, ys) == xs
  {
    if xs != [] {
      ArrayRemoveAbsent(xs[1..], ys);
      assert xs == [xs[0]] + xs[1..];
    }
  }

  /** Removing a superset of the elements empties the array. */
  lemma {:induction false} ArrayRemoveCovered<T(!new)>(xs: seq<T>, ys: seq<T>)
    requires forall x :: x in xs ==> x in ys
    ensures ArrayRemove(xs, ys) == []
  {
    if xs != [] {
      assert forall x :: x in xs[1..] ==> x in xs;
      ArrayRemoveCovered(xs[1..], ys);
    }
  }

  lemma {:induction false} ArrayRemoveConcat<T(!new)>(a: seq<T>, b: seq<T>, ys: seq<T>)
    ensures ArrayRemove(a + b, ys) == ArrayRemove(a, ys) + ArrayRemove(b, ys)
  {
    if a != [] {
      assert (a + b)[0] == a[0] && (a + b)[1..] == a[1..] + b;
      ArrayRemoveConcat(a[1..], b, ys);
    } else {
      assert a + b == b;
    }
  }

  /** Removing what a union of absent elements added restores the array. */
  lemma ArrayUnionThenRemove<T(!new)>(xs: seq<T>, ys: seq<T>)
    requires forall y :: y in ys ==> y !in xs
    ensures ArrayRemove(ArrayUnion(xs, ys), ys) == xs
  {
    var r := ArrayUnion(xs, ys);
    var added := r[|xs|..];
    assert r == xs + added;
    ArrayRemoveConcat(xs, added, ys);
    ArrayRemoveAbsent(xs, ys);
    ArrayRemoveCovered(added, ys);
  }

  // --------------------------------------------------------- user mutations

  /** The two array fields of a profile that following writes to. */
  datatype ArrayField = Following | Followers

  /** The transform an array-field update carries. */
  datatype ArrayEdit = Union(elements: seq<string>) | Remove(elements: seq<string>)

  function ArrayOf(u: User, f: ArrayField): seq<string> {
    match f
    case Following => u.following
    case Followers => u.followers
  }

  function WithArray(u: User, f: ArrayField, v: seq<string>): User {
    match f
    case Following => u.(following := v)
    case Followers => u.(followers := v)
  }

  function Apply(e: ArrayEdit, xs: seq<string>): seq<string> {
    match e
    case Union(ys) => ArrayUnion(xs, ys)
    case Remove(ys) => ArrayRemove(xs, ys)
  }

  /** `updateData([field: FieldValue.arrayUnion(..)])` or `arrayRemove(..)` on one profile. */
  function UpdateUserArray(db: Db, uid: string, f: ArrayField, e: ArrayEdit): (r: Result<Db>)
    ensures r.Err? <==> uid !in db.users
    ensures r.Err? ==> r.error == NotFound
    ensures r.Ok? ==> r.value.rankings == db.rankings && r.value.index == db.index
    ensures r.Ok? ==> r.value.users.Keys == db.users.Keys
    ensures r.Ok? ==> ArrayOf(r.value.users[uid], f) == Apply(e, ArrayOf(db.users[uid], f))
    ensures r.Ok? ==> r.value.users[uid] == WithArray(db.users[uid], f, ArrayOf(r.value.users[uid], f))
    ensures r.Ok? ==> forall k :: k in db.users && k != uid ==> r.value.users[k] == db.users[k]
    ensures r.Ok? && Valid(db) ==> Valid(r.value)
  {
    if uid !in db.users then Err(NotFound)
    else
      var u := db.users[uid];
      Ok(db.(users := db.users[uid := WithArray(u, f, Apply(e, ArrayOf(u, f)))]))
  }

  /** `updateData(["bio": bio, "favoriteCategories": ..])` on one profile. */
  function UpdateProfileFields(db: Db, uid: string, bio: string, cats: seq<Category>): (r: Result<Db>)
    ensures r.Err? <==> uid !in db.users
    ensures r.Err? ==> r.error == NotFound
    ensures r.Ok? ==> r.value.rankings == db.rankings && r.value.index == db.index
    ensures r.Ok? ==> r.value.users.Keys == db.users.Keys
    ensures r.Ok? ==> var u, u' := db.users[uid], r.value.users[uid];
      && u'.bio == Some(bio) && u'.favoriteCategories == cats
      && u'.followers == u.followers && u'.following == u.following
      && ProfileIdentityKept(u, u') && u'.lastActive == u.lastActive
    ensures r.Ok? ==> forall k :: k in db.users && k != uid ==> r.value.users[k] == db.users[k]
    ensures r.Ok? && Valid(db) ==> Valid(r.value)
  {
    if uid !in db.users then Err(NotFound)
    else
      var u := db.users[uid];
      Ok(db.(users := db.users[uid := u.(bio := Some(bio), favoriteCategories := cats)]))
  }
}
