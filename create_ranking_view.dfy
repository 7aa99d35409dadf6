/** The create-ranking form: its item list edits and when Save and Add may be tapped. */
module CreateRankingScreen {
  import opened Wrappers
  import opened RankingModel
  import opened Store
  import opened CreateRanking

  /** Save is offered only with a title and at least one item. */
  predicate SaveEnabled(title: string, items: seq<RankingItem>) {
    title != "" && items != []
  }

  /** Add, in the item form, is offered only with an item title. */
  predicate AddEnabled(itemTitle: string) {
    itemTitle != ""
  }

  /** The item the Add button of the item form builds; `itemId` stands for the fresh UUID. */
  function NewItem(itemId: string, itemTitle: string, description: string): (r: RankingItem)
    ensures r.id == itemId && r.title == itemTitle
    ensures r.description.None? <==> description == ""
    ensures r.description.Some? ==> r.description.value == description
    ensures r.imageURL.None? && r.rating == 0.0 && r.position == 0
  {
    RankingItem(itemId, itemTitle, if description == "" then None else Some(description), None, 0.0, 0)
  }

  /**
   * Save stays off without a title or without items; an item built by an
   * enabled Add has a title, and appending it to a titled form turns Save on.
   */
  lemma EnablementRules(title: string, items: seq<RankingItem>, itemId: string, itemTitle: string, description: string)
    ensures SaveEnabled(title, items) <==> |title| > 0 && |items| > 0
    ensures AddEnabled(itemTitle) <==> |itemTitle| > 0
    ensures AddEnabled(itemTitle) ==> AddEnabled(NewItem(itemId, itemTitle, description).title)
    ensures title != "" ==> SaveEnabled(title, items + [NewItem(itemId, itemTitle, description)])
  {
    assert |items + [NewItem(itemId, itemTitle, description)]| == |items| + 1;
  }

  /** The items as the form hands them to `createRanking`: no image data with any of them. */
  function AsDrafts(items: seq<RankingItem>): (r: seq<DraftItem>)
    ensures |r| == |items|
    ensures forall i :: 0 <= i < |items| ==> r[i] == DraftItem(items[i], false)
  {
    seq(|items|, i requires 0 <= i < |items| => DraftItem(items[i], false))
  }

  /** Whatever the uploads would give, items without image data are stored as they are. */
  lemma NothingToUpload(items: seq<RankingItem>, uploads: seq<Option<string>>)
    requires |uploads| == |items|
    ensures UploadedItems(AsDrafts(items), uploads) == Ok(items)
  {
    var drafts := AsDrafts(items);
    var r := UploadedItems(drafts, uploads);
    assert forall i :: 0 <= i < |items| ==> !UploadFails(drafts[i], uploads[i]);
    assert r.Ok?;
    assert r.value == items;
  }

  /** The test the drop handler's `firstIndex(where:)` is given. */
  function ItemIdIs(id: string): RankingItem -> bool {
    (x: RankingItem) => x.id == id
  }

  // ------------------------------------------------------------- onMove

  /** The elements `s[i]`, `lo <= i < hi`, whose offset is in `from` (when `moved`) or not in it, in order. */
  function Pick<T>(s: seq<T>, from: set<int>, moved: bool, lo: nat, hi: nat): (r: seq<T>)
    requires lo <= hi <= |s|
    ensures |r| <= hi - lo
    decreases hi - lo
  {
    if lo == hi then [] else (if (lo in from) == moved then [s[lo]] else []) + Pick(s, from, moved, lo + 1, hi)
  }

  /**
   * `move(fromOffsets:toOffset:)`: the elements at `from`, in their order, go
   * in front of the element that stood at offset `to`.
   */
  function Move<T>(s: seq<T>, from: set<int>, to: nat): (r: seq<T>)
    requires to <= |s|
    ensures |r| == |s|
  {
    PickSplit(s, from, false, 0, to, |s|);
    PickCount(s, from, 0, |s|);
    Pick(s, from, false, 0, to) + Pick(s, from, true, 0, |s|) + Pick(s, from, false, to, |s|)
  }

  lemma {:induction false} PickSplit<T>(s: seq<T>, from: set<int>, moved: bool, lo: nat, mid: nat, hi: nat)
    requires lo <= mid <= hi <= |s|
    ensures Pick(s, from, moved, lo, hi) == Pick(s, from, moved, lo, mid) + Pick(s, from, moved, mid, hi)
    decreases mid - lo
  {
    if lo < mid {
      PickSplit(s, from, moved, lo + 1, mid, hi);
    }
  }

  lemma {:induction false} PickCount<T>(s: seq<T>, from: set<int>, lo: nat, hi: nat)
    requires lo <= hi <= |s|
    ensures |Pick(s, from, false, lo, hi)| + |Pick(s, from, true, lo, hi)| == hi - lo
    decreases hi - lo
  {
    if lo < hi {
      PickCount(s, from, lo + 1, hi);
    }
  }

  /** One step of `Pick`, seen as a multiset. */
  lemma PickStep<T>(s: seq<T>, from: set<int>, moved: bool, lo: nat, hi: nat)
    requires lo < hi <= |s|
    ensures multiset(Pick(s, from, moved, lo, hi))
      == (if (lo in from) == moved then multiset{s[lo]} else multiset{}) + multiset(Pick(s, from, moved, lo + 1, hi))
  {
  }

  lemma SliceStep<T>(s: seq<T>, lo: nat, hi: nat)
    requires lo < hi <= |s|
    ensures multiset(s[lo..hi]) == multiset{s[lo]} + multiset(s[lo + 1..hi])
  {
    assert s[lo..hi] == [s[lo]] + s[lo + 1..hi];
  }

  /** Every element of the range is either picked as moved or as kept, never both. */
  lemma {:induction false} PickPartition<T>(s: seq<T>, from: set<int>, lo: nat, hi: nat)
    requires lo <= hi <= |s|
    ensures multiset(Pick(s, from, false, lo, hi)) + multiset(Pick(s, from, true, lo, hi)) == multiset(s[lo..hi])
    decreases hi - lo
  {
    if lo < hi {
      PickPartition(s, from, lo + 1, hi);
      PickStep(s, from, false, lo, hi);
      PickStep(s, from, true, lo, hi);
      SliceStep(s, lo, hi);
    }
  }

  lemma {:induction false} PickNone<T>(s: seq<T>, from: set<int>, lo: nat, hi: nat)
    requires lo <= hi <= |s| && forall j :: lo <= j < hi ==> j !in from
    ensures Pick(s, from, false, lo, hi) == s[lo..hi] && Pick(s, from, true, lo, hi) == []
    decreases hi - lo
  {
    if lo < hi {
      PickNone(s, from, lo + 1, hi);
      assert s[lo..hi] == [s[lo]] + s[lo + 1..hi];
    }
  }

  /** A move neither loses nor duplicates an item. */
  lemma MovePermutes<T>(s: seq<T>, from: set<int>, to: nat)
    requires to <= |s|
    ensures multiset(Move(s, from, to)) == multiset(s)
  {
    PickSplit(s, from, false, 0, to, |s|);
    PickPartition(s, from, 0, |s|);
    assert s[0..|s|] == s;
  }

  /** Moving nothing leaves the list as it is. */
  lemma MoveNothing<T>(s: seq<T>, to: nat)
    requires to <= |s|
    ensures Move(s, {}, to) == s
  {
    PickNone(s, {}, 0, to);
    PickNone(s, {}, 0, |s|);
    PickNone(s, {}, to, |s|);
    assert s[0..to] + s[to..|s|] == s;
  }

  /** The element at `i` moved to offset `j` ends at `j`, or at `j - 1` when it came from before `j`. */
  lemma MoveOneLands<T>(s: seq<T>, i: nat, j: nat)
    requires i < |s| && j <= |s|
    ensures Move(s, {i}, j)[if j <= i then j else j - 1] == s[i]
  {
    var from := {i};
    PickSplit(s, from, true, 0, i, |s|);
    PickSplit(s, from, true, i, i + 1, |s|);
    PickNone(s, from, 0, i);
    PickNone(s, from, i + 1, |s|);
    assert Pick(s, from, true, 0, |s|) == [s[i]];
    if j <= i {
      PickNone(s, from, 0, j);
    } else {
      PickSplit(s, from, false, 0, i, j);
      PickSplit(s, from, false, i, i + 1, j);
      PickNone(s, from, i + 1, j);
      assert |Pick(s, from, false, 0, j)| == j - 1;
    }
  }

  /** Dropping an item just before or just after itself changes nothing. */
  lemma MoveOntoItself<T>(s: seq<T>, i: nat, j: nat)
    requires i < |s| && (j == i || j == i + 1)
    ensures Move(s, {i}, j) == s
  {
    var from := {i};
    PickSplit(s, from, true, 0, i, |s|);
    PickSplit(s, from, true, i, i + 1, |s|);
    PickSplit(s, from, false, i, i + 1, |s|);
    PickNone(s, from, 0, i);
    PickNone(s, from, i + 1, |s|);
    if j == i + 1 {
      PickSplit(s, from, false, 0, i, i + 1);
    }
    assert s[0..i] + [s[i]] + s[i + 1..|s|] == s;
  }

  // ------------------------------------------------------------- drop

  /** `remove(at: from)` and then `insert(_, at: to)`. */
  function Reinsert<T>(s: seq<T>, from: nat, to: nat): (r: seq<T>)
    requires from < |s| && to < |s|
    ensures |r| == |s| && r[to] == s[from]
    ensures multiset(r) == multiset(s)
  {
    var rest := s[..from] + s[from + 1..];
    assert s == s[..from] + [s[from]] + s[from + 1..];
    assert multiset(s) == multiset(rest) + multiset{s[from]};
    assert rest == rest[..to] + rest[to..];
    assert multiset(rest) == multiset(rest[..to]) + multiset(rest[to..]);
    rest[..to] + [s[from]] + rest[to..]
  }

  /**
   * Dropping the first of two items onto the second: the handler as written
   * looks up the target's id twice and finds offset 1 both times, so nothing
   * moves; looking up the dragged item instead finds offset 0, and the two
   * items trade places.
   */
  lemma DropOntoNeighbour(a: RankingItem, b: RankingItem)
    requires a.id != b.id
    ensures FirstIndex([a, b], ItemIdIs(a.id)) == Some(0)
    ensures FirstIndex([a, b], ItemIdIs(b.id)) == Some(1)
    ensures Reinsert([a, b], 0, 1) == [b, a] != [a, b]
  {
    assert ItemIdIs(a.id)(a) && !ItemIdIs(b.id)(a);
    assert [b, a][0] != [a, b][0];
  }

  class CreateRankingView {
    var title: string
    var selectedCategory: Category
    var items: seq<RankingItem>
    const viewModel: CreateRankingViewModel

    constructor (viewModel: CreateRankingViewModel)
      ensures title == "" && selectedCategory == Movies && items == [] && this.viewModel == viewModel
    {
      title := "";
      selectedCategory := Movies;
      items := [];
      this.viewModel := viewModel;
    }

    /** The item form's `onSave`: the new item goes at the end. */
    method AddItem(itemId: string, itemTitle: string, description: string)
      requires AddEnabled(itemTitle)
      modifies this
      ensures items == old(items) + [NewItem(itemId, itemTitle, description)]
      ensures title == old(title) && selectedCategory == old(selectedCategory)
    {
      items := items + [NewItem(itemId, itemTitle, description)];
    }

    /** `onMove`, with offsets the list supplies. */
    method OnMove(from: set<int>, to: nat)
      requires to <= |items|
      modifies this
      ensures items == Move(old(items), from, to)
      ensures title == old(title) && selectedCategory == old(selectedCategory)
    {
      items := Move(items, from, to);
    }

    /**
     * `DropViewDelegate.dropEntered`: both indices are looked up with the
     * target's own id, so they always agree and nothing moves.
     */
    method DropEntered(item: RankingItem)
      modifies this
      ensures items == old(items)
      ensures title == old(title) && selectedCategory == old(selectedCategory)
    {
      var fromIndex := FirstIndex(items, ItemIdIs(item.id));
      var toIndex := FirstIndex(items, ItemIdIs(item.id));
      if fromIndex.Some? && toIndex.Some? && fromIndex.value != toIndex.value {
        assert false;
      }
    }

    /** The drop handler as evidently intended: the dragged item is taken out and put where the target is. */
    method DropEnteredIntended(dragged: RankingItem, item: RankingItem)
      modifies this
      ensures var f, t := FirstIndex(old(items), ItemIdIs(dragged.id)), FirstIndex(old(items), ItemIdIs(item.id));
        items == if f.Some? && t.Some? && f.value != t.value then Reinsert(old(items), f.value, t.value) else old(items)
      ensures title == old(title) && selectedCategory == old(selectedCategory)
    {
      var fromIndex := FirstIndex(items, ItemIdIs(dragged.id));
      var toIndex := FirstIndex(items, ItemIdIs(item.id));
      if fromIndex.Some? && toIndex.Some? && fromIndex.value != toIndex.value {
        var moved := items[fromIndex.value];
        items := items[..fromIndex.value] + items[fromIndex.value + 1..];
        items := items[..toIndex.value] + [moved] + items[toIndex.value..];
      }
    }

    /** The Save button: publishes the form's title, category and items as they are. */
    method Save(currentUser: Option<string>, newId: string, now: int, elapsed: nat, fails: bool)
      requires SaveEnabled(title, items)
      requires viewModel.Valid() && newId !in viewModel.db.rankings
      modifies viewModel
      ensures viewModel.Valid() && !viewModel.isLoading
      ensures fails ==> viewModel.db == old(viewModel.db) && viewModel.error == Some(Unavailable)
      ensures !fails ==>
        && viewModel.error == old(viewModel.error)
        && viewModel.db == AddDocument(old(viewModel.db), newId,
                             NewRanking(title, selectedCategory, items, OwnerOf(currentUser), now, now + elapsed))
    {
      var entries := items;
      var drafts := seq(|entries|, i requires 0 <= i < |entries| => DraftItem(entries[i], false));
      var uploads: seq<Option<string>> := seq(|entries|, i => None);
      assert drafts == AsDrafts(items);
      NothingToUpload(items, uploads);
      viewModel.CreateRanking(title, selectedCategory, drafts, uploads, currentUser, newId, now, elapsed, fails);
    }
  }
}
