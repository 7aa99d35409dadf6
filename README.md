# Rankify: ranking catalogue and social graph, modelled in Dafny

Rankify is a SwiftUI app. Users publish ordered lists ("rankings") of items in one of seven
categories. Other users browse a recency feed, search it by title prefix and filter it by category.
They like rankings, comment on them and follow each other. Everything is stored in a document store
with two collections, `rankings` and `users`.

This project models the app's logic, which lives in its view models and in a few view-state rules:

- `store.dfy` (module `Store`) makes the document store an in-memory value, `Db`. It holds a map of
  rankings, a map of users, and `index`, the order in which the store serves rankings by `createdAt`
  descending. It defines the store operations the view models issue as Dafny functions: ordered
  query, `limit`, start-after cursor, equality and title-range filters, `increment`, `arrayUnion`,
  `arrayRemove`, add document and delete document. A failing store call is a boolean flag.
- `ranking.dfy` and `user.dfy` hold the documents (`Ranking`, `RankingItem`, `Comment`, `User`), the
  `Category` raw-string encoding and `isProfileComplete`.
- `text_order.dfy` holds the string order the store compares titles by. It also holds the title
  range `[q, q + "\u{f8ff}"]` that the search asks for.
- Each view model is a class with its own fields (`rankings`, `lastDocument`, `error`, `isLoading`)
  and a `db` field standing for the store. Its async methods are sequential methods. They take the
  signed-in user's id as an `Option`, and a "store call fails" flag per store call. The files are
  `discovery_view_model.dfy`, `profile_view_model.dfy`, `ranking_detail_view_model.dfy` and
  `create_ranking_view_model.dfy`.
- `create_ranking_view.dfy` and `discovery_view.dfy` hold the view state the screens change. That is
  the item list of the create form with its append, move and drop edits, the Save and Add
  enablement rules, and the category chips with the view-model call each change triggers.

The model follows the code, not the design the app was meant to have. In particular:

- Delete has no owner check.
- Follow has no self-follow guard.
- A comment's text is not validated.
- The model does not order rankings with the same `createdAt`, or with equal titles, by document
  id as the store does. It places such ties itself; `## Left out` says where.
- Creating a ranking does not validate the title, the items or the ratings, and does not renumber
  item positions.
- Search results come in title order. A query with a range filter on `title` is served ordered by
  `title`.

`createRanking` reads `item.imageData`, which `RankingItem` does not declare, and assigns to its
`let` field `imageURL`. As written it does not compile. The model gives each item passed to
`createRanking` a "has pending image data" flag (`DraftItem`). It gives each upload a result, a URL
or a failure.

## Model

| member | source | states |
|---|---|---|
| `RankingModel.RawValue` | rankify/Models/Ranking.swift:15-23 | each of the seven categories has its declared raw string; `ParseCategory`, `RawValueRoundTrip` and `RawValueInjective` state that the strings identify the cases |
| `RankingModel.ParseCategory` | rankify/Models/Ranking.swift:15-23 | decoding gives a category exactly when the string is that category's raw value, and `None` for every other string |
| `RankingModel.RawValueRoundTrip` | rankify/Models/Ranking.swift:15-23 | decoding `c.rawValue` gives back `c` for each of the seven categories |
| `RankingModel.RawValueInjective` | rankify/Models/Ranking.swift:16-22 | two categories with the same raw string are the same category |
| `RankingModel.AllCases` | rankify/Models/Ranking.swift:15-23 | `allCases` has seven pairwise distinct entries, `Movies` first and `Other` last |
| `RankingModel.AllCasesListsEvery` | rankify/Models/Ranking.swift:15-23 | every category is listed in `allCases`, at its declaration position |
| `UserModel.IsProfileComplete` | rankify/Models/User.swift:16-18 | a profile is complete when the display name is non-empty and a photo URL is set; the three lemmas below state what decides it |
| `UserModel.EmptyNameIsIncomplete` | rankify/Models/User.swift:17 | an empty `displayName` makes a profile incomplete, whatever the photo |
| `UserModel.MissingPhotoIsIncomplete` | rankify/Models/User.swift:17 | a nil `photoURL` makes a profile incomplete, whatever the name |
| `UserModel.CompletenessIgnoresMutableFields` | rankify/Models/User.swift:9-18 | completeness holds iff the name is non-empty and a photo is present; it does not depend on `bio`, `followers`, `following`, `favoriteCategories` or `lastActive` |
| `UserModel.EncodeCategories` | rankify/ViewModels/ProfileViewModel.swift:36 | the encoded list has one raw value per category, in the given order |
| `UserModel.CategoriesRoundTrip` | rankify/ViewModels/ProfileViewModel.swift:36 | decoding the stored raw values gives back the favourite categories |
| `Wrappers.FirstIndex` | rankify/ViewModels/DiscoveryViewModel.swift:93 | `firstIndex(where:)` returns the first matching offset, or `None` when nothing matches |
| `TextOrder.LexLeTotal` | rankify/ViewModels/DiscoveryViewModel.swift:57-58 | any two titles are comparable in the store's string order |
| `TextOrder.LexLeTransitive` | rankify/ViewModels/DiscoveryViewModel.swift:57-58 | the store's string order is transitive |
| `TextOrder.LexLeReflexive` | rankify/ViewModels/DiscoveryViewModel.swift:57-58 | the store's string order is reflexive |
| `TextOrder.InSearchRangeHasPrefix` | rankify/ViewModels/DiscoveryViewModel.swift:57-58 | every title in `[q, q + "\u{f8ff}"]` starts with `q` |
| `TextOrder.PrefixIsInSearchRange` | rankify/ViewModels/DiscoveryViewModel.swift:57-58 | a title that starts with `q`, followed by nothing or by a character below U+F8FF, is in the range |
| `TextOrder.SearchTopExample` | rankify/ViewModels/DiscoveryViewModel.swift:57-58 | searching "Top" keeps "Top 10 Movies" and "Top Albums" and drops "Best Shows" |
| `Store.Recent` | rankify/ViewModels/DiscoveryViewModel.swift:19-20 | the collection ordered by `createdAt` descending: every stored ranking exactly once, and nothing else |
| `Store.ListedCoversAll` | rankify/ViewModels/DiscoveryViewModel.swift:19-20 | the served order lists every document of the collection, and each entry is the stored document |
| `Store.DistinctCovering` | rankify/ViewModels/DiscoveryViewModel.swift:19-20 | a duplicate-free list of a set's elements is as long as the set is large |
| `Store.Where` | rankify/ViewModels/ProfileViewModel.swift:20-21 | `whereField` keeps exactly the matching documents and keeps their newest-first order |
| `Store.StartAfter` | rankify/ViewModels/DiscoveryViewModel.swift:37 | the documents served after a cursor are a suffix of the order |
| `Store.StartAfterListed` | rankify/ViewModels/DiscoveryViewModel.swift:37 | after the `k`-th document of the order come exactly the documents after position `k` |
| `Store.Limit` | rankify/ViewModels/DiscoveryViewModel.swift:21 | `limit(to: n)` keeps the first `n` documents, or all when there are fewer |
| `Store.InsertByTitle` | rankify/ViewModels/DiscoveryViewModel.swift:56-59 | inserting into a title-ordered list adds exactly that document and keeps the list title-ordered |
| `Store.SortByTitle` | rankify/ViewModels/DiscoveryViewModel.swift:56-59 | a title-range query is served as a title-ordered permutation of its matches |
| `Store.IncrementLikes` | rankify/ViewModels/RankingDetailViewModel.swift:15-17 | `increment` adds the amount to that ranking's `likes`; all other fields and documents stay the same; a missing document fails with not-found |
| `Store.UnionComments` | rankify/ViewModels/RankingDetailViewModel.swift:35-37 | `arrayUnion` on `comments` changes only that ranking's comments; a missing document fails with not-found |
| `Store.InsertNewest` | rankify/ViewModels/CreateRankingViewModel.swift:41 | a new id goes into the recency order once, and the order stays newest first |
| `Store.AddDocument` | rankify/ViewModels/CreateRankingViewModel.swift:41 | `addDocument` files the record under a fresh id; the collection grows by exactly one and the rest is unchanged |
| `Store.Without` | rankify/ViewModels/RankingDetailViewModel.swift:47 | dropping an id from the order keeps every other id, and no duplicates |
| `Store.WithoutAbsent` | rankify/ViewModels/RankingDetailViewModel.swift:47 | dropping an id that is not listed changes nothing |
| `Store.WithoutKeepsOrder` | rankify/ViewModels/RankingDetailViewModel.swift:47 | dropping an id keeps the order newest first |
| `Store.DeleteDocument` | rankify/ViewModels/RankingDetailViewModel.swift:47 | `delete` removes that document, leaves the others unchanged, and succeeds on a missing document |
| `Store.ArrayUnion` | rankify/ViewModels/ProfileViewModel.swift:48 | `arrayUnion` keeps the old array as a prefix and appends only elements not present before |
| `Store.ArrayUnionPresent` | rankify/ViewModels/ProfileViewModel.swift:48 | a union of elements that are all present changes nothing |
| `Store.ArrayUnionIdempotent` | rankify/ViewModels/ProfileViewModel.swift:48 | applying the same union twice is the same as applying it once |
| `Store.ArrayRemove` | rankify/ViewModels/ProfileViewModel.swift:64 | `arrayRemove` drops every occurrence of the removed elements and keeps everything else |
| `Store.ArrayRemoveAbsent` | rankify/ViewModels/ProfileViewModel.swift:64 | removing elements that are not present changes nothing |
| `Store.ArrayRemoveCovered` | rankify/ViewModels/ProfileViewModel.swift:64 | removing every element of an array empties it |
| `Store.ArrayRemoveConcat` | rankify/ViewModels/ProfileViewModel.swift:64 | removal distributes over concatenation |
| `Store.ArrayUnionThenRemove` | rankify/ViewModels/ProfileViewModel.swift:47-68 | removing elements that a union has just added to an array without them restores the array |
| `Store.UpdateUserArray` | rankify/ViewModels/ProfileViewModel.swift:47-52 | an array write changes one field of one profile; a missing profile fails with not-found |
| `Store.UpdateProfileFields` | rankify/ViewModels/ProfileViewModel.swift:34-37 | sets `bio` and `favoriteCategories`; `followers`, `following` and the fixed fields are untouched |
| `Discovery.FirstPage` | rankify/ViewModels/DiscoveryViewModel.swift:19-21 | the first page: the recency order cut to `pageSize`; `FirstPageIsNewest` and `FirstPageStartsPaging` state that it is the newest rankings |
| `Discovery.NextPage` | rankify/ViewModels/DiscoveryViewModel.swift:35-38 | the page after a cursor in the same order, cut to `pageSize`; `LoadMoreContinues` and `NextPageKeepsPaging` state that it continues the list shown |
| `Discovery.SearchResults` | rankify/ViewModels/DiscoveryViewModel.swift:56-59 | the answer to the two `title` range filters, served by title; `SearchMatchesTitleRange` and `SearchOnlyPrefixes` state what it holds |
| `Discovery.CategoryResults` | rankify/ViewModels/DiscoveryViewModel.swift:74-77 | the rankings whose `category` equals the raw value, newest first; `CategoryResultsExact` states that it is exactly those |
| `Discovery.FirstPageIsNewest` | rankify/ViewModels/DiscoveryViewModel.swift:12-25 | the first page is a prefix of the recency order with distinct ids, of length 10 or the number of rankings when there are fewer, so it holds the 10 newest rankings (all of them when fewer), newest first |
| `Discovery.PrefixHoldsNewest` | rankify/ViewModels/DiscoveryViewModel.swift:19-21 | a limited newest-first query leaves out nothing newer than what it returns |
| `Discovery.LoadMoreContinues` | rankify/ViewModels/DiscoveryViewModel.swift:35-42 | pages do not overlap and skip nothing: after the first `m` rankings, the next page continues exactly where they end |
| `Discovery.PrefixThenLimit` | rankify/ViewModels/DiscoveryViewModel.swift:38 | the first `m` elements followed by the next `n` are the first `m + n` |
| `Discovery.NextPageKeepsPaging` | rankify/ViewModels/DiscoveryViewModel.swift:42-43 | appending the next page keeps the cached list a prefix of the order, ending at the new cursor |
| `Discovery.SearchMatchesTitleRange` | rankify/ViewModels/DiscoveryViewModel.swift:56-61 | search returns exactly the rankings whose title is in `[q, q + "\u{f8ff}"]`, in title order, each once, with no limit |
| `Discovery.SearchOnlyPrefixes` | rankify/ViewModels/DiscoveryViewModel.swift:56-61 | a title that does not start with `q` is never returned |
| `Discovery.CategoryResultsExact` | rankify/ViewModels/DiscoveryViewModel.swift:74-79 | filtering returns exactly the rankings of that category, newest first, each once |
| `Discovery.DiscoveryViewModel.FetchRankings` | rankify/ViewModels/DiscoveryViewModel.swift:14-29 | on success `rankings` is the first page and `lastDocument` its last entry (nil for an empty page); on failure only `error` changes; `isLoading` ends false |
| `Discovery.DiscoveryViewModel.LoadMoreRankings` | rankify/ViewModels/DiscoveryViewModel.swift:31-47 | a no-op with no cursor; otherwise appends the next page after the cursor and moves the cursor to its last entry (nil when empty), keeping the cached list a prefix of the order |
| `Discovery.DiscoveryViewModel.SearchRankings` | rankify/ViewModels/DiscoveryViewModel.swift:49-65 | the empty query is `fetchRankings`; otherwise `rankings` becomes the title-range results and `lastDocument` is left as it is |
| `Discovery.DiscoveryViewModel.FilterByCategory` | rankify/ViewModels/DiscoveryViewModel.swift:67-83 | nil is `fetchRankings`; a category gives that category's rankings, newest first, unlimited, with `lastDocument` left as it is |
| `Discovery.DiscoveryViewModel.LikeRanking` | rankify/ViewModels/DiscoveryViewModel.swift:85-101 | the store's `likes` goes up by one; the first cached entry with that id becomes the passed ranking with `likes + 1`, and the other entries stay; a nil id or a failed write leaves `rankings` as it is, and a failed write sets `error` |
| `Profile.UserRankings` | rankify/ViewModels/ProfileViewModel.swift:19-22 | the rankings whose `userId` is the user, newest first; `UserRankingsExact` states that it is exactly those |
| `Profile.UserRankingsExact` | rankify/ViewModels/ProfileViewModel.swift:19-24 | the query returns every ranking of the user and nothing else, newest first |
| `Profile.EdgeWrites` | rankify/ViewModels/ProfileViewModel.swift:43-57 | two writes, first `following` then `followers`; a failed first write leaves the store untouched; only the two named profiles change |
| `Profile.EditUser` | rankify/ViewModels/ProfileViewModel.swift:47-52 | an array write keeps the set of profiles |
| `Profile.Follow` | rankify/ViewModels/ProfileViewModel.swift:43-57 | the two `arrayUnion` writes of `followUser`, with a failure possible at either; the lemmas below state its effect |
| `Profile.Unfollow` | rankify/ViewModels/ProfileViewModel.swift:59-73 | the two `arrayRemove` writes of `unfollowUser`, with a failure possible at either; the lemmas below state its effect |
| `Profile.FollowRecordsBothSides` | rankify/ViewModels/ProfileViewModel.swift:47-53 | a successful follow adds the target to `following` and the user to the target's `followers`, and nothing else |
| `Profile.UnfollowRemovesBothSides` | rankify/ViewModels/ProfileViewModel.swift:63-69 | a successful unfollow removes both edges and nothing else |
| `Profile.UnfollowAbsentIsNoop` | rankify/ViewModels/ProfileViewModel.swift:63-69 | unfollowing when neither edge is present changes nothing |
| `Profile.FollowIdempotent` | rankify/ViewModels/ProfileViewModel.swift:47-53 | following twice leaves the same store as following once |
| `Profile.UnfollowUndoesFollow` | rankify/ViewModels/ProfileViewModel.swift:43-73 | follow then unfollow restores both profiles when the edge was absent before |
| `Profile.HalfFollowKeepsFirstWrite` | rankify/ViewModels/ProfileViewModel.swift:47-56 | when the second write fails, an error is reported, the first edge stays, and the target profile is unchanged |
| `Profile.RemoveAbsentKeepsUser` | rankify/ViewModels/ProfileViewModel.swift:64 | removing an absent element leaves the profiles as they are |
| `Profile.UnionTwiceKeepsUsers` | rankify/ViewModels/ProfileViewModel.swift:47-53 | repeating both union writes leaves the profiles as they are |
| `Profile.UnionPresentKeepsUser` | rankify/ViewModels/ProfileViewModel.swift:48 | a union of an element already held leaves the profiles as they are |
| `Profile.RemoveUndoesUnion` | rankify/ViewModels/ProfileViewModel.swift:43-73 | the two removals undo the two unions on profiles that lacked both edges |
| `Profile.EditsOfTwoFieldsCommute` | rankify/ViewModels/ProfileViewModel.swift:47-52 | writes to `following` and to `followers` can be applied in either order |
| `Profile.RemoveUndoesUnionOfOne` | rankify/ViewModels/ProfileViewModel.swift:64 | removing an element just added to one array restores the profiles |
| `Profile.EditTwiceRestores` | rankify/ViewModels/ProfileViewModel.swift:63-68 | two writes to one array, the second undoing the first, restore the profiles |
| `Profile.ProfileViewModel.FetchUserRankings` | rankify/ViewModels/ProfileViewModel.swift:12-28 | signed out: nothing changes; otherwise `rankings` becomes the user's rankings newest first, or `error` is set; `isLoading` ends false |
| `Profile.ProfileViewModel.UpdateProfile` | rankify/ViewModels/ProfileViewModel.swift:30-41 | signed out: nothing changes; otherwise the profile-fields write is applied, or `error` is set and the store is unchanged |
| `Profile.ProfileViewModel.WriteEdges` | rankify/ViewModels/ProfileViewModel.swift:46-56 | the store and `error` after the two writes are exactly those `EdgeWrites` describes |
| `Profile.ProfileViewModel.FollowUser` | rankify/ViewModels/ProfileViewModel.swift:43-57 | signed out: nothing changes; otherwise two union writes, the second attempted only if the first succeeds |
| `Profile.ProfileViewModel.UnfollowUser` | rankify/ViewModels/ProfileViewModel.swift:59-73 | signed out: nothing changes; otherwise two remove writes, the second attempted only if the first succeeds |
| `RankingDetail.NewComment` | rankify/ViewModels/RankingDetailViewModel.swift:27-32 | the comment `addComment` builds from the given id, the signed-in user, the text and the time; `FreshCommentAppended` and `RepeatedCommentIgnored` state how it is stored |
| `RankingDetail.LikesAccumulate` | rankify/ViewModels/RankingDetailViewModel.swift:15-17 | an increment by `a` then by `b` is an increment by `a + b` |
| `RankingDetail.ThreeLikesAddThree` | rankify/ViewModels/RankingDetailViewModel.swift:15-17 | three likes raise the stored count by exactly 3 and change nothing else |
| `RankingDetail.FreshCommentAppended` | rankify/ViewModels/RankingDetailViewModel.swift:27-37 | a comment not in the thread is appended at its end; earlier comments keep their order and the thread grows by one |
| `RankingDetail.RepeatedCommentIgnored` | rankify/ViewModels/RankingDetailViewModel.swift:35-37 | sending an identical comment value again changes nothing, because the write is an `arrayUnion` |
| `RankingDetail.DeleteIsFinal` | rankify/ViewModels/RankingDetailViewModel.swift:43-47 | after a delete no query returns that ranking, and deleting again changes nothing |
| `RankingDetail.RankingDetailViewModel.LikeRanking` | rankify/ViewModels/RankingDetailViewModel.swift:11-21 | a nil id changes nothing; otherwise the increment is applied, or `error` is set and the store is unchanged |
| `RankingDetail.RankingDetailViewModel.AddComment` | rankify/ViewModels/RankingDetailViewModel.swift:23-41 | a nil id or no signed-in user changes nothing; otherwise a comment with the fresh id, the user, the text (even empty) and the clock is unioned in, or `error` is set |
| `RankingDetail.RankingDetailViewModel.DeleteRanking` | rankify/ViewModels/RankingDetailViewModel.swift:43-51 | a nil id changes nothing; otherwise the document is deleted with no owner check, or `error` is set and the store is unchanged |
| `CreateRanking.UploadedItems` | rankify/ViewModels/CreateRankingViewModel.swift:21-27 | fails iff some pending upload fails; otherwise same count and order, only items with pending image data get the uploaded URL, and every other field is kept |
| `CreateRanking.OwnerOf` | rankify/ViewModels/CreateRankingViewModel.swift:34 | the signed-in user's id, or the empty string when signed out (`?? ""`) |
| `CreateRanking.NewRanking` | rankify/ViewModels/CreateRankingViewModel.swift:30-39 | the new ranking record: no id, no likes, no comments; `PublicationAddsOne` states what is stored |
| `CreateRanking.NewestOpensFeed` | rankify/ViewModels/CreateRankingViewModel.swift:30-41 | a ranking created strictly after every stored one is the first in the feed order |
| `CreateRanking.PublishedOnProfile` | rankify/ViewModels/CreateRankingViewModel.swift:33-41 | the new ranking is among its author's rankings |
| `CreateRanking.PublicationAddsOne` | rankify/ViewModels/CreateRankingViewModel.swift:30-41 | exactly one document is added: title, category and items carried over, owner the uid or "", no likes, no comments, `createdAt <= updatedAt`; the rest is unchanged |
| `CreateRanking.UploadedAllAgree` | rankify/ViewModels/CreateRankingViewModel.swift:21-27 | when no upload fails, the loop's items are the uploaded items |
| `CreateRanking.CreateRankingViewModel.UploadImages` | rankify/ViewModels/CreateRankingViewModel.swift:21-27 | the `enumerated()` loop yields exactly `UploadedItems`, stopping at the first failed upload |
| `CreateRanking.CreateRankingViewModel.CreateRanking` | rankify/ViewModels/CreateRankingViewModel.swift:15-45 | a failed upload or a failed add sets `error` and adds nothing; otherwise the new record is added; `isLoading` ends false |
| `CreateRanking.CreateRankingViewModel.AddRanking` | rankify/ViewModels/CreateRankingViewModel.swift:41-44 | the add is applied, or `error` is set and the store is unchanged |
| `CreateRankingScreen.NewItem` | rankify/Views/CreateRankingView.swift:183-190 | the new item's description is nil iff the text is empty, and the text otherwise; no image, rating 0, position 0 |
| `CreateRankingScreen.SaveEnabled` | rankify/Views/CreateRankingView.swift:66 | Save is enabled when the title and the item list are both non-empty; `EnablementRules` states it |
| `CreateRankingScreen.AddEnabled` | rankify/Views/CreateRankingView.swift:194 | Add is enabled when the item title is non-empty; `EnablementRules` states it |
| `CreateRankingScreen.EnablementRules` | rankify/Views/CreateRankingView.swift:66 | Save is enabled iff the title and the items are non-empty; Add is enabled iff the item title is non-empty |
| `CreateRankingScreen.AsDrafts` | rankify/Views/CreateRankingView.swift:58-62 | the form hands its items over unchanged and in order, none with image data |
| `CreateRankingScreen.NothingToUpload` | rankify/Views/CreateRankingView.swift:58-62 | items without image data are stored as they are |
| `CreateRankingScreen.Move` | rankify/Views/CreateRankingView.swift:35-37 | `move(fromOffsets:toOffset:)` keeps the length of the list |
| `CreateRankingScreen.PickSplit` | rankify/Views/CreateRankingView.swift:36 | picking over a range is picking over its two halves |
| `CreateRankingScreen.PickCount` | rankify/Views/CreateRankingView.swift:36 | the moved and the kept elements together number the range's length |
| `CreateRankingScreen.PickStep` | rankify/Views/CreateRankingView.swift:36 | one step of picking, as multisets |
| `CreateRankingScreen.SliceStep` | rankify/Views/CreateRankingView.swift:36 | a range's multiset is its first element plus the rest |
| `CreateRankingScreen.PickPartition` | rankify/Views/CreateRankingView.swift:36 | every element is either moved or kept, never both |
| `CreateRankingScreen.PickNone` | rankify/Views/CreateRankingView.swift:36 | with no offsets selected, everything is kept in order |
| `CreateRankingScreen.MovePermutes` | rankify/Views/CreateRankingView.swift:35-37 | a move is a permutation: the multiset of items is preserved |
| `CreateRankingScreen.MoveNothing` | rankify/Views/CreateRankingView.swift:35-37 | moving no offsets leaves the list as it is |
| `CreateRankingScreen.MoveOneLands` | rankify/Views/CreateRankingView.swift:35-37 | a single item moved to offset `j` ends at `j`, or at `j - 1` when it came from before `j` |
| `CreateRankingScreen.MoveOntoItself` | rankify/Views/CreateRankingView.swift:35-37 | moving an item to just before or just after itself changes nothing |
| `CreateRankingScreen.Reinsert` | rankify/Views/CreateRankingView.swift:130-131 | `remove(at:)` then `insert(_:at:)` puts the item at the target offset and permutes the list |
| `CreateRankingScreen.DropOntoNeighbour` | rankify/Views/CreateRankingView.swift:123-133 | both lookups by the target's id find the same offset, while the dragged item's offset differs, and reinserting it would swap the two |
| `CreateRankingScreen.CreateRankingView.constructor` | rankify/Views/CreateRankingView.swift:8-10 | the form starts with no title, `Movies` selected and no items |
| `CreateRankingScreen.CreateRankingView.AddItem` | rankify/Views/CreateRankingView.swift:70-72 | the new item is appended at the end; earlier items are unchanged |
| `CreateRankingScreen.CreateRankingView.OnMove` | rankify/Views/CreateRankingView.swift:35-37 | `items` becomes the moved list; nothing else changes |
| `CreateRankingScreen.CreateRankingView.DropEntered` | rankify/Views/CreateRankingView.swift:122-134 | as written the handler never changes `items`, because both offsets come from the same lookup |
| `CreateRankingScreen.CreateRankingView.DropEnteredIntended` | rankify/Views/CreateRankingView.swift:122-134 | with the dragged item's offset as the source, the dragged item is reinserted at the target's offset |
| `CreateRankingScreen.CreateRankingView.Save` | rankify/Views/CreateRankingView.swift:56-66 | only when Save is enabled: publishes the form's title, category and items unchanged, owned by the signed-in user or "" |
| `DiscoveryScreen.IsSelected` | rankify/Views/DiscoveryView.swift:17 | a chip is shown selected when it is the selected category; `AtMostOneSelected` states that at most one is |
| `DiscoveryScreen.NextSelection` | rankify/Views/DiscoveryView.swift:20 | a tap clears the selection when it hits the selected chip and selects the tapped chip otherwise; `TapFlipsChip`, `TapChangesSelection` and `TapTwice` state it |
| `DiscoveryScreen.AtMostOneSelected` | rankify/Views/DiscoveryView.swift:17 | at most one chip is highlighted, and it is the selected category |
| `DiscoveryScreen.TapFlipsChip` | rankify/Views/DiscoveryView.swift:20 | tapping the selected chip clears the selection; tapping another chip, or any chip with none selected, selects it |
| `DiscoveryScreen.TapChangesSelection` | rankify/Views/DiscoveryView.swift:20 | every tap changes the selection |
| `DiscoveryScreen.TapTwice` | rankify/Views/DiscoveryView.swift:20 | two taps on one chip restore the selection exactly when nothing or that chip was selected |
| `DiscoveryScreen.DiscoveryView.Appear` | rankify/Views/DiscoveryView.swift:39-41 | on appearing or refreshing, the list is the first page |
| `DiscoveryScreen.DiscoveryView.TapCategory` | rankify/Views/DiscoveryView.swift:14-24 | a chip tap updates the selection, then the list becomes `filterByCategory(newSelection)` |
| `DiscoveryScreen.DiscoveryView.EditSearchText` | rankify/Views/DiscoveryView.swift:44-49 | a changed search text makes the list `searchRankings(newText)`; an unchanged one triggers nothing |

Two properties hold by construction and have no member of their own. `RankingItem` and `Comment`
are immutable datatypes, and only `likes` and `comments` of a stored `Ranking` ever change
(`FixedFieldsKept` in the contracts of `Store.IncrementLikes` and `Store.UnionComments`). Likewise
`email`, `displayName`, `photoURL` and `createdAt` of a `User` never change (`ProfileIdentityKept`
in `Store.UpdateProfileFields`, `WithArray` in `Store.UpdateUserArray`).

## Left out

- The document store, blob storage and the identity provider are not modelled as products. The
  store is the value `Store.Db`, the signed-in user is an `Option<string>` parameter, and each store
  call has a failure flag. An error is recorded as a `StoreError` tag, not as the thrown value.
- Decoding of documents (`compactMap { try? $0.data(as:) }`) is not modelled: every stored document
  decodes, so nothing is dropped.
- `uploadImage` (rankify/ViewModels/CreateRankingViewModel.swift:47-58) is blob-storage I/O. Its
  result per item is a parameter: a URL, or a failure.
- `UUID()` and `Date()` are parameters (`commentId`, `newId`, `itemId`, `now`, `elapsed`). Dates are
  integers. The two clock reads of `createRanking` are `now` and `now + elapsed`.
- The id that `addDocument` assigns is a parameter `newId`, which the caller guarantees is unused.
- async/await and `@MainActor` interleavings are left out: each method is one sequential step. Follow
  and unfollow are two writes with a possible failure between them, and no concurrency.
- `rating` is a `real` that is carried and never computed with. The star display that converts it
  with `Int(rating)` is a layout detail of a view that is not part of this model.
- `shareRanking` (rankify/ViewModels/RankingDetailViewModel.swift:53-55) has an empty body.
- `AuthViewModel` (sign-in, the auth-state listener, lazy profile creation), `ContentView`,
  `ProfileView` and `RankingDetailView` are not part of this model. Nor are the image picker, the
  drag payload (`NSItemProvider`), `dismiss()` and `performDrop`/`dropUpdated`, which are framework
  UI calls.
- `Store.InsertNewest`: a new ranking goes in front of every stored ranking with the same
  `createdAt`. The store breaks such ties by document id, which the model does not capture. For this
  reason `CreateRanking.NewestOpensFeed` asks for a strictly newer ranking.
- `Store.SortByTitle`: rankings with equal titles keep their recency order. The store orders them by
  document id. `Store.InsertByTitle` places a new ranking before the equal titles.
- `Store.IncrementLikes`: `likes` is an unbounded `int`. The source's `likes` is a 64-bit `Int`
  (rankify/Models/Ranking.swift:12), and the store clamps `increment` at the 64-bit bounds. So
  "adds the amount" holds here without limit, and in the source only below `Int.max`.
- `RankingDetail.LikesAccumulate` and `RankingDetail.ThreeLikesAddThree`: these rest on the
  unbounded `likes` of `Store.IncrementLikes`, so they do not cover the clamp at `Int.max` either.
- `Discovery.DiscoveryViewModel.LikeRanking`: the cached `likes += 1`
  (rankify/ViewModels/DiscoveryViewModel.swift:95) traps on overflow at `Int.max` in the source. The
  model adds 1 without a bound, and the store write is unbounded as for `Store.IncrementLikes`.
- `Store.UpdateProfileFields`: stores `favoriteCategories` as `Category` values. The source writes
  their raw strings (rankify/ViewModels/ProfileViewModel.swift:36). `UserModel.EncodeCategories`
  models that encoding, and `UserModel.CategoriesRoundTrip` shows that reading it back gives the same
  list, so the decoded form loses nothing.
- `CreateRankingScreen.CreateRankingView.Save`: the form never attaches image data, so the pending
  flag is false for every item it hands over. The pending-image path of `createRanking` is
  modelled, but only `CreateRanking.CreateRankingViewModel.CreateRanking` exercises it.
- `Discovery.DiscoveryViewModel.LoadMoreRankings`: the cursor is the last document read. When that
  document has since been deleted, the model resumes at the first strictly older document. The
  store's actual resumption rule for a deleted cursor document is not modelled further.

## Findings

| source | as written | input that shows it | evidently intended | confidence | as-written member | corrected member |
|---|---|---|---|---|---|---|
| rankify/Views/CreateRankingView.swift:123-124 | `fromIndex` and `toIndex` are both looked up with the drop target's id, so `fromIndex != toIndex` never holds and dropping never reorders | items `[a, b]` with distinct ids, `a` dragged onto `b`: both lookups give offset 1 and the list stays `[a, b]` (`DropOntoNeighbour`) | `fromIndex` is the dragged item's offset, so the drop moves it to the target's offset and the list becomes `[b, a]` | high for the behaviour; medium for the intent; not executed | `CreateRankingScreen.CreateRankingView.DropEntered` | `CreateRankingScreen.CreateRankingView.DropEnteredIntended` |
