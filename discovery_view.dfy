/** The discovery screen: the category chips, the search field and the view-model call each triggers. */
module DiscoveryScreen {
  import opened Wrappers
  import opened RankingModel
  import opened Store
  import opened Discovery

  /** A chip is highlighted when its category is the selection. */
  predicate IsSelected(selected: Option<Category>, c: Category) {
    selected == Some(c)
  }

  /** The selection after tapping the chip of `tapped`. */
  function NextSelection(selected: Option<Category>, tapped: Category): Option<Category> {
    if selected == Some(tapped) then None else Some(tapped)
  }

  /** At most one chip is highlighted, and exactly one when a category is selected. */
  lemma AtMostOneSelected(selected: Option<Category>, c: Category, d: Category)
    ensures IsSelected(selected, c) && IsSelected(selected, d) ==> c == d
    ensures selected.Some? ==> IsSelected(selected, selected.value)
  {
  }

  /** A tap flips its own chip, and afterwards no other chip is highlighted. */
  lemma TapFlipsChip(selected: Option<Category>, tapped: Category)
    ensures IsSelected(NextSelection(selected, tapped), tapped) <==> !IsSelected(selected, tapped)
    ensures forall c :: c != tapped ==> !IsSelected(NextSelection(selected, tapped), c)
  {
  }

  /** Every tap changes the selection, so every tap triggers the selection-change handler. */
  lemma TapChangesSelection(selected: Option<Category>, tapped: Category)
    ensures NextSelection(selected, tapped) != selected
  {
  }

  /** Tapping the same chip twice restores the selection, unless another chip was selected. */
  lemma TapTwice(selected: Option<Category>, tapped: Category)
    ensures NextSelection(NextSelection(selected, tapped), tapped) == selected <==> selected.None? || selected == Some(tapped)
  {
  }

  class DiscoveryView {
    const viewModel: DiscoveryViewModel
    var selectedCategory: Option<Category>
    var searchText: string

    constructor (viewModel: DiscoveryViewModel)
      ensures this.viewModel == viewModel && selectedCategory == None && searchText == ""
    {
      this.viewModel := viewModel;
      selectedCategory := None;
      searchText := "";
    }

    /** `.task` on appearing, and `.refreshable` on pull to refresh: the first page again. */
    method Appear(fails: bool)
      requires viewModel.Valid()
      modifies viewModel
      ensures viewModel.Valid() && viewModel.db == old(viewModel.db) && !viewModel.isLoading
      ensures fails ==>
        && viewModel.rankings == old(viewModel.rankings)
        && viewModel.lastDocument == old(viewModel.lastDocument)
        && viewModel.error == Some(Unavailable)
      ensures !fails ==>
        && viewModel.rankings == FirstPage(viewModel.db)
        && viewModel.lastDocument == Last(viewModel.rankings)
        && viewModel.error == old(viewModel.error)
        && viewModel.Paging()
    {
      viewModel.FetchRankings(fails);
    }

    /** A chip's action, then the `onChange(of: selectedCategory)` handler. */
    method TapCategory(category: Category, fails: bool)
      requires viewModel.Valid()
      modifies this, viewModel
      ensures selectedCategory == NextSelection(old(selectedCategory), category) && searchText == old(searchText)
      ensures viewModel.Valid() && viewModel.db == old(viewModel.db)
      ensures fails ==> viewModel.rankings == old(viewModel.rankings) && viewModel.error == Some(Unavailable)
      ensures fails || selectedCategory.Some? ==> viewModel.lastDocument == old(viewModel.lastDocument)
      ensures !fails ==> viewModel.error == old(viewModel.error)
      ensures selectedCategory.None? ==> !viewModel.isLoading
      ensures selectedCategory.Some? ==> viewModel.isLoading == old(viewModel.isLoading)
      ensures !fails && selectedCategory.None? ==>
        viewModel.rankings == FirstPage(viewModel.db) && viewModel.lastDocument == Last(viewModel.rankings)
      ensures !fails && selectedCategory.Some? ==>
        viewModel.rankings == CategoryResults(viewModel.db, selectedCategory.value)
    {
      var previous := selectedCategory;
      selectedCategory := if selectedCategory == Some(category) then None else Some(category);
      TapChangesSelection(previous, category);
      if selectedCategory != previous {
        viewModel.FilterByCategory(selectedCategory, fails);
      }
    }

    /** An edit of the search field, then the `onChange(of: searchText)` handler. */
    method EditSearchText(text: string, fails: bool)
      requires viewModel.Valid()
      modifies this, viewModel
      ensures searchText == text && selectedCategory == old(selectedCategory)
      ensures viewModel.Valid() && viewModel.db == old(viewModel.db)
      ensures text == old(searchText) ==>
        && viewModel.rankings == old(viewModel.rankings)
        && viewModel.lastDocument == old(viewModel.lastDocument)
        && viewModel.isLoading == old(viewModel.isLoading)
        && viewModel.error == old(viewModel.error)
      ensures text != old(searchText) && fails ==>
        && viewModel.rankings == old(viewModel.rankings)
        && viewModel.lastDocument == old(viewModel.lastDocument)
        && viewModel.error == Some(Unavailable)
      ensures text != old(searchText) && !fails ==>
        && viewModel.rankings == (if text == "" then FirstPage(viewModel.db) else SearchResults(viewModel.db, text))
        && viewModel.lastDocument == (if text == "" then Last(viewModel.rankings) else old(viewModel.lastDocument))
        && viewModel.error == old(viewModel.error)
      ensures text != old(searchText) ==>
        if text == "" then !viewModel.isLoading else viewModel.isLoading == old(viewModel.isLoading)
    {
      var previous := searchText;
      searchText := text;
      if searchText != previous {
        viewModel.SearchRankings(searchText, fails);
      }
    }
  }
}
