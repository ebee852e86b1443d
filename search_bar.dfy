/** The search bar: the two input fields, whether the recent-search list is
    open, and the search and pick-a-recent-search handlers. */
module SearchBar {
  import opened Types
  import opened Text
  import opened RouteStore

  /** The bar's component state, and the shared store it records searches in. */
  class SearchBar {
    var origin: string
    var destination: string
    var showRecentSearches: bool
    const store: RouteStore

    /** Both fields start empty and the list closed. */
    constructor (store: RouteStore)
      ensures this.store == store
      ensures origin == "" && destination == "" && !showRecentSearches
    {
      this.store := store;
      origin := "";
      destination := "";
      showRecentSearches := false;
    }

    /** Typing in the "From" field. */
    method ChangeOrigin(text: string)
      modifies this
      ensures origin == text
      ensures destination == old(destination) && showRecentSearches == old(showRecentSearches)
    {
      origin := text;
    }

    /** Typing in the "To" field. */
    method ChangeDestination(text: string)
      modifies this
      ensures destination == text
      ensures origin == old(origin) && showRecentSearches == old(showRecentSearches)
    {
      destination := text;
    }

    /** Focusing either field opens the recent-search list. */
    method Focus()
      modifies this
      ensures showRecentSearches
      ensures origin == old(origin) && destination == old(destination)
    {
      showRecentSearches := true;
    }

    /** `handleSearch`, at time `now`. When both trimmed fields are non-empty
        it records the trimmed search, returns the trimmed pair `onSearch` is
        called with, and closes the list; otherwise nothing happens. The
        fields keep what was typed. */
    method HandleSearch(now: int) returns (searched: Option<(string, string)>)
      modifies this, store
      ensures origin == old(origin) && destination == old(destination)
      ensures store.savedRoutes == old(store.savedRoutes)
      ensures Trim(origin) != "" && Trim(destination) != "" ==>
                && searched == Some((Trim(origin), Trim(destination)))
                && store.recentSearches
                   == AddRecent(old(store.recentSearches), SearchQuery(Trim(origin), Trim(destination), now))
                && !showRecentSearches
      ensures Trim(origin) == "" || Trim(destination) == "" ==>
                && searched == None
                && store.recentSearches == old(store.recentSearches)
                && showRecentSearches == old(showRecentSearches)
      ensures old(store.Valid()) ==> store.Valid()
    {
      var o, d := Trim(origin), Trim(destination);
      var complete := |o| > 0 && |d| > 0;
      if complete {
        store.AddRecentSearch(SearchQuery(o, d, now));
        searched := Some((o, d));
        showRecentSearches := false;
      } else {
        searched := None;
      }
    }

    /** `handleRecentSearchSelect`: copy the search into both fields and
        close the list; the store is not touched. */
    method HandleRecentSearchSelect(search: SearchQuery)
      modifies this
      ensures origin == search.origin && destination == search.destination
      ensures !showRecentSearches
    {
      origin := search.origin;
      destination := search.destination;
      showRecentSearches := false;
    }

    /** The recent-search list is on screen when it is open and the store
        has at least one recent search. */
    predicate RecentListShown()
      reads this, store
    {
      showRecentSearches && |store.recentSearches| > 0
    }
  }

  /** A search whose fields hold only white space is never recorded: a
      field trims to nothing exactly when it is all white space. */
  lemma BlankFieldBlocksSearch(origin: string, destination: string)
    requires AllSpace(origin) || AllSpace(destination)
    ensures Trim(origin) == "" || Trim(destination) == ""
  {
    TrimEmptyIff(origin);
    TrimEmptyIff(destination);
  }

  /** After focusing a field, the list is on screen exactly when the store
      has a recent search. */
  method FocusShowsRecent(bar: SearchBar)
    modifies bar
    ensures bar.RecentListShown() <==> |bar.store.recentSearches| > 0
  {
    bar.Focus();
  }
}
