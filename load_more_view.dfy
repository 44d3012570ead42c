/** `src/pages/LoadMoreView.tsx`: the stand-alone infinite-scroll page. Its
    state and handlers are those of `PokemonsView.ViewState` with the view mode
    fixed to `'infinite'`; what it computes on its own is below. */
module LoadMoreView {
  import opened Wrappers
  import opened PokemonApi
  import opened PokemonListQuery
  import PokemonsView
  import Reconciliation

  /** `isInitialLoading`: loading with nothing accumulated yet. */
  function InitialLoading(isLoading: bool, allPokemon: seq<PokemonCard>): (initial: bool)
    ensures initial ==> isLoading && allPokemon == []
    ensures isLoading && allPokemon == [] ==> initial
  {
    isLoading && |allPokemon| == 0
  }

  /** The rendered list area: error, else skeleton of one load while initially
      loading, else the accumulated list and the load-more button. */
  function Area(allPokemon: seq<PokemonCard>, offset: int, perLoad: PokemonsView.PosInt,
                isLoading: bool, error: Option<Thrown>, data: Option<ListData>): (screen: PokemonsView.ListScreen)
    ensures screen.ErrorScreen? <==> error.Some?
    ensures screen.Skeleton? <==> error.None? && isLoading && allPokemon == []
    ensures screen.Skeleton? ==> screen.placeholders == perLoad
    ensures !screen.ErrorScreen? && !screen.Skeleton? ==>
      screen == PokemonsView.Accumulated(allPokemon, PokemonsView.HasMore(data, offset, perLoad), isLoading)
  {
    if error.Some? then PokemonsView.ErrorScreen(MessageOr(error.value, PokemonsView.LIST_ERROR_FALLBACK))
    else if InitialLoading(isLoading, allPokemon) then PokemonsView.Skeleton(perLoad)
    else PokemonsView.Accumulated(allPokemon, PokemonsView.HasMore(data, offset, perLoad), isLoading)
  }

  /** The page's initial-loading flag is the combined page's in infinite mode. */
  lemma InitialLoadingAgrees(isLoading: bool, allPokemon: seq<PokemonCard>)
    ensures InitialLoading(isLoading, allPokemon) ==
            PokemonsView.IsInitialLoading(isLoading, PokemonsView.INFINITE, allPokemon)
  {
  }

  /** The page renders what the combined page renders in infinite mode, for
      any current page and page size. */
  lemma AreaAgrees(allPokemon: seq<PokemonCard>, offset: int, currentPage: int,
                   perPage: PokemonsView.PosInt, perLoad: PokemonsView.PosInt,
                   isLoading: bool, error: Option<Thrown>, data: Option<ListData>)
    ensures Area(allPokemon, offset, perLoad, isLoading, error, data) ==
            PokemonsView.ListArea(PokemonsView.INFINITE, allPokemon, offset, currentPage, perPage, perLoad,
                                  isLoading, error, data)
  {
  }

  /** The page requests one load at its own offset, as the combined page does
      in infinite mode. */
  lemma RequestAgrees(offset: int, currentPage: int, perPage: PokemonsView.PosInt, perLoad: PokemonsView.PosInt)
    ensures PokemonsView.RequestFor(PokemonsView.INFINITE, offset, currentPage, perPage, perLoad)
            == PokemonsView.Request(perLoad, offset)
  {
  }

  /** A client scenario, not a loop of the page: after `n` presses of
      "Load More" from mount, the offset is `n` loads. */
  method LoadMoreTimes(v: PokemonsView.ViewState, n: nat)
    requires v.viewMode == PokemonsView.INFINITE && v.offset == 0
    modifies v`offset
    ensures v.offset == n * v.perLoad
  {
    var i := 0;
    while i < n
      invariant 0 <= i <= n
      invariant v.offset == i * v.perLoad
    {
      v.LoadMore();
      i := i + 1;
    }
  }

  /** The page's merge effect: every arrival appends the unseen records in
      page order behind the earlier ones, records their ids, and keeps the
      list free of duplicates when the page is. */
  method Arrive(v: PokemonsView.ViewState, data: ListData)
    requires v.viewMode == PokemonsView.INFINITE
    modifies v
    ensures v.allPokemon == old(v.allPokemon) + Reconciliation.Unseen(data.pokemon, old(v.loadedIds))
    ensures v.loadedIds == old(v.loadedIds) + Reconciliation.Ids(Reconciliation.Unseen(data.pokemon, old(v.loadedIds)))
    ensures old(v.Valid()) && Reconciliation.NoDuplicateIds(data.pokemon) ==> v.Valid()
    ensures v.viewMode == old(v.viewMode) && v.offset == old(v.offset) && v.currentPage == old(v.currentPage)
  {
    v.ReceiveData(Some(data));
  }

  /** The record pages that a series of arrivals carries. */
  function PagesOf(deliveries: seq<ListData>): (pages: seq<seq<PokemonCard>>)
    ensures |pages| == |deliveries|
    ensures forall k :: 0 <= k < |pages| ==> pages[k] == deliveries[k].pokemon
  {
    seq(|deliveries|, k requires 0 <= k < |deliveries| => deliveries[k].pokemon)
  }

  /** A client scenario: from an empty list, the merge effect runs once per
      arrival. The list ends as the accumulation of the pages, its ids are
      every id seen, and it holds exactly one card per id seen. */
  method ArriveAll(v: PokemonsView.ViewState, deliveries: seq<ListData>)
    requires v.viewMode == PokemonsView.INFINITE && v.allPokemon == [] && v.loadedIds == {}
    requires forall k :: 0 <= k < |deliveries| ==> Reconciliation.NoDuplicateIds(deliveries[k].pokemon)
    modifies v
    ensures v.allPokemon == Reconciliation.Accumulate(PagesOf(deliveries))
    ensures v.loadedIds == Reconciliation.AllIds(PagesOf(deliveries))
    ensures |v.allPokemon| == |Reconciliation.AllIds(PagesOf(deliveries))|
    ensures v.Valid()
    ensures v.viewMode == old(v.viewMode) && v.offset == old(v.offset) && v.currentPage == old(v.currentPage)
  {
    var pages := PagesOf(deliveries);
    var i := 0;
    while i < |deliveries|
      invariant 0 <= i <= |deliveries|
      invariant v.viewMode == PokemonsView.INFINITE
      invariant v.offset == old(v.offset) && v.currentPage == old(v.currentPage)
      invariant v.allPokemon == Reconciliation.Accumulate(pages[..i])
      invariant v.Valid()
    {
      assert pages[..i + 1][..i] == pages[..i];
      Arrive(v, deliveries[i]);
      i := i + 1;
    }
    assert pages[..i] == pages;
    Reconciliation.AccumulateCountsEveryIdOnce(pages);
  }

  /** The page's `handleRetry`: always back to an empty list at offset 0. */
  method RetryFromScratch(v: PokemonsView.ViewState)
    requires v.viewMode == PokemonsView.INFINITE
    modifies v
    ensures v.offset == 0 && v.allPokemon == [] && v.loadedIds == {} && v.Valid()
    ensures v.viewMode == old(v.viewMode) && v.currentPage == old(v.currentPage)
  {
    v.Retry();
  }
}
