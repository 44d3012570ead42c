/** `src/pages/PaginationView.tsx`: the stand-alone page-window page. Its
    state is the current page alone; it fetches one page at
    `(currentPage - 1) * ITEMS_PER_PAGE` and does not prefetch. */
module PaginationView {
  import opened Wrappers
  import opened PokemonApi
  import opened PokemonListQuery
  import PokemonsView

  /** The rendered list area: error, else a skeleton of one page while
      loading, else the fetched page and the pager, else nothing. */
  function Area(currentPage: int, perPage: PokemonsView.PosInt,
                isLoading: bool, error: Option<Thrown>, data: Option<ListData>): (screen: PokemonsView.ListScreen)
    ensures screen.ErrorScreen? <==> error.Some?
    ensures screen.Skeleton? <==> error.None? && isLoading
    ensures screen.Skeleton? ==> screen.placeholders == perPage
    ensures screen.PageGrid? <==> error.None? && !isLoading && data.Some?
    ensures screen.PageGrid? ==>
      && screen.cards == data.value.pokemon && screen.currentPage == currentPage
      && screen.totalPages == PokemonsView.TotalPages(data, perPage)
    ensures screen.Blank? <==> error.None? && !isLoading && data.None?
  {
    if error.Some? then PokemonsView.ErrorScreen(MessageOr(error.value, PokemonsView.LIST_ERROR_FALLBACK))
    else if isLoading then PokemonsView.Skeleton(perPage)
    else if data.Some? then
      PokemonsView.PageGrid(data.value.pokemon, currentPage, PokemonsView.TotalPages(data, perPage))
    else PokemonsView.Blank
  }

  /** The page renders what the combined page renders in pagination mode,
      whatever the combined page has accumulated. */
  lemma AreaAgrees(allPokemon: seq<PokemonCard>, offset: int, currentPage: int,
                   perPage: PokemonsView.PosInt, perLoad: PokemonsView.PosInt,
                   isLoading: bool, error: Option<Thrown>, data: Option<ListData>)
    ensures Area(currentPage, perPage, isLoading, error, data) ==
            PokemonsView.ListArea(PokemonsView.PAGINATION, allPokemon, offset, currentPage, perPage, perLoad,
                                  isLoading, error, data)
  {
  }

  /** The page's request is the combined page's in pagination mode: one page
      at the current page's offset, whatever the load-more offset. */
  lemma RequestAgrees(offset: int, currentPage: int, perPage: PokemonsView.PosInt, perLoad: PokemonsView.PosInt)
    ensures PokemonsView.RequestFor(PokemonsView.PAGINATION, offset, currentPage, perPage, perLoad)
            == PokemonsView.Request(perPage, (currentPage - 1) * perPage)
  {
  }

  /** The page's `handlePageChange`: the page is taken as given, and the
      next request is for that page. */
  method GoToPage(v: PokemonsView.ViewState, page: int)
    requires v.viewMode == PokemonsView.PAGINATION
    modifies v`currentPage
    ensures v.currentPage == page
    ensures v.CurrentRequest() == PokemonsView.Request(v.perPage, (page - 1) * v.perPage)
  {
    v.ChangePage(page);
  }

  /** The page's `handleRetry` only refetches: its state is untouched. */
  method RetryKeepsPage(v: PokemonsView.ViewState)
    requires v.viewMode == PokemonsView.PAGINATION
    modifies v
    ensures v.currentPage == old(v.currentPage) && v.offset == old(v.offset)
    ensures v.allPokemon == old(v.allPokemon) && v.loadedIds == old(v.loadedIds)
    ensures v.viewMode == old(v.viewMode)
  {
    v.Retry();
  }
}
