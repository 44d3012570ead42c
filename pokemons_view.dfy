/** `src/pages/PokemonsView.tsx`: the routed list page, with its two modes
    (`'pagination'` and `'infinite'`, picked by the `view` query parameter),
    its state, its event handlers and effects, and its memoized expressions. */
module PokemonsView {
  import opened Wrappers
  import opened PokemonApi
  import opened PokemonListQuery
  import opened Reconciliation

  /** `ITEMS_PER_PAGE` and `ITEMS_PER_LOAD` are positive constants. */
  type PosInt = n: int | n > 0 witness 1

  const PAGINATION: string := "pagination"
  const INFINITE: string := "infinite"
  const LIST_ERROR_FALLBACK: string := "Failed to load Pokémon"

  /** `searchParams.get('view') || 'pagination'`: a missing or empty
      parameter means pagination; any other text is taken as it is. */
  function ViewModeOf(param: Option<string>): (mode: string)
    ensures param.None? || param.value == "" ==> mode == PAGINATION
    ensures param.Some? && param.value != "" ==> mode == param.value
  {
    if param.None? || param.value == "" then PAGINATION else param.value
  }

  /** The `useState` initialiser for `currentPage`: the saved page, else 1. */
  function InitialPage(saved: Option<int>): (page: int)
    ensures saved.None? ==> page == 1
    ensures saved.Some? ==> page == saved.value
  {
    saved.GetOr(1)
  }

  /** The arguments of `usePokemonList`. */
  datatype Request = Request(limit: int, offset: int)

  /** Offset of a page in page-window mode. */
  function PageOffset(page: int, perPage: PosInt): int {
    (page - 1) * perPage
  }

  /** `itemsPerRequest` and `requestOffset`: infinite mode asks for one load
      at the load-more offset; every other mode asks for one page at the
      current page's offset. */
  function RequestFor(viewMode: string, offset: int, currentPage: int, perPage: PosInt, perLoad: PosInt): (r: Request)
    ensures viewMode == INFINITE ==> r == Request(perLoad, offset)
    ensures viewMode != INFINITE ==> r == Request(perPage, (currentPage - 1) * perPage)
    ensures viewMode != INFINITE && currentPage >= 1 ==> r.offset >= 0
  {
    if viewMode == INFINITE then Request(perLoad, offset)
    else Request(perPage, PageOffset(currentPage, perPage))
  }

  /** Page 1 starts at offset 0 and consecutive pages are a page size apart. */
  lemma PageOffsets(page: int, perPage: PosInt)
    ensures PageOffset(1, perPage) == 0
    ensures PageOffset(page + 1, perPage) == PageOffset(page, perPage) + perPage
  {
  }

  /** `Math.ceil(n / d)` for a count and a positive page size. */
  function CeilDiv(n: nat, d: PosInt): (q: nat)
    ensures q * d >= n
    ensures q > 0 ==> (q - 1) * d < n
  {
    (n + d - 1) / d
  }

  /** `totalPages`: the ceiling of the count over the page size, 0 without
      data. The window holds just enough pages for every record: the last
      page starts before the count, and there are no pages without records. */
  function TotalPages(data: Option<ListData>, perPage: PosInt): (t: nat)
    ensures data.None? ==> t == 0
    ensures data.Some? ==>
      && t * perPage >= data.value.count
      && (t > 0 ==> PageOffset(t, perPage) < data.value.count)
      && (t == 0 <==> data.value.count == 0)
  {
    if data.Some? then CeilDiv(data.value.count, perPage) else 0
  }

  /** 1300 records in pages of 16 make 82 pages; without data there are none. */
  lemma TotalPagesExample()
    ensures TotalPages(Some(ListData([], 1300, None, None)), 16) == 82
    ensures TotalPages(None, 16) == 0
  {
  }

  /** Every record index below the count lies on exactly one page of the window
      `1..totalPages`: page `i / perPage + 1`. */
  lemma EveryRecordOnAPage(data: ListData, perPage: PosInt, i: nat)
    requires i < data.count
    ensures var p := i / perPage + 1;
      1 <= p <= TotalPages(Some(data), perPage)
      && PageOffset(p, perPage) <= i < PageOffset(p, perPage) + perPage
  {
    var q := i / perPage;
    var t := TotalPages(Some(data), perPage);
    assert q * perPage <= i;
    assert q * perPage < t * perPage;
    ProductOrder(q, t, perPage);
  }

  /** Dividing both sides of `a * d < b * d` by a positive `d`. */
  lemma ProductOrder(a: int, b: int, d: PosInt)
    requires a * d < b * d
    ensures a < b
  {
  }

  /** `hasMore`: true without data; with data, it fails exactly when the
      next load-more offset would start at or past the record count. */
  function HasMore(data: Option<ListData>, offset: int, perLoad: PosInt): (more: bool)
    ensures data.None? ==> more
    ensures data.Some? ==> (more <==> offset + perLoad < data.value.count)
  {
    if data.Some? then offset + perLoad < data.value.count else true
  }

  /** The prefetch effect: in pagination mode with data, and only when a next
      page exists, the list query for page `currentPage + 1` is prefetched. */
  function PrefetchKey(viewMode: string, data: Option<ListData>, currentPage: int, perPage: PosInt)
    : (key: Option<seq<KeyPart>>)
    ensures key.Some? ==> currentPage + 1 <= TotalPages(data, perPage)
    ensures key.Some? ==> key.value == ListQueryKey(perPage, PageOffset(currentPage + 1, perPage))
  {
    if viewMode == PAGINATION && data.Some? && currentPage + 1 <= TotalPages(data, perPage)
    then Some(ListQueryKey(perPage, currentPage * perPage))
    else None
  }

  /** The prefetched key is exactly the key the page would request after
      moving to the next page, and it is issued only for an existing page. */
  lemma PrefetchIsNextPageRequest(viewMode: string, data: Option<ListData>, currentPage: int,
                                  offset: int, perPage: PosInt, perLoad: PosInt)
    ensures PrefetchKey(viewMode, data, currentPage, perPage).Some? <==>
      viewMode == PAGINATION && data.Some? && currentPage + 1 <= TotalPages(data, perPage)
    ensures PrefetchKey(viewMode, data, currentPage, perPage).Some? ==>
      var next := RequestFor(viewMode, offset, currentPage + 1, perPage, perLoad);
      PrefetchKey(viewMode, data, currentPage, perPage).value == ListQueryKey(next.limit, next.offset)
  {
  }

  /** `isInitialLoading`. */
  function IsInitialLoading(isLoading: bool, viewMode: string, allPokemon: seq<PokemonCard>): (initial: bool)
    ensures initial ==> isLoading
    ensures viewMode == PAGINATION ==> (initial <==> isLoading)
    ensures viewMode != PAGINATION ==> (initial <==> isLoading && allPokemon == [])
  {
    isLoading && (viewMode == PAGINATION || |allPokemon| == 0)
  }

  /** What the list area renders. */
  datatype ListScreen =
    | ErrorScreen(message: string)
    | Skeleton(placeholders: int)
    | Accumulated(cards: seq<PokemonCard>, hasMore: bool, loading: bool)
    | PageGrid(cards: seq<PokemonCard>, currentPage: int, totalPages: nat)
    | Blank

  /** The rendered list area: an error first; then, in infinite mode, the
      skeleton while initially loading or else the accumulated list with the
      load-more button; in any other mode the skeleton while loading, the
      page grid with the pager when there is data, or nothing. */
  function ListArea(viewMode: string, allPokemon: seq<PokemonCard>, offset: int, currentPage: int,
                    perPage: PosInt, perLoad: PosInt,
                    isLoading: bool, error: Option<Thrown>, data: Option<ListData>): (screen: ListScreen)
    ensures screen.ErrorScreen? <==> error.Some?
    ensures screen.Skeleton? ==>
      isLoading && screen.placeholders == (if viewMode == INFINITE then perLoad else perPage)
    ensures screen.Accumulated? ==> viewMode == INFINITE && screen.cards == allPokemon
    ensures screen.PageGrid? ==>
      && viewMode != INFINITE && data.Some? && screen.cards == data.value.pokemon
      && screen.totalPages == TotalPages(data, perPage)
    ensures screen.Blank? ==> viewMode != INFINITE && !isLoading && data.None?
  {
    var skeleton := Skeleton(RequestFor(viewMode, offset, currentPage, perPage, perLoad).limit);
    if error.Some? then ErrorScreen(MessageOr(error.value, LIST_ERROR_FALLBACK))
    else if viewMode == INFINITE then
      if IsInitialLoading(isLoading, viewMode, allPokemon) then skeleton
      else Accumulated(allPokemon, HasMore(data, offset, perLoad), isLoading)
    else if isLoading then skeleton
    else if data.Some? then PageGrid(data.value.pokemon, currentPage, TotalPages(data, perPage))
    else Blank
  }

  /** An error hides everything else; its text is the error's message, or
      the fallback for a thrown value that is not an `Error`. */
  lemma ErrorWins(viewMode: string, allPokemon: seq<PokemonCard>, offset: int, currentPage: int,
                  perPage: PosInt, perLoad: PosInt,
                  isLoading: bool, error: Thrown, data: Option<ListData>)
    ensures var screen := ListArea(viewMode, allPokemon, offset, currentPage, perPage, perLoad,
                                   isLoading, Some(error), data);
      && screen.ErrorScreen?
      && (error.ApiErrorValue? ==> screen.message == error.err.message)
      && (error.TypeErrorValue? || error.ErrorValue? ==> screen.message == error.message)
      && (error.NonErrorValue? ==> screen.message == LIST_ERROR_FALLBACK)
  {
  }

  /** In infinite mode without an error: the skeleton, sized to one load,
      shows exactly while the first load is pending with nothing accumulated;
      otherwise the accumulated cards stay on screen, also during a later
      load, with the button's spinner on while loading. */
  lemma InfiniteArea(allPokemon: seq<PokemonCard>, offset: int, currentPage: int,
                     perPage: PosInt, perLoad: PosInt, isLoading: bool, data: Option<ListData>)
    ensures var screen := ListArea(INFINITE, allPokemon, offset, currentPage, perPage, perLoad,
                                   isLoading, None, data);
      && (screen.Skeleton? <==> isLoading && |allPokemon| == 0)
      && (screen.Skeleton? ==> screen.placeholders == perLoad)
      && (!screen.Skeleton? ==> screen == Accumulated(allPokemon, HasMore(data, offset, perLoad), isLoading))
  {
  }

  /** In pagination mode (and any mode other than infinite) without an error:
      the skeleton, sized to one page, shows exactly while loading; else the
      fetched page and the pager show when there is data, and nothing when
      there is none; the accumulated list is never shown. */
  lemma PageArea(viewMode: string, allPokemon: seq<PokemonCard>, offset: int, currentPage: int,
                 perPage: PosInt, perLoad: PosInt, isLoading: bool, data: Option<ListData>)
    requires viewMode != INFINITE
    ensures var screen := ListArea(viewMode, allPokemon, offset, currentPage, perPage, perLoad,
                                   isLoading, None, data);
      && (screen.Skeleton? <==> isLoading)
      && (screen.Skeleton? ==> screen.placeholders == perPage)
      && (!isLoading && data.Some? ==>
            screen == PageGrid(data.value.pokemon, currentPage, TotalPages(data, perPage)))
      && (!isLoading && data.None? ==> screen == Blank)
      && !screen.Accumulated?
  {
  }

  /** The loop that builds the new id set: `base` plus the id of every card. */
  method AddIds(base: set<nat>, cards: seq<PokemonCard>) returns (ids: set<nat>)
    ensures ids == base + Ids(cards)
  {
    ids := base;
    var i := 0;
    while i < |cards|
      invariant 0 <= i <= |cards|
      invariant ids == base + Ids(cards[..i])
    {
      assert cards[..i + 1] == cards[..i] + [cards[i]];
      IdsAppend(cards[..i], [cards[i]]);
      ids := ids + {cards[i].id};
      i := i + 1;
    }
    assert cards[..i] == cards;
  }

  /** The state of `PokemonsView`: the view mode from the URL, the accumulated
      list and its id set, the load-more offset and the current page. */
  class ViewState {
    const perPage: PosInt
    const perLoad: PosInt
    var viewMode: string
    var allPokemon: seq<PokemonCard>
    var loadedIds: set<nat>
    var offset: int
    var currentPage: int

    /** The ids of `allPokemon` are `loadedIds`. */
    predicate Consistent()
      reads this
    {
      Ids(allPokemon) == loadedIds
    }

    /** ... and `allPokemon` has no duplicate id. */
    predicate Valid()
      reads this
    {
      Consistent() && NoDuplicateIds(allPokemon)
    }

    /** Mounting the page: empty list, offset 0, saved page or 1. */
    constructor (savedPage: Option<int>, viewParam: Option<string>, itemsPerPage: PosInt, itemsPerLoad: PosInt)
      ensures Valid()
      ensures perPage == itemsPerPage && perLoad == itemsPerLoad
      ensures viewMode == ViewModeOf(viewParam) && currentPage == InitialPage(savedPage)
      ensures allPokemon == [] && loadedIds == {} && offset == 0
    {
      perPage, perLoad := itemsPerPage, itemsPerLoad;
      viewMode := ViewModeOf(viewParam);
      allPokemon, loadedIds, offset := [], {}, 0;
      currentPage := InitialPage(savedPage);
    }

    /** The request the page issues now. */
    function CurrentRequest(): Request
      reads this
    {
      RequestFor(viewMode, offset, currentPage, perPage, perLoad)
    }

    /** The merge effect, run when list data arrives. In infinite mode the
        page's records whose id is not loaded are appended in page order and
        their ids recorded; otherwise nothing changes. */
    method ReceiveData(data: Option<ListData>)
      modifies this
      ensures viewMode == old(viewMode) && offset == old(offset) && currentPage == old(currentPage)
      ensures old(viewMode) == INFINITE && data.Some? ==>
        && allPokemon == old(allPokemon) + Unseen(data.value.pokemon, old(loadedIds))
        && loadedIds == old(loadedIds) + Ids(Unseen(data.value.pokemon, old(loadedIds)))
      ensures !(old(viewMode) == INFINITE && data.Some?) ==>
        allPokemon == old(allPokemon) && loadedIds == old(loadedIds)
      ensures old(Consistent()) ==> Consistent()
      ensures old(Valid()) && (data.Some? ==> NoDuplicateIds(data.value.pokemon)) ==> Valid()
    {
      if viewMode == INFINITE && data.Some? {
        var page := data.value.pokemon;
        var newPokemon := Unseen(page, loadedIds);
        if |newPokemon| > 0 {
          var newSet := AddIds(loadedIds, newPokemon);
          IdsAppend(allPokemon, newPokemon);
          if Valid() && NoDuplicateIds(page) {
            MergeKeepsInvariant(allPokemon, loadedIds, page);
          }
          allPokemon, loadedIds := allPokemon + newPokemon, newSet;
        } else {
          assert allPokemon + newPokemon == allPokemon;
          assert Ids(newPokemon) == {};
        }
      }
    }

    /** A change of the `view` query parameter and the mode-reset effect:
        entering pagination clears the accumulated list, its ids and the offset
        but keeps the current page; entering another mode keeps everything. */
    method SetViewParam(param: Option<string>)
      modifies this
      ensures viewMode == ViewModeOf(param) && currentPage == old(currentPage)
      ensures viewMode != old(viewMode) && viewMode == PAGINATION ==>
        allPokemon == [] && loadedIds == {} && offset == 0
      ensures !(viewMode != old(viewMode) && viewMode == PAGINATION) ==>
        allPokemon == old(allPokemon) && loadedIds == old(loadedIds) && offset == old(offset)
      ensures old(Valid()) ==> Valid()
    {
      var mode := ViewModeOf(param);
      if mode != viewMode {
        viewMode := mode;
        if mode == PAGINATION {
          allPokemon := [];
          offset := 0;
          loadedIds := {};
        }
      }
    }

    /** The "Infinite Scroll" button: `setSearchParams({ view: 'infinite' })`. */
    method SwitchToInfinite()
      modifies this
      ensures viewMode == INFINITE
      ensures allPokemon == old(allPokemon) && loadedIds == old(loadedIds)
      ensures offset == old(offset) && currentPage == old(currentPage)
    {
      SetViewParam(Some(INFINITE));
    }

    /** The "Page Controls" button: `setSearchParams({})`. */
    method SwitchToPagination()
      modifies this
      ensures viewMode == PAGINATION && currentPage == old(currentPage)
      ensures old(viewMode) != PAGINATION ==> allPokemon == [] && loadedIds == {} && offset == 0
      ensures old(viewMode) == PAGINATION ==>
        allPokemon == old(allPokemon) && loadedIds == old(loadedIds) && offset == old(offset)
      ensures old(Valid()) ==> Valid()
    {
      SetViewParam(None);
    }

    /** `handleLoadMore`: the offset moves on by one load, the list is untouched. */
    method LoadMore()
      modifies this`offset
      ensures offset == old(offset) + perLoad
    {
      offset := offset + perLoad;
    }

    /** `handlePageChange`: the page is taken as given, without clamping. */
    method ChangePage(page: int)
      modifies this`currentPage
      ensures currentPage == page
    {
      currentPage := page;
    }

    /** `handleRetry` (besides `refetch()`): in infinite mode the accumulation
        starts over; in any other mode the state is left as it is. */
    method Retry()
      modifies this
      ensures viewMode == old(viewMode) && currentPage == old(currentPage)
      ensures viewMode == INFINITE ==> offset == 0 && allPokemon == [] && loadedIds == {}
      ensures viewMode != INFINITE ==>
        offset == old(offset) && allPokemon == old(allPokemon) && loadedIds == old(loadedIds)
      ensures old(Valid()) ==> Valid()
    {
      if viewMode == INFINITE {
        offset := 0;
        allPokemon := [];
        loadedIds := {};
      }
    }

    /** The rendered list area in the current state. */
    function Screen(isLoading: bool, error: Option<Thrown>, data: Option<ListData>): ListScreen
      reads this
    {
      ListArea(viewMode, allPokemon, offset, currentPage, perPage, perLoad, isLoading, error, data)
    }
  }

  /** Leaving infinite mode for pagination and coming back finds an empty list. */
  method SwitchAwayAndBack(v: ViewState)
    requires v.viewMode == INFINITE
    modifies v
    ensures v.viewMode == INFINITE && v.allPokemon == [] && v.loadedIds == {} && v.offset == 0
    ensures v.currentPage == old(v.currentPage)
  {
    v.SwitchToPagination();
    v.SwitchToInfinite();
  }

  /** Delivering the same page twice in infinite mode changes nothing the
      second time. */
  method ReceiveTwice(v: ViewState, data: ListData)
    requires v.viewMode == INFINITE
    modifies v
    ensures v.allPokemon == old(v.allPokemon) + Unseen(data.pokemon, old(v.loadedIds))
    ensures v.loadedIds == old(v.loadedIds) + Ids(Unseen(data.pokemon, old(v.loadedIds)))
  {
    v.ReceiveData(Some(data));
    ghost var items, ids := v.allPokemon, v.loadedIds;
    MergeSettles(data.pokemon, old(v.loadedIds));
    v.ReceiveData(Some(data));
    assert v.allPokemon == items + [];
  }
}
