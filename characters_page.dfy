/** The list page's logic: its page counter, the search handler and the
    Previous/Next updaters, the filters it queries with, and which of its sections
    and buttons show. */
module CharactersPage {
  import opened Wrappers
  import opened Types
  import UiStore
  import Query
  import UseCharacters

  const DefaultListError := "Failed to load characters. Please try again."

  /** `{ name: searchTerm || undefined, page }`. */
  function PageFilters(searchTerm: string, page: int): (f: CharacterFilters)
    ensures f.page == Some(page)
    ensures f.name.None? <==> searchTerm == ""
    ensures f.name.Some? ==> f.name.value == searchTerm
    ensures f.status.None? && f.species.None? && f.characterType.None? && f.gender.None?
  {
    CharacterFilters(if searchTerm == "" then None else Some(searchTerm), None, None, None, None, Some(page))
  }

  /** The list query the page issues for a term and a page. */
  function PageQuery(searchTerm: string, page: int): Query.QueryOptions
  {
    UseCharacters.UseCharacters(Some(PageFilters(searchTerm, page)))
  }

  /** Each (term, page) pair has its own cache entry: two pairs share a key exactly
      when they are equal, so paging or searching always addresses a new entry. */
  lemma PageKeysDistinct(t1: string, p1: int, t2: string, p2: int)
    ensures PageQuery(t1, p1).key == PageQuery(t2, p2).key <==> t1 == t2 && p1 == p2
  {
    UseCharacters.ListKeyInjective(PageFilters(t1, p1), PageFilters(t2, p2));
    if PageFilters(t1, p1) == PageFilters(t2, p2) {
      assert PageFilters(t1, p1).page == PageFilters(t2, p2).page;
      assert PageFilters(t1, p1).name == PageFilters(t2, p2).name;
    }
  }

  /** `setPage((p) => Math.max(1, p - 1))`. */
  function PreviousPage(p: int): (r: int)
    ensures r >= 1
    ensures p > 1 ==> r == p - 1
    ensures p <= 1 ==> r == 1
  {
    if 1 > p - 1 then 1 else p - 1
  }

  /** `setPage((p) => p + 1)`. */
  function NextPage(p: int): (r: int)
    ensures r == p + 1
  {
    p + 1
  }

  /** What a user can do on the page. */
  datatype PageAction = SearchChange(value: string) | Previous | Next

  /** The page counter after one action. */
  function PageAfter(p: int, a: PageAction): int
  {
    match a
    case SearchChange(_) => 1
    case Previous => PreviousPage(p)
    case Next => NextPage(p)
  }

  /** The page counter after a run of actions, first to last. */
  function PageAfterRun(p: int, actions: seq<PageAction>): int
    decreases |actions|
  {
    if actions == [] then p else PageAfterRun(PageAfter(p, actions[0]), actions[1..])
  }

  /** Starting from 1, the page counter stays at 1 or above under every run. */
  lemma {:induction false} PageStaysPositive(p: int, actions: seq<PageAction>)
    requires p >= 1
    ensures PageAfterRun(p, actions) >= 1
    decreases |actions|
  {
    if actions != [] {
      PageStaysPositive(PageAfter(p, actions[0]), actions[1..]);
    }
  }

  /** Previous undoes Next. */
  lemma PreviousUndoesNext(p: int)
    requires p >= 1
    ensures PreviousPage(NextPage(p)) == p
  {
  }

  /** `!data.info.prev`: absent or the empty string (both falsy). */
  predicate PrevDisabled(info: Info)
  {
    info.prev.None? || info.prev.value == ""
  }

  /** `!data.info.next`. */
  predicate NextDisabled(info: Info)
  {
    info.next.None? || info.next.value == ""
  }

  /** Which parts of the page are on screen. The blocks are independent
      conditions, so loading, error and data parts can show together. */
  datatype Sections = Sections(
    spinner: bool,
    errorMessage: Option<string>,
    grid: bool,
    pagination: bool,
    prevEnabled: bool,
    nextEnabled: bool,
    noResults: bool)

  /** The page body for a query state. */
  function PageSections(isLoading: bool, isError: bool, errorMessage: Option<string>,
                        data: Option<CharactersResponse>): (s: Sections)
    ensures s.spinner == isLoading
    ensures s.errorMessage.Some? <==> isError
    ensures s.errorMessage.Some? && errorMessage.Some? && errorMessage.value != "" ==>
              s.errorMessage.value == errorMessage.value
    ensures s.errorMessage.Some? && (errorMessage.None? || errorMessage.value == "") ==>
              s.errorMessage.value == DefaultListError
    ensures data.None? ==> !s.grid && !s.noResults
    ensures data.Some? ==> (s.grid <==> !s.noResults)
    ensures s.grid <==> data.Some? && |data.value.results| > 0
    ensures s.pagination <==> s.grid && data.value.info.pages > 1
    ensures s.pagination ==> (s.prevEnabled <==> !PrevDisabled(data.value.info))
    ensures s.pagination ==> (s.nextEnabled <==> !NextDisabled(data.value.info))
    ensures !s.pagination ==> !s.prevEnabled && !s.nextEnabled
  {
    var message := if errorMessage.Some? && errorMessage.value != "" then errorMessage.value
                   else DefaultListError;
    var grid := data.Some? && |data.value.results| > 0;
    var pagination := grid && data.value.info.pages > 1;
    Sections(
      isLoading,
      if isError then Some(message) else None,
      grid,
      pagination,
      pagination && !PrevDisabled(data.value.info),
      pagination && !NextDisabled(data.value.info),
      data.Some? && |data.value.results| == 0)
  }

  /** The page component's state: its page cell and the store it reads the
      search term from. */
  class Page {
    var page: int
    const store: UiStore.Store

    /** `useState(1)`. */
    constructor(store: UiStore.Store)
      ensures this.store == store && page == 1
    {
      this.store := store;
      page := 1;
    }

    /** The filters of the current render. */
    function Filters(): CharacterFilters
      reads this, store
    {
      PageFilters(store.searchTerm, page)
    }

    /** `handleSearchChange(value)`: set the store's term and go back to page 1. */
    method HandleSearchChange(value: string)
      modifies this, store
      ensures page == 1 && store.searchTerm == value
      ensures store.World() == UiStore.Step(old(store.World()), UiStore.SetSearchTerm(value))
      ensures Filters() == PageFilters(value, 1)
      ensures page >= 1
    {
      store.SetSearchTerm(value);
      page := 1;
    }

    /** The Previous button's updater. */
    method Previous()
      modifies this
      ensures page == PreviousPage(old(page))
      ensures page >= 1
    {
      page := if 1 > page - 1 then 1 else page - 1;
    }

    /** The Next button's updater. */
    method Next()
      modifies this
      ensures page == NextPage(old(page))
      ensures Filters() != old(Filters())
      ensures old(page) >= 1 ==> page >= 1
    {
      page := page + 1;
    }
  }
}
