/** The vocabulary the hooks use to talk to the query-cache library: structured
    keys, the options of a query, the cache's entries and its prefix lookup. The
    library's timers, de-duplication and retries are not modelled; keys are
    compared structurally, as the library's key hashing treats them. */
module Query {
  import opened Wrappers
  import opened Types
  import opened Numbers

  /** One element of a key tuple such as `['characters', 'list', filters]`. */
  datatype KeyPart =
    | Label(text: string)
    | FilterPart(filters: CharacterFilters)
    | NumberPart(n: Num)
    | IdsPart(ids: seq<Num>)

  type QueryKey = seq<KeyPart>

  /** Which resource accessor a query function calls, with its argument. */
  datatype Fetch =
    | FetchCharacters(filters: Option<CharacterFilters>)
    | FetchCharacter(id: Num)
    | FetchEpisodes(ids: seq<Num>)

  /** The options object given to `useQuery` or `prefetchQuery`; `None` marks an
      option that is not given (the library's default then applies). Times are in
      milliseconds. */
  datatype QueryOptions = QueryOptions(
    key: QueryKey,
    fetch: Fetch,
    staleTime: nat,
    gcTime: Option<nat>,
    retry: Option<nat>,
    refetchOnWindowFocus: Option<bool>,
    enabled: Option<bool>)

  const MinuteMs: nat := 60 * 1000

  /** What is cached under a key (absent while the query has not succeeded). */
  datatype CacheData =
    | ListData(response: CharactersResponse)
    | DetailData(character: Character)
    | EpisodesData(episodes: seq<Episode>)

  datatype CacheEntry = CacheEntry(key: QueryKey, data: Option<CacheData>)

  /** `getQueriesData({ queryKey: filter })`: the data of every cached query whose
      key starts with `filter`, in cache order. */
  function QueriesData(cache: seq<CacheEntry>, filter: QueryKey): (r: seq<Option<CacheData>>)
    ensures |r| <= |cache|
    ensures forall e :: e in cache && filter <= e.key ==> e.data in r
    ensures forall x :: x in r ==> exists e :: e in cache && filter <= e.key && e.data == x
  {
    if cache == [] then []
    else if filter <= cache[0].key then [cache[0].data] + QueriesData(cache[1..], filter)
    else QueriesData(cache[1..], filter)
  }
}
