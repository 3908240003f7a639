/** The character-list hooks: the key factory for characters, the list query and
    the hover prefetch with their cache policy, and the lookup of a character in
    the cached list pages. */
module UseCharacters {
  import opened Wrappers
  import opened Types
  import opened Numbers
  import opened Query

  /** `characterKeys.all`. */
  function All(): QueryKey { [Label("characters")] }

  /** `characterKeys.lists()`. */
  function Lists(): QueryKey { All() + [Label("list")] }

  /** `characterKeys.list(filters)`. */
  function List(filters: CharacterFilters): QueryKey { Lists() + [FilterPart(filters)] }

  /** `characterKeys.details()`. */
  function Details(): QueryKey { All() + [Label("detail")] }

  /** `characterKeys.detail(id)`. */
  function Detail(id: Num): QueryKey { Details() + [NumberPart(id)] }

  const ListStaleTime: nat := 5 * MinuteMs
  const ListGcTime: nat := 10 * MinuteMs
  const ListRetry: nat := 2
  const PrefetchStaleTime: nat := 5 * MinuteMs

  /** `useCharacters(filters)`: keyed by the filters, `{}` standing in when they are
      absent, while the query function receives the filters as given. */
  function UseCharacters(filters: Option<CharacterFilters>): QueryOptions
  {
    QueryOptions(
      List(filters.GetOr(NoFilters)), FetchCharacters(filters),
      ListStaleTime, Some(ListGcTime), Some(ListRetry), Some(false), None)
  }

  /** The function `usePrefetchCharacter()` returns, applied to `id`: a prefetch of the
      detail key with a five-minute freshness window and no other options. */
  function PrefetchCharacter(id: int): QueryOptions
  {
    QueryOptions(Detail(Finite(id)), FetchCharacter(Finite(id)), PrefetchStaleTime, None, None, None, None)
  }

  /** The factory's layout: list and detail keys are three-part keys that extend
      `all`, a list key never equals a detail key, and each factory keeps its
      argument apart. */
  lemma KeyShapes(f: CharacterFilters, id: Num)
    ensures All() <= Lists() <= List(f) && All() <= Details() <= Detail(id)
    ensures List(f) == [Label("characters"), Label("list"), FilterPart(f)]
    ensures Detail(id) == [Label("characters"), Label("detail"), NumberPart(id)]
    ensures List(f) != Detail(id)
    ensures !(Lists() <= Detail(id))
  {
    assert Lists()[1] != Detail(id)[1];
  }

  lemma ListKeyInjective(f: CharacterFilters, g: CharacterFilters)
    ensures List(f) == List(g) <==> f == g
  {
    if List(f) == List(g) {
      assert List(f)[2] == List(g)[2];
    }
  }

  lemma DetailKeyInjective(a: Num, b: Num)
    ensures Detail(a) == Detail(b) <==> a == b
  {
    if Detail(a) == Detail(b) {
      assert Detail(a)[2] == Detail(b)[2];
    }
  }

  /** Absent filters and `{}` address the same cache entry; only the request
      parameters differ (absent in one, an empty object in the other). */
  lemma MissingFiltersShareKey()
    ensures UseCharacters(None).key == UseCharacters(Some(NoFilters)).key
    ensures UseCharacters(None).fetch == FetchCharacters(None)
    ensures UseCharacters(Some(NoFilters)).fetch == FetchCharacters(Some(NoFilters))
  {
  }

  /** The list policy: five minutes fresh, kept ten minutes, two retries, no refetch
      on window focus, and always enabled; the query fetches the list with the
      filters as given. */
  lemma ListPolicy(filters: Option<CharacterFilters>)
    ensures var q := UseCharacters(filters);
      && q.key == List(if filters.Some? then filters.value else NoFilters)
      && q.fetch == FetchCharacters(filters)
      && q.staleTime == 5 * 60 * 1000 && q.gcTime == Some(10 * 60 * 1000)
      && q.retry == Some(2) && q.refetchOnWindowFocus == Some(false) && q.enabled == None
  {
  }

  /** The prefetch warms the detail entry of `id`, five minutes fresh. */
  lemma PrefetchPolicy(id: int)
    ensures var q := PrefetchCharacter(id);
      && q.key == Detail(Finite(id)) && q.fetch == FetchCharacter(Finite(id))
      && q.staleTime == 5 * 60 * 1000 && q.gcTime == None && q.retry == None
      && q.refetchOnWindowFocus == None && q.enabled == None
  {
  }

  /** `data?.results`: the results of a cached list response, absent for an entry
      that holds no data or data without a `results` field. */
  function Results(data: Option<CacheData>): Option<seq<Character>>
  {
    if data.Some? && data.value.ListData? then Some(data.value.response.results) else None
  }

  /** `results.find((c) => c.id === id)`. */
  function Find(results: seq<Character>, id: int): (r: Option<Character>)
    ensures r.None? <==> forall k :: 0 <= k < |results| ==> results[k].id != id
    ensures r.Some? ==> r.value.id == id && r.value in results
  {
    if results == [] then None
    else if results[0].id == id then Some(results[0])
    else Find(results[1..], id)
  }

  /** Every cached character, list by list in cache order, each list in order;
      entries without results contribute nothing. */
  function CachedCharacters(lists: seq<Option<CacheData>>): seq<Character>
  {
    if lists == [] then []
    else (if Results(lists[0]).Some? then Results(lists[0]).value else []) + CachedCharacters(lists[1..])
  }

  /** What the scan returns: the first list with results that holds the id
      decides, and inside it the first character with that id. */
  function FirstInLists(lists: seq<Option<CacheData>>, id: int): Option<Character>
  {
    if lists == [] then None
    else if Results(lists[0]).Some? && Find(Results(lists[0]).value, id).Some? then
      Find(Results(lists[0]).value, id)
    else FirstInLists(lists[1..], id)
  }

  /** `useCharacterFromCache(id)`: scan the cached list pages, skipping entries
      without results, and return the first character whose id is `id`. */
  method CharacterFromCache(cache: seq<CacheEntry>, id: int) returns (r: Option<Character>)
    ensures r == FirstInLists(QueriesData(cache, Lists()), id)
  {
    var lists := QueriesData(cache, Lists());
    var i := 0;
    while i < |lists|
      invariant 0 <= i <= |lists|
      invariant FirstInLists(lists, id) == FirstInLists(lists[i..], id)
    {
      var data := lists[i];
      assert lists[i..][0] == data && lists[i..][1..] == lists[i + 1..];
      if data.Some? && data.value.ListData? {
        var results := data.value.response.results;
        var j := 0;
        while j < |results|
          invariant 0 <= j <= |results|
          invariant forall k :: 0 <= k < j ==> results[k].id != id
        {
          if results[j].id == id {
            FindFirst(results, id, j);
            return Some(results[j]);
          }
          j := j + 1;
        }
      }
      i := i + 1;
    }
    return None;
  }

  /** `find` returns the earliest match. */
  lemma {:induction false} FindFirst(results: seq<Character>, id: int, j: nat)
    requires j < |results| && results[j].id == id
    requires forall k :: 0 <= k < j ==> results[k].id != id
    ensures Find(results, id) == Some(results[j])
  {
    if j > 0 {
      FindFirst(results[1..], id, j - 1);
    }
  }

  lemma {:induction false} FindAppend(a: seq<Character>, b: seq<Character>, id: int)
    ensures Find(a + b, id) == if Find(a, id).Some? then Find(a, id) else Find(b, id)
  {
    if a != [] {
      assert (a + b)[1..] == a[1..] + b;
      FindAppend(a[1..], b, id);
    } else {
      assert a + b == b;
    }
  }

  /** The scan finds the first character with the id in the order of all cached
      characters. */
  lemma {:induction false} FirstInListsIsFirstCached(lists: seq<Option<CacheData>>, id: int)
    ensures FirstInLists(lists, id) == Find(CachedCharacters(lists), id)
  {
    if lists != [] {
      FirstInListsIsFirstCached(lists[1..], id);
      var head := if Results(lists[0]).Some? then Results(lists[0]).value else [];
      FindAppend(head, CachedCharacters(lists[1..]), id);
    }
  }

  /** What the lookup promises: a returned character has the id asked for, is the
      earliest with that id among the cached characters, and nothing is returned
      exactly when no cached list with results holds the id. */
  lemma CharacterFromCacheMeaning(cache: seq<CacheEntry>, id: int)
    ensures var cached := CachedCharacters(QueriesData(cache, Lists()));
      var r := FirstInLists(QueriesData(cache, Lists()), id);
      && (r.None? <==> forall k :: 0 <= k < |cached| ==> cached[k].id != id)
      && (r.Some? ==> r.value.id == id)
      && (r.Some? ==> exists j :: && 0 <= j < |cached| && cached[j] == r.value
                                  && forall k :: 0 <= k < j ==> cached[k].id != id)
  {
    var lists := QueriesData(cache, Lists());
    var cached := CachedCharacters(lists);
    FirstInListsIsFirstCached(lists, id);
    var r := Find(cached, id);
    if r.Some? {
      var j := FirstIndex(cached, id);
      FindFirst(cached, id, j);
    }
  }

  /** The position of the first character with the id (proof device). */
  ghost function FirstIndex(s: seq<Character>, id: int): (j: nat)
    requires exists k :: 0 <= k < |s| && s[k].id == id
    ensures j < |s| && s[j].id == id && forall k :: 0 <= k < j ==> s[k].id != id
  {
    if s[0].id == id then 0
    else
      assert exists k :: 0 <= k < |s[1..]| && s[1..][k].id == id by {
        var k :| 0 <= k < |s| && s[k].id == id;
        assert s[1..][k - 1] == s[k];
      }
      1 + FirstIndex(s[1..], id)
  }
}
