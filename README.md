# Rick and Morty character viewer — a Dafny model of its logic

The viewer is a React application over the public Rick and Morty API. It has a
paginated, searchable character list and a detail page per character that shows
the character's episodes grouped by season. This project models the pieces of
the application that make decisions and proves their properties:

- the API accessors: which request each issues, and how episode ids are pulled out
  of episode URLs (`CharactersApi`);
- the query keys, their cache policies, when each query is enabled, and the lookup
  of a character in the cached list pages (`Query`, `UseCharacters`,
  `UseCharacter`);
- the grouping of episodes by season and the two sorts that order the groups and the
  episodes inside them (`EpisodeList`, on the generic insertion sort of `Sorting`);
- the UI store: the search term, the dark-mode flag, the document's `dark` class and
  the persisted `ui-storage` snapshot (`UiStore`);
- the list page's page counter and the sections it shows (`CharactersPage`), and the
  detail page's choice of view (`CharacterDetailsPage`);
- the relative-time rendering of a day count (`FormatDate`).

Support modules:

- `Numbers` models JavaScript numbers as they arise from `parseInt`:
  - `Num` is `Finite(int)` or `NaN`;
  - `ParseInt` reads an optional sign and the leading decimal digits, and gives `NaN`
    when there are none;
  - `NumToString` is `String(x)`.
- `Strings` has `split`/`join` on one separator character.
- `Types` holds the API's record types: `Character`, `Episode`, `Info`,
  `CharactersResponse` and `CharacterFilters`.

How the model is built:

- **I/O is a parameter.** The HTTP client and the server are not modelled. A request
  is a `Request` value. The server's reply is a function of the request path that
  the caller passes in.
- **The cache is data.** The query-cache library becomes the options each hook hands
  to it (`QueryOptions`). The cache is a sequence of (key, data) entries, and keys are
  compared structurally.
- **The store is a class.** `UiStore.Store` has one method per mutation. Each method
  is specified by the pure transition `UiStore.Step` and keeps the snapshot
  consistent with the flag.
- **The page is a class.** `CharactersPage.Page` holds the page counter and a
  reference to the store.
- **Episode grouping is a loop over a map of sequences.** `EpisodeList.GroupBySeason`
  is proved equal to the recursive definitions `Grouped` and `SeasonOrder`.
- **The sorts work in place on arrays.** `Sorting.InsertionSort` is proved equal to
  the stable insertion sort `Sorting.SortBy`. Sortedness, stability and permutation
  are proved about `SortBy`.

Behaviour worth noting:

- **Non-numeric episode URLs.** The code yields `NaN` for that URL and goes on, and
  so does `CharactersApi.ExtractEpisodeIds`.
- **Initial dark mode.** `isDarkMode` starts from the colour-scheme preference only
  when no snapshot is stored. The persistence middleware merges a stored snapshot
  over the initial state, so a stored value wins (`UiStore.Initial`).
- **Disabled pagination buttons.** The buttons are disabled for any falsy `prev` or
  `next`, that is, for an absent link and for the empty string.

## Model

| member | source | states |
|---|---|---|
| Numbers.NatToDecimal | src/api/characters.ts:54 | `String(n)` of a non-negative number is a non-empty digit run with no leading zero unless n is 0 |
| Numbers.IntToDecimal | src/api/characters.ts:49 | `String(i)` of an integer: a minus sign before the digits of a negative number, the digits alone otherwise |
| Numbers.NumToString | src/api/characters.ts:49 | `${x}` of a number: its decimal form, or `NaN` |
| Numbers.ParseInt | src/api/characters.ts:67 | `parseInt(s, 10)`: an optional sign, then the value of the leading digit run; NaN when there is no such run |
| Numbers.ParseDigits | src/api/characters.ts:67 | the unsigned part of `parseInt`: the value of the leading digit run, NaN when there is none |
| Numbers.Negate | src/api/characters.ts:67 | the minus sign applied to the unsigned reading; NaN stays NaN |
| Numbers.LeadingDigits | src/api/characters.ts:67 | the part `parseInt` reads is a prefix of the input made of digits, ending at the first non-digit |
| Numbers.DigitsValueOfDecimal | src/api/characters.ts:54 | reading the decimal form of n back as digits gives n |
| Numbers.LeadingDigitsOfDigitsThen | src/api/characters.ts:67 | digits followed by nothing or by a non-digit: the digits are exactly what `parseInt` reads |
| Numbers.ParseIntOfDigitsThen | src/api/characters.ts:67 | `parseInt` of a digit run followed by a non-digit is the run's value |
| Numbers.ParseDigitsOfDigitsThen | src/api/characters.ts:67 | the unsigned reading of a digit run followed by a non-digit is the run's value |
| Numbers.ParseDigitsOfDecimalThen | src/api/characters.ts:67 | the unsigned reading of the decimal form of n, followed by a non-digit, is n |
| Numbers.ParseIntOfMinus | src/api/characters.ts:67 | a leading minus sign negates the unsigned reading of the rest |
| Numbers.ParseIntOfUnsigned | src/api/characters.ts:67 | a string that starts with a digit is read without a sign |
| Numbers.ParseIntOfDecimalThen | src/pages/CharacterDetailsPage/index.tsx:15 | `parseInt` of the decimal form of any integer, followed by a non-digit tail, is that integer |
| Numbers.ParseIntOfDecimal | src/pages/CharacterDetailsPage/index.tsx:15 | `parseInt(String(i))` is i for every integer |
| Numbers.ParseIntOfNumToString | src/api/characters.ts:49 | `parseInt(String(x))` is x, NaN included |
| Numbers.ParseIntNoDigits | src/api/characters.ts:67 | a string that starts with neither a digit nor a sign parses as NaN |
| Numbers.NumToStringHasNo | src/api/characters.ts:54 | a rendered number contains none of the separators `,` `/` and space |
| Strings.Split | src/api/characters.ts:66 | `split` gives at least one piece; the pieces rejoin to the input, and none holds the separator |
| Strings.Join | src/api/characters.ts:54 | `parts.join(sep)`: the pieces with one separator between neighbours |
| Strings.LastPiece | src/api/characters.ts:66-67 | `s.split(sep)` followed by taking the last piece |
| Strings.JoinInjective | src/api/characters.ts:54 | joining pieces that do not hold the separator is injective |
| Strings.SplitJoin | src/api/characters.ts:54 | splitting a join of separator-free pieces gives back the pieces |
| Strings.LastPieceAfterSeparator | src/api/characters.ts:66-67 | the last piece of `prefix + '/' + tail` is tail when tail holds no `/` |
| Strings.LastPieceWithoutSeparator | src/api/characters.ts:66-67 | a string without `/` is its own last piece |
| CharactersApi.GetCharacters | src/api/characters.ts:18-23 | the list request goes to `/character` with the filters passed on unchanged |
| CharactersApi.GetCharacterById | src/api/characters.ts:30-33 | the single-character request carries no parameters |
| CharactersApi.RenderIds | src/api/characters.ts:54 | each id rendered as `String(id)`, one string per id |
| CharactersApi.EpisodePath | src/api/characters.ts:48-55 | `/episode/` followed by the rendered ids joined with `,`, which for one id is that id alone |
| CharactersApi.CharacterPathCarriesId | src/api/characters.ts:31 | the path is `/character/` followed by `String(id)`, and its last segment parses back to id |
| CharactersApi.GetMultipleEpisodes | src/api/characters.ts:41-57 | at most one request; none exactly when there are no ids, and then the result is the empty list; any request is a GET of `/episode/` plus the ids joined by `,` |
| CharactersApi.SingleEpisodeRequest | src/api/characters.ts:48-51 | one id: exactly one request, to `/episode/<id>`, whose episode becomes a one-element list; a rejection passes through with the same message |
| CharactersApi.BatchPathCarriesIds | src/api/characters.ts:53-56 | two or more ids: one request whose reply is the result; its path is `/episode/` followed by a suffix that splits on `,` into one piece per id, each parsing back to that id, in order |
| CharactersApi.ExtractEpisodeIds | src/api/characters.ts:64-69 | one id per URL |
| CharactersApi.ExtractIdsOfBuiltUrls | src/api/characters.ts:65-68 | URLs built as `<prefix>/<decimal id>` give back exactly their ids, in order |
| CharactersApi.TrailingSlashGivesNaN | src/api/characters.ts:67 | a URL ending in `/` gives NaN |
| CharactersApi.ExtractIdsExample | src/api/characters.ts:64-69 | URLs ending in `/1` and `/28` give the ids 1 and 28 |
| Query.QueriesData | src/hooks/useCharacters.ts:68-70 | the prefix lookup returns at most one item per cache entry; it includes the data of every entry whose key extends the filter, and every item it returns is the data of such an entry |
| UseCharacters.All | src/hooks/useCharacters.ts:16 | `characterKeys.all`: `['characters']` |
| UseCharacters.Lists | src/hooks/useCharacters.ts:17 | `characterKeys.lists()`: `all` extended by `'list'` |
| UseCharacters.Details | src/hooks/useCharacters.ts:19 | `characterKeys.details()`: `all` extended by `'detail'` |
| UseCharacters.List | src/hooks/useCharacters.ts:18 | `characterKeys.list(filters)`: `lists()` extended by the filters |
| UseCharacters.Detail | src/hooks/useCharacters.ts:20 | `characterKeys.detail(id)`: `details()` extended by the id |
| UseCharacters.UseCharacters | src/hooks/useCharacters.ts:31-42 | the options of the list query: the key from the filters or `{}`, the fetch with the filters as given, and the list policy constants |
| UseCharacters.PrefetchCharacter | src/hooks/useCharacters.ts:48-58 | the options of the hover prefetch for an id: the detail key, the single-character fetch and five minutes of freshness |
| UseCharacters.KeyShapes | src/hooks/useCharacters.ts:15-21 | list and detail keys are the three-part tuples extending `all`; no list key is a detail key and no detail key extends `lists()` |
| UseCharacters.ListKeyInjective | src/hooks/useCharacters.ts:18 | two list keys are equal exactly when their filters are |
| UseCharacters.DetailKeyInjective | src/hooks/useCharacters.ts:20 | two detail keys are equal exactly when their ids are |
| UseCharacters.MissingFiltersShareKey | src/hooks/useCharacters.ts:35-36 | absent filters and `{}` share a cache key, while the fetch still receives the filters as given |
| UseCharacters.ListPolicy | src/hooks/useCharacters.ts:34-41 | the list query: key from the filters, 5 minutes fresh, kept 10 minutes, 2 retries, no refetch on focus, always enabled |
| UseCharacters.PrefetchPolicy | src/hooks/useCharacters.ts:51-57 | the prefetch uses the detail key and the single-character fetch, 5 minutes fresh, and sets none of garbage-collection time, retry, window-focus refetch or enabled |
| UseCharacters.Find | src/hooks/useCharacters.ts:74 | `find` returns nothing exactly when no result has the id; a returned character has the id and is one of the results |
| UseCharacters.Results | src/hooks/useCharacters.ts:73 | `data?.results`: the results of a cached list response, absent for an entry without list data |
| UseCharacters.FindFirst | src/hooks/useCharacters.ts:74 | `find` returns the earliest character with the id |
| UseCharacters.FindAppend | src/hooks/useCharacters.ts:72-77 | searching two lists in turn is searching their concatenation |
| UseCharacters.FirstInLists | src/hooks/useCharacters.ts:64-80 | the scan's result: the first cached entry with results that holds the id decides, and inside it the first character with that id |
| UseCharacters.CharacterFromCache | src/hooks/useCharacters.ts:64-80 | the nested scan returns the first character with the id in the first cached list page with results that holds it |
| UseCharacters.FirstInListsIsFirstCached | src/hooks/useCharacters.ts:72-79 | the page-by-page scan equals one `find` over all cached characters, list by list |
| UseCharacters.CharacterFromCacheMeaning | src/hooks/useCharacters.ts:72-79 | the lookup returns nothing exactly when no cached character has the id; otherwise the earliest such character, whose id is the one asked for |
| UseCharacter.EpisodesList | src/hooks/useCharacter.ts:17 | `episodeKeys.list(ids)`: `['episodes','list']` extended by the id list |
| UseCharacter.EpisodesAll | src/hooks/useCharacter.ts:15 | `episodeKeys.all`: `['episodes']` |
| UseCharacter.EpisodesLists | src/hooks/useCharacter.ts:16 | `episodeKeys.lists()`: `all` extended by `'list'` |
| UseCharacter.ValidId | src/hooks/useCharacter.ts:30 | `!!id && id > 0`: false for NaN and 0, true exactly for a positive number |
| UseCharacter.UseCharacter | src/hooks/useCharacter.ts:23-32 | the options of the character query: detail key, single-character fetch, 10 minutes fresh, kept 30, 2 retries, enabled by `ValidId` |
| UseCharacter.EpisodeIds | src/hooks/useCharacter.ts:41 | the ids of the character's episode URLs, none without a character: one id per URL |
| UseCharacter.UseCharacterEpisodes | src/hooks/useCharacter.ts:38-51 | the options of the episodes query: key and fetch from the derived ids, 30 minutes fresh, kept 60, 2 retries, enabled for a non-empty id list |
| UseCharacter.EpisodesKeyInjective | src/hooks/useCharacter.ts:14-18 | the episode key is `['episodes','list',ids]`; equal keys mean equal id lists in the same order; it never equals a character key |
| UseCharacter.CharacterQueryEnabled | src/hooks/useCharacter.ts:23-32 | the character query runs exactly for a positive finite id, under its detail key |
| UseCharacter.PrefetchWarmsDetailEntry | src/hooks/useCharacters.ts:52-54 | hover prefetch and the detail query use the same key and the same request |
| UseCharacter.EpisodesQueryEnabled | src/hooks/useCharacter.ts:41-49 | one id per episode URL of a present character, none without one; the query runs exactly when the character has episodes |
| UseCharacter.EnabledEpisodesQueryIssuesOneRequest | src/hooks/useCharacter.ts:45-49 | an enabled episode query never takes the no-request path: it issues exactly one request |
| UseCharacter.PolicyOrdering | src/hooks/useCharacter.ts:27-48 | freshness 5 < 10 < 30 minutes and retention 10 < 30 < 60 minutes from list to detail to episodes; every query retries twice |
| EpisodeList.Capture | src/components/EpisodeList.tsx:19 | a capture is a non-empty digit run; there is none exactly when no marker is followed by a digit |
| EpisodeList.CaptureAt | src/components/EpisodeList.tsx:19 | the first marker followed by a digit decides, and the capture is the whole digit run after it |
| EpisodeList.CaptureAfterPrefix | src/components/EpisodeList.tsx:19 | a marker preceded by no other marker and followed by a digit run captures exactly that run |
| EpisodeList.CapturesOfCode | src/components/EpisodeList.tsx:47 | in `S<digits>E<digits>` the `S` and `E` captures are the two digit runs |
| EpisodeList.SeasonKey | src/components/EpisodeList.tsx:19 | the season key: the `S` capture, which is a digit run, or "Unknown" exactly when there is none |
| EpisodeList.EpisodeNumber | src/components/EpisodeList.tsx:47 | the episode number: never negative, and 0 when there is no `E` capture |
| EpisodeList.EpisodeNumberOfCapture | src/components/EpisodeList.tsx:47-48 | the episode number is the value of the `E` digits, 0 without a match, and never NaN |
| EpisodeList.SeasonAndEpisodeOfCode | src/components/EpisodeList.tsx:19 | for `S<digits>E<digits>` the season key is the first run with leading zeros kept, and the episode number is the value of the second |
| EpisodeList.SeasonOrderKeys | src/components/EpisodeList.tsx:17-27 | the season keys in first-appearance order are distinct and are exactly the accumulator's keys |
| EpisodeList.Grouped | src/components/EpisodeList.tsx:17-27 | the `reduce` accumulator after the episodes: each season key mapped to its episodes, appended in input order |
| EpisodeList.SeasonOrder | src/components/EpisodeList.tsx:17-27 | the order in which the accumulator gains its keys: each new season key appended on first appearance |
| EpisodeList.GroupedIsOfSeason | src/components/EpisodeList.tsx:20-23 | each group holds exactly its season's episodes in input order; a season has a group exactly when one episode has that key |
| EpisodeList.GroupStep | src/components/EpisodeList.tsx:20-23 | one `reduce` step pushes the episode onto its season's list, creating it empty first, and records a new key at the end |
| EpisodeList.AddToSeason | src/components/EpisodeList.tsx:18-25 | the `reduce` callback pushes the episode onto its season's list, creating an empty list first for a new season, and records a new key at the end |
| EpisodeList.GroupBySeason | src/components/EpisodeList.tsx:17-27 | the grouping loop builds the accumulator and the key order defined by `Grouped` and `SeasonOrder` |
| EpisodeList.EntriesOf | src/components/EpisodeList.tsx:31 | one entry per key, pairing the key with its group |
| EpisodeList.Entries | src/components/EpisodeList.tsx:31 | `Object.entries` of the accumulator: the (season, episodes) pairs in key-insertion order |
| EpisodeList.GroupSizesSum | src/components/EpisodeList.tsx:17-27 | every episode lands in exactly one group: the group sizes add up to the number of episodes |
| EpisodeList.SeasonGt | src/components/EpisodeList.tsx:32 | the season comparator is positive only between different keys, and never when either key is "Unknown" (NaN difference) |
| EpisodeList.SortEach | src/components/EpisodeList.tsx:33-50 | the `.map` keeps the order of groups and sorts the episodes of each |
| EpisodeList.EpisodeGt | src/components/EpisodeList.tsx:46-49 | the episode comparator is positive exactly when the first episode number is greater |
| EpisodeList.SortSeasonEpisodes | src/components/EpisodeList.tsx:45-50 | one season group with its episodes stably sorted by episode number, its key unchanged |
| EpisodeList.View | src/components/EpisodeList.tsx:12-50 | "No episodes found." for no episodes; otherwise the entries sorted by season, each group sorted by episode number |
| EpisodeList.SortGroup | src/components/EpisodeList.tsx:45-50 | the in-place episode sort of one group gives the stable sort by episode number |
| EpisodeList.SortedEntries | src/components/EpisodeList.tsx:31-32 | the entries sorted in place by season number |
| EpisodeList.SortGroups | src/components/EpisodeList.tsx:33-50 | the loop over the sorted entries sorts each group's episodes |
| EpisodeList.Render | src/components/EpisodeList.tsx:11-50 | the component's output is the view of its input, and it is the "No episodes found." branch exactly for the empty list |
| EpisodeList.ViewGroups | src/components/EpisodeList.tsx:31-50 | one group per season key, each holding that season's episodes sorted by number |
| EpisodeList.ViewSeasonsArePermutation | src/components/EpisodeList.tsx:31-33 | the groups' seasons are a rearrangement of the distinct season keys |
| EpisodeList.ViewSizesSum | src/components/EpisodeList.tsx:17-33 | the rendered groups hold as many episodes as the input |
| EpisodeList.ViewEpisodesOrdered | src/components/EpisodeList.tsx:45-50 | within a group episodes ascend by number, and those with equal numbers keep their input order |
| EpisodeList.OfSeasonMembers | src/components/EpisodeList.tsx:20-23 | a group holds only input episodes with that season key |
| EpisodeList.EntrySeasonIsNumeric | src/components/EpisodeList.tsx:32 | when every code has an `S` number, each season key parses to a finite number |
| EpisodeList.ViewSeasonsAscending | src/components/EpisodeList.tsx:31-32 | when every code has an `S` number, the groups come out in ascending season number |
| Sorting.Insert | src/components/EpisodeList.tsx:32-50 | one insertion step of the sort: `x` goes after the trailing elements the comparator does not rank above it, and the result is one longer |
| Sorting.SortBy | src/components/EpisodeList.tsx:32-50 | `Array.prototype.sort(cmp)` as a stable sort: each element is inserted, first to last, into the sorted prefix, and the length is kept |
| Sorting.InsertPermutes | src/components/EpisodeList.tsx:46-50 | inserting adds exactly the new element |
| Sorting.SortByPermutes | src/components/EpisodeList.tsx:46-50 | sorting is a permutation |
| Sorting.SortByMembers | src/components/EpisodeList.tsx:32 | every element of the sorted list comes from the input |
| Sorting.InsertSorted | src/components/EpisodeList.tsx:46-50 | inserting into a list sorted by a key, with a comparator that agrees with the key, keeps it sorted |
| Sorting.SortBySorted | src/components/EpisodeList.tsx:46-50 | with a comparator that agrees with a key, the result is sorted by that key |
| Sorting.InsertStable | src/components/EpisodeList.tsx:46-50 | insertion places the new element after every element with the same key |
| Sorting.SortByStable | src/components/EpisodeList.tsx:46-50 | elements with equal keys keep their input order |
| Sorting.InsertBetween | src/components/EpisodeList.tsx:46-50 | the element goes after the prefix it is not smaller than and before the suffix that is greater |
| Sorting.PlacedIsInsert | src/components/EpisodeList.tsx:46 | the shifted array with the element dropped in is the insertion |
| Sorting.InsertAt | src/components/EpisodeList.tsx:46 | the shifting loop inserts `a[i]` into the sorted prefix and leaves the rest alone |
| Sorting.SortByStep | src/components/EpisodeList.tsx:46 | sorting one more element is one more insertion |
| Sorting.InsertionSort | src/components/EpisodeList.tsx:46 | the in-place sort leaves the array holding the stable sort of its old contents |
| Sorting.SumBySortBy | src/components/EpisodeList.tsx:32 | sorting does not change a sum over the elements |
| Sorting.MapSeqSortBy | src/components/EpisodeList.tsx:32 | sorting rearranges any projection of the elements |
| UiStore.Partialize | src/store/uiStore.ts:61 | the persisted subset of the state: the dark-mode flag alone |
| UiStore.Initial | src/store/uiStore.ts:39-44 | an empty term, and the flag from the stored snapshot when there is one, else from the colour-scheme preference |
| UiStore.Step | src/store/uiStore.ts:40-61 | after every mutation the snapshot holds the new flag; search mutations leave flag and document class alone; theme mutations leave the term alone and set the document class to the flag |
| UiStore.StepEffects | src/store/uiStore.ts:40-57 | the term is set or cleared, the flag negated or set, as each mutation says |
| UiStore.SearchKeepsSnapshot | src/store/uiStore.ts:61 | a search mutation rewrites an existing snapshot unchanged |
| UiStore.InitialConsistent | src/store/uiStore.ts:59-62 | the initial snapshot agrees with the flag |
| UiStore.RunConsistent | src/store/uiStore.ts:59-62 | every run of mutations keeps the snapshot in step with the flag |
| UiStore.ToggleTwice | src/store/uiStore.ts:45-51 | from a state whose document class shows the flag, toggling twice restores term, flag and document class |
| UiStore.ToggleTwiceRestores | src/store/uiStore.ts:45-51 | from any state, toggling twice restores term and flag, leaves the document class showing the flag and stores the flag's snapshot |
| UiStore.Idempotent | src/store/uiStore.ts:41-57 | clearing twice is clearing once, and so is setting the same theme twice |
| UiStore.SearchAndThemeCommute | src/store/uiStore.ts:40-57 | setting the term and clearing it each commute with a theme mutation |
| UiStore.DocumentFollowsLastTheme | src/store/uiStore.ts:48-55 | after a run ending in a theme mutation the document class shows the flag |
| UiStore.Store.constructor | src/store/uiStore.ts:35-64 | the created store is the initial state, consistent |
| UiStore.Store.SetSearchTerm | src/store/uiStore.ts:40 | the store makes the `SetSearchTerm` transition and stays consistent |
| UiStore.Store.ClearSearch | src/store/uiStore.ts:41 | the store makes the `ClearSearch` transition and stays consistent |
| UiStore.Store.ToggleTheme | src/store/uiStore.ts:45-51 | the flag is negated and the document class follows it; the store stays consistent |
| UiStore.Store.SetTheme | src/store/uiStore.ts:52-57 | the flag and the document class take the given value; the store stays consistent |
| CharactersPage.PageFilters | src/pages/CharactersPage/index.tsx:18-21 | the filters carry the page and carry the name exactly when the term is not empty |
| CharactersPage.PageQuery | src/pages/CharactersPage/index.tsx:18-21 | the list query the page issues: `useCharacters` of the current filters |
| CharactersPage.PageKeysDistinct | src/pages/CharactersPage/index.tsx:18-21 | two (term, page) pairs share a cache key exactly when they are equal |
| CharactersPage.PreviousPage | src/pages/CharactersPage/index.tsx:103 | `max(1, p - 1)`: one less above 1, else 1 |
| CharactersPage.NextPage | src/pages/CharactersPage/index.tsx:115 | one more |
| CharactersPage.PageAfter | src/pages/CharactersPage/index.tsx:24-115 | the page counter after one action: 1 after a search change, `PreviousPage` and `NextPage` for the buttons |
| CharactersPage.PageAfterRun | src/pages/CharactersPage/index.tsx:24-115 | the page counter after a run of actions, applied first to last |
| CharactersPage.PageStaysPositive | src/pages/CharactersPage/index.tsx:15-115 | from page 1, every run of search changes, Previous and Next keeps the page at 1 or above |
| CharactersPage.PreviousUndoesNext | src/pages/CharactersPage/index.tsx:103-115 | Previous after Next returns to the same page |
| CharactersPage.PrevDisabled | src/pages/CharactersPage/index.tsx:104 | `!data.info.prev`: the link is absent or empty |
| CharactersPage.NextDisabled | src/pages/CharactersPage/index.tsx:116 | `!data.info.next`: the link is absent or empty |
| CharactersPage.PageSections | src/pages/CharactersPage/index.tsx:61-127 | spinner while loading; error block exactly on error, with the error's message or the default; with data exactly one of grid and "no results"; pagination only for a non-empty grid of more than one page; Previous and Next enabled exactly for a non-empty link |
| CharactersPage.Page.constructor | src/pages/CharactersPage/index.tsx:15 | the page starts at 1 |
| CharactersPage.Page.Filters | src/pages/CharactersPage/index.tsx:18-21 | the filters of the current render: the store's term and the page counter |
| CharactersPage.Page.HandleSearchChange | src/pages/CharactersPage/index.tsx:24-30 | the store's term becomes the value and the page 1, so the filters are those of (value, 1) |
| CharactersPage.Page.Previous | src/pages/CharactersPage/index.tsx:103 | the page becomes `max(1, page - 1)` and stays at 1 or above |
| CharactersPage.Page.Next | src/pages/CharactersPage/index.tsx:115 | the page grows by one, so the filters, and the cache key, change |
| CharacterDetailsPage.RouteId | src/pages/CharacterDetailsPage/index.tsx:15 | `parseInt(id \|\| '0', 10)`: an absent or empty route id reads as 0, any other is parsed |
| CharacterDetailsPage.SelectView | src/pages/CharacterDetailsPage/index.tsx:33-161 | the invalid view exactly for an id that is not positive; else loading first; else the error view exactly on error or a missing character, with the error's message or the default; else the content with that character, its episode count and the episode section's parts |
| CharacterDetailsPage.MissingRouteIdIsInvalid | src/pages/CharacterDetailsPage/index.tsx:15 | an absent or empty route id reads as 0 and selects the invalid view |
| CharacterDetailsPage.DecimalRouteIdIsValid | src/pages/CharacterDetailsPage/index.tsx:15 | a route holding the decimal form of a positive id reads as that id, passes the guard, and enables the character query |
| CharacterDetailsPage.GuardMatchesQueryEnabled | src/pages/CharacterDetailsPage/index.tsx:33 | the page gets past the invalid view exactly when the character query is enabled |
| CharacterDetailsPage.ContentHasCharacter | src/pages/CharacterDetailsPage/index.tsx:50-66 | the content view needs a loaded character without error, and the episode query beside it runs exactly when the character has episodes |
| FormatDate.Bucket | src/utils/formatDate.ts:30-35 | each day count falls in exactly one bucket by the thresholds 0, 1, 7, 30 and 365, with the count the integer quotient (weeks 1-4, months 1-12) |
| FormatDate.Counted | src/utils/formatDate.ts:32-35 | the template `${n} <unit> ago` |
| FormatDate.Render | src/utils/formatDate.ts:30-35 | the string of each bucket: the two words, or the counted phrase with its unit |
| FormatDate.FormatRelativeTime | src/utils/formatDate.ts:24-36 | the rendering of the day count's bucket; "Today" exactly for 0 days and "Yesterday" exactly for 1 |
| FormatDate.ReadRender | src/utils/formatDate.ts:30-35 | reading a rendering back gives its bucket and count |
| FormatDate.RenderInjective | src/utils/formatDate.ts:30-35 | distinct buckets render to distinct strings |
| FormatDate.EndsInAgo | src/utils/formatDate.ts:32-35 | every result other than Today and Yesterday ends in " ago" |
| FormatDate.Samples | src/utils/formatDate.ts:30-35 | 0, 1, -3, 7, 30 and 365 days render as "Today", "Yesterday", "-3 days ago", "1 weeks ago", "1 months ago" and "1 years ago" |

## Left out

- **The query-cache library** (src/hooks/useCharacters.ts, src/hooks/useCharacter.ts): freshness timers, garbage collection, de-duplication of in-flight requests, retry execution and the prefetch's skipping of fresh keys. These live in library code that is not part of this model. Only the options each hook hands over are modelled, with keys compared structurally.
- **`src/api/client.ts`**: the axios instance, its base URL and timeout, and the error interceptor. This is I/O configuration. Replies are a parameter, and a rejection carries only its message.
- **The search input's debounce** (src/components/SearchInput.tsx): it is timer- and effect-driven. `handleSearchChange` is modelled from the call it receives.
- **`formatRelativeTime`'s clock and date work**: `new Date`, the millisecond difference and the `Math.floor` to whole days are left out. The day count is the input. `formatDate`'s locale formatting is left out as well.
- **`parseInt` whitespace**: leading whitespace skipping is not modelled. A last URL segment or a route id with leading whitespace reads as NaN, where `parseInt` would skip the whitespace and read the digits.
- **Unknown-season placement** (src/components/EpisodeList.tsx:32): `parseInt("Unknown")` makes the comparator return NaN, so JavaScript leaves the resulting order implementation-defined.
  - `EpisodeList.SortedEntries` uses a stable insertion sort that reads NaN as "equal", which is one legal outcome.
  - The permutation and size lemmas hold for every input.
  - The ascending-season lemma requires every code to carry an `S` number.
- **`Object.entries` order**: integer-like keys come out in ascending numeric order. `EpisodeList.Entries` uses first-appearance order instead.
  - The view lemmas hold either way, since the entries are then sorted by season anyway.
  - It matters only for keys such as `"1"` and `"01"`, or `"Unknown"`, that the season sort leaves unordered.
- **Sorting the accumulator's arrays in place**: `EpisodeList.SortGroup` sorts a copy of each group's list, so aliasing between the dictionary and the rendered list is not captured.
- **JavaScript number precision**: ids, counts and pages are unbounded integers, and floating-point rounding is not modelled.
- **Markup and styling**: all JSX, styling, navigation and the components Layout, CharacterCard (apart from its hover prefetch, `UseCharacters.PrefetchCharacter`), ErrorBlock, the router and App.
- **App.tsx's theme effect**: the effect that re-applies the stored theme to the document on start. The initial document class is a constructor parameter of `UiStore.Store`.
- **Rehydration timing**: the persistence middleware's rehydration is modelled as part of store creation (`UiStore.Initial`).
- **`CharactersPage.Page.Previous` and `CharactersPage.Page.Next`**: these model the button updaters. Whether a disabled button can be clicked is left to `CharactersPage.PageSections`.
