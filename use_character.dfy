/** The detail hooks: the key factory for episodes, the query for one character
    and the query for that character's episodes, with their cache policies. */
module UseCharacter {
  import opened Wrappers
  import opened Types
  import opened Numbers
  import opened Query
  import CharactersApi
  import UseCharacters

  /** `episodeKeys.all`. */
  function EpisodesAll(): QueryKey { [Label("episodes")] }

  /** `episodeKeys.lists()`. */
  function EpisodesLists(): QueryKey { EpisodesAll() + [Label("list")] }

  /** `episodeKeys.list(ids)`. */
  function EpisodesList(ids: seq<Num>): QueryKey { EpisodesLists() + [IdsPart(ids)] }

  const DetailStaleTime: nat := 10 * MinuteMs
  const DetailGcTime: nat := 30 * MinuteMs
  const EpisodesStaleTime: nat := 30 * MinuteMs
  const EpisodesGcTime: nat := 60 * MinuteMs
  const DetailRetry: nat := 2
  const EpisodesRetry: nat := 2

  /** `!!id && id > 0`: NaN and 0 are falsy, so only a positive id passes. */
  predicate ValidId(id: Num)
  {
    match id
    case NaN => false
    case Finite(v) => v != 0 && v > 0
  }

  /** `useCharacter(id)`. */
  function UseCharacter(id: Num): QueryOptions
  {
    QueryOptions(
      UseCharacters.Detail(id), FetchCharacter(id),
      DetailStaleTime, Some(DetailGcTime), Some(DetailRetry), None, Some(ValidId(id)))
  }

  /** The ids `useCharacterEpisodes` derives: those of the character's episode URLs,
      or none when there is no character. */
  function EpisodeIds(character: Option<Character>): (ids: seq<Num>)
    ensures |ids| == if character.Some? then |character.value.episode| else 0
  {
    if character.Some? then CharactersApi.ExtractEpisodeIds(character.value.episode) else []
  }

  /** `useCharacterEpisodes(character)`. */
  function UseCharacterEpisodes(character: Option<Character>): QueryOptions
  {
    var ids := EpisodeIds(character);
    QueryOptions(
      EpisodesList(ids), FetchEpisodes(ids),
      EpisodesStaleTime, Some(EpisodesGcTime), Some(EpisodesRetry), None, Some(|ids| > 0))
  }

  /** The episode key holds the id list itself: equal keys mean equal id lists, in
      the same order, and it never collides with a character key. */
  lemma EpisodesKeyInjective(a: seq<Num>, b: seq<Num>, f: CharacterFilters, id: Num)
    ensures EpisodesList(a) == [Label("episodes"), Label("list"), IdsPart(a)]
    ensures EpisodesList(a) == EpisodesList(b) <==> a == b
    ensures EpisodesList(a) != UseCharacters.List(f) && EpisodesList(a) != UseCharacters.Detail(id)
  {
    if EpisodesList(a) == EpisodesList(b) {
      assert EpisodesList(a)[2] == EpisodesList(b)[2];
    }
    assert EpisodesList(a)[0] != UseCharacters.List(f)[0];
    assert EpisodesList(a)[0] != UseCharacters.Detail(id)[0];
  }

  /** The character query runs exactly for a positive id, and fetches that id
      under its detail key. */
  lemma CharacterQueryEnabled(id: Num)
    ensures UseCharacter(id).enabled == Some(true) <==> id.Finite? && id.value > 0
    ensures UseCharacter(id).key == UseCharacters.Detail(id)
    ensures UseCharacter(id).fetch == FetchCharacter(id)
  {
  }

  /** Hovering a card warms exactly the cache entry the detail query reads, and
      with the same request. */
  lemma PrefetchWarmsDetailEntry(id: int)
    ensures UseCharacters.PrefetchCharacter(id).key == UseCharacter(Finite(id)).key
    ensures UseCharacters.PrefetchCharacter(id).fetch == UseCharacter(Finite(id)).fetch
  {
  }

  /** The episode query is enabled exactly when a character is present and has at
      least one episode URL, with one id per URL. */
  lemma EpisodesQueryEnabled(character: Option<Character>)
    ensures |EpisodeIds(character)| == if character.Some? then |character.value.episode| else 0
    ensures UseCharacterEpisodes(character).enabled == Some(true) <==>
              character.Some? && |character.value.episode| > 0
  {
  }

  /** When the episode query runs, its fetch asks for at least one id, so it is
      never the path that issues no request: it issues exactly one. */
  lemma EnabledEpisodesQueryIssuesOneRequest(
    character: Option<Character>,
    single: string -> CharactersApi.Reply<Episode>,
    batch: string -> CharactersApi.Reply<seq<Episode>>)
    requires UseCharacterEpisodes(character).enabled == Some(true)
    ensures UseCharacterEpisodes(character).fetch.FetchEpisodes?
    ensures |CharactersApi.GetMultipleEpisodes(UseCharacterEpisodes(character).fetch.ids, single, batch).requests| == 1
  {
  }

  /** The three freshness windows and the three retention windows increase from
      lists to single characters to episodes, and every query retries twice. */
  lemma PolicyOrdering(filters: Option<CharacterFilters>, id: Num, character: Option<Character>)
    ensures var list := UseCharacters.UseCharacters(filters);
      var detail := UseCharacter(id);
      var episodes := UseCharacterEpisodes(character);
      && list.staleTime < detail.staleTime < episodes.staleTime
      && list.gcTime.Some? && detail.gcTime.Some? && episodes.gcTime.Some?
      && list.gcTime.value < detail.gcTime.value < episodes.gcTime.value
      && list.staleTime == 5 * MinuteMs && detail.staleTime == 10 * MinuteMs
      && episodes.staleTime == 30 * MinuteMs && episodes.gcTime.value == 60 * MinuteMs
      && list.retry == detail.retry == episodes.retry == Some(2)
  {
  }
}
