/** The detail page's logic: the character id read from the route, and the one
    view its guarded early returns select. */
module CharacterDetailsPage {
  import opened Wrappers
  import opened Types
  import opened Numbers
  import EpisodeList
  import UseCharacter

  const InvalidIdMessage := "Invalid character ID"
  const DefaultDetailError := "Failed to load character details"

  /** `parseInt(id || '0', 10)`: an absent or empty route parameter reads as 0. */
  function RouteId(id: Option<string>): (n: Num)
    ensures id.None? || id.value == "" ==> n == Finite(0)
  {
    ParseIntOfDecimal(0);
    assert IntToDecimal(0) == "0";
    ParseInt(if id.None? || id.value == "" then "0" else id.value)
  }

  /** What the page shows. The content view carries the episode count and the
      independent episode-section blocks. */
  datatype DetailView =
    | InvalidId(message: string)
    | LoadingDetails
    | ErrorView(message: string)
    | Content(
        character: Character,
        episodeCount: nat,
        episodesLoading: bool,
        episodesError: bool,
        episodeList: Option<EpisodeList.EpisodeListView>)

  /** The query states the page reads, as the two hooks report them. */
  datatype QueryState<T> = QueryState(isLoading: bool, isError: bool, errorMessage: Option<string>, data: Option<T>)

  /** The chain of early returns: invalid id, then loading, then error or missing
      character, then the content. */
  function SelectView(characterId: Num, detail: QueryState<Character>, episodes: QueryState<seq<Episode>>): (v: DetailView)
    ensures v.InvalidId? <==> !UseCharacter.ValidId(characterId)
    ensures v.InvalidId? ==> v.message == InvalidIdMessage
    ensures v.LoadingDetails? <==> UseCharacter.ValidId(characterId) && detail.isLoading
    ensures v.ErrorView? <==> UseCharacter.ValidId(characterId) && !detail.isLoading
                              && (detail.isError || detail.data.None?)
    ensures v.ErrorView? && detail.errorMessage.Some? && detail.errorMessage.value != "" ==>
              v.message == detail.errorMessage.value
    ensures v.ErrorView? && (detail.errorMessage.None? || detail.errorMessage.value == "") ==>
              v.message == DefaultDetailError
    ensures v.Content? ==> detail.data == Some(v.character) && v.episodeCount == |v.character.episode|
    ensures v.Content? ==> v.episodesLoading == episodes.isLoading && v.episodesError == episodes.isError
    ensures v.Content? ==> (v.episodeList.Some? <==> episodes.data.Some?)
    ensures v.Content? && episodes.data.Some? ==> v.episodeList.value == EpisodeList.View(episodes.data.value)
  {
    var invalid := match characterId case NaN => true case Finite(n) => n == 0 || n <= 0;
    if invalid then InvalidId(InvalidIdMessage)
    else if detail.isLoading then LoadingDetails
    else if detail.isError || detail.data.None? then
      ErrorView(if detail.errorMessage.Some? && detail.errorMessage.value != "" then detail.errorMessage.value
                else DefaultDetailError)
    else
      var character := detail.data.value;
      Content(character, |character.episode|, episodes.isLoading, episodes.isError,
              if episodes.data.Some? then Some(EpisodeList.View(episodes.data.value)) else None)
  }

  /** An absent or empty route parameter gives id 0, and so the invalid view. */
  lemma MissingRouteIdIsInvalid(detail: QueryState<Character>, episodes: QueryState<seq<Episode>>)
    ensures RouteId(None) == Finite(0) && RouteId(Some("")) == Finite(0)
    ensures SelectView(RouteId(None), detail, episodes).InvalidId?
  {
    ParseIntOfDecimal(0);
    assert IntToDecimal(0) == "0";
  }

  /** A route holding the decimal form of a positive id reads as that id, passes
      the guard, and the character query for it runs. */
  lemma DecimalRouteIdIsValid(n: int)
    requires n > 0
    ensures RouteId(Some(IntToDecimal(n))) == Finite(n)
    ensures UseCharacter.ValidId(RouteId(Some(IntToDecimal(n))))
    ensures UseCharacter.UseCharacter(RouteId(Some(IntToDecimal(n)))).enabled == Some(true)
  {
    ParseIntOfDecimal(n);
    assert IntToDecimal(n) != "";
  }

  /** The page's guard and the character query's `enabled` agree: the page gets
      past the invalid view exactly when the query runs. */
  lemma GuardMatchesQueryEnabled(characterId: Num, detail: QueryState<Character>, episodes: QueryState<seq<Episode>>)
    ensures !SelectView(characterId, detail, episodes).InvalidId? <==>
              UseCharacter.UseCharacter(characterId).enabled == Some(true)
  {
  }

  /** The content view is reached only with a character, and the episode query
      beside it runs exactly when that character has episodes. */
  lemma ContentHasCharacter(characterId: Num, detail: QueryState<Character>, episodes: QueryState<seq<Episode>>)
    requires SelectView(characterId, detail, episodes).Content?
    ensures detail.data.Some? && !detail.isError && !detail.isLoading
    ensures UseCharacter.UseCharacterEpisodes(detail.data).enabled == Some(true) <==>
              SelectView(characterId, detail, episodes).episodeCount > 0
  {
    UseCharacter.EpisodesQueryEnabled(detail.data);
  }
}
