/** Optional values, standing for JavaScript's `undefined` / `null`. */
module Wrappers {

  datatype Option<+T> = None | Some(value: T) {
    function GetOr(default: T): T
    {
      match this
      case Some(v) => v
      case None => default
    }
  }
}

/** The records the remote catalogue returns, and the filter object the
    application sends with a character-list request. */
module Types {
  import opened Wrappers

  datatype Status = Alive | Dead | UnknownStatus

  datatype Gender = Female | Male | Genderless | UnknownGender

  datatype Location = Location(name: string, url: string)

  /** A character; `episode` holds the URLs of the episodes it appears in. */
  datatype Character = Character(
    id: int,
    name: string,
    status: Status,
    species: string,
    characterType: string,
    gender: Gender,
    origin: Location,
    location: Location,
    image: string,
    episode: seq<string>,
    url: string,
    created: string)

  /** An episode; `episode` is its code, such as "S01E01". */
  datatype Episode = Episode(
    id: int,
    name: string,
    airDate: string,
    episode: string,
    characters: seq<string>,
    url: string,
    created: string)

  /** Paging information of a list response; `next` and `prev` are URLs or null. */
  datatype Info = Info(count: int, pages: int, next: Option<string>, prev: Option<string>)

  datatype CharactersResponse = CharactersResponse(info: Info, results: seq<Character>)

  datatype StatusFilter = AliveFilter | DeadFilter | UnknownStatusFilter

  datatype GenderFilter = FemaleFilter | MaleFilter | GenderlessFilter | UnknownGenderFilter

  /** Query parameters of a character-list request; every field may be absent. */
  datatype CharacterFilters = CharacterFilters(
    name: Option<string>,
    status: Option<StatusFilter>,
    species: Option<string>,
    characterType: Option<string>,
    gender: Option<GenderFilter>,
    page: Option<int>)

  /** The empty filter object `{}`. */
  const NoFilters := CharacterFilters(None, None, None, None, None, None)
}
