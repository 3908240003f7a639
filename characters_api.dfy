/** The resource accessors of the application: which GET request each one
    issues through the shared HTTP client, and how the reply becomes its result.
    The client itself is not modelled; a request is a value, and the server's
    reply is a function of the request path passed in by the caller. */
module CharactersApi {
  import opened Wrappers
  import opened Types
  import opened Numbers
  import Strings

  /** A GET request: a path relative to the API base, and optional query parameters. */
  datatype Request = Get(path: string, params: Option<CharacterFilters>)

  /** What a request settles to: the JSON body, or the normalised error's message. */
  datatype Reply<+T> = Ok(body: T) | Rejected(message: string)

  /** The requests an accessor issued, in order, and the value it settled to. */
  datatype Outcome<+T> = Outcome(requests: seq<Request>, result: Reply<T>)

  /** `getCharacters(filters)`: `/character`, with the filters passed on as they are. */
  function GetCharacters(filters: Option<CharacterFilters>): (r: Request)
    ensures r.path == "/character" && r.params == filters
  {
    Get("/character", filters)
  }

  /** `getCharacterById(id)`: `/character/${id}`, without parameters. */
  function GetCharacterById(id: Num): (r: Request)
    ensures r.params == None
  {
    Get("/character/" + NumToString(id), None)
  }

  /** `String(x)` for every id of a list, as `Array.prototype.join` renders them. */
  function RenderIds(ids: seq<Num>): (r: seq<string>)
    ensures |r| == |ids|
  {
    seq(|ids|, i requires 0 <= i < |ids| => NumToString(ids[i]))
  }

  /** The path of an episode request: one id, or the ids joined with ','. */
  function EpisodePath(ids: seq<Num>): string
  {
    "/episode/" + Strings.Join(RenderIds(ids), ',')
  }

  /** `getMultipleEpisodes(ids)`: nothing is requested for no ids; one id is
      requested as `/episode/<id>` and its single episode wrapped in a list; two or
      more ids go in one request to `/episode/<id>,<id>,...`, whose list is the result.
      `single` and `batch` give the server's reply to each kind of path. */
  function GetMultipleEpisodes(
    ids: seq<Num>,
    single: string -> Reply<Episode>,
    batch: string -> Reply<seq<Episode>>): (o: Outcome<seq<Episode>>)
    ensures |o.requests| <= 1
    ensures |o.requests| == 0 <==> ids == []
    ensures ids == [] ==> o.result == Ok([])
    ensures forall k :: 0 <= k < |o.requests| ==>
              o.requests[k] == Get(EpisodePath(ids), None)
  {
    if |ids| == 0 then
      Outcome([], Ok([]))
    else if |ids| == 1 then
      var path := "/episode/" + NumToString(ids[0]);
      assert Strings.Join(RenderIds(ids), ',') == NumToString(ids[0]);
      var result := match single(path)
        case Ok(e) => Ok([e])
        case Rejected(m) => Rejected(m);
      Outcome([Get(path, None)], result)
    else
      var path := EpisodePath(ids);
      Outcome([Get(path, None)], batch(path))
  }

  /** `extractEpisodeIds(urls)`: `parseInt` of what follows the last '/' of each
      URL, one number per URL, in the same order. */
  function ExtractEpisodeIds(urls: seq<string>): (ids: seq<Num>)
    ensures |ids| == |urls|
  {
    seq(|urls|, i requires 0 <= i < |urls| => ParseInt(Strings.LastPiece(urls[i], '/')))
  }

  /** The server sees in the last path segment exactly the id that was asked for. */
  lemma CharacterPathCarriesId(id: Num)
    ensures GetCharacterById(id).path == "/character" + "/" + NumToString(id)
    ensures ParseInt(Strings.LastPiece(GetCharacterById(id).path, '/')) == id
  {
    NumToStringHasNo(id, '/');
    Strings.LastPieceAfterSeparator("/character", NumToString(id), '/');
    assert "/character/" + NumToString(id) == "/character" + ['/'] + NumToString(id);
    ParseIntOfNumToString(id);
  }

  /** One id: one request, to `/episode/<id>`, a one-element result when the
      server answers, and the server's rejection message passed on otherwise. */
  lemma SingleEpisodeRequest(x: Num, single: string -> Reply<Episode>, batch: string -> Reply<seq<Episode>>)
    ensures var o := GetMultipleEpisodes([x], single, batch);
      && o.requests == [Get("/episode/" + NumToString(x), None)]
      && (single("/episode/" + NumToString(x)).Ok? ==>
            o.result == Ok([single("/episode/" + NumToString(x)).body]))
      && (single("/episode/" + NumToString(x)).Rejected? ==>
            o.result == Rejected(single("/episode/" + NumToString(x)).message))
  {
  }

  /** Two or more ids: one request, whose path suffix splits on ',' into the ids
      again, in order and with repetitions, each read back with `parseInt`. */
  lemma {:induction false} BatchPathCarriesIds(
    ids: seq<Num>, single: string -> Reply<Episode>, batch: string -> Reply<seq<Episode>>)
    requires |ids| >= 2
    ensures var o := GetMultipleEpisodes(ids, single, batch);
      && |o.requests| == 1
      && o.result == batch(o.requests[0].path)
      && o.requests[0].path[..9] == "/episode/"
      && var pieces := Strings.Split(o.requests[0].path[9..], ',');
         |pieces| == |ids| && forall k :: 0 <= k < |ids| ==> ParseInt(pieces[k]) == ids[k]
  {
    var rendered := RenderIds(ids);
    forall k | 0 <= k < |rendered| ensures ',' !in rendered[k] {
      NumToStringHasNo(ids[k], ',');
    }
    Strings.SplitJoin(rendered, ',');
    var path := EpisodePath(ids);
    assert path[9..] == Strings.Join(rendered, ',');
    forall k | 0 <= k < |ids| ensures ParseInt(rendered[k]) == ids[k] {
      ParseIntOfNumToString(ids[k]);
    }
  }

  /** The segment after the last '/' is what `parseInt` reads, so URLs built as
      `<prefix>/<id>` give back their ids, one per URL and in order. */
  lemma ExtractIdsOfBuiltUrls(prefix: string, idList: seq<int>)
    ensures ExtractEpisodeIds(seq(|idList|, i requires 0 <= i < |idList| => prefix + "/" + IntToDecimal(idList[i])))
         == seq(|idList|, i requires 0 <= i < |idList| => Finite(idList[i]))
  {
    var urls := seq(|idList|, i requires 0 <= i < |idList| => prefix + "/" + IntToDecimal(idList[i]));
    forall k | 0 <= k < |idList| ensures ParseInt(Strings.LastPiece(urls[k], '/')) == Finite(idList[k]) {
      NumToStringHasNo(Finite(idList[k]), '/');
      Strings.LastPieceAfterSeparator(prefix, IntToDecimal(idList[k]), '/');
      assert urls[k] == prefix + ['/'] + IntToDecimal(idList[k]);
      ParseIntOfDecimal(idList[k]);
    }
  }

  /** A URL that ends in '/' has an empty last segment, which reads as NaN. */
  lemma TrailingSlashGivesNaN(url: string)
    requires |url| > 0 && url[|url| - 1] == '/'
    ensures ParseInt(Strings.LastPiece(url, '/')) == NaN
  {
    Strings.LastPieceAfterSeparator(url[..|url| - 1], "", '/');
    assert url == url[..|url| - 1] + ['/'] + "";
  }

  /** Episode URLs ending in `/1` and `/28` give the ids 1 and 28, whatever
      comes before (for instance `https://rickandmortyapi.com/api/episode`). */
  lemma ExtractIdsExample(base: string)
    ensures ExtractEpisodeIds([base + "/1", base + "/28"]) == [Finite(1), Finite(28)]
  {
    assert base + "/1" == base + ['/'] + "1";
    assert base + "/28" == base + ['/'] + "28";
    Strings.LastPieceAfterSeparator(base, "1", '/');
    Strings.LastPieceAfterSeparator(base, "28", '/');
    ParseIntOfDecimal(1);
    ParseIntOfDecimal(28);
    assert IntToDecimal(1) == "1";
    assert NatToDecimal(2) == "2";
    assert IntToDecimal(28) == "28";
  }
}
