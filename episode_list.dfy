/** The non-visual logic of the episode list: group the episodes by the season
    number in their code, order the seasons, and order the episodes of each season
    by their episode number. */
module EpisodeList {
  import opened Wrappers
  import opened Types
  import opened Numbers
  import opened Sorting

  /** Capture group 1 of `code.match(/<marker>(\d+)/)`: the digit run after the
      first `marker` that is followed by a digit. */
  function Capture(code: string, marker: char): (r: Option<string>)
    ensures r.Some? ==> |r.value| > 0 && AllDigits(r.value)
    ensures r.None? <==> forall i :: 0 <= i < |code| - 1 ==> !(code[i] == marker && IsDigit(code[i + 1]))
  {
    if |code| < 2 then None
    else if code[0] == marker && IsDigit(code[1]) then Some(LeadingDigits(code[1..]))
    else
      var r := Capture(code[1..], marker);
      assert forall i :: 1 <= i < |code| ==> code[1..][i - 1] == code[i];
      r
  }

  /** The match starts at the first `marker` followed by a digit and takes every
      digit after it. */
  lemma {:induction false} CaptureAt(code: string, marker: char, i: nat)
    requires i < |code| - 1 && code[i] == marker && IsDigit(code[i + 1])
    requires forall k :: 0 <= k < i ==> !(code[k] == marker && IsDigit(code[k + 1]))
    ensures Capture(code, marker) == Some(LeadingDigits(code[i + 1..]))
  {
    if i > 0 {
      assert code[1..][i..] == code[i + 1..];
      CaptureAt(code[1..], marker, i - 1);
    }
  }

  /** `episode.match(/S(\d+)/)?.[1] || 'Unknown'`. */
  function SeasonKey(e: Episode): (k: string)
    ensures k != "Unknown" <==> Capture(e.episode, 'S').Some?
    ensures k != "Unknown" ==> |k| > 0 && AllDigits(k)
  {
    match Capture(e.episode, 'S')
    case Some(digits) => assert digits[0] != "Unknown"[0]; digits
    case None => "Unknown"
  }

  /** `parseInt(episode.match(/E(\d+)/)?.[1] || '0')`. */
  function EpisodeNumber(e: Episode): (n: int)
    ensures n >= 0
    ensures Capture(e.episode, 'E').None? ==> n == 0
  {
    var digits := match Capture(e.episode, 'E') case Some(d) => d case None => "0";
    ParseIntOfDigitsThen(digits, "");
    assert digits + "" == digits;
    match ParseInt(digits)
    case Finite(v) => v
    case NaN => 0
  }

  /** The episode number is the value of the captured digits, 0 without a match,
      and `parseInt` never fails on it. */
  lemma EpisodeNumberOfCapture(e: Episode)
    ensures var digits := match Capture(e.episode, 'E') case Some(d) => d case None => "0";
      ParseInt(digits) == Finite(EpisodeNumber(e)) && EpisodeNumber(e) == DigitsValue(digits)
  {
    var digits := match Capture(e.episode, 'E') case Some(d) => d case None => "0";
    ParseIntOfDigitsThen(digits, "");
    assert digits + "" == digits;
  }

  /** A code whose first `marker` is followed by a digit run captures that run. */
  lemma CaptureAfterPrefix(prefix: string, marker: char, digits: string, rest: string)
    requires marker !in prefix
    requires |digits| > 0 && AllDigits(digits)
    requires rest == [] || !IsDigit(rest[0])
    ensures Capture(prefix + [marker] + digits + rest, marker) == Some(digits)
  {
    var code := prefix + [marker] + digits + rest;
    var p := |prefix|;
    assert code[p] == marker && code[p + 1] == digits[0];
    forall k | 0 <= k < p ensures code[k] != marker {
      assert code[k] == prefix[k];
    }
    assert code[p + 1..] == digits + rest;
    CaptureAt(code, marker, p);
    LeadingDigitsOfDigitsThen(digits, rest);
  }

  /** In a code S<digits>E<digits> the two captures are the two digit runs. */
  lemma CapturesOfCode(code: string, season: string, number: string)
    requires |season| > 0 && AllDigits(season) && |number| > 0 && AllDigits(number)
    requires code == ['S'] + season + ['E'] + number
    ensures Capture(code, 'S') == Some(season)
    ensures Capture(code, 'E') == Some(number)
  {
    assert code == [] + ['S'] + season + (['E'] + number);
    CaptureAfterPrefix([], 'S', season, ['E'] + number);
    var ePrefix := ['S'] + season;
    assert 'E' !in ePrefix;
    assert code == ePrefix + ['E'] + number + [];
    CaptureAfterPrefix(ePrefix, 'E', number, []);
  }

  /** Codes of the form S<digits>E<digits>: the season key is the first digit run,
      leading zeros kept, and the episode number is the value of the second. */
  lemma SeasonAndEpisodeOfCode(e: Episode, season: string, number: string)
    requires |season| > 0 && AllDigits(season) && |number| > 0 && AllDigits(number)
    requires e.episode == ['S'] + season + ['E'] + number
    ensures SeasonKey(e) == season
    ensures EpisodeNumber(e) == DigitsValue(number)
  {
    CapturesOfCode(e.episode, season, number);
    EpisodeNumberOfCapture(e);
  }

  /** The episodes of one season, in input order. */
  function OfSeason(episodes: seq<Episode>, season: string): seq<Episode>
  {
    if episodes == [] then []
    else
      var e := episodes[|episodes| - 1];
      OfSeason(episodes[..|episodes| - 1], season) + (if SeasonKey(e) == season then [e] else [])
  }

  /** The `reduce` accumulator after the episodes: each season key mapped to its
      episodes, each pushed onto the end of its season's list. */
  function Grouped(episodes: seq<Episode>): map<string, seq<Episode>>
  {
    if episodes == [] then map[]
    else
      var g := Grouped(episodes[..|episodes| - 1]);
      var e := episodes[|episodes| - 1];
      var season := SeasonKey(e);
      g[season := (if season in g then g[season] else []) + [e]]
  }

  /** The season keys in the order their first episode appears. */
  function SeasonOrder(episodes: seq<Episode>): seq<string>
  {
    if episodes == [] then []
    else
      var order := SeasonOrder(episodes[..|episodes| - 1]);
      var season := SeasonKey(episodes[|episodes| - 1]);
      if season in order then order else order + [season]
  }

  /** Distinct keys, exactly the keys of the accumulator. */
  lemma {:induction false} SeasonOrderKeys(episodes: seq<Episode>)
    ensures forall k :: k in SeasonOrder(episodes) <==> k in Grouped(episodes)
    ensures forall i, j :: 0 <= i < j < |SeasonOrder(episodes)| ==>
              SeasonOrder(episodes)[i] != SeasonOrder(episodes)[j]
  {
    if episodes != [] {
      SeasonOrderKeys(episodes[..|episodes| - 1]);
    }
  }

  /** Each group holds exactly the episodes of its season, in input order, and a
      season has a group exactly when one of its episodes occurs. */
  lemma {:induction false} GroupedIsOfSeason(episodes: seq<Episode>, season: string)
    ensures season in Grouped(episodes) ==> Grouped(episodes)[season] == OfSeason(episodes, season)
    ensures season in Grouped(episodes) <==> OfSeason(episodes, season) != []
  {
    if episodes != [] {
      GroupedIsOfSeason(episodes[..|episodes| - 1], season);
    }
  }

  /** The accumulator and the key order after one more episode. */
  lemma GroupStep(episodes: seq<Episode>, i: nat)
    requires i < |episodes|
    ensures var g := Grouped(episodes[..i]);
      var k := SeasonKey(episodes[i]);
      Grouped(episodes[..i + 1]) == g[k := (if k in g then g[k] else []) + [episodes[i]]]
    ensures var o := SeasonOrder(episodes[..i]);
      var k := SeasonKey(episodes[i]);
      SeasonOrder(episodes[..i + 1]) == if k in o then o else o + [k]
    ensures SeasonKey(episodes[i]) in SeasonOrder(episodes[..i]) <==> SeasonKey(episodes[i]) in Grouped(episodes[..i])
  {
    assert episodes[..i + 1][..i] == episodes[..i];
    SeasonOrderKeys(episodes[..i]);
  }

  /** The `reduce` callback: push the episode onto its season's list, creating the
      list first when the season is new. */
  method AddToSeason(groups: map<string, seq<Episode>>, order: seq<string>, episode: Episode)
    returns (groups': map<string, seq<Episode>>, order': seq<string>)
    requires SeasonKey(episode) in order <==> SeasonKey(episode) in groups
    ensures var k := SeasonKey(episode);
      groups' == groups[k := (if k in groups then groups[k] else []) + [episode]]
    ensures var k := SeasonKey(episode);
      order' == if k in order then order else order + [k]
  {
    groups', order' := groups, order;
    var season := SeasonKey(episode);
    if season !in groups' {
      groups' := groups'[season := []];
      order' := order' + [season];
      groups' := groups'[season := groups'[season] + [episode]];
      assert groups' == groups[season := [] + [episode]];
    } else {
      groups' := groups'[season := groups'[season] + [episode]];
    }
  }

  /** The grouping loop of the `reduce`. */
  method GroupBySeason(episodes: seq<Episode>) returns (groups: map<string, seq<Episode>>, order: seq<string>)
    ensures groups == Grouped(episodes)
    ensures order == SeasonOrder(episodes)
  {
    groups, order := map[], [];
    for i := 0 to |episodes|
      invariant groups == Grouped(episodes[..i])
      invariant order == SeasonOrder(episodes[..i])
    {
      GroupStep(episodes, i);
      groups, order := AddToSeason(groups, order, episodes[i]);
    }
    assert episodes[..|episodes|] == episodes;
  }

  /** A season with its episodes, as `Object.entries` yields it. */
  datatype SeasonGroup = SeasonGroup(season: string, episodes: seq<Episode>)

  function GroupSize(g: SeasonGroup): nat { |g.episodes| }

  /** The entries of the accumulator `g` for the keys `order`, in that order. */
  function EntriesOf(order: seq<string>, g: map<string, seq<Episode>>): (r: seq<SeasonGroup>)
    requires forall k :: k in order ==> k in g
    ensures |r| == |order|
    ensures forall i :: 0 <= i < |r| ==> r[i] == SeasonGroup(order[i], g[order[i]])
  {
    if order == [] then [] else [SeasonGroup(order[0], g[order[0]])] + EntriesOf(order[1..], g)
  }

  /** `Object.entries(episodesBySeason)`, keys in insertion order. */
  function Entries(episodes: seq<Episode>): seq<SeasonGroup>
  {
    SeasonOrderKeys(episodes);
    EntriesOf(SeasonOrder(episodes), Grouped(episodes))
  }

  lemma {:induction false} EntriesOfAppend(order: seq<string>, k: string, g: map<string, seq<Episode>>)
    requires forall x :: x in order + [k] ==> x in g
    ensures EntriesOf(order + [k], g) == EntriesOf(order, g) + [SeasonGroup(k, g[k])]
  {
  }

  lemma {:induction false} SumEntriesUnchanged(order: seq<string>, g: map<string, seq<Episode>>, k: string, v: seq<Episode>)
    requires forall x :: x in order ==> x in g
    requires k !in order
    ensures EntriesOf(order, g[k := v]) == EntriesOf(order, g)
  {
  }

  /** Two accumulators whose groups for `order` differ in size only at `k`, where
      the second holds one more episode. */
  lemma {:induction false} SumEntriesGrow(order: seq<string>, g: map<string, seq<Episode>>,
                                          g': map<string, seq<Episode>>, k: string)
    requires forall x :: x in order ==> x in g && x in g'
    requires forall x :: x in order && x != k ==> |g'[x]| == |g[x]|
    requires k in order && |g'[k]| == |g[k]| + 1
    requires forall i, j :: 0 <= i < j < |order| ==> order[i] != order[j]
    ensures SumBy(EntriesOf(order, g'), GroupSize) == SumBy(EntriesOf(order, g), GroupSize) + 1
  {
    assert EntriesOf(order, g')[1..] == EntriesOf(order[1..], g');
    assert EntriesOf(order, g)[1..] == EntriesOf(order[1..], g);
    if order[0] == k {
      assert k !in order[1..];
      SumEntriesSameSizes(order[1..], g, g');
    } else {
      SumEntriesGrow(order[1..], g, g', k);
    }
  }

  lemma {:induction false} SumEntriesSameSizes(order: seq<string>, g: map<string, seq<Episode>>,
                                               g': map<string, seq<Episode>>)
    requires forall x :: x in order ==> x in g && x in g' && |g'[x]| == |g[x]|
    ensures SumBy(EntriesOf(order, g'), GroupSize) == SumBy(EntriesOf(order, g), GroupSize)
  {
    if order != [] {
      assert EntriesOf(order, g')[1..] == EntriesOf(order[1..], g');
      assert EntriesOf(order, g)[1..] == EntriesOf(order[1..], g);
      SumEntriesSameSizes(order[1..], g, g');
    }
  }

  lemma SumEntriesNew(order: seq<string>, g: map<string, seq<Episode>>, season: string, e: Episode)
    requires forall k :: k in order ==> k in g
    requires season !in order
    ensures forall k :: k in order + [season] ==> k in g[season := [e]]
    ensures SumBy(EntriesOf(order + [season], g[season := [e]]), GroupSize) == SumBy(EntriesOf(order, g), GroupSize) + 1
  {
    var g' := g[season := [e]];
    SumEntriesUnchanged(order, g, season, [e]);
    EntriesOfAppend(order, season, g');
    SumByAppend(EntriesOf(order, g'), [SeasonGroup(season, [e])], GroupSize);
    assert SumBy([SeasonGroup(season, [e])], GroupSize) == 1;
  }

  /** Every episode lands in exactly one group: the group sizes add up to the
      number of episodes. */
  lemma {:induction false} GroupSizesSum(episodes: seq<Episode>)
    ensures SumBy(Entries(episodes), GroupSize) == |episodes|
  {
    if episodes != [] {
      var init := episodes[..|episodes| - 1];
      GroupSizesSum(init);
      SeasonOrderKeys(init);
      var e := episodes[|episodes| - 1];
      var season := SeasonKey(e);
      var g := Grouped(init);
      var order := SeasonOrder(init);
      if season in order {
        assert season in g;
        assert Grouped(episodes) == g[season := g[season] + [e]];
        assert SeasonOrder(episodes) == order;
        SumEntriesGrow(order, g, g[season := g[season] + [e]], season);
      } else {
        assert season !in g;
        assert [] + [e] == [e];
        assert Grouped(episodes) == g[season := [e]];
        assert SeasonOrder(episodes) == order + [season];
        SumEntriesNew(order, g, season, e);
      }
    }
  }

  /** `(a, b) => episodeA - episodeB` is positive. */
  function EpisodeGt(a: Episode, b: Episode): bool
  {
    EpisodeNumber(a) > EpisodeNumber(b)
  }

  /** `([a], [b]) => parseInt(a) - parseInt(b)` is positive; with a NaN operand the
      difference is NaN, which `sort` reads as "equal". */
  function SeasonGt(a: SeasonGroup, b: SeasonGroup): (r: bool)
    ensures r ==> a.season != b.season
    ensures a.season == "Unknown" || b.season == "Unknown" ==> !r
  {
    ParseIntNoDigits("Unknown");
    match (ParseInt(a.season), ParseInt(b.season))
    case (Finite(x), Finite(y)) => x > y
    case _ => false
  }

  /** The numeric season of a group whose key is a digit run. */
  function SeasonNumber(g: SeasonGroup): int
  {
    match ParseInt(g.season)
    case Finite(v) => v
    case NaN => 0
  }

  function SortSeasonEpisodes(g: SeasonGroup): SeasonGroup
  {
    SeasonGroup(g.season, SortBy(g.episodes, EpisodeGt))
  }

  /** What the component renders: the "No episodes found." message, or the season
      groups in season order, each with its episodes ordered. */
  datatype EpisodeListView = NoEpisodes | Seasons(groups: seq<SeasonGroup>)

  /** `.map(...)` over the sorted entries, each season's episodes sorted. */
  function SortEach(groups: seq<SeasonGroup>): (r: seq<SeasonGroup>)
    ensures |r| == |groups|
    ensures forall i :: 0 <= i < |r| ==> r[i] == SortSeasonEpisodes(groups[i])
  {
    if groups == [] then [] else [SortSeasonEpisodes(groups[0])] + SortEach(groups[1..])
  }

  function View(episodes: seq<Episode>): EpisodeListView
  {
    if episodes == [] then NoEpisodes
    else Seasons(SortEach(SortBy(Entries(episodes), SeasonGt)))
  }

  /** `seasonEpisodes.sort(...)` on a copy of one group's episodes. */
  method SortGroup(group: SeasonGroup) returns (sorted: SeasonGroup)
    ensures sorted == SortSeasonEpisodes(group)
  {
    var list := new Episode[|group.episodes|](k requires 0 <= k < |group.episodes| => group.episodes[k]);
    assert list[..] == group.episodes;
    InsertionSort(list, EpisodeGt);
    sorted := SeasonGroup(group.season, list[..]);
  }

  /** The entries of the grouping, sorted in place by season. */
  method SortedEntries(episodes: seq<Episode>) returns (sorted: seq<SeasonGroup>)
    ensures sorted == SortBy(Entries(episodes), SeasonGt)
  {
    var groups, order := GroupBySeason(episodes);
    SeasonOrderKeys(episodes);
    var entries := EntriesOf(order, groups);
    var seasons := new SeasonGroup[|entries|](i requires 0 <= i < |entries| => entries[i]);
    assert seasons[..] == entries;
    InsertionSort(seasons, SeasonGt);
    sorted := seasons[..];
  }

  /** The `.map(...)` over the sorted entries, sorting each group's episodes. */
  method SortGroups(sorted: seq<SeasonGroup>) returns (result: seq<SeasonGroup>)
    ensures result == SortEach(sorted)
  {
    result := [];
    for i := 0 to |sorted|
      invariant |result| == i
      invariant forall k :: 0 <= k < i ==> result[k] == SortSeasonEpisodes(sorted[k])
    {
      var group := SortGroup(sorted[i]);
      result := result + [group];
    }
  }

  /** The `EpisodeList` component: group, sort the entries by season, then sort
      each season's episodes. */
  method Render(episodes: seq<Episode>) returns (view: EpisodeListView)
    ensures view == View(episodes)
    ensures view.NoEpisodes? <==> |episodes| == 0
  {
    if |episodes| == 0 {
      return NoEpisodes;
    }
    var sorted := SortedEntries(episodes);
    var groups := SortGroups(sorted);
    view := Seasons(groups);
  }

  /** The view's groups: one per season key, each holding exactly that season's
      episodes sorted by episode number. */
  lemma ViewGroups(episodes: seq<Episode>)
    requires episodes != []
    ensures var gs := View(episodes).groups;
      && |gs| == |SeasonOrder(episodes)|
      && forall i :: 0 <= i < |gs| ==>
           && gs[i].season in Grouped(episodes)
           && gs[i].episodes == SortBy(OfSeason(episodes, gs[i].season), EpisodeGt)
  {
    var entries := Entries(episodes);
    var sorted := SortBy(entries, SeasonGt);
    SeasonOrderKeys(episodes);
    forall i | 0 <= i < |sorted|
      ensures sorted[i].season in Grouped(episodes)
      ensures sorted[i].episodes == OfSeason(episodes, sorted[i].season)
    {
      SortByMembers(entries, SeasonGt);
      assert sorted[i] in sorted;
      var p :| 0 <= p < |entries| && entries[p] == sorted[i];
      GroupedIsOfSeason(episodes, sorted[i].season);
    }
  }

  function SeasonOf(g: SeasonGroup): string { g.season }

  /** The seasons of the view's groups are a rearrangement of the distinct season
      keys of the input: every season gets exactly one group. */
  lemma ViewSeasonsArePermutation(episodes: seq<Episode>)
    requires episodes != []
    ensures multiset(MapSeq(View(episodes).groups, SeasonOf)) == multiset(SeasonOrder(episodes))
  {
    var entries := Entries(episodes);
    var sorted := SortBy(entries, SeasonGt);
    SeasonOrderKeys(episodes);
    assert MapSeq(View(episodes).groups, SeasonOf) == MapSeq(sorted, SeasonOf);
    assert MapSeq(entries, SeasonOf) == SeasonOrder(episodes);
    MapSeqSortBy(entries, SeasonGt, SeasonOf);
  }

  lemma {:induction false} SumOfSameSizes(a: seq<SeasonGroup>, b: seq<SeasonGroup>)
    requires |a| == |b| && forall i :: 0 <= i < |a| ==> GroupSize(a[i]) == GroupSize(b[i])
    ensures SumBy(a, GroupSize) == SumBy(b, GroupSize)
  {
    if a != [] {
      SumOfSameSizes(a[1..], b[1..]);
    }
  }

  /** The rendered groups hold every episode exactly once in total. */
  lemma ViewSizesSum(episodes: seq<Episode>)
    requires episodes != []
    ensures SumBy(View(episodes).groups, GroupSize) == |episodes|
  {
    var entries := Entries(episodes);
    var sorted := SortBy(entries, SeasonGt);
    SumOfSameSizes(View(episodes).groups, sorted);
    SumBySortBy(entries, SeasonGt, GroupSize);
    GroupSizesSum(episodes);
  }

  /** Within a season, episodes are ordered by episode number, and episodes with
      the same number keep their input order. */
  lemma ViewEpisodesOrdered(episodes: seq<Episode>, i: nat)
    requires episodes != [] && i < |View(episodes).groups|
    ensures var g := View(episodes).groups[i];
      && SortedBy(g.episodes, EpisodeNumber)
      && forall n :: WithKey(g.episodes, EpisodeNumber, n) == WithKey(OfSeason(episodes, g.season), EpisodeNumber, n)
  {
    ViewGroups(episodes);
    var g := View(episodes).groups[i];
    var input := OfSeason(episodes, g.season);
    assert Agrees(input, EpisodeGt, EpisodeNumber);
    SortBySorted(input, EpisodeGt, EpisodeNumber);
    forall n ensures WithKey(g.episodes, EpisodeNumber, n) == WithKey(input, EpisodeNumber, n) {
      SortByStable(input, EpisodeGt, EpisodeNumber, n);
    }
  }

  lemma {:induction false} OfSeasonMembers(episodes: seq<Episode>, season: string)
    ensures forall x :: x in OfSeason(episodes, season) ==> x in episodes && SeasonKey(x) == season
  {
    if episodes != [] {
      OfSeasonMembers(episodes[..|episodes| - 1], season);
    }
  }

  /** A season key that came from a captured `S` number parses to that number. */
  lemma EntrySeasonIsNumeric(episodes: seq<Episode>, a: SeasonGroup)
    requires forall e :: e in episodes ==> Capture(e.episode, 'S').Some?
    requires a in Entries(episodes)
    ensures ParseInt(a.season) == Finite(SeasonNumber(a))
  {
    SeasonOrderKeys(episodes);
    GroupedIsOfSeason(episodes, a.season);
    OfSeasonMembers(episodes, a.season);
    var x := OfSeason(episodes, a.season)[0];
    assert x in OfSeason(episodes, a.season);
    ParseIntOfDigitsThen(a.season, "");
    assert a.season + "" == a.season;
  }

  /** When every code carries a season number, the season groups come out in
      ascending numeric order. */
  lemma ViewSeasonsAscending(episodes: seq<Episode>)
    requires episodes != []
    requires forall e :: e in episodes ==> Capture(e.episode, 'S').Some?
    ensures SortedBy(View(episodes).groups, SeasonNumber)
  {
    var entries := Entries(episodes);
    forall a | a in entries ensures ParseInt(a.season) == Finite(SeasonNumber(a)) {
      EntrySeasonIsNumeric(episodes, a);
    }
    assert Agrees(entries, SeasonGt, SeasonNumber);
    SortBySorted(entries, SeasonGt, SeasonNumber);
  }

}
