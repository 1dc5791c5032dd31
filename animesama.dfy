/** The reference extension bundled with the application: a class whose
    catalogue methods return fixture data. The artificial delays before each
    answer are not modelled; every method answers with its value directly. */
module AnimeSama {
  import opened Wrappers
  import opened Strings

  /** A catalogue entry (the floating-point rating is not modelled). */
  datatype AnimeItem = AnimeItem(
    id: string,
    title: string,
    url: string,
    thumbnail: string,
    description: string,
    genres: seq<string>,
    status: string,
    year: int)

  datatype Episode = Episode(
    id: string,
    animeId: string,
    title: string,
    url: string,
    number: int,
    season: int)

  datatype VideoSource = VideoSource(
    url: string,
    quality: string,
    language: string,
    headers: map<string, string>)

  const CatalogueUrl: string := "https://anime-sama.fr/catalogue/"

  const EpisodeCount: nat := 12

  /** The two entries `search` filters. */
  const SearchFixtures: seq<AnimeItem> := [
    AnimeItem(
      "naruto-1", "Naruto", "https://anime-sama.fr/catalogue/naruto",
      "https://cdn.myanimelist.net/images/anime/13/17405.jpg",
      "L'histoire de Naruto Uzumaki, un jeune ninja...",
      ["Action", "Aventure", "Arts martiaux"], "completed", 2002),
    AnimeItem(
      "naruto-shippuden-1", "Naruto Shippuden", "https://anime-sama.fr/catalogue/naruto-shippuden",
      "https://cdn.myanimelist.net/images/anime/1565/111305.jpg",
      "Suite de Naruto, Naruto est maintenant adolescent...",
      ["Action", "Aventure", "Arts martiaux"], "completed", 2007)
  ]

  /** The two entries `getPopular` returns. */
  const PopularFixtures: seq<AnimeItem> := [
    AnimeItem(
      "demon-slayer-1", "Demon Slayer", "https://anime-sama.fr/catalogue/demon-slayer",
      "https://cdn.myanimelist.net/images/anime/1286/99889.jpg",
      "L'histoire de Tanjiro Kamado...",
      ["Action", "Surnaturel"], "completed", 2019),
    AnimeItem(
      "attack-on-titan-1", "L'Attaque des Titans", "https://anime-sama.fr/catalogue/attack-on-titan",
      "https://cdn.myanimelist.net/images/anime/10/47347.jpg",
      "Dans un monde où l'humanité vit derrière des murs...",
      ["Action", "Drame"], "completed", 2013)
  ]

  /** The one entry `getLatest` returns. */
  const LatestFixtures: seq<AnimeItem> := [
    AnimeItem(
      "chainsaw-man-1", "Chainsaw Man", "https://anime-sama.fr/catalogue/chainsaw-man",
      "https://cdn.myanimelist.net/images/anime/1806/126216.jpg",
      "Denji est un jeune homme pauvre...",
      ["Action", "Surnaturel"], "completed", 2022)
  ]

  // ---------------------------------------------------------------------------
  // The search filter

  /** The filter's test: the lower-cased title contains the lower-cased query. */
  predicate TitleMatches(item: AnimeItem, query: string) {
    Includes(ToLower(item.title), ToLower(query))
  }

  /** `r` is `s` with some elements dropped, the rest in their original order. */
  predicate IsSubsequence<T(==)>(r: seq<T>, s: seq<T>)
    decreases |s|
  {
    if r == [] then true
    else if s == [] then false
    else if r[0] == s[0] then IsSubsequence(r[1..], s[1..])
    else IsSubsequence(r, s[1..])
  }

  /** `items.filter(anime => TitleMatches(anime, query))`: in order, every
      matching element as often as it occurs, and nothing else. */
  function FilterByTitle(items: seq<AnimeItem>, query: string): (r: seq<AnimeItem>)
    ensures IsSubsequence(r, items)
    ensures forall x :: x in r <==> x in items && TitleMatches(x, query)
    ensures forall x :: multiset(r)[x] == if TitleMatches(x, query) then multiset(items)[x] else 0
  {
    if items == [] then []
    else
      var rest := FilterByTitle(items[1..], query);
      assert items == [items[0]] + items[1..];
      if TitleMatches(items[0], query) then
        assert ([items[0]] + rest)[1..] == rest;
        [items[0]] + rest
      else
        assert rest != [] ==> TitleMatches(rest[0], query);
        rest
  }

  /** The empty query matches every title, so the filter keeps everything. */
  lemma {:induction false} FilterByEmptyQuery(items: seq<AnimeItem>)
    ensures FilterByTitle(items, "") == items
  {
    if items != [] {
      assert StartsWith(ToLower(items[0].title), ToLower(""));
      FilterByEmptyQuery(items[1..]);
    }
  }

  // ---------------------------------------------------------------------------
  // The episode list

  /** `${animeId}-episode-${n}`. */
  function EpisodeId(animeId: string, n: nat): string {
    animeId + "-episode-" + NatToString(n)
  }

  /** `JSON.stringify` of the two player addresses of episode `n`. */
  function PlayerUrls(n: nat): string {
    "[[\"https://vostfr-player.example.com/episode-" + NatToString(n) + "\"],"
      + "[\"https://vf-player.example.com/episode-" + NatToString(n) + "\"]]"
  }

  /** The episode number can be read back from the end of an episode id. */
  lemma EpisodeNumberFromId(animeId: string, n: nat)
    ensures |EpisodeId(animeId, n)| > |animeId| + 9
    ensures var tail := EpisodeId(animeId, n)[|animeId| + 9..];
      (forall i :: 0 <= i < |tail| ==> '0' <= tail[i] <= '9') && ParseNat(tail) == n
  {
    assert EpisodeId(animeId, n)[|animeId| + 9..] == NatToString(n);
    ParseNatToString(n);
  }

  /** Two different episodes of one anime never share an id. */
  lemma EpisodeIdsDistinct(animeId: string, m: nat, n: nat)
    requires m != n
    ensures EpisodeId(animeId, m) != EpisodeId(animeId, n)
  {
    EpisodeNumberFromId(animeId, m);
    EpisodeNumberFromId(animeId, n);
  }

  // ---------------------------------------------------------------------------
  // The extension class

  class AnimeSamaExtension {
    const id: string
    const name: string
    const version: string
    const baseUrl: string
    const lang: string

    constructor ()
      ensures id == "animesama" && name == "Anime-Sama" && version == "1.0.0"
      ensures baseUrl == "https://anime-sama.fr" && lang == "fr"
    {
      id := "animesama";
      name := "Anime-Sama";
      version := "1.0.0";
      baseUrl := "https://anime-sama.fr";
      lang := "fr";
    }

    /** `search(query, filters)`; the filters, of any type, are accepted and ignored. */
    function Search<F>(query: string, filters: F): (r: seq<AnimeItem>)
      ensures IsSubsequence(r, SearchFixtures)
      ensures forall x :: x in r <==> x in SearchFixtures && TitleMatches(x, query)
    {
      FilterByTitle(SearchFixtures, query)
    }

    /** `getPopular(page)`: the same two entries whatever the page. */
    function GetPopular(page: int): (r: seq<AnimeItem>)
      ensures |r| == 2 && r[0].id == "demon-slayer-1" && r[1].id == "attack-on-titan-1"
    {
      PopularFixtures
    }

    /** `getLatest(page)`: the same single entry whatever the page. */
    function GetLatest(page: int): (r: seq<AnimeItem>)
      ensures |r| == 1 && r[0].id == "chainsaw-man-1"
    {
      LatestFixtures
    }

    /** `getAnimeDetails(animeId)`: a demonstration record for the requested id. */
    function GetAnimeDetails(animeId: string): (r: AnimeItem)
      ensures r.id == animeId
      ensures r.url == CatalogueUrl + animeId && r.url[|CatalogueUrl|..] == animeId
    {
      var r := AnimeItem(
        animeId, "Anime de démonstration", CatalogueUrl + animeId,
        "https://cdn.myanimelist.net/images/anime/1286/99889.jpg",
        "Description détaillée de l'anime...",
        ["Action", "Aventure"], "completed", 2020);
      assert r.url[|CatalogueUrl|..] == animeId;
      r
    }

    /** `getEpisodeList(animeId)`: twelve episodes of season 1, numbered from 1. */
    method GetEpisodeList(animeId: string) returns (episodes: seq<Episode>)
      ensures |episodes| == EpisodeCount
      ensures forall k :: 0 <= k < |episodes| ==>
        && episodes[k].number == k + 1
        && episodes[k].season == 1
        && episodes[k].title == "Episode " + NatToString(k + 1)
        && episodes[k].id == EpisodeId(animeId, k + 1)
        && episodes[k].animeId == animeId
        && episodes[k].url == PlayerUrls(k + 1)
    {
      episodes := [];
      for i := 1 to EpisodeCount + 1
        invariant |episodes| == i - 1
        invariant forall k :: 0 <= k < |episodes| ==>
          && episodes[k].number == k + 1
          && episodes[k].season == 1
          && episodes[k].title == "Episode " + NatToString(k + 1)
          && episodes[k].id == EpisodeId(animeId, k + 1)
          && episodes[k].animeId == animeId
          && episodes[k].url == PlayerUrls(k + 1)
      {
        episodes := episodes + [Episode(EpisodeId(animeId, i), animeId, "Episode " + NatToString(i), PlayerUrls(i), i, 1)];
      }
    }

    /** `getVideoSources(episodeUrl)`: a subtitled and a dubbed 720p stream,
        each sent with this extension's base URL as referrer. */
    function GetVideoSources(episodeUrl: string): (r: seq<VideoSource>)
      ensures |r| == 2
      ensures r[0].language == "vostfr" && r[1].language == "vf"
      ensures forall v :: v in r ==> v.quality == "720p" && v.headers == map["Referer" := baseUrl]
    {
      [
        VideoSource("https://mock-vostfr-720p.example.com/stream.m3u8", "720p", "vostfr", map["Referer" := baseUrl]),
        VideoSource("https://mock-vf-720p.example.com/stream.m3u8", "720p", "vf", map["Referer" := baseUrl])
      ]
    }
  }

  lemma LongTitleMatchesShippuden()
    ensures TitleMatches(SearchFixtures[1], "Shippuden")
  {
    assert SearchFixtures[1].title == "Naruto " + "Shippuden";
    ToLowerAppend("Naruto ", "Shippuden");
    IncludesSuffix(ToLower("Naruto "), ToLower("Shippuden"));
  }

  lemma ShortTitleMissesShippuden()
    ensures !TitleMatches(SearchFixtures[0], "Shippuden")
  {
    var t0 := ToLower(SearchFixtures[0].title);
    assert |t0| == 6;
    IncludesIffOccurs(t0, ToLower("Shippuden"));
  }

  /** A query found only in the longer title selects that entry alone,
      whatever the filters. */
  lemma SearchShippuden<F>(e: AnimeSamaExtension, filters: F)
    ensures e.Search("Shippuden", filters) == [SearchFixtures[1]]
  {
    LongTitleMatchesShippuden();
    ShortTitleMissesShippuden();
    var r := e.Search("Shippuden", filters);
    var f := SearchFixtures;
    assert f[0] != f[1];
    assert multiset(f)[f[1]] == 1;
    assert multiset(r)[f[1]] == 1;
    assert forall x :: x in r ==> x == f[1];
    assert |r| == 1;
  }
}
