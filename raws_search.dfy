/**
 * src/raws/search.rs: searching the raw-release site. The query URL embeds the
 * title verbatim; every match of the magnet pattern becomes an `AnimeRawData`
 * holding the release title (group 2) and its magnet link (group 3).
 */
module RawsSearch {
  import opened Wrappers
  import opened HttpFetch
  import opened Scrapper

  /** Declared beside the record type; `from_captures` never produces it. */
  datatype ResponseParsingError = RegexCaptureCountMismatch(expected: nat, actual: nat)

  datatype AnimeRawData = AnimeRawData(animeName: string, animeRawMagnet: string)

  const QUERY_PREFIX: string := "https://nyaa.si/?f=0&c=1_4&q="
  const QUERY_SUFFIX: string := "&s=seeders&o=desc"

  /** The listing-row pattern: view path, title, magnet link, seeders. */
  const MAGNET_REGEX: Regex := @"(?m)href=""(/view/[^""]+?)"" title=""([^""]+?)""(?:.|[\n\r ])+?(magnet:[^""]+)(?:.|[\n\r ])+?text-center(?:.|[\n\r ])+?text-center(?:.|[\n\r ])+?text-center"">(\d+)"

  /**
   * `create_anime_raw_query_url!`: the title is inserted verbatim (not
   * URL-encoded) between a fixed prefix and suffix, so it can be read back.
   */
  function QueryUrl(animeName: string): (url: string)
    ensures |url| == |QUERY_PREFIX| + |animeName| + |QUERY_SUFFIX|
    ensures url[..|QUERY_PREFIX|] == QUERY_PREFIX
    ensures url[|url| - |QUERY_SUFFIX|..] == QUERY_SUFFIX
    ensures url[|QUERY_PREFIX|..|url| - |QUERY_SUFFIX|] == animeName
  {
    QUERY_PREFIX + animeName + QUERY_SUFFIX
  }

  /** Different titles give different query URLs. */
  lemma QueryUrlInjective(a: string, b: string)
    requires QueryUrl(a) == QueryUrl(b)
    ensures a == b
  {
    var ua, ub := QueryUrl(a), QueryUrl(b);
    assert a == ua[|QUERY_PREFIX|..|ua| - |QUERY_SUFFIX|];
    assert b == ub[|QUERY_PREFIX|..|ub| - |QUERY_SUFFIX|];
  }

  /** The record of one match; the view path (group 1) and seeders (group 4) are dropped. */
  function RawDataOf(m: Match): AnimeRawData
    requires |m| >= 4
  {
    AnimeRawData(m[2], m[3])
  }

  /**
   * `AnimeRawData::from_captures`: one record per match, in match order. It
   * indexes groups 2 and 3 without checking the capture count, so every match
   * must have them.
   */
  function FromCaptures(ms: seq<Match>): (r: seq<AnimeRawData>)
    requires AllHaveGroups(ms, 4)
    ensures |r| == |ms|
    ensures forall i :: 0 <= i < |ms| ==> r[i].animeName == ms[i][2] && r[i].animeRawMagnet == ms[i][3]
  {
    MapMatches(ms, RawDataOf)
  }

  /**
   * `search_anime_raws`: `scrap_page` of the query URL with the magnet pattern.
   * Fails exactly when fetching the result page fails; otherwise one record per
   * match of the pattern in the page.
   */
  function SearchAnimeRaws(animeName: string, web: Web, engine: CaptureEngine): (r: Result<seq<AnimeRawData>, FetchError>)
    requires GetText(web, QueryUrl(animeName)).Ok? ==>
               AllHaveGroups(engine(MAGNET_REGEX, GetText(web, QueryUrl(animeName)).value), 4)
    ensures r.Err? <==> GetText(web, QueryUrl(animeName)).Err?
    ensures r.Err? ==> r.error == GetText(web, QueryUrl(animeName)).error
    ensures r.Ok? ==> r.value == FromCaptures(engine(MAGNET_REGEX, GetText(web, QueryUrl(animeName)).value))
  {
    var scrapper := Scrapper.New(MAGNET_REGEX);
    ScrapPage(scrapper, web, engine, FromCaptures, QueryUrl(animeName))
  }

  /**
   * The `test_response` sample: the first record of a page whose first match has
   * the given title and magnet link carries exactly that title and magnet link.
   */
  lemma FirstRecordOfSample(page: string, engine: CaptureEngine, whole: string, view: string, title: string,
                            magnet: string, seeders: string)
    requires |engine(MAGNET_REGEX, page)| > 0
    requires engine(MAGNET_REGEX, page)[0] == [whole, view, title, magnet, seeders]
    requires AllHaveGroups(engine(MAGNET_REGEX, page), 4)
    ensures var r := ScrapRawData(Scrapper.New(MAGNET_REGEX), engine, FromCaptures, page);
            r.Ok? && |r.value| > 0 && r.value[0] == AnimeRawData(title, magnet)
  {
  }
}
