/**
 * anime_search.py: the episode search on the nyaa.si listing. `_get` fetches
 * the listing for an anime name and `_parse` turns every row matched by the
 * listing pattern into an `EpisodeDownloadInfo`.
 *
 * `re.findall` of the listing pattern yields one 4-tuple per row: the view
 * path, the title, the magnet link and the seeder count (a `\d+` group). The
 * regex engine is the `ListingFinder` parameter, which returns those tuples.
 */
module AnimeSearch {
  import opened Wrappers
  import opened TextUtil
  import opened HttpFetch
  import opened AnimeInfo

  const PREFIX: string := "https://nyaa.si/?f=0&c=1_4&s=seeders&o=desc&q="

  /** One `findall` tuple of the listing pattern. */
  datatype ListingTuple = ListingTuple(viewPath: string, title: string, magnet: string, seeders: string)

  /** The regex engine: `re.findall` of the listing pattern over a page. */
  type ListingFinder = string -> seq<ListingTuple>

  /** What the pattern guarantees of every tuple: the seeder group is all digits. */
  predicate WellFormedRows(rows: seq<ListingTuple>) {
    forall i :: 0 <= i < |rows| ==> IsDecimal(rows[i].seeders)
  }

  /** The URL `_get` requests: the anime name appended verbatim. */
  function SearchUrl(anime: string): (url: string)
    ensures |url| == |PREFIX| + |anime|
    ensures url[..|PREFIX|] == PREFIX && url[|PREFIX|..] == anime
  {
    PREFIX + anime
  }

  /** Different anime names give different URLs. */
  lemma SearchUrlInjective(a: string, b: string)
    requires SearchUrl(a) == SearchUrl(b)
    ensures a == b
  {
    assert a == SearchUrl(a)[|PREFIX|..];
  }

  /** The episode a listing row describes, before any tag is assigned. */
  function EpisodeOfRow(anime: string, row: ListingTuple): EpisodeDownloadInfo
    requires IsDecimal(row.seeders)
  {
    EpisodeDownloadInfo(anime, row.title, row.magnet, DecimalValue(row.seeders), None)
  }

  /**
   * `_parse`: one episode per row, in row order, carrying the searched anime
   * name, the title as remote file name, the magnet link, the seeder count and
   * no tag; the view path is dropped.
   */
  function Parse(anime: string, rows: seq<ListingTuple>): (r: seq<EpisodeDownloadInfo>)
    requires WellFormedRows(rows)
    ensures |r| == |rows|
    ensures forall i :: 0 <= i < |rows| ==> r[i] == EpisodeOfRow(anime, rows[i])
  {
    if rows == [] then []
    else
      assert IsDecimal(rows[0].seeders);
      [EpisodeOfRow(anime, rows[0])] + Parse(anime, rows[1..])
  }

  /** Parsing two runs of rows is parsing each run and concatenating. */
  lemma {:induction false} ParseConcat(anime: string, a: seq<ListingTuple>, b: seq<ListingTuple>)
    requires WellFormedRows(a) && WellFormedRows(b)
    ensures WellFormedRows(a + b)
    ensures Parse(anime, a + b) == Parse(anime, a) + Parse(anime, b)
  {
    assert forall i :: 0 <= i < |a + b| ==> (a + b)[i] == if i < |a| then a[i] else b[i - |a|];
  }

  /**
   * Every parsed episode carries a row's title, magnet and seeder count: a page
   * that shows `n` seeders as digits yields `seeders == n`.
   */
  lemma ParsedSeeders(anime: string, title: string, magnet: string, view: string, n: nat)
    ensures var row := ListingTuple(view, title, magnet, NatToString(n));
            WellFormedRows([row]) &&
            Parse(anime, [row]) == [EpisodeDownloadInfo(anime, title, magnet, n, None)]
  {
    DecimalRoundTrip(n);
  }

  /**
   * `search`: the listing page for the anime, parsed. A failed request or an
   * unreadable body is an error (the source lets it propagate as an exception).
   */
  function Search(anime: string, web: Web, finder: ListingFinder): (r: Result<seq<EpisodeDownloadInfo>, FetchError>)
    requires GetText(web, SearchUrl(anime)).Ok? ==> WellFormedRows(finder(GetText(web, SearchUrl(anime)).value))
    ensures r.Err? <==> GetText(web, SearchUrl(anime)).Err?
    ensures r.Err? ==> r.error == GetText(web, SearchUrl(anime)).error
    ensures r.Ok? ==> |r.value| == |finder(GetText(web, SearchUrl(anime)).value)|
    ensures r.Ok? ==> forall e :: e in r.value ==> e.anime == anime && e.tag == None
    ensures r.Ok? ==> r.value == Parse(anime, finder(GetText(web, SearchUrl(anime)).value))
  {
    match GetText(web, SearchUrl(anime))
    case Err(e) => Err(e)
    case Ok(page) => Ok(Parse(anime, finder(page)))
  }
}
