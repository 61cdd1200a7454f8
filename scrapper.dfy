/**
 * src/core/scrapper/mod.rs: the generic extraction engine. A scrapper holds a
 * regex; scraping a text hands the regex's capture matches to the record
 * type's `from_captures`, and scraping a page first fetches its text.
 *
 * The regex engine itself is an oracle: `CaptureEngine(regex, text)` is the
 * sequence of matches `captures_iter` yields, each match being its capture
 * groups with index 0 the whole match.
 */
module Scrapper {
  import opened Wrappers
  import opened HttpFetch

  /** One regex match: its capture groups, group 0 being the whole match. */
  type Match = seq<string>

  /** A regex, given by its pattern text. */
  type Regex = string

  /** `regex.captures_iter(text)`, in document order. */
  type CaptureEngine = (Regex, string) -> seq<Match>

  /** Every match has at least `n` groups (counting group 0). */
  predicate AllHaveGroups(ms: seq<Match>, n: nat) {
    forall i :: 0 <= i < |ms| ==> |ms[i]| >= n
  }

  /**
   * `capture.map(f).collect()`: one record per match, in match order.
   */
  function MapMatches<T>(ms: seq<Match>, f: Match --> T): (r: seq<T>)
    requires forall i :: 0 <= i < |ms| ==> f.requires(ms[i])
    ensures |r| == |ms|
    ensures forall i :: 0 <= i < |ms| ==> r[i] == f(ms[i])
  {
    if ms == [] then [] else [f(ms[0])] + MapMatches(ms[1..], f)
  }

  /** `HttpScrapper<T>`; the record type is the `fromCaptures` passed to each scrape. */
  datatype HttpScrapper = HttpScrapper(innerRegex: Regex)

  /** `HttpScrapper::new` keeps the regex it is given. */
  function New(innerRegex: Regex): (s: HttpScrapper)
    ensures s.innerRegex == innerRegex
  {
    HttpScrapper(innerRegex)
  }

  /** `fetch_raw_data`: one GET of the URI, then its text. */
  function FetchRawData(s: HttpScrapper, web: Web, uri: string): (r: Result<string, FetchError>)
    ensures r.Ok? <==> web(uri).Some? && web(uri).value.body.Some?
    ensures r.Ok? ==> r.value == web(uri).value.body.value
  {
    GetText(web, uri)
  }

  /**
   * `scrap_raw_data`: never fails; the records are exactly what `fromCaptures`
   * builds from the matches of the scrapper's own regex in `data`.
   */
  function ScrapRawData<T>(s: HttpScrapper, engine: CaptureEngine,
                           fromCaptures: seq<Match> --> seq<T>, data: string): (r: Result<seq<T>, FetchError>)
    requires fromCaptures.requires(engine(s.innerRegex, data))
    ensures r.Ok? && r.value == fromCaptures(engine(s.innerRegex, data))
  {
    var matches := engine(s.innerRegex, data);
    Ok(fromCaptures(matches))
  }

  /**
   * `scrap_page`: fails exactly when the fetch fails, with the fetch's error;
   * otherwise it is `scrap_raw_data` of the fetched text.
   */
  function ScrapPage<T>(s: HttpScrapper, web: Web, engine: CaptureEngine,
                        fromCaptures: seq<Match> --> seq<T>, uri: string): (r: Result<seq<T>, FetchError>)
    requires GetText(web, uri).Ok? ==> fromCaptures.requires(engine(s.innerRegex, GetText(web, uri).value))
    ensures r.Err? <==> GetText(web, uri).Err?
    ensures r.Err? ==> r.error == GetText(web, uri).error
    ensures r.Ok? ==> r == ScrapRawData(s, engine, fromCaptures, GetText(web, uri).value)
  {
    match FetchRawData(s, web, uri)
    case Err(e) => Err(e)
    case Ok(rawData) => ScrapRawData(s, engine, fromCaptures, rawData)
  }

  /** The record type of the module's own tests: the whole match of each match. */
  datatype FullMatch = FullMatch(data: string)

  function FullMatchFromCaptures(ms: seq<Match>): (r: seq<FullMatch>)
    requires AllHaveGroups(ms, 1)
    ensures |r| == |ms|
    ensures forall i :: 0 <= i < |ms| ==> r[i] == FullMatch(ms[i][0])
  {
    MapMatches(ms, (m: Match) requires |m| >= 1 => FullMatch(m[0]))
  }

  /**
   * The `scrapes_page` test as a property: whatever page is fetched, a record
   * holds a text iff some match of the regex has that text as its whole match.
   */
  lemma ScrapedPageContainsMatch(s: HttpScrapper, web: Web, engine: CaptureEngine, uri: string, text: string)
    requires GetText(web, uri).Ok?
    requires AllHaveGroups(engine(s.innerRegex, GetText(web, uri).value), 1)
    ensures var r := ScrapPage(s, web, engine, FullMatchFromCaptures, uri);
            var ms := engine(s.innerRegex, GetText(web, uri).value);
            r.Ok? && (FullMatch(text) in r.value <==> exists i :: 0 <= i < |ms| && ms[i][0] == text)
  {
    var ms := engine(s.innerRegex, GetText(web, uri).value);
    var r := ScrapPage(s, web, engine, FullMatchFromCaptures, uri);
    assert r.value == FullMatchFromCaptures(ms);
    if FullMatch(text) in r.value {
      var i :| 0 <= i < |r.value| && r.value[i] == FullMatch(text);
      assert ms[i][0] == text;
    }
  }
}
