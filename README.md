# anime-jp core, modelled in Dafny

anime-jp finds Japanese anime releases and subtitles and downloads them. This
project models the core of its Rust crate and of its Python prototype:

- **Subtitle indexers** (`src/subs/search.rs`): the kitsunekko directory listing
  is turned into `AnimeIndexer`s. The indexers are then ranked against a query:
  - an exact case-insensitive title match scores `i64::MAX`;
  - every other title gets the fuzzy score;
  - each score is reduced by the title length difference;
  - unmatched titles are dropped;
  - the rest come out in descending score order.
- **Page scraping** (`src/core/scrapper/mod.rs`, `src/raws/search.rs`): a page is
  fetched and every regex match is turned into a record. For raw releases the
  records are `AnimeRawData` (title and magnet link).
- **qBittorrent** (`src/qbittorrent/api/torrents.rs`, `client.rs`,
  `downloader.rs`): the `torrents/add` and `torrents/info` requests, and the
  polling loop that waits until no torrent is unfinished.
- **HTTP downloads** (`src/core/download/http.rs`) and **subtitle saving**
  (`src/subs/save.rs`).
- **Python prototype**:
  - `anime_info.py`: the episode tag of a file name, and the sorted and filtered
    episode group;
  - `anime_search.py`: parsing the nyaa.si listing;
  - `main.py`, function `b`: the episode list and the per-episode download cap.

Foreign code is modelled as function parameters (oracles):

- The regex engine: a Rust `captures_iter` becomes a sequence of capture-group
  sequences (index 0 is the whole match). A Python `findall` becomes a sequence
  of tuples holding exactly the pattern's groups.
- The fuzzy matcher: a function from (candidate, query) to an optional score.
- The network: a function from URI (or request) to an optional response.
- JSON decoding: a function from text to an optional torrent list.
- The answers of successive `torrents/info` polls: a finite sequence.

State that the source changes in place is modelled as classes:

- `HttpFetch.Network` logs the URIs it was asked for.
- `SubsSave.FileSystem` holds the files and directories.

The loops of the source are methods. Each is proved against a specification
function, and the properties the source promises are lemmas about those
functions.

Two behaviours of the code are worth stating outright, and the model follows
them:

- `download_indexers` stops at the first failed download and returns that error.
  It does not collect one result per indexer.
- Every downloader ignores its `Destination` argument. Nothing resolves a
  destination folder, and no existing file is skipped.

## Model

| member | source | states |
|---|---|---|
| TextUtil.ToLower | src/subs/search.rs:64-67 | lowercasing keeps the length and lowercases every ASCII letter in place |
| TextUtil.DecimalRoundTrip | anime_search.py:26 | parsing the decimal rendering of any natural gives the natural back |
| HttpFetch.GetText | src/core/download/http.rs:16-30 | a fetch succeeds exactly when a response arrives and its body reads; its value is the body; it fails with `RequestFailed` exactly when nothing arrives |
| HttpFetch.GetTextIgnoresStatus | src/core/download/http.rs:18-29 | an error status with a readable body still yields that body |
| HttpFetch.Network.Get | src/core/download/http.rs:18-21 | a GET appends its URI to the request log and returns the fetch result |
| CoreIndexer.New | src/core/indexer.rs:8-13 | the accessors of a new indexer return its name and URI |
| CoreIndexer.IndexerEquality | src/core/indexer.rs:1-5 | two indexers are equal exactly when their names and URIs are |
| Scrapper.MapMatches | src/raws/search.rs:43-53 | one record per match, in match order, each built from its own match |
| Scrapper.New | src/core/scrapper/mod.rs:12-17 | the scrapper keeps the regex it was built with |
| Scrapper.FetchRawData | src/core/scrapper/mod.rs:19-23 | the raw data is the page body, and fetching fails exactly when the request or the body read does |
| Scrapper.ScrapRawData | src/core/scrapper/mod.rs:25-29 | scraping text never fails and yields the records of the regex's matches |
| Scrapper.ScrapPage | src/core/scrapper/mod.rs:31-35 | scraping a page fails exactly when fetching fails, with the same error; otherwise it is scraping the fetched text |
| Scrapper.FullMatchFromCaptures | src/core/scrapper/mod.rs:54-59 | one `FullMatch` per match, holding the whole matched text |
| Scrapper.ScrapedPageContainsMatch | src/core/scrapper/mod.rs:70-76 | a scraped page contains `FullMatch(t)` exactly when some match of the regex is `t` |
| SubsSearch.FetchIndexers | src/subs/search.rs:29-55 | the listing yields indexers exactly when every capture has 3 groups, each built as name = group 2 and url = site root + group 1, in order; otherwise the first bad capture gives `RegexCaptureCountMismatch(3, its group count)` |
| SubsSearch.QueueContents | src/subs/search.rs:63-78 | the queue holds exactly the candidates that got a score, each with its score |
| SubsSearch.MaxKey | src/subs/search.rs:80 | the chosen entry is in the queue and no entry has a higher priority |
| SubsSearch.IntoSortedVec | src/subs/search.rs:80 | the output lists every queued item once, in non-increasing priority |
| SubsSearch.FuzzyMatchIndexers | src/subs/search.rs:57-81 | the output is a ranking: exactly the scored candidates, each once, in non-increasing order of score, where the score is `i64::MAX` for an exact case-insensitive title match and the fuzzy score otherwise, minus the title length difference |
| SubsSearch.FetchBestIndexersFor | src/subs/search.rs:83-89 | fails exactly when the listing is malformed, with `RegexCaptureCountMismatch(3, n)` for the first bad match of n groups; otherwise returns the ranking of the fetched indexers |
| SubsSearch.ExactMatchScoresHighest | src/subs/search.rs:64-73 | an exact title match scores `i64::MAX`, and any other scored candidate scores less |
| SubsSearch.ExactMatchRanksFirst | src/subs/search.rs:64-80 | in any ranking, exact title matches come before all other candidates |
| SubsSearch.CloserLengthRanksFirst | src/subs/search.rs:72-74 | between two equal fuzzy scores, the title whose length is closer to the query's ranks first |
| SubsSearch.UnmatchedCandidateDropped | src/subs/search.rs:67-76 | a candidate the fuzzy matcher rejects and that is not an exact match is not in the ranking |
| SubsSearch.TwoCandidateRanking | src/subs/search.rs:70-80 | with two scored candidates, the higher-scoring one comes first |
| SubsSearch.OneCandidateRanking | src/subs/search.rs:70-76 | with one of two candidates unscored, the ranking is the scored one alone |
| SubsSearch.LengthMismatchNotExact | src/subs/search.rs:64 | titles of a different length than the query are never exact matches |
| SubsSearch.RankExactTitle | src/subs/search.rs:127-134 | querying "Bocchi the Rock!" ranks "Bocchi the Rock!" before "Bocchi the Rock! 2" |
| SubsSearch.RankEqualScores | src/subs/search.rs:145-151 | querying "Bocchi" with equal fuzzy scores ranks the shorter title first |
| SubsSearch.RankRejectsUnmatched | src/subs/search.rs:154-159 | querying "Bocchi 2" keeps only the title the matcher accepts |
| RawsSearch.QueryUrl | src/raws/search.rs:8-15 | the query URL is the fixed prefix, the anime name verbatim, then the fixed suffix |
| RawsSearch.QueryUrlInjective | src/raws/search.rs:8-15 | different anime names give different query URLs |
| RawsSearch.FromCaptures | src/raws/search.rs:39-54 | one record per match, in order, with title = group 2 and magnet = group 3 |
| RawsSearch.SearchAnimeRaws | src/raws/search.rs:57-61 | the search fails exactly when fetching the query URL fails, with that fetch error; otherwise it yields the records of the page's matches |
| RawsSearch.FirstRecordOfSample | src/raws/search.rs:86-121 | the first match of a listing row gives a record with that row's title and magnet link |
| QbtTorrents.FinishedOnlyByState | src/qbittorrent/api/torrents.rs:19-21 | a torrent is finished exactly when its state is "uploading", whatever its other fields, and the comparison is case-sensitive |
| QbtTorrents.FormatEndpoint | src/qbittorrent/api/torrents.rs:28-35 | an endpoint URL is the API root followed by the endpoint |
| QbtTorrents.AddRequest | src/qbittorrent/api/torrents.rs:60-85 | the add request is a POST to `torrents/add` with form fields `urls` = the URI and `savepath` = ".", a form-urlencoded content type and basic authentication |
| QbtTorrents.Add | src/qbittorrent/api/torrents.rs:60-106 | adding succeeds exactly when the request is sent and the body reads, whatever the status, and returns the body |
| QbtTorrents.AddReturnsRefusalBody | src/qbittorrent/api/torrents.rs:154-159 | a refusal answered with body "Fails." is returned as `Ok("Fails.")` |
| QbtTorrents.InfoRequest | src/qbittorrent/api/torrents.rs:108-117 | the info request is an authenticated GET of `torrents/info` without a form |
| QbtTorrents.Info | src/qbittorrent/api/torrents.rs:108-138 | info succeeds exactly when the request is sent, the status is 2xx, and the body reads and decodes; the result is the decoded list |
| QbtTorrents.InfoRejectsFailureStatus | src/qbittorrent/api/torrents.rs:124-128 | a non-2xx status is an error whatever the body |
| QbtClient.Poll | src/qbittorrent/client.rs:34-63 | a polling run makes at most as many polls as there are answers, hands on at most one list per poll, and a run that ends has polled at least once |
| QbtClient.PollShift | src/qbittorrent/client.rs:41-59 | polling past k answers that do not end the loop is those k updates followed by polling the rest |
| QbtClient.PollCharacterization | src/qbittorrent/client.rs:40-59 | polling stops at the first failed answer (an error) or at the first list with no unfinished torrent (success), having handed every earlier list to the callback; with no such answer it is still polling |
| QbtClient.EmptyListFinishes | src/qbittorrent/client.rs:35-36 | an empty torrent list ends the wait successfully after one poll |
| QbtClient.WaitForCompletion | src/qbittorrent/client.rs:34-63 | the loop's outcome, callback lists and poll count are those of the polling specification |
| QbtClient.AddUri | src/qbittorrent/client.rs:65-72 | adding a URI fails exactly when the API add fails |
| QbtClient.AddUriIgnoresDestination | src/qbittorrent/client.rs:65 | the destination argument has no effect |
| QbtDownloader.DownloadUriToFile | src/qbittorrent/downloader.rs:23-56 | a failed add is an error before any poll; otherwise the outcome and poll count are those of the polling specification |
| QbtDownloader.DownloadSucceedsOnlyWhenFinished | src/qbittorrent/downloader.rs:35-50 | a successful wait ended on an answer listing no unfinished torrent |
| HttpDownloader.UriDownload | src/core/download/http.rs:16-30 | downloading a URI succeeds exactly when fetching it does, with the body as its value |
| HttpDownloader.UrisOf | src/core/download/http.rs:32-35 | the URIs of the indexers, position by position |
| HttpDownloader.DownloadUri | src/core/download/http.rs:16-30 | one request for the URI is logged, and the result is the URI's download |
| HttpDownloader.DownloadIndexer | src/core/download/http.rs:32-35 | an indexer is downloaded from its URI, and only that URI is requested |
| HttpDownloader.DownloadIndexers | src/core/download/http.rs:37-47 | succeeds exactly when every indexer downloads, with each body at its indexer's position; otherwise fails at the first indexer that does not download, and no later indexer is ever requested |
| SubsSave.FileSystem.CreateDirAll | src/subs/save.rs:12 | an existing directory always succeeds; otherwise creating it succeeds unless refused; files are untouched |
| SubsSave.FileSystem.Create | src/subs/save.rs:19 | creating a file leaves it empty, and touches nothing else |
| SubsSave.FileSystem.WriteAll | src/subs/save.rs:21 | a successful write sets the file's contents; a failed write leaves a prefix of them; nothing else is touched |
| SubsSave.SubPathInjective | src/subs/save.rs:17 | different sub indices get different file names |
| SubsSave.FirstFailure | src/subs/save.rs:15-23 | the first failing sub index lies between the start and the end |
| SubsSave.SaveFromEffect | src/subs/save.rs:15-23 | saving fails exactly at the first sub whose file cannot be created or written, with that error; every earlier sub is in its own file; a failed write leaves a prefix of its sub; no other path changes, so the files of later indices survive even a successful save |
| SubsSave.SaveSubs | src/subs/save.rs:9-25 | a refused `tmp` directory that does not exist yet aborts with nothing written; otherwise `tmp` exists afterwards, and the result and files are those of the save specification |
| AnimeInfo.EpisodeOfFilename | anime_info.py:6-15 | no match is an error naming the file; otherwise the first match decides: the tag of its season and episode, or the season `01` tag of the dash number |
| AnimeInfo.TagInjective | anime_info.py:12-15 | two different (season, episode) digit pairs never give the same tag |
| AnimeInfo.DashFormIsSeasonOne | anime_info.py:12-15 | a dash-numbered file gets the same tag as the season 1 `SxxEyy` form of that number |
| AnimeInfo.TagsAreNotNumeric | anime_info.py:41 | tags compare as strings: episode 10 sorts before episode 9 |
| AnimeInfo.Keys | anime_info.py:30-31 | keys exist exactly when every episode has a tag, each paired with its episode in order; otherwise the error is that of the first episode without one |
| AnimeInfo.SortIsStableSort | anime_info.py:41 | the sort orders by key, is a permutation, and keeps the input order among equal keys |
| AnimeInfo.KeepMembers | anime_info.py:42-44 | the filters keep exactly the episodes of the anime and, when given, of the tag |
| AnimeInfo.FromEpisodesFails | anime_info.py:40-46 | grouping fails exactly when some episode has no tag, even one the filters would drop, and reports the first |
| AnimeInfo.FromEpisodesSelection | anime_info.py:40-46 | the group holds exactly the input episodes of the anime and, when given, the tag |
| AnimeInfo.FromEpisodesOrder | anime_info.py:40-46 | the group is ordered by episode tag, and episodes with equal tags keep their input order |
| AnimeSearch.SearchUrl | anime_search.py:14-15 | the URL is the fixed prefix followed by the anime name verbatim |
| AnimeSearch.SearchUrlInjective | anime_search.py:14-15 | different anime names give different URLs |
| AnimeSearch.Parse | anime_search.py:19-28 | one episode per row, in order: the anime queried, the title as file name, the magnet link, the seeders as a number and no tag; the view path is dropped |
| AnimeSearch.ParseConcat | anime_search.py:19-28 | parsing concatenated rows is concatenating the parses |
| AnimeSearch.ParsedSeeders | anime_search.py:26 | a row showing n seeders gives an episode with `seeders == n` |
| AnimeSearch.Search | anime_search.py:14-33 | a search fails exactly when the fetch does; otherwise it is the parse of the fetched page's rows: one episode per row, all of the queried anime and untagged |
| MainScript.Files | main.py:28 | the file names are the rows' titles, by position |
| MainScript.Magnets | main.py:29 | the magnets are the rows' magnet links, by position |
| MainScript.CollectEpisodes | main.py:34-43 | the loop yields the episode list specification of the rows |
| MainScript.CandidatesAreKeptRows | main.py:35-42 | the episode list is exactly the rows whose title yields a number, in row order, each with its first number |
| MainScript.SaveFile | main.py:60 | the save path is the working directory, `/output/`, the anime name, then `/` + the episode, each segment at its position |
| MainScript.ScheduleDownloads | main.py:46-60 | the loop plans one download per entry of the schedule specification, in order, each saved to `<cwd>/output/<anime>/<episode>` |
| MainScript.ScheduledCount | main.py:48-56 | each episode is scheduled as often as it occurs, but at most `cap - 1` times |
| MainScript.AtMostTwoDownloadsPerEpisode | main.py:46-56 | with `downloads_per_episode = 3`, no episode gets more than two downloads, and episodes occurring at most twice are all downloaded |
| MainScript.ScheduledAreAdmitted | main.py:48-56 | the schedule is exactly the entries whose raised counter is below the cap, in list order |

## Left out

- Regex semantics: the concrete patterns (the kitsunekko listing, the nyaa
  magnet pattern, the episode and listing patterns of the Python code) are not
  interpreted. Their matches are inputs.
- The fuzzy algorithm of `SkimMatcherV2`: it is a parameter. Where a lemma
  needs it, fuzzy scores are assumed to stay below `i64::MAX`, the exact-match
  score.
- Lowercasing: `to_lowercase` is modelled for ASCII letters only.
- Title lengths: these are taken in characters, where Rust's `len()` counts
  UTF-8 bytes.
- SubsSearch.FuzzyMatchIndexers: the `i64` subtraction is unbounded in the
  model. The source cannot overflow for realistic titles, so wrap-around is
  not modelled.
- SubsSearch.IntoSortedVec: the order among equal priorities is left
  unspecified, as in the priority queue crate. The model chooses by maximum
  selection, not by the crate's heap sort.
- SubsSearch.FetchIndexers: takes the page's matches as input. The blocking GET
  of the listing, which panics on failure (`unwrap`), is not modelled.
- The error payloads: `error_stack` reports and printable attachments are
  dropped. Errors are the plain error types.
- The content-type header parse in `add`: it cannot fail for its constant, so
  the model has no error path for it.
- Async runtimes, `block_on`, the one-second sleeps, `asyncio.wait_for`
  timeouts and `gather`: they are timing concerns.
- QbtClient.WaitForCompletion and QbtDownloader.DownloadUriToFile: the polls
  are a finite script of answers. A run that exhausts the script reports that
  it is still waiting, where the source would poll forever.
- The final `is_downloading` wait and the actual downloads in `main.py`: the
  model stops at the list of planned downloads.
- `Destination` resolution and skip-if-exists: no downloader implements them.
- The `todo!()` stubs `download_indexer_to_file` and
  `download_indexers_to_file`, `is_torrent_completed` and the unused
  `add_torrent` helper: they have no behaviour to model.
- Logging, `println!` and `print`: output only.
- `_get` and `requests.get`: the HTTP request is the `Web` oracle.
  AnimeSearch.Search models a failed request as an error, where the source
  raises an exception.
- AnimeSearch.Parse: accepts only ASCII seeder digits. The Python pattern's
  `\d` and `int()` also accept other Unicode decimal digits, so pages the
  source parses with such seeder counts are outside the model.
- The episode pattern's prefix: it is the anime name inserted into the
  regex unescaped. Its effect on matching is part of the regex engine.
- The CLI in `src/main.rs` and the placeholder `src/anime_search.rs`: they are
  outside the core.
