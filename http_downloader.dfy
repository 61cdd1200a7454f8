/**
 * src/core/download/http.rs: `ReqwestDownloader`, which downloads URIs as text.
 * `download_indexers` downloads the indexers one after another and gives up at
 * the first failure, returning no partial results.
 */
module HttpDownloader {
  import opened Wrappers
  import opened HttpFetch
  import opened CoreIndexer
  import opened DownloadTypes

  /** What `download_uri` returns for a URI on a given network. */
  function UriDownload(web: Web, uri: string): (r: Result<string, StringDownloaderError>)
    ensures r.Ok? <==> GetText(web, uri).Ok?
    ensures r.Ok? ==> r.value == GetText(web, uri).value
  {
    match GetText(web, uri)
    case Err(_) => Err(StringDownloaderError)
    case Ok(text) => Ok(text)
  }

  /** The URIs of the indexers, in order. */
  function UrisOf(indexers: seq<Indexer>): (uris: seq<string>)
    ensures |uris| == |indexers|
    ensures forall i :: 0 <= i < |indexers| ==> uris[i] == Uri(indexers[i])
  {
    if indexers == [] then [] else [Uri(indexers[0])] + UrisOf(indexers[1..])
  }

  /** `download_uri`: one GET, then the response text. */
  method DownloadUri(net: Network, uri: string) returns (r: Result<string, StringDownloaderError>)
    modifies net
    ensures net.requested == old(net.requested) + [uri]
    ensures r == UriDownload(net.web, uri)
  {
    var response := net.Get(uri);
    match response {
      case Err(_) => r := Err(StringDownloaderError);
      case Ok(text) => r := Ok(text);
    }
  }

  /** `download_indexer`: the download of the indexer's URI. */
  method DownloadIndexer(net: Network, indexer: Indexer) returns (r: Result<string, StringDownloaderError>)
    modifies net
    ensures net.requested == old(net.requested) + [Uri(indexer)]
    ensures r == UriDownload(net.web, Uri(indexer))
  {
    var uri := Uri(indexer);
    r := DownloadUri(net, uri);
  }

  /** Every indexer's download succeeds. */
  ghost predicate AllDownload(web: Web, indexers: seq<Indexer>) {
    forall i :: 0 <= i < |indexers| ==> UriDownload(web, Uri(indexers[i])).Ok?
  }

  /**
   * `download_indexers`: on success one text per indexer, `results[i]` being
   * the download of `indexers[i]`, and every URI requested once in order. On
   * failure, the first failing indexer `k` is the last one requested: the
   * indexers after it are never requested.
   */
  method DownloadIndexers(net: Network, indexers: seq<Indexer>) returns (r: Result<seq<string>, StringDownloaderError>)
    modifies net
    ensures r.Ok? <==> AllDownload(net.web, indexers)
    ensures r.Ok? ==> |r.value| == |indexers|
                      && (forall i :: 0 <= i < |indexers| ==> Ok(r.value[i]) == UriDownload(net.web, Uri(indexers[i])))
                      && net.requested == old(net.requested) + UrisOf(indexers)
    ensures r.Err? ==> exists k :: 0 <= k < |indexers|
                                   && AllDownload(net.web, indexers[..k])
                                   && UriDownload(net.web, Uri(indexers[k])).Err?
                                   && net.requested == old(net.requested) + UrisOf(indexers[..k + 1])
  {
    var results: seq<string> := [];
    for i := 0 to |indexers|
      invariant |results| == i
      invariant AllDownload(net.web, indexers[..i])
      invariant forall j :: 0 <= j < i ==> Ok(results[j]) == UriDownload(net.web, Uri(indexers[j]))
      invariant net.requested == old(net.requested) + UrisOf(indexers[..i])
    {
      var result := DownloadIndexer(net, indexers[i]);
      assert UrisOf(indexers[..i + 1]) == UrisOf(indexers[..i]) + [Uri(indexers[i])];
      if result.Err? {
        return Err(result.error);
      }
      results := results + [result.value];
    }
    assert indexers[..|indexers|] == indexers;
    return Ok(results);
  }
}
