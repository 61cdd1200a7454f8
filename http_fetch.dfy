/**
 * The HTTP transport seen from the program: `reqwest::blocking::get(uri)`
 * followed by `.text()`. The network is an oracle `Web` that, for a URI, either
 * fails to deliver a response (None) or delivers one whose body can or cannot
 * be read as text.
 */
module HttpFetch {
  import opened Wrappers

  /** A received response; `body == None` means reading the body failed. */
  datatype Response = Response(status: int, body: Option<string>)

  /** What the network answers to a GET of a URI; None means sending failed. */
  type Web = string -> Option<Response>

  datatype FetchError = RequestFailed | BodyUnreadable

  /** A 2xx status. */
  predicate IsSuccess(status: int) {
    200 <= status < 300
  }

  /**
   * `reqwest::blocking::get(uri)?.text()?`: fails exactly when the request or the
   * body read fails. The status code is not consulted: an error page is text too.
   */
  function GetText(web: Web, uri: string): (r: Result<string, FetchError>)
    ensures r.Ok? <==> web(uri).Some? && web(uri).value.body.Some?
    ensures r.Ok? ==> r.value == web(uri).value.body.value
    ensures r == Err(RequestFailed) <==> web(uri).None?
  {
    match web(uri)
    case None => Err(RequestFailed)
    case Some(response) =>
      match response.body
      case None => Err(BodyUnreadable)
      case Some(text) => Ok(text)
  }

  /** A non-success status does not make the fetch fail. */
  lemma GetTextIgnoresStatus(web: Web, uri: string, text: string)
    requires web(uri).Some? && web(uri).value.body == Some(text)
    requires !IsSuccess(web(uri).value.status)
    ensures GetText(web, uri) == Ok(text)
  {
  }

  /**
   * The network as a stateful resource: every request is appended to
   * `requested`, so that a model can state which URIs were (not) requested.
   */
  class Network {
    const web: Web
    var requested: seq<string>

    constructor (web: Web)
      ensures this.web == web && requested == []
    {
      this.web := web;
      requested := [];
    }

    method Get(uri: string) returns (r: Result<string, FetchError>)
      modifies this
      ensures requested == old(requested) + [uri]
      ensures r == GetText(web, uri)
    {
      requested := requested + [uri];
      r := GetText(web, uri);
    }
  }
}
