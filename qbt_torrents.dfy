/**
 * src/qbittorrent/api/torrents.rs: the two calls of the torrent client's web
 * API the program makes. `add` posts a magnet link and returns the response body
 * whatever it says; `info` fetches the torrent list and fails on a non-2xx
 * status or an unparsable body. The HTTP exchange is an oracle from request to
 * response, and JSON decoding an oracle from body to torrent list.
 */
module QbtTorrents {
  import opened Wrappers
  import opened HttpFetch

  datatype Torrent = Torrent(hash: string, name: string, size: int, state: string)

  /** `TorrentList(Vec<Torrent>)` */
  type TorrentList = seq<Torrent>

  const FINISHED_STATE: string := "uploading"

  /** `Torrent::finished`: the state is exactly "uploading" (seeding after download). */
  predicate Finished(t: Torrent) {
    t.state == FINISHED_STATE
  }

  /** `torrents.0.iter().any(|t| !t.finished())` */
  predicate HasUnfinished(list: TorrentList) {
    exists i :: 0 <= i < |list| && !Finished(list[i])
  }

  /** Only the state decides, and case matters. */
  lemma FinishedOnlyByState(t: Torrent, hash: string, name: string, size: int)
    ensures Finished(t) <==> Finished(Torrent(hash, name, size, t.state))
    ensures !Finished(t.(state := "Uploading")) && !Finished(t.(state := "downloading"))
  {
  }

  const API_URL: string := "http://127.0.0.1:8080/api/v2/"

  /** `format_endpoint!`: the API root followed by the endpoint. */
  function FormatEndpoint(endpoint: string): (url: string)
    ensures |url| == |API_URL| + |endpoint|
    ensures url[..|API_URL|] == API_URL && url[|API_URL|..] == endpoint
  {
    API_URL + endpoint
  }

  datatype TorrentAddError = TorrentAddError
  datatype TorrentInfoError = TorrentInfoError

  datatype HttpMethod = Get | Post

  /** The parts of an outgoing request the model distinguishes. */
  datatype Request = Request(verb: HttpMethod, url: string, headers: map<string, string>,
                             form: map<string, string>, user: string, password: Option<string>)

  /** What the API answers to a request; None means the request could not be sent. */
  type Transport = Request -> Option<Response>

  /** `res.json::<TorrentList>()` on a body; None when the body is not a torrent list. */
  type TorrentListDecoder = string -> Option<TorrentList>

  const CONTENT_TYPE: string := "content-type"
  const FORM_URLENCODED: string := "application/x-www-form-urlencoded"
  const USER: string := "username"
  const PASSWORD: string := "password"

  /**
   * The POST that `add` sends: form-encoded, with exactly the two parameters
   * `urls` (the magnet link) and `savepath` ("."), and basic authentication.
   */
  function AddRequest(uri: string): (req: Request)
    ensures req.verb == Post && req.url == API_URL + "torrents/add"
    ensures req.form.Keys == {"urls", "savepath"}
    ensures req.form["urls"] == uri && req.form["savepath"] == "."
    ensures req.headers == map[CONTENT_TYPE := FORM_URLENCODED]
    ensures req.user == USER && req.password == Some(PASSWORD)
  {
    var headers := map[CONTENT_TYPE := FORM_URLENCODED];
    var params := map["urls" := uri];
    var params := params["savepath" := "."];
    Request(Post, FormatEndpoint("torrents/add"), headers, params, USER, Some(PASSWORD))
  }

  /**
   * `add`: fails only when the request cannot be sent or its body cannot be
   * read; otherwise returns the body, whatever the status and the text.
   */
  function Add(uri: string, transport: Transport): (r: Result<string, TorrentAddError>)
    ensures r.Ok? <==> transport(AddRequest(uri)).Some? && transport(AddRequest(uri)).value.body.Some?
    ensures r.Ok? ==> r.value == transport(AddRequest(uri)).value.body.value
  {
    match transport(AddRequest(uri))
    case None => Err(TorrentAddError)
    case Some(res) =>
      match res.body
      case None => Err(TorrentAddError)
      case Some(body) => Ok(body)
  }

  /** The broken-magnet test: an answer "Fails." is still a successful `add`. */
  lemma AddReturnsRefusalBody(uri: string, transport: Transport, status: int)
    requires transport(AddRequest(uri)) == Some(Response(status, Some("Fails.")))
    ensures Add(uri, transport) == Ok("Fails.")
  {
  }

  /** The GET that `info` sends. */
  function InfoRequest(): (req: Request)
    ensures req.verb == Get && req.url == API_URL + "torrents/info"
    ensures req.form == map[] && req.user == USER && req.password == Some(PASSWORD)
  {
    Request(Get, FormatEndpoint("torrents/info"), map[], map[], USER, Some(PASSWORD))
  }

  /**
   * `info`: Ok exactly when the request is sent, the status is 2xx and the body
   * reads and decodes as a torrent list; that list is the result.
   */
  function Info(transport: Transport, decode: TorrentListDecoder): (r: Result<TorrentList, TorrentInfoError>)
    ensures r.Ok? <==> && transport(InfoRequest()).Some?
                       && IsSuccess(transport(InfoRequest()).value.status)
                       && transport(InfoRequest()).value.body.Some?
                       && decode(transport(InfoRequest()).value.body.value).Some?
    ensures r.Ok? ==> r.value == decode(transport(InfoRequest()).value.body.value).value
  {
    match transport(InfoRequest())
    case None => Err(TorrentInfoError)
    case Some(res) =>
      if !IsSuccess(res.status) then Err(TorrentInfoError)
      else
        match res.body
        case None => Err(TorrentInfoError)
        case Some(body) =>
          match decode(body)
          case None => Err(TorrentInfoError)
          case Some(list) => Ok(list)
  }

  /** A non-2xx answer fails `info` even when its body is a valid torrent list. */
  lemma InfoRejectsFailureStatus(transport: Transport, decode: TorrentListDecoder)
    requires transport(InfoRequest()).Some? && !IsSuccess(transport(InfoRequest()).value.status)
    ensures Info(transport, decode) == Err(TorrentInfoError)
  {
  }
}
