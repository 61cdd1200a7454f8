/**
 * src/qbittorrent/downloader.rs: `download_uri_to_file` adds the magnet link to
 * the torrent client, then polls `info` until no torrent is unfinished. It
 * runs the same polling loop as `wait_for_completion` without a progress
 * callback, and the destination it is given has no effect.
 */
module QbtDownloader {
  import opened Wrappers
  import opened QbtTorrents
  import opened QbtClient
  import opened DownloadTypes

  /**
   * The outcome of `download_uri_to_file` and the number of `info` polls made:
   * a failed `add` returns an error before any poll; otherwise the result is
   * that of the polling loop over the scripted answers.
   */
  method DownloadUriToFile(uri: string, dest: Destination, transport: Transport, answers: seq<InfoResult>)
    returns (outcome: Pending<Result<(), FileDownloaderError>>, polls: nat)
    ensures Add(uri, transport).Err? ==> outcome == Returned(Err(FileDownloaderError)) && polls == 0
    ensures Add(uri, transport).Ok? ==>
              && polls == Poll(answers).polls
              && outcome == match Poll(answers).status
                            case AllFinished => Returned(Ok(()))
                            case InfoFailed => Returned(Err(FileDownloaderError))
                            case StillPolling => StillWaiting
  {
    var added := Add(uri, transport);
    if added.Err? {
      return Returned(Err(FileDownloaderError)), 0;
    }
    polls := 0;
    while polls < |answers|
      invariant polls <= |answers|
      invariant forall j :: 0 <= j < polls ==> !EndsPolling(answers[j])
    {
      var info := answers[polls];
      PollShift(answers, polls);
      assert answers[polls..][0] == info;
      polls := polls + 1;
      match info {
        case Err(_) =>
          return Returned(Err(FileDownloaderError)), polls;
        case Ok(list) =>
          if !HasUnfinished(list) {
            return Returned(Ok(())), polls;
          }
      }
    }
    PollShift(answers, polls);
    assert answers[polls..] == [];
    outcome := StillWaiting;
  }

  /** Success means the last list polled had every torrent finished. */
  lemma DownloadSucceedsOnlyWhenFinished(answers: seq<InfoResult>)
    requires Poll(answers).status == AllFinished
    ensures var n := Poll(answers).polls;
            1 <= n <= |answers| && answers[n - 1].Ok? && !HasUnfinished(answers[n - 1].value)
  {
    PollCharacterization(answers);
  }
}
