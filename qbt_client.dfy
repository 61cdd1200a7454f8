/**
 * src/qbittorrent/client.rs: waiting for the torrent client to finish.
 *
 * `wait_for_completion` polls `info` once per iteration: a failed poll aborts
 * with `QBitTorrentClientError`; a successful one is handed to `on_update`, and
 * the loop ends right after the first list with no unfinished torrent (an empty
 * list counts as finished). The loop has no bound, so the model is fed a
 * finite script of poll answers and reports `StillWaiting` when the script runs
 * out before the loop ends; the one-second sleep between polls is not modelled.
 */
module QbtClient {
  import opened Wrappers
  import opened QbtTorrents
  import opened DownloadTypes

  datatype QBitTorrentClientError = QBitTorrentClientError

  /** What one `info` poll returned. */
  type InfoResult = Result<TorrentList, TorrentInfoError>

  /** A call that returned `result`, or one still polling when the scripted answers ran out. */
  datatype Pending<+T> = Returned(result: T) | StillWaiting

  datatype PollStatus = AllFinished | InfoFailed | StillPolling

  /** How a polling loop fed `answers` ends, the lists it reports, and how many polls it makes. */
  datatype PollRun = PollRun(status: PollStatus, updates: seq<TorrentList>, polls: nat)

  /** An answer after which the loop stops: a failure or a list without unfinished torrents. */
  predicate EndsPolling(answer: InfoResult) {
    answer.Err? || !HasUnfinished(answer.value)
  }

  /** The polling loop as a function of its answers. */
  function Poll(answers: seq<InfoResult>): (run: PollRun)
    ensures run.polls <= |answers|
    ensures |run.updates| <= run.polls
    ensures run.status != StillPolling ==> run.polls >= 1
  {
    if answers == [] then PollRun(StillPolling, [], 0)
    else
      match answers[0]
      case Err(_) => PollRun(InfoFailed, [], 1)
      case Ok(list) =>
        if !HasUnfinished(list) then PollRun(AllFinished, [list], 1)
        else
          var rest := Poll(answers[1..]);
          PollRun(rest.status, [list] + rest.updates, 1 + rest.polls)
  }

  /** The lists of the successful answers, in order: what `on_update` is handed. */
  function Lists(answers: seq<InfoResult>): seq<TorrentList>
    decreases |answers|
  {
    if answers == [] then []
    else
      var last := answers[|answers| - 1];
      Lists(answers[..|answers| - 1]) + (if last.Ok? then [last.value] else [])
  }

  lemma ListsAppend(answers: seq<InfoResult>, last: InfoResult)
    ensures Lists(answers + [last]) == Lists(answers) + (if last.Ok? then [last.value] else [])
  {
    assert (answers + [last])[..|answers|] == answers;
  }

  /** One answer that does not end the loop is reported, then the loop goes on. */
  lemma PollStep(answers: seq<InfoResult>)
    requires answers != [] && !EndsPolling(answers[0])
    ensures var rest := Poll(answers[1..]);
            Poll(answers) == PollRun(rest.status, [answers[0].value] + rest.updates, 1 + rest.polls)
  {
  }

  /** A prefix of answers that do not end the loop is polled and reported, then the loop goes on. */
  lemma {:induction false} PollShift(answers: seq<InfoResult>, k: nat)
    requires k <= |answers|
    requires forall j :: 0 <= j < k ==> !EndsPolling(answers[j])
    ensures var rest := Poll(answers[k..]);
            Poll(answers) == PollRun(rest.status, Lists(answers[..k]) + rest.updates, k + rest.polls)
  {
    if k == 0 {
      assert answers[0..] == answers;
    } else {
      PollShift(answers, k - 1);
      var here := answers[k - 1..];
      var last := answers[k - 1];
      assert here[0] == last && here[1..] == answers[k..];
      assert !EndsPolling(last);
      PollStep(here);
      assert answers[..k] == answers[..k - 1] + [last];
      ListsAppend(answers[..k - 1], last);
      var rest := Poll(answers[k..]);
      var front := Lists(answers[..k - 1]);
      assert Lists(answers[..k]) == front + [last.value];
      assert front + ([last.value] + rest.updates) == (front + [last.value]) + rest.updates;
    }
  }

  /** Where a run stops: right after the first answer that ends the loop, or at the end of the script. */
  lemma {:induction false} PollStops(answers: seq<InfoResult>)
    ensures var run := Poll(answers);
            && (forall j :: 0 <= j < run.polls - 1 ==> !EndsPolling(answers[j]))
            && (run.status == StillPolling <==> run.polls == |answers| && forall j :: 0 <= j < |answers| ==> !EndsPolling(answers[j]))
            && (run.status != StillPolling ==> EndsPolling(answers[run.polls - 1]))
            && (run.status == InfoFailed <==> run.status != StillPolling && answers[run.polls - 1].Err?)
  {
    if answers != [] && answers[0].Ok? && HasUnfinished(answers[0].value) {
      PollStops(answers[1..]);
      assert forall j :: 0 < j < |answers| ==> answers[j] == answers[1..][j - 1];
    }
  }

  /** What a run reports: the list of every successful poll, in order; success only on an all-finished list. */
  lemma {:induction false} PollReports(answers: seq<InfoResult>)
    ensures var run := Poll(answers);
            && (run.status == AllFinished ==> answers[run.polls - 1] == Ok(run.updates[|run.updates| - 1])
                                              && !HasUnfinished(run.updates[|run.updates| - 1]))
            && |run.updates| == (if run.status == InfoFailed then run.polls - 1 else run.polls)
            && (forall j :: 0 <= j < |run.updates| ==> answers[j] == Ok(run.updates[j]))
  {
    if answers != [] && answers[0].Ok? && HasUnfinished(answers[0].value) {
      PollReports(answers[1..]);
      var run, rest := Poll(answers), Poll(answers[1..]);
      assert run.updates == [answers[0].value] + rest.updates;
      assert forall j :: 0 < j < |run.updates| ==> run.updates[j] == rest.updates[j - 1] && answers[j] == answers[1..][j - 1];
    }
  }

  /**
   * The loop stops at the first answer that is a failure or an all-finished
   * list and polls nothing after it; it reports every successful poll's list,
   * in order, and a failed poll reports nothing; it succeeds only when the last
   * list it saw had every torrent finished.
   */
  lemma PollCharacterization(answers: seq<InfoResult>)
    ensures var run := Poll(answers);
            && (forall j :: 0 <= j < run.polls - 1 ==> !EndsPolling(answers[j]))
            && (run.status == StillPolling <==> run.polls == |answers| && forall j :: 0 <= j < |answers| ==> !EndsPolling(answers[j]))
            && (run.status != StillPolling ==> EndsPolling(answers[run.polls - 1]))
            && (run.status == InfoFailed <==> run.status != StillPolling && answers[run.polls - 1].Err?)
            && (run.status == AllFinished ==> answers[run.polls - 1] == Ok(run.updates[|run.updates| - 1])
                                              && !HasUnfinished(run.updates[|run.updates| - 1]))
            && |run.updates| == (if run.status == InfoFailed then run.polls - 1 else run.polls)
            && (forall j :: 0 <= j < |run.updates| ==> answers[j] == Ok(run.updates[j]))
  {
    PollStops(answers);
    PollReports(answers);
  }

  /** An empty torrent list counts as finished: one poll, one report, success. */
  lemma EmptyListFinishes(answers: seq<InfoResult>)
    requires |answers| > 0 && answers[0] == Ok([])
    ensures Poll(answers) == PollRun(AllFinished, [[]], 1)
  {
  }

  /**
   * `wait_for_completion`: `updates` are the lists passed to `on_update`, in
   * call order, and `polls` the number of `info` requests made.
   */
  method WaitForCompletion(answers: seq<InfoResult>)
    returns (outcome: Pending<Result<(), QBitTorrentClientError>>, updates: seq<TorrentList>, polls: nat)
    ensures polls == Poll(answers).polls && updates == Poll(answers).updates
    ensures outcome == match Poll(answers).status
                       case AllFinished => Returned(Ok(()))
                       case InfoFailed => Returned(Err(QBitTorrentClientError))
                       case StillPolling => StillWaiting
  {
    updates, polls := [], 0;
    while polls < |answers|
      invariant polls <= |answers|
      invariant forall j :: 0 <= j < polls ==> !EndsPolling(answers[j])
      invariant updates == Lists(answers[..polls])
    {
      var info := answers[polls];
      PollShift(answers, polls);
      assert answers[polls..][0] == info && answers[polls..][1..] == answers[polls + 1..];
      assert answers[..polls + 1] == answers[..polls] + [info];
      ListsAppend(answers[..polls], info);
      polls := polls + 1;
      match info {
        case Err(_) =>
          return Returned(Err(QBitTorrentClientError)), updates, polls;
        case Ok(list) =>
          updates := updates + [list];
          if !HasUnfinished(list) {
            return Returned(Ok(())), updates, polls;
          }
      }
    }
    PollShift(answers, polls);
    assert answers[polls..] == [];
    outcome := StillWaiting;
  }

  /**
   * `add_uri`: succeeds exactly when the API's `add` does; the destination is
   * not used.
   */
  function AddUri(uri: string, dest: Destination, transport: Transport): (r: Result<(), QBitTorrentClientError>)
    ensures r.Ok? <==> Add(uri, transport).Ok?
  {
    match Add(uri, transport)
    case Err(_) => Err(QBitTorrentClientError)
    case Ok(_) => Ok(())
  }

  lemma AddUriIgnoresDestination(uri: string, a: Destination, b: Destination, transport: Transport)
    ensures AddUri(uri, a, transport) == AddUri(uri, b, transport)
  {
  }
}
