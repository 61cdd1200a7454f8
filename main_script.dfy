/**
 * main.py, function `b`: the prototype download script. From the listing rows
 * of a search it keeps the releases whose file name carries an episode number
 * after the anime name, then plans downloads per episode under a cap of
 * `downloads_per_episode`, each one saved to `<cwd>/output/<anime>/<episode>`.
 *
 * The listing pattern yields `(view path, title, magnet)` tuples and the episode
 * pattern (the anime name, then a dash and a number) one digit string per
 * match; the regex engine is the `NumberFinder` parameter and the listing rows
 * are an input. The scheduled downloads are returned as a list of plans.
 */
module MainScript {
  /** One `findall` tuple of the listing pattern. */
  datatype Row = Row(viewPath: string, title: string, magnet: string)

  /** `re.findall` of the episode pattern for an anime over a file name. */
  type NumberFinder = (string, string) -> seq<string>

  /** An entry of `episodes`: the file, its episode number and its magnet link. */
  datatype Candidate = Candidate(file: string, episode: string, magnet: string)

  /** One scheduled download: the episode and the file it is saved to. */
  datatype PlannedDownload = PlannedDownload(candidate: Candidate, saveFile: string)

  const DOWNLOADS_PER_EPISODE: nat := 3

  /** `files = [match[1] for match in matches]` */
  function Files(rows: seq<Row>): (r: seq<string>)
    ensures |r| == |rows| && forall i :: 0 <= i < |rows| ==> r[i] == rows[i].title
  {
    if rows == [] then [] else [rows[0].title] + Files(rows[1..])
  }

  /** `magnets = [match[2] for match in matches]` */
  function Magnets(rows: seq<Row>): (r: seq<string>)
    ensures |r| == |rows| && forall i :: 0 <= i < |rows| ==> r[i] == rows[i].magnet
  {
    if rows == [] then [] else [rows[0].magnet] + Magnets(rows[1..])
  }

  /** Whether row `i` names an episode, that is, the episode pattern matches its title. */
  predicate Kept(rows: seq<Row>, anime: string, finder: NumberFinder, i: int)
    requires 0 <= i < |rows|
  {
    finder(anime, rows[i].title) != []
  }

  /** The entry row `i` contributes when kept: the first number found. */
  function CandidateOf(rows: seq<Row>, anime: string, finder: NumberFinder, i: int): Candidate
    requires 0 <= i < |rows| && Kept(rows, anime, finder, i)
  {
    Candidate(rows[i].title, finder(anime, rows[i].title)[0], rows[i].magnet)
  }

  /** The episode list the first loop builds from the rows. */
  function Candidates(rows: seq<Row>, anime: string, finder: NumberFinder): seq<Candidate>
    decreases |rows|
  {
    if rows == [] then []
    else
      var n := |rows| - 1;
      Candidates(rows[..n], anime, finder) + (if Kept(rows, anime, finder, n) then [CandidateOf(rows, anime, finder, n)] else [])
  }

  /** The first loop: pairs file names with magnets by position and keeps the rows that name an episode. */
  method CollectEpisodes(rows: seq<Row>, anime: string, finder: NumberFinder) returns (episodes: seq<Candidate>)
    ensures episodes == Candidates(rows, anime, finder)
  {
    var files := Files(rows);
    var magnets := Magnets(rows);
    episodes := [];
    var i := 0;
    while i < |files| && i < |magnets|
      invariant 0 <= i <= |rows|
      invariant episodes == Candidates(rows[..i], anime, finder)
    {
      var file, magnet := files[i], magnets[i];
      var episode := finder(anime, file);
      assert rows[..i + 1][..i] == rows[..i];
      if |episode| > 0 {
        episodes := episodes + [Candidate(file, episode[0], magnet)];
      }
      i := i + 1;
    }
    assert rows[..i] == rows;
  }

  predicate Increasing(idx: seq<nat>) {
    forall j, k :: 0 <= j < k < |idx| ==> idx[j] < idx[k]
  }

  /**
   * The episode list is the kept rows in row order: there is an increasing run
   * of exactly the kept row indices whose entries it lists, one per index.
   */
  lemma {:induction false} CandidatesAreKeptRows(rows: seq<Row>, anime: string, finder: NumberFinder) returns (idx: seq<nat>)
    ensures Increasing(idx)
    ensures forall i :: 0 <= i < |rows| ==> (Kept(rows, anime, finder, i) <==> i in idx)
    ensures |idx| == |Candidates(rows, anime, finder)|
    ensures forall j :: 0 <= j < |idx| ==>
              (idx[j] < |rows| && Kept(rows, anime, finder, idx[j]) &&
               Candidates(rows, anime, finder)[j] == CandidateOf(rows, anime, finder, idx[j]))
    decreases |rows|
  {
    if rows == [] {
      idx := [];
    } else {
      var n := |rows| - 1;
      var front := rows[..n];
      var idx' := CandidatesAreKeptRows(front, anime, finder);
      var c', c := Candidates(front, anime, finder), Candidates(rows, anime, finder);
      forall i | 0 <= i < n
        ensures front[i] == rows[i]
      {
      }
      var tail := if Kept(rows, anime, finder, n) then [n] else [];
      idx := idx' + tail;
      assert c == c' + (if Kept(rows, anime, finder, n) then [CandidateOf(rows, anime, finder, n)] else []);
      forall i | 0 <= i < |rows|
        ensures Kept(rows, anime, finder, i) <==> i in idx
      {
        if i < n {
          assert Kept(front, anime, finder, i) == Kept(rows, anime, finder, i);
          assert i !in tail;
        } else {
          assert n !in idx';
        }
      }
      forall j | 0 <= j < |idx|
        ensures idx[j] < |rows| && Kept(rows, anime, finder, idx[j]) &&
                c[j] == CandidateOf(rows, anime, finder, idx[j])
      {
        if j < |idx'| {
          assert idx[j] == idx'[j];
          assert c[j] == c'[j];
        }
      }
    }
  }

  /** How many entries of `eps` have episode number `ep`. */
  function Occurrences(eps: seq<Candidate>, ep: string): nat
    decreases |eps|
  {
    if eps == [] then 0
    else Occurrences(eps[..|eps| - 1], ep) + (if eps[|eps| - 1].episode == ep then 1 else 0)
  }

  /**
   * Whether entry `i` is scheduled: its episode's counter, raised for this
   * entry, is still below the cap.
   */
  predicate Admitted(eps: seq<Candidate>, i: int, cap: nat)
    requires 0 <= i < |eps|
  {
    Occurrences(eps[..i + 1], eps[i].episode) < cap
  }

  /** The entries the second loop schedules, in list order. */
  function Scheduled(eps: seq<Candidate>, cap: nat): seq<Candidate>
    decreases |eps|
  {
    if eps == [] then []
    else
      var n := |eps| - 1;
      Scheduled(eps[..n], cap) + (if Admitted(eps, n, cap) then [eps[n]] else [])
  }

  /** `f'{cwd}/output/{anime}/{episode["episode"]}'` */
  function SaveFile(cwd: string, anime: string, episode: string): (path: string)
    ensures |path| == |cwd| + 8 + |anime| + 1 + |episode|
    ensures path[..|cwd|] == cwd && path[|cwd|..|cwd| + 8] == "/output/"
    ensures path[|cwd| + 8..|cwd| + 8 + |anime|] == anime
    ensures path[|path| - |episode| - 1..] == "/" + episode
  {
    cwd + "/output/" + anime + "/" + episode
  }

  /** The download of one scheduled entry, saved under its episode number. */
  function PlanOf(x: Candidate, anime: string, cwd: string): PlannedDownload {
    PlannedDownload(x, SaveFile(cwd, anime, x.episode))
  }

  /** The download plans of the scheduled entries, in order. */
  function Plans(scheduled: seq<Candidate>, anime: string, cwd: string): seq<PlannedDownload> {
    seq(|scheduled|, j requires 0 <= j < |scheduled| => PlanOf(scheduled[j], anime, cwd))
  }

  /**
   * The second loop: counts every episode number as it goes and schedules an
   * entry only while that number's count, including this entry, is below
   * `downloads_per_episode`.
   */
  method ScheduleDownloads(episodes: seq<Candidate>, anime: string, cwd: string) returns (planned: seq<PlannedDownload>)
    ensures planned == Plans(Scheduled(episodes, DOWNLOADS_PER_EPISODE), anime, cwd)
  {
    var counter: map<string, nat> := map[];
    planned := [];
    for i := 0 to |episodes|
      invariant forall k :: Occurrences(episodes[..i], k) == (if k in counter then counter[k] else 0)
      invariant planned == Plans(Scheduled(episodes[..i], DOWNLOADS_PER_EPISODE), anime, cwd)
    {
      var episode := episodes[i];
      var ep := episode.episode;
      PrefixStep(episodes, i, DOWNLOADS_PER_EPISODE);
      if ep !in counter {
        counter := counter[ep := 0];
      }
      counter := counter[ep := counter[ep] + 1];
      if counter[ep] >= DOWNLOADS_PER_EPISODE {
        continue;
      }
      PlansAppend(Scheduled(episodes[..i], DOWNLOADS_PER_EPISODE), episode, anime, cwd);
      planned := planned + [PlanOf(episode, anime, cwd)];
    }
    assert episodes[..|episodes|] == episodes;
  }

  /** One more entry: its episode's count rises by one, and it is scheduled when that count is below the cap. */
  lemma PrefixStep(eps: seq<Candidate>, i: nat, cap: nat)
    requires i < |eps|
    ensures forall k :: Occurrences(eps[..i + 1], k) == Occurrences(eps[..i], k) + (if eps[i].episode == k then 1 else 0)
    ensures Scheduled(eps[..i + 1], cap) ==
            Scheduled(eps[..i], cap) + (if Occurrences(eps[..i], eps[i].episode) + 1 < cap then [eps[i]] else [])
  {
    var p := eps[..i + 1];
    assert p[..i] == eps[..i] && p[i] == eps[i] && p[..i + 1] == p;
  }

  lemma PlansAppend(scheduled: seq<Candidate>, x: Candidate, anime: string, cwd: string)
    ensures Plans(scheduled + [x], anime, cwd) == Plans(scheduled, anime, cwd) + [PlanOf(x, anime, cwd)]
  {
  }

  lemma OccurrencesAppend(eps: seq<Candidate>, x: Candidate, ep: string)
    ensures Occurrences(eps + [x], ep) == Occurrences(eps, ep) + (if x.episode == ep then 1 else 0)
  {
    assert (eps + [x])[..|eps|] == eps;
  }

  /**
   * Each episode number is scheduled as often as it occurs, but at most
   * `cap - 1` times: the counter is compared after it is raised.
   */
  lemma {:induction false} ScheduledCount(eps: seq<Candidate>, cap: nat, ep: string)
    requires cap >= 1
    ensures Occurrences(Scheduled(eps, cap), ep) == if Occurrences(eps, ep) < cap - 1 then Occurrences(eps, ep) else cap - 1
    decreases |eps|
  {
    if eps != [] {
      var n := |eps| - 1;
      ScheduledCount(eps[..n], cap, ep);
      assert eps[..n + 1] == eps;
      var rest := if Admitted(eps, n, cap) then [eps[n]] else [];
      if Admitted(eps, n, cap) {
        OccurrencesAppend(Scheduled(eps[..n], cap), eps[n], ep);
      } else {
        assert Scheduled(eps, cap) == Scheduled(eps[..n], cap);
        if eps[n].episode == ep {
          assert Occurrences(eps[..n], ep) + 1 >= cap;
        }
      }
    }
  }

  /** With the cap of 3, every episode gets at most two downloads. */
  lemma AtMostTwoDownloadsPerEpisode(eps: seq<Candidate>, ep: string)
    ensures Occurrences(Scheduled(eps, DOWNLOADS_PER_EPISODE), ep) <= 2
    ensures Occurrences(eps, ep) <= 2 ==> Occurrences(Scheduled(eps, DOWNLOADS_PER_EPISODE), ep) == Occurrences(eps, ep)
  {
    ScheduledCount(eps, DOWNLOADS_PER_EPISODE, ep);
  }

  /**
   * The schedule is the admitted entries in list order: there is an increasing
   * run of exactly the admitted indices whose entries it lists.
   */
  lemma {:induction false} ScheduledAreAdmitted(eps: seq<Candidate>, cap: nat) returns (idx: seq<nat>)
    ensures Increasing(idx)
    ensures forall i :: 0 <= i < |eps| ==> (Admitted(eps, i, cap) <==> i in idx)
    ensures |idx| == |Scheduled(eps, cap)|
    ensures forall j :: 0 <= j < |idx| ==> idx[j] < |eps| && Scheduled(eps, cap)[j] == eps[idx[j]]
    decreases |eps|
  {
    if eps == [] {
      idx := [];
    } else {
      var n := |eps| - 1;
      var front := eps[..n];
      var idx' := ScheduledAreAdmitted(front, cap);
      var s', s := Scheduled(front, cap), Scheduled(eps, cap);
      var tail := if Admitted(eps, n, cap) then [n] else [];
      idx := idx' + tail;
      assert s == s' + (if Admitted(eps, n, cap) then [eps[n]] else []);
      forall i | 0 <= i < |eps|
        ensures Admitted(eps, i, cap) <==> i in idx
      {
        if i < n {
          assert front[..i + 1] == eps[..i + 1];
          assert front[i] == eps[i];
          assert Admitted(front, i, cap) == Admitted(eps, i, cap);
          assert i !in tail;
        } else {
          assert n !in idx';
        }
      }
      forall j | 0 <= j < |idx|
        ensures idx[j] < |eps| && s[j] == eps[idx[j]]
      {
        if j < |idx'| {
          assert idx[j] == idx'[j];
          assert s[j] == s'[j];
          assert front[idx'[j]] == eps[idx'[j]];
        }
      }
    }
  }
}
