/**
 * src/subs/search.rs: listing the subtitle site's titles and ranking them
 * against a query title.
 *
 * `fetch_indexers` turns every match of the listing pattern into an
 * `AnimeIndexer`, failing on the first match with a capture count other than
 * 3; the page download in front of it is left to the caller, which passes the
 * matches. `fuzzy_match_indexers` scores every candidate (exact case-insensitive
 * name: the sentinel `i64::MAX`; otherwise the Skim fuzzy score, an oracle here),
 * drops candidates without a score, subtracts the length difference from the
 * query, and returns the candidates from the highest score down.
 */
module SubsSearch {
  import opened Wrappers
  import opened TextUtil
  import opened Scrapper

  datatype ResponseParsingError = RegexCaptureCountMismatch(expected: nat, actual: nat)

  datatype AnimeIndexer = AnimeIndexer(name: string, url: string)

  const SITE_ROOT: string := "https://kitsunekko.net/"
  /** Group 0 plus the two groups of the listing pattern. */
  const EXPECTED_CAPTURES: nat := 3
  const I64_MAX: int := 0x7fff_ffff_ffff_ffff

  /** The record one well-formed listing match stands for. */
  function IndexerOf(m: Match): AnimeIndexer
    requires |m| == EXPECTED_CAPTURES
  {
    AnimeIndexer(m[2], SITE_ROOT + m[1])
  }

  predicate WellFormedListing(ms: seq<Match>) {
    forall i :: 0 <= i < |ms| ==> |ms[i]| == EXPECTED_CAPTURES
  }

  /** The indexers of a listing whose matches are all well formed, in match order. */
  function IndexersOf(ms: seq<Match>): seq<AnimeIndexer>
    requires WellFormedListing(ms)
  {
    seq(|ms|, i requires 0 <= i < |ms| => IndexerOf(ms[i]))
  }

  /**
   * `fetch_indexers`, from the matches of the listing page on: Ok with one
   * indexer per match in match order when every match has 3 groups; otherwise
   * the count mismatch of the first bad match, and no partial list.
   */
  method FetchIndexers(captures: seq<Match>) returns (r: Result<seq<AnimeIndexer>, ResponseParsingError>)
    ensures r.Ok? <==> WellFormedListing(captures)
    ensures r.Ok? ==> r.value == IndexersOf(captures)
    ensures r.Err? ==> exists k :: 0 <= k < |captures| && |captures[k]| != EXPECTED_CAPTURES
                                   && WellFormedListing(captures[..k])
                                   && r.error == RegexCaptureCountMismatch(EXPECTED_CAPTURES, |captures[k]|)
  {
    var animeList: seq<AnimeIndexer> := [];
    var i := 0;
    while i < |captures|
      invariant 0 <= i <= |captures|
      invariant WellFormedListing(captures[..i])
      invariant animeList == IndexersOf(captures[..i])
    {
      var capture := captures[i];
      if |capture| != EXPECTED_CAPTURES {
        return Err(RegexCaptureCountMismatch(EXPECTED_CAPTURES, |capture|));
      }
      var animeUrl := SITE_ROOT + capture[1];
      var animeName := capture[2];
      assert IndexerOf(capture) == AnimeIndexer(animeName, animeUrl);
      animeList := animeList + [AnimeIndexer(animeName, animeUrl)];
      assert captures[..i + 1] == captures[..i] + [capture];
      assert IndexersOf(captures[..i + 1]) == IndexersOf(captures[..i]) + [IndexerOf(capture)];
      i := i + 1;
    }
    assert captures[..i] == captures;
    return Ok(animeList);
  }

  // ---------------------------------------------------------------- ranking

  /** `SkimMatcherV2::fuzzy_match(choice, pattern)`: a score, or None when the pattern does not match. */
  type Fuzzy = (string, string) -> Option<int>

  /** The fuzzy matcher never produces the exact-match sentinel. */
  ghost predicate BelowSentinel(fuzzy: Fuzzy) {
    forall choice, pattern :: fuzzy(choice, pattern).Some? ==> fuzzy(choice, pattern).value < I64_MAX
  }

  predicate IsExactMatch(query: string, ix: AnimeIndexer) {
    ToLower(ix.name) == ToLower(query)
  }

  /** The score before the length penalty. */
  function RawScore(query: string, ix: AnimeIndexer, fuzzy: Fuzzy): Option<int> {
    if IsExactMatch(query, ix) then Some(I64_MAX) else fuzzy(ToLower(ix.name), ToLower(query))
  }

  /** `(index.name.len() - anime_name.len()).abs()` */
  function LengthPenalty(query: string, ix: AnimeIndexer): nat {
    if |ix.name| >= |query| then |ix.name| - |query| else |query| - |ix.name|
  }

  /** The priority a candidate is pushed with, or None when it is skipped. */
  function Score(query: string, ix: AnimeIndexer, fuzzy: Fuzzy): Option<int> {
    match RawScore(query, ix, fuzzy)
    case None => None
    case Some(s) => Some(s - LengthPenalty(query, ix))
  }

  predicate Distinct<T(==)>(s: seq<T>) {
    forall i, j :: 0 <= i < j < |s| ==> s[i] != s[j]
  }

  /**
   * What `fuzzy_match_indexers` promises of its output: exactly the scored
   * input candidates, each once, from the highest score down.
   */
  ghost predicate IsRanking(query: string, input: seq<AnimeIndexer>, output: seq<AnimeIndexer>, fuzzy: Fuzzy) {
    && (forall ix :: ix in output <==> ix in input && Score(query, ix, fuzzy).Some?)
    && Distinct(output)
    && (forall i :: 0 <= i < |output| ==> Score(query, output[i], fuzzy).Some?)
    && (forall i, j :: 0 <= i < j < |output| ==>
          Score(query, output[i], fuzzy).value >= Score(query, output[j], fuzzy).value)
  }

  /** The priority queue after pushing the candidates of `ixs` in order (a push of an equal item updates it). */
  function Queue(query: string, ixs: seq<AnimeIndexer>, fuzzy: Fuzzy): map<AnimeIndexer, int>
    decreases |ixs|
  {
    if ixs == [] then map[]
    else
      var q := Queue(query, ixs[..|ixs| - 1], fuzzy);
      var last := ixs[|ixs| - 1];
      match Score(query, last, fuzzy)
      case None => q
      case Some(s) => q[last := s]
  }

  /** The queue holds exactly the scored candidates, each with its own score. */
  lemma {:induction false} QueueContents(query: string, ixs: seq<AnimeIndexer>, fuzzy: Fuzzy)
    ensures forall ix :: ix in Queue(query, ixs, fuzzy) <==> ix in ixs && Score(query, ix, fuzzy).Some?
    ensures forall ix :: ix in Queue(query, ixs, fuzzy) ==> Queue(query, ixs, fuzzy)[ix] == Score(query, ix, fuzzy).value
    decreases |ixs|
  {
    if ixs != [] {
      var front := ixs[..|ixs| - 1];
      QueueContents(query, front, fuzzy);
      assert ixs == front + [ixs[|ixs| - 1]];
    }
  }

  /** A key of largest priority. */
  method MaxKey<K(==)>(q: map<K, int>) returns (best: K)
    requires q != map[]
    ensures best in q
    ensures forall k :: k in q ==> q[k] <= q[best]
  {
    var todo := q.Keys;
    assert todo != {} by {
      var k :| k in q;
      assert k in todo;
    }
    best :| best in todo;
    todo := todo - {best};
    while todo != {}
      invariant todo <= q.Keys
      invariant best in q
      invariant forall k :: k in q && k !in todo ==> q[k] <= q[best]
      decreases todo
    {
      var k :| k in todo;
      if q[k] > q[best] {
        best := k;
      }
      todo := todo - {k};
    }
  }

  /**
   * `PriorityQueue::into_sorted_vec`: every item once, from the highest
   * priority down; the order among equal priorities is not specified.
   */
  method IntoSortedVec<K(==)>(q: map<K, int>) returns (r: seq<K>)
    ensures forall k :: k in r <==> k in q
    ensures Distinct(r)
    ensures forall i, j :: 0 <= i < j < |r| ==> q[r[i]] >= q[r[j]]
  {
    var rest := q;
    r := [];
    while rest != map[]
      invariant forall k :: k in rest ==> k in q && rest[k] == q[k]
      invariant forall k :: k in q ==> (k in r <==> k !in rest)
      invariant forall k :: k in r ==> k in q
      invariant Distinct(r)
      invariant forall i, j :: 0 <= i < j < |r| ==> q[r[i]] >= q[r[j]]
      invariant forall i, k :: 0 <= i < |r| && k in rest ==> q[r[i]] >= q[k]
      decreases rest.Keys
    {
      var best := MaxKey(rest);
      r := r + [best];
      rest := rest - {best};
    }
  }

  /**
   * `fuzzy_match_indexers`: push every candidate that has a score, with the
   * score less the length penalty, then drain the queue highest first.
   */
  method FuzzyMatchIndexers(animeName: string, indexes: seq<AnimeIndexer>, fuzzy: Fuzzy)
    returns (sorted: seq<AnimeIndexer>)
    ensures IsRanking(animeName, indexes, sorted, fuzzy)
  {
    var matches: map<AnimeIndexer, int> := map[];
    for i := 0 to |indexes|
      invariant matches == Queue(animeName, indexes[..i], fuzzy)
    {
      var index := indexes[i];
      assert indexes[..i + 1] == indexes[..i] + [index];
      var score: Option<int>;
      if ToLower(index.name) == ToLower(animeName) {
        score := Some(I64_MAX);
      } else {
        score := fuzzy(ToLower(index.name), ToLower(animeName));
      }
      match score {
        case Some(s) =>
          var sizeDiff := if |index.name| >= |animeName| then |index.name| - |animeName| else |animeName| - |index.name|;
          matches := matches[index := s - sizeDiff];
        case None =>
      }
    }
    assert indexes[..|indexes|] == indexes;
    QueueContents(animeName, indexes, fuzzy);
    sorted := IntoSortedVec(matches);
  }

  /** `fetch_best_indexers_for`: the listing's indexers, ranked; a listing error is passed on. */
  method FetchBestIndexersFor(animeName: string, captures: seq<Match>, fuzzy: Fuzzy)
    returns (r: Result<seq<AnimeIndexer>, ResponseParsingError>)
    ensures r.Ok? <==> WellFormedListing(captures)
    ensures r.Ok? ==> IsRanking(animeName, IndexersOf(captures), r.value, fuzzy)
    ensures r.Err? ==> exists k :: 0 <= k < |captures| && |captures[k]| != EXPECTED_CAPTURES
                                   && WellFormedListing(captures[..k])
                                   && r.error == RegexCaptureCountMismatch(EXPECTED_CAPTURES, |captures[k]|)
  {
    var indexers := FetchIndexers(captures);
    if indexers.Err? {
      return Err(indexers.error);
    }
    var sortedIndexers := FuzzyMatchIndexers(animeName, indexers.value, fuzzy);
    return Ok(sortedIndexers);
  }

  // ---------------------------------------------------------------- ranking properties

  /**
   * An exact case-insensitive match gets the sentinel itself (its length equals
   * the query's), and every other scored candidate stays strictly below it.
   */
  lemma ExactMatchScoresHighest(query: string, exact: AnimeIndexer, other: AnimeIndexer, fuzzy: Fuzzy)
    requires BelowSentinel(fuzzy)
    requires IsExactMatch(query, exact) && !IsExactMatch(query, other)
    requires Score(query, other, fuzzy).Some?
    ensures Score(query, exact, fuzzy) == Some(I64_MAX)
    ensures Score(query, other, fuzzy).value < I64_MAX
  {
    assert |exact.name| == |ToLower(exact.name)| == |ToLower(query)| == |query|;
  }

  /** In a ranking, every exact match comes before every inexact one. */
  lemma ExactMatchRanksFirst(query: string, input: seq<AnimeIndexer>, output: seq<AnimeIndexer>,
                             fuzzy: Fuzzy, i: nat, j: nat)
    requires BelowSentinel(fuzzy)
    requires IsRanking(query, input, output, fuzzy)
    requires i < |output| && j < |output|
    requires IsExactMatch(query, output[i]) && !IsExactMatch(query, output[j])
    ensures i < j
  {
    ExactMatchScoresHighest(query, output[i], output[j], fuzzy);
  }

  /**
   * Length penalty: of two inexact candidates with the same fuzzy score, the
   * one whose length is closer to the query's scores higher and so ranks first.
   */
  lemma CloserLengthRanksFirst(query: string, input: seq<AnimeIndexer>, output: seq<AnimeIndexer>,
                               fuzzy: Fuzzy, i: nat, j: nat)
    requires IsRanking(query, input, output, fuzzy)
    requires i < |output| && j < |output|
    requires !IsExactMatch(query, output[i]) && !IsExactMatch(query, output[j])
    requires RawScore(query, output[i], fuzzy) == RawScore(query, output[j], fuzzy)
    requires LengthPenalty(query, output[i]) < LengthPenalty(query, output[j])
    ensures i < j
  {
    assert Score(query, output[i], fuzzy).value > Score(query, output[j], fuzzy).value;
  }

  /** A candidate that is not an exact match and that the fuzzy matcher rejects is never output. */
  lemma UnmatchedCandidateDropped(query: string, input: seq<AnimeIndexer>, output: seq<AnimeIndexer>,
                                  fuzzy: Fuzzy, ix: AnimeIndexer)
    requires IsRanking(query, input, output, fuzzy)
    requires !IsExactMatch(query, ix) && fuzzy(ToLower(ix.name), ToLower(query)).None?
    ensures ix !in output
  {
  }

  /** A sequence without repetitions has as many distinct elements as positions. */
  lemma {:induction false} DistinctCardinality<T>(s: seq<T>)
    requires Distinct(s)
    ensures |set x | x in s| == |s|
  {
    if s != [] {
      DistinctCardinality(s[1..]);
      assert (set x | x in s) == {s[0]} + (set x | x in s[1..]);
    }
  }

  /** A ranking of two scored candidates with different scores is fixed: higher score first. */
  lemma TwoCandidateRanking(query: string, input: seq<AnimeIndexer>, output: seq<AnimeIndexer>, fuzzy: Fuzzy,
                            a: AnimeIndexer, b: AnimeIndexer)
    requires IsRanking(query, input, output, fuzzy)
    requires input == [b, a] && a != b
    requires Score(query, a, fuzzy).Some? && Score(query, b, fuzzy).Some?
    requires Score(query, a, fuzzy).value > Score(query, b, fuzzy).value
    ensures output == [a, b]
  {
    assert a in output && b in output;
    DistinctCardinality(output);
    assert (set x | x in output) == {a, b};
    assert |output| == 2;
  }

  /** A ranking of two candidates of which only one is scored holds just that one. */
  lemma OneCandidateRanking(query: string, input: seq<AnimeIndexer>, output: seq<AnimeIndexer>, fuzzy: Fuzzy,
                            a: AnimeIndexer, b: AnimeIndexer)
    requires IsRanking(query, input, output, fuzzy)
    requires input == [b, a]
    requires Score(query, a, fuzzy).None? && Score(query, b, fuzzy).Some?
    ensures output == [b]
  {
    assert b in output;
    DistinctCardinality(output);
    assert (set x | x in output) == {b};
  }

  /** Titles of different lengths never match exactly. */
  lemma LengthMismatchNotExact(query: string, ix: AnimeIndexer)
    requires |ix.name| != |query|
    ensures !IsExactMatch(query, ix)
  {
    assert |ToLower(ix.name)| != |ToLower(query)|;
  }

  // The three ranking scenarios of the module's tests, with the matcher as an oracle.

  const BOCCHI: AnimeIndexer := AnimeIndexer("Bocchi the Rock!", "https://kitsunekko.net/bocchi-the-rock")
  const BOCCHI_2: AnimeIndexer := AnimeIndexer("Bocchi the Rock! 2", "https://kitsunekko.net/bocchi-the-rock-2")

  /** An exact title ranks before the sequel whatever the sequel's fuzzy score. */
  method RankExactTitle(fuzzy: Fuzzy) returns (r: seq<AnimeIndexer>)
    requires BelowSentinel(fuzzy)
    requires fuzzy(ToLower(BOCCHI_2.name), ToLower(BOCCHI.name)).Some?
    ensures r == [BOCCHI, BOCCHI_2]
  {
    r := FuzzyMatchIndexers(BOCCHI.name, [BOCCHI_2, BOCCHI], fuzzy);
    LengthMismatchNotExact(BOCCHI.name, BOCCHI_2);
    ExactMatchScoresHighest(BOCCHI.name, BOCCHI, BOCCHI_2, fuzzy);
    TwoCandidateRanking(BOCCHI.name, [BOCCHI_2, BOCCHI], r, fuzzy, BOCCHI, BOCCHI_2);
  }

  /** With equal fuzzy scores, the shorter title (closer to "Bocchi") ranks first. */
  method RankEqualScores(fuzzy: Fuzzy) returns (r: seq<AnimeIndexer>)
    requires fuzzy(ToLower(BOCCHI.name), ToLower("Bocchi")).Some?
    requires fuzzy(ToLower(BOCCHI.name), ToLower("Bocchi")) == fuzzy(ToLower(BOCCHI_2.name), ToLower("Bocchi"))
    ensures r == [BOCCHI, BOCCHI_2]
  {
    r := FuzzyMatchIndexers("Bocchi", [BOCCHI_2, BOCCHI], fuzzy);
    LengthMismatchNotExact("Bocchi", BOCCHI);
    LengthMismatchNotExact("Bocchi", BOCCHI_2);
    assert LengthPenalty("Bocchi", BOCCHI) == 10 && LengthPenalty("Bocchi", BOCCHI_2) == 12;
    TwoCandidateRanking("Bocchi", [BOCCHI_2, BOCCHI], r, fuzzy, BOCCHI, BOCCHI_2);
  }

  /** A candidate the matcher rejects is left out: only the sequel survives "Bocchi 2". */
  method RankRejectsUnmatched(fuzzy: Fuzzy) returns (r: seq<AnimeIndexer>)
    requires fuzzy(ToLower(BOCCHI.name), ToLower("Bocchi 2")).None?
    requires fuzzy(ToLower(BOCCHI_2.name), ToLower("Bocchi 2")).Some?
    ensures r == [BOCCHI_2]
  {
    r := FuzzyMatchIndexers("Bocchi 2", [BOCCHI_2, BOCCHI], fuzzy);
    LengthMismatchNotExact("Bocchi 2", BOCCHI);
    LengthMismatchNotExact("Bocchi 2", BOCCHI_2);
    OneCandidateRanking("Bocchi 2", [BOCCHI_2, BOCCHI], r, fuzzy, BOCCHI, BOCCHI_2);
  }
}
