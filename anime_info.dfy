/**
 * anime_info.py: the episode tag of a release file name and the grouping of
 * search results into an ordered list of episodes.
 *
 * The episode pattern (the anime name, then either a dash and a number or an
 * `S<season>E<episode>` pair) is applied by `re.findall`, which yields one
 * 4-tuple per match: an always-empty marker group, the digits after a dash,
 * and the season and episode digits of the `SxxEyy` form; a group that did not
 * take part is the empty string. The regex
 * engine is the `EpisodeFinder` parameter, which returns those tuples.
 */
module AnimeInfo {
  import opened Wrappers
  import opened TextUtil

  /** One `findall` tuple of the episode pattern. */
  datatype EpisodeTuple = EpisodeTuple(marker: string, dashNumber: string, season: string, episode: string)

  /** `Exception(f'Could not find episode number in {filename}')` */
  datatype EpisodeError = EpisodeNotFound(filename: string)

  /** The regex engine: `re.findall` of the episode pattern for `prefix` over `filename`. */
  type EpisodeFinder = (string, string) -> seq<EpisodeTuple>

  /** The tag `S<season>E<episode>` that `get_episode_of_filename` builds. */
  function Tag(season: string, episode: string): string {
    "S" + season + "E" + episode
  }

  /** `get_episode_of_filename`, given the tuples `findall` returned for `filename`. */
  function EpisodeOfFilename(filename: string, found: seq<EpisodeTuple>): (r: Result<string, EpisodeError>)
    ensures r.Err? <==> found == []
    ensures r.Err? ==> r.error == EpisodeNotFound(filename)
    ensures r.Ok? && found[0].season != "" ==> r.value == Tag(found[0].season, found[0].episode)
    ensures r.Ok? && found[0].season == "" ==> r.value == Tag("01", found[0].dashNumber)
  {
    if |found| == 0 then Err(EpisodeNotFound(filename))
    else if found[0].season != "" then Ok(Tag(found[0].season, found[0].episode))
    else Ok("S01E" + found[0].dashNumber)
  }

  /** The characters of `s` before its first `E`. */
  function BeforeE(s: string): string {
    if s == [] || s[0] == 'E' then [] else [s[0]] + BeforeE(s[1..])
  }

  lemma {:induction false} BeforeEOfDigits(digits: string, rest: string)
    requires forall i :: 0 <= i < |digits| ==> IsDigit(digits[i])
    ensures BeforeE(digits + "E" + rest) == digits
  {
    if digits != [] {
      assert (digits + "E" + rest)[1..] == digits[1..] + "E" + rest;
      BeforeEOfDigits(digits[1..], rest);
    }
  }

  /**
   * Tags of digit groups (what `\d+` captures) determine their season and
   * episode: two different episodes never share a tag.
   */
  lemma TagInjective(s1: string, e1: string, s2: string, e2: string)
    requires IsDecimal(s1) && IsDecimal(s2)
    requires Tag(s1, e1) == Tag(s2, e2)
    ensures s1 == s2 && e1 == e2
  {
    var t := Tag(s1, e1);
    assert t[1..] == s1 + "E" + e1;
    assert t[1..] == s2 + "E" + e2;
    BeforeEOfDigits(s1, e1);
    BeforeEOfDigits(s2, e2);
    assert e1 == t[2 + |s1|..];
    assert e2 == t[2 + |s2|..];
  }

  /**
   * The dash form names season 1: `Show - 05` gets the same tag as a file
   * tagged `S01E05`.
   */
  lemma DashFormIsSeasonOne(filename: string, other: string, tuple: EpisodeTuple)
    requires tuple.season == ""
    ensures EpisodeOfFilename(filename, [tuple]) == EpisodeOfFilename(other, [EpisodeTuple("", "", "01", tuple.dashNumber)])
  {
    assert EpisodeOfFilename(filename, [tuple]).value == "S01E" + tuple.dashNumber;
    assert "S" + "01" + "E" + tuple.dashNumber == "S01E" + tuple.dashNumber;
  }

  /** Tags are compared as strings, so episode 10 sorts before episode 9. */
  lemma TagsAreNotNumeric()
    ensures LexLe(Tag("01", "10"), Tag("01", "9")) && !LexLe(Tag("01", "9"), Tag("01", "10"))
  {
    assert Tag("01", "10") == "S01E10";
    assert Tag("01", "9") == "S01E9";
  }

  datatype EpisodeDownloadInfo = EpisodeDownloadInfo(
    anime: string,
    remoteFileName: string,
    magnet: string,
    seeders: int,
    tag: Option<string>)

  /** The `episode` property: the tag of the remote file name, searched after the anime name. */
  function EpisodeOf(e: EpisodeDownloadInfo, finder: EpisodeFinder): Result<string, EpisodeError> {
    EpisodeOfFilename(e.remoteFileName, finder(e.anime, e.remoteFileName))
  }

  /** An episode paired with its sort key. */
  datatype Keyed = Keyed(key: string, info: EpisodeDownloadInfo)

  /**
   * The sort keys of all episodes, computed in list order as `sorted` does; the
   * first file name without an episode aborts with its error.
   */
  function Keys(episodes: seq<EpisodeDownloadInfo>, finder: EpisodeFinder): (r: Result<seq<Keyed>, EpisodeError>)
    ensures r.Ok? <==> forall i :: 0 <= i < |episodes| ==> EpisodeOf(episodes[i], finder).Ok?
    ensures r.Ok? ==> |r.value| == |episodes| &&
                      forall i :: 0 <= i < |episodes| ==> r.value[i] == Keyed(EpisodeOf(episodes[i], finder).value, episodes[i])
    ensures r.Err? ==> exists k :: 0 <= k < |episodes| && EpisodeOf(episodes[k], finder) == Err(r.error) &&
                                   forall i :: 0 <= i < k ==> EpisodeOf(episodes[i], finder).Ok?
  {
    if episodes == [] then Ok([])
    else
      match EpisodeOf(episodes[0], finder)
      case Err(e) => Err(e)
      case Ok(key) =>
        match Keys(episodes[1..], finder)
        case Err(e) =>
          ghost var k :| 0 <= k < |episodes| - 1 && EpisodeOf(episodes[1..][k], finder) == Err(e) &&
                         forall i :: 0 <= i < k ==> EpisodeOf(episodes[1..][i], finder).Ok?;
          assert EpisodeOf(episodes[k + 1], finder) == Err(e);
          Err(e)
        case Ok(rest) => Ok([Keyed(key, episodes[0])] + rest)
  }

  predicate SortedByKey(s: seq<Keyed>) {
    forall i :: 0 < i < |s| ==> LexLe(s[i - 1].key, s[i].key)
  }

  /** The elements of `s` whose key is `k`, in order. */
  function WithKey(s: seq<Keyed>, k: string): seq<Keyed> {
    if s == [] then []
    else (if s[0].key == k then [s[0]] else []) + WithKey(s[1..], k)
  }

  /** Places `x` before the first element whose key is not smaller. */
  function Insert(x: Keyed, s: seq<Keyed>): seq<Keyed> {
    if s == [] || LexLe(x.key, s[0].key) then [x] + s else [s[0]] + Insert(x, s[1..])
  }

  /** `sorted(..., key=...)`: a stable sort by key. */
  function Sort(s: seq<Keyed>): seq<Keyed> {
    if s == [] then [] else Insert(s[0], Sort(s[1..]))
  }

  lemma {:induction false} InsertSorted(x: Keyed, s: seq<Keyed>)
    requires SortedByKey(s)
    ensures SortedByKey(Insert(x, s))
    ensures |Insert(x, s)| == |s| + 1
    ensures Insert(x, s)[0] == x || (s != [] && Insert(x, s)[0] == s[0])
  {
    if s != [] && !LexLe(x.key, s[0].key) {
      InsertSorted(x, s[1..]);
      LexLeTotal(x.key, s[0].key);
      var t := Insert(x, s);
      forall i | 0 < i < |t|
        ensures LexLe(t[i - 1].key, t[i].key)
      {
        if i == 1 && s[1..] != [] && t[1] == s[1] {
          assert LexLe(s[0].key, s[1].key);
        }
      }
    }
  }

  lemma {:induction false} InsertWithKey(x: Keyed, s: seq<Keyed>, k: string)
    ensures WithKey(Insert(x, s), k) == (if x.key == k then [x] else []) + WithKey(s, k)
  {
    var t := Insert(x, s);
    if s == [] || LexLe(x.key, s[0].key) {
      assert t[0] == x && t[1..] == s;
    } else {
      var head, mid := s[0], Insert(x, s[1..]);
      assert t[0] == head && t[1..] == mid;
      InsertWithKey(x, s[1..], k);
      LexLeReflexive(x.key);
      assert head.key != x.key;
      var hs := if head.key == k then [head] else [];
      var xs := if x.key == k then [x] else [];
      assert WithKey(t, k) == hs + WithKey(mid, k);
      assert WithKey(s, k) == hs + WithKey(s[1..], k);
      assert hs == [] || xs == [];
      assert hs + (xs + WithKey(s[1..], k)) == xs + (hs + WithKey(s[1..], k));
    }
  }

  lemma {:induction false} InsertMultiset(x: Keyed, s: seq<Keyed>)
    ensures multiset(Insert(x, s)) == multiset(s) + multiset{x}
  {
    if s != [] && !LexLe(x.key, s[0].key) {
      InsertMultiset(x, s[1..]);
      assert s == [s[0]] + s[1..];
    }
  }

  lemma {:induction false} SortSorted(s: seq<Keyed>)
    ensures SortedByKey(Sort(s))
  {
    if s != [] {
      SortSorted(s[1..]);
      InsertSorted(s[0], Sort(s[1..]));
    }
  }

  lemma {:induction false} SortMultiset(s: seq<Keyed>)
    ensures multiset(Sort(s)) == multiset(s)
  {
    if s != [] {
      SortMultiset(s[1..]);
      InsertMultiset(s[0], Sort(s[1..]));
      assert s == [s[0]] + s[1..];
    }
  }

  lemma {:induction false} SortWithKey(s: seq<Keyed>, k: string)
    ensures WithKey(Sort(s), k) == WithKey(s, k)
  {
    if s != [] {
      SortWithKey(s[1..], k);
      InsertWithKey(s[0], Sort(s[1..]), k);
    }
  }

  /**
   * The sort orders by key, keeps every element, and is stable: the elements
   * with any one key keep their input order.
   */
  lemma SortIsStableSort(s: seq<Keyed>)
    ensures SortedByKey(Sort(s))
    ensures multiset(Sort(s)) == multiset(s)
    ensures forall k :: WithKey(Sort(s), k) == WithKey(s, k)
  {
    SortSorted(s);
    SortMultiset(s);
    forall k
      ensures WithKey(Sort(s), k) == WithKey(s, k)
    {
      SortWithKey(s, k);
    }
  }

  /** Whether an episode is kept by the tag and anime filters. */
  predicate Selected(e: EpisodeDownloadInfo, anime: string, tag: Option<string>) {
    (tag.Some? ==> e.tag == tag) && e.anime == anime
  }

  /** The two list comprehensions: tag filter (when a tag is given), then anime filter. */
  function Keep(s: seq<Keyed>, anime: string, tag: Option<string>): seq<Keyed> {
    if s == [] then []
    else (if Selected(s[0].info, anime, tag) then [s[0]] else []) + Keep(s[1..], anime, tag)
  }

  /** The filters keep exactly the selected elements. */
  lemma {:induction false} KeepMembers(s: seq<Keyed>, anime: string, tag: Option<string>)
    ensures forall x :: x in Keep(s, anime, tag) <==> x in s && Selected(x.info, anime, tag)
  {
    if s != [] {
      KeepMembers(s[1..], anime, tag);
      assert s == [s[0]] + s[1..];
    }
  }

  function Infos(s: seq<Keyed>): (r: seq<EpisodeDownloadInfo>)
    ensures |r| == |s| && forall i :: 0 <= i < |s| ==> r[i] == s[i].info
  {
    if s == [] then [] else [s[0].info] + Infos(s[1..])
  }

  datatype EpisodeGroup = EpisodeGroup(anime: string, tag: Option<string>, episodes: seq<EpisodeDownloadInfo>)

  /** `EpisodeGroup.from_episodes` */
  function FromEpisodes(anime: string, tag: Option<string>, episodes: seq<EpisodeDownloadInfo>,
                        finder: EpisodeFinder): Result<EpisodeGroup, EpisodeError>
  {
    match Keys(episodes, finder)
    case Err(e) => Err(e)
    case Ok(keyed) => Ok(EpisodeGroup(anime, tag, Infos(Keep(Sort(keyed), anime, tag))))
  }

  lemma {:induction false} KeepWithKey(s: seq<Keyed>, anime: string, tag: Option<string>, k: string)
    ensures WithKey(Keep(s, anime, tag), k) == Keep(WithKey(s, k), anime, tag)
  {
    if s != [] {
      KeepWithKey(s[1..], anime, tag, k);
      var head := if Selected(s[0].info, anime, tag) then [s[0]] else [];
      WithKeyAppend(head, Keep(s[1..], anime, tag), k);
      var head' := if s[0].key == k then [s[0]] else [];
      KeepAppend(head', WithKey(s[1..], k), anime, tag);
    }
  }

  lemma {:induction false} WithKeyAppend(a: seq<Keyed>, b: seq<Keyed>, k: string)
    ensures WithKey(a + b, k) == WithKey(a, k) + WithKey(b, k)
  {
    if a == [] {
      assert a + b == b;
    } else {
      var h := if a[0].key == k then [a[0]] else [];
      assert (a + b)[0] == a[0] && (a + b)[1..] == a[1..] + b;
      assert WithKey(a + b, k) == h + WithKey(a[1..] + b, k);
      WithKeyAppend(a[1..], b, k);
      assert WithKey(a, k) == h + WithKey(a[1..], k);
      assert h + (WithKey(a[1..], k) + WithKey(b, k)) == (h + WithKey(a[1..], k)) + WithKey(b, k);
    }
  }

  lemma {:induction false} KeepAppend(a: seq<Keyed>, b: seq<Keyed>, anime: string, tag: Option<string>)
    ensures Keep(a + b, anime, tag) == Keep(a, anime, tag) + Keep(b, anime, tag)
  {
    if a == [] {
      assert a + b == b;
    } else {
      var h := if Selected(a[0].info, anime, tag) then [a[0]] else [];
      assert (a + b)[0] == a[0] && (a + b)[1..] == a[1..] + b;
      assert Keep(a + b, anime, tag) == h + Keep(a[1..] + b, anime, tag);
      KeepAppend(a[1..], b, anime, tag);
      assert Keep(a, anime, tag) == h + Keep(a[1..], anime, tag);
      assert h + (Keep(a[1..], anime, tag) + Keep(b, anime, tag)) == (h + Keep(a[1..], anime, tag)) + Keep(b, anime, tag);
    }
  }

  /** The first element a filter keeps comes from the filtered sequence. */
  lemma {:induction false} KeepHead(s: seq<Keyed>, anime: string, tag: Option<string>) returns (j: nat)
    requires Keep(s, anime, tag) != []
    ensures j < |s| && s[j] == Keep(s, anime, tag)[0]
  {
    if Selected(s[0].info, anime, tag) {
      j := 0;
    } else {
      var j' := KeepHead(s[1..], anime, tag);
      j := j' + 1;
    }
  }

  lemma {:induction false} KeepSorted(s: seq<Keyed>, anime: string, tag: Option<string>)
    requires SortedByKey(s)
    ensures SortedByKey(Keep(s, anime, tag))
  {
    if s != [] {
      var tail := s[1..];
      assert SortedByKey(tail) by {
        forall i | 0 < i < |tail|
          ensures LexLe(tail[i - 1].key, tail[i].key)
        {
          assert tail[i - 1] == s[i] && tail[i] == s[i + 1];
        }
      }
      KeepSorted(tail, anime, tag);
      var rest := Keep(tail, anime, tag);
      if Selected(s[0].info, anime, tag) {
        var r := Keep(s, anime, tag);
        assert r == [s[0]] + rest;
        if rest != [] {
          var j := KeepHead(tail, anime, tag);
          SortedPairwise(s, 0, j + 1);
          assert tail[j] == s[j + 1];
        }
        forall i | 0 < i < |r|
          ensures LexLe(r[i - 1].key, r[i].key)
        {
          if i > 1 {
            assert r[i - 1] == rest[i - 2] && r[i] == rest[i - 1];
          }
        }
      }
    }
  }

  lemma {:induction false} SortedPairwise(s: seq<Keyed>, i: nat, j: nat)
    requires SortedByKey(s) && i <= j < |s|
    ensures LexLe(s[i].key, s[j].key)
    decreases j - i
  {
    if i == j {
      LexLeReflexive(s[i].key);
    } else {
      SortedPairwise(s, i, j - 1);
      LexLeTransitive(s[i].key, s[j - 1].key, s[j].key);
    }
  }

  /**
   * `from_episodes` fails exactly when some episode's file name has no episode
   * tag, and then with the error of the first such episode, whether or not the
   * filters would have dropped it.
   */
  lemma FromEpisodesFails(anime: string, tag: Option<string>, episodes: seq<EpisodeDownloadInfo>, finder: EpisodeFinder)
    ensures FromEpisodes(anime, tag, episodes, finder).Err? <==> exists i :: 0 <= i < |episodes| && EpisodeOf(episodes[i], finder).Err?
    ensures FromEpisodes(anime, tag, episodes, finder).Err? ==>
              exists k :: 0 <= k < |episodes| && EpisodeOf(episodes[k], finder) == Err(FromEpisodes(anime, tag, episodes, finder).error) &&
                          forall i :: 0 <= i < k ==> EpisodeOf(episodes[i], finder).Ok?
  {
  }

  /** Sorting moves elements without adding or dropping any. */
  lemma SortMembers(keyed: seq<Keyed>)
    ensures forall x :: x in Sort(keyed) <==> x in keyed
  {
    SortIsStableSort(keyed);
    forall x
      ensures x in Sort(keyed) <==> x in keyed
    {
      assert x in Sort(keyed) <==> x in multiset(Sort(keyed));
      assert x in keyed <==> x in multiset(keyed);
    }
  }

  /** Every episode the filters keep from the sorted keys is a selected input episode. */
  lemma KeptAreSelected(keyed: seq<Keyed>, episodes: seq<EpisodeDownloadInfo>, anime: string, tag: Option<string>)
    requires |keyed| == |episodes| && forall i :: 0 <= i < |keyed| ==> keyed[i].info == episodes[i]
    ensures forall e :: e in Infos(Keep(Sort(keyed), anime, tag)) ==> Selected(e, anime, tag) && e in episodes
  {
    var result := Keep(Sort(keyed), anime, tag);
    var g := Infos(result);
    SortMembers(keyed);
    KeepMembers(Sort(keyed), anime, tag);
    forall e | e in g
      ensures Selected(e, anime, tag) && e in episodes
    {
      var i :| 0 <= i < |g| && g[i] == e;
      assert result[i] in result;
      var j :| 0 <= j < |keyed| && keyed[j] == result[i];
      assert episodes[j] == e;
    }
  }

  /** Every selected input episode is kept. */
  lemma SelectedAreKept(keyed: seq<Keyed>, episodes: seq<EpisodeDownloadInfo>, anime: string, tag: Option<string>)
    requires |keyed| == |episodes| && forall i :: 0 <= i < |keyed| ==> keyed[i].info == episodes[i]
    ensures forall e :: e in episodes && Selected(e, anime, tag) ==> e in Infos(Keep(Sort(keyed), anime, tag))
  {
    var result := Keep(Sort(keyed), anime, tag);
    var g := Infos(result);
    SortMembers(keyed);
    KeepMembers(Sort(keyed), anime, tag);
    forall e | e in episodes && Selected(e, anime, tag)
      ensures e in g
    {
      var j :| 0 <= j < |episodes| && episodes[j] == e;
      assert keyed[j] in keyed;
      assert keyed[j] in result;
      var i :| 0 <= i < |result| && result[i] == keyed[j];
      assert g[i] == e;
    }
  }

  /**
   * On success, the group holds exactly the selected input episodes: every
   * episode has the anime and, when given, the tag asked for and comes from the
   * input, and no selected input episode is dropped.
   */
  lemma FromEpisodesSelection(anime: string, tag: Option<string>, episodes: seq<EpisodeDownloadInfo>, finder: EpisodeFinder)
    requires FromEpisodes(anime, tag, episodes, finder).Ok?
    ensures var g := FromEpisodes(anime, tag, episodes, finder).value;
            && g.anime == anime && g.tag == tag
            && (forall e :: e in g.episodes ==> Selected(e, anime, tag) && e in episodes)
            && (forall e :: e in episodes && Selected(e, anime, tag) ==> e in g.episodes)
  {
    var keyed := Keys(episodes, finder).value;
    assert forall i :: 0 <= i < |keyed| ==> keyed[i].info == episodes[i];
    KeptAreSelected(keyed, episodes, anime, tag);
    SelectedAreKept(keyed, episodes, anime, tag);
  }

  /**
   * On success, the group's episodes come in order of their episode tags, and
   * the episodes that share a tag keep their input order: for every tag, they
   * are the selected input episodes with that tag, in input order.
   */
  lemma FromEpisodesOrder(anime: string, tag: Option<string>, episodes: seq<EpisodeDownloadInfo>, finder: EpisodeFinder)
    requires FromEpisodes(anime, tag, episodes, finder).Ok?
    ensures var g := FromEpisodes(anime, tag, episodes, finder).value;
            var keyed := Keys(episodes, finder).value;
            var result := Keep(Sort(keyed), anime, tag);
            && g.episodes == Infos(result)
            && (forall i :: 0 <= i < |g.episodes| ==> EpisodeOf(g.episodes[i], finder) == Ok(result[i].key))
            && SortedByKey(result)
            && (forall k :: WithKey(result, k) == Keep(WithKey(keyed, k), anime, tag))
  {
    var keyed := Keys(episodes, finder).value;
    var sorted := Sort(keyed);
    var result := Keep(sorted, anime, tag);
    SortIsStableSort(keyed);
    SortMembers(keyed);
    KeepMembers(sorted, anime, tag);
    KeepSorted(sorted, anime, tag);
    forall k
      ensures WithKey(result, k) == Keep(WithKey(keyed, k), anime, tag)
    {
      KeepWithKey(sorted, anime, tag, k);
    }
    var g := Infos(result);
    forall i | 0 <= i < |g|
      ensures EpisodeOf(g[i], finder) == Ok(result[i].key)
    {
      assert result[i] in keyed;
      var j :| 0 <= j < |keyed| && keyed[j] == result[i];
    }
  }
}
