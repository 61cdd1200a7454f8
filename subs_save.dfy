/**
 * src/subs/save.rs: writing downloaded subtitles to disk. `save_subs` creates
 * the `tmp` directory, then writes sub `i` to `tmp/<anime name>-<i>.srt`, one
 * file per sub in index order, stopping at the first failure.
 *
 * The filesystem is a `FileSystem` object: a map from file path to contents and
 * a set of directories. Which operations the operating system refuses is not
 * known to the program, so it is fixed per object: `denied` lists the paths
 * that cannot be created, `unwritable` the files whose write fails after
 * creation, and `partial` how many characters a failing write has put into
 * its file before it fails (none when the path is absent).
 */
module SubsSave {
  import opened Wrappers
  import opened TextUtil

  datatype SaveError = DirCreationFailed(dir: string) | FileCreationFailed(path: string) | WriteFailed(path: string)

  const TMP_DIR: string := "tmp"

  /**
   * What a failing `write_all` of `content` to `path` leaves in the file: the
   * characters written before the failure, a prefix of `content`.
   */
  function PartialWrite(partial: map<string, nat>, path: string, content: string): (left: string)
    ensures left <= content
    ensures path !in partial ==> left == ""
  {
    var n := if path in partial then partial[path] else 0;
    if n < |content| then content[..n] else content
  }

  class FileSystem {
    var files: map<string, string>
    var dirs: set<string>
    const denied: set<string>
    const unwritable: set<string>
    const partial: map<string, nat>

    constructor (files: map<string, string>, dirs: set<string>, denied: set<string>, unwritable: set<string>,
                 partial: map<string, nat>)
      ensures this.files == files && this.dirs == dirs
      ensures this.denied == denied && this.unwritable == unwritable && this.partial == partial
    {
      this.files := files;
      this.dirs := dirs;
      this.denied := denied;
      this.unwritable := unwritable;
      this.partial := partial;
    }

    /** `std::fs::create_dir_all`: an existing directory is fine; otherwise it succeeds unless refused. */
    method CreateDirAll(path: string) returns (ok: bool)
      modifies this
      ensures ok == (path in old(dirs) || path !in denied)
      ensures dirs == if ok then old(dirs) + {path} else old(dirs)
      ensures files == old(files)
    {
      ok := path in dirs || path !in denied;
      if ok {
        dirs := dirs + {path};
      }
    }

    /** `File::create`: creates or truncates the file. */
    method Create(path: string) returns (ok: bool)
      modifies this
      ensures ok == (path !in denied)
      ensures files == if ok then old(files)[path := ""] else old(files)
      ensures dirs == old(dirs)
    {
      ok := path !in denied;
      if ok {
        files := files[path := ""];
      }
    }

    /**
     * `write_all` on a freshly created file: on success the file holds
     * `content`; a failure may come after part of it was written.
     */
    method WriteAll(path: string, content: string) returns (ok: bool)
      modifies this
      ensures ok == (path !in unwritable)
      ensures files == old(files)[path := if ok then content else PartialWrite(partial, path, content)]
      ensures dirs == old(dirs)
    {
      ok := path !in unwritable;
      if ok {
        files := files[path := content];
      } else {
        files := files[path := PartialWrite(partial, path, content)];
      }
    }
  }

  /** `format!("tmp/{}-{}.srt", anime_name, i)` */
  function SubPath(animeName: string, i: nat): string {
    TMP_DIR + "/" + animeName + "-" + NatToString(i) + ".srt"
  }

  /** Distinct indices give distinct paths, so no sub overwrites another. */
  lemma SubPathInjective(animeName: string, i: nat, j: nat)
    requires SubPath(animeName, i) == SubPath(animeName, j)
    ensures i == j
  {
    var head := TMP_DIR + "/" + animeName + "-";
    var p, q := SubPath(animeName, i), SubPath(animeName, j);
    assert p == head + NatToString(i) + ".srt";
    assert q == head + NatToString(j) + ".srt";
    assert NatToString(i) == p[|head|..|p| - 4];
    assert NatToString(j) == q[|head|..|q| - 4];
    NatToStringInjective(i, j);
  }

  /**
   * The remaining subs from index `i` on, saved into `files`: the result of the
   * loop and the files afterwards.
   */
  function SaveFrom(denied: set<string>, unwritable: set<string>, partial: map<string, nat>, files: map<string, string>,
                    animeName: string, subs: seq<string>, i: nat): (Result<(), SaveError>, map<string, string>)
    requires i <= |subs|
    decreases |subs| - i
  {
    if i == |subs| then (Ok(()), files)
    else
      var path := SubPath(animeName, i);
      if path in denied then (Err(FileCreationFailed(path)), files)
      else if path in unwritable then (Err(WriteFailed(path)), files[path := PartialWrite(partial, path, subs[i])])
      else SaveFrom(denied, unwritable, partial, files[path := subs[i]], animeName, subs, i + 1)
  }

  /** The index of the first sub from `i` on whose file cannot be created or written, or `|subs|`. */
  function FirstFailure(denied: set<string>, unwritable: set<string>, animeName: string, subs: seq<string>, i: nat): (k: nat)
    requires i <= |subs|
    ensures i <= k <= |subs|
    decreases |subs| - i
  {
    if i == |subs| then i
    else
      var path := SubPath(animeName, i);
      if path in denied || path in unwritable then i
      else FirstFailure(denied, unwritable, animeName, subs, i + 1)
  }

  /**
   * What the loop from index `i` does: it fails exactly at the first failing
   * index `k`, with the error of that operation; every sub before `k` is in its
   * own file; a failed write leaves a prefix of its sub; no other path changes,
   * including the files of the subs after `k`.
   */
  lemma {:induction false} SaveFromEffect(denied: set<string>, unwritable: set<string>, partial: map<string, nat>, files: map<string, string>,
                                          animeName: string, subs: seq<string>, i: nat)
    requires i <= |subs|
    ensures var (r, after) := SaveFrom(denied, unwritable, partial, files, animeName, subs, i);
            var k := FirstFailure(denied, unwritable, animeName, subs, i);
            && (r.Ok? <==> k == |subs|)
            && (r.Err? ==> r.error == if SubPath(animeName, k) in denied then FileCreationFailed(SubPath(animeName, k))
                                      else WriteFailed(SubPath(animeName, k)))
            && (forall j :: i <= j < k ==> SubPath(animeName, j) in after && after[SubPath(animeName, j)] == subs[j])
            && (r.Err? && SubPath(animeName, k) !in denied ==>
                  && SubPath(animeName, k) in after
                  && after[SubPath(animeName, k)] <= subs[k]
                  && after[SubPath(animeName, k)] == PartialWrite(partial, SubPath(animeName, k), subs[k]))
            && (forall p :: (forall j :: i <= j <= k && j < |subs| ==> p != SubPath(animeName, j)) ==>
                              (p in after <==> p in files) && (p in files ==> after[p] == files[p]))
    decreases |subs| - i
  {
    if i < |subs| {
      var path := SubPath(animeName, i);
      if path !in denied && path !in unwritable {
        var files' := files[path := subs[i]];
        SaveFromEffect(denied, unwritable, partial, files', animeName, subs, i + 1);
        var (r, after) := SaveFrom(denied, unwritable, partial, files', animeName, subs, i + 1);
        var k := FirstFailure(denied, unwritable, animeName, subs, i + 1);
        forall j | i + 1 <= j <= k && j < |subs|
          ensures path != SubPath(animeName, j)
        {
          if path == SubPath(animeName, j) {
            SubPathInjective(animeName, i, j);
          }
        }
      }
    }
  }

  /**
   * `save_subs`: creates `tmp` unless it exists (a refusal aborts before any
   * file is written), then saves every sub in index order, stopping at the
   * first failure; the files of earlier subs stay written.
   */
  method SaveSubs(fs: FileSystem, animeName: string, subs: seq<string>) returns (r: Result<(), SaveError>)
    modifies fs
    ensures TMP_DIR in fs.denied && TMP_DIR !in old(fs.dirs) ==> r == Err(DirCreationFailed(TMP_DIR)) && fs.files == old(fs.files) && fs.dirs == old(fs.dirs)
    ensures (TMP_DIR !in fs.denied || TMP_DIR in old(fs.dirs)) ==>
              && fs.dirs == old(fs.dirs) + {TMP_DIR}
              && (r, fs.files) == SaveFrom(fs.denied, fs.unwritable, fs.partial, old(fs.files), animeName, subs, 0)
  {
    var created := fs.CreateDirAll(TMP_DIR);
    if !created {
      return Err(DirCreationFailed(TMP_DIR));
    }
    for i := 0 to |subs|
      invariant fs.dirs == old(fs.dirs) + {TMP_DIR}
      invariant SaveFrom(fs.denied, fs.unwritable, fs.partial, old(fs.files), animeName, subs, 0)
                == SaveFrom(fs.denied, fs.unwritable, fs.partial, fs.files, animeName, subs, i)
    {
      var fileName := SubPath(animeName, i);
      ghost var before := fs.files;
      var ok := fs.Create(fileName);
      if !ok {
        return Err(FileCreationFailed(fileName));
      }
      ok := fs.WriteAll(fileName, subs[i]);
      if !ok {
        assert fs.files == before[fileName := PartialWrite(fs.partial, fileName, subs[i])];
        return Err(WriteFailed(fileName));
      }
      assert fs.files == before[fileName := subs[i]];
    }
    return Ok(());
  }
}
