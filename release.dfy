/** The release-stage command of the Java language container
    (internal/container/java/release/release.go): every source path of every library
    in the request has its pom.xml files rewritten to the library's next snapshot
    version, into the output directory; the first failure ends the command and is
    reported in the response. */
module Release {
  import opened Strs
  import opened Outcome
  import opened Fs
  import opened PomUpdate

  /** A library of the release-stage request. */
  datatype Library = Library(id: string, version: string, sourcePaths: seq<string>)

  /** ReleaseStageResponse: its Error is empty on success. */
  datatype Response = Response(error: string)

  /** One source path to process, with the library it belongs to. */
  datatype Job = Job(id: string, version: string, path: string)

  /** The source paths of one library, in order. */
  function JobsOf(lib: Library): (r: seq<Job>)
    ensures |r| == |lib.sourcePaths|
    ensures forall k | 0 <= k < |r| :: r[k] == Job(lib.id, lib.version, lib.sourcePaths[k])
  {
    seq(|lib.sourcePaths|, k requires 0 <= k < |lib.sourcePaths| => Job(lib.id, lib.version, lib.sourcePaths[k]))
  }

  /** The order in which Stage visits the source paths: library by library, and within
      a library in the order of its source paths. */
  function Jobs(libs: seq<Library>): seq<Job> {
    if |libs| == 0 then [] else JobsOf(libs[0]) + Jobs(libs[1..])
  }

  /** filepath.Join(RepoDir, path). */
  function SourceDir(repoDir: Path, path: string): (src: Path)
    ensures Under(repoDir, src)
  {
    repoDir + ToPath(path)
  }

  /** The steps `step` on the source paths `jobs` in order, stopping at the first
      failure. */
  ghost function StageAll(m: map<Path, Node>, jobs: seq<Job>, step: (map<Path, Node>, Job) -> Updated): Updated {
    if |jobs| == 0 then Updated(None, m)
    else
      var r := StageAll(m, jobs[..|jobs| - 1], step);
      if r.failure.Some? then r else step(r.entries, jobs[|jobs| - 1])
  }

  /** The step of Stage: UpdateVersions on one source path. */
  ghost function VersionStep(repoDir: Path, outputDir: Path): (map<Path, Node>, Job) -> Updated {
    (m: map<Path, Node>, job: Job) => UpdateVersionsSpec(m, repoDir, SourceDir(repoDir, job.path), outputDir, job.id, job.version)
  }

  /** Stage: the tree it leaves and the failure that stopped it, if any. */
  ghost function StageSpec(m: map<Path, Node>, repoDir: Path, outputDir: Path, libs: seq<Library>): Updated {
    StageAll(m, Jobs(libs), VersionStep(repoDir, outputDir))
  }

  method Stage(fs: FileSystem, repoDir: Path, outputDir: Path, libs: seq<Library>)
    returns (response: Response, err: Status)
    requires fs.Valid()
    modifies fs
    ensures fs.Valid()
    ensures var r := StageSpec(old(fs.entries), repoDir, outputDir, libs);
      fs.entries == r.entries && (err.None? <==> r.failure.None?)
      && (err.Some? ==> HasPrefix(err.value, Describe(r.failure.value)))
    ensures response.error == if err.Some? then err.value else ""
  {
    ghost var m := fs.entries;
    ghost var step := VersionStep(repoDir, outputDir);
    response := Response("");
    var i := 0;
    while i < |libs|
      invariant 0 <= i <= |libs| && fs.Valid()
      invariant StageAll(m, Jobs(libs[..i]), step) == Updated(None, fs.entries)
    {
      var lib := libs[i];
      var j := 0;
      JobsStart(libs, i);
      while j < |lib.sourcePaths|
        invariant 0 <= j <= |lib.sourcePaths| && fs.Valid()
        invariant StageAll(m, Jobs(libs[..i]) + JobsOf(lib)[..j], step) == Updated(None, fs.entries)
      {
        var path := lib.sourcePaths[j];
        ghost var done := Jobs(libs[..i]) + JobsOf(lib)[..j];
        JobsNext(libs, i, j);
        StageAllSnoc(m, done, Job(lib.id, lib.version, path), step);
        var e := UpdateVersions(fs, repoDir, SourceDir(repoDir, path), outputDir, lib.id, lib.version);
        if e.Some? {
          response := Response(e.value);
          JobsSplit(libs, i, j + 1);
          StageAllStops(m, Jobs(libs[..i]) + JobsOf(lib)[..j + 1], JobsOf(lib)[j + 1..] + Jobs(libs[i + 1..]), step);
          return response, e;
        }
        j := j + 1;
      }
      JobsSnoc(libs, i);
      i := i + 1;
    }
    assert libs[..i] == libs;
    err := None;
  }

  /** One more source path, after source paths that all succeeded, is one more step. */
  lemma StageAllSnoc(m: map<Path, Node>, done: seq<Job>, job: Job, step: (map<Path, Node>, Job) -> Updated)
    requires StageAll(m, done, step).failure.None?
    ensures StageAll(m, done + [job], step) == step(StageAll(m, done, step).entries, job)
  {
    assert (done + [job])[..|done|] == done;
  }

  lemma {:induction false} JobsAppend(a: seq<Library>, b: seq<Library>)
    ensures Jobs(a + b) == Jobs(a) + Jobs(b)
    decreases |a|
  {
    if |a| > 0 {
      assert (a + b)[1..] == a[1..] + b;
      JobsAppend(a[1..], b);
    } else {
      assert a + b == b;
    }
  }

  lemma JobsSnoc(libs: seq<Library>, i: int)
    requires 0 <= i < |libs|
    ensures Jobs(libs[..i + 1]) == Jobs(libs[..i]) + JobsOf(libs[i])[..|libs[i].sourcePaths|]
  {
    assert libs[..i + 1] == libs[..i] + [libs[i]];
    JobsAppend(libs[..i], [libs[i]]);
    assert [libs[i]][1..] == [];
    assert Jobs([libs[i]]) == JobsOf(libs[i]) + Jobs([]);
    assert JobsOf(libs[i])[..|libs[i].sourcePaths|] == JobsOf(libs[i]);
  }

  lemma JobsStart(libs: seq<Library>, i: int)
    requires 0 <= i < |libs|
    ensures Jobs(libs[..i]) + JobsOf(libs[i])[..0] == Jobs(libs[..i])
  {
    assert JobsOf(libs[i])[..0] == [];
  }

  lemma JobsNext(libs: seq<Library>, i: int, j: int)
    requires 0 <= i < |libs| && 0 <= j < |libs[i].sourcePaths|
    ensures Jobs(libs[..i]) + JobsOf(libs[i])[..j + 1]
         == (Jobs(libs[..i]) + JobsOf(libs[i])[..j]) + [Job(libs[i].id, libs[i].version, libs[i].sourcePaths[j])]
  {
    var lib := libs[i];
    assert JobsOf(lib)[..j + 1] == JobsOf(lib)[..j] + [Job(lib.id, lib.version, lib.sourcePaths[j])];
  }

  /** The paths Stage has visited when it reaches path `j` of library `i`, followed by
      the ones it has still to visit, are all of them. */
  lemma JobsSplit(libs: seq<Library>, i: int, j: int)
    requires 0 <= i < |libs| && 0 <= j <= |libs[i].sourcePaths|
    ensures Jobs(libs) == Jobs(libs[..i]) + JobsOf(libs[i])[..j] + (JobsOf(libs[i])[j..] + Jobs(libs[i + 1..]))
  {
    assert libs == libs[..i] + libs[i..];
    JobsAppend(libs[..i], libs[i..]);
    assert JobsOf(libs[i]) == JobsOf(libs[i])[..j] + JobsOf(libs[i])[j..];
  }

  /** Once a path fails, no further path is processed: the outcome is the failed one. */
  lemma {:induction false} StageAllStops(m: map<Path, Node>, jobs: seq<Job>, more: seq<Job>,
                                         step: (map<Path, Node>, Job) -> Updated)
    requires StageAll(m, jobs, step).failure.Some?
    ensures StageAll(m, jobs + more, step) == StageAll(m, jobs, step)
    decreases |more|
  {
    if |more| > 0 {
      var init := more[..|more| - 1];
      StageAllStops(m, jobs, init, step);
      assert (jobs + more)[..|jobs + more| - 1] == jobs + init;
    } else {
      assert jobs + more == jobs;
    }
  }

  /** Source paths that do not exist change nothing, and Stage succeeds. */
  lemma {:induction false} StageAllMissing(m: map<Path, Node>, repoDir: Path, outputDir: Path, jobs: seq<Job>)
    requires forall k | 0 <= k < |jobs| :: StatIn(m, SourceDir(repoDir, jobs[k].path)).NotExist?
    ensures StageAll(m, jobs, VersionStep(repoDir, outputDir)) == Updated(None, m)
    decreases |jobs|
  {
    if |jobs| > 0 {
      var job := jobs[|jobs| - 1];
      StageAllMissing(m, repoDir, outputDir, jobs[..|jobs| - 1]);
      UpdateVersionsSearch(m, repoDir, SourceDir(repoDir, job.path), outputDir, job.id, job.version);
    }
  }

  /** With an output directory apart from the repository, Stage changes nothing outside
      the output directory, whether or not it fails. */
  lemma {:induction false} StageAllOutside(m: map<Path, Node>, repoDir: Path, outputDir: Path, jobs: seq<Job>)
    requires Disjoint(repoDir, outputDir)
    ensures var r := StageAll(m, jobs, VersionStep(repoDir, outputDir));
      forall p | p in m && !Under(outputDir, p) :: p in r.entries && r.entries[p] == m[p]
    decreases |jobs|
  {
    if |jobs| > 0 {
      var job := jobs[|jobs| - 1];
      var r0 := StageAll(m, jobs[..|jobs| - 1], VersionStep(repoDir, outputDir));
      StageAllOutside(m, repoDir, outputDir, jobs[..|jobs| - 1]);
      UpdateVersionsOutputs(r0.entries, repoDir, SourceDir(repoDir, job.path), outputDir, job.id, job.version);
    }
  }

  /** A request whose source paths are all missing succeeds and writes nothing. */
  lemma StageMissing(m: map<Path, Node>, repoDir: Path, outputDir: Path, libs: seq<Library>)
    requires forall i, k | 0 <= i < |libs| && 0 <= k < |libs[i].sourcePaths| ::
      StatIn(m, SourceDir(repoDir, libs[i].sourcePaths[k])).NotExist?
    ensures StageSpec(m, repoDir, outputDir, libs) == Updated(None, m)
  {
    var jobs := Jobs(libs);
    JobsFrom(libs);
    forall n | 0 <= n < |jobs| ensures StatIn(m, SourceDir(repoDir, jobs[n].path)).NotExist? {
      assert OfLibrary(libs, jobs[n]);
      var i, k :| 0 <= i < |libs| && 0 <= k < |libs[i].sourcePaths|
        && jobs[n] == Job(libs[i].id, libs[i].version, libs[i].sourcePaths[k]);
    }
    StageAllMissing(m, repoDir, outputDir, jobs);
  }

  /** `job` is a source path of one of the libraries. */
  ghost predicate OfLibrary(libs: seq<Library>, job: Job) {
    exists i, k | 0 <= i < |libs| && 0 <= k < |libs[i].sourcePaths| ::
      job == Job(libs[i].id, libs[i].version, libs[i].sourcePaths[k])
  }

  lemma OfLibraryAt(libs: seq<Library>, job: Job, i: int, k: int)
    requires 0 <= i < |libs| && 0 <= k < |libs[i].sourcePaths|
    requires job == Job(libs[i].id, libs[i].version, libs[i].sourcePaths[k])
    ensures OfLibrary(libs, job)
  {
  }

  /** Every source path Stage visits is one of a library's own. */
  lemma {:induction false} JobsFrom(libs: seq<Library>)
    ensures forall n | 0 <= n < |Jobs(libs)| :: OfLibrary(libs, Jobs(libs)[n])
    decreases |libs|
  {
    if |libs| > 0 {
      JobsFrom(libs[1..]);
      var first := JobsOf(libs[0]);
      var rest := Jobs(libs[1..]);
      assert Jobs(libs) == first + rest;
      forall n | 0 <= n < |Jobs(libs)| ensures OfLibrary(libs, Jobs(libs)[n]) {
        if n < |first| {
          OfLibraryAt(libs, Jobs(libs)[n], 0, n);
        } else {
          assert Jobs(libs)[n] == rest[n - |first|];
          assert OfLibrary(libs[1..], rest[n - |first|]);
          var i, k :| 0 <= i < |libs[1..]| && 0 <= k < |libs[1..][i].sourcePaths|
            && rest[n - |first|] == Job(libs[1..][i].id, libs[1..][i].version, libs[1..][i].sourcePaths[k]);
          assert libs[1..][i] == libs[i + 1];
          OfLibraryAt(libs, Jobs(libs)[n], i + 1, k);
        }
      }
    } else {
      assert Jobs(libs) == [];
    }
  }

  /** With an output directory apart from the repository, nothing outside it changes. */
  lemma StageOutside(m: map<Path, Node>, repoDir: Path, outputDir: Path, libs: seq<Library>)
    requires Disjoint(repoDir, outputDir)
    ensures var r := StageSpec(m, repoDir, outputDir, libs);
      forall p | p in m && !Under(outputDir, p) :: p in r.entries && r.entries[p] == m[p]
  {
    StageAllOutside(m, repoDir, outputDir, Jobs(libs));
  }

  /** A request of one library with one source path is UpdateVersions on that path. */
  lemma StageOnePath(m: map<Path, Node>, repoDir: Path, outputDir: Path, id: string, version: string, path: string)
    ensures StageSpec(m, repoDir, outputDir, [Library(id, version, [path])])
         == UpdateVersionsSpec(m, repoDir, SourceDir(repoDir, path), outputDir, id, version)
  {
    var jobs := Jobs([Library(id, version, [path])]);
    assert [Library(id, version, [path])][1..] == [];
    assert jobs == JobsOf(Library(id, version, [path])) + Jobs([]);
    assert JobsOf(Library(id, version, [path])) == [Job(id, version, path)];
    assert jobs == [Job(id, version, path)];
    assert jobs[..0] == [];
    var step := VersionStep(repoDir, outputDir);
    assert StageAll(m, jobs[..0], step) == Updated(None, m);
    assert step(m, Job(id, version, path)) == UpdateVersionsSpec(m, repoDir, SourceDir(repoDir, path), outputDir, id, version);
  }
}
