/** The keep-list cleaner run on a library's output directory before generation
    (internal/librarian/clean.go): `check` validates the directory and the keep list,
    then `clean` deletes, in a first walk, every file that is not kept and, in a
    second walk, every directory that is not kept and has become empty. */
module Cleaner {
  import opened Strs
  import opened Sorting
  import opened Outcome
  import opened Fs

  /** Directories both walks refuse to descend into. */
  predicate IsControlDir(name: string) {
    name == ".git" || name == ".github" || name == ".gemini"
  }

  /** A walk from `root` that skips control directories reaches `p`: `p` lies under the
      root and no directory on the way down (the root included) is a control directory. */
  predicate Reached(root: Path, p: Path) {
    Under(root, p) && forall k | |root| <= k < |p| :: !IsControlDir(Name(p[..k]))
  }

  /** filepath.Rel(dir, p) for `p` under `dir`. */
  function Rel(dir: Path, p: Path): Path
    requires Under(dir, p)
  {
    p[|dir|..]
  }

  /** The first walk deletes `p`: a reached file that is neither kept nor librarian.yaml. */
  predicate DeletedInPass1(m: map<Path, Node>, dir: Path, keep: set<Path>, p: Path) {
    p in m && m[p].File? && Reached(dir, p)
    && Rel(dir, p) != ["librarian.yaml"] && Rel(dir, p) !in keep
  }

  function AfterPass1(m: map<Path, Node>, dir: Path, keep: set<Path>): map<Path, Node> {
    map p | p in m && !DeletedInPass1(m, dir, keep, p) :: m[p]
  }

  /** The second walk lists `p`: a reached directory strictly below the root that is not
      itself a control directory. */
  predicate Listed(m: map<Path, Node>, dir: Path, p: Path) {
    p in m && m[p].Dir? && StrictlyUnder(dir, p) && Reached(dir, p) && !IsControlDir(Name(p))
  }

  /** A listed directory that the bottom-up loop may try to remove. */
  predicate Candidate(m: map<Path, Node>, dir: Path, keep: set<Path>, p: Path) {
    Listed(m, dir, p) && Rel(dir, p) !in keep
  }

  /** The second walk removes `p`: it is a candidate and so is everything below it, so
      that by the time the loop reaches `p` it has become empty. */
  predicate RemovedInPass2(m: map<Path, Node>, dir: Path, keep: set<Path>, p: Path) {
    Candidate(m, dir, keep, p)
    && forall q | q in m && StrictlyUnder(p, q) :: Candidate(m, dir, keep, q)
  }

  function AfterPass2(m: map<Path, Node>, dir: Path, keep: set<Path>): map<Path, Node> {
    map p | p in m && !RemovedInPass2(m, dir, keep, p) :: m[p]
  }

  /** The tree after a successful `clean(dir, keep)`. */
  function Cleaned(m: map<Path, Node>, dir: Path, keep: set<Path>): map<Path, Node> {
    AfterPass2(AfterPass1(m, dir, keep), dir, keep)
  }

  /** The outcome of `clean`: the first walk fails at once when the root cannot be
      read; otherwise both passes run and no error is reported. */
  function CleanOutcome(m: map<Path, Node>, dir: Path, keep: set<Path>): (Status, map<Path, Node>) {
    match StatIn(m, dir)
    case Found(_) => (None, Cleaned(m, dir, keep))
    case NotExist => (Some("lstat " + PathString(dir) + ": no such file or directory"), m)
    case NotADirectory => (Some("lstat " + PathString(dir) + ": not a directory"), m)
  }

  // ---------------------------------------------------------------------------
  // The two passes, as the Go code runs them
  // ---------------------------------------------------------------------------

  /** clean(dir, keepSet). */
  method Clean(fs: FileSystem, dir: Path, keep: set<Path>) returns (err: Status)
    requires fs.Valid()
    modifies fs
    ensures fs.Valid()
    ensures (err, fs.entries) == CleanOutcome(old(fs.entries), dir, keep)
  {
    match fs.Stat(dir)
    case NotExist =>
      return Some("lstat " + PathString(dir) + ": no such file or directory");
    case NotADirectory =>
      return Some("lstat " + PathString(dir) + ": not a directory");
    case Found(_) =>
      DeleteFiles(fs, dir, keep);
      RemoveEmptyDirs(fs, dir, keep);
      err := None;
  }

  /** The first walk: delete every reached file that is not kept. */
  method DeleteFiles(fs: FileSystem, dir: Path, keep: set<Path>)
    requires fs.Valid()
    modifies fs
    ensures fs.Valid()
    ensures fs.entries == AfterPass1(old(fs.entries), dir, keep)
  {
    ghost var m := fs.entries;
    var visited := set p | p in fs.entries && Reached(dir, p);
    var walk := WalkOrder(visited);
    var i := 0;
    assert walk[..0] == [];
    while i < |walk|
      invariant 0 <= i <= |walk|
      invariant fs.Valid()
      invariant fs.entries == Pass1Upto(m, dir, keep, walk[..i])
    {
      Pass1Step(m, dir, keep, visited, walk, i);
      DeleteFile(fs, m, dir, keep, walk[i]);
      i := i + 1;
    }
    Pass1Done(m, dir, keep, visited, walk);
  }

  /** The tree once the first walk has visited the entries of `done`. */
  ghost function Pass1Upto(m: map<Path, Node>, dir: Path, keep: set<Path>, done: seq<Path>): map<Path, Node> {
    map p | p in m && !(DeletedInPass1(m, dir, keep, p) && p in done) :: m[p]
  }

  /** Visiting the next entry of the walk deletes at most that entry, which is still there. */
  lemma Pass1Step(m: map<Path, Node>, dir: Path, keep: set<Path>, visited: set<Path>, walk: seq<Path>, i: int)
    requires SortedListing(walk, visited, PathLt) && 0 <= i < |walk|
    requires forall p :: p in visited <==> p in m && Reached(dir, p)
    ensures var e := Pass1Upto(m, dir, keep, walk[..i]);
      walk[i] in e && e[walk[i]] == m[walk[i]] && Reached(dir, walk[i])
      && Pass1Upto(m, dir, keep, walk[..i + 1])
         == if DeletedInPass1(m, dir, keep, walk[i]) then e - {walk[i]} else e
  {
    assert walk[i] in visited;
    assert walk[..i + 1] == walk[..i] + [walk[i]];
    forall k | 0 <= k < i ensures walk[k] != walk[i] {
      PathLtIrreflexive(walk[i]);
      assert PathLt(walk[k], walk[i]);
    }
  }

  /** Once the whole walk is visited the first pass is complete. */
  lemma Pass1Done(m: map<Path, Node>, dir: Path, keep: set<Path>, visited: set<Path>, walk: seq<Path>)
    requires SortedListing(walk, visited, PathLt)
    requires forall p :: p in visited <==> p in m && Reached(dir, p)
    ensures Pass1Upto(m, dir, keep, walk[..|walk|]) == AfterPass1(m, dir, keep)
  {
    assert walk[..|walk|] == walk;
  }

  /** The first walk's callback on a file: delete it unless it is kept. */
  method DeleteFile(fs: FileSystem, ghost m: map<Path, Node>, dir: Path, keep: set<Path>, p: Path)
    requires fs.Valid() && p in fs.entries && p in m && fs.entries[p] == m[p] && Reached(dir, p)
    modifies fs
    ensures fs.Valid()
    ensures fs.entries == if DeletedInPass1(m, dir, keep, p) then old(fs.entries) - {p} else old(fs.entries)
  {
    if fs.entries[p].File? && Rel(dir, p) != ["librarian.yaml"] && Rel(dir, p) !in keep {
      forall q | q in fs.entries ensures !StrictlyUnder(p, q) { FileIsLeaf(fs.entries, p, q); }
      var e := fs.Remove(p);
    }
  }

  /** The second walk lists the directories below the root; the loop then tries to
      remove them from the last to the first, skipping kept ones and ignoring failures. */
  method RemoveEmptyDirs(fs: FileSystem, dir: Path, keep: set<Path>)
    requires fs.Valid()
    modifies fs
    ensures fs.Valid()
    ensures fs.entries == AfterPass2(old(fs.entries), dir, keep)
  {
    ghost var m1 := fs.entries;
    var listed := set p | p in fs.entries && Listed(fs.entries, dir, p);
    assert listed == ListedSet(m1, dir);
    var dirs := WalkOrder(listed);
    var j := |dirs|;
    assert dirs[j..] == [];
    while j > 0
      invariant 0 <= j <= |dirs|
      invariant fs.Valid()
      invariant fs.entries == Pass2From(m1, dir, keep, dirs[j..])
    {
      Pass2Step(m1, dir, keep, dirs, j);
      RemoveDirIfEmpty(fs, m1, dir, keep, dirs, j);
      j := j - 1;
    }
    Pass2Done(m1, dir, keep, dirs);
  }

  /** The directories the second walk lists. */
  ghost function ListedSet(m: map<Path, Node>, dir: Path): set<Path> {
    set p | p in m && Listed(m, dir, p)
  }

  /** The tree once the bottom-up loop has handled the directories of `done`. */
  ghost function Pass2From(m: map<Path, Node>, dir: Path, keep: set<Path>, done: seq<Path>): map<Path, Node> {
    map p | p in m && !(RemovedInPass2(m, dir, keep, p) && p in done) :: m[p]
  }

  /** Handling the next directory removes at most that directory, which is still there. */
  lemma Pass2Step(m1: map<Path, Node>, dir: Path, keep: set<Path>, dirs: seq<Path>, j: int)
    requires SortedListing(dirs, ListedSet(m1, dir), PathLt) && 0 < j <= |dirs|
    ensures var e := Pass2From(m1, dir, keep, dirs[j..]);
      dirs[j - 1] in e && e[dirs[j - 1]] == m1[dirs[j - 1]] && dirs[j - 1] !in dirs[j..]
      && Pass2From(m1, dir, keep, dirs[j - 1..])
         == if RemovedInPass2(m1, dir, keep, dirs[j - 1]) then e - {dirs[j - 1]} else e
  {
    var d := dirs[j - 1];
    assert d in ListedSet(m1, dir);
    assert dirs[j - 1..] == [d] + dirs[j..];
    forall k | j <= k < |dirs| ensures dirs[k] != d {
      PathLtIrreflexive(d);
      assert PathLt(dirs[j - 1], dirs[k]);
    }
  }

  /** Once every listed directory is handled the second pass is complete. */
  lemma Pass2Done(m1: map<Path, Node>, dir: Path, keep: set<Path>, dirs: seq<Path>)
    requires SortedListing(dirs, ListedSet(m1, dir), PathLt)
    ensures Pass2From(m1, dir, keep, dirs[0..]) == AfterPass2(m1, dir, keep)
  {
    assert dirs[0..] == dirs;
  }

  /** One step of the bottom-up loop: `os.Remove` on a directory that is not kept. */
  method RemoveDirIfEmpty(fs: FileSystem, ghost m1: map<Path, Node>, dir: Path, keep: set<Path>,
                          dirs: seq<Path>, j: int)
    requires fs.Valid()
    requires SortedListing(dirs, ListedSet(m1, dir), PathLt) && 0 < j <= |dirs|
    requires fs.entries == Pass2From(m1, dir, keep, dirs[j..])
    requires dirs[j - 1] in fs.entries && dirs[j - 1] !in dirs[j..]
    modifies fs
    ensures fs.Valid()
    ensures fs.entries == if RemovedInPass2(m1, dir, keep, dirs[j - 1]) then old(fs.entries) - {dirs[j - 1]} else old(fs.entries)
  {
    var d := dirs[j - 1];
    assert d in ListedSet(m1, dir);
    if Rel(dir, d) !in keep {
      if RemovedInPass2(m1, dir, keep, d) {
        forall c | c in m1 && StrictlyUnder(d, c) ensures c !in fs.entries {
          BelowRemovedComesLater(m1, dir, keep, dirs, j, c);
        }
      } else {
        var q :| q in m1 && StrictlyUnder(d, q) && !Candidate(m1, dir, keep, q);
        assert q in fs.entries;
        DescendantGivesChild(fs.entries, d, q);
      }
      var e := fs.Remove(d);
    }
  }

  /** Everything below a directory the second pass removes is removed too, and comes
      later in the listing, so the bottom-up loop has already removed it. */
  lemma BelowRemovedComesLater(m1: map<Path, Node>, dir: Path, keep: set<Path>, dirs: seq<Path>,
                               j: int, c: Path)
    requires SortedListing(dirs, ListedSet(m1, dir), PathLt)
    requires 0 < j <= |dirs| && RemovedInPass2(m1, dir, keep, dirs[j - 1])
    requires c in m1 && StrictlyUnder(dirs[j - 1], c)
    ensures RemovedInPass2(m1, dir, keep, c) && c in dirs[j..]
  {
    BelowRemovedIsRemoved(m1, dir, keep, dirs[j - 1], c);
    assert c in ListedSet(m1, dir);
    ListedLater(dirs, ListedSet(m1, dir), j, c);
  }

  /** In a sorted listing, whatever lies below the entry at j - 1 comes after it. */
  lemma ListedLater(dirs: seq<Path>, s: set<Path>, j: int, c: Path)
    requires SortedListing(dirs, s, PathLt)
    requires 0 < j <= |dirs| && c in s && StrictlyUnder(dirs[j - 1], c)
    ensures c in dirs[j..]
  {
    assert c in dirs;
    var k :| 0 <= k < |dirs| && dirs[k] == c;
    DescendantsLater(dirs, j - 1, k);
    assert dirs[j..][k - j] == c;
  }

  lemma BelowRemovedIsRemoved(m1: map<Path, Node>, dir: Path, keep: set<Path>, d: Path, c: Path)
    requires RemovedInPass2(m1, dir, keep, d)
    requires c in m1 && StrictlyUnder(d, c)
    ensures RemovedInPass2(m1, dir, keep, c)
  {
    forall q | q in m1 && StrictlyUnder(c, q) ensures Candidate(m1, dir, keep, q) {
      assert q[..|d|] == c[..|d|];
    }
  }

  // ---------------------------------------------------------------------------
  // check and checkAndClean
  // ---------------------------------------------------------------------------

  /** check(dir, keep), where None stands for Go's nil map: Ok(None) when the directory does not exist, an error when it is
      not a directory or cannot be read, or when a keep entry does not exist (the first
      such entry is named); otherwise the set of keep paths relative to `dir`. */
  function CheckSpec(m: map<Path, Node>, dir: Path, keep: seq<string>): Result<Option<set<Path>>> {
    match StatIn(m, dir)
    case NotExist => Ok(None)
    case NotADirectory =>
      Err("cannot access output directory " + Quote(PathString(dir)) + ": stat "
          + PathString(dir) + ": not a directory")
    case Found(n) =>
      if n.File? then Err(Quote(PathString(dir)) + " is not a directory")
      else KeepSet(m, dir, keep)
  }

  function KeepSet(m: map<Path, Node>, dir: Path, keep: seq<string>): Result<Option<set<Path>>> {
    if |keep| == 0 then Ok(Some({}))
    else if StatIn(m, dir + ToPath(keep[0])).NotExist? then
      Err("keep file " + Quote(keep[0]) + " does not exist")
    else
      match KeepSet(m, dir, keep[1..])
      case Ok(rest) => Ok(Some({ToPath(keep[0])} + rest.value))
      case Err(msg) => Err(msg)
  }

  /** A keep entry that does not exist is reported by name, and the check then fails. */
  lemma {:induction false} KeepSetMissing(m: map<Path, Node>, dir: Path, keep: seq<string>, i: int)
    requires 0 <= i < |keep| && StatIn(m, dir + ToPath(keep[i])).NotExist?
    requires forall k | 0 <= k < i :: !StatIn(m, dir + ToPath(keep[k])).NotExist?
    ensures KeepSet(m, dir, keep) == Err("keep file " + Quote(keep[i]) + " does not exist")
    decreases i
  {
    if i > 0 {
      KeepSetMissing(m, dir, keep[1..], i - 1);
    }
  }

  /** When every keep entry exists, the keep set is the entries' relative paths. */
  lemma {:induction false} KeepSetComplete(m: map<Path, Node>, dir: Path, keep: seq<string>)
    requires forall k | 0 <= k < |keep| :: !StatIn(m, dir + ToPath(keep[k])).NotExist?
    ensures KeepSet(m, dir, keep).Ok? && KeepSet(m, dir, keep).value.Some?
    ensures forall p :: p in KeepSet(m, dir, keep).value.value <==> exists k | 0 <= k < |keep| :: p == ToPath(keep[k])
    decreases |keep|
  {
    if |keep| > 0 {
      KeepSetComplete(m, dir, keep[1..]);
      var rest := KeepSet(m, dir, keep[1..]).value.value;
      forall p ensures p in KeepSet(m, dir, keep).value.value <==> exists k | 0 <= k < |keep| :: p == ToPath(keep[k]) {
        if p in rest {
          var k :| 0 <= k < |keep[1..]| && p == ToPath(keep[1..][k]);
          assert p == ToPath(keep[k + 1]);
        }
        if exists k | 0 <= k < |keep| :: p == ToPath(keep[k]) {
          var k :| 0 <= k < |keep| && p == ToPath(keep[k]);
          if k > 0 { assert p == ToPath(keep[1..][k - 1]); }
        }
      }
    }
  }

  /** check(dir, keep), with its loop over the keep entries. */
  method Check(fs: FileSystem, dir: Path, keep: seq<string>) returns (r: Result<Option<set<Path>>>)
    ensures r == CheckSpec(fs.entries, dir, keep)
  {
    match fs.Stat(dir)
    case NotExist => return Ok(None);
    case NotADirectory =>
      return Err("cannot access output directory " + Quote(PathString(dir)) + ": stat "
                 + PathString(dir) + ": not a directory");
    case Found(n) =>
    if n.File? {
      return Err(Quote(PathString(dir)) + " is not a directory");
    }
    var keepSet: set<Path> := {};
    var i := 0;
    while i < |keep|
      invariant 0 <= i <= |keep|
      invariant forall k | 0 <= k < i :: !StatIn(fs.entries, dir + ToPath(keep[k])).NotExist?
      invariant forall p :: p in keepSet <==> exists k | 0 <= k < i :: p == ToPath(keep[k])
    {
      if fs.Stat(dir + ToPath(keep[i])).NotExist? {
        KeepSetMissing(fs.entries, dir, keep, i);
        return Err("keep file " + Quote(keep[i]) + " does not exist");
      }
      keepSet := keepSet + {ToPath(keep[i])};
      i := i + 1;
    }
    KeepSetComplete(fs.entries, dir, keep);
    assert keepSet == KeepSet(fs.entries, dir, keep).value.value;
    r := Ok(Some(keepSet));
    assert r == KeepSet(fs.entries, dir, keep);
  }

  /** checkAndClean(dir, keep) as the Go code runs it: check, then clean with the
      (possibly nil) keep set, even when check found no directory. */
  function CheckAndCleanAsWritten(m: map<Path, Node>, dir: Path, keep: seq<string>): (Status, map<Path, Node>) {
    match CheckSpec(m, dir, keep)
    case Err(msg) => (Some(msg), m)
    case Ok(ks) => CleanOutcome(m, dir, if ks.Some? then ks.value else {})
  }

  /** A missing output directory passes the check but then fails the walk. */
  lemma MissingDirFailsAsWritten(m: map<Path, Node>, dir: Path, keep: seq<string>)
    requires StatIn(m, dir).NotExist?
    ensures CheckSpec(m, dir, keep) == Ok(None)
    ensures CheckAndCleanAsWritten(m, dir, keep).0 == Some("lstat " + PathString(dir) + ": no such file or directory")
  {
  }

  /** checkAndClean as evidently intended: a missing output directory means there is
      nothing to clean. */
  function CheckAndCleanIntended(m: map<Path, Node>, dir: Path, keep: seq<string>): (Status, map<Path, Node>) {
    match CheckSpec(m, dir, keep)
    case Err(msg) => (Some(msg), m)
    case Ok(ks) => if ks.None? then (None, m) else CleanOutcome(m, dir, ks.value)
  }

  method CheckAndClean(fs: FileSystem, dir: Path, keep: seq<string>) returns (err: Status)
    requires fs.Valid()
    modifies fs
    ensures fs.Valid()
    ensures (err, fs.entries) == CheckAndCleanAsWritten(old(fs.entries), dir, keep)
  {
    var r := Check(fs, dir, keep);
    if r.Err? {
      return Some(r.msg);
    }
    var keepSet := if r.value.Some? then r.value.value else {};
    err := Clean(fs, dir, keepSet);
  }

  // ---------------------------------------------------------------------------
  // Properties
  // ---------------------------------------------------------------------------

  /** Corrected: a missing directory is left alone and reported as success. */
  lemma MissingDirIsNoOp(m: map<Path, Node>, dir: Path, keep: seq<string>)
    requires StatIn(m, dir).NotExist?
    ensures CheckAndCleanIntended(m, dir, keep) == (None, m)
  {
  }

  /** The code as written and the corrected cleaner differ only on a missing output
      directory. */
  lemma AsWrittenAgreesUnlessMissing(m: map<Path, Node>, dir: Path, keep: seq<string>)
    ensures CheckAndCleanAsWritten(m, dir, keep) == CheckAndCleanIntended(m, dir, keep)
            <==> !StatIn(m, dir).NotExist?
  {
    if StatIn(m, dir).NotExist? {
      assert CheckSpec(m, dir, keep) == Ok(None);
      assert CheckAndCleanAsWritten(m, dir, keep).0.Some?;
    }
  }

  /** A missing keep entry stops everything before any deletion. */
  lemma MissingKeepDeletesNothing(m: map<Path, Node>, dir: Path, keep: seq<string>, i: int)
    requires StatIn(m, dir) == Found(Dir)
    requires 0 <= i < |keep| && StatIn(m, dir + ToPath(keep[i])).NotExist?
    requires forall k | 0 <= k < i :: !StatIn(m, dir + ToPath(keep[k])).NotExist?
    ensures CheckAndCleanAsWritten(m, dir, keep) == (Some("keep file " + Quote(keep[i]) + " does not exist"), m)
  {
    KeepSetMissing(m, dir, keep, i);
  }

  /** After the first pass a reached file survives exactly when it is kept or is
      librarian.yaml; a kept directory does not protect the files inside it. */
  lemma FileSurvivesIffKept(m: map<Path, Node>, dir: Path, keep: set<Path>, p: Path)
    requires p in m && m[p].File? && Reached(dir, p)
    ensures p in Cleaned(m, dir, keep) <==> (Rel(dir, p) in keep || Rel(dir, p) == ["librarian.yaml"])
  {
  }

  /** Nothing outside the directory, and nothing inside a control directory, changes. */
  lemma UnreachedUntouched(m: map<Path, Node>, dir: Path, keep: set<Path>, p: Path)
    requires p in m && !Reached(dir, p)
    ensures p in Cleaned(m, dir, keep) && Cleaned(m, dir, keep)[p] == m[p]
  {
  }

  /** The directory itself is never removed. */
  lemma RootSurvives(m: map<Path, Node>, dir: Path, keep: set<Path>)
    requires dir in m && m[dir].Dir?
    ensures dir in Cleaned(m, dir, keep)
  {
  }

  /** A kept entry survives, and so does every directory above it. */
  lemma KeptSurvives(m: map<Path, Node>, dir: Path, keep: set<Path>, p: Path, a: Path)
    requires p in m && Under(dir, p) && Rel(dir, p) in keep
    requires a in m && Under(a, p) && (a == p || m[a].Dir?)
    ensures a in Cleaned(m, dir, keep)
  {
    var m1 := AfterPass1(m, dir, keep);
    assert p in m1 && a in m1;
    assert !Candidate(m1, dir, keep, p);
    assert a == p || StrictlyUnder(a, p) by {
      if |a| == |p| { assert p[..|p|] == p; }
    }
  }

  /** Cleaning leaves a tree: a directory is removed only with everything below it. */
  lemma CleanedIsTree(m: map<Path, Node>, dir: Path, keep: set<Path>)
    requires TreeShaped(m)
    ensures TreeShaped(Cleaned(m, dir, keep))
  {
    var m1 := AfterPass1(m, dir, keep);
    var m2 := Cleaned(m, dir, keep);
    forall q | q in m2 && |q| > 1 ensures Parent(q) in m2 {
      var d := Parent(q);
      assert d in m1;
      if Candidate(m1, dir, keep, d) {
        assert StrictlyUnder(d, q);
        assert !RemovedInPass2(m1, dir, keep, q);
        if Candidate(m1, dir, keep, q) {
          var r :| r in m1 && StrictlyUnder(q, r) && !Candidate(m1, dir, keep, r);
          assert r[..|d|] == q[..|d|];
        }
      }
    }
  }

  /** Running clean a second time with the same keep set deletes nothing. */
  lemma CleanIdempotent(m: map<Path, Node>, dir: Path, keep: set<Path>)
    ensures Cleaned(Cleaned(m, dir, keep), dir, keep) == Cleaned(m, dir, keep)
  {
    var m1 := AfterPass1(m, dir, keep);
    var c := Cleaned(m, dir, keep);
    assert AfterPass1(c, dir, keep) == c;
    forall d | d in c ensures !RemovedInPass2(c, dir, keep, d) {
      if Candidate(c, dir, keep, d) {
        var q :| q in m1 && StrictlyUnder(d, q) && !Candidate(m1, dir, keep, q);
        assert q in c;
      }
    }
    assert AfterPass2(c, dir, keep) == c;
  }
}
