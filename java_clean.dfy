/** The Java cleaner of internal/librarian/java/generate.go: `Clean` globs the generated
    modules of a library below its output directory and `cleanPath` empties each of them,
    sparing kept files, integration tests and clirr baselines, then removes the
    directories that have become empty. */
module JavaClean {
  import opened Strs
  import opened Sorting
  import opened Config
  import opened Fs
  import Cleaner
  import JavaNaming

  // ---------------------------------------------------------------------------
  // The integration-test pattern
  // ---------------------------------------------------------------------------

  /** One element of a regular expression built from literals, a path separator class
      (`/` or `\`) and `.*` (any run of characters other than a newline). */
  datatype Tok = Lit(c: char) | Sep | Star

  /** A literal path fragment: each "/" becomes the separator class. */
  function Toks(w: string): (t: seq<Tok>)
    ensures |t| == |w|
    ensures forall i | 0 <= i < |w| :: t[i] == if w[i] == '/' then Sep else Lit(w[i])
  {
    seq(|w|, i requires 0 <= i < |w| => if w[i] == '/' then Sep else Lit(w[i]))
  }

  /** The whole of `s` matches `t`. */
  predicate MatchAt(t: seq<Tok>, s: string)
    decreases |t|, |s|
  {
    if |t| == 0 then |s| == 0
    else match t[0]
      case Lit(c) => |s| > 0 && s[0] == c && MatchAt(t[1..], s[1..])
      case Sep => |s| > 0 && (s[0] == '/' || s[0] == '\\') && MatchAt(t[1..], s[1..])
      case Star => MatchAt(t[1..], s) || (|s| > 0 && s[0] != '\n' && MatchAt(t, s[1..]))
  }

  /** The pattern up to its fixed tail: "google-cloud-", anything, then the directories
      src/test/java/com/google/cloud, anything, a directory starting with "v", anything,
      the directory "it" and a name starting with "IT". */
  const ITHead: seq<Tok> :=
    Toks("google-cloud-") + [Star] + Toks("/src/test/java/com/google/cloud/") + [Star] + Toks("/v") + [Star]
    + Toks("/it/IT") + [Star]

  /** The integration-test pattern, anchored at the end only. */
  const ITPattern: seq<Tok> := ITHead + Toks("Test.java")

  /** `regexp.MatchString` for a pattern anchored at the end only: some suffix of `s`
      matches. */
  predicate Matches(t: seq<Tok>, s: string) {
    exists i | 0 <= i <= |s| :: MatchAt(t, s[i..])
  }

  predicate ITMatch(s: string) {
    Matches(ITPattern, s)
  }

  /** A match of `t1 + t2` splits into a match of `t1` followed by a match of `t2`. */
  lemma {:induction false} MatchSplit(t1: seq<Tok>, t2: seq<Tok>, s: string)
    requires MatchAt(t1 + t2, s)
    ensures exists k | 0 <= k <= |s| :: MatchAt(t1, s[..k]) && MatchAt(t2, s[k..])
    decreases |t1|, |s|
  {
    if |t1| == 0 {
      assert t1 + t2 == t2 && s[0..] == s;
      assert MatchAt(t1, s[..0]);
    } else {
      assert (t1 + t2)[0] == t1[0] && (t1 + t2)[1..] == t1[1..] + t2;
      match t1[0]
      case Star =>
        if MatchAt(t1[1..] + t2, s) {
          MatchSplit(t1[1..], t2, s);
          var k :| 0 <= k <= |s| && MatchAt(t1[1..], s[..k]) && MatchAt(t2, s[k..]);
          assert MatchAt(t1, s[..k]);
        } else {
          MatchSplit(t1, t2, s[1..]);
          var k :| 0 <= k <= |s[1..]| && MatchAt(t1, s[1..][..k]) && MatchAt(t2, s[1..][k..]);
          assert s[..k + 1][1..] == s[1..][..k] && s[..k + 1][0] == s[0];
          assert s[k + 1..] == s[1..][k..];
        }
      case _ =>
        MatchSplit(t1[1..], t2, s[1..]);
        var k :| 0 <= k <= |s[1..]| && MatchAt(t1[1..], s[1..][..k]) && MatchAt(t2, s[1..][k..]);
        assert s[..k + 1][1..] == s[1..][..k] && s[..k + 1][0] == s[0];
        assert s[k + 1..] == s[1..][k..];
    }
  }

  /** Matches of two patterns concatenate. */
  lemma {:induction false} MatchConcat(t1: seq<Tok>, t2: seq<Tok>, s1: string, s2: string)
    requires MatchAt(t1, s1) && MatchAt(t2, s2)
    ensures MatchAt(t1 + t2, s1 + s2)
    decreases |t1|, |s1|
  {
    if |t1| == 0 {
      assert t1 + t2 == t2 && s1 + s2 == s2;
    } else {
      assert (t1 + t2)[0] == t1[0] && (t1 + t2)[1..] == t1[1..] + t2;
      match t1[0]
      case Star =>
        if MatchAt(t1[1..], s1) {
          MatchConcat(t1[1..], t2, s1, s2);
        } else {
          MatchConcat(t1, t2, s1[1..], s2);
          assert (s1 + s2)[1..] == s1[1..] + s2;
        }
      case _ =>
        MatchConcat(t1[1..], t2, s1[1..], s2);
        assert (s1 + s2)[1..] == s1[1..] + s2;
    }
  }

  /** A literal fragment matches itself. */
  lemma {:induction false} ToksMatch(w: string)
    ensures MatchAt(Toks(w), w)
    decreases |w|
  {
    if |w| > 0 {
      ToksMatch(w[1..]);
      assert Toks(w)[1..] == Toks(w[1..]);
    }
  }

  /** A literal fragment without "/" matches only itself. */
  lemma {:induction false} ToksMatchOnly(w: string, s: string)
    requires forall i | 0 <= i < |w| :: w[i] != '/'
    requires MatchAt(Toks(w), s)
    ensures s == w
    decreases |w|
  {
    if |w| > 0 {
      assert Toks(w)[1..] == Toks(w[1..]);
      ToksMatchOnly(w[1..], s[1..]);
      assert s == [s[0]] + s[1..];
    }
  }

  /** `.*` matches any text without a newline. */
  lemma {:induction false} StarMatch(s: string)
    requires forall i | 0 <= i < |s| :: s[i] != '\n'
    ensures MatchAt([Star], s)
    decreases |s|
  {
    if |s| > 0 {
      StarMatch(s[1..]);
    }
  }

  /** Every integration-test path matches: a file IT<d>Test.java in a directory "it"
      below a directory "v<c>" below src/test/java/com/google/cloud/<b> of a module
      google-cloud-<a>. */
  lemma ITMatchesTestPath(a: string, b: string, c: string, d: string)
    requires forall i | 0 <= i < |a| :: a[i] != '\n'
    requires forall i | 0 <= i < |b| :: b[i] != '\n'
    requires forall i | 0 <= i < |c| :: c[i] != '\n'
    requires forall i | 0 <= i < |d| :: d[i] != '\n'
    ensures ITMatch("google-cloud-" + a + "/src/test/java/com/google/cloud/" + b + "/v" + c + "/it/IT" + d + "Test.java")
  {
    var s := "google-cloud-" + a + "/src/test/java/com/google/cloud/" + b + "/v" + c + "/it/IT" + d + "Test.java";
    ToksMatch("google-cloud-");
    ToksMatch("/src/test/java/com/google/cloud/");
    ToksMatch("/v");
    ToksMatch("/it/IT");
    ToksMatch("Test.java");
    StarMatch(a); StarMatch(b); StarMatch(c); StarMatch(d);
    MatchConcat(Toks("google-cloud-"), [Star], "google-cloud-", a);
    MatchConcat(Toks("google-cloud-") + [Star], Toks("/src/test/java/com/google/cloud/"),
                "google-cloud-" + a, "/src/test/java/com/google/cloud/");
    MatchConcat(Toks("google-cloud-") + [Star] + Toks("/src/test/java/com/google/cloud/"), [Star],
                "google-cloud-" + a + "/src/test/java/com/google/cloud/", b);
    MatchConcat(Toks("google-cloud-") + [Star] + Toks("/src/test/java/com/google/cloud/") + [Star], Toks("/v"),
                "google-cloud-" + a + "/src/test/java/com/google/cloud/" + b, "/v");
    MatchConcat(Toks("google-cloud-") + [Star] + Toks("/src/test/java/com/google/cloud/") + [Star] + Toks("/v"), [Star],
                "google-cloud-" + a + "/src/test/java/com/google/cloud/" + b + "/v", c);
    MatchConcat(Toks("google-cloud-") + [Star] + Toks("/src/test/java/com/google/cloud/") + [Star] + Toks("/v") + [Star],
                Toks("/it/IT"),
                "google-cloud-" + a + "/src/test/java/com/google/cloud/" + b + "/v" + c, "/it/IT");
    MatchConcat(Toks("google-cloud-") + [Star] + Toks("/src/test/java/com/google/cloud/") + [Star] + Toks("/v") + [Star]
                + Toks("/it/IT"), [Star],
                "google-cloud-" + a + "/src/test/java/com/google/cloud/" + b + "/v" + c + "/it/IT", d);
    MatchConcat(ITHead, Toks("Test.java"),
                "google-cloud-" + a + "/src/test/java/com/google/cloud/" + b + "/v" + c + "/it/IT" + d, "Test.java");
    assert s[0..] == s;
  }

  /** A match of a pattern that ends in a literal without "/" ends in that literal. */
  lemma EndsInLiteral(head: seq<Tok>, w: string, s: string)
    requires forall i | 0 <= i < |w| :: w[i] != '/'
    requires MatchAt(head + Toks(w), s)
    ensures HasSuffix(s, w)
  {
    MatchSplit(head, Toks(w), s);
    var k :| 0 <= k <= |s| && MatchAt(head, s[..k]) && MatchAt(Toks(w), s[k..]);
    ToksMatchOnly(w, s[k..]);
    assert |s| - |w| == k;
  }

  lemma SuffixOfSuffix(s: string, i: int, w: string)
    requires 0 <= i <= |s| && HasSuffix(s[i..], w)
    ensures HasSuffix(s, w)
  {
    assert s[i..][|s[i..]| - |w|..] == s[|s| - |w|..];
  }

  lemma MatchEndsInLiteral(head: seq<Tok>, w: string, s: string)
    requires forall i | 0 <= i < |w| :: w[i] != '/'
    requires Matches(head + Toks(w), s)
    ensures HasSuffix(s, w)
  {
    var i :| 0 <= i <= |s| && MatchAt(head + Toks(w), s[i..]);
    EndsInLiteral(head, w, s[i..]);
    SuffixOfSuffix(s, i, w);
  }

  lemma NoSlashInTestSuffix()
    ensures forall i | 0 <= i < |"Test.java"| :: "Test.java"[i] != '/'
  {
  }

  /** Only files whose path ends in "Test.java" are spared as integration tests. */
  lemma ITMatchEndsInTest(s: string)
    requires ITMatch(s)
    ensures HasSuffix(s, "Test.java")
  {
    NoSlashInTestSuffix();
    MatchEndsInLiteral(ITHead, "Test.java", s);
  }

  /** An unanchored pattern ignores whatever precedes a match. */
  lemma MatchesUnanchored(t: seq<Tok>, x: string, s: string)
    requires Matches(t, s)
    ensures Matches(t, x + s)
  {
    var i :| 0 <= i <= |s| && MatchAt(t, s[i..]);
    assert (x + s)[|x| + i..] == s[i..];
  }

  // ---------------------------------------------------------------------------
  // cleanPath
  // ---------------------------------------------------------------------------

  /** The keep entries, resolved against the entries of the tree: the relative paths
      below `out` whose string form is a keep entry. */
  function KeptRel(m: map<Path, Node>, out: Path, keep: set<string>): (r: set<Path>)
    ensures forall p | p in m && Under(out, p) :: Cleaner.Rel(out, p) in r <==> PathString(Cleaner.Rel(out, p)) in keep
  {
    set p | p in m && Under(out, p) && PathString(Cleaner.Rel(out, p)) in keep :: Cleaner.Rel(out, p)
  }

  /** The file at `p` is spared: its path relative to the output directory is a keep
      entry, its path matches the integration-test pattern, or it is a clirr baseline.
      `keep` holds the keep entries as relative paths (see KeptRel). */
  predicate Spared(out: Path, keep: set<Path>, it: seq<Tok>, p: Path) {
    (Under(out, p) && Cleaner.Rel(out, p) in keep)
    || Matches(it, PathString(p)) || Name(p) == "clirr-ignored-differences.xml"
  }

  /** The walk from `target` deletes `p`: a reached file that is not spared. */
  predicate DeletedInWalk(m: map<Path, Node>, target: Path, out: Path, keep: set<Path>, it: seq<Tok>, p: Path) {
    p in m && m[p].File? && Cleaner.Reached(target, p) && !Spared(out, keep, it, p)
  }

  function AfterWalk(m: map<Path, Node>, target: Path, out: Path, keep: set<Path>, it: seq<Tok>): map<Path, Node> {
    map p | p in m && !DeletedInWalk(m, target, out, keep, it, p) :: m[p]
  }

  /** The walk adds `p` to its list of directories: a reached directory that is not a
      control directory (the target itself included). */
  predicate Collected(m: map<Path, Node>, target: Path, p: Path) {
    p in m && m[p].Dir? && Cleaner.Reached(target, p) && !Cleaner.IsControlDir(Name(p))
  }

  /** A collected directory whose path relative to the output directory is not kept:
      the bottom-up loop tries to remove it. */
  predicate Candidate(m: map<Path, Node>, target: Path, out: Path, keep: set<Path>, p: Path) {
    Collected(m, target, p) && Under(out, p) && Cleaner.Rel(out, p) !in keep
  }

  /** The bottom-up loop removes `p`: it is a candidate and so is everything below it,
      so it is empty by the time the loop reaches it. */
  predicate RemovedBottomUp(m: map<Path, Node>, target: Path, out: Path, keep: set<Path>, p: Path) {
    Candidate(m, target, out, keep, p)
    && forall q | q in m && StrictlyUnder(p, q) :: Candidate(m, target, out, keep, q)
  }

  function AfterRemoval(m: map<Path, Node>, target: Path, out: Path, keep: set<Path>): map<Path, Node> {
    map p | p in m && !RemovedBottomUp(m, target, out, keep, p) :: m[p]
  }

  /** The tree after cleanPath(target, out, keep, it). */
  function CleanPathSpec(m: map<Path, Node>, target: Path, out: Path, keep: set<string>, it: seq<Tok>): (r: map<Path, Node>)
    ensures forall q | q in r :: q in m && r[q] == m[q]
    ensures forall q | q in m && !Cleaner.Reached(target, q) :: q in r
  {
    var rel := KeptRel(m, out, keep);
    AfterRemoval(AfterWalk(m, target, out, rel, it), target, out, rel)
  }

  /** cleanPath: one walk deletes the files that are not spared and lists the
      directories; a loop from the last listed directory to the first then removes each
      one that is not kept, ignoring the failure on one that is not empty. */
  method CleanPath(fs: FileSystem, target: Path, out: Path, keep: set<string>, it: seq<Tok>)
    requires fs.Valid() && Under(out, target)
    modifies fs
    ensures fs.Valid()
    ensures fs.entries == CleanPathSpec(old(fs.entries), target, out, keep, it)
  {
    var rel := KeptRel(fs.entries, out, keep);
    var dirs := DeleteAndCollect(fs, target, out, rel, it);
    RemoveCollected(fs, target, out, rel, dirs);
  }

  /** The walk of cleanPath. */
  method DeleteAndCollect(fs: FileSystem, target: Path, out: Path, keep: set<Path>, it: seq<Tok>) returns (dirs: seq<Path>)
    requires fs.Valid()
    modifies fs
    ensures fs.Valid()
    ensures fs.entries == AfterWalk(old(fs.entries), target, out, keep, it)
    ensures Increasing(dirs, PathLt)
    ensures forall p :: p in dirs <==> Collected(fs.entries, target, p)
  {
    ghost var m := fs.entries;
    ghost var deleted := set p | p in m && DeletedInWalk(m, target, out, keep, it, p);
    var visited := set p | p in fs.entries && Cleaner.Reached(target, p);
    var walk := WalkOrder(visited);
    assert forall k | 0 <= k < |walk| :: walk[k] in visited;
    dirs := WalkEntries(fs, m, deleted, target, out, keep, it, walk);
    WalkResult(m, fs.entries, target, out, keep, it, deleted, walk, visited, dirs);
  }

  /** What the finished walk leaves: the tree without the deleted files, and the
      collected directories in walk order. */
  lemma WalkResult(m: map<Path, Node>, m': map<Path, Node>, target: Path, out: Path, keep: set<Path>, it: seq<Tok>,
                   deleted: set<Path>, walk: seq<Path>, visited: set<Path>, dirs: seq<Path>)
    requires forall q :: q in deleted <==> q in m && DeletedInWalk(m, target, out, keep, it, q)
    requires SortedListing(walk, visited, PathLt)
    requires visited == set p | p in m && Cleaner.Reached(target, p)
    requires m' == WalkUpto(m, deleted, walk[..|walk|])
    requires dirs == DirsOf(m, target, walk[..|walk|])
    ensures m' == AfterWalk(m, target, out, keep, it)
    ensures Increasing(dirs, PathLt)
    ensures forall p :: p in dirs <==> Collected(m', target, p)
  {
    WalkComplete(m, m', target, deleted, walk, visited);
    DirsOfListing(m, target, walk, visited);
    forall p ensures p in dirs <==> Collected(m', target, p) {
      if Collected(m, target, p) { assert p !in deleted && p in visited; }
    }
  }

  /** The tree once the walk has visited the entries of `done`. */
  ghost function WalkUpto(m: map<Path, Node>, deleted: set<Path>, done: seq<Path>): map<Path, Node> {
    map p | p in m && !(p in deleted && p in done) :: m[p]
  }

  /** Visiting the next entry deletes at most that entry, which is still there. */
  lemma WalkStep(m: map<Path, Node>, deleted: set<Path>, walk: seq<Path>, i: int)
    requires Increasing(walk, PathLt) && 0 <= i < |walk| && walk[i] in m
    ensures var e := WalkUpto(m, deleted, walk[..i]);
      walk[i] in e && e[walk[i]] == m[walk[i]]
      && WalkUpto(m, deleted, walk[..i + 1]) == if walk[i] in deleted then e - {walk[i]} else e
  {
    assert walk[..i + 1] == walk[..i] + [walk[i]];
    forall k | 0 <= k < i ensures walk[k] != walk[i] {
      PathLtIrreflexive(walk[i]);
      assert PathLt(walk[k], walk[i]);
    }
  }

  /** The walk proper: the callback on every entry, in walk order. */
  method WalkEntries(fs: FileSystem, ghost m: map<Path, Node>, ghost deleted: set<Path>,
                     target: Path, out: Path, keep: set<Path>, it: seq<Tok>, walk: seq<Path>)
    returns (dirs: seq<Path>)
    requires fs.Valid() && fs.entries == m && Increasing(walk, PathLt)
    requires forall k | 0 <= k < |walk| :: walk[k] in m && Cleaner.Reached(target, walk[k])
    requires forall q :: q in deleted <==> q in m && DeletedInWalk(m, target, out, keep, it, q)
    modifies fs
    ensures fs.Valid()
    ensures fs.entries == WalkUpto(m, deleted, walk[..|walk|])
    ensures dirs == DirsOf(m, target, walk[..|walk|])
  {
    dirs := [];
    var i := 0;
    assert walk[..0] == [];
    while i < |walk|
      invariant 0 <= i <= |walk|
      invariant fs.Valid()
      invariant fs.entries == WalkUpto(m, deleted, walk[..i])
      invariant dirs == DirsOf(m, target, walk[..i])
    {
      var p := walk[i];
      DirsOfSnoc(m, target, walk, i);
      WalkStep(m, deleted, walk, i);
      dirs := Visit(fs, m, deleted, target, out, keep, it, p, dirs);
      i := i + 1;
    }
  }

  /** The walk's callback on one entry: a directory that is not a control directory is
      listed, a file that is not spared is deleted. */
  method Visit(fs: FileSystem, ghost m: map<Path, Node>, ghost deleted: set<Path>,
               target: Path, out: Path, keep: set<Path>, it: seq<Tok>, p: Path, dirs: seq<Path>)
    returns (dirs': seq<Path>)
    requires fs.Valid() && p in fs.entries && p in m && fs.entries[p] == m[p] && Cleaner.Reached(target, p)
    requires forall q :: q in deleted <==> q in m && DeletedInWalk(m, target, out, keep, it, q)
    modifies fs
    ensures fs.Valid()
    ensures fs.entries == if p in deleted then old(fs.entries) - {p} else old(fs.entries)
    ensures dirs' == dirs + if Collected(m, target, p) then [p] else []
  {
    dirs' := dirs;
    if fs.entries[p].Dir? {
      if !Cleaner.IsControlDir(Name(p)) {
        dirs' := dirs + [p];
      }
    } else {
      DeleteUnspared(fs, m, deleted, target, out, keep, it, p);
    }
  }

  /** At the end of the walk every visited entry is done, so exactly the deleted files
      are gone. */
  lemma WalkComplete(m: map<Path, Node>, m': map<Path, Node>, target: Path, deleted: set<Path>,
                     walk: seq<Path>, visited: set<Path>)
    requires SortedListing(walk, visited, PathLt)
    requires visited == set p | p in m && Cleaner.Reached(target, p)
    requires forall p | p in deleted :: p in m && Cleaner.Reached(target, p)
    requires m' == WalkUpto(m, deleted, walk[..|walk|])
    ensures forall p :: p in m' <==> p in m && p !in deleted
  {
    assert walk[..|walk|] == walk;
  }

  /** The directories a walk over `ws` adds to its list, in the order of `ws`. */
  function DirsOf(m: map<Path, Node>, target: Path, ws: seq<Path>): seq<Path> {
    if |ws| == 0 then []
    else
      var p := ws[|ws| - 1];
      DirsOf(m, target, ws[..|ws| - 1]) + if Collected(m, target, p) then [p] else []
  }

  /** The walk lists exactly the collected directories it visits. */
  lemma {:induction false} DirsOfMembers(m: map<Path, Node>, target: Path, ws: seq<Path>)
    ensures forall p :: p in DirsOf(m, target, ws) <==> p in ws && Collected(m, target, p)
    decreases |ws|
  {
    if |ws| > 0 {
      var p := ws[|ws| - 1];
      DirsOfMembers(m, target, ws[..|ws| - 1]);
      assert ws == ws[..|ws| - 1] + [p];
    }
  }

  /** The directories of a walk come in walk order. */
  lemma {:induction false} DirsOfIncreasing(m: map<Path, Node>, target: Path, ws: seq<Path>)
    requires Increasing(ws, PathLt)
    ensures Increasing(DirsOf(m, target, ws), PathLt)
    decreases |ws|
  {
    if |ws| > 0 {
      var p := ws[|ws| - 1];
      var init := ws[..|ws| - 1];
      assert Increasing(init, PathLt);
      DirsOfIncreasing(m, target, init);
      var r := DirsOf(m, target, init);
      if |r| > 0 {
        DirsOfMembers(m, target, init);
        assert r[|r| - 1] in init;
        var k :| 0 <= k < |init| && init[k] == r[|r| - 1];
        assert PathLt(ws[k], ws[|ws| - 1]);
      }
      AppendIncreasing(r, p);
    }
  }

  lemma DirsOfListing(m: map<Path, Node>, target: Path, walk: seq<Path>, visited: set<Path>)
    requires SortedListing(walk, visited, PathLt)
    ensures Increasing(DirsOf(m, target, walk[..|walk|]), PathLt)
    ensures forall p :: p in DirsOf(m, target, walk[..|walk|]) <==> p in visited && Collected(m, target, p)
  {
    assert walk[..|walk|] == walk;
    DirsOfIncreasing(m, target, walk);
    DirsOfMembers(m, target, walk);
  }

  lemma AppendIncreasing(r: seq<Path>, p: Path)
    requires Increasing(r, PathLt)
    requires |r| > 0 ==> PathLt(r[|r| - 1], p)
    ensures Increasing(r + [p], PathLt)
  {
    forall i | 0 <= i < |r| ensures PathLt(r[i], p) {
      if i < |r| - 1 { PathLtTransitive(r[i], r[|r| - 1], p); }
    }
  }

  /** The walk's callback on a file: delete it unless it is spared. */
  method DeleteUnspared(fs: FileSystem, ghost m: map<Path, Node>, ghost deleted: set<Path>,
                        target: Path, out: Path, keep: set<Path>, it: seq<Tok>, p: Path)
    requires fs.Valid() && p in fs.entries && p in m && fs.entries[p] == m[p] && m[p].File? && Cleaner.Reached(target, p)
    requires forall q :: q in deleted <==> q in m && DeletedInWalk(m, target, out, keep, it, q)
    modifies fs
    ensures fs.Valid()
    ensures fs.entries == if p in deleted then old(fs.entries) - {p} else old(fs.entries)
  {
    var kept := Under(out, p) && Cleaner.Rel(out, p) in keep;
    if kept || Matches(it, PathString(p)) {
      return;
    }
    if Name(p) == "clirr-ignored-differences.xml" {
      return;
    }
    forall q | q in fs.entries ensures !StrictlyUnder(p, q) { FileIsLeaf(fs.entries, p, q); }
    var e := fs.Remove(p);
  }

  /** The loop of cleanPath over the listed directories, from the last to the first. */
  method RemoveCollected(fs: FileSystem, target: Path, out: Path, keep: set<Path>, dirs: seq<Path>)
    requires fs.Valid() && Under(out, target)
    requires Increasing(dirs, PathLt)
    requires forall p :: p in dirs <==> Collected(fs.entries, target, p)
    modifies fs
    ensures fs.Valid()
    ensures fs.entries == AfterRemoval(old(fs.entries), target, out, keep)
  {
    ghost var m1 := fs.entries;
    ghost var removed := RemovableSet(m1, target, out, keep);
    assert forall p :: p in dirs <==> p in m1 && Collected(m1, target, p);
    var j := |dirs|;
    assert dirs[j..] == [];
    while j > 0
      invariant 0 <= j <= |dirs|
      invariant fs.Valid()
      invariant fs.entries == WalkUpto(m1, removed, dirs[j..])
    {
      RemovalStep(m1, removed, target, dirs, j);
      RemoveIfNotKept(fs, m1, target, out, keep, dirs, j);
      j := j - 1;
    }
    RemovalDone(m1, target, out, keep, dirs);
  }

  /** The directories the bottom-up loop removes. */
  ghost function RemovableSet(m: map<Path, Node>, target: Path, out: Path, keep: set<Path>): set<Path> {
    set p | p in m && RemovedBottomUp(m, target, out, keep, p)
  }

  /** Handling the next directory from the end removes at most that directory, which is
      still there. */
  lemma RemovalStep(m1: map<Path, Node>, removed: set<Path>, target: Path, dirs: seq<Path>, j: int)
    requires Increasing(dirs, PathLt) && forall p :: p in dirs <==> p in m1 && Collected(m1, target, p)
    requires 0 < j <= |dirs|
    ensures var e := WalkUpto(m1, removed, dirs[j..]);
      dirs[j - 1] in e && e[dirs[j - 1]] == m1[dirs[j - 1]] && dirs[j - 1] !in dirs[j..]
      && WalkUpto(m1, removed, dirs[j - 1..]) == if dirs[j - 1] in removed then e - {dirs[j - 1]} else e
  {
    assert dirs[j - 1] in dirs;
    NotListedLater(dirs, j - 1);
    assert dirs[j - 1..] == [dirs[j - 1]] + dirs[j..];
  }

  /** Once every collected directory is handled, exactly the removable ones are gone. */
  lemma RemovalDone(m1: map<Path, Node>, target: Path, out: Path, keep: set<Path>, dirs: seq<Path>)
    requires forall p :: p in dirs <==> p in m1 && Collected(m1, target, p)
    ensures WalkUpto(m1, RemovableSet(m1, target, out, keep), dirs[0..]) == AfterRemoval(m1, target, out, keep)
  {
    assert dirs[0..] == dirs;
  }

  /** One more step of the walk lists one more directory, if it is collected. */
  lemma DirsOfSnoc(m: map<Path, Node>, target: Path, walk: seq<Path>, i: int)
    requires 0 <= i < |walk|
    ensures DirsOf(m, target, walk[..i + 1]) == DirsOf(m, target, walk[..i]) + if Collected(m, target, walk[i]) then [walk[i]] else []
  {
    assert walk[..i + 1][..i] == walk[..i];
  }

  /** A directory appears once in an increasing listing. */
  lemma NotListedLater(dirs: seq<Path>, i: int)
    requires Increasing(dirs, PathLt) && 0 <= i < |dirs|
    ensures dirs[i] !in dirs[i + 1..]
  {
    forall k | i + 1 <= k < |dirs| ensures dirs[k] != dirs[i] {
      PathLtIrreflexive(dirs[i]);
    }
  }

  /** One step of the loop: `os.Remove` on a directory that is not kept. */
  method RemoveIfNotKept(fs: FileSystem, ghost m1: map<Path, Node>,
                         target: Path, out: Path, keep: set<Path>, dirs: seq<Path>, j: int)
    requires fs.Valid() && Under(out, target)
    requires Increasing(dirs, PathLt) && forall p :: p in dirs <==> p in m1 && Collected(m1, target, p)
    requires 0 < j <= |dirs|
    requires fs.entries == WalkUpto(m1, RemovableSet(m1, target, out, keep), dirs[j..])
    requires dirs[j - 1] in fs.entries
    modifies fs
    ensures fs.Valid()
    ensures fs.entries == if dirs[j - 1] in RemovableSet(m1, target, out, keep) then old(fs.entries) - {dirs[j - 1]} else old(fs.entries)
  {
    var d := dirs[j - 1];
    assert d in dirs;
    assert Under(out, d) by { assert d[..|out|] == target[..|out|]; }
    if Cleaner.Rel(out, d) !in keep {
      if RemovedBottomUp(m1, target, out, keep, d) {
        forall c | c in m1 && StrictlyUnder(d, c) ensures c !in fs.entries {
          BelowRemovedComesLater(m1, target, out, keep, dirs, j, c);
        }
      } else {
        var q :| q in m1 && StrictlyUnder(d, q) && !Candidate(m1, target, out, keep, q);
        assert q in fs.entries;
        DescendantGivesChild(fs.entries, d, q);
      }
      var e := fs.Remove(d);
    }
  }

  /** Everything below a directory the loop removes is removed too, and is listed
      later, so the loop has already removed it. */
  lemma BelowRemovedComesLater(m1: map<Path, Node>, target: Path, out: Path, keep: set<Path>, dirs: seq<Path>,
                               j: int, c: Path)
    requires Increasing(dirs, PathLt) && forall p :: p in dirs <==> p in m1 && Collected(m1, target, p)
    requires 0 < j <= |dirs| && RemovedBottomUp(m1, target, out, keep, dirs[j - 1])
    requires c in m1 && StrictlyUnder(dirs[j - 1], c)
    ensures RemovedBottomUp(m1, target, out, keep, c) && c in dirs[j..]
  {
    var d := dirs[j - 1];
    assert c in dirs;
    var k :| 0 <= k < |dirs| && dirs[k] == c;
    DescendantsLater(dirs, j - 1, k);
    forall q | q in m1 && StrictlyUnder(c, q) ensures Candidate(m1, target, out, keep, q) {
      assert q[..|d|] == c[..|d|];
    }
    assert dirs[j..][k - j] == c;
  }

  // ---------------------------------------------------------------------------
  // Clean
  // ---------------------------------------------------------------------------

  /** A pattern Clean globs under the output directory: `Prefix(w)` is "w*", the
      entries of the output directory whose name starts with `w`; `Exact(rel)` is a
      pattern without metacharacters, the path `rel` below the output directory. */
  datatype Glob = Prefix(prefix: string) | Exact(rel: Path)

  /** The patterns of Clean for the prefixed library name `name`, in the order they are
      processed: the proto modules, the gRPC modules, the main module and the generated
      samples. */
  function Patterns(name: string): (r: seq<Glob>)
    ensures |r| == 4 && r[2] == Exact([name])
  {
    [Prefix("proto-" + name + "-"), Prefix("grpc-" + name + "-"), Exact([name]),
     Exact(["samples", "snippets", "generated"])]
  }

  /** The entries of the directory `dir` whose name starts with `w`. */
  function ChildrenWithPrefix(m: map<Path, Node>, dir: Path, w: string): set<Path> {
    set p | p in m && |p| == |dir| + 1 && p[..|dir|] == dir && HasPrefix(Name(p), w)
  }

  /** filepath.Glob of `g` joined to `out`: a prefix pattern lists, in sorted order, the
      matching entries of `out`, and nothing when `out` is not a directory; a literal
      pattern lists its path when it exists. */
  ghost function GlobIn(m: map<Path, Node>, out: Path, g: Glob): (r: seq<Path>)
    ensures forall k | 0 <= k < |r| :: r[k] in m && Under(out, r[k])
    ensures g.Prefix? ==> Increasing(r, PathLt)
    ensures g.Prefix? ==> forall p :: p in r <==> IsDirIn(m, out) && p in ChildrenWithPrefix(m, out, g.prefix)
    ensures g.Exact? ==> (out + g.rel in r <==> out + g.rel in m) && |r| <= 1
  {
    match g
    case Prefix(w) =>
      if IsDirIn(m, out) then
        var r := WalkListing(ChildrenWithPrefix(m, out, w));
        assert forall k | 0 <= k < |r| :: r[k] in ChildrenWithPrefix(m, out, w);
        r
      else []
    case Exact(rel) =>
      assert (out + rel)[..|out|] == out;
      if out + rel in m then [out + rel] else []
  }

  /** The file system after cleanPath on each of `targets` in turn. */
  function CleanTargets(m: map<Path, Node>, targets: seq<Path>, out: Path, keep: set<string>,
                        it: seq<Tok>): (r: map<Path, Node>)
    ensures forall q | q in r :: q in m && r[q] == m[q]
    ensures forall q | q in m && (forall k | 0 <= k < |targets| :: !Cleaner.Reached(targets[k], q)) :: q in r
    decreases |targets|
  {
    if |targets| == 0 then m
    else CleanTargets(CleanPathSpec(m, targets[0], out, keep, it), targets[1..], out, keep, it)
  }

  /** The file system after Clean's loop over `globs`: each pattern is globbed on the
      tree that the previous patterns left. */
  ghost function CleanGlobs(m: map<Path, Node>, out: Path, globs: seq<Glob>, keep: set<string>,
                            it: seq<Tok>): (r: map<Path, Node>)
    ensures forall q | q in r :: q in m && r[q] == m[q]
    ensures forall q | q in m && !Under(out, q) :: q in r
    decreases |globs|
  {
    if |globs| == 0 then m
    else
      var targets := GlobIn(m, out, globs[0]);
      forall q, k | q in m && !Under(out, q) && 0 <= k < |targets| ensures !Cleaner.Reached(targets[k], q) {
        if Cleaner.Reached(targets[k], q) { UnderTrans(out, targets[k], q); }
      }
      CleanGlobs(CleanTargets(m, targets, out, keep, it), out, globs[1..], keep, it)
  }

  lemma UnderTrans(a: Path, b: Path, c: Path)
    requires Under(a, b) && Under(b, c)
    ensures Under(a, c)
  {
    assert c[..|a|] == c[..|b|][..|a|];
  }

  /** The keep list as the set Clean looks entries up in. */
  function KeepSet(lib: Library): set<string> {
    set k | k in lib.keep
  }

  /** The file system after Clean(library). */
  ghost function CleanSpec(m: map<Path, Node>, lib: Library): map<Path, Node> {
    CleanGlobs(m, ToPath(lib.output), Patterns(JavaNaming.ModuleName(lib.name)),
               KeepSet(lib), ITPattern)
  }

  /** Clean: cleans every match of every pattern below the library's output directory. */
  method Clean(fs: FileSystem, lib: Library)
    requires fs.Valid()
    modifies fs
    ensures fs.Valid()
    ensures fs.entries == CleanSpec(old(fs.entries), lib)
  {
    var name := JavaNaming.ModuleName(lib.name);
    CleanAll(fs, ToPath(lib.output), Patterns(name), KeepSet(lib), ITPattern);
  }

  method CleanAll(fs: FileSystem, out: Path, globs: seq<Glob>, keep: set<string>, it: seq<Tok>)
    requires fs.Valid()
    modifies fs
    ensures fs.Valid()
    ensures fs.entries == CleanGlobs(old(fs.entries), out, globs, keep, it)
  {
    ghost var m := fs.entries;
    var i := 0;
    while i < |globs|
      invariant 0 <= i <= |globs|
      invariant fs.Valid()
      invariant CleanGlobs(m, out, globs, keep, it) == CleanGlobs(fs.entries, out, globs[i..], keep, it)
    {
      var matches := GlobFiles(fs, out, globs[i]);
      assert globs[i..][1..] == globs[i + 1..];
      CleanMatches(fs, matches, out, keep, it);
      i := i + 1;
    }
  }

  /** filepath.Glob, as computed by listing the output directory. */
  method GlobFiles(fs: FileSystem, out: Path, g: Glob) returns (r: seq<Path>)
    ensures r == GlobIn(fs.entries, out, g)
  {
    match g
    case Prefix(w) =>
      if IsDirIn(fs.entries, out) {
        var found := set p | p in fs.entries && |p| == |out| + 1 && p[..|out|] == out && HasPrefix(Name(p), w);
        r := WalkOrder(found);
        WalkOrderIsListing(r, found);
      } else {
        r := [];
      }
    case Exact(rel) =>
      r := if out + rel in fs.entries then [out + rel] else [];
  }

  /** The inner loop of Clean: cleanPath on each match. */
  method CleanMatches(fs: FileSystem, targets: seq<Path>, out: Path, keep: set<string>, it: seq<Tok>)
    requires fs.Valid() && forall k | 0 <= k < |targets| :: Under(out, targets[k])
    modifies fs
    ensures fs.Valid()
    ensures fs.entries == CleanTargets(old(fs.entries), targets, out, keep, it)
  {
    ghost var m := fs.entries;
    var j := 0;
    while j < |targets|
      invariant 0 <= j <= |targets|
      invariant fs.Valid()
      invariant CleanTargets(m, targets, out, keep, it) == CleanTargets(fs.entries, targets[j..], out, keep, it)
    {
      assert targets[j..][1..] == targets[j + 1..];
      CleanPath(fs, targets[j], out, keep, it);
      j := j + 1;
    }
  }

  // ---------------------------------------------------------------------------
  // What Clean keeps
  // ---------------------------------------------------------------------------

  /** The file at `p` is spared, with `keep` holding the keep entries as written. */
  predicate SparedBy(out: Path, keep: set<string>, it: seq<Tok>, p: Path) {
    (Under(out, p) && PathString(Cleaner.Rel(out, p)) in keep)
    || Matches(it, PathString(p)) || Name(p) == "clirr-ignored-differences.xml"
  }

  /** cleanPath deletes a file it reaches exactly when the file is not spared; keeping a
      directory does not spare the files inside it. */
  lemma CleanPathFile(m: map<Path, Node>, target: Path, out: Path, keep: set<string>, it: seq<Tok>, p: Path)
    requires p in m && m[p].File? && Cleaner.Reached(target, p)
    ensures p in CleanPathSpec(m, target, out, keep, it) <==> SparedBy(out, keep, it, p)
  {
    var rel := KeptRel(m, out, keep);
    var w := AfterWalk(m, target, out, rel, it);
    assert p in w <==> Spared(out, rel, it, p);
    if p in w { assert !Candidate(w, target, out, rel, p); }
  }

  /** cleanPath never removes a kept directory or a control directory. */
  lemma CleanPathDirSurvives(m: map<Path, Node>, target: Path, out: Path, keep: set<string>, it: seq<Tok>, p: Path)
    requires p in m && m[p].Dir?
    requires (Under(out, p) && PathString(Cleaner.Rel(out, p)) in keep) || Cleaner.IsControlDir(Name(p))
    ensures p in CleanPathSpec(m, target, out, keep, it)
  {
    var rel := KeptRel(m, out, keep);
    var w := AfterWalk(m, target, out, rel, it);
    assert p in w;
    assert !Candidate(w, target, out, rel, p);
  }

  /** A second cleanPath of the same target with the same keep entries changes nothing:
      every file it reaches is spared, and every directory left has something below it
      that is not removed. */
  lemma CleanPathIdempotent(m: map<Path, Node>, target: Path, out: Path, keep: set<string>, it: seq<Tok>)
    ensures CleanPathSpec(CleanPathSpec(m, target, out, keep, it), target, out, keep, it)
         == CleanPathSpec(m, target, out, keep, it)
  {
    var rel := KeptRel(m, out, keep);
    var w := AfterWalk(m, target, out, rel, it);
    var m1 := AfterRemoval(w, target, out, rel);
    var rel1 := KeptRel(m1, out, keep);
    var w1 := AfterWalk(m1, target, out, rel1, it);
    assert w1 == m1 by {
      forall q | q in m1 ensures !DeletedInWalk(m1, target, out, rel1, it, q) {
        assert !DeletedInWalk(m, target, out, rel, it, q);
      }
    }
    forall q | q in m1 ensures !RemovedBottomUp(m1, target, out, rel1, q) {
      assert !RemovedBottomUp(w, target, out, rel, q);
      if Candidate(m1, target, out, rel1, q) {
        assert Candidate(w, target, out, rel, q);
        var x :| x in w && StrictlyUnder(q, x) && !Candidate(w, target, out, rel, x);
        assert x in m1;
        assert !Candidate(m1, target, out, rel1, x);
      }
    }
    assert AfterRemoval(w1, target, out, rel1) == m1;
  }

  /** A spared file survives cleanPath on any list of targets. */
  lemma {:induction false} SparedSurvivesTargets(m: map<Path, Node>, targets: seq<Path>, out: Path,
                                                 keep: set<string>, it: seq<Tok>, p: Path)
    requires p in m && m[p].File? && SparedBy(out, keep, it, p)
    ensures p in CleanTargets(m, targets, out, keep, it)
    decreases |targets|
  {
    if |targets| > 0 {
      if Cleaner.Reached(targets[0], p) { CleanPathFile(m, targets[0], out, keep, it, p); }
      SparedSurvivesTargets(CleanPathSpec(m, targets[0], out, keep, it), targets[1..], out, keep, it, p);
    }
  }

  /** A spared file survives every pattern of Clean. */
  lemma {:induction false} SparedSurvivesGlobs(m: map<Path, Node>, out: Path, globs: seq<Glob>,
                                               keep: set<string>, it: seq<Tok>, p: Path)
    requires p in m && m[p].File? && SparedBy(out, keep, it, p)
    ensures p in CleanGlobs(m, out, globs, keep, it)
    decreases |globs|
  {
    if |globs| > 0 {
      var targets := GlobIn(m, out, globs[0]);
      SparedSurvivesTargets(m, targets, out, keep, it, p);
      SparedSurvivesGlobs(CleanTargets(m, targets, out, keep, it), out, globs[1..], keep, it, p);
    }
  }

  /** Clean keeps every file that is kept, is an integration test or is a clirr
      baseline, wherever it lies. */
  lemma SparedSurvivesClean(m: map<Path, Node>, lib: Library, p: Path)
    requires p in m && m[p].File? && SparedBy(ToPath(lib.output), KeepSet(lib), ITPattern, p)
    ensures p in CleanSpec(m, lib)
  {
    SparedSurvivesGlobs(m, ToPath(lib.output), Patterns(JavaNaming.ModuleName(lib.name)),
                        KeepSet(lib), ITPattern, p);
  }

  /** A prefix pattern longer than `name` never globs the directory `out + [name]`, so
      cleaning its matches leaves that directory and everything below it alone. */
  lemma PrefixMissesModule(m: map<Path, Node>, out: Path, name: string, g: Glob, keep: set<string>,
                           it: seq<Tok>, p: Path)
    requires g.Prefix? && |g.prefix| > |name|
    requires p in m && Under(out + [name], p)
    ensures var r := CleanTargets(m, GlobIn(m, out, g), out, keep, it);
      p in r && r[p] == m[p] && (out + [name] in m ==> out + [name] in r)
  {
    var targets := GlobIn(m, out, g);
    forall q, k | q in m && Under(out + [name], q) && 0 <= k < |targets|
      ensures !Cleaner.Reached(targets[k], q)
    {
      assert targets[k] in ChildrenWithPrefix(m, out, g.prefix);
    }
    assert (out + [name])[..|out + [name]|] == out + [name];
  }

  /** Every file of the main module that Clean reaches is deleted unless it is spared:
      the proto and gRPC patterns never match the main module, and its own pattern
      then cleans it. */
  lemma MainModuleFiles(m: map<Path, Node>, out: Path, name: string, keep: set<string>,
                        it: seq<Tok>, p: Path)
    requires TreeShaped(m) && p in m && m[p].File?
    requires Cleaner.Reached(out + [name], p)
    ensures p in CleanGlobs(m, out, Patterns(name), keep, it) <==> SparedBy(out, keep, it, p)
  {
    ModuleAfterGlobs(m, out, name, Patterns(name), keep, it, p);
  }

  lemma {:induction false} ModuleAfterGlobs(m: map<Path, Node>, out: Path, name: string, globs: seq<Glob>,
                                            keep: set<string>, it: seq<Tok>, p: Path)
    requires TreeShaped(m) && p in m && m[p].File?
    requires Cleaner.Reached(out + [name], p)
    requires |globs| == 4 && globs[2] == Exact([name])
    requires globs[0].Prefix? && |globs[0].prefix| > |name| && globs[1].Prefix? && |globs[1].prefix| > |name|
    ensures p in CleanGlobs(m, out, globs, keep, it) <==> SparedBy(out, keep, it, p)
  {
    var mainDir := out + [name];
    AncestorIn(m, p, |mainDir|);
    assert p[..|mainDir|] == mainDir;
    var m1 := CleanTargets(m, GlobIn(m, out, globs[0]), out, keep, it);
    PrefixMissesModule(m, out, name, globs[0], keep, it, p);
    var m2 := CleanTargets(m1, GlobIn(m1, out, globs[1]), out, keep, it);
    PrefixMissesModule(m1, out, name, globs[1], keep, it, p);
    CleanGlobsTwoSteps(m, out, globs, keep, it);
    ModuleStep(m2, out, name, globs[2..], keep, it, p);
  }

  /** The first two patterns of Clean, unfolded. */
  lemma CleanGlobsTwoSteps(m: map<Path, Node>, out: Path, globs: seq<Glob>, keep: set<string>, it: seq<Tok>)
    requires |globs| >= 2
    ensures var m1 := CleanTargets(m, GlobIn(m, out, globs[0]), out, keep, it);
      var m2 := CleanTargets(m1, GlobIn(m1, out, globs[1]), out, keep, it);
      CleanGlobs(m, out, globs, keep, it) == CleanGlobs(m2, out, globs[2..], keep, it)
  {
    assert globs[1..][1..] == globs[2..];
  }

  lemma ModuleStep(m: map<Path, Node>, out: Path, name: string, globs: seq<Glob>,
                   keep: set<string>, it: seq<Tok>, p: Path)
    requires p in m && m[p].File? && out + [name] in m
    requires Cleaner.Reached(out + [name], p)
    requires |globs| > 0 && globs[0] == Exact([name])
    ensures p in CleanGlobs(m, out, globs, keep, it) <==> SparedBy(out, keep, it, p)
  {
    var mainDir := out + [name];
    assert GlobIn(m, out, globs[0]) == [mainDir];
    var m3 := CleanPathSpec(m, mainDir, out, keep, it);
    assert CleanTargets(m, [mainDir], out, keep, it) == m3;
    CleanPathFile(m, mainDir, out, keep, it, p);
    if p in m3 {
      SparedSurvivesGlobs(m3, out, globs[1..], keep, it, p);
    }
  }

  /** Clean deletes a reached file of the library's main module exactly when it is not
      spared. */
  lemma CleanMainModule(m: map<Path, Node>, lib: Library, p: Path)
    requires TreeShaped(m) && p in m && m[p].File?
    requires Cleaner.Reached(ToPath(lib.output) + [JavaNaming.ModuleName(lib.name)], p)
    ensures p in CleanSpec(m, lib) <==> SparedBy(ToPath(lib.output), KeepSet(lib), ITPattern, p)
  {
    MainModuleFiles(m, ToPath(lib.output), JavaNaming.ModuleName(lib.name), KeepSet(lib), ITPattern, p);
  }
}
