/** The part of the operating system's file system that the orchestration code touches:
    a tree of files and directories addressed by path components, the `os` calls made on
    it (Remove, RemoveAll, MkdirAll, Rename, WriteFile), and the order in which
    `filepath.WalkDir` visits it. */
module Fs {
  import opened Strs
  import opened Sorting
  import opened Outcome

  /** A path relative to the working directory, as its "/"-separated components.
      The empty path is the working directory itself ("."). */
  type Path = seq<string>

  datatype Node = File(content: string) | Dir

  /** filepath.Base: the last component, "." for the working directory. */
  function Name(p: Path): string {
    if |p| == 0 then "." else p[|p| - 1]
  }

  function Parent(p: Path): Path
    requires |p| > 0
  {
    p[..|p| - 1]
  }

  /** The path as Go prints it. */
  function PathString(p: Path): string {
    if |p| == 0 then "." else Join(p, "/")
  }

  /** filepath.Join(dir, s) seen from `dir` for a relative "/"-separated path `s`
      without ".." components: empty and "." components vanish. */
  function ToPath(s: string): (p: Path)
    ensures forall k | 0 <= k < |p| :: p[k] != "" && p[k] != "."
  {
    Clean(Split(s, '/'))
  }

  function Clean(parts: seq<string>): (p: Path)
    ensures forall k | 0 <= k < |p| :: p[k] != "" && p[k] != "."
  {
    if |parts| == 0 then []
    else if parts[0] == "" || parts[0] == "." then Clean(parts[1..])
    else [parts[0]] + Clean(parts[1..])
  }

  /** `p` is `a` or lies below it. */
  predicate Under(a: Path, p: Path) {
    |a| <= |p| && p[..|a|] == a
  }

  /** `p` lies strictly below `a`. */
  predicate StrictlyUnder(a: Path, p: Path) {
    |a| < |p| && p[..|a|] == a
  }

  /** The path `p` under `src` moved to the same place under `dest`. */
  function Rebase(p: Path, src: Path, dest: Path): (q: Path)
    requires Under(src, p)
    ensures Under(dest, q) && |q| == |dest| + |p| - |src|
  {
    dest + p[|src|..]
  }

  /** Neither path lies under the other. */
  predicate Disjoint(a: Path, b: Path) {
    !Under(a, b) && !Under(b, a)
  }

  lemma DisjointRebase(p: Path, src: Path, dest: Path)
    requires Under(src, p) && Disjoint(src, dest)
    ensures !Under(src, Rebase(p, src, dest)) && !Under(dest, p)
  {
    var q := Rebase(p, src, dest);
    assert |src| <= |dest| ==> q[..|src|] == dest[..|src|];
    assert |dest| <= |src| ==> p[..|dest|] == src[..|dest|];
  }

  /** Distinct paths under `src` move to distinct paths. */
  lemma RebaseInjective(p: Path, q: Path, src: Path, dest: Path)
    requires Under(src, p) && Under(src, q)
    requires Rebase(p, src, dest) == Rebase(q, src, dest)
    ensures p == q
  {
    assert p[|src|..] == Rebase(p, src, dest)[|dest|..];
    assert q[|src|..] == Rebase(q, src, dest)[|dest|..];
    assert p == p[..|src|] + p[|src|..];
    assert q == q[..|src|] + q[|src|..];
  }

  // ---------------------------------------------------------------------------
  // Walk order: filepath.WalkDir visits a directory before its entries and the
  // entries in lexical order of their names, which is the component-wise
  // lexicographic order on paths below.
  // ---------------------------------------------------------------------------

  predicate PathLt(a: Path, b: Path)
    decreases |a|
  {
    if |a| == 0 then |b| > 0
    else if |b| == 0 then false
    else if a[0] != b[0] then StrLt(a[0], b[0])
    else PathLt(a[1..], b[1..])
  }

  lemma {:induction false} PathLtIrreflexive(a: Path)
    ensures !PathLt(a, a)
    decreases |a|
  {
    if |a| > 0 { PathLtIrreflexive(a[1..]); }
  }

  lemma {:induction false} PathLtTransitive(a: Path, b: Path, c: Path)
    requires PathLt(a, b) && PathLt(b, c)
    ensures PathLt(a, c)
    decreases |a|
  {
    if |a| > 0 && |b| > 0 && |c| > 0 {
      if a[0] == b[0] && b[0] == c[0] {
        PathLtTransitive(a[1..], b[1..], c[1..]);
      } else if a[0] != b[0] && b[0] != c[0] {
        StrLtTransitive(a[0], b[0], c[0]);
        if a[0] == c[0] { StrLtIrreflexive(a[0]); }
      }
    }
  }

  lemma {:induction false} PathLtTotal(a: Path, b: Path)
    ensures a == b || PathLt(a, b) || PathLt(b, a)
    decreases |a|
  {
    if |a| > 0 && |b| > 0 {
      if a[0] == b[0] {
        PathLtTotal(a[1..], b[1..]);
        if a[1..] == b[1..] {
          assert a == [a[0]] + a[1..] && b == [b[0]] + b[1..];
        }
      } else {
        StrLtTotal(a[0], b[0]);
      }
    }
  }

  /** A directory comes before everything below it. */
  lemma {:induction false} PathLtStrictlyUnder(a: Path, b: Path)
    requires StrictlyUnder(a, b)
    ensures PathLt(a, b)
    decreases |a|
  {
    if |a| > 0 {
      assert b[1..][..|a| - 1] == a[1..];
      PathLtStrictlyUnder(a[1..], b[1..]);
    }
  }

  lemma PathLtAsymmetric(a: Path, b: Path)
    requires PathLt(a, b)
    ensures !PathLt(b, a)
  {
    if PathLt(b, a) {
      PathLtTransitive(a, b, a);
      PathLtIrreflexive(a);
    }
  }

  lemma PathLtStrictTotal(s: set<Path>)
    ensures StrictTotalOn(PathLt, s)
  {
    forall a | a in s ensures !PathLt(a, a) { PathLtIrreflexive(a); }
    forall a, b | a in s && b in s ensures a == b || PathLt(a, b) || PathLt(b, a) { PathLtTotal(a, b); }
    forall a, b, c | a in s && b in s && c in s && PathLt(a, b) && PathLt(b, c) ensures PathLt(a, c) {
      PathLtTransitive(a, b, c);
    }
  }

  /** In a walk listing, everything below an entry comes after it. */
  lemma DescendantsLater(r: seq<Path>, i: int, j: int)
    requires Increasing(r, PathLt) && 0 <= i < |r| && 0 <= j < |r|
    requires StrictlyUnder(r[i], r[j])
    ensures i < j
  {
    PathLtStrictlyUnder(r[i], r[j]);
    PathLtAsymmetric(r[i], r[j]);
  }

  /** Sorts a set of paths into WalkDir order. */
  method WalkOrder(s: set<Path>) returns (r: seq<Path>)
    ensures SortedListing(r, s, PathLt) && |r| == |s|
  {
    PathLtStrictTotal(s);
    r := SortSet(s, PathLt);
  }

  /** The walk order of a set of paths, as a function. */
  ghost function WalkListing(s: set<Path>): (r: seq<Path>)
    ensures SortedListing(r, s, PathLt)
  {
    PathLtStrictTotal(s);
    SortedOf(s, PathLt)
  }

  /** Any listing in walk order is the walk listing. */
  lemma WalkOrderIsListing(r: seq<Path>, s: set<Path>)
    requires SortedListing(r, s, PathLt)
    ensures r == WalkListing(s)
  {
    PathLtStrictTotal(s);
    SortedListingUnique(r, WalkListing(s), s, PathLt);
  }

  // ---------------------------------------------------------------------------
  // The tree
  // ---------------------------------------------------------------------------

  /** Every entry's parent is a directory (the working directory always exists and is
      not itself an entry). */
  ghost predicate TreeShaped(m: map<Path, Node>) {
    && (forall p | p in m :: |p| > 0)
    && (forall p {:trigger Parent(p)} | p in m && |p| > 1 :: Parent(p) in m && m[Parent(p)].Dir?)
  }

  predicate HasChild(m: map<Path, Node>, p: Path) {
    exists q | q in m :: |q| == |p| + 1 && q[..|p|] == p
  }

  lemma {:induction false} AncestorIn(m: map<Path, Node>, q: Path, k: nat)
    requires TreeShaped(m) && q in m && 0 < k <= |q|
    ensures q[..k] in m && (k < |q| ==> m[q[..k]].Dir?)
    decreases |q| - k
  {
    if k < |q| {
      AncestorIn(m, q, k + 1);
      assert q[..k + 1] in m;
      assert Parent(q[..k + 1]) == q[..k];
    } else {
      assert q[..k] == q;
    }
  }

  /** In a tree, an entry with anything below it has a child. */
  lemma DescendantGivesChild(m: map<Path, Node>, p: Path, q: Path)
    requires TreeShaped(m) && q in m && StrictlyUnder(p, q)
    ensures HasChild(m, p)
  {
    AncestorIn(m, q, |p| + 1);
    assert q[..|p| + 1][..|p|] == p;
  }

  /** A file has nothing below it. */
  lemma FileIsLeaf(m: map<Path, Node>, p: Path, q: Path)
    requires TreeShaped(m) && p in m && m[p].File? && q in m
    ensures !StrictlyUnder(p, q)
  {
    if 0 < |p| < |q| {
      AncestorIn(m, q, |p|);
    }
  }

  /** os.MkdirAll(p) succeeds exactly when no prefix of `p` is a file. */
  predicate CanMkdirAll(m: map<Path, Node>, p: Path) {
    forall k | 0 < k <= |p| :: p[..k] in m ==> m[p[..k]].Dir?
  }

  /** The tree after MkdirAll(p): every missing prefix of `p` added as a directory. */
  function WithDirs(m: map<Path, Node>, p: Path): (m': map<Path, Node>)
    ensures forall q | q in m :: q in m' && m'[q] == m[q]
    ensures forall k | 0 < k <= |p| :: p[..k] in m'
    decreases |p|
  {
    if |p| == 0 then m
    else
      var m0 := WithDirs(m, Parent(p));
      assert forall k | 0 < k <= |p| - 1 :: Parent(p)[..k] == p[..k];
      assert p[..|p|] == p;
      if p in m0 then m0 else m0[p := Dir]
  }

  /** MkdirAll adds nothing but directories on the way to `p`. */
  lemma {:induction false} WithDirsAddsPrefixes(m: map<Path, Node>, p: Path)
    ensures forall q | q in WithDirs(m, p) && q !in m :: WithDirs(m, p)[q].Dir? && 0 < |q| <= |p| && q == p[..|q|]
    decreases |p|
  {
    if |p| > 0 {
      WithDirsAddsPrefixes(m, Parent(p));
      assert forall k | 0 <= k <= |p| - 1 :: Parent(p)[..k] == p[..k];
    }
  }

  /** The error os.MkdirAll reports when a file stands on the way. */
  function MkdirAllError(p: Path): string {
    "mkdir " + PathString(p) + ": not a directory"
  }

  /** MkdirAll keeps the tree a tree and leaves `p` a directory. */
  lemma {:induction false} WithDirsTree(m: map<Path, Node>, p: Path)
    requires TreeShaped(m) && CanMkdirAll(m, p)
    ensures TreeShaped(WithDirs(m, p)) && IsDirIn(WithDirs(m, p), p)
    decreases |p|
  {
    if |p| > 0 {
      assert forall k | 0 < k <= |p| - 1 :: Parent(p)[..k] == p[..k];
      WithDirsTree(m, Parent(p));
      WithDirsAddsPrefixes(m, Parent(p));
      var m0 := WithDirs(m, Parent(p));
      assert p[..|p|] == p;
      if |p| > 1 {
        assert Parent(p) == p[..|p| - 1];
      }
    }
  }

  /** MkdirAll only adds directories: a directory stays one, and a later MkdirAll that
      was possible before still is. */
  lemma WithDirsKeeps(m: map<Path, Node>, p: Path, q: Path)
    requires CanMkdirAll(m, p)
    ensures IsDirIn(m, q) ==> IsDirIn(WithDirs(m, p), q)
    ensures CanMkdirAll(m, q) ==> CanMkdirAll(WithDirs(m, p), q)
  {
    WithDirsAddsPrefixes(m, p);
  }

  /** os.WriteFile of `p` after os.MkdirAll of its directory can succeed: no file stands
      on the way and `p` is not a directory. */
  predicate CanPlace(m: map<Path, Node>, p: Path) {
    |p| > 0 && CanMkdirAll(m, Parent(p)) && !(p in m && m[p].Dir?)
  }

  /** The tree after writing the file `p` with its directory created first; unchanged
      when that cannot succeed. */
  function Placed(m: map<Path, Node>, p: Path, content: string): map<Path, Node> {
    if CanPlace(m, p) then WithDirs(m, Parent(p))[p := File(content)] else m
  }

  /** The tree after writing the files in order, each as Placed. */
  function PlacedAll(m: map<Path, Node>, files: seq<(Path, string)>): map<Path, Node>
    decreases |files|
  {
    if |files| == 0 then m else PlacedAll(Placed(m, files[0].0, files[0].1), files[1..])
  }

  /** Writing a file keeps the tree a tree and every directory a directory, puts the
      content at `p` when it can, and changes nothing else that was there. */
  lemma PlacedMeaning(m: map<Path, Node>, p: Path, content: string, q: Path)
    requires TreeShaped(m)
    ensures var m' := Placed(m, p, content);
      && TreeShaped(m')
      && (CanPlace(m, p) ==> p in m' && m'[p] == File(content))
      && (IsDirIn(m, q) ==> IsDirIn(m', q))
      && (q in m && q != p ==> q in m' && m'[q] == m[q])
  {
    if CanPlace(m, p) {
      WithDirsTree(m, Parent(p));
      WithDirsAddsPrefixes(m, Parent(p));
      var m0 := WithDirs(m, Parent(p));
      assert p !in m0 || m0[p].File? by {
        if p !in m { assert forall k | 0 < k <= |Parent(p)| :: |Parent(p)[..k]| < |p|; }
      }
      forall r | r in m0[p := File(content)] && |r| > 1
        ensures Parent(r) in m0 && m0[Parent(r)].Dir?
      {
        if r == p {
          assert IsDirIn(m0, Parent(p));
        } else {
          assert r in m0;
          assert Parent(r) != p by {
            if Parent(r) == p && p in m0 {
              FileIsLeaf(m0, p, r);
            }
          }
        }
      }
    }
  }

  /** Writing a sequence of files keeps the tree a tree, every directory a directory,
      and every entry that none of them names. */
  lemma {:induction false} PlacedAllMeaning(m: map<Path, Node>, files: seq<(Path, string)>, q: Path)
    requires TreeShaped(m)
    ensures var m' := PlacedAll(m, files);
      && TreeShaped(m')
      && (IsDirIn(m, q) ==> IsDirIn(m', q))
      && (q in m && (forall i | 0 <= i < |files| :: files[i].0 != q) ==> q in m' && m'[q] == m[q])
    decreases |files|
  {
    if |files| > 0 {
      PlacedMeaning(m, files[0].0, files[0].1, q);
      assert forall i | 0 <= i < |files| - 1 :: files[1..][i] == files[i + 1];
      PlacedAllMeaning(Placed(m, files[0].0, files[0].1), files[1..], q);
    }
  }

  /** The tree after os.RemoveAll(p): `p` and everything below it gone. */
  function WithoutTree(m: map<Path, Node>, p: Path): map<Path, Node> {
    map q | q in m && !Under(p, q) :: m[q]
  }

  /** Removing a subtree keeps the tree a tree and every directory outside it. */
  lemma WithoutTreeMeaning(m: map<Path, Node>, p: Path, q: Path)
    requires TreeShaped(m) && |p| > 0
    ensures TreeShaped(WithoutTree(m, p))
    ensures IsDirIn(m, q) && !Under(p, q) ==> IsDirIn(WithoutTree(m, p), q)
  {
    var m' := WithoutTree(m, p);
    forall r | r in m' && |r| > 1 ensures Parent(r) in m' {
      assert |p| <= |Parent(r)| ==> Parent(r)[..|p|] == r[..|p|];
    }
  }

  /** One step of a loop that works on the file tree and may fail. */
  type TreeStep<!T> = (T, map<Path, Node>) -> (Status, map<Path, Node>)

  /** The loop `for _, x := range items { if err := step(x); err != nil { return err } }`
      on the tree: each item on the tree the earlier ones left, up to the first failure,
      whose error and tree are the result. */
  function UntilFailure<T>(step: TreeStep<T>, items: seq<T>, m: map<Path, Node>): (Status, map<Path, Node>)
    decreases |items|
  {
    if |items| == 0 then (None, m)
    else
      var r := step(items[0], m);
      if r.0.Some? then r else UntilFailure(step, items[1..], r.1)
  }

  /** The tree `items[i]` is run on when every step before it is run in order from `m`. */
  function TreeBefore<T>(step: TreeStep<T>, items: seq<T>, m: map<Path, Node>, i: nat): map<Path, Node>
    requires i <= |items|
    decreases i
  {
    if i == 0 then m else TreeBefore(step, items[1..], step(items[0], m).1, i - 1)
  }

  /** `items[i]` succeeds on the tree the steps before it left. */
  predicate StepSucceeds<T>(step: TreeStep<T>, items: seq<T>, m: map<Path, Node>, i: nat)
    requires i < |items|
  {
    step(items[i], TreeBefore(step, items, m, i)).0.None?
  }

  /** The loop succeeds exactly when every step succeeds on the tree the earlier ones
      left, and then leaves the tree after the last. */
  lemma {:induction false} UntilFailureSucceeds<T>(step: TreeStep<T>, items: seq<T>, m: map<Path, Node>)
    ensures var r := UntilFailure(step, items, m);
      && (r.0.None? <==> forall i | 0 <= i < |items| :: StepSucceeds(step, items, m, i))
      && (r.0.None? ==> r.1 == TreeBefore(step, items, m, |items|))
    decreases |items|
  {
    if |items| > 0 {
      var m1 := step(items[0], m).1;
      assert TreeBefore(step, items, m, 0) == m;
      if step(items[0], m).0.None? {
        UntilFailureSucceeds(step, items[1..], m1);
        assert StepSucceeds(step, items, m, 0);
        forall j | 0 <= j < |items| - 1
          ensures StepSucceeds(step, items[1..], m1, j) == StepSucceeds(step, items, m, j + 1)
        {
          assert items[1..][j] == items[j + 1];
        }
        forall i | 1 <= i < |items|
          ensures StepSucceeds(step, items, m, i) == StepSucceeds(step, items[1..], m1, i - 1)
        {
        }
      } else {
        assert !StepSucceeds(step, items, m, 0);
      }
    }
  }

  /** A loop that fails has the result of one of its steps, run on the tree the steps
      before it left. */
  lemma {:induction false} UntilFailureFails<T>(step: TreeStep<T>, items: seq<T>, m: map<Path, Node>)
    ensures var r := UntilFailure(step, items, m);
      r.0.Some? ==> exists i | 0 <= i < |items| :: r == step(items[i], TreeBefore(step, items, m, i))
    decreases |items|
  {
    if |items| > 0 {
      var m1 := step(items[0], m).1;
      assert TreeBefore(step, items, m, 0) == m;
      if step(items[0], m).0.None? {
        UntilFailureFails(step, items[1..], m1);
        var r := UntilFailure(step, items[1..], m1);
        if r.0.Some? {
          var j :| 0 <= j < |items| - 1 && r == step(items[1..][j], TreeBefore(step, items[1..], m1, j));
          assert items[1..][j] == items[j + 1];
          assert TreeBefore(step, items, m, j + 1) == TreeBefore(step, items[1..], m1, j);
        }
      }
    }
  }

  /** The first step that fails decides the loop's result. */
  lemma {:induction false} FailureAt<T>(step: TreeStep<T>, items: seq<T>, m: map<Path, Node>, i: nat)
    requires i < |items| && !StepSucceeds(step, items, m, i)
    requires forall j | 0 <= j < i :: StepSucceeds(step, items, m, j)
    ensures UntilFailure(step, items, m) == step(items[i], TreeBefore(step, items, m, i))
    decreases i
  {
    if i > 0 {
      var m1 := step(items[0], m).1;
      assert StepSucceeds(step, items, m, 0);
      forall j | 0 <= j < i - 1 ensures StepSucceeds(step, items[1..], m1, j) {
        assert items[1..][j] == items[j + 1];
        assert StepSucceeds(step, items, m, j + 1);
      }
      assert items[1..][i - 1] == items[i];
      FailureAt(step, items[1..], m1, i - 1);
    }
  }

  /** A property of the tree that every step keeps, the loop keeps. */
  lemma {:induction false} UntilFailureKeeps<T>(step: TreeStep<T>, items: seq<T>, m: map<Path, Node>,
                                                inv: map<Path, Node> -> bool)
    requires forall i, t | 0 <= i < |items| && inv(t) :: inv(step(items[i], t).1)
    requires inv(m)
    ensures inv(UntilFailure(step, items, m).1)
    decreases |items|
  {
    if |items| > 0 {
      assert inv(step(items[0], m).1);
      if step(items[0], m).0.None? {
        assert forall i | 0 <= i < |items| - 1 :: items[1..][i] == items[i + 1];
        UntilFailureKeeps(step, items[1..], step(items[0], m).1, inv);
      }
    }
  }

  class FileSystem {
    var entries: map<Path, Node>

    ghost predicate Valid()
      reads this
    {
      TreeShaped(entries)
    }

    /** os.Stat (and os.Lstat: there are no symbolic links). */
    function Stat(p: Path): StatResult
      reads this
    {
      StatIn(entries, p)
    }

    /** os.ReadFile: the contents of a regular file. */
    function ReadFile(p: Path): (r: Result<string>)
      reads this
      ensures r.Ok? <==> p in entries && entries[p].File?
      ensures r.Ok? ==> r.value == entries[p].content
    {
      if p in entries && entries[p].File? then Ok(entries[p].content)
      else if p == [] || p in entries then Err("read " + PathString(p) + ": is a directory")
      else Err("open " + PathString(p) + ": no such file or directory")
    }

    /** os.Remove: a missing path, the working directory, and a directory that still has
        entries cannot be removed. */
    method Remove(p: Path) returns (err: Status)
      requires Valid()
      modifies this
      ensures Valid()
      ensures err.None? <==> p in old(entries) && !HasChild(old(entries), p)
      ensures entries == if err.None? then old(entries) - {p} else old(entries)
    {
      if p !in entries {
        return Some("remove " + PathString(p) + ": no such file or directory");
      }
      if HasChild(entries, p) {
        return Some("remove " + PathString(p) + ": directory not empty");
      }
      entries := entries - {p};
      err := None;
    }

    /** os.RemoveAll: removes `p` and everything below it; a missing path is not an error. */
    method RemoveAll(p: Path)
      requires Valid() && |p| > 0
      modifies this
      ensures Valid()
      ensures entries == WithoutTree(old(entries), p)
    {
      WithoutTreeMeaning(entries, p, p);
      entries := WithoutTree(entries, p);
    }

    /** os.MkdirAll: creates every missing directory on the way to `p`; fails without
        changing anything when some prefix of `p` is a file. */
    method MkdirAll(p: Path) returns (err: Status)
      requires Valid()
      modifies this
      ensures Valid()
      ensures err.None? <==> CanMkdirAll(old(entries), p)
      ensures entries == if err.None? then WithDirs(old(entries), p) else old(entries)
      ensures err.Some? ==> err == Some(MkdirAllError(p))
    {
      if !(forall k | 0 < k <= |p| :: p[..k] in entries ==> entries[p[..k]].Dir?) {
        return Some(MkdirAllError(p));
      }
      var k := 0;
      ghost var m := entries;
      while k < |p|
        invariant 0 <= k <= |p|
        invariant entries == WithDirs(m, p[..k])
        invariant TreeShaped(entries)
        invariant CanMkdirAll(entries, p)
      {
        assert Parent(p[..k + 1]) == p[..k];
        var q := p[..k + 1];
        if q !in entries {
          entries := entries[q := Dir];
        }
        k := k + 1;
      }
      assert p[..|p|] == p;
      err := None;
    }

    /** os.Rename of a regular file: the target's parent must be a directory and the
        target must not be a directory; an existing target file is replaced. */
    method RenameFile(src: Path, dst: Path) returns (err: Status)
      requires Valid()
      modifies this
      ensures Valid()
      ensures err.None? <==> CanRenameFile(old(entries), src, dst)
      ensures entries == if err.None? then RenamedFile(old(entries), src, dst) else old(entries)
    {
      if !(src in entries && entries[src].File?) {
        return Some("rename " + PathString(src) + " " + PathString(dst) + ": no such file or directory");
      }
      if !(|dst| > 0 && IsDirIn(entries, Parent(dst))) {
        return Some("rename " + PathString(src) + " " + PathString(dst) + ": no such file or directory");
      }
      if dst in entries && entries[dst].Dir? {
        return Some("rename " + PathString(src) + " " + PathString(dst) + ": file exists");
      }
      ghost var m := entries;
      entries := (entries - {src})[dst := entries[src]];
      assert Valid() by {
        forall q | q in entries && |q| > 1 ensures Parent(q) in entries && entries[Parent(q)].Dir? {
          if q != dst { assert q in m; FileIsLeaf(m, src, q); assert Parent(q) != src; }
        }
      }
      err := None;
    }

    /** os.WriteFile: the parent must be a directory and `p` must not be one. */
    method WriteFile(p: Path, content: string) returns (err: Status)
      requires Valid()
      modifies this
      ensures Valid()
      ensures err.None? <==> (|p| > 0 && IsDirIn(old(entries), Parent(p))
                              && (p in old(entries) ==> old(entries)[p].File?))
      ensures entries == if err.None? then old(entries)[p := File(content)] else old(entries)
      ensures err.Some? ==> HasPrefix(err.value, "open " + PathString(p) + ": ")
    {
      if !(|p| > 0 && IsDirIn(entries, Parent(p))) {
        PrefixOfConcat("open " + PathString(p) + ": ", "no such file or directory");
        return Some("open " + PathString(p) + ": " + "no such file or directory");
      }
      if p in entries && entries[p].Dir? {
        PrefixOfConcat("open " + PathString(p) + ": ", "is a directory");
        return Some("open " + PathString(p) + ": " + "is a directory");
      }
      entries := entries[p := File(content)];
      err := None;
    }

    /** Writes the file `p`, creating its directory first; does nothing when that
        cannot succeed. */
    method Place(p: Path, content: string)
      requires Valid()
      modifies this
      ensures Valid()
      ensures entries == Placed(old(entries), p, content)
    {
      PlacedMeaning(entries, p, content, []);
      if |p| > 0 && CanMkdirAll(entries, Parent(p)) && !(p in entries && entries[p].Dir?) {
        var e := MkdirAll(Parent(p));
        entries := entries[p := File(content)];
      }
    }

    /** Writes the files in order, each as Place. */
    method PlaceAll(files: seq<(Path, string)>)
      requires Valid()
      modifies this
      ensures Valid()
      ensures entries == PlacedAll(old(entries), files)
    {
      var i := 0;
      while i < |files|
        invariant 0 <= i <= |files|
        invariant Valid()
        invariant PlacedAll(old(entries), files) == PlacedAll(entries, files[i..])
      {
        assert files[i..][1..] == files[i + 1..];
        Place(files[i].0, files[i].1);
        i := i + 1;
      }
    }
  }

  /** os.WriteFile(p) can succeed: the parent is a directory and `p` is not one. */
  predicate CanWrite(m: map<Path, Node>, p: Path) {
    |p| > 0 && IsDirIn(m, Parent(p)) && (p in m ==> m[p].File?)
  }

  /** The outcome of os.Stat: the entry, "no such file or directory", or "not a
      directory" when a file stands where a directory of the path should be. */
  datatype StatResult = Found(node: Node) | NotExist | NotADirectory

  function StatIn(m: map<Path, Node>, p: Path): (r: StatResult)
    ensures r.Found? <==> p == [] || p in m
  {
    if p == [] then Found(Dir)
    else if p in m then Found(m[p])
    else if exists k | 0 < k < |p| :: p[..k] in m && m[p[..k]].File? then NotADirectory
    else NotExist
  }

  /** os.Rename of a regular file succeeds: the source is a file, the target's parent is
      a directory and the target is not a directory. */
  predicate CanRenameFile(m: map<Path, Node>, src: Path, dst: Path) {
    src in m && m[src].File? && |dst| > 0 && IsDirIn(m, Parent(dst)) && (dst in m ==> m[dst].File?)
  }

  /** The tree after renaming the file `src` to `dst`: an existing target is replaced. */
  function RenamedFile(m: map<Path, Node>, src: Path, dst: Path): (m': map<Path, Node>)
    requires src in m
    ensures dst in m' && m'[dst] == m[src] && (src != dst ==> src !in m')
    ensures forall q | q in m && q != src && q != dst :: q in m' && m'[q] == m[q]
    ensures forall q | q in m' :: q == dst || q in m
  {
    (m - {src})[dst := m[src]]
  }

  /** `p` is an existing directory of `m` (the working directory always is). */
  predicate IsDirIn(m: map<Path, Node>, p: Path) {
    p == [] || (p in m && m[p].Dir?)
  }
}
