/** The Clirr ignore file of a Java proto module (internal/librarian/java/clirr/clirr.go):
    the packages under src/main/java that hold generated OrBuilder interfaces are listed
    in clirr-ignored-differences.xml, which is written only when it does not exist yet.
    The template that turns the package list into XML is a parameter, `render`. */
module Clirr {
  import opened Strs
  import opened Sorting
  import opened Outcome
  import opened Fs

  const IgnoreFile := "clirr-ignored-differences.xml"
  const OrBuilderSuffix := "OrBuilder.java"

  function OutputPath(protoModule: Path): Path {
    protoModule + [IgnoreFile]
  }

  function SrcDir(protoModule: Path): (d: Path)
    ensures |d| > 0 && Name(d) == "java"
  {
    protoModule + ["src", "main", "java"]
  }

  /** A regular file at or below the source directory whose name ends in
      "OrBuilder.java". */
  predicate IsOrBuilder(m: map<Path, Node>, protoModule: Path, p: Path) {
    p in m && m[p].File? && Under(SrcDir(protoModule), p) && HasSuffix(Name(p), OrBuilderSuffix)
  }

  /** The source directory itself is named "java", so every OrBuilder file lies strictly
      below it. */
  lemma OrBuilderBelowSrc(m: map<Path, Node>, protoModule: Path, p: Path)
    requires IsOrBuilder(m, protoModule, p)
    ensures StrictlyUnder(SrcDir(protoModule), p)
  {
  }

  /** filepath.ToSlash(filepath.Rel(srcDir, filepath.Dir(p))): the "/"-separated
      directory of `p` relative to the source directory, "." for the directory itself. */
  function PackageOf(protoModule: Path, p: Path): string
    requires StrictlyUnder(SrcDir(protoModule), p)
  {
    PathString(p[|SrcDir(protoModule)|..|p| - 1])
  }

  /** The package of an OrBuilder file, unless it is the source directory itself. */
  predicate Contributes(m: map<Path, Node>, protoModule: Path, p: Path) {
    IsOrBuilder(m, protoModule, p)
    && (OrBuilderBelowSrc(m, protoModule, p);
        var pkg := PackageOf(protoModule, p);
        pkg != "" && pkg != ".")
  }

  /** The packages of the OrBuilder files among `ps`. */
  ghost function PackagesIn(m: map<Path, Node>, protoModule: Path, ps: set<Path>): set<string> {
    set p | p in ps && Contributes(m, protoModule, p) :: (OrBuilderBelowSrc(m, protoModule, p); PackageOf(protoModule, p))
  }

  /** findProtoPackages: no packages when the source directory is missing; a path through
      a file cannot be walked; otherwise the packages of every OrBuilder file, each once,
      in ascending order. */
  ghost function FindProtoPackagesSpec(m: map<Path, Node>, protoModule: Path): Result<seq<string>> {
    var srcDir := SrcDir(protoModule);
    match StatIn(m, srcDir)
    case NotExist => Ok([])
    case NotADirectory => Err("lstat " + PathString(srcDir) + ": not a directory")
    case Found(_) =>
      var pkgs := PackagesIn(m, protoModule, m.Keys);
      StrLtStrictTotal(pkgs);
      Ok(SortedOf(pkgs, StrLt))
  }

  method FindProtoPackages(fs: FileSystem, protoModule: Path) returns (r: Result<seq<string>>)
    ensures r == FindProtoPackagesSpec(fs.entries, protoModule)
  {
    var srcDir := SrcDir(protoModule);
    match fs.Stat(srcDir)
    case NotExist =>
      return Ok([]);
    case NotADirectory =>
      return Err("lstat " + PathString(srcDir) + ": not a directory");
    case Found(_) =>
      var pkgs := CollectPackages(fs, protoModule);
      StrLtStrictTotal(pkgs);
      var sorted := SortSet(pkgs, StrLt);
      SortedListingUnique(sorted, SortedOf(pkgs, StrLt), pkgs, StrLt);
      return Ok(sorted);
  }

  /** The walk of findProtoPackages: visits everything at or below the source directory
      and gathers the packages of the OrBuilder files into a set. */
  method CollectPackages(fs: FileSystem, protoModule: Path) returns (pkgs: set<string>)
    ensures pkgs == PackagesIn(fs.entries, protoModule, fs.entries.Keys)
  {
    var srcDir := SrcDir(protoModule);
    var visited := set p | p in fs.entries && Under(srcDir, p);
    var walk := WalkOrder(visited);
    pkgs := {};
    assert walk[..0] == [];
    for i := 0 to |walk|
      invariant pkgs == PackagesIn(fs.entries, protoModule, Visited(walk[..i]))
    {
      var p := walk[i];
      assert p in visited;
      ghost var before := pkgs;
      if fs.entries[p].File? && HasSuffix(Name(p), OrBuilderSuffix) {
        OrBuilderBelowSrc(fs.entries, protoModule, p);
        var pkg := PathString(p[|srcDir|..|p| - 1]);
        if pkg != "" && pkg != "." {
          pkgs := pkgs + {pkg};
        }
      }
      PackagesStep(fs.entries, protoModule, walk, i, before, pkgs);
    }
    assert walk[..|walk|] == walk;
    WalkCoversKeys(fs.entries, protoModule, walk);
  }

  /** The paths of a walk. */
  ghost function Visited(walk: seq<Path>): set<Path> {
    set q | q in walk
  }

  lemma PackagesStep(m: map<Path, Node>, protoModule: Path, walk: seq<Path>, i: nat, before: set<string>, after: set<string>)
    requires i < |walk| && before == PackagesIn(m, protoModule, Visited(walk[..i]))
    requires after == if Contributes(m, protoModule, walk[i])
                      then before + {(OrBuilderBelowSrc(m, protoModule, walk[i]); PackageOf(protoModule, walk[i]))}
                      else before
    ensures after == PackagesIn(m, protoModule, Visited(walk[..i + 1]))
  {
    assert walk[..i + 1] == walk[..i] + [walk[i]];
    assert Visited(walk[..i + 1]) == Visited(walk[..i]) + {walk[i]};
    PackagesInAdd(m, protoModule, Visited(walk[..i]), walk[i]);
  }

  lemma PackagesInAdd(m: map<Path, Node>, protoModule: Path, ps: set<Path>, p: Path)
    ensures PackagesIn(m, protoModule, ps + {p})
         == PackagesIn(m, protoModule, ps)
            + if Contributes(m, protoModule, p) then {(OrBuilderBelowSrc(m, protoModule, p); PackageOf(protoModule, p))} else {}
  {
  }

  /** The walk visits every OrBuilder file of the tree. */
  lemma WalkCoversKeys(m: map<Path, Node>, protoModule: Path, walk: seq<Path>)
    requires SortedListing(walk, (set p | p in m && Under(SrcDir(protoModule), p)), PathLt)
    ensures PackagesIn(m, protoModule, Visited(walk)) == PackagesIn(m, protoModule, m.Keys)
  {
  }

  /** What findProtoPackages finds: nothing for a missing source directory, an error
      exactly when a file stands in the source directory's path, and otherwise each
      package of an OrBuilder file once, in ascending order, never "." or "". */
  lemma FindProtoPackagesMeaning(m: map<Path, Node>, protoModule: Path)
    ensures StatIn(m, SrcDir(protoModule)).NotExist? ==> FindProtoPackagesSpec(m, protoModule) == Ok([])
    ensures FindProtoPackagesSpec(m, protoModule).Err? <==> StatIn(m, SrcDir(protoModule)).NotADirectory?
    ensures StatIn(m, SrcDir(protoModule)).Found? ==>
      var r := FindProtoPackagesSpec(m, protoModule).value;
      Increasing(r, StrLt)
      && (forall x :: x in r <==> exists p | p in m && Contributes(m, protoModule, p) ::
            StrictlyUnder(SrcDir(protoModule), p) && x == PackageOf(protoModule, p))
      && (forall x | x in r :: x != "" && x != ".")
  {
    if StatIn(m, SrcDir(protoModule)).Found? {
      var pkgs := PackagesIn(m, protoModule, m.Keys);
      forall x | x in pkgs
        ensures exists p | p in m && Contributes(m, protoModule, p) ::
          StrictlyUnder(SrcDir(protoModule), p) && x == PackageOf(protoModule, p)
      {
        var p :| p in m && Contributes(m, protoModule, p) && x == PackageOf(protoModule, p);
      }
    }
  }

  /** The outcome of Generate: its error, if any, and the tree it leaves. The error of a
      failed create is the operating system's, of which only the start is known. */
  datatype Generated = Generated(err: Option<string>, entries: map<Path, Node>)

  function FindFailed(protoModule: Path, msg: string): string {
    "failed to find proto packages in " + PathString(protoModule) + ": " + msg
  }

  /** Generate, with the template's rendering of the package list as `render`. */
  ghost function GenerateSpec(m: map<Path, Node>, protoModule: Path, render: seq<string> -> string): Generated {
    var out := OutputPath(protoModule);
    if StatIn(m, out).Found? then Generated(None, m)
    else
      match FindProtoPackagesSpec(m, protoModule)
      case Err(e) => Generated(Some(FindFailed(protoModule, e)), m)
      case Ok(pkgs) =>
        if |pkgs| == 0 then Generated(None, m)
        else if !CanWrite(m, out) then Generated(Some("open " + PathString(out) + ": "), m)
        else Generated(None, m[out := File(render(pkgs))])
  }

  method Generate(fs: FileSystem, protoModule: Path, render: seq<string> -> string) returns (err: Status)
    requires fs.Valid()
    modifies fs
    ensures fs.Valid()
    ensures var g := GenerateSpec(old(fs.entries), protoModule, render);
      fs.entries == g.entries && (err.None? <==> g.err.None?)
      && (err.Some? ==> HasPrefix(err.value, g.err.value))
  {
    var out := OutputPath(protoModule);
    if fs.Stat(out).Found? {
      return None;
    }
    var found := FindProtoPackages(fs, protoModule);
    if found.Err? {
      err := Some(FindFailed(protoModule, found.msg));
      assert err.value[..|err.value|] == err.value;
      return;
    }
    if |found.value| == 0 {
      return None;
    }
    err := fs.WriteFile(out, render(found.value));
  }

  /** An existing clirr-ignored-differences.xml is never overwritten: Generate leaves
      the tree as it is and succeeds. */
  lemma GenerateKeepsExisting(m: map<Path, Node>, protoModule: Path, render: seq<string> -> string)
    requires OutputPath(protoModule) in m
    ensures GenerateSpec(m, protoModule, render) == Generated(None, m)
  {
  }

  /** A missing source directory, or one without OrBuilder files in a package, gives no
      file and no error. */
  lemma GenerateNothingToList(m: map<Path, Node>, protoModule: Path, render: seq<string> -> string)
    requires StatIn(m, SrcDir(protoModule)).NotExist?
          || (StatIn(m, SrcDir(protoModule)).Found? && forall p | p in m :: !Contributes(m, protoModule, p))
    ensures GenerateSpec(m, protoModule, render) == Generated(None, m)
  {
    FindProtoPackagesMeaning(m, protoModule);
  }

  /** Generate writes at most the output file, and only where none existed: it then
      holds the rendering of the packages findProtoPackages found. */
  lemma GenerateWrites(m: map<Path, Node>, protoModule: Path, render: seq<string> -> string)
    ensures var g := GenerateSpec(m, protoModule, render);
      var out := OutputPath(protoModule);
      (forall q | q in m && q != out :: q in g.entries && g.entries[q] == m[q])
      && (g.entries != m ==>
            out !in m && FindProtoPackagesSpec(m, protoModule).Ok?
            && g.entries == m[out := File(render(FindProtoPackagesSpec(m, protoModule).value))])
  {
  }

  /** The module of clirr_test.go: one TestOrBuilder.java in com/google/cloud/test/v1
      below the source directory yields exactly that package. */
  lemma SinglePackageExample(m: map<Path, Node>, protoModule: Path)
    requires StatIn(m, SrcDir(protoModule)).Found?
    requires IsOrBuilder(m, protoModule, TestFile(protoModule))
    requires forall p | p in m && IsOrBuilder(m, protoModule, p) :: p == TestFile(protoModule)
    ensures FindProtoPackagesSpec(m, protoModule) == Ok(["com/google/cloud/test/v1"])
  {
    var file := TestFile(protoModule);
    TestFilePackage(protoModule);
    var pkgs := PackagesIn(m, protoModule, m.Keys);
    assert Contributes(m, protoModule, file);
    assert pkgs == {"com/google/cloud/test/v1"};
    StrLtStrictTotal(pkgs);
    SortedListingUnique(SortedOf(pkgs, StrLt), ["com/google/cloud/test/v1"], pkgs, StrLt);
  }

  function TestFile(protoModule: Path): Path {
    SrcDir(protoModule) + ["com", "google", "cloud", "test", "v1", "TestOrBuilder.java"]
  }

  lemma TestFilePackage(protoModule: Path)
    ensures StrictlyUnder(SrcDir(protoModule), TestFile(protoModule))
    ensures PackageOf(protoModule, TestFile(protoModule)) == "com/google/cloud/test/v1"
  {
    var dirs := ["com", "google", "cloud", "test", "v1"];
    var file := TestFile(protoModule);
    assert file[|SrcDir(protoModule)|..|file| - 1] == dirs;
    TestPackageString();
  }

  lemma TestPackageString()
    ensures PathString(["com", "google", "cloud", "test", "v1"]) == "com/google/cloud/test/v1"
  {
    var dirs := ["com", "google", "cloud", "test", "v1"];
    assert Join(dirs[4..], "/") == "v1";
    assert Join(dirs[3..], "/") == "test" + "/" + "v1";
    assert Join(dirs[2..], "/") == "cloud" + "/" + ("test" + "/" + "v1");
    assert Join(dirs[1..], "/") == "google" + "/" + ("cloud" + "/" + ("test" + "/" + "v1"));
    assert Join(dirs, "/") == "com" + "/" + ("google" + "/" + ("cloud" + "/" + ("test" + "/" + "v1")));
  }
}
