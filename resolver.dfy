/** The configuration resolver of internal/librarian/library.go: a library's empty
    fields are filled from the workspace defaults, the language-specific records are
    merged, and the output directory and API paths are derived.

    The Go functions fill a `*config.Library` in place and return it; here each takes the
    library as a value and returns the filled value. The loops of the Go functions are methods
    proved equal to the functions that specify them. */
module Resolver {
  import opened Strs
  import opened Outcome
  import opened Config
  import opened Derivation

  // ---------------------------------------------------------------------------
  // mergeMaps
  // ---------------------------------------------------------------------------

  /** mergeMaps(dst, src): a fresh map over both key sets in which dst's value wins. */
  function MergeMaps(dst: map<string, string>, src: map<string, string>): (r: map<string, string>)
    ensures r.Keys == dst.Keys + src.Keys
    ensures forall k | k in dst :: r[k] == dst[k]
    ensures forall k | k in src && k !in dst :: r[k] == src[k]
  {
    src + dst
  }

  // ---------------------------------------------------------------------------
  // mergeDartDependencies
  // ---------------------------------------------------------------------------

  /** The trimmed, non-empty elements of `parts`, in order. */
  function Trimmed(parts: seq<string>): seq<string> {
    if |parts| == 0 then []
    else
      var t := TrimSpace(parts[|parts| - 1]);
      if t == "" then Trimmed(parts[..|parts| - 1]) else Trimmed(parts[..|parts| - 1]) + [t]
  }

  /** The elements of a comma-separated dependency list. */
  function DepList(s: string): seq<string> {
    Trimmed(Split(s, ','))
  }

  /** The elements of `ds` that are not in `seen`, in order (duplicates kept). */
  function NotSeen(ds: seq<string>, seen: set<string>): seq<string> {
    if |ds| == 0 then []
    else if ds[|ds| - 1] in seen then NotSeen(ds[..|ds| - 1], seen)
    else NotSeen(ds[..|ds| - 1], seen) + [ds[|ds| - 1]]
  }

  function Elems(s: seq<string>): set<string> {
    set x | x in s
  }

  /** The merged Dart dependency list: the library's own dependencies, then each
      default dependency that the library does not list. */
  function MergedDartDeps(libDeps: string, defaultDeps: string): seq<string> {
    var lib := DepList(libDeps);
    lib + NotSeen(DepList(defaultDeps), Elems(lib))
  }

  lemma TrimmedSnoc(parts: seq<string>, i: nat)
    requires i < |parts|
    ensures Trimmed(parts[..i + 1])
            == if TrimSpace(parts[i]) == "" then Trimmed(parts[..i]) else Trimmed(parts[..i]) + [TrimSpace(parts[i])]
  {
    assert parts[..i + 1][..i] == parts[..i];
  }

  lemma NotSeenSnoc(ds: seq<string>, d: string, seen: set<string>)
    ensures NotSeen(ds + [d], seen) == if d in seen then NotSeen(ds, seen) else NotSeen(ds, seen) + [d]
  {
    assert (ds + [d])[..|ds|] == ds;
  }

  /** mergeDartDependencies: trims each element, drops empty ones, keeps the library's
      order, and adds a default only when the library does not already list it. */
  method MergeDartDependencies(libDeps: string, defaultDeps: string) returns (r: string)
    ensures r == Join(MergedDartDeps(libDeps, defaultDeps), ",")
  {
    var deps, seen := CollectDeps(libDeps);
    var added := UnseenDefaults(Split(defaultDeps, ','), seen);
    deps := deps + added;
    r := Join(deps, ",");
  }

  /** The first loop of mergeDartDependencies: the library's own dependencies. */
  method CollectDeps(libDeps: string) returns (deps: seq<string>, seen: set<string>)
    ensures deps == DepList(libDeps) && seen == Elems(deps)
  {
    seen := {};
    deps := [];
    var parts := Split(libDeps, ',');
    var i := 0;
    while i < |parts|
      invariant 0 <= i <= |parts|
      invariant deps == Trimmed(parts[..i])
      invariant forall x :: x in seen <==> x in deps
    {
      TrimmedSnoc(parts, i);
      var dep := TrimSpace(parts[i]);
      if dep != "" {
        seen := seen + {dep};
        deps := deps + [dep];
      }
      i := i + 1;
    }
    assert parts[..i] == parts;
  }

  /** The second loop of mergeDartDependencies: the defaults not seen in the library,
      which the caller appends to the library's list. */
  method UnseenDefaults(parts: seq<string>, seen: set<string>) returns (added: seq<string>)
    ensures added == NotSeen(Trimmed(parts), seen)
  {
    added := [];
    for i := 0 to |parts|
      invariant added == NotSeen(Trimmed(parts[..i]), seen)
    {
      ghost var before := added;
      var dep := TrimSpace(parts[i]);
      if dep != "" && dep !in seen {
        added := added + [dep];
      }
      AppendUnseenStep(parts, i, seen, before, added);
    }
    assert parts[..|parts|] == parts;
  }

  lemma AppendUnseenStep(parts: seq<string>, i: nat, seen: set<string>, before: seq<string>, after: seq<string>)
    requires i < |parts| && before == NotSeen(Trimmed(parts[..i]), seen)
    requires var dep := TrimSpace(parts[i]);
      after == if dep == "" || dep in seen then before else before + [dep]
    ensures after == NotSeen(Trimmed(parts[..i + 1]), seen)
  {
    TrimmedSnoc(parts, i);
    var dep := TrimSpace(parts[i]);
    if dep != "" {
      NotSeenSnoc(Trimmed(parts[..i]), dep, seen);
    }
  }

  lemma TrimSpaceIdempotent(s: string)
    ensures TrimSpace(TrimSpace(s)) == TrimSpace(s)
  {
    var t := TrimSpace(s);
    if t != "" {
      assert TrimLeft(t) == t;
      assert TrimRight(t) == t;
    }
  }

  /** Every element of a dependency list is trimmed and non-empty. */
  lemma {:induction false} TrimmedElements(parts: seq<string>)
    ensures forall x | x in Trimmed(parts) :: x != "" && TrimSpace(x) == x
  {
    if |parts| > 0 {
      var pre := parts[..|parts| - 1];
      var t := TrimSpace(parts[|parts| - 1]);
      TrimmedElements(pre);
      TrimSpaceIdempotent(parts[|parts| - 1]);
      assert Trimmed(parts) == if t == "" then Trimmed(pre) else Trimmed(pre) + [t];
    }
  }

  /** NotSeen keeps exactly the elements outside `seen`. */
  lemma {:induction false} NotSeenElements(ds: seq<string>, seen: set<string>)
    ensures forall x :: x in NotSeen(ds, seen) <==> x in ds && x !in seen
  {
    if |ds| > 0 {
      NotSeenElements(ds[..|ds| - 1], seen);
      assert ds == ds[..|ds| - 1] + [ds[|ds| - 1]];
    }
  }

  /** Defaults are not de-duplicated among themselves: a list none of whose elements the
      library lists is kept whole, repeated entries included. */
  lemma {:induction false} NotSeenKeepsNew(ds: seq<string>, seen: set<string>)
    requires forall i | 0 <= i < |ds| :: ds[i] !in seen
    ensures NotSeen(ds, seen) == ds
  {
    if |ds| > 0 {
      NotSeenKeepsNew(ds[..|ds| - 1], seen);
      assert ds == ds[..|ds| - 1] + [ds[|ds| - 1]];
    }
  }

  /** What the merge promises: every element is trimmed and non-empty, the library's
      dependencies come first in their own order, a default dependency is in the result
      exactly when it is listed, and what follows the library's part is defaults the
      library does not list. */
  lemma MergedDartDepsProperties(libDeps: string, defaultDeps: string)
    ensures var r := MergedDartDeps(libDeps, defaultDeps);
      (forall x | x in r :: x != "" && TrimSpace(x) == x)
      && |DepList(libDeps)| <= |r| && r[..|DepList(libDeps)|] == DepList(libDeps)
      && (forall x | x in DepList(defaultDeps) :: x in r)
      && (forall x | x in r[|DepList(libDeps)|..] :: x !in DepList(libDeps) && x in DepList(defaultDeps))
  {
    var lib := DepList(libDeps);
    var def := DepList(defaultDeps);
    var r := MergedDartDeps(libDeps, defaultDeps);
    TrimmedElements(Split(libDeps, ','));
    TrimmedElements(Split(defaultDeps, ','));
    NotSeenElements(def, Elems(lib));
    assert r[..|lib|] == lib;
    assert r[|lib|..] == NotSeen(def, Elems(lib));
    forall x | x in r ensures x != "" && TrimSpace(x) == x {
      if x !in lib { assert x in r[|lib|..]; }
    }
    forall x | x in def ensures x in r {
      if x in lib { assert x in r[..|lib|]; } else { assert x in r[|lib|..]; }
    }
  }

  // ---------------------------------------------------------------------------
  // mergePackageDependencies
  // ---------------------------------------------------------------------------

  function DepNames(deps: seq<RustPackageDependency>): set<string> {
    set d | d in deps :: d.name
  }

  /** The default dependencies whose name is not in `names`, in order. */
  function Unnamed(defaults: seq<RustPackageDependency>, names: set<string>): seq<RustPackageDependency> {
    if |defaults| == 0 then []
    else if defaults[|defaults| - 1].name in names then Unnamed(defaults[..|defaults| - 1], names)
    else Unnamed(defaults[..|defaults| - 1], names) + [defaults[|defaults| - 1]]
  }

  lemma UnnamedSnoc(defaults: seq<RustPackageDependency>, d: RustPackageDependency, names: set<string>)
    ensures Unnamed(defaults + [d], names) == if d.name in names then Unnamed(defaults, names) else Unnamed(defaults, names) + [d]
  {
    assert (defaults + [d])[..|defaults|] == defaults;
  }

  /** Unnamed keeps exactly the defaults whose name is outside `names`. */
  lemma {:induction false} UnnamedElements(defaults: seq<RustPackageDependency>, names: set<string>)
    ensures forall d :: d in Unnamed(defaults, names) <==> d in defaults && d.name !in names
  {
    if |defaults| > 0 {
      UnnamedElements(defaults[..|defaults| - 1], names);
      assert defaults == defaults[..|defaults| - 1] + [defaults[|defaults| - 1]];
    }
  }

  /** The merged list: the library's dependencies in order, then each default whose name
      the library does not use. */
  function MergedPackageDeps(defaults: seq<RustPackageDependency>, lib: seq<RustPackageDependency>): seq<RustPackageDependency> {
    lib + Unnamed(defaults, DepNames(lib))
  }

  /** mergePackageDependencies, with its two loops. */
  method MergePackageDependencies(defaults: seq<RustPackageDependency>, lib: seq<RustPackageDependency>)
    returns (r: seq<RustPackageDependency>)
    ensures r == MergedPackageDeps(defaults, lib)
  {
    var seen: set<string> := {};
    r := [];
    var i := 0;
    while i < |lib|
      invariant 0 <= i <= |lib|
      invariant r == lib[..i]
      invariant seen == DepNames(lib[..i])
    {
      assert lib[..i + 1] == lib[..i] + [lib[i]];
      seen := seen + {lib[i].name};
      r := r + [lib[i]];
      i := i + 1;
    }
    assert lib[..i] == lib;
    i := 0;
    while i < |defaults|
      invariant 0 <= i <= |defaults|
      invariant r == lib + Unnamed(defaults[..i], seen)
    {
      assert defaults[..i + 1] == defaults[..i] + [defaults[i]];
      UnnamedSnoc(defaults[..i], defaults[i], seen);
      if defaults[i].name !in seen {
        r := r + [defaults[i]];
      }
      i := i + 1;
    }
    assert defaults[..i] == defaults;
  }

  /** What the merge promises: the library's dependencies come first and unchanged, and a
      default is kept exactly when no library dependency has its name. */
  lemma MergedPackageDepsProperties(defaults: seq<RustPackageDependency>, lib: seq<RustPackageDependency>)
    ensures var r := MergedPackageDeps(defaults, lib);
      |lib| <= |r| && r[..|lib|] == lib
      && (forall d | d in r[|lib|..] :: d in defaults && d.name !in DepNames(lib))
      && (forall d | d in defaults :: d in r <==> d in lib || d.name !in DepNames(lib))
  {
    var r := MergedPackageDeps(defaults, lib);
    UnnamedElements(defaults, DepNames(lib));
    assert r[..|lib|] == lib;
    assert r[|lib|..] == Unnamed(defaults, DepNames(lib));
    forall d | d in defaults ensures d in r <==> d in lib || d.name !in DepNames(lib) {
      if d.name !in DepNames(lib) { assert d in r[|lib|..]; }
      if d in lib { assert d in r[..|lib|]; }
      if d in r && d !in lib {
        assert d in r[|lib|..] by {
          var k :| 0 <= k < |r| && r[k] == d;
          assert k >= |lib|;
          assert r[|lib|..][k - |lib|] == d;
        }
      }
    }
  }

  /** A library dependency shadows every default of the same name. */
  lemma LibraryDepShadowsDefault(defaults: seq<RustPackageDependency>, lib: seq<RustPackageDependency>, d: RustPackageDependency)
    requires d in defaults && d.name in DepNames(lib)
    ensures forall x | x in MergedPackageDeps(defaults, lib)[|lib|..] :: x.name != d.name
  {
    assert MergedPackageDeps(defaults, lib)[|lib|..] == Unnamed(defaults, DepNames(lib));
    UnnamedElements(defaults, DepNames(lib));
  }

  // ---------------------------------------------------------------------------
  // The per-language fills
  // ---------------------------------------------------------------------------

  function Pick(own: string, fallback: string): (r: string)
    ensures r == if own == "" then fallback else own
  {
    if own == "" then fallback else own
  }

  /** fillJava: each tool path is taken from the defaults only when empty. */
  function WithJavaDefaults(lib: Library, d: JavaDefault): (r: Library)
    ensures r.java.Some?
    ensures var own := if lib.java.Some? then lib.java.value else JavaPackage(JavaDefault("", "", ""), false);
      r.java.value.tools.formatterJar == Pick(own.tools.formatterJar, d.formatterJar)
      && r.java.value.tools.generatorJar == Pick(own.tools.generatorJar, d.generatorJar)
      && r.java.value.tools.grpcPlugin == Pick(own.tools.grpcPlugin, d.grpcPlugin)
      && r.java.value.skipFormat == own.skipFormat
    ensures r == lib.(java := r.java)
  {
    var own := if lib.java.Some? then lib.java.value else JavaPackage(JavaDefault("", "", ""), false);
    lib.(java := Some(own.(tools := JavaDefault(
      Pick(own.tools.formatterJar, d.formatterJar),
      Pick(own.tools.generatorJar, d.generatorJar),
      Pick(own.tools.grpcPlugin, d.grpcPlugin)))))
  }

  /** fillPython: the default common GAPIC paths come first, then the library's own. */
  function WithPythonDefaults(lib: Library, commonGapicPaths: seq<string>): (r: Library)
    ensures r.python.Some?
    ensures r.python.value.commonGapicPaths
            == commonGapicPaths + if lib.python.Some? then lib.python.value.commonGapicPaths else []
    ensures r == lib.(python := r.python)
  {
    var own := if lib.python.Some? then lib.python.value else PythonPackage([]);
    lib.(python := Some(own.(commonGapicPaths := commonGapicPaths + own.commonGapicPaths)))
  }

  /** fillDart: version, API-key variables and issue tracker are filled when empty; the
      three maps are merged with the library's entries winning; the dependency lists are
      merged. */
  function WithDartDefaults(lib: Library, d: DartPackage): (r: Library)
    ensures r.dart.Some?
    ensures var own := if lib.dart.Some? then lib.dart.value else EmptyDart();
      r.version == Pick(lib.version, d.version)
      && r.dart.value.apiKeysEnvironmentVariables == Pick(own.apiKeysEnvironmentVariables, d.apiKeysEnvironmentVariables)
      && r.dart.value.issueTrackerUrl == Pick(own.issueTrackerUrl, d.issueTrackerUrl)
      && r.dart.value.packages == MergeMaps(own.packages, d.packages)
      && r.dart.value.prefixes == MergeMaps(own.prefixes, d.prefixes)
      && r.dart.value.protos == MergeMaps(own.protos, d.protos)
      && r.dart.value.dependencies == Join(MergedDartDeps(own.dependencies, d.dependencies), ",")
      && r.dart.value.version == own.version
    ensures r == lib.(version := r.version, dart := r.dart)
  {
    var own := if lib.dart.Some? then lib.dart.value else EmptyDart();
    lib.(version := Pick(lib.version, d.version),
         dart := Some(own.(
           apiKeysEnvironmentVariables := Pick(own.apiKeysEnvironmentVariables, d.apiKeysEnvironmentVariables),
           issueTrackerUrl := Pick(own.issueTrackerUrl, d.issueTrackerUrl),
           packages := MergeMaps(own.packages, d.packages),
           prefixes := MergeMaps(own.prefixes, d.prefixes),
           protos := MergeMaps(own.protos, d.protos),
           dependencies := Join(MergedDartDeps(own.dependencies, d.dependencies), ","))))
  }

  function EmptyDart(): DartPackage {
    DartPackage("", "", "", map[], map[], map[], "")
  }

  function EmptyCrate(): RustCrate {
    RustCrate(RustDefault([], [], "", ""), [])
  }

  /** A module's empty sample settings inherit the crate's (already filled) settings. */
  function FilledModule(m: RustModule, setter: string, rpc: string): (r: RustModule)
    ensures r.generateSetterSamples == Pick(m.generateSetterSamples, setter)
    ensures r.generateRpcSamples == Pick(m.generateRpcSamples, rpc)
    ensures r.output == m.output
  {
    m.(generateSetterSamples := Pick(m.generateSetterSamples, setter),
       generateRpcSamples := Pick(m.generateRpcSamples, rpc))
  }

  /** fillRust: dependencies merged, warnings and sample settings filled when empty,
      then every module's empty sample settings filled from the crate. */
  function WithRustDefaults(lib: Library, d: RustDefault): (r: Library)
    ensures r.rust.Some?
    ensures var own := if lib.rust.Some? then lib.rust.value else EmptyCrate();
      var c := r.rust.value;
      c.defaults.packageDependencies == MergedPackageDeps(d.packageDependencies, own.defaults.packageDependencies)
      && c.defaults.disabledRustdocWarnings
         == (if |own.defaults.disabledRustdocWarnings| == 0 then d.disabledRustdocWarnings else own.defaults.disabledRustdocWarnings)
      && c.defaults.generateSetterSamples == Pick(own.defaults.generateSetterSamples, d.generateSetterSamples)
      && c.defaults.generateRpcSamples == Pick(own.defaults.generateRpcSamples, d.generateRpcSamples)
      && |c.modules| == |own.modules|
      && forall i | 0 <= i < |c.modules| ::
           c.modules[i] == FilledModule(own.modules[i], c.defaults.generateSetterSamples, c.defaults.generateRpcSamples)
    ensures r == lib.(rust := r.rust)
  {
    var own := if lib.rust.Some? then lib.rust.value else EmptyCrate();
    var setter := Pick(own.defaults.generateSetterSamples, d.generateSetterSamples);
    var rpc := Pick(own.defaults.generateRpcSamples, d.generateRpcSamples);
    var defaults := RustDefault(
      MergedPackageDeps(d.packageDependencies, own.defaults.packageDependencies),
      if |own.defaults.disabledRustdocWarnings| == 0 then d.disabledRustdocWarnings else own.defaults.disabledRustdocWarnings,
      setter, rpc);
    var mods := seq(|own.modules|, i requires 0 <= i < |own.modules| => FilledModule(own.modules[i], setter, rpc));
    lib.(rust := Some(RustCrate(defaults, mods)))
  }

  /** The loop over the crate's modules. */
  method FillModules(mods: seq<RustModule>, setter: string, rpc: string) returns (r: seq<RustModule>)
    ensures |r| == |mods|
    ensures forall i | 0 <= i < |mods| :: r[i] == FilledModule(mods[i], setter, rpc)
  {
    r := [];
    var i := 0;
    while i < |mods|
      invariant 0 <= i <= |mods|
      invariant |r| == i
      invariant forall k | 0 <= k < i :: r[k] == FilledModule(mods[k], setter, rpc)
    {
      r := r + [FilledModule(mods[i], setter, rpc)];
      i := i + 1;
    }
  }

  /** fillRust, with its loops. */
  method FillRust(lib: Library, d: RustDefault) returns (r: Library)
    ensures r == WithRustDefaults(lib, d)
  {
    var own := if lib.rust.Some? then lib.rust.value else EmptyCrate();
    var deps := MergePackageDependencies(d.packageDependencies, own.defaults.packageDependencies);
    var warnings := own.defaults.disabledRustdocWarnings;
    if |warnings| == 0 {
      warnings := d.disabledRustdocWarnings;
    }
    var setter := Pick(own.defaults.generateSetterSamples, d.generateSetterSamples);
    var rpc := Pick(own.defaults.generateRpcSamples, d.generateRpcSamples);
    var mods := FillModules(own.modules, setter, rpc);
    assert mods == seq(|own.modules|, i requires 0 <= i < |own.modules| => FilledModule(own.modules[i], setter, rpc));
    r := lib.(rust := Some(RustCrate(RustDefault(deps, warnings, setter, rpc), mods)));
  }

  /** fillDart, with the dependency merge's loops. */
  method FillDart(lib: Library, d: DartPackage) returns (r: Library)
    ensures r == WithDartDefaults(lib, d)
  {
    var own := if lib.dart.Some? then lib.dart.value else EmptyDart();
    var deps := MergeDartDependencies(own.dependencies, d.dependencies);
    r := lib.(version := Pick(lib.version, d.version),
              dart := Some(own.(
                apiKeysEnvironmentVariables := Pick(own.apiKeysEnvironmentVariables, d.apiKeysEnvironmentVariables),
                issueTrackerUrl := Pick(own.issueTrackerUrl, d.issueTrackerUrl),
                packages := MergeMaps(own.packages, d.packages),
                prefixes := MergeMaps(own.prefixes, d.prefixes),
                protos := MergeMaps(own.protos, d.protos),
                dependencies := deps)));
  }

  // ---------------------------------------------------------------------------
  // fillDefaults
  // ---------------------------------------------------------------------------

  /** The library after fillDefaults's common part: keep lists concatenated, and the
      output, release level and transport filled when empty. */
  function WithCommonDefaults(lib: Library, d: Default): Library {
    lib.(keep := lib.keep + d.keep,
         output := Pick(lib.output, d.output),
         releaseLevel := Pick(lib.releaseLevel, d.releaseLevel),
         transport := Pick(lib.transport, d.transport))
  }

  /** fillDefaults: nothing happens without defaults; otherwise the common fields are
      filled and exactly one language merge runs, the first of Rust, Dart, Python, Java
      whose default record is present. */
  function WithDefaults(lib: Library, d: Option<Default>): (r: Library)
    ensures d.None? ==> r == lib
    ensures d.Some? ==> r.keep == lib.keep + d.value.keep
                        && r.output == Pick(lib.output, d.value.output)
                        && r.releaseLevel == Pick(lib.releaseLevel, d.value.releaseLevel)
                        && r.transport == Pick(lib.transport, d.value.transport)
                        && r.name == lib.name && r.apis == lib.apis && r.veneer == lib.veneer
                        && r.skipGenerate == lib.skipGenerate
    ensures d.Some? && d.value.rust.Some? ==>
              r.rust.Some? && r.dart == lib.dart && r.python == lib.python && r.java == lib.java && r.version == lib.version
    ensures d.Some? && d.value.rust.None? && d.value.dart.Some? ==>
              r.dart.Some? && r.rust == lib.rust && r.python == lib.python && r.java == lib.java
    ensures d.Some? && d.value.rust.None? && d.value.dart.None? && d.value.python.Some? ==>
              r.python.Some? && r.rust == lib.rust && r.dart == lib.dart && r.java == lib.java && r.version == lib.version
    ensures d.Some? && d.value.rust.None? && d.value.dart.None? && d.value.python.None? ==>
              r.rust == lib.rust && r.dart == lib.dart && r.python == lib.python && r.version == lib.version
              && (d.value.java.Some? ==> r.java.Some?) && (d.value.java.None? ==> r.java == lib.java)
  {
    if d.None? then lib
    else
      var l := WithCommonDefaults(lib, d.value);
      if d.value.rust.Some? then WithRustDefaults(l, d.value.rust.value)
      else if d.value.dart.Some? then WithDartDefaults(l, d.value.dart.value)
      else if d.value.python.Some? then WithPythonDefaults(l, d.value.python.value)
      else if d.value.java.Some? then WithJavaDefaults(l, d.value.java.value)
      else l
  }

  /** fillDefaults, with the loops of the Rust and Dart merges. */
  method FillDefaults(lib: Library, d: Option<Default>) returns (r: Library)
    ensures r == WithDefaults(lib, d)
  {
    if d.None? {
      return lib;
    }
    var l := WithCommonDefaults(lib, d.value);
    if d.value.rust.Some? {
      r := FillRust(l, d.value.rust.value);
    } else if d.value.dart.Some? {
      r := FillDart(l, d.value.dart.value);
    } else if d.value.python.Some? {
      r := WithPythonDefaults(l, d.value.python.value);
    } else if d.value.java.Some? {
      r := WithJavaDefaults(l, d.value.java.value);
    } else {
      r := l;
    }
  }

  /** Filling twice from the same defaults changes nothing the second time in the
      fields that are filled only when empty. */
  lemma FillIfEmptyIdempotent(lib: Library, d: Default)
    ensures var once := WithDefaults(lib, Some(d));
      var twice := WithDefaults(once, Some(d));
      twice.output == once.output && twice.releaseLevel == once.releaseLevel && twice.transport == once.transport
  {
  }

  // ---------------------------------------------------------------------------
  // libraryOutput, applyDefaults, FindLibrary
  // ---------------------------------------------------------------------------

  /** The API path a library's output is derived from: its first API's path when set,
      otherwise the path derived from its name. */
  function PrimaryApiPath(h: LanguageHooks, language: string, lib: Library): string {
    if |lib.apis| > 0 && lib.apis[0].path != "" then lib.apis[0].path
    else DeriveApiPath(h, language, lib.name)
  }

  /** libraryOutput: the explicit output, "" for a veneer without one, otherwise the
      language's default output for the primary API path ("" defaults when there are
      no workspace defaults). */
  function LibraryOutput(h: LanguageHooks, language: string, lib: Library, d: Option<Default>): (o: string)
    ensures lib.output != "" ==> o == lib.output
    ensures lib.output == "" && lib.veneer ==> o == ""
    ensures lib.output == "" && !lib.veneer ==>
              o == DefaultOutput(h, language, lib.name, PrimaryApiPath(h, language, lib), if d.Some? then d.value.output else "")
  {
    if lib.output != "" then lib.output
    else if lib.veneer then ""
    else DefaultOutput(h, language, lib.name, PrimaryApiPath(h, language, lib), if d.Some? then d.value.output else "")
  }

  /** The API list after applyDefaults's first two steps: a placeholder API when there is
      none, then (for a non-veneer) every blank path replaced by the derived one. */
  function ApisWithPaths(h: LanguageHooks, language: string, lib: Library): (apis: seq<Api>)
    ensures |apis| == if |lib.apis| == 0 then 1 else |lib.apis|
    ensures forall i | 0 <= i < |apis| ::
              var own := if |lib.apis| == 0 then "" else lib.apis[i].path;
              apis[i].path == if own == "" && !lib.veneer then DeriveApiPath(h, language, lib.name) else own
  {
    var apis := if |lib.apis| == 0 then [Api("")] else lib.apis;
    if lib.veneer then apis
    else seq(|apis|, i requires 0 <= i < |apis| => Api(Pick(apis[i].path, DeriveApiPath(h, language, lib.name))))
  }

  /** The loop over the library's APIs. */
  method DeriveApiPaths(apis: seq<Api>, path: string) returns (r: seq<Api>)
    ensures |r| == |apis|
    ensures forall i | 0 <= i < |apis| :: r[i].path == Pick(apis[i].path, path)
  {
    r := [];
    var i := 0;
    while i < |apis|
      invariant 0 <= i <= |apis|
      invariant |r| == i
      invariant forall k | 0 <= k < i :: r[k].path == Pick(apis[k].path, path)
    {
      r := r + [Api(Pick(apis[i].path, path))];
      i := i + 1;
    }
  }

  /** fillLibraryDefaults: the Go package adds its own defaults; other languages keep
      the library as it is. */
  function WithLanguageDefaults(h: LanguageHooks, language: string, lib: Library): Library {
    if language == Go then h.goFill(lib) else lib
  }

  const NilDereference := "panic: runtime error: invalid memory address or nil pointer dereference"

  /** applyDefaults as the Go code runs it: the default output is read from the
      defaults record even when there are no defaults, which panics (the panic is the
      error NilDereference here). */
  function ApplyDefaultsAsWritten(h: LanguageHooks, language: string, lib: Library, d: Option<Default>): (r: Result<Library>)
    ensures r.Err? <==> lib.output == "" && (lib.veneer || d.None?)
    ensures r.Err? && lib.veneer ==> r.msg == "veneer " + Quote(lib.name) + " requires an explicit output path"
    ensures r.Err? && !lib.veneer ==> r.msg == NilDereference
  {
    var l := lib.(apis := ApisWithPaths(h, language, lib));
    if l.output == "" && l.veneer then Err("veneer " + Quote(l.name) + " requires an explicit output path")
    else if l.output == "" && d.None? then Err(NilDereference)
    else
      var l' := if l.output == "" then l.(output := DefaultOutput(h, language, l.name, l.apis[0].path, d.value.output)) else l;
      Ok(WithLanguageDefaults(h, language, WithDefaults(l', d)))
  }

  /** applyDefaults as evidently intended: without workspace defaults the default output
      directory is "", as in libraryOutput. */
  function Resolved(h: LanguageHooks, language: string, lib: Library, d: Option<Default>): (r: Result<Library>)
    ensures r.Err? <==> lib.output == "" && lib.veneer
    ensures r.Err? ==> r.msg == "veneer " + Quote(lib.name) + " requires an explicit output path"
  {
    var l := lib.(apis := ApisWithPaths(h, language, lib));
    if l.output == "" && l.veneer then Err("veneer " + Quote(l.name) + " requires an explicit output path")
    else
      var defaultOut := if d.Some? then d.value.output else "";
      var l' := if l.output == "" then l.(output := DefaultOutput(h, language, l.name, l.apis[0].path, defaultOut)) else l;
      Ok(WithLanguageDefaults(h, language, WithDefaults(l', d)))
  }

  /** applyDefaults, with its loop over the APIs. */
  method ApplyDefaults(h: LanguageHooks, language: string, lib: Library, d: Option<Default>) returns (r: Result<Library>)
    ensures r == ApplyDefaultsAsWritten(h, language, lib, d)
  {
    var l := lib;
    if |l.apis| == 0 {
      l := l.(apis := [Api("")]);
    }
    if !l.veneer {
      var apis := DeriveApiPaths(l.apis, DeriveApiPath(h, language, l.name));
      l := l.(apis := apis);
    }
    assert l.apis == ApisWithPaths(h, language, lib);
    if l.output == "" {
      if l.veneer {
        return Err("veneer " + Quote(l.name) + " requires an explicit output path");
      }
      if d.None? {
        return Err(NilDereference);
      }
      l := l.(output := DefaultOutput(h, language, l.name, l.apis[0].path, d.value.output));
    }
    var filled := FillDefaults(l, d);
    r := Ok(WithLanguageDefaults(h, language, filled));
  }

  /** applyDefaults panics on a library without an output directory when the workspace
      has no defaults, although libraryOutput handles that case. */
  lemma NilDefaultsPanicAsWritten(h: LanguageHooks, language: string, lib: Library)
    requires lib.output == "" && !lib.veneer
    ensures ApplyDefaultsAsWritten(h, language, lib, None) == Err(NilDereference)
    ensures Resolved(h, language, lib, None).Ok?
  {
  }

  /** With defaults present the intended and the written behaviour agree. */
  lemma AsWrittenAgreesWithDefaults(h: LanguageHooks, language: string, lib: Library, d: Default)
    ensures ApplyDefaultsAsWritten(h, language, lib, Some(d)) == Resolved(h, language, lib, Some(d))
  {
  }

  /** The resolved output directory is the one libraryOutput reports for the library as
      configured, falling back to the workspace default when the language's rule yields
      nothing (the Go package's own fill aside). */
  lemma ResolvedOutputIsLibraryOutput(h: LanguageHooks, language: string, lib: Library, d: Option<Default>)
    requires language != Go
    requires ApplyDefaultsAsWritten(h, language, lib, d).Ok?
    ensures ApplyDefaultsAsWritten(h, language, lib, d).value.output
            == Pick(LibraryOutput(h, language, lib, d), if d.Some? then d.value.output else "")
  {
    if lib.output == "" {
      var apis := ApisWithPaths(h, language, lib);
      assert apis[0].path == PrimaryApiPath(h, language, lib);
    }
  }

  /** Every API of a resolved non-veneer library has a path. */
  lemma ResolvedApisHavePaths(h: LanguageHooks, language: string, lib: Library, d: Option<Default>)
    requires !lib.veneer && DeriveApiPath(h, language, lib.name) != ""
    requires language != Go
    requires ApplyDefaultsAsWritten(h, language, lib, d).Ok?
    ensures var r := ApplyDefaultsAsWritten(h, language, lib, d).value;
      |r.apis| >= 1 && forall i | 0 <= i < |r.apis| :: r.apis[i].path != ""
  {
  }

  /** FindLibrary: the first library of the given name, or "library not found". */
  function FindLibrary(libraries: seq<Library>, name: string): (r: Result<Library>)
    ensures r.Ok? <==> exists i | 0 <= i < |libraries| :: libraries[i].name == name
    ensures r.Ok? ==> r.value.name == name
                      && exists i | 0 <= i < |libraries| :: libraries[i] == r.value
                                                             && forall j | 0 <= j < i :: libraries[j].name != name
    ensures r.Err? ==> r.msg == "library not found: " + Quote(name)
  {
    if |libraries| == 0 then Err("library not found: " + Quote(name))
    else if libraries[0].name == name then Ok(libraries[0])
    else
      var r := FindLibrary(libraries[1..], name);
      FindLibraryStep(libraries, name, r);
      r
  }

  lemma FindLibraryStep(libraries: seq<Library>, name: string, r: Result<Library>)
    requires |libraries| > 0 && libraries[0].name != name
    requires r.Ok? <==> exists i | 0 <= i < |libraries[1..]| :: libraries[1..][i].name == name
    requires r.Ok? ==> exists i | 0 <= i < |libraries[1..]| :: libraries[1..][i] == r.value
                                   && forall j | 0 <= j < i :: libraries[1..][j].name != name
    ensures r.Ok? <==> exists i | 0 <= i < |libraries| :: libraries[i].name == name
    ensures r.Ok? ==> exists i | 0 <= i < |libraries| :: libraries[i] == r.value
                                 && forall j | 0 <= j < i :: libraries[j].name != name
  {
    if r.Ok? {
      var i :| 0 <= i < |libraries[1..]| && libraries[1..][i] == r.value
               && forall j | 0 <= j < i :: libraries[1..][j].name != name;
      assert libraries[i + 1] == r.value;
      assert forall j | 0 <= j < i + 1 :: libraries[j].name != name by {
        forall j | 0 <= j < i + 1 ensures libraries[j].name != name {
          if j > 0 { assert libraries[j] == libraries[1..][j - 1]; }
        }
      }
    } else {
      forall i | 0 <= i < |libraries| ensures libraries[i].name != name {
        if i > 0 { assert libraries[i] == libraries[1..][i - 1]; }
      }
    }
  }
}
