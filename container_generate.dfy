/** The generate command of the Java language container
    (internal/container/java/generate/generator.go): every API of the request is run
    through protoc, its source jar is unzipped and the output is restructured into the
    Maven module layout, the intermediate `<out>/<version>` directory is always removed
    afterwards, and the pom files are generated once every API has succeeded. protoc,
    unzip and the module poms are external here; copyAndMerge, which moves the
    generated sources into their modules, is modelled on the file tree. */
module ContainerGenerate {
  import opened Strs
  import opened Sorting
  import opened Outcome
  import opened Fs
  import JavaNaming

  // ---------------------------------------------------------------------------
  // The layout of restructureOutput
  // ---------------------------------------------------------------------------

  /** The intermediate directory of one version: protoc writes below it. */
  function Intermediate(out: Path, version: string): Path {
    out + [version]
  }

  function GapicSrc(out: Path, version: string): Path {
    out + [version, "gapic", "src", "main", "java"]
  }

  function GapicTestSrc(out: Path, version: string): Path {
    out + [version, "gapic", "src", "test", "java"]
  }

  function ProtoSrc(out: Path, version: string): Path {
    out + [version, "proto"]
  }

  function GrpcSrc(out: Path, version: string): Path {
    out + [version, "grpc"]
  }

  function ResourceNameSrc(out: Path, version: string): Path {
    out + [version, "gapic", "proto", "src", "main", "java"]
  }

  function SamplesSrc(out: Path, version: string): Path {
    out + [version, "gapic", "samples", "snippets"]
  }

  /** The client module, named after the library ID as it is. */
  function GapicModule(id: string): string {
    "google-cloud-" + id
  }

  function ProtoModule(id: string, version: string): string {
    "proto-google-cloud-" + id + "-" + version
  }

  function GrpcModule(id: string, version: string): string {
    "grpc-google-cloud-" + id + "-" + version
  }

  function GapicDest(out: Path, id: string): Path {
    out + [GapicModule(id), "src", "main", "java"]
  }

  function GapicTestDest(out: Path, id: string): Path {
    out + [GapicModule(id), "src", "test", "java"]
  }

  /** The proto module's sources; the resource name classes are merged here as well. */
  function ProtoDest(out: Path, id: string, version: string): Path {
    out + [ProtoModule(id, version), "src", "main", "java"]
  }

  function GrpcDest(out: Path, id: string, version: string): Path {
    out + [GrpcModule(id, version), "src", "main", "java"]
  }

  function SamplesDest(out: Path): Path {
    out + ["samples", "snippets"]
  }

  /** The destinations restructureOutput creates, in the order it creates them. */
  function Destinations(out: Path, id: string, version: string): seq<Path> {
    [GapicDest(out, id), GapicTestDest(out, id), ProtoDest(out, id, version), SamplesDest(out), GrpcDest(out, id, version)]
  }

  /** The copyAndMerge calls of restructureOutput, in order: gapic sources, gapic tests,
      samples, and the resource names into the proto module. */
  function MergePairs(out: Path, id: string, version: string): seq<(Path, Path)> {
    [(GapicSrc(out, version), GapicDest(out, id)),
     (GapicTestSrc(out, version), GapicTestDest(out, id)),
     (SamplesSrc(out, version), SamplesDest(out)),
     (ResourceNameSrc(out, version), ProtoDest(out, id, version))]
  }

  /** A path `out + p` lies outside `out + [d]` when p's first component is not d. */
  lemma OutsideSibling(out: Path, p: Path, d: string)
    requires |p| > 0 && p[0] != d
    ensures Disjoint(out + p, out + [d])
  {
    assert (out + p)[|out|] == p[0];
    assert (out + [d])[|out|] == d;
  }

  /** Below `out + [v]` lies every `out + [v] + rest`. */
  lemma InsideVersion(out: Path, p: Path)
    requires |p| > 0
    ensures Under(out + [p[0]], out + p)
  {
    assert (out + p)[..|out| + 1] == out + [p[0]];
  }

  /** A version starts with "v"; no module directory does, so the cleanup of the
      intermediate directory never reaches a destination. */
  lemma DestinationsOutsideIntermediate(out: Path, id: string, version: string)
    requires HasPrefix(version, "v")
    ensures forall i | 0 <= i < 5 :: Disjoint(Destinations(out, id, version)[i], Intermediate(out, version))
  {
    assert version[0] == 'v';
    assert GapicModule(id)[0] == 'g' && ProtoModule(id, version)[0] == 'p' && GrpcModule(id, version)[0] == 'g';
    OutsideSibling(out, [GapicModule(id), "src", "main", "java"], version);
    OutsideSibling(out, [GapicModule(id), "src", "test", "java"], version);
    OutsideSibling(out, [ProtoModule(id, version), "src", "main", "java"], version);
    OutsideSibling(out, ["samples", "snippets"], version);
    OutsideSibling(out, [GrpcModule(id, version), "src", "main", "java"], version);
  }

  /** Every source of restructureOutput lies inside the intermediate directory. */
  lemma SourcesInsideIntermediate(out: Path, id: string, version: string)
    ensures forall i | 0 <= i < 4 :: Under(Intermediate(out, version), MergePairs(out, id, version)[i].0)
    ensures Under(Intermediate(out, version), ProtoSrc(out, version)) && Under(Intermediate(out, version), GrpcSrc(out, version))
  {
    InsideVersion(out, [version, "gapic", "src", "main", "java"]);
    InsideVersion(out, [version, "gapic", "src", "test", "java"]);
    InsideVersion(out, [version, "gapic", "samples", "snippets"]);
    InsideVersion(out, [version, "gapic", "proto", "src", "main", "java"]);
    InsideVersion(out, [version, "proto"]);
    InsideVersion(out, [version, "grpc"]);
  }

  /** Every copyAndMerge call of restructureOutput merges between disjoint trees. */
  lemma MergePairsDisjoint(out: Path, id: string, version: string)
    requires HasPrefix(version, "v")
    ensures forall i | 0 <= i < 4 :: Disjoint(MergePairs(out, id, version)[i].0, MergePairs(out, id, version)[i].1)
  {
    DestinationsOutsideIntermediate(out, id, version);
    SourcesInsideIntermediate(out, id, version);
    forall i | 0 <= i < 4
      ensures Disjoint(MergePairs(out, id, version)[i].0, MergePairs(out, id, version)[i].1)
    {
      var (s, d) := MergePairs(out, id, version)[i];
      assert d in Destinations(out, id, version);
      UnderDisjoint(Intermediate(out, version), s, d);
    }
  }

  /** Whatever lies under `a` is disjoint from a path disjoint from `a`. */
  lemma UnderDisjoint(a: Path, s: Path, d: Path)
    requires Under(a, s) && Disjoint(d, a)
    ensures Disjoint(s, d)
  {
    UnderTransitive(a, s, d);
    CommonPrefixesComparable(a, d, s);
  }

  lemma UnderTransitive(a: Path, b: Path, c: Path)
    ensures Under(a, b) && Under(b, c) ==> Under(a, c)
  {
    if Under(a, b) && Under(b, c) { assert c[..|b|][..|a|] == c[..|a|]; }
  }

  /** Two prefixes of the same path lie one under the other. */
  lemma CommonPrefixesComparable(a: Path, b: Path, c: Path)
    ensures Under(a, c) && Under(b, c) ==> Under(a, b) || Under(b, a)
  {
    if Under(a, c) && Under(b, c) {
      if |a| <= |b| { assert b[..|a|] == c[..|b|][..|a|]; } else { assert a[..|b|] == c[..|a|][..|b|]; }
    }
  }

  /** Each version of an API gets its own proto and grpc modules, and the two never
      coincide. */
  lemma VersionedModulesDistinct(id: string, v1: string, v2: string)
    requires v1 != v2
    ensures ProtoModule(id, v1) != ProtoModule(id, v2) && GrpcModule(id, v1) != GrpcModule(id, v2)
    ensures ProtoModule(id, v1) != GrpcModule(id, v2)
  {
    var p := "proto-google-cloud-" + id + "-";
    var g := "grpc-google-cloud-" + id + "-";
    assert ProtoModule(id, v1) == p + v1 && ProtoModule(id, v2) == p + v2;
    assert (p + v1)[|p|..] == v1 && (p + v2)[|p|..] == v2;
    assert GrpcModule(id, v1) == g + v1 && GrpcModule(id, v2) == g + v2;
    assert (g + v1)[|g|..] == v1 && (g + v2)[|g|..] == v2;
    assert ProtoModule(id, v1)[0] == 'p' && GrpcModule(id, v2)[0] == 'g';
  }

  /** The library ID is not checked for a "google-cloud-" prefix: such an ID gets the
      prefix twice. */
  lemma NoPrefixCheck(out: Path)
    ensures GapicDest(out, "google-cloud-speech")[|out|] == "google-cloud-google-cloud-speech"
  {
  }

  // ---------------------------------------------------------------------------
  // processAPI and Generate
  // ---------------------------------------------------------------------------

  /** The actions of the command, in the order they happen. */
  datatype Step =
    | InvokeProtoc(api: string, version: string)
    | Unzip(srcjar: Path, dest: Path)
    | Restructure(version: string)
    | Cleanup(dir: Path)
    | GeneratePoms

  /** The outcomes of the parts outside this model: invokeProtoc (the BUILD.bazel parse,
      the protoc command line, its output directories and the run) for an API path and
      version, the unzip of a source jar, restructureOutput for a version, and
      pom.Generate. */
  datatype Tools = Tools(protoc: (string, string) -> Status, unzip: Path -> Status,
                         restructure: string -> Status, poms: Status)

  /** The error a run ends with and the steps it took. */
  datatype Run = Run(err: Status, steps: seq<Step>)

  /** The source jar protoc leaves in the gapic directory of a version. */
  function Srcjar(out: Path, version: string): Path {
    out + [version, "gapic", "temp-codegen.srcjar"]
  }

  /** processAPI: an API path without a version segment is skipped; otherwise protoc,
      unzip and restructure run until one fails, with their errors wrapped, and the
      deferred cleanup of the intermediate directory runs last in every case. */
  function ProcessApi(tools: Tools, out: Path, api: string): Run {
    var v := JavaNaming.VersionOf(api);
    if v == "" then Run(None, [])
    else
      var cleanup := Cleanup(Intermediate(out, v));
      var e := tools.protoc(api, v);
      if e.Some? then Run(Some("librariangen: gapic generation failed: " + e.value), [InvokeProtoc(api, v), cleanup])
      else
        var jar := Srcjar(out, v);
        var u := tools.unzip(jar);
        var unzip := Unzip(jar, out + [v, "gapic"]);
        if u.Some? then
          Run(Some("librariangen: failed to unzip " + PathString(jar) + ": " + u.value), [InvokeProtoc(api, v), unzip, cleanup])
        else
          var r := tools.restructure(v);
          var steps := [InvokeProtoc(api, v), unzip, Restructure(v), cleanup];
          if r.Some? then Run(Some("librariangen: failed to restructure output: " + r.value), steps)
          else Run(None, steps)
  }

  /** The APIs processed in order, stopping at the first error. */
  function ApisRun(tools: Tools, out: Path, apis: seq<string>): Run {
    if |apis| == 0 then Run(None, [])
    else
      var r := ApisRun(tools, out, apis[..|apis| - 1]);
      if r.err.Some? then r
      else
        var x := ProcessApi(tools, out, apis[|apis| - 1]);
        Run(x.err, r.steps + x.steps)
  }

  function PomsFailed(id: string, msg: string): string {
    "librariangen: failed to generate poms for API " + id + ": " + msg
  }

  /** Generate: the APIs in order, then the poms of the library. */
  function GenerateRun(tools: Tools, out: Path, id: string, apis: seq<string>): Run {
    var r := ApisRun(tools, out, apis);
    if r.err.Some? then r
    else if tools.poms.Some? then Run(Some(PomsFailed(id, tools.poms.value)), r.steps + [GeneratePoms])
    else Run(None, r.steps + [GeneratePoms])
  }

  /** Generate, with its loop over the request's APIs. */
  method Generate(tools: Tools, out: Path, id: string, apis: seq<string>) returns (err: Status, steps: seq<Step>)
    ensures Run(err, steps) == GenerateRun(tools, out, id, apis)
  {
    steps := [];
    var i := 0;
    while i < |apis|
      invariant 0 <= i <= |apis|
      invariant ApisRun(tools, out, apis[..i]) == Run(None, steps)
    {
      assert apis[..i + 1][..i] == apis[..i];
      var r := ProcessApi(tools, out, apis[i]);
      steps := steps + r.steps;
      if r.err.Some? {
        ApisRunStops(tools, out, apis, i + 1);
        return r.err, steps;
      }
      i := i + 1;
    }
    assert apis[..|apis|] == apis;
    if tools.poms.Some? {
      return Some(PomsFailed(id, tools.poms.value)), steps + [GeneratePoms];
    }
    return None, steps + [GeneratePoms];
  }

  /** Once an API has failed, the APIs after it are not processed. */
  lemma {:induction false} ApisRunStops(tools: Tools, out: Path, apis: seq<string>, i: int)
    requires 0 <= i <= |apis| && ApisRun(tools, out, apis[..i]).err.Some?
    ensures ApisRun(tools, out, apis) == ApisRun(tools, out, apis[..i])
    decreases |apis| - i
  {
    if i == |apis| {
      assert apis[..i] == apis;
    } else {
      assert apis[..i + 1][..i] == apis[..i];
      ApisRunStops(tools, out, apis, i + 1);
    }
  }

  /** A processed API with a version starts with protoc and ends with the cleanup of its
      intermediate directory, which runs exactly once, whether the API succeeded or
      failed; an API without a version does nothing and is not an error. */
  lemma CleanupAlwaysLast(tools: Tools, out: Path, api: string)
    ensures var r := ProcessApi(tools, out, api);
      var v := JavaNaming.VersionOf(api);
      (v == "" ==> r == Run(None, []))
      && (v != "" ==> |r.steps| >= 2 && r.steps[0] == InvokeProtoc(api, v)
                      && r.steps[|r.steps| - 1] == Cleanup(Intermediate(out, v))
                      && forall j | 0 <= j < |r.steps| - 1 :: !r.steps[j].Cleanup?)
  {
  }

  /** The APIs succeed together exactly when each of them does. */
  lemma {:induction false} ApisRunOk(tools: Tools, out: Path, apis: seq<string>)
    ensures ApisRun(tools, out, apis).err.None? <==> forall i | 0 <= i < |apis| :: ProcessApi(tools, out, apis[i]).err.None?
    decreases |apis|
  {
    if |apis| > 0 {
      var init := apis[..|apis| - 1];
      ApisRunOk(tools, out, init);
      assert forall i | 0 <= i < |init| :: init[i] == apis[i];
    }
  }

  /** The poms are generated, as the last step, exactly when every API succeeded. */
  lemma PomsOnlyAfterAllApis(tools: Tools, out: Path, id: string, apis: seq<string>)
    ensures var r := GenerateRun(tools, out, id, apis);
      (GeneratePoms in r.steps <==> forall i | 0 <= i < |apis| :: ProcessApi(tools, out, apis[i]).err.None?)
      && (GeneratePoms in r.steps ==> r.steps[|r.steps| - 1] == GeneratePoms)
  {
    ApisRunOk(tools, out, apis);
    NoPomsInApis(tools, out, apis);
  }

  /** Processing APIs never generates poms. */
  lemma {:induction false} NoPomsInApis(tools: Tools, out: Path, apis: seq<string>)
    ensures GeneratePoms !in ApisRun(tools, out, apis).steps
    decreases |apis|
  {
    if |apis| > 0 {
      NoPomsInApis(tools, out, apis[..|apis| - 1]);
    }
  }

  /** The first API to fail decides the error of the command, and nothing of the APIs
      after it runs. */
  lemma FirstFailureStops(tools: Tools, out: Path, id: string, apis: seq<string>, i: int)
    requires 0 <= i < |apis| && ProcessApi(tools, out, apis[i]).err.Some?
    requires forall j | 0 <= j < i :: ProcessApi(tools, out, apis[j]).err.None?
    ensures GenerateRun(tools, out, id, apis).err == ProcessApi(tools, out, apis[i]).err
    ensures GenerateRun(tools, out, id, apis).steps
            == ApisRun(tools, out, apis[..i]).steps + ProcessApi(tools, out, apis[i]).steps
  {
    ApisRunOk(tools, out, apis[..i]);
    assert forall j | 0 <= j < i :: apis[..i][j] == apis[j];
    assert apis[..i + 1][..i] == apis[..i];
    ApisRunStops(tools, out, apis, i + 1);
  }

  // ---------------------------------------------------------------------------
  // copyAndMerge
  //
  // The recursion lists a directory, and for each entry in name order creates the
  // matching directory under the destination and recurses, or renames the file there.
  // Nothing it does changes the source tree except the removal of files already
  // visited, so it visits the entries below the source in the walk order: the model
  // is a loop over that listing.
  // ---------------------------------------------------------------------------

  /** The state after some steps of a merge: the entry whose step failed, if any, and
      the tree. */
  datatype Merge = Merge(failedAt: Option<Path>, entries: map<Path, Node>)

  /** The entries strictly below `src`, as the recursion reads them. */
  function Below(m: map<Path, Node>, src: Path): set<Path> {
    set p | p in m && StrictlyUnder(src, p)
  }

  /** One entry: a directory is created at the same place under `dest`, a file is
      renamed there. The kind is the one the listing saw in the original tree `m0`. */
  function MergeStep(m0: map<Path, Node>, m: map<Path, Node>, src: Path, dest: Path, p: Path): (r: Merge)
    requires p in m0 && Under(src, p)
  {
    var q := Rebase(p, src, dest);
    if m0[p].Dir? then
      if CanMkdirAll(m, q) then Merge(None, WithDirs(m, q)) else Merge(Some(p), m)
    else if CanRenameFile(m, p, q) then Merge(None, RenamedFile(m, p, q))
    else Merge(Some(p), m)
  }

  /** The steps over `ws` in order, stopping at the first failure. */
  function MergeSteps(m0: map<Path, Node>, src: Path, dest: Path, ws: seq<Path>): Merge
    requires forall k | 0 <= k < |ws| :: ws[k] in m0 && Under(src, ws[k])
  {
    if |ws| == 0 then Merge(None, m0)
    else
      var r := MergeSteps(m0, src, dest, ws[..|ws| - 1]);
      if r.failedAt.Some? then r else MergeStep(m0, r.entries, src, dest, ws[|ws| - 1])
  }

  /** copyAndMerge(src, dest): a missing source is nothing to do; a source that is not
      a directory cannot be listed; otherwise every entry below it is merged in walk
      order. */
  ghost function MergeSpec(m: map<Path, Node>, src: Path, dest: Path): Merge {
    match StatIn(m, src)
    case NotExist => Merge(None, m)
    case NotADirectory => Merge(Some(src), m)
    case Found(n) =>
      if n.File? then Merge(Some(src), m)
      else
        var ws := WalkListing(Below(m, src));
        assert forall k | 0 <= k < |ws| :: ws[k] in Below(m, src);
        MergeSteps(m, src, dest, ws)
  }

  /** The error of a file that could not be moved; `cause` is the error of os.Rename. */
  function MoveFailed(from: Path, to: Path, cause: string): string {
    "librariangen: failed to move " + PathString(from) + " to " + PathString(to) + ": " + cause
    + ", os.Rename error: " + cause
  }

  /** copyAndMerge. */
  method CopyAndMerge(fs: FileSystem, src: Path, dest: Path) returns (err: Status)
    requires fs.Valid()
    modifies fs
    ensures fs.Valid()
    ensures var r := MergeSpec(old(fs.entries), src, dest);
      (err.None? <==> r.failedAt.None?) && fs.entries == r.entries
    ensures StatIn(old(fs.entries), src).NotExist? ==> err.None? && fs.entries == old(fs.entries)
  {
    var st := fs.Stat(src);
    if st.NotExist? {
      return None;
    }
    if !st.Found? || st.node.File? {
      return Some("readdirent " + PathString(src) + ": not a directory");
    }
    var below := set p | p in fs.entries && StrictlyUnder(src, p);
    var dirs := set p | p in fs.entries && StrictlyUnder(src, p) && fs.entries[p].Dir?;
    var ws := WalkOrder(below);
    WalkOrderIsListing(ws, below);
    assert forall k | 0 <= k < |ws| :: ws[k] in below;
    err := MergeEntries(fs, src, dest, ws, dirs);
  }

  lemma MergeStepsSnoc(m0: map<Path, Node>, src: Path, dest: Path, ws: seq<Path>, i: int)
    requires forall k | 0 <= k < |ws| :: ws[k] in m0 && Under(src, ws[k])
    requires 0 <= i < |ws|
    ensures var r := MergeSteps(m0, src, dest, ws[..i]);
      MergeSteps(m0, src, dest, ws[..i + 1]) == if r.failedAt.Some? then r else MergeStep(m0, r.entries, src, dest, ws[i])
  {
    assert ws[..i + 1][..i] == ws[..i];
  }

  /** After a failure the remaining entries are not visited. */
  lemma {:induction false} FailureStops(m0: map<Path, Node>, src: Path, dest: Path, ws: seq<Path>, i: int)
    requires forall k | 0 <= k < |ws| :: ws[k] in m0 && Under(src, ws[k])
    requires 0 <= i <= |ws| && MergeSteps(m0, src, dest, ws[..i]).failedAt.Some?
    ensures MergeSteps(m0, src, dest, ws) == MergeSteps(m0, src, dest, ws[..i])
    decreases |ws| - i
  {
    if i == |ws| {
      assert ws[..i] == ws;
    } else {
      MergeStepsSnoc(m0, src, dest, ws, i);
      FailureStops(m0, src, dest, ws, i + 1);
    }
  }

  /** One step of the loop: `isDir` is what the listing saw. */
  method MergeEntry(fs: FileSystem, ghost m0: map<Path, Node>, src: Path, dest: Path, p: Path, isDir: bool)
    returns (err: Status)
    requires fs.Valid() && p in m0 && Under(src, p) && isDir == m0[p].Dir?
    modifies fs
    ensures fs.Valid()
    ensures var r := MergeStep(m0, old(fs.entries), src, dest, p);
      (err.None? <==> r.failedAt.None?) && fs.entries == r.entries
  {
    var q := Rebase(p, src, dest);
    if isDir {
      err := fs.MkdirAll(q);
    } else {
      err := MoveFile(fs, p, q);
    }
  }

  /** The rename of one file, with its error wrapped. */
  method MoveFile(fs: FileSystem, p: Path, q: Path) returns (err: Status)
    requires fs.Valid()
    modifies fs
    ensures fs.Valid()
    ensures err.None? <==> CanRenameFile(old(fs.entries), p, q)
    ensures fs.entries == if err.None? then RenamedFile(old(fs.entries), p, q) else old(fs.entries)
    ensures err.Some? ==> HasPrefix(err.value, "librariangen: failed to move " + PathString(p) + " to " + PathString(q) + ": ")
  {
    err := fs.RenameFile(p, q);
    if err.Some? {
      err := Some(MoveFailed(p, q, err.value));
    }
  }

  /** The loop of copyAndMerge over the listing `ws`; `dirs` are the directories the
      listing saw. */
  method MergeEntries(fs: FileSystem, src: Path, dest: Path, ws: seq<Path>, dirs: set<Path>) returns (err: Status)
    requires fs.Valid()
    requires forall k | 0 <= k < |ws| :: ws[k] in fs.entries && Under(src, ws[k])
    requires forall k | 0 <= k < |ws| :: ws[k] in dirs <==> fs.entries[ws[k]].Dir?
    modifies fs
    ensures fs.Valid()
    ensures var r := MergeSteps(old(fs.entries), src, dest, ws);
      (err.None? <==> r.failedAt.None?) && fs.entries == r.entries
  {
    ghost var m0 := fs.entries;
    var i := 0;
    while i < |ws|
      invariant 0 <= i <= |ws| && fs.Valid()
      invariant MergeSteps(m0, src, dest, ws[..i]) == Merge(None, fs.entries)
    {
      MergeStepsSnoc(m0, src, dest, ws, i);
      err := MergeEntry(fs, m0, src, dest, ws[i], ws[i] in dirs);
      if err.Some? {
        FailureStops(m0, src, dest, ws, i + 1);
        return;
      }
      i := i + 1;
    }
    assert ws[..|ws|] == ws;
    err := None;
  }

  // ---------------------------------------------------------------------------
  // What a successful merge leaves
  // ---------------------------------------------------------------------------

  lemma RebaseInjective(a: Path, b: Path, src: Path, dest: Path)
    requires Under(src, a) && Under(src, b)
    ensures Rebase(a, src, dest) == Rebase(b, src, dest) ==> a == b
  {
    if Rebase(a, src, dest) == Rebase(b, src, dest) {
      assert a[|src|..] == Rebase(a, src, dest)[|dest|..];
      assert b[|src|..] == Rebase(b, src, dest)[|dest|..];
      assert a == a[..|src|] + a[|src|..] && b == b[..|src|] + b[|src|..];
    }
  }

  /** A directory MkdirAll adds on the way to a path below `dest` is not below `src`. */
  lemma AddedOutsideSrc(src: Path, dest: Path, q: Path, t: Path)
    requires Disjoint(src, dest)
    ensures Under(q, t) && Under(dest, t) ==> !Under(src, q)
  {
    UnderTransitive(src, q, t);
    CommonPrefixesComparable(src, dest, t);
  }

  /** The effect of steps over the entries `ws` below `src`: each file has moved to its
      place under `dest`, each directory has a directory at its place under `dest`, and
      every other entry outside `dest` is as it was. */
  ghost predicate MovedAll(m0: map<Path, Node>, m: map<Path, Node>, src: Path, dest: Path, ws: seq<Path>)
    requires forall p | p in ws :: p in m0 && Under(src, p)
  {
    (forall p | p in ws && m0[p].File? :: p !in m && Rebase(p, src, dest) in m && m[Rebase(p, src, dest)] == m0[p])
    && (forall p | p in ws && m0[p].Dir? :: Rebase(p, src, dest) in m && m[Rebase(p, src, dest)].Dir?)
    && (forall q | q in m0 && !Under(dest, q) && !(q in ws && m0[q].File?) :: q in m && m[q] == m0[q])
  }

  /** A successful step on a directory keeps what earlier steps did. */
  lemma DirStepMoves(m0: map<Path, Node>, m: map<Path, Node>, src: Path, dest: Path, ws: seq<Path>, p: Path)
    requires Disjoint(src, dest)
    requires forall x | x in ws :: x in m0 && Under(src, x)
    requires p in m0 && Under(src, p) && p !in ws && m0[p].Dir?
    requires MovedAll(m0, m, src, dest, ws)
    requires MergeStep(m0, m, src, dest, p).failedAt.None?
    ensures MovedAll(m0, MergeStep(m0, m, src, dest, p).entries, src, dest, ws + [p])
  {
    var t := Rebase(p, src, dest);
    var m' := WithDirs(m, t);
    assert CanMkdirAll(m, t);
    WithDirsAddsPrefixes(m, t);
    assert t[..|t|] == t;
    forall x | x in ws && m0[x].File? ensures x !in m' {
      AddedOutsideSrc(src, dest, x, t);
    }
  }

  /** A successful step on a file keeps what earlier steps did. */
  lemma FileStepMoves(m0: map<Path, Node>, m: map<Path, Node>, src: Path, dest: Path, ws: seq<Path>, p: Path)
    requires Disjoint(src, dest)
    requires forall x | x in ws :: x in m0 && Under(src, x)
    requires p in m0 && Under(src, p) && p !in ws && m0[p].File?
    requires MovedAll(m0, m, src, dest, ws)
    requires MergeStep(m0, m, src, dest, p).failedAt.None?
    ensures MovedAll(m0, MergeStep(m0, m, src, dest, p).entries, src, dest, ws + [p])
  {
    var t := Rebase(p, src, dest);
    DisjointRebase(p, src, dest);
    assert m[p] == m0[p];
    forall x | x in ws ensures Rebase(x, src, dest) != t && Rebase(x, src, dest) != p && x != t {
      RebaseInjective(x, p, src, dest);
      DisjointRebase(x, src, dest);
    }
  }

  lemma LastSplit(ws: seq<Path>)
    requires |ws| > 0
    ensures ws[..|ws| - 1] + [ws[|ws| - 1]] == ws && ws[..|ws|] == ws
  {
  }

  /** A successful run of steps over distinct entries below `src` moves them all. */
  lemma {:induction false} MergeStepsMoves(m0: map<Path, Node>, src: Path, dest: Path, ws: seq<Path>)
    requires Disjoint(src, dest)
    requires forall k | 0 <= k < |ws| :: ws[k] in m0 && Under(src, ws[k])
    requires forall j, k | 0 <= j < k < |ws| :: ws[j] != ws[k]
    requires MergeSteps(m0, src, dest, ws).failedAt.None?
    ensures MovedAll(m0, MergeSteps(m0, src, dest, ws).entries, src, dest, ws)
    decreases |ws|
  {
    if |ws| > 0 {
      var n := |ws| - 1;
      var init := ws[..n];
      var p := ws[n];
      assert forall k | 0 <= k < n :: init[k] == ws[k];
      MergeStepsSnoc(m0, src, dest, ws, n);
      LastSplit(ws);
      var r := MergeSteps(m0, src, dest, init);
      assert r.failedAt.None?;
      MergeStepsMoves(m0, src, dest, init);
      if m0[p].Dir? {
        DirStepMoves(m0, r.entries, src, dest, init, p);
      } else {
        FileStepMoves(m0, r.entries, src, dest, init, p);
      }
    }
  }

  /** copyAndMerge of a directory that succeeds: every file below `src` has moved to the
      same place below `dest` with its content, every directory below `src` is still
      there and has its counterpart below `dest`, and everything else outside `dest` is
      as it was. */
  lemma CopyAndMergeMoves(m0: map<Path, Node>, src: Path, dest: Path)
    requires Disjoint(src, dest) && src in m0 && m0[src].Dir?
    requires MergeSpec(m0, src, dest).failedAt.None?
    ensures var m := MergeSpec(m0, src, dest).entries;
      (forall p | p in m0 && StrictlyUnder(src, p) && m0[p].File? ::
         p !in m && Rebase(p, src, dest) in m && m[Rebase(p, src, dest)] == m0[p])
      && (forall p | p in m0 && StrictlyUnder(src, p) && m0[p].Dir? ::
            p in m && Rebase(p, src, dest) in m && m[Rebase(p, src, dest)].Dir?)
      && (forall q | q in m0 && !Under(dest, q) && !(StrictlyUnder(src, q) && m0[q].File?) :: q in m && m[q] == m0[q])
  {
    var ws := WalkListing(Below(m0, src));
    assert forall k | 0 <= k < |ws| :: ws[k] in Below(m0, src);
    forall j, k | 0 <= j < k < |ws| ensures ws[j] != ws[k] {
      PathLtIrreflexive(ws[j]);
    }
    assert StatIn(m0, src) == Found(Dir);
    assert MergeSpec(m0, src, dest) == MergeSteps(m0, src, dest, ws);
    MergeStepsMoves(m0, src, dest, ws);
    var m := MergeSpec(m0, src, dest).entries;
    assert MovedAll(m0, m, src, dest, ws);
    forall p | p in m0 && StrictlyUnder(src, p) && m0[p].File?
      ensures p !in m && Rebase(p, src, dest) in m && m[Rebase(p, src, dest)] == m0[p]
    {
      assert p in ws;
    }
    forall p | p in m0 && StrictlyUnder(src, p) && m0[p].Dir?
      ensures p in m && Rebase(p, src, dest) in m && m[Rebase(p, src, dest)].Dir?
    {
      assert p in ws;
      assert !Under(dest, p) by { DisjointRebase(p, src, dest); }
    }
    forall q | q in m0 && !Under(dest, q) && !(StrictlyUnder(src, q) && m0[q].File?)
      ensures q in m && m[q] == m0[q]
    {
      assert !(q in ws && m0[q].File?);
    }
  }
}
