/** The Java-specific rules of internal/librarian/java/generate.go that decide names and
    command lines: the API version taken from an API path, the Maven module names, the
    protoc options, the per-library generation loop, and when and what the formatter
    runs on. The external programs (protoc, the formatter) are parameters. */
module JavaNaming {
  import opened Strs
  import opened Sorting
  import opened Outcome
  import opened Config
  import opened Fs

  // ---------------------------------------------------------------------------
  // extractVersion
  // ---------------------------------------------------------------------------

  /** The last segment that starts with "v", or "" when there is none. */
  function VersionIn(parts: seq<string>): (v: string)
    decreases |parts|
  {
    if |parts| == 0 then ""
    else if HasPrefix(parts[|parts| - 1], "v") then parts[|parts| - 1]
    else VersionIn(parts[..|parts| - 1])
  }

  /** Segment i starts with "v" and no later segment does. */
  predicate LastVersionAt(parts: seq<string>, i: nat)
    requires i < |parts|
  {
    HasPrefix(parts[i], "v") && forall j | i < j < |parts| :: !HasPrefix(parts[j], "v")
  }

  /** The version is empty exactly when no segment starts with "v"; otherwise it is the
      last segment that does. */
  lemma {:induction false} VersionInMeaning(parts: seq<string>)
    ensures VersionIn(parts) == "" <==> forall i | 0 <= i < |parts| :: !HasPrefix(parts[i], "v")
    ensures VersionIn(parts) != "" ==> exists i | 0 <= i < |parts| :: parts[i] == VersionIn(parts) && LastVersionAt(parts, i)
    decreases |parts|
  {
    if |parts| > 0 {
      var last := |parts| - 1;
      if HasPrefix(parts[last], "v") {
        assert LastVersionAt(parts, last);
      } else {
        var init := parts[..last];
        VersionInMeaning(init);
        assert forall i | 0 <= i < last :: init[i] == parts[i];
        if VersionIn(parts) != "" {
          var i :| 0 <= i < |init| && init[i] == VersionIn(init) && LastVersionAt(init, i);
          assert LastVersionAt(parts, i);
        }
      }
    }
  }

  /** The version segment of an API path ("google/cloud/secretmanager/v1" gives "v1"). */
  function VersionOf(path: string): string {
    VersionIn(Split(path, '/'))
  }

  /** extractVersion, with its loop from the last segment down. */
  method ExtractVersion(path: string) returns (v: string)
    ensures v == VersionOf(path)
  {
    var parts := Split(path, '/');
    v := LastVersionSegment(parts);
  }

  method LastVersionSegment(parts: seq<string>) returns (v: string)
    ensures v == VersionIn(parts)
  {
    var i := |parts| - 1;
    assert parts[..i + 1] == parts;
    while i >= 0
      invariant -1 <= i < |parts|
      invariant VersionIn(parts) == VersionIn(parts[..i + 1])
    {
      if HasPrefix(parts[i], "v") {
        return parts[i];
      }
      assert parts[..i + 1][..i] == parts[..i];
      i := i - 1;
    }
    v := "";
  }

  // ---------------------------------------------------------------------------
  // Module naming
  // ---------------------------------------------------------------------------

  const CloudPrefix := "google-cloud-"

  /** The library name with "google-cloud-" in front unless it is already there. */
  function ModuleName(name: string): (r: string)
    ensures HasPrefix(r, CloudPrefix)
    ensures HasPrefix(name, CloudPrefix) ==> r == name
    ensures !HasPrefix(name, CloudPrefix) ==> r == CloudPrefix + name
  {
    if HasPrefix(name, CloudPrefix) then name else CloudPrefix + name
  }

  /** Prefixing is idempotent: a prefixed name is never prefixed again. */
  lemma ModuleNameIdempotent(name: string)
    ensures ModuleName(ModuleName(name)) == ModuleName(name)
  {
  }

  function ProtoModule(name: string, version: string): string {
    "proto-" + ModuleName(name) + "-" + version
  }

  function GrpcModule(name: string, version: string): string {
    "grpc-" + ModuleName(name) + "-" + version
  }

  /** The proto and gRPC module names of one library and version are distinct and both
      end in "-<version>". */
  lemma ModuleNamesDistinct(name: string, version: string)
    ensures ProtoModule(name, version) != GrpcModule(name, version)
    ensures HasSuffix(ProtoModule(name, version), "-" + version)
    ensures HasSuffix(GrpcModule(name, version), "-" + version)
  {
    assert ProtoModule(name, version)[0] == 'p';
    assert GrpcModule(name, version)[0] == 'g';
  }

  // ---------------------------------------------------------------------------
  // createProtocOptions
  // ---------------------------------------------------------------------------

  /** The transport protoc is run with: the library's, or "grpc+rest" when empty. */
  function EffectiveTransport(lib: Library): (t: string)
    ensures t != ""
    ensures lib.transport != "" ==> t == lib.transport
  {
    if lib.transport == "" then "grpc+rest" else lib.transport
  }

  /** filepath.Join(dir, rel) for a clean directory and a clean relative path. */
  function JoinDir(dir: string, rel: string): string {
    dir + "/" + rel
  }

  /** The options passed to the GAPIC generator, in order. `serviceConfig` and
      `grpcConfig` are the paths found in googleapis ("" when there is none). */
  function GapicOptions(googleapisDir: string, serviceConfig: string, grpcConfig: string, transport: string): (opts: seq<string>)
    ensures 3 <= |opts| <= 5 && opts[0] == "metadata"
    ensures opts[|opts| - 2] == "transport=" + transport && opts[|opts| - 1] == "rest-numeric-enums"
    ensures (serviceConfig != "") <==> "api-service-config=" + JoinDir(googleapisDir, serviceConfig) in opts
    ensures (grpcConfig != "") <==> "grpc-service-config=" + JoinDir(googleapisDir, grpcConfig) in opts
    ensures |opts| == 3 + (if serviceConfig != "" then 1 else 0) + (if grpcConfig != "" then 1 else 0)
  {
    var api := "api-service-config=" + JoinDir(googleapisDir, serviceConfig);
    var grpc := "grpc-service-config=" + JoinDir(googleapisDir, grpcConfig);
    var opts := ["metadata"] + (if serviceConfig != "" then [api] else []) + (if grpcConfig != "" then [grpc] else [])
                + ["transport=" + transport, "rest-numeric-enums"];
    assert api[0] == 'a' && grpc[0] == 'g' && ("transport=" + transport)[0] == 't';
    opts
  }

  /** createProtocOptions. The two service-config lookups in googleapis are inputs:
      `serviceConfig` is the result of serviceconfig.Find (Ok("") when nothing is
      found), `grpcConfig` that of FindGRPCServiceConfig. A lookup error is returned
      unchanged, the first one first. */
  function ProtocOptions(lib: Library, googleapisDir: string, protoDir: string, grpcDir: string, gapicDir: string,
                         serviceConfig: Result<string>, grpcConfig: Result<string>): (r: Result<seq<string>>)
    ensures serviceConfig.Err? ==> r == Err(serviceConfig.msg)
    ensures serviceConfig.Ok? && grpcConfig.Err? ==> r == Err(grpcConfig.msg)
    ensures serviceConfig.Ok? && grpcConfig.Ok? ==>
      r.Ok? && var args := r.value;
      var t := EffectiveTransport(lib);
      |args| == (if t == "rest" then 3 else 4)
      && args[0] == JavaOut + protoDir
      && ((GrpcOut + grpcDir in args) <==> t != "rest")
      && args[|args| - 2] == GapicOut + gapicDir
      && args[|args| - 1] == GapicOpt + Join(GapicOptions(googleapisDir, serviceConfig.value, grpcConfig.value, t), ",")
  {
    if serviceConfig.Err? then Err(serviceConfig.msg)
    else if grpcConfig.Err? then Err(grpcConfig.msg)
    else
      var t := EffectiveTransport(lib);
      var grpc := if t != "rest" then [GrpcOut + grpcDir] else [];
      var opt := Join(GapicOptions(googleapisDir, serviceConfig.value, grpcConfig.value, t), ",");
      var args := [JavaOut + protoDir] + grpc + [GapicOut + gapicDir, GapicOpt + opt];
      GrpcFlagDistinct(protoDir, grpcDir, gapicDir, opt);
      Ok(args)
  }

  /** The protoc flags. */
  const JavaOut := "--java_out="
  const GrpcOut := "--java_grpc_out="
  const GapicOut := "--java_gapic_out=metadata:"
  const GapicOpt := "--java_gapic_opt="

  /** The gRPC flag differs from every other flag, whatever the directories. */
  lemma GrpcFlagDistinct(protoDir: string, grpcDir: string, gapicDir: string, opt: string)
    ensures GrpcOut + grpcDir !in [JavaOut + protoDir, GapicOut + gapicDir, GapicOpt + opt]
  {
    assert (GrpcOut + grpcDir)[8] == 'r';
    assert (JavaOut + protoDir)[8] == 'u';
    assert (GapicOut + gapicDir)[8] == 'a' && (GapicOpt + opt)[8] == 'a';
  }

  // ---------------------------------------------------------------------------
  // generate
  // ---------------------------------------------------------------------------

  /** The error of an API path without a version segment. */
  function NoVersion(path: string): string {
    "failed to extract version from api path " + Quote(path)
  }

  /** The error of generate for an API whose generation failed with `msg`. */
  function ApiFailed(path: string, msg: string): string {
    "failed to generate api " + Quote(path) + ": " + msg
  }

  /** What generate asks of its surroundings besides the file tree. `serviceConfig` and
      `grpcConfig` are serviceconfig.Find and FindGRPCServiceConfig for an API path
      (Ok("") when nothing is found); `protos` is the glob of a directory's .proto files;
      `protoc(path, version, command)` runs the command line, then unzips and
      restructures the output of that API: it gives the error of those steps and the
      files they write, in the order they write them. */
  datatype ApiEnv = ApiEnv(
    serviceConfig: string -> Result<string>,
    grpcConfig: string -> Result<string>,
    protos: string -> Result<seq<string>>,
    protoc: (string, string, seq<string>) -> (Status, seq<(Path, string)>))

  /** The directory <outdir>/<version>/<kind> protoc writes one kind of output to. */
  function VersionDir(outdir: string, version: string, kind: string): string {
    JoinDir(JoinDir(outdir, version), kind)
  }

  /** <outdir>/<version> in the tree. A version is one segment of an API path starting
      with "v", so it is a single path component. */
  function VersionRoot(outdir: string, version: string): Path {
    ToPath(outdir) + [version]
  }

  /** The gapic, grpc and proto directories of a version, in the order they are created. */
  function VersionPaths(outdir: string, version: string): seq<Path> {
    [VersionRoot(outdir, version) + ["gapic"], VersionRoot(outdir, version) + ["grpc"],
     VersionRoot(outdir, version) + ["proto"]]
  }

  /** os.MkdirAll of each directory in turn, up to the first that fails. */
  function MkdirAllEach(m: map<Path, Node>, dirs: seq<Path>): (Status, map<Path, Node>)
    decreases |dirs|
  {
    if |dirs| == 0 then (None, m)
    else if !CanMkdirAll(m, dirs[0]) then (Some(MkdirAllError(dirs[0])), m)
    else MkdirAllEach(WithDirs(m, dirs[0]), dirs[1..])
  }

  /** Creating directories keeps the tree a tree and every directory a directory. */
  lemma {:induction false} MkdirAllEachKeeps(m: map<Path, Node>, dirs: seq<Path>, q: Path)
    requires TreeShaped(m)
    ensures var r := MkdirAllEach(m, dirs);
      TreeShaped(r.1) && (IsDirIn(m, q) ==> IsDirIn(r.1, q))
    decreases |dirs|
  {
    if |dirs| > 0 && CanMkdirAll(m, dirs[0]) {
      WithDirsTree(m, dirs[0]);
      WithDirsKeeps(m, dirs[0], q);
      MkdirAllEachKeeps(WithDirs(m, dirs[0]), dirs[1..], q);
    }
  }

  /** When every creation succeeds each of the directories is a directory afterwards;
      otherwise the error is the MkdirAll error of one of them. */
  lemma {:induction false} MkdirAllEachMeaning(m: map<Path, Node>, dirs: seq<Path>)
    requires TreeShaped(m)
    ensures var r := MkdirAllEach(m, dirs);
      && (r.0.None? ==> forall i | 0 <= i < |dirs| :: IsDirIn(r.1, dirs[i]))
      && (r.0.Some? ==> exists i | 0 <= i < |dirs| :: r.0.value == MkdirAllError(dirs[i]))
    decreases |dirs|
  {
    if |dirs| > 0 && CanMkdirAll(m, dirs[0]) {
      var m1 := WithDirs(m, dirs[0]);
      WithDirsTree(m, dirs[0]);
      MkdirAllEachKeeps(m1, dirs[1..], dirs[0]);
      MkdirAllEachMeaning(m1, dirs[1..]);
      var r := MkdirAllEach(m1, dirs[1..]);
      assert MkdirAllEach(m, dirs) == r;
      if r.0.Some? {
        var j :| 0 <= j < |dirs| - 1 && r.0.value == MkdirAllError(dirs[1..][j]);
        assert dirs[1..][j] == dirs[j + 1];
      } else {
        forall i | 0 <= i < |dirs| ensures IsDirIn(r.1, dirs[i]) {
          if i > 0 { assert dirs[1..][i - 1] == dirs[i]; }
        }
      }
    }
  }

  /** The proto every API is compiled with. */
  const CommonResources := "google/cloud/common_resources.proto"

  /** The protoc command line: the fixed flags, the API's protos and the common
      resources, then the options. */
  function ProtocCommand(googleapisDir: string, protos: seq<string>, options: seq<string>): (cmd: seq<string>)
    ensures |cmd| == 4 + |protos| + |options|
    ensures cmd[..3] == ["protoc", "--experimental_allow_proto3_optional", "-I=" + googleapisDir]
    ensures cmd[3..3 + |protos|] == protos && cmd[3 + |protos|] == JoinDir(googleapisDir, CommonResources)
    ensures cmd[4 + |protos|..] == options
  {
    ["protoc", "--experimental_allow_proto3_optional", "-I=" + googleapisDir]
    + protos + [JoinDir(googleapisDir, CommonResources)] + options
  }

  /** The steps of generateAPI after the output directories exist: the protoc options
      are computed, the API's protos found and protoc run. The error of the first step
      that fails, and the files protoc's run writes (none when it does not run). */
  function RunProtoc(env: ApiEnv, lib: Library, api: Api, googleapisDir: string, outdir: string,
                     version: string): (Status, seq<(Path, string)>) {
    match ProtocOptions(lib, googleapisDir, VersionDir(outdir, version, "proto"), VersionDir(outdir, version, "grpc"),
                        VersionDir(outdir, version, "gapic"), env.serviceConfig(api.path), env.grpcConfig(api.path))
    case Err(e) => (Some(e), [])
    case Ok(options) =>
      match env.protos(JoinDir(googleapisDir, api.path))
      case Err(e) => (Some("failed to find protos: " + e), [])
      case Ok(protos) =>
        if |protos| == 0 then (Some("no protos found in api " + Quote(api.path)), [])
        else env.protoc(api.path, version, ProtocCommand(googleapisDir, protos, options))
  }

  /** The tree after protoc's run: the files written, and on success <outdir>/<version>
      removed with all the intermediate output in it. */
  function AfterProtoc(m: map<Path, Node>, err: Status, files: seq<(Path, string)>, root: Path): map<Path, Node> {
    if err.Some? then PlacedAll(m, files) else WithoutTree(PlacedAll(m, files), root)
  }

  /** generateAPI for an API with a version: the three output directories are created,
      then protoc is run and its output cleaned up. */
  function GenerateVersioned(env: ApiEnv, lib: Library, api: Api, googleapisDir: string, outdir: string,
                             version: string, m: map<Path, Node>): (Status, map<Path, Node>) {
    var (made, m3) := MkdirAllEach(m, VersionPaths(outdir, version));
    if made.Some? then (made, m3)
    else
      var (e, files) := RunProtoc(env, lib, api, googleapisDir, outdir, version);
      (e, AfterProtoc(m3, e, files, VersionRoot(outdir, version)))
  }

  /** generateAPI: an API path without a version segment is an error. */
  function GenerateApi(env: ApiEnv, lib: Library, api: Api, googleapisDir: string, outdir: string,
                       m: map<Path, Node>): (Status, map<Path, Node>) {
    var version := VersionOf(api.path);
    if version == "" then (Some(NoVersion(api.path)), m)
    else GenerateVersioned(env, lib, api, googleapisDir, outdir, version, m)
  }

  /** One iteration of generate's loop over the APIs: generateAPI on the output
      directory, its error wrapped with the API path. */
  function ApiStep(env: ApiEnv, lib: Library, googleapisDir: string): TreeStep<Api> {
    (api: Api, m: map<Path, Node>) =>
      var r := GenerateApi(env, lib, api, googleapisDir, lib.output, m);
      (if r.0.Some? then Some(ApiFailed(api.path, r.0.value)) else None, r.1)
  }

  /** generate: a library without APIs is an error, then the output directory is
      created; the APIs are generated in order, each on the tree the earlier ones left,
      and the first failure is reported with its API path. The output directory is the
      library's output as given. */
  function GenerateSpec(m: map<Path, Node>, lib: Library, googleapisDir: string, env: ApiEnv): (r: (Status, map<Path, Node>))
    ensures |lib.apis| == 0 ==> r == (Some("no apis configured for library " + Quote(lib.name)), m)
    ensures |lib.apis| > 0 && !CanMkdirAll(m, ToPath(lib.output)) ==>
              r == (Some("failed to create output directory: " + MkdirAllError(ToPath(lib.output))), m)
  {
    var out := ToPath(lib.output);
    if |lib.apis| == 0 then (Some("no apis configured for library " + Quote(lib.name)), m)
    else if !CanMkdirAll(m, out) then (Some("failed to create output directory: " + MkdirAllError(out)), m)
    else UntilFailure(ApiStep(env, lib, googleapisDir), lib.apis, WithDirs(m, out))
  }

  /** generate succeeds exactly when the library has APIs, its output directory can be
      created, and every API generates on the tree the earlier ones left. */
  lemma GenerateSucceeds(m: map<Path, Node>, lib: Library, googleapisDir: string, env: ApiEnv)
    ensures GenerateSpec(m, lib, googleapisDir, env).0.None? <==>
              |lib.apis| > 0 && CanMkdirAll(m, ToPath(lib.output))
              && forall i | 0 <= i < |lib.apis| ::
                   StepSucceeds(ApiStep(env, lib, googleapisDir), lib.apis, WithDirs(m, ToPath(lib.output)), i)
  {
    if |lib.apis| > 0 && CanMkdirAll(m, ToPath(lib.output)) {
      UntilFailureSucceeds(ApiStep(env, lib, googleapisDir), lib.apis, WithDirs(m, ToPath(lib.output)));
      assert GenerateSpec(m, lib, googleapisDir, env)
             == UntilFailure(ApiStep(env, lib, googleapisDir), lib.apis, WithDirs(m, ToPath(lib.output)));
    } else {
      assert GenerateSpec(m, lib, googleapisDir, env).0.Some?;
    }
  }

  /** generateAPI, with extractVersion's loop and the loop creating the output
      directories. */
  method GenerateOneApi(fs: FileSystem, env: ApiEnv, lib: Library, api: Api, googleapisDir: string, outdir: string)
      returns (e: Status)
    requires fs.Valid()
    modifies fs
    ensures fs.Valid()
    ensures (e, fs.entries) == GenerateApi(env, lib, api, googleapisDir, outdir, old(fs.entries))
  {
    var version := ExtractVersion(api.path);
    if version == "" {
      return Some(NoVersion(api.path));
    }
    var dirs := VersionPaths(outdir, version);
    ghost var m := fs.entries;
    for k := 0 to 3
      invariant fs.Valid()
      invariant MkdirAllEach(m, dirs) == MkdirAllEach(fs.entries, dirs[k..])
    {
      e := fs.MkdirAll(dirs[k]);
      if e.Some? {
        return;
      }
      assert dirs[k..][1..] == dirs[k + 1..];
    }
    var options := ProtocOptions(lib, googleapisDir, VersionDir(outdir, version, "proto"), VersionDir(outdir, version, "grpc"),
                                 VersionDir(outdir, version, "gapic"), env.serviceConfig(api.path), env.grpcConfig(api.path));
    if options.Err? {
      return Some(options.msg);
    }
    var protos := env.protos(JoinDir(googleapisDir, api.path));
    if protos.Err? {
      return Some("failed to find protos: " + protos.msg);
    }
    if |protos.value| == 0 {
      return Some("no protos found in api " + Quote(api.path));
    }
    var run := env.protoc(api.path, version, ProtocCommand(googleapisDir, protos.value, options.value));
    fs.PlaceAll(run.1);
    e := run.0;
    if e.None? {
      fs.RemoveAll(VersionRoot(outdir, version));
    }
  }

  /** generate, with its loop over the library's APIs. */
  method Generate(fs: FileSystem, lib: Library, googleapisDir: string, env: ApiEnv) returns (err: Status)
    requires fs.Valid()
    modifies fs
    ensures fs.Valid()
    ensures (err, fs.entries) == GenerateSpec(old(fs.entries), lib, googleapisDir, env)
  {
    if |lib.apis| == 0 {
      return Some("no apis configured for library " + Quote(lib.name));
    }
    var made := fs.MkdirAll(ToPath(lib.output));
    if made.Some? {
      return Some("failed to create output directory: " + made.value);
    }
    ghost var m := fs.entries;
    ghost var step := ApiStep(env, lib, googleapisDir);
    var i := 0;
    while i < |lib.apis|
      invariant 0 <= i <= |lib.apis| && fs.Valid()
      invariant UntilFailure(step, lib.apis, m) == UntilFailure(step, lib.apis[i..], fs.entries)
    {
      var e := GenerateOneApi(fs, env, lib, lib.apis[i], googleapisDir, lib.output);
      assert lib.apis[i..][0] == lib.apis[i];
      if e.Some? {
        return Some(ApiFailed(lib.apis[i].path, e.value));
      }
      assert lib.apis[i..][1..] == lib.apis[i + 1..];
      i := i + 1;
    }
    return None;
  }

  /** One iteration of GenerateLibraries' loop: generate for one library. */
  function LibraryStep(googleapisDir: string, env: ApiEnv): TreeStep<Library> {
    (lib: Library, m: map<Path, Node>) => GenerateSpec(m, lib, googleapisDir, env)
  }

  /** GenerateLibraries: the libraries are generated in order, each on the tree the
      earlier ones left, and the first failure is returned. */
  function GenerateLibrariesSpec(m: map<Path, Node>, libs: seq<Library>, googleapisDir: string, env: ApiEnv)
      : (r: (Status, map<Path, Node>))
    ensures r.0.None? <==> forall i | 0 <= i < |libs| :: StepSucceeds(LibraryStep(googleapisDir, env), libs, m, i)
    ensures r.0.Some? ==> exists i | 0 <= i < |libs| ::
              r == GenerateSpec(TreeBefore(LibraryStep(googleapisDir, env), libs, m, i), libs[i], googleapisDir, env)
    ensures r.0.None? ==> r.1 == TreeBefore(LibraryStep(googleapisDir, env), libs, m, |libs|)
  {
    UntilFailureSucceeds(LibraryStep(googleapisDir, env), libs, m);
    UntilFailureFails(LibraryStep(googleapisDir, env), libs, m);
    UntilFailure(LibraryStep(googleapisDir, env), libs, m)
  }

  /** GenerateLibraries, with its loop over the libraries. */
  method GenerateLibraries(fs: FileSystem, libs: seq<Library>, googleapisDir: string, env: ApiEnv) returns (err: Status)
    requires fs.Valid()
    modifies fs
    ensures fs.Valid()
    ensures (err, fs.entries) == GenerateLibrariesSpec(old(fs.entries), libs, googleapisDir, env)
  {
    ghost var m := fs.entries;
    ghost var step := LibraryStep(googleapisDir, env);
    var i := 0;
    while i < |libs|
      invariant 0 <= i <= |libs| && fs.Valid()
      invariant UntilFailure(step, libs, m) == UntilFailure(step, libs[i..], fs.entries)
    {
      var e := Generate(fs, libs[i], googleapisDir, env);
      assert libs[i..][0] == libs[i];
      if e.Some? {
        return e;
      }
      assert libs[i..][1..] == libs[i + 1..];
      i := i + 1;
    }
    return None;
  }

  /** An API without a version segment stops generation with that API's error once the
      output directory can be created and the APIs before it have succeeded. */
  lemma MissingVersionFails(m: map<Path, Node>, lib: Library, googleapisDir: string, env: ApiEnv, i: nat)
    requires i < |lib.apis| && VersionOf(lib.apis[i].path) == ""
    requires CanMkdirAll(m, ToPath(lib.output))
    requires forall j | 0 <= j < i ::
               StepSucceeds(ApiStep(env, lib, googleapisDir), lib.apis, WithDirs(m, ToPath(lib.output)), j)
    ensures GenerateSpec(m, lib, googleapisDir, env).0 == Some(ApiFailed(lib.apis[i].path, NoVersion(lib.apis[i].path)))
  {
    var step, m1 := ApiStep(env, lib, googleapisDir), WithDirs(m, ToPath(lib.output));
    assert !StepSucceeds(step, lib.apis, m1, i);
    FailureAt(step, lib.apis, m1, i);
  }

  /** When every step before protoc succeeds, protoc runs on the API's protos and the
      common resources with exactly the options createProtocOptions computes for the
      three version directories: the gRPC stubs are asked for exactly when the transport
      is not "rest". Its error is the API's error. */
  lemma ProtocGetsOptions(env: ApiEnv, lib: Library, api: Api, googleapisDir: string, outdir: string, m: map<Path, Node>)
    requires VersionOf(api.path) != ""
    requires MkdirAllEach(m, VersionPaths(outdir, VersionOf(api.path))).0.None?
    requires env.serviceConfig(api.path).Ok? && env.grpcConfig(api.path).Ok?
    requires env.protos(JoinDir(googleapisDir, api.path)).Ok? && |env.protos(JoinDir(googleapisDir, api.path)).value| > 0
    ensures var v := VersionOf(api.path);
      var protos := env.protos(JoinDir(googleapisDir, api.path)).value;
      var grpc := VersionDir(outdir, v, "grpc");
      var options := ProtocOptions(lib, googleapisDir, VersionDir(outdir, v, "proto"), grpc, VersionDir(outdir, v, "gapic"),
                                   env.serviceConfig(api.path), env.grpcConfig(api.path));
      && options.Ok?
      && GenerateApi(env, lib, api, googleapisDir, outdir, m).0 == env.protoc(api.path, v, ProtocCommand(googleapisDir, protos, options.value)).0
      && ProtocCommand(googleapisDir, protos, options.value)[4 + |protos|..] == options.value
      && (GrpcOut + grpc in options.value <==> EffectiveTransport(lib) != "rest")
  {
  }

  /** An API directory without protos fails before protoc, whatever protoc would do,
      leaving only the version directories created. */
  lemma NoProtosFails(env: ApiEnv, lib: Library, api: Api, googleapisDir: string, outdir: string, m: map<Path, Node>,
                      protoc: (string, string, seq<string>) -> (Status, seq<(Path, string)>))
    requires VersionOf(api.path) != ""
    requires MkdirAllEach(m, VersionPaths(outdir, VersionOf(api.path))).0.None?
    requires env.serviceConfig(api.path).Ok? && env.grpcConfig(api.path).Ok?
    requires env.protos(JoinDir(googleapisDir, api.path)) == Ok([])
    ensures GenerateApi(env, lib, api, googleapisDir, outdir, m)
            == (Some("no protos found in api " + Quote(api.path)), MkdirAllEach(m, VersionPaths(outdir, VersionOf(api.path))).1)
    ensures GenerateApi(env.(protoc := protoc), lib, api, googleapisDir, outdir, m)
            == GenerateApi(env, lib, api, googleapisDir, outdir, m)
  {
  }

  /** A service-config lookup error is the API's error, and neither the glob nor protoc
      is consulted. */
  lemma LookupErrorStopsApi(env: ApiEnv, lib: Library, api: Api, googleapisDir: string, outdir: string, m: map<Path, Node>,
                            protos: string -> Result<seq<string>>,
                            protoc: (string, string, seq<string>) -> (Status, seq<(Path, string)>))
    requires VersionOf(api.path) != ""
    requires MkdirAllEach(m, VersionPaths(outdir, VersionOf(api.path))).0.None?
    requires env.serviceConfig(api.path).Err? || env.grpcConfig(api.path).Err?
    ensures GenerateApi(env, lib, api, googleapisDir, outdir, m)
            == (Some(if env.serviceConfig(api.path).Err? then env.serviceConfig(api.path).msg else env.grpcConfig(api.path).msg),
                MkdirAllEach(m, VersionPaths(outdir, VersionOf(api.path))).1)
    ensures GenerateApi(env.(protos := protos, protoc := protoc), lib, api, googleapisDir, outdir, m)
            == GenerateApi(env, lib, api, googleapisDir, outdir, m)
  {
  }

  /** Generating `apis` never removes `q`: `q` is not below the <outdir>/<version>
      directory of any of them. */
  predicate ApisRemoveNot(outdir: string, apis: seq<Api>, q: Path) {
    forall i | 0 <= i < |apis| :: !Under(VersionRoot(outdir, VersionOf(apis[i].path)), q)
  }

  /** An API's generation keeps the tree a tree and keeps every directory outside its
      <outdir>/<version>. */
  lemma GenerateApiKeeps(env: ApiEnv, lib: Library, api: Api, googleapisDir: string, outdir: string,
                         m: map<Path, Node>, q: Path)
    requires TreeShaped(m)
    ensures var r := GenerateApi(env, lib, api, googleapisDir, outdir, m);
      && TreeShaped(r.1)
      && (IsDirIn(m, q) && !Under(VersionRoot(outdir, VersionOf(api.path)), q) ==> IsDirIn(r.1, q))
  {
    var v := VersionOf(api.path);
    if v != "" {
      var dirs := VersionPaths(outdir, v);
      MkdirAllEachKeeps(m, dirs, q);
      var run := RunProtoc(env, lib, api, googleapisDir, outdir, v);
      AfterProtocKeeps(MkdirAllEach(m, dirs).1, run.0, run.1, VersionRoot(outdir, v), q);
    }
  }

  /** The tree after protoc's run is a tree, and keeps every directory outside
      <outdir>/<version>. */
  lemma AfterProtocKeeps(m: map<Path, Node>, err: Status, files: seq<(Path, string)>, root: Path, q: Path)
    requires TreeShaped(m) && |root| > 0
    ensures TreeShaped(AfterProtoc(m, err, files, root))
    ensures IsDirIn(m, q) && !Under(root, q) ==> IsDirIn(AfterProtoc(m, err, files, root), q)
  {
    PlacedAllMeaning(m, files, q);
    WithoutTreeMeaning(PlacedAll(m, files), root, q);
  }

  /** generate's loop over the APIs keeps the tree a tree and every directory none of
      them removes. */
  lemma {:induction false} ApisKeep(env: ApiEnv, lib: Library, googleapisDir: string, apis: seq<Api>,
                                    m: map<Path, Node>, q: Path)
    requires TreeShaped(m)
    ensures var r := UntilFailure(ApiStep(env, lib, googleapisDir), apis, m);
      && TreeShaped(r.1)
      && (IsDirIn(m, q) && ApisRemoveNot(lib.output, apis, q) ==> IsDirIn(r.1, q))
    decreases |apis|
  {
    if |apis| > 0 {
      var r0 := GenerateApi(env, lib, apis[0], googleapisDir, lib.output, m);
      GenerateApiKeeps(env, lib, apis[0], googleapisDir, lib.output, m, q);
      assert ApiStep(env, lib, googleapisDir)(apis[0], m).1 == r0.1;
      if r0.0.None? {
        assert forall i | 0 <= i < |apis| - 1 :: apis[1..][i] == apis[i + 1];
        ApisKeep(env, lib, googleapisDir, apis[1..], r0.1, q);
      }
    }
  }

  /** Generating a library keeps the tree a tree and every directory outside the
      <output>/<version> directories of its APIs. */
  lemma GenerateKeeps(m: map<Path, Node>, lib: Library, googleapisDir: string, env: ApiEnv, q: Path)
    requires TreeShaped(m)
    ensures var r := GenerateSpec(m, lib, googleapisDir, env);
      && TreeShaped(r.1)
      && (IsDirIn(m, q) && ApisRemoveNot(lib.output, lib.apis, q) ==> IsDirIn(r.1, q))
  {
    var out := ToPath(lib.output);
    if |lib.apis| > 0 && CanMkdirAll(m, out) {
      WithDirsTree(m, out);
      WithDirsKeeps(m, out, q);
      ApisKeep(env, lib, googleapisDir, lib.apis, WithDirs(m, out), q);
    }
  }

  /** A library that generates without error leaves its output directory in the tree,
      where the formatter looks for its sources. */
  lemma GenerateLeavesOutputDir(m: map<Path, Node>, lib: Library, googleapisDir: string, env: ApiEnv)
    requires TreeShaped(m)
    ensures var r := GenerateSpec(m, lib, googleapisDir, env);
      r.0.None? ==> IsDirIn(r.1, ToPath(lib.output))
  {
    var out := ToPath(lib.output);
    if |lib.apis| > 0 && CanMkdirAll(m, out) {
      WithDirsTree(m, out);
      assert ApisRemoveNot(lib.output, lib.apis, out);
      ApisKeep(env, lib, googleapisDir, lib.apis, WithDirs(m, out), out);
    }
  }

  /** GenerateLibraries keeps the tree a tree and every directory none of the libraries
      removes. */
  lemma LibrariesKeep(m: map<Path, Node>, libs: seq<Library>, googleapisDir: string, env: ApiEnv, q: Path)
    requires TreeShaped(m)
    ensures var r := GenerateLibrariesSpec(m, libs, googleapisDir, env);
      && TreeShaped(r.1)
      && (IsDirIn(m, q) && (forall j | 0 <= j < |libs| :: ApisRemoveNot(libs[j].output, libs[j].apis, q)) ==> IsDirIn(r.1, q))
  {
    var step := LibraryStep(googleapisDir, env);
    assert TreeShaped(UntilFailure(step, libs, m).1) by {
      forall i, t | 0 <= i < |libs| && TreeShaped(t) ensures TreeShaped(step(libs[i], t).1) {
        GenerateKeeps(t, libs[i], googleapisDir, env, q);
      }
      UntilFailureKeeps(step, libs, m, t => TreeShaped(t));
    }
    if IsDirIn(m, q) && forall j | 0 <= j < |libs| :: ApisRemoveNot(libs[j].output, libs[j].apis, q) {
      forall i, t | 0 <= i < |libs| && TreeShaped(t) && IsDirIn(t, q)
        ensures TreeShaped(step(libs[i], t).1) && IsDirIn(step(libs[i], t).1, q)
      {
        GenerateKeeps(t, libs[i], googleapisDir, env, q);
      }
      UntilFailureKeeps(step, libs, m, t => TreeShaped(t) && IsDirIn(t, q));
    }
  }

  /** After every library generates without error, the output directory of each of them
      is in the tree, unless a later library's intermediate <output>/<version> directory
      contained it and was removed. */
  lemma {:induction false} GeneratedOutputsExist(m: map<Path, Node>, libs: seq<Library>, googleapisDir: string,
                                                 env: ApiEnv, i: nat)
    requires TreeShaped(m) && i < |libs|
    requires forall j | i < j < |libs| :: ApisRemoveNot(libs[j].output, libs[j].apis, ToPath(libs[i].output))
    ensures var r := GenerateLibrariesSpec(m, libs, googleapisDir, env);
      r.0.None? ==> IsDirIn(r.1, ToPath(libs[i].output))
    decreases |libs|
  {
    var r0 := GenerateSpec(m, libs[0], googleapisDir, env);
    assert GenerateLibrariesSpec(m, libs, googleapisDir, env)
           == if r0.0.Some? then r0 else GenerateLibrariesSpec(r0.1, libs[1..], googleapisDir, env);
    if r0.0.None? {
      GenerateKeeps(m, libs[0], googleapisDir, env, ToPath(libs[i].output));
      assert forall j | 0 <= j < |libs| - 1 :: libs[1..][j] == libs[j + 1];
      if i == 0 {
        GenerateLeavesOutputDir(m, libs[0], googleapisDir, env);
        LibrariesKeep(r0.1, libs[1..], googleapisDir, env, ToPath(libs[0].output));
      } else {
        GeneratedOutputsExist(r0.1, libs[1..], googleapisDir, env, i - 1);
      }
    }
  }

  // ---------------------------------------------------------------------------
  // Format
  // ---------------------------------------------------------------------------

  /** Format does nothing when the library opts out or no formatter jar is configured. */
  predicate FormatSkipped(lib: Library, d: Option<Default>) {
    (lib.java.Some? && lib.java.value.skipFormat)
    || d.None? || d.value.java.None? || d.value.java.value.formatterJar == ""
  }

  /** A file the formatter is given: a ".java" file below the output directory that is
      not under samples/snippets/generated. */
  predicate Formattable(m: map<Path, Node>, out: Path, p: Path) {
    p in m && m[p].File? && Under(out, p) && HasSuffix(Name(p), ".java")
    && !Contains(PathString(p), "samples/snippets/generated")
  }

  /** The files handed to the formatter, in walk order. */
  ghost function FormatFiles(m: map<Path, Node>, out: Path): seq<Path> {
    WalkListing(set p | p in m && Formattable(m, out, p))
  }

  /** Format. `format(jar, files)` runs google-java-format on the files. */
  ghost function FormatSpec(m: map<Path, Node>, lib: Library, d: Option<Default>,
                            format: (string, seq<string>) -> Status): Status {
    if FormatSkipped(lib, d) then None
    else
      var out := ToPath(lib.output);
      match StatIn(m, out)
      case NotExist => Some("failed to find java files for formatting: lstat " + PathString(out) + ": no such file or directory")
      case NotADirectory => Some("failed to find java files for formatting: lstat " + PathString(out) + ": not a directory")
      case Found(_) =>
        var files := FormatFiles(m, out);
        if |files| == 0 then None
        else
          var e := format(d.value.java.value.formatterJar, Strings(files));
          if e.Some? then Some("formatting failed: " + e.value) else None
  }

  /** When the output directory exists, Format fails only when the formatter does. */
  lemma FormatFailsInFormatter(m: map<Path, Node>, lib: Library, d: Option<Default>,
                               format: (string, seq<string>) -> Status)
    requires StatIn(m, ToPath(lib.output)).Found?
    ensures var e := FormatSpec(m, lib, d, format);
      e.Some? ==> HasPrefix(e.value, "formatting failed: ")
  {
    var e := FormatSpec(m, lib, d, format);
    if e.Some? {
      var f := format(d.value.java.value.formatterJar, Strings(FormatFiles(m, ToPath(lib.output))));
      assert e.value == "formatting failed: " + f.value;
    }
  }

  function Strings(ps: seq<Path>): (r: seq<string>)
    ensures |r| == |ps| && forall i | 0 <= i < |ps| :: r[i] == PathString(ps[i])
  {
    if |ps| == 0 then [] else [PathString(ps[0])] + Strings(ps[1..])
  }

  /** Format, with its walk collecting the files. */
  method Format(fs: FileSystem, lib: Library, d: Option<Default>, format: (string, seq<string>) -> Status)
    returns (err: Status)
    ensures err == FormatSpec(fs.entries, lib, d, format)
  {
    if FormatSkipped(lib, d) {
      return None;
    }
    var out := ToPath(lib.output);
    match fs.Stat(out)
    case NotExist =>
      return Some("failed to find java files for formatting: lstat " + PathString(out) + ": no such file or directory");
    case NotADirectory =>
      return Some("failed to find java files for formatting: lstat " + PathString(out) + ": not a directory");
    case Found(_) =>
    var files := CollectJavaFiles(fs, out);
    if |files| == 0 {
      return None;
    }
    var e := format(d.value.java.value.formatterJar, Strings(files));
    err := if e.Some? then Some("formatting failed: " + e.value) else None;
  }

  /** The walk of Format: visits everything below the output directory in order and
      keeps the formattable files. */
  method CollectJavaFiles(fs: FileSystem, out: Path) returns (files: seq<Path>)
    ensures files == FormatFiles(fs.entries, out)
  {
    var visited := set p | p in fs.entries && Under(out, p);
    var walk := WalkOrder(visited);
    files := [];
    var i := 0;
    assert walk[..0] == [];
    while i < |walk|
      invariant 0 <= i <= |walk|
      invariant files == KeptFiles(fs.entries, out, walk[..i])
    {
      var p := walk[i];
      assert p in visited;
      KeptStep(fs.entries, out, walk, i);
      if fs.entries[p].File? && HasSuffix(Name(p), ".java") && !Contains(PathString(p), "samples/snippets/generated") {
        files := files + [p];
      }
      i := i + 1;
    }
    assert walk[..i] == walk;
    KeptIsFormatFiles(fs.entries, out, walk);
  }

  /** The formattable files among `walk`, in its order. */
  ghost function KeptFiles(m: map<Path, Node>, out: Path, walk: seq<Path>): seq<Path>
    decreases |walk|
  {
    if |walk| == 0 then []
    else
      var p := walk[|walk| - 1];
      KeptFiles(m, out, walk[..|walk| - 1]) + (if Formattable(m, out, p) then [p] else [])
  }

  lemma KeptStep(m: map<Path, Node>, out: Path, walk: seq<Path>, i: nat)
    requires i < |walk| && walk[i] in m && Under(out, walk[i])
    ensures var p := walk[i];
      KeptFiles(m, out, walk[..i + 1])
      == KeptFiles(m, out, walk[..i])
         + (if m[p].File? && HasSuffix(Name(p), ".java") && !Contains(PathString(p), "samples/snippets/generated")
            then [p] else [])
  {
    assert walk[..i + 1][..i] == walk[..i];
  }

  /** Along an increasing walk, the kept files increase and are the formattable ones. */
  lemma {:induction false} KeptListing(m: map<Path, Node>, out: Path, walk: seq<Path>)
    requires Increasing(walk, PathLt)
    ensures Increasing(KeptFiles(m, out, walk), PathLt)
    ensures forall p :: p in KeptFiles(m, out, walk) <==> p in walk && Formattable(m, out, p)
    decreases |walk|
  {
    if |walk| > 0 {
      var init := walk[..|walk| - 1];
      var last := walk[|walk| - 1];
      assert Increasing(init, PathLt);
      KeptListing(m, out, init);
      var kept := KeptFiles(m, out, init);
      forall k | 0 <= k < |kept| ensures PathLt(kept[k], last) {
        assert kept[k] in kept;
        var j :| 0 <= j < |init| && init[j] == kept[k];
      }
      assert walk == init + [last];
    }
  }

  lemma KeptIsFormatFiles(m: map<Path, Node>, out: Path, walk: seq<Path>)
    requires SortedListing(walk, (set p | p in m && Under(out, p)), PathLt)
    ensures KeptFiles(m, out, walk) == FormatFiles(m, out)
  {
    KeptListing(m, out, walk);
    var formattable := set p | p in m && Formattable(m, out, p);
    assert SortedListing(KeptFiles(m, out, walk), formattable, PathLt);
    WalkOrderIsListing(KeptFiles(m, out, walk), formattable);
  }

  /** Files under samples/snippets/generated are never formatted. */
  lemma GeneratedSamplesNotFormatted(m: map<Path, Node>, out: Path, p: Path)
    requires p in m && Contains(PathString(p), "samples/snippets/generated")
    ensures p !in FormatFiles(m, out)
  {
  }
}
