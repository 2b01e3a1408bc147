/** The records of librarian.yaml that the orchestration code reads and fills in
    (internal/config/config.go, internal/config/language.go), reduced to the fields it
    touches. A field Go may leave nil is an Option; a nil slice or map is empty. */
module Config {
  import opened Outcome

  datatype Api = Api(path: string)

  datatype JavaDefault = JavaDefault(formatterJar: string, generatorJar: string, grpcPlugin: string)

  datatype JavaPackage = JavaPackage(tools: JavaDefault, skipFormat: bool)

  datatype RustPackageDependency = RustPackageDependency(
    name: string, ignore: bool, package: string, source: string,
    feature: string, forceUsed: bool, usedIf: string)

  datatype RustDefault = RustDefault(
    packageDependencies: seq<RustPackageDependency>,
    disabledRustdocWarnings: seq<string>,
    generateSetterSamples: string,
    generateRpcSamples: string)

  datatype RustModule = RustModule(output: string, generateSetterSamples: string, generateRpcSamples: string)

  datatype RustCrate = RustCrate(defaults: RustDefault, modules: seq<RustModule>)

  datatype PythonPackage = PythonPackage(commonGapicPaths: seq<string>)

  datatype DartPackage = DartPackage(
    apiKeysEnvironmentVariables: string,
    dependencies: string,
    issueTrackerUrl: string,
    packages: map<string, string>,
    prefixes: map<string, string>,
    protos: map<string, string>,
    version: string)

  datatype Default = Default(
    keep: seq<string>,
    output: string,
    releaseLevel: string,
    transport: string,
    dart: Option<DartPackage>,
    java: Option<JavaDefault>,
    rust: Option<RustDefault>,
    python: Option<seq<string>>)

  datatype Library = Library(
    name: string,
    version: string,
    apis: seq<Api>,
    keep: seq<string>,
    output: string,
    releaseLevel: string,
    skipGenerate: bool,
    transport: string,
    veneer: bool,
    dart: Option<DartPackage>,
    java: Option<JavaPackage>,
    python: Option<PythonPackage>,
    rust: Option<RustCrate>)

  datatype Source = Source(commit: string, dir: string)

  datatype Sources = Sources(googleapis: Option<Source>)

  datatype Config = Config(
    language: string,
    sources: Option<Sources>,
    defaults: Option<Default>,
    libraries: seq<Library>)

  // The languages the tool knows (internal/librarian/librarian.go).
  const Dart := "dart"
  const Fake := "fake"
  const Go := "go"
  const Java := "java"
  const Rust := "rust"
  const Python := "python"

  /** The helpers of the per-language packages that the core only calls: how Dart,
      Rust and Python derive a default output directory and an API path from a library
      name, and the Go package's own defaults. */
  datatype LanguageHooks = LanguageHooks(
    dartDefaultOutput: (string, string) -> string,
    rustDefaultOutput: (string, string) -> string,
    pythonDefaultOutput: (string, string) -> string,
    dartApiPath: string -> string,
    rustApiPath: string -> string,
    goFill: Library -> Library)
}
