/** The generate command of internal/librarian/generate.go: the flag checks, runGenerate's
    selection of libraries, the loading of the googleapis sources, and the four phases
    clean, generate, format and postGenerate with their per-language switches. The
    language packages and the network are the oracles of `Tools`; cleaning acts on the
    file system through the Dart/Rust keep-list cleaner and the Java cleaner. */
module Dispatch {
  import opened Strs
  import opened Outcome
  import opened Config
  import opened Fs
  import opened Derivation
  import opened Resolver
  import Cleaner
  import JavaClean
  import JavaNaming

  const ErrMissingLibraryOrAllFlag := "must specify library name or use --all flag"
  const ErrBothLibraryAndAllFlag := "cannot specify both library name and --all flag"
  const ErrEmptySources := "sources required in librarian.yaml"
  const ErrSkipGenerate := "library has skip_generate set"
  const ErrLibraryNotFound := "library not found"
  const ErrAllSkipped := "no libraries to generate: all libraries have skip_generate set"
  const ErrNoGoogleapis := "must specify --googleapis flag"
  const GoogleapisRepo := "github.com/googleapis/googleapis"

  /** The source bundle handed to the Rust and Dart generators: the googleapis directory
      and the other source directories by name. */
  datatype Bundle = Bundle(googleapis: string, others: map<string, string>)

  /** The code the dispatcher calls but that is not part of this model. */
  datatype Tools = Tools(
    // fetch.RepoDir for the googleapis repository at a commit
    fetchRepo: string -> Result<string>,
    // source.FetchRustDartSources
    fetchRustDart: Sources -> Result<Bundle>,
    // python.CleanLibrary and golang.Clean
    pythonClean: Library -> Status,
    goClean: Library -> Status,
    // rust.Keep
    rustKeep: Library -> Result<seq<string>>,
    // the GenerateLibraries of the fake, Dart, Python, Go and Rust packages: the error
    // and the files written, in order, each as a path and its content
    generate: (string, seq<Library>, string, Option<Bundle>) -> (Status, seq<(Path, string)>),
    // os.MkdirAll, the service-config lookups, the proto glob and protoc with the output
    // restructuring, as the Java generator uses them (see JavaNaming.GenerateApi)
    javaRun: JavaNaming.ApiEnv,
    // the Format of the fake, Dart, Go and Rust packages
    format: (string, Library) -> Status,
    // google-java-format
    javaFormatter: (string, seq<string>) -> Status,
    // rust.UpdateWorkspace and fakePostGenerate
    rustUpdateWorkspace: Status,
    fakePostGenerate: Status)

  /** The languages with a generator. */
  predicate Supported(language: string) {
    language == Fake || language == Dart || language == Python || language == Go
    || language == Java || language == Rust
  }

  // ---------------------------------------------------------------------------
  // LoadSources
  // ---------------------------------------------------------------------------

  /** LoadSources: the googleapis directory (given, or fetched at the configured
      commit) and, for Rust and Dart only, the source bundle pointing at it. */
  function LoadSources(t: Tools, cfg: Config): (r: Result<(string, Option<Bundle>)>)
    ensures cfg.sources.None? || cfg.sources.value.googleapis.None? ==> r == Err(ErrNoGoogleapis)
    ensures r.Ok? ==> (r.value.1.Some? <==> cfg.language == Rust || cfg.language == Dart)
    ensures r.Ok? && r.value.1.Some? ==> r.value.1.value.googleapis == r.value.0
    ensures r.Ok? && cfg.sources.value.googleapis.value.dir != "" ==> r.value.0 == cfg.sources.value.googleapis.value.dir
  {
    if cfg.sources.None? || cfg.sources.value.googleapis.None? then Err(ErrNoGoogleapis)
    else
      var src := cfg.sources.value.googleapis.value;
      var dir: Result<string> :=
        if src.dir != "" then Ok(src.dir)
        else match t.fetchRepo(src.commit)
          case Err(e) => Err("failed to fetch " + GoogleapisRepo + ": " + e)
          case Ok(d) => Ok(d);
      if dir.Err? then Err(dir.msg)
      else if cfg.language == Rust || cfg.language == Dart then
        match t.fetchRustDart(cfg.sources.value)
        case Err(e) => Err(e)
        case Ok(b) => Ok((dir.value, Some(b.(googleapis := dir.value))))
      else Ok((dir.value, None))
  }

  /** A configured googleapis directory is used as it is: the fetcher is never asked. */
  lemma DirIsNotFetched(t: Tools, cfg: Config, fetch: string -> Result<string>)
    requires cfg.sources.Some? && cfg.sources.value.googleapis.Some?
    requires cfg.sources.value.googleapis.value.dir != ""
    ensures LoadSources(t, cfg) == LoadSources(t.(fetchRepo := fetch), cfg)
  {
  }

  // ---------------------------------------------------------------------------
  // Selecting and preparing the libraries
  // ---------------------------------------------------------------------------

  /** The libraries runGenerate selects, in configuration order. */
  function Selected(libs: seq<Library>, all: bool, name: string): (r: seq<Library>)
    ensures forall i | 0 <= i < |r| :: r[i] in libs && ShouldGenerate(r[i], all, name)
    ensures forall l | l in libs && ShouldGenerate(l, all, name) :: l in r
  {
    if |libs| == 0 then []
    else (if ShouldGenerate(libs[0], all, name) then [libs[0]] else []) + Selected(libs[1..], all, name)
  }

  /** runGenerate's loop: each selected library resolved by `resolve`; the first
      library that cannot be resolved stops the loop with its error. */
  function PrepareWith(resolve: Library -> Result<Library>, libs: seq<Library>, all: bool, name: string)
    : Result<seq<Library>>
    decreases |libs|
  {
    if |libs| == 0 then Ok([])
    else
      var rest := PrepareWith(resolve, libs[1..], all, name);
      if !ShouldGenerate(libs[0], all, name) then rest
      else match resolve(libs[0])
        case Err(msg) => Err(msg)
        case Ok(l) => if rest.Err? then Err(rest.msg) else Ok([l] + rest.value)
  }

  /** Selection, one library at a time. */
  lemma SelectedStep(libs: seq<Library>, all: bool, name: string)
    requires |libs| > 0
    ensures var sel, sel' := Selected(libs, all, name), Selected(libs[1..], all, name);
      if ShouldGenerate(libs[0], all, name) then |sel| == |sel'| + 1 && sel[0] == libs[0]
        && forall i | 1 <= i < |sel| :: sel[i] == sel'[i - 1]
      else sel == sel'
  {
  }

  /** Preparing succeeds exactly when every selected library resolves. */
  lemma {:induction false} PrepareOkIff(resolve: Library -> Result<Library>, libs: seq<Library>,
                                       all: bool, name: string)
    ensures var sel := Selected(libs, all, name);
      PrepareWith(resolve, libs, all, name).Ok? <==> forall i | 0 <= i < |sel| :: resolve(sel[i]).Ok?
    decreases |libs|
  {
    if |libs| > 0 {
      PrepareOkIff(resolve, libs[1..], all, name);
      SelectedStep(libs, all, name);
    }
  }

  /** A successful preparation yields the resolved selected libraries, in order. */
  lemma {:induction false} PrepareValues(resolve: Library -> Result<Library>, libs: seq<Library>,
                                        all: bool, name: string)
    ensures var r, sel := PrepareWith(resolve, libs, all, name), Selected(libs, all, name);
      r.Ok? ==> |r.value| == |sel| && forall i | 0 <= i < |sel| :: resolve(sel[i]) == Ok(r.value[i])
    decreases |libs|
  {
    if |libs| > 0 {
      PrepareValues(resolve, libs[1..], all, name);
      SelectedStep(libs, all, name);
      var r, rest := PrepareWith(resolve, libs, all, name), PrepareWith(resolve, libs[1..], all, name);
      var sel, sel' := Selected(libs, all, name), Selected(libs[1..], all, name);
      if r.Ok? && ShouldGenerate(libs[0], all, name) {
        assert rest.Ok? && r.value == [resolve(libs[0]).value] + rest.value;
        forall i | 1 <= i < |sel| ensures resolve(sel[i]) == Ok(r.value[i]) {
          assert sel[i] == sel'[i - 1] && r.value[i] == rest.value[i - 1];
        }
      } else if r.Ok? {
        assert r == rest && sel == sel';
      }
    }
  }

  /** A failed preparation reports the error of a selected library. */
  lemma {:induction false} PrepareErrorFromSelected(resolve: Library -> Result<Library>, libs: seq<Library>,
                                                   all: bool, name: string)
    ensures var r, sel := PrepareWith(resolve, libs, all, name), Selected(libs, all, name);
      r.Err? ==> exists i | 0 <= i < |sel| :: resolve(sel[i]) == Err(r.msg)
    decreases |libs|
  {
    if |libs| > 0 {
      PrepareErrorFromSelected(resolve, libs[1..], all, name);
      SelectedStep(libs, all, name);
      var r, sel := PrepareWith(resolve, libs, all, name), Selected(libs, all, name);
      if r.Err? && ShouldGenerate(libs[0], all, name) && resolve(libs[0]).Ok? {
        var sel' := Selected(libs[1..], all, name);
        var k :| 0 <= k < |sel'| && resolve(sel'[k]) == Err(r.msg);
        assert sel[k + 1] == sel'[k];
      }
    }
  }

  /** The libraries runGenerate prepares: applyDefaults on each selected library. */
  function Prepare(h: LanguageHooks, language: string, libs: seq<Library>, d: Option<Default>,
                   all: bool, name: string): Result<seq<Library>> {
    PrepareWith(l => ApplyDefaultsAsWritten(h, language, l, d), libs, all, name)
  }

  /** The loop of runGenerate that prepares the libraries. */
  method PrepareLibraries(h: LanguageHooks, language: string, libs: seq<Library>, d: Option<Default>,
                          all: bool, name: string) returns (r: Result<seq<Library>>)
    ensures r == Prepare(h, language, libs, d, all, name)
  {
    var resolve := l => ApplyDefaultsAsWritten(h, language, l, d);
    var prepared: seq<Library> := [];
    var i := 0;
    assert libs[0..] == libs;
    assert Glue([], PrepareWith(resolve, libs, all, name)) == PrepareWith(resolve, libs, all, name) by {
      assert forall x: seq<Library> :: [] + x == x;
    }
    while i < |libs|
      invariant 0 <= i <= |libs|
      invariant PrepareWith(resolve, libs, all, name) == Glue(prepared, PrepareWith(resolve, libs[i..], all, name))
    {
      if ShouldGenerate(libs[i], all, name) {
        var res := ApplyDefaults(h, language, libs[i], d);
        assert res == resolve(libs[i]);
        PrepareStep(resolve, libs, all, name, i, prepared);
        if res.Err? {
          return Err(res.msg);
        }
        prepared := prepared + [res.value];
      } else {
        PrepareStep(resolve, libs, all, name, i, prepared);
      }
      i := i + 1;
    }
    assert libs[|libs|..] == [];
    assert prepared + [] == prepared;
    r := Ok(prepared);
  }

  /** The libraries prepared so far in front of the outcome of the rest. */
  function Glue(done: seq<Library>, rest: Result<seq<Library>>): Result<seq<Library>> {
    if rest.Err? then rest else Ok(done + rest.value)
  }

  /** One turn of the preparing loop: a skipped library leaves the prepared libraries as
      they are, a resolved one is appended, and a failing one ends the loop with its error. */
  lemma PrepareStep(resolve: Library -> Result<Library>, libs: seq<Library>, all: bool, name: string,
                    i: int, prepared: seq<Library>)
    requires 0 <= i < |libs|
    ensures var rest := PrepareWith(resolve, libs[i + 1..], all, name);
      Glue(prepared, PrepareWith(resolve, libs[i..], all, name))
      == if !ShouldGenerate(libs[i], all, name) then Glue(prepared, rest)
         else match resolve(libs[i])
           case Err(msg) => Err(msg)
           case Ok(l) => Glue(prepared + [l], rest)
  {
    assert libs[i..][1..] == libs[i + 1..];
    var rest := PrepareWith(resolve, libs[i + 1..], all, name);
    if ShouldGenerate(libs[i], all, name) && resolve(libs[i]).Ok? && rest.Ok? {
      assert prepared + ([resolve(libs[i]).value] + rest.value) == prepared + [resolve(libs[i]).value] + rest.value;
    }
  }

  /** The error of an empty selection: under --all every library is skipped; otherwise
      the named library is either skipped or missing. */
  function NothingSelected(libs: seq<Library>, all: bool, name: string): string {
    if all then ErrAllSkipped
    else if exists i | 0 <= i < |libs| :: libs[i].name == name then ErrSkipGenerate + ": " + Quote(name)
    else ErrLibraryNotFound + ": " + Quote(name)
  }

  /** The error of an empty selection, with its search over the libraries. */
  method NothingSelectedError(libs: seq<Library>, all: bool, name: string) returns (msg: string)
    ensures msg == NothingSelected(libs, all, name)
  {
    if all {
      return ErrAllSkipped;
    }
    var i := 0;
    while i < |libs|
      invariant 0 <= i <= |libs|
      invariant forall k | 0 <= k < i :: libs[k].name != name
    {
      if libs[i].name == name {
        return ErrSkipGenerate + ": " + Quote(name);
      }
      i := i + 1;
    }
    msg := ErrLibraryNotFound + ": " + Quote(name);
  }

  /** Nothing is selected exactly when every library is skipped (under --all) or the
      named library is missing or skipped, so the skip_generate error is accurate. */
  lemma EmptySelection(libs: seq<Library>, all: bool, name: string)
    ensures |Selected(libs, all, name)| == 0 <==>
      forall i | 0 <= i < |libs| :: libs[i].skipGenerate || (!all && libs[i].name != name)
  {
    if |Selected(libs, all, name)| == 0 {
      forall i | 0 <= i < |libs| ensures libs[i].skipGenerate || (!all && libs[i].name != name) {
        assert libs[i] in libs;
      }
    }
  }

  // ---------------------------------------------------------------------------
  // The phases
  // ---------------------------------------------------------------------------

  /** Cleaning one library: Dart and Rust run the keep-list cleaner on the output
      directory (Rust with the keep list its package computes), Java runs its own
      cleaner, Python and Go delegate, and any other language has nothing to clean. */
  ghost function CleanOne(m: map<Path, Node>, t: Tools, language: string, lib: Library): (Status, map<Path, Node>) {
    if language == Dart then Cleaner.CheckAndCleanAsWritten(m, ToPath(lib.output), lib.keep)
    else if language == Java then (None, JavaClean.CleanSpec(m, lib))
    else if language == Python then (t.pythonClean(lib), m)
    else if language == Go then (t.goClean(lib), m)
    else if language == Rust then
      match t.rustKeep(lib)
      case Err(msg) => (Some("library " + Quote(lib.name) + ": " + msg), m)
      case Ok(keep) => Cleaner.CheckAndCleanAsWritten(m, ToPath(lib.output), keep)
    else (None, m)
  }

  /** cleanLibraries: the libraries are cleaned in order until one fails. */
  ghost function CleanLibrariesSpec(m: map<Path, Node>, t: Tools, language: string, libs: seq<Library>)
    : (r: (Status, map<Path, Node>))
    ensures !Supported(language) ==> r == (None, m)
    decreases |libs|
  {
    if |libs| == 0 then (None, m)
    else
      var (e, m1) := CleanOne(m, t, language, libs[0]);
      if e.Some? then (e, m1) else CleanLibrariesSpec(m1, t, language, libs[1..])
  }

  /** generateLibraries: one call for all the libraries; Java generates them one by one
      on the tree; the other generators' files are written whether or not they fail; a
      language without a generator is an error and writes nothing. */
  function GenerateLibrariesSpec(m: map<Path, Node>, t: Tools, language: string, libs: seq<Library>,
                                 googleapisDir: string, bundle: Option<Bundle>): (r: (Status, map<Path, Node>))
    ensures !Supported(language) ==> r == (Some("language " + Quote(language) + " does not support generation"), m)
  {
    if language == Java then JavaNaming.GenerateLibrariesSpec(m, libs, googleapisDir, t.javaRun)
    else if Supported(language) then
      var (e, files) := t.generate(language, libs, googleapisDir, bundle);
      (e, PlacedAll(m, files))
    else (Some("language " + Quote(language) + " does not support generation"), m)
  }

  /** formatLibraries: the libraries are formatted in order until one fails; Python
      returns at once, and a language without a formatter fails on the first library. */
  ghost function FormatLibrariesSpec(m: map<Path, Node>, t: Tools, language: string, libs: seq<Library>,
                                     d: Option<Default>): (err: Status)
    ensures |libs| > 0 && !Supported(language) ==> err == Some("language " + Quote(language) + " does not support formatting")
    ensures language == Python ==> err.None?
    decreases |libs|
  {
    if |libs| == 0 || language == Python then None
    else if !Supported(language) then Some("language " + Quote(language) + " does not support formatting")
    else
      var e := if language == Java then JavaNaming.FormatSpec(m, libs[0], d, t.javaFormatter) else t.format(language, libs[0]);
      if e.Some? then e else FormatLibrariesSpec(m, t, language, libs[1..], d)
  }

  /** postGenerate: Rust updates its workspace, the fake language records the call,
      every other language does nothing. */
  function PostGenerate(t: Tools, language: string): (err: Status)
    ensures language != Rust && language != Fake ==> err.None?
  {
    if language == Rust then t.rustUpdateWorkspace
    else if language == Fake then t.fakePostGenerate
    else None
  }

  /** The phases, in order, on the prepared libraries; the first failure ends the run. */
  ghost function PhasesSpec(m: map<Path, Node>, t: Tools, cfg: Config, libs: seq<Library>,
                            googleapisDir: string, bundle: Option<Bundle>): (Status, map<Path, Node>) {
    var (e1, m1) := CleanLibrariesSpec(m, t, cfg.language, libs);
    if e1.Some? then (e1, m1)
    else
      var (e2, m2) := GenerateLibrariesSpec(m1, t, cfg.language, libs, googleapisDir, bundle);
      if e2.Some? then (e2, m2)
      else
        var e3 := FormatLibrariesSpec(m2, t, cfg.language, libs, cfg.defaults);
        if e3.Some? then (e3, m2)
        else (PostGenerate(t, cfg.language), m2)
  }

  /** runGenerate: the error it returns and the file system it leaves. */
  ghost function RunGenerateSpec(m: map<Path, Node>, h: LanguageHooks, t: Tools, cfg: Config,
                                 all: bool, name: string): (Status, map<Path, Node>) {
    if cfg.sources.None? then (Some(ErrEmptySources), m)
    else match LoadSources(t, cfg)
      case Err(e) => (Some(e), m)
      case Ok((dir, bundle)) =>
        match Prepare(h, cfg.language, cfg.libraries, cfg.defaults, all, name)
        case Err(e) => (Some(e), m)
        case Ok(libs) =>
          if |libs| == 0 then (Some(NothingSelected(cfg.libraries, all, name)), m)
          else PhasesSpec(m, t, cfg, libs, dir, bundle)
  }

  /** The action of the generate command; `read` is the outcome of reading
      librarian.yaml. */
  ghost function CommandSpec(m: map<Path, Node>, h: LanguageHooks, t: Tools, all: bool, name: string,
                             read: Result<Config>): (Status, map<Path, Node>) {
    if !all && name == "" then (Some(ErrMissingLibraryOrAllFlag), m)
    else if all && name != "" then (Some(ErrBothLibraryAndAllFlag), m)
    else if read.Err? then (Some(read.msg), m)
    else RunGenerateSpec(m, h, t, read.value, all, name)
  }

  // ---------------------------------------------------------------------------
  // Properties of the command
  // ---------------------------------------------------------------------------

  /** The flag errors come first: they do not depend on librarian.yaml, and nothing on
      disk changes. */
  lemma FlagErrorsFirst(m: map<Path, Node>, h: LanguageHooks, t: Tools, all: bool, name: string,
                        read: Result<Config>)
    requires all == (name != "")
    ensures CommandSpec(m, h, t, all, name, read)
      == (Some(if all then ErrBothLibraryAndAllFlag else ErrMissingLibraryOrAllFlag), m)
  {
  }

  /** A library name that is not configured is reported as not found, before anything
      is cleaned or generated. */
  lemma UnknownLibraryNotFound(m: map<Path, Node>, h: LanguageHooks, t: Tools, cfg: Config, name: string)
    requires cfg.sources.Some? && LoadSources(t, cfg).Ok?
    requires forall i | 0 <= i < |cfg.libraries| :: cfg.libraries[i].name != name
    ensures RunGenerateSpec(m, h, t, cfg, false, name) == (Some(ErrLibraryNotFound + ": " + Quote(name)), m)
  {
    var resolve := l => ApplyDefaultsAsWritten(h, cfg.language, l, cfg.defaults);
    EmptySelection(cfg.libraries, false, name);
    PrepareOkIff(resolve, cfg.libraries, false, name);
    PrepareValues(resolve, cfg.libraries, false, name);
  }

  /** A named library with skip_generate set is reported as skipped, before anything
      is cleaned or generated. */
  lemma SkippedLibraryReported(m: map<Path, Node>, h: LanguageHooks, t: Tools, cfg: Config, name: string, j: int)
    requires cfg.sources.Some? && LoadSources(t, cfg).Ok?
    requires 0 <= j < |cfg.libraries| && cfg.libraries[j].name == name
    requires forall i | 0 <= i < |cfg.libraries| && cfg.libraries[i].name == name :: cfg.libraries[i].skipGenerate
    ensures RunGenerateSpec(m, h, t, cfg, false, name) == (Some(ErrSkipGenerate + ": " + Quote(name)), m)
  {
    var resolve := l => ApplyDefaultsAsWritten(h, cfg.language, l, cfg.defaults);
    EmptySelection(cfg.libraries, false, name);
    PrepareOkIff(resolve, cfg.libraries, false, name);
    PrepareValues(resolve, cfg.libraries, false, name);
  }

  /** A language without a generator cleans nothing and fails with the generation error. */
  lemma UnsupportedLanguageFails(m: map<Path, Node>, t: Tools, cfg: Config, libs: seq<Library>,
                                 googleapisDir: string, bundle: Option<Bundle>)
    requires !Supported(cfg.language)
    ensures PhasesSpec(m, t, cfg, libs, googleapisDir, bundle)
      == (Some("language " + Quote(cfg.language) + " does not support generation"), m)
  {
  }

  /** Two tool sets with the same cleaners. */
  ghost predicate SameCleaners(t: Tools, t': Tools) {
    t.pythonClean == t'.pythonClean && t.goClean == t'.goClean && t.rustKeep == t'.rustKeep
  }

  /** Cleaning consults only the cleaners. */
  lemma {:induction false} CleanUsesOnlyCleaners(m: map<Path, Node>, t: Tools, t': Tools, language: string,
                                                libs: seq<Library>)
    requires SameCleaners(t, t')
    ensures CleanLibrariesSpec(m, t, language, libs) == CleanLibrariesSpec(m, t', language, libs)
    decreases |libs|
  {
    if |libs| > 0 {
      var (e, m1) := CleanOne(m, t, language, libs[0]);
      assert CleanOne(m, t', language, libs[0]) == (e, m1);
      CleanUsesOnlyCleaners(m1, t, t', language, libs[1..]);
    }
  }

  /** When cleaning fails, the run stops there: the generators, formatters and the
      post-generation step are never consulted. */
  lemma CleanFailureStopsRun(m: map<Path, Node>, t: Tools, t': Tools, cfg: Config, libs: seq<Library>,
                             googleapisDir: string, bundle: Option<Bundle>)
    requires SameCleaners(t, t')
    requires CleanLibrariesSpec(m, t, cfg.language, libs).0.Some?
    ensures PhasesSpec(m, t, cfg, libs, googleapisDir, bundle) == CleanLibrariesSpec(m, t, cfg.language, libs)
    ensures PhasesSpec(m, t', cfg, libs, googleapisDir, bundle) == PhasesSpec(m, t, cfg, libs, googleapisDir, bundle)
  {
    CleanUsesOnlyCleaners(m, t, t', cfg.language, libs);
  }

  /** When generation fails, nothing is formatted and the post-generation step does not
      run: the run ends with the generation error. */
  lemma GenerateFailureStopsRun(m: map<Path, Node>, t: Tools, cfg: Config, libs: seq<Library>,
                                googleapisDir: string, bundle: Option<Bundle>,
                                format: (string, Library) -> Status, javaFormatter: (string, seq<string>) -> Status,
                                post: Status)
    requires CleanLibrariesSpec(m, t, cfg.language, libs).0.None?
    requires GenerateLibrariesSpec(CleanLibrariesSpec(m, t, cfg.language, libs).1, t, cfg.language, libs,
                                   googleapisDir, bundle).0.Some?
    ensures var t' := t.(format := format, javaFormatter := javaFormatter, rustUpdateWorkspace := post,
                         fakePostGenerate := post);
      PhasesSpec(m, t', cfg, libs, googleapisDir, bundle) == PhasesSpec(m, t, cfg, libs, googleapisDir, bundle)
      == GenerateLibrariesSpec(CleanLibrariesSpec(m, t, cfg.language, libs).1, t, cfg.language, libs,
                               googleapisDir, bundle)
  {
    var t' := t.(format := format, javaFormatter := javaFormatter, rustUpdateWorkspace := post,
                 fakePostGenerate := post);
    CleanUsesOnlyCleaners(m, t, t', cfg.language, libs);
  }

  /** For Java, a library whose generation succeeded is found by the formatter: its output
      directory is in the tree the generate phase leaves, so formatting it never fails with
      the lstat error, unless a later library's intermediate <output>/<version> directory
      contained it and was removed. `m1` is the tree the clean phase leaves. */
  lemma JavaGeneratedOutputFound(m1: map<Path, Node>, t: Tools, libs: seq<Library>, googleapisDir: string,
                                 bundle: Option<Bundle>, i: int)
    requires TreeShaped(m1) && 0 <= i < |libs|
    requires forall j | i < j < |libs| :: JavaNaming.ApisRemoveNot(libs[j].output, libs[j].apis, ToPath(libs[i].output))
    ensures var r := GenerateLibrariesSpec(m1, t, Java, libs, googleapisDir, bundle);
      r.0.None? ==> StatIn(r.1, ToPath(libs[i].output)).Found?
  {
    JavaNaming.GeneratedOutputsExist(m1, libs, googleapisDir, t.javaRun, i);
  }

  /** A Java run whose cleaning and generation succeed formats the tree generation left,
      which is the tree the run leaves, and every library's formatting fails, if at all,
      only in the formatter itself. */
  lemma JavaFormatSeesGeneratedTree(m: map<Path, Node>, t: Tools, cfg: Config, libs: seq<Library>,
                                    googleapisDir: string, bundle: Option<Bundle>)
    requires cfg.language == Java
    requires TreeShaped(CleanLibrariesSpec(m, t, Java, libs).1)
    requires CleanLibrariesSpec(m, t, Java, libs).0.None?
    requires forall i, j | 0 <= i < j < |libs| ::
               JavaNaming.ApisRemoveNot(libs[j].output, libs[j].apis, ToPath(libs[i].output))
    ensures var g := GenerateLibrariesSpec(CleanLibrariesSpec(m, t, Java, libs).1, t, Java, libs, googleapisDir, bundle);
      g.0.None? ==>
        && PhasesSpec(m, t, cfg, libs, googleapisDir, bundle).1 == g.1
        && forall i | 0 <= i < |libs| ::
             var e := JavaNaming.FormatSpec(g.1, libs[i], cfg.defaults, t.javaFormatter);
             e.Some? ==> HasPrefix(e.value, "formatting failed: ")
  {
    var m1 := CleanLibrariesSpec(m, t, Java, libs).1;
    var g := GenerateLibrariesSpec(m1, t, Java, libs, googleapisDir, bundle);
    if g.0.None? {
      forall i | 0 <= i < |libs|
        ensures var e := JavaNaming.FormatSpec(g.1, libs[i], cfg.defaults, t.javaFormatter);
          e.Some? ==> HasPrefix(e.value, "formatting failed: ")
      {
        JavaGeneratedOutputFound(m1, t, libs, googleapisDir, bundle, i);
        JavaNaming.FormatFailsInFormatter(g.1, libs[i], cfg.defaults, t.javaFormatter);
      }
    }
  }

  /** The keep-list cleaner only deletes, and only below its directory. */
  lemma CheckAndCleanOnlyDeletes(m: map<Path, Node>, dir: Path, keep: seq<string>)
    ensures var m' := Cleaner.CheckAndCleanAsWritten(m, dir, keep).1;
      && (forall q | q in m' :: q in m && m'[q] == m[q])
      && (forall q | q in m && !Under(dir, q) :: q in m')
  {
    var m' := Cleaner.CheckAndCleanAsWritten(m, dir, keep).1;
    if m' != m {
      var ks :| m' == Cleaner.Cleaned(m, dir, ks);
      forall q | q in m && !Under(dir, q) ensures q in m' {
        Cleaner.UnreachedUntouched(m, dir, ks, q);
      }
    }
  }

  /** Cleaning one library only deletes, and only below the library's output directory. */
  lemma CleanOneOnlyDeletes(m: map<Path, Node>, t: Tools, language: string, lib: Library)
    ensures var m' := CleanOne(m, t, language, lib).1;
      && (forall q | q in m' :: q in m && m'[q] == m[q])
      && (forall q | q in m && !Under(ToPath(lib.output), q) :: q in m')
  {
    if language == Dart {
      CheckAndCleanOnlyDeletes(m, ToPath(lib.output), lib.keep);
    } else if language != Java && language != Python && language != Go && language == Rust && t.rustKeep(lib).Ok? {
      CheckAndCleanOnlyDeletes(m, ToPath(lib.output), t.rustKeep(lib).value);
    }
  }

  /** The clean phase only deletes, and only below the output directories of the
      libraries it cleaned. */
  lemma {:induction false} CleanPhaseOnlyDeletes(m: map<Path, Node>, t: Tools, language: string, libs: seq<Library>)
    ensures var m' := CleanLibrariesSpec(m, t, language, libs).1;
      && (forall q | q in m' :: q in m && m'[q] == m[q])
      && (forall q | q in m && (forall i | 0 <= i < |libs| :: !Under(ToPath(libs[i].output), q)) :: q in m')
    decreases |libs|
  {
    if |libs| > 0 {
      var (e, m1) := CleanOne(m, t, language, libs[0]);
      CleanOneOnlyDeletes(m, t, language, libs[0]);
      CleanPhaseOnlyDeletes(m1, t, language, libs[1..]);
      forall q | q in m && (forall i | 0 <= i < |libs| :: !Under(ToPath(libs[i].output), q))
        ensures q in CleanLibrariesSpec(m, t, language, libs).1
      {
        assert !Under(ToPath(libs[0].output), q);
        assert forall i | 0 <= i < |libs[1..]| :: libs[1..][i] == libs[i + 1];
      }
    }
  }

  // ---------------------------------------------------------------------------
  // The methods
  // ---------------------------------------------------------------------------

  method GenerateCommand(fs: FileSystem, h: LanguageHooks, t: Tools, all: bool, name: string, read: Result<Config>)
    returns (err: Status)
    requires fs.Valid()
    modifies fs
    ensures fs.Valid()
    ensures (err, fs.entries) == CommandSpec(old(fs.entries), h, t, all, name, read)
  {
    if !all && name == "" {
      return Some(ErrMissingLibraryOrAllFlag);
    }
    if all && name != "" {
      return Some(ErrBothLibraryAndAllFlag);
    }
    if read.Err? {
      return Some(read.msg);
    }
    err := RunGenerate(fs, h, t, read.value, all, name);
  }

  method RunGenerate(fs: FileSystem, h: LanguageHooks, t: Tools, cfg: Config, all: bool, name: string)
    returns (err: Status)
    requires fs.Valid()
    modifies fs
    ensures fs.Valid()
    ensures (err, fs.entries) == RunGenerateSpec(old(fs.entries), h, t, cfg, all, name)
  {
    if cfg.sources.None? {
      return Some(ErrEmptySources);
    }
    var loaded := LoadSources(t, cfg);
    if loaded.Err? {
      return Some(loaded.msg);
    }
    var (dir, bundle) := loaded.value;
    var prepared := PrepareLibraries(h, cfg.language, cfg.libraries, cfg.defaults, all, name);
    if prepared.Err? {
      return Some(prepared.msg);
    }
    var libs := prepared.value;
    if |libs| == 0 {
      var msg := NothingSelectedError(cfg.libraries, all, name);
      return Some(msg);
    }
    err := RunPhases(fs, t, cfg, libs, dir, bundle);
  }

  method RunPhases(fs: FileSystem, t: Tools, cfg: Config, libs: seq<Library>, googleapisDir: string,
                   bundle: Option<Bundle>) returns (err: Status)
    requires fs.Valid()
    modifies fs
    ensures fs.Valid()
    ensures (err, fs.entries) == PhasesSpec(old(fs.entries), t, cfg, libs, googleapisDir, bundle)
  {
    err := CleanLibraries(fs, t, cfg.language, libs);
    if err.Some? {
      return;
    }
    err := GenerateLibraries(fs, t, cfg.language, libs, googleapisDir, bundle);
    if err.Some? {
      return;
    }
    err := FormatLibraries(fs, t, cfg.language, libs, cfg.defaults);
    if err.Some? {
      return;
    }
    err := PostGenerate(t, cfg.language);
  }

  method CleanLibraries(fs: FileSystem, t: Tools, language: string, libs: seq<Library>) returns (err: Status)
    requires fs.Valid()
    modifies fs
    ensures fs.Valid()
    ensures (err, fs.entries) == CleanLibrariesSpec(old(fs.entries), t, language, libs)
  {
    ghost var m := fs.entries;
    var i := 0;
    while i < |libs|
      invariant 0 <= i <= |libs|
      invariant fs.Valid()
      invariant CleanLibrariesSpec(m, t, language, libs) == CleanLibrariesSpec(fs.entries, t, language, libs[i..])
    {
      assert libs[i..][1..] == libs[i + 1..];
      err := CleanLibrary(fs, t, language, libs[i]);
      if err.Some? {
        return;
      }
      i := i + 1;
    }
    return None;
  }

  method CleanLibrary(fs: FileSystem, t: Tools, language: string, lib: Library) returns (err: Status)
    requires fs.Valid()
    modifies fs
    ensures fs.Valid()
    ensures (err, fs.entries) == CleanOne(old(fs.entries), t, language, lib)
  {
    if language == Dart {
      err := Cleaner.CheckAndClean(fs, ToPath(lib.output), lib.keep);
    } else if language == Java {
      JavaClean.Clean(fs, lib);
      err := None;
    } else if language == Python {
      err := t.pythonClean(lib);
    } else if language == Go {
      err := t.goClean(lib);
    } else if language == Rust {
      var keep := t.rustKeep(lib);
      if keep.Err? {
        return Some("library " + Quote(lib.name) + ": " + keep.msg);
      }
      err := Cleaner.CheckAndClean(fs, ToPath(lib.output), keep.value);
    } else {
      err := None;
    }
  }

  method GenerateLibraries(fs: FileSystem, t: Tools, language: string, libs: seq<Library>, googleapisDir: string,
                           bundle: Option<Bundle>) returns (err: Status)
    requires fs.Valid()
    modifies fs
    ensures fs.Valid()
    ensures (err, fs.entries) == GenerateLibrariesSpec(old(fs.entries), t, language, libs, googleapisDir, bundle)
  {
    if language == Java {
      err := JavaNaming.GenerateLibraries(fs, libs, googleapisDir, t.javaRun);
    } else if Supported(language) {
      var run := t.generate(language, libs, googleapisDir, bundle);
      fs.PlaceAll(run.1);
      err := run.0;
    } else {
      err := Some("language " + Quote(language) + " does not support generation");
    }
  }

  method FormatLibraries(fs: FileSystem, t: Tools, language: string, libs: seq<Library>, d: Option<Default>)
    returns (err: Status)
    ensures err == FormatLibrariesSpec(fs.entries, t, language, libs, d)
  {
    var i := 0;
    while i < |libs|
      invariant 0 <= i <= |libs|
      invariant FormatLibrariesSpec(fs.entries, t, language, libs, d) == FormatLibrariesSpec(fs.entries, t, language, libs[i..], d)
    {
      assert libs[i..][1..] == libs[i + 1..];
      if language == Python {
        return None;
      }
      if !Supported(language) {
        return Some("language " + Quote(language) + " does not support formatting");
      }
      var e;
      if language == Java {
        e := JavaNaming.Format(fs, libs[i], d, t.javaFormatter);
      } else {
        e := t.format(language, libs[i]);
      }
      if e.Some? {
        return e;
      }
      i := i + 1;
    }
    return None;
  }
}
