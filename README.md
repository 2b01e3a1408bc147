# librarian orchestration core, in Dafny

librarian generates Google Cloud client libraries from the API definitions in
googleapis. A language repository holds a `librarian.yaml` with its libraries and
workspace defaults. `librarian generate` resolves each library's configuration. It then
runs four phases over the selected libraries: clean, generate, format and postGenerate.
The `update-apis` command regenerates every API with new googleapis commits, one commit
per API, inside a language container. The Java language container turns protoc output
into Maven modules, writes their poms, and rewrites pom versions at release time.

This project models that orchestration layer and proves what it promises. The external
tools are parameters of the model: git, protoc, fetching, the per-language generators,
formatters, templates and the container runtime. Each such parameter is a function
returning success or an error. The file system is a tree of files and directories
addressed by path components (`Fs.FileSystem`). `filepath.WalkDir` visits that tree in
lexicographic order of the components. Error values are their message texts.

| module | file | models |
|---|---|---|
| `Config` | config.dfy | the librarian.yaml records the resolver reads and fills |
| `Resolver` | resolver.dfy | internal/librarian/library.go: defaults, per-language merges, output and API paths |
| `Cleaner` | cleaner.dfy | internal/librarian/clean.go: the two-pass keep-list cleaner |
| `Derivation`, `Dispatch` | derivation.dfy, dispatch.dfy | internal/librarian/generate.go: selection, LoadSources, the four phases |
| `JavaNaming`, `JavaClean`, `UnzipGuard` | java_naming.dfy, java_clean.dfy, unzip_guard.dfy | internal/librarian/java/generate.go: versions, protoc options, module names, Format, Clean/cleanPath, the unzip guard |
| `Clirr` | clirr.dfy | internal/librarian/java/clirr/clirr.go |
| `Update` | update.dfy | internal/command/command.go: update-apis, createCommitMessage, deriveImage, commitAll, push |
| `ContainerGenerate` | container_generate.dfy | internal/container/java/generate/generator.go |
| `Pom`, `PomUpdate`, `PomUpdateExamples` | pom.dfy, pom_update.dfy, pom_update_examples.dfy | internal/container/java/pom |
| `Release` | release.dfy | internal/container/java/release/release.go |
| `Bazel` | bazel.dfy | internal/config/bazel/parser.go over parsed rules |
| `UpdateTransports`, `ServiceConfig` | update_transports.dfy, api.dfy | internal/librarianops/update_transports.go and API.Transport |
| `Strs`, `Sorting`, `Outcome`, `Fs` | strs.dfy, sorting.dfy, outcome.dfy, fs.dfy | Go's strings, sort, error values and os/filepath, as far as the core uses them |

Every operation follows the Go code as written, with the external tools listed under
"Left out" standing in as parameters. That includes four behaviours that look
unintended; they are listed under Findings, each with a corrected form whose intended
property is proved beside it.

- **API-repository reset.** `update-apis` resets the API repository only after every
  API has succeeded (internal/command/command.go:345-348); a failed run leaves it as it
  is. `Update.ResetAndPushOnlyAfterEveryApi` states this.

Four other implementation choices are worth knowing.

- **Generation writes to the tree.** The generate phase of `librarian generate` changes
  the file tree and the format phase runs on the tree it leaves. Java's generation is
  modelled step by step: it creates the output directory and the
  <output>/<version>/{gapic,grpc,proto} directories, places the files protoc's run writes
  and, on success, removes <output>/<version>. The other generators report the files they
  wrote, and those are placed in the tree whether or not the generator failed.

- **Go panics.** Where the Go code dereferences nil, the model returns the
  error `Resolver.NilDereference` instead of stopping the program.
- **extractVersion.** The container's `extractVersion` (generator.go:97-105) is the
  same rule as the one in internal/librarian/java/generate.go. `ContainerGenerate` uses
  `JavaNaming.VersionOf` for it.
- **Library IDs.** `restructureOutput` adds "google-cloud-" to the library ID without
  checking for it, unlike java/generate.go. `ContainerGenerate.NoPrefixCheck` states
  this as written.

## Model

| member | source | states |
|---|---|---|
| ServiceConfig.TransportFallback | internal/serviceconfig/api.go:124-133 | the language's own entry wins, then the "all" entry, then "grpc+rest"; an empty (nil) map gives "grpc+rest" |
| ServiceConfig.TransportIsKnown | internal/serviceconfig/api.go:124-133 | when every configured value is grpc, rest or grpc+rest, so is every answer |
| ServiceConfig.OnlyAllAppliesEverywhere | internal/serviceconfig/api.go:128-139 | a map with only "all" (as for google/ads/admanager/v1) gives its value to every language |
| ServiceConfig.AiplatformExample | internal/serviceconfig/api.go:177 | for google/cloud/aiplatform/v1, java gets "grpc" and dart, which has no entry and no "all", gets "grpc+rest" |
| Resolver.MergeMaps | internal/librarian/library.go:221-228 | the merged map has the keys of both maps; the library (dst) value wins on a shared key and the default (src) value fills the others |
| Resolver.MergeDartDependencies | internal/librarian/library.go:135-154 | the loops return the comma-join of MergedDartDeps |
| Resolver.CollectDeps | internal/librarian/library.go:136-145 | the first loop keeps the trimmed, non-empty library dependencies in order, and `seen` is exactly their set |
| Resolver.UnseenDefaults | internal/librarian/library.go:146-152 | the second loop appends each trimmed, non-empty default that the library does not list, in order |
| Resolver.MergedDartDepsProperties | internal/librarian/library.go:135-154 | every merged element is trimmed and non-empty; the library's dependencies come first in their own order; every default is in the result; what follows the library's part are defaults the library does not list |
| Resolver.NotSeenElements | internal/librarian/library.go:146-152 | a default survives the `seen` filter exactly when it is not already seen (duplicates among defaults are kept) |
| Resolver.TrimmedElements | internal/librarian/library.go:138-144 | the kept pieces are non-empty and already trimmed |
| Resolver.MergePackageDependencies | internal/librarian/library.go:158-173 | the loops compute MergedPackageDeps |
| Resolver.MergedPackageDepsProperties | internal/librarian/library.go:158-173 | the library's dependencies come first and unchanged; what follows are defaults whose name no library dependency has; a default is in the result exactly when it is a library dependency or its name is not taken |
| Resolver.UnnamedElements | internal/librarian/library.go:165-171 | a default is kept exactly when its name is not among the library's dependency names |
| Resolver.LibraryDepShadowsDefault | internal/librarian/library.go:161-168 | a default whose name a library dependency has never appears after the library's part |
| Resolver.WithJavaDefaults | internal/librarian/library.go:58-72 | the Java record exists afterwards; each jar/plugin field keeps its own value, or takes the default when empty; nothing else in the library changes |
| Resolver.WithPythonDefaults | internal/librarian/library.go:125-131 | the default common GAPIC paths come first, then the library's; nothing else changes |
| Resolver.WithDartDefaults | internal/librarian/library.go:103-121 | version, API-key variable and issue tracker are filled when empty; packages, prefixes and protos are the merged maps; dependencies are the merged list; nothing but version and the Dart record changes |
| Resolver.FilledModule | internal/librarian/library.go:92-99 | a module's empty sample flags take the crate's values, its non-empty ones and its output stay |
| Resolver.WithRustDefaults | internal/librarian/library.go:75-101 | the Rust record exists; its package dependencies are the merged list; warnings are the default ones only when the library has none; sample flags are filled when empty and passed on to every module |
| Resolver.FillModules | internal/librarian/library.go:92-99 | the loop fills every module as FilledModule does, in place and in order |
| Resolver.FillRust | internal/librarian/library.go:75-101 | the method computes WithRustDefaults |
| Resolver.FillDart | internal/librarian/library.go:103-121 | the method computes WithDartDefaults |
| Resolver.WithDefaults | internal/librarian/library.go:27-56 | nil defaults return the library unchanged; keep entries are appended after the library's own; output, release level and transport are taken from the defaults only when empty; exactly one language merge runs, chosen in the order Rust, Dart, Python, Java |
| Resolver.FillDefaults | internal/librarian/library.go:27-56 | the method computes WithDefaults |
| Resolver.FillIfEmptyIdempotent | internal/librarian/library.go:34-42 | filling a second time from the same defaults leaves output, release level and transport as the first fill left them |
| Resolver.LibraryOutput | internal/librarian/library.go:178-195 | an explicit output wins; a veneer without one gets ""; otherwise the language's default output for the first API path (or the derived one), with the defaults' output or "" as base |
| Resolver.ApisWithPaths | internal/librarian/library.go:199-208 | an empty API list becomes one placeholder API; for a non-veneer every empty path is derived from the library name, and set paths are kept |
| Resolver.DeriveApiPaths | internal/librarian/library.go:203-207 | the loop fills every empty API path with the derived path and keeps the others |
| Resolver.ApplyDefaultsAsWritten | internal/librarian/library.go:198-216 | applyDefaults fails exactly when there is no output path and the library is a veneer (with "veneer %q requires an explicit output path") or there are no defaults (the nil dereference) |
| Resolver.Resolved | internal/librarian/library.go:198-216 | corrected: resolution fails exactly for a veneer without an output path, with "veneer %q requires an explicit output path"; nil defaults mean an empty default output |
| Resolver.ApplyDefaults | internal/librarian/library.go:198-216 | the method computes ApplyDefaultsAsWritten, the nil dereference included |
| Resolver.NilDefaultsPanicAsWritten | internal/librarian/library.go:209-214 | as written, a non-veneer without output and with nil defaults dereferences nil (Findings), while the corrected resolution succeeds |
| Resolver.AsWrittenAgreesWithDefaults | internal/librarian/library.go:198-216 | with non-nil defaults the corrected resolution is the code as written |
| Resolver.ResolvedOutputIsLibraryOutput | internal/librarian/library.go:178-214 | for every language except Go, the output applyDefaults gives on success is libraryOutput, or the defaults' output when that is empty |
| Resolver.ResolvedApisHavePaths | internal/librarian/library.go:199-208 | a non-veneer applyDefaults accepts has at least one API and no API with an empty path, when its derived path is not empty |
| Resolver.FindLibrary | internal/librarian/library.go:241-251 | a library is found exactly when one has the name; it is the first with that name; otherwise the error is "library not found: %q" |
| Derivation.ShouldGenerate | internal/librarian/generate.go:283-288 | a library with skip_generate is never selected; otherwise it is selected exactly under --all or when its name is the one asked for |
| Derivation.DeriveApiPath | internal/librarian/generate.go:272-281 | Dart and Rust use their own rule; every other language replaces each "-" of the name by "/" and keeps every other character |
| Derivation.DefaultOutput | internal/librarian/generate.go:259-270 | Dart, Rust and Python use their own rule; every other language returns the default output unchanged |
| Dispatch.FlagErrorsFirst | internal/librarian/generate.go:57-66 | neither a name nor --all fails with errMissingLibraryOrAllFlag and both fail with errBothLibraryAndAllFlag, whatever librarian.yaml holds, and nothing on disk changes |
| Dispatch.GenerateCommand | internal/librarian/generate.go:57-71 | the action's error and the file tree it leaves are those of CommandSpec |
| Dispatch.RunGenerate | internal/librarian/generate.go:75-123 | runGenerate's error and the tree it leaves are those of RunGenerateSpec: errEmptySources, then the source loading, the preparation loop, the empty-selection errors, then the phases |
| Dispatch.LoadSources | internal/librarian/generate.go:126-151 | without googleapis sources the error is "must specify --googleapis flag"; a configured Dir is used as it is; a source bundle exists exactly for Rust and Dart and points at the googleapis directory |
| Dispatch.DirIsNotFetched | internal/librarian/generate.go:131-139 | with Dir set the outcome does not depend on the fetcher at all |
| Dispatch.Selected | internal/librarian/generate.go:88-91 | the selection holds only libraries of the configuration that shouldGenerate accepts, and every such library |
| Dispatch.EmptySelection | internal/librarian/generate.go:88-98 | nothing is selected exactly when every library is skipped or, without --all, has another name |
| Dispatch.PrepareOkIff | internal/librarian/generate.go:88-97 | preparation succeeds exactly when applyDefaults, as written, accepts every selected library |
| Dispatch.PrepareValues | internal/librarian/generate.go:88-97 | a successful preparation yields, in order, applyDefaults' result for each selected library |
| Dispatch.PrepareErrorFromSelected | internal/librarian/generate.go:92-95 | a failed preparation returns the error of some selected library |
| Dispatch.PrepareLibraries | internal/librarian/generate.go:87-97 | the loop computes Prepare, applyDefaults on each selected library with the first failure returned |
| Dispatch.NothingSelectedError | internal/librarian/generate.go:98-107 | the search over the libraries returns the empty-selection error of NothingSelected |
| Dispatch.UnknownLibraryNotFound | internal/librarian/generate.go:98-107 | a name no library has gives "library not found: %q" and nothing on disk changes |
| Dispatch.SkippedLibraryReported | internal/librarian/generate.go:102-105 | a name whose libraries all skip generation gives "library has skip_generate set: %q" and nothing on disk changes |
| Dispatch.RunPhases | internal/librarian/generate.go:113-122 | the phases run as PhasesSpec: clean, generate on the cleaned tree, format on the generated tree, postGenerate, the first error ending the run |
| Dispatch.CleanLibraries | internal/librarian/generate.go:155-187 | the loop cleans library after library and returns the first error, as CleanLibrariesSpec |
| Dispatch.CleanLibrary | internal/librarian/generate.go:157-184 | one library is cleaned as CleanOne: the keep-list cleaner as written (a missing output directory fails with the lstat error) for Dart and Rust (Rust's keep error wrapped with the library name), the Java cleaner, the Python and Go cleaners, nothing otherwise |
| Dispatch.CleanLibrariesSpec | internal/librarian/generate.go:155-187 | a language without a cleaner neither fails nor changes anything |
| Dispatch.GenerateLibraries | internal/librarian/generate.go:191-207 | the method returns the error and leaves the tree of GenerateLibrariesSpec: Java's generation on the tree, the other generators' files placed |
| Dispatch.GenerateLibrariesSpec | internal/librarian/generate.go:191-207 | a language without a generator fails with "language %q does not support generation" and changes nothing |
| Dispatch.FormatLibraries | internal/librarian/generate.go:212-244 | the loop returns FormatLibrariesSpec |
| Dispatch.FormatLibrariesSpec | internal/librarian/generate.go:212-244 | Python returns nil at once; with at least one library, a language without a formatter fails with "language %q does not support formatting" |
| Dispatch.PostGenerate | internal/librarian/generate.go:248-257 | every language but Rust and the fake one succeeds without doing anything |
| Dispatch.UnsupportedLanguageFails | internal/librarian/generate.go:113-206 | for an unknown language cleaning does nothing and the run fails with the generation error, the tree unchanged |
| Dispatch.CleanUsesOnlyCleaners | internal/librarian/generate.go:155-187 | the clean phase depends only on the cleaners, never on the generators or formatters |
| Dispatch.CleanFailureStopsRun | internal/librarian/generate.go:113-115 | a clean failure ends the run with that error and the tree as cleaning left it; nothing later runs |
| Dispatch.GenerateFailureStopsRun | internal/librarian/generate.go:116-118 | a generation failure ends the run with that error and the tree generation left; the formatters and post-generation step are never called |
| Dispatch.JavaGeneratedOutputFound | internal/librarian/generate.go:116-121 | for Java, after generation succeeds the output directory of each library is in the tree format walks, unless a later library's <output>/<version> contained it |
| Dispatch.JavaFormatSeesGeneratedTree | internal/librarian/generate.go:113-122 | a Java run whose cleaning and generation succeed formats, and leaves, the tree generation left, and no library's formatting fails for want of its output directory |
| Dispatch.CheckAndCleanOnlyDeletes | internal/librarian/clean.go:28-138 | the keep-list cleaner only removes entries, never alters one, and touches nothing outside its directory |
| Dispatch.CleanOneOnlyDeletes | internal/librarian/generate.go:157-184 | cleaning one library only removes entries below its output directory |
| Dispatch.CleanPhaseOnlyDeletes | internal/librarian/generate.go:155-187 | the clean phase only removes entries, all below some selected library's output directory |
| Cleaner.Clean | internal/librarian/clean.go:71-138 | the two walks leave exactly `Cleaned`; a root that cannot be walked fails at once with the lstat error and changes nothing |
| Cleaner.DeleteFiles | internal/librarian/clean.go:72-94 | the first walk deletes exactly the reached files that are neither kept nor librarian.yaml, skipping .git, .github and .gemini |
| Cleaner.Pass1Step | internal/librarian/clean.go:83-90 | visiting one more entry in walk order deletes it exactly when it is an unkept, reached file |
| Cleaner.Pass1Done | internal/librarian/clean.go:73-91 | visiting every reached entry once, in walk order, gives the first pass's result whatever the order |
| Cleaner.DeleteFile | internal/librarian/clean.go:83-90 | one visited entry is removed exactly when the first pass deletes it, and nothing else changes |
| Cleaner.RemoveEmptyDirs | internal/librarian/clean.go:102-135 | the bottom-up loop removes exactly the listed, unkept directories all of whose descendants are also listed and unkept |
| Cleaner.Pass2Step | internal/librarian/clean.go:122-135 | one more directory from the end of the listing is removed exactly when it is such a directory |
| Cleaner.Pass2Done | internal/librarian/clean.go:121-135 | running through the whole listing backwards gives the second pass's result |
| Cleaner.RemoveDirIfEmpty | internal/librarian/clean.go:128-134 | a kept directory is skipped, and os.Remove succeeds on a directory exactly when it is empty by then |
| Cleaner.BelowRemovedComesLater | internal/librarian/clean.go:121-122 | everything below a removed directory is listed after it, so the reverse loop has already removed it |
| Cleaner.ListedLater | internal/librarian/clean.go:103-116 | in the lexicographic listing a directory's descendants come after it |
| Cleaner.BelowRemovedIsRemoved | internal/librarian/clean.go:96-135 | a directory below a removed one is itself removed |
| Cleaner.KeepSetMissing | internal/librarian/clean.go:51-55 | the first keep entry that does not exist is named in "keep file %q does not exist" |
| Cleaner.KeepSetComplete | internal/librarian/clean.go:50-66 | when every keep entry exists the keep set is exactly their paths relative to the directory |
| Cleaner.Check | internal/librarian/clean.go:39-67 | the method returns CheckSpec: nil for a missing directory, "cannot access output directory", "%q is not a directory", the first missing keep entry, or the keep set |
| Cleaner.MissingDirFailsAsWritten | internal/librarian/clean.go:40-76 | as written, a missing output directory passes check and then fails clean's walk with the lstat error |
| Cleaner.CheckAndClean | internal/librarian/clean.go:28-34 | the method returns CheckAndCleanAsWritten: check's error with nothing changed, otherwise clean with the keep set (empty for a missing directory, whose walk then fails) |
| Cleaner.AsWrittenAgreesUnlessMissing | internal/librarian/clean.go:28-76 | checkAndClean as written and the corrected cleaner give the same error and tree exactly when the output directory exists in some form |
| Cleaner.MissingDirIsNoOp | internal/librarian/clean.go:25-44 | corrected: a missing output directory succeeds and changes nothing |
| Cleaner.MissingKeepDeletesNothing | internal/librarian/clean.go:29-55 | a missing keep entry fails before anything is deleted |
| Cleaner.FileSurvivesIffKept | internal/librarian/clean.go:83-90 | a reached file survives exactly when it is kept or is librarian.yaml |
| Cleaner.UnreachedUntouched | internal/librarian/clean.go:77-110 | entries outside the directory or inside .git, .github or .gemini are untouched |
| Cleaner.RootSurvives | internal/librarian/clean.go:111-113 | the output directory itself is never removed |
| Cleaner.KeptSurvives | internal/librarian/clean.go:87-134 | a kept entry and every directory on the way down to it survive |
| Cleaner.CleanedIsTree | internal/librarian/clean.go:96-135 | cleaning never leaves an entry whose parent directory was removed |
| Cleaner.CleanIdempotent | internal/librarian/clean.go:71-138 | cleaning a cleaned directory again changes nothing |
| JavaClean.Toks | internal/librarian/java/generate.go:482 | a literal fragment of the integration-test regular expression keeps every character, and each "/" becomes the class `[/\\]` |
| JavaClean.ToksMatch | internal/librarian/java/generate.go:482 | a literal fragment matches its own text |
| JavaClean.ToksMatchOnly | internal/librarian/java/generate.go:482 | a literal fragment without "/" matches only its own text |
| JavaClean.StarMatch | internal/librarian/java/generate.go:482 | `.*` matches any text without a newline |
| JavaClean.ITMatchesTestPath | internal/librarian/java/generate.go:480-482 | every path google-cloud-*/src/test/java/com/google/cloud/*/v*/it/IT*Test.java (no newlines) is spared as an integration test |
| JavaClean.MatchEndsInLiteral | internal/librarian/java/generate.go:482 | the `$` anchor: any text the pattern finds ends in the pattern's final literal |
| JavaClean.ITMatchEndsInTest | internal/librarian/java/generate.go:482 | only paths ending in "Test.java" are spared as integration tests |
| JavaClean.MatchesUnanchored | internal/librarian/java/generate.go:482 | the pattern is not anchored at the start: a prefix never stops a match |
| JavaClean.KeptRel | internal/librarian/java/generate.go:475-515 | an entry under the output directory is kept exactly when its relative path is in the keep list |
| JavaClean.CleanPathSpec | internal/librarian/java/generate.go:498-540 | cleanPath only removes entries and touches nothing outside the target |
| JavaClean.CleanPath | internal/librarian/java/generate.go:498-540 | the walk and the bottom-up loop leave exactly CleanPathSpec |
| JavaClean.DeleteAndCollect | internal/librarian/java/generate.go:499-526 | the walk deletes exactly the unspared files it reaches and collects, in walk order, the directories it enters |
| JavaClean.WalkResult | internal/librarian/java/generate.go:500-523 | after the whole walk the tree and the collected directories are as specified, whatever the walk order |
| JavaClean.WalkStep | internal/librarian/java/generate.go:500-523 | visiting one more entry deletes it exactly when it is to be deleted |
| JavaClean.WalkEntries | internal/librarian/java/generate.go:500-523 | the loop over the walk leaves the tree and the directory list of the walk so far |
| JavaClean.Visit | internal/librarian/java/generate.go:504-522 | a directory outside .git, .github and .gemini is collected; a file is removed exactly when it is not spared |
| JavaClean.WalkComplete | internal/librarian/java/generate.go:500-523 | after the walk exactly the deleted entries are gone |
| JavaClean.DirsOfMembers | internal/librarian/java/generate.go:504-509 | the collected directories are exactly the walked ones that are entered |
| JavaClean.DirsOfIncreasing | internal/librarian/java/generate.go:508 | directories are collected in walk order |
| JavaClean.DirsOfListing | internal/librarian/java/generate.go:499-509 | the collected list is sorted and holds exactly the entered directories |
| JavaClean.DeleteUnspared | internal/librarian/java/generate.go:511-522 | a file is spared when kept, when the integration-test pattern matches its path or when it is clirr-ignored-differences.xml, and removed otherwise |
| JavaClean.RemoveCollected | internal/librarian/java/generate.go:528-538 | the reverse loop removes exactly the unkept directories whose contents were all removable |
| JavaClean.RemovalStep | internal/librarian/java/generate.go:529-537 | one more directory from the end is removed exactly when it is removable |
| JavaClean.RemovalDone | internal/librarian/java/generate.go:528-538 | running through the whole list backwards gives the specified tree |
| JavaClean.RemoveIfNotKept | internal/librarian/java/generate.go:530-537 | a kept directory is skipped; os.Remove succeeds exactly when the directory is empty by then |
| JavaClean.BelowRemovedComesLater | internal/librarian/java/generate.go:528-538 | everything below a removed directory comes later in the list, so it is already gone |
| JavaClean.Patterns | internal/librarian/java/generate.go:468-473 | four patterns, the third being the main module itself |
| JavaClean.GlobIn | internal/librarian/java/generate.go:485 | a prefix pattern lists, in sorted order, exactly the output directory's entries with that prefix; a literal pattern lists its path exactly when it exists |
| JavaClean.CleanTargets | internal/librarian/java/generate.go:489-493 | cleaning the matches only removes entries, all below some match |
| JavaClean.CleanGlobs | internal/librarian/java/generate.go:484-494 | the pattern loop only removes entries below the output directory |
| JavaClean.Clean | internal/librarian/java/generate.go:462-496 | the method leaves exactly CleanSpec: each pattern globbed and each match cleaned in turn |
| JavaClean.CleanAll | internal/librarian/java/generate.go:484-494 | the loop over the patterns leaves CleanGlobs |
| JavaClean.GlobFiles | internal/librarian/java/generate.go:485 | the method returns GlobIn |
| JavaClean.CleanMatches | internal/librarian/java/generate.go:489-493 | the loop over the matches leaves CleanTargets |
| JavaClean.CleanPathFile | internal/librarian/java/generate.go:511-522 | a reached file survives cleanPath exactly when it is spared |
| JavaClean.CleanPathDirSurvives | internal/librarian/java/generate.go:505-537 | kept and control directories survive |
| JavaClean.CleanPathIdempotent | internal/librarian/java/generate.go:498-540 | cleaning a cleaned path again changes nothing |
| JavaClean.SparedSurvivesTargets | internal/librarian/java/generate.go:489-521 | a spared file survives the cleaning of any list of matches |
| JavaClean.SparedSurvivesGlobs | internal/librarian/java/generate.go:484-494 | a spared file survives every pattern |
| JavaClean.SparedSurvivesClean | internal/librarian/java/generate.go:462-496 | Clean never removes a kept file, an integration test or a clirr baseline |
| JavaClean.PrefixMissesModule | internal/librarian/java/generate.go:469-470 | the proto- and grpc- patterns never reach the main module |
| JavaClean.MainModuleFiles | internal/librarian/java/generate.go:468-496 | a file of the main module survives exactly when it is spared |
| JavaClean.ModuleAfterGlobs | internal/librarian/java/generate.go:484-494 | the same, for any pattern list of that shape |
| JavaClean.ModuleStep | internal/librarian/java/generate.go:471-493 | once the main module pattern is reached, its files survive exactly when spared |
| JavaClean.CleanMainModule | internal/librarian/java/generate.go:462-496 | with the "google-cloud-" prefix added, a file of the main module survives Clean exactly when it is kept, an integration test or a clirr baseline |
| JavaNaming.VersionInMeaning | internal/librarian/java/generate.go:183-191 | the version is "" exactly when no segment starts with "v"; otherwise it is a segment starting with "v" with none after it |
| JavaNaming.ExtractVersion | internal/librarian/java/generate.go:183-191 | the method returns the last "/"-separated segment of the path that starts with "v" |
| JavaNaming.LastVersionSegment | internal/librarian/java/generate.go:185-190 | the backwards loop returns that segment, or "" |
| JavaNaming.ModuleName | internal/librarian/java/generate.go:254-257 | the module name always starts with "google-cloud-", adding it only when missing |
| JavaNaming.ModuleNameIdempotent | internal/librarian/java/generate.go:254-257 | adding the prefix twice is the same as once |
| JavaNaming.ModuleNamesDistinct | internal/librarian/java/generate.go:261-263 | the proto and grpc module names differ and both end in "-" + version |
| JavaNaming.EffectiveTransport | internal/librarian/java/generate.go:133-136 | an empty transport becomes "grpc+rest"; any other is kept |
| JavaNaming.GapicOptions | internal/librarian/java/generate.go:146-172 | "metadata" first; api-service-config present exactly when a service config is found, grpc-service-config exactly when a gRPC config is found; transport and rest-numeric-enums last |
| JavaNaming.ProtocOptions | internal/librarian/java/generate.go:127-181 | a service-config lookup error, then a gRPC-config lookup error, is returned; otherwise --java_out first, --java_grpc_out exactly when the transport is not "rest", then --java_gapic_out and --java_gapic_opt with the joined options |
| JavaNaming.GrpcFlagDistinct | internal/librarian/java/generate.go:130-178 | the --java_grpc_out flag is never mistaken for one of the other three |
| JavaNaming.GenerateSpec | internal/librarian/java/generate.go:45-67 | a library without APIs fails with "no apis configured for library %q" and changes nothing; an output directory that cannot be created fails with "failed to create output directory" and changes nothing |
| JavaNaming.GenerateSucceeds | internal/librarian/java/generate.go:45-67 | generate succeeds exactly when the library has APIs, its output directory can be created and every API generates on the tree the earlier APIs left |
| JavaNaming.MkdirAllEachMeaning | internal/librarian/java/generate.go:75-82 | when the gapic, grpc and proto directories are all created each is a directory afterwards; otherwise the error is os.MkdirAll's for one of them |
| JavaNaming.GenerateOneApi | internal/librarian/java/generate.go:69-122 | the method leaves GenerateApi: a path without a version fails; the gapic, grpc and proto directories are created, the protoc options computed, the protos globbed ("failed to find protos", "no protos found in api %q"), protoc's files placed, and on success <outdir>/<version> removed |
| JavaNaming.ProtocCommand | internal/librarian/java/generate.go:96-99 | the command line is protoc with the proto3-optional flag and the include of googleapis, then the protos, the common resources proto, then the options |
| JavaNaming.ProtocGetsOptions | internal/librarian/java/generate.go:69-112 | once the version directories exist and every step before protoc succeeds, protoc runs with exactly createProtocOptions' options for the three version directories, asking for gRPC stubs exactly when the transport is not "rest", and its error is the API's error |
| JavaNaming.NoProtosFails | internal/librarian/java/generate.go:87-95 | an API directory without protos fails with "no protos found in api %q" whatever protoc would do, leaving only the created version directories |
| JavaNaming.LookupErrorStopsApi | internal/librarian/java/generate.go:83-86 | a service-config lookup error is the API's error unchanged, neither the glob nor protoc is consulted, and only the version directories were created |
| JavaNaming.GenerateApiKeeps | internal/librarian/java/generate.go:69-122 | generating one API keeps the tree a tree and removes no directory outside its <outdir>/<version> |
| JavaNaming.GenerateKeeps | internal/librarian/java/generate.go:45-67 | generating a library keeps the tree a tree and every directory outside the <output>/<version> directories of its APIs |
| JavaNaming.GenerateLeavesOutputDir | internal/librarian/java/generate.go:58-67 | a library that generates without error leaves its output directory in the tree |
| JavaNaming.Generate | internal/librarian/java/generate.go:45-67 | the method leaves GenerateSpec: the output directory created, then the APIs generated in order until the first failure, wrapped with the API path |
| JavaNaming.GenerateLibrariesSpec | internal/librarian/java/generate.go:35-42 | success exactly when every library generates on the tree the earlier ones left; a failure is some library's error on that tree; on success the tree is the one the last library left |
| JavaNaming.GenerateLibraries | internal/librarian/java/generate.go:35-42 | the loop leaves GenerateLibrariesSpec |
| JavaNaming.LibrariesKeep | internal/librarian/java/generate.go:35-42 | generating the libraries keeps the tree a tree and every directory no library's <output>/<version> contains |
| JavaNaming.GeneratedOutputsExist | internal/librarian/java/generate.go:35-67 | after every library generates, each library's output directory is in the tree unless a later library's <output>/<version> contained it |
| JavaNaming.MissingVersionFails | internal/librarian/java/generate.go:58-73 | once the output directory exists, the first API without a version segment fails the library with "failed to generate api %q: failed to extract version from api path %q" |
| JavaNaming.FormatFailsInFormatter | internal/librarian/java/generate.go:422-458 | when the output directory exists, Format fails only with "formatting failed: " and the formatter's error |
| JavaNaming.Strings | internal/librarian/java/generate.go:442-451 | the formatter is given each path's text, in order |
| JavaNaming.Format | internal/librarian/java/generate.go:422-458 | the method returns FormatSpec: nothing when the library opts out or no formatter jar is set, the walk error, nothing without files, else the formatter's error wrapped in "formatting failed" |
| JavaNaming.CollectJavaFiles | internal/librarian/java/generate.go:430-444 | the walk collects exactly the .java files outside samples/snippets/generated, in walk order |
| JavaNaming.KeptStep | internal/librarian/java/generate.go:435-442 | one more walked entry is appended exactly when it is such a file |
| JavaNaming.KeptListing | internal/librarian/java/generate.go:431-444 | the collected files stay in walk order and are exactly the walked formattable files |
| JavaNaming.KeptIsFormatFiles | internal/librarian/java/generate.go:431-444 | walking the whole output directory collects FormatFiles |
| JavaNaming.GeneratedSamplesNotFormatted | internal/librarian/java/generate.go:438-441 | nothing under samples/snippets/generated is formatted |
| UnzipGuard.CleanParts | internal/librarian/java/generate.go:201 | filepath.Join's cleaning of an entry name on top of a clean destination yields clean components |
| UnzipGuard.Joined | internal/librarian/java/generate.go:201 | the joined entry path is made of clean components |
| UnzipGuard.CheckEntry | internal/librarian/java/generate.go:203-205 | no error exactly when the joined path starts with the cleaned destination and a separator; otherwise "illegal file path: " and the joined path |
| UnzipGuard.JoinPrefix | internal/librarian/java/generate.go:203 | the string prefix test on joined components is the component prefix test |
| UnzipGuard.EntryAllowedIffBelow | internal/librarian/java/generate.go:201-205 | an entry is accepted exactly when its joined path lies strictly below the destination |
| UnzipGuard.CleanPartsExtends | internal/librarian/java/generate.go:201 | without "..", cleaning only appends to the destination, and appends nothing exactly when every element is "" or "." |
| UnzipGuard.NoDotDotAccepted | internal/librarian/java/generate.go:201-205 | an entry name without ".." is accepted exactly when it names something other than the destination itself |
| UnzipGuard.ParentEntryRejected | internal/librarian/java/generate.go:201-205 | the entry ".." is rejected, and the message names the destination's parent |
| Update.Filter | internal/command/command.go:447-454 | the PiperOrigin-RevId lines are set aside and every other line is written, each keeping its order |
| Update.Reversed | internal/command/command.go:441-444 | the commits are consumed oldest first |
| Update.SourceLinks | internal/command/command.go:446 | one Source-Link line per commit, in that order, naming its hash |
| Update.CreateCommitMessage | internal/command/command.go:436-466 | the builder loop returns CommitMessage: the other lines, then the RevId lines, then the Source-Link lines, each line ended by a newline |
| Update.NextCommit | internal/command/command.go:443-456 | consuming one more commit appends its lines and its Source-Link |
| Update.ConsumeMessage | internal/command/command.go:445-455 | one commit's lines go to the builder or to the RevId list by their prefix |
| Update.SetAsideLine | internal/command/command.go:448-449 | a RevId line joins the RevId list and is not written |
| Update.WriteLine | internal/command/command.go:450-453 | any other line is written followed by a newline |
| Update.FilterNext | internal/command/command.go:447-454 | one more line lands in exactly one of the two lists |
| Update.WriteLines | internal/command/command.go:457-464 | writing a list of lines appends each with its newline |
| Update.TerminatedSnoc | internal/command/command.go:451-452 | a written line is followed by exactly one newline |
| Update.SplitTerminated | internal/command/command.go:436-466 | splitting newline-terminated lines at "\n" gives the lines back, and a final "" |
| Update.MessageLinesHaveNoNewline | internal/command/command.go:445 | the pieces of a message split at "\n" contain no newline |
| Update.MessageRoundTrip | internal/command/command.go:436-466 | splitting the message at "\n" recovers exactly the other lines, the RevId lines and the Source-Link lines in order |
| Update.NewestLinkLast | internal/command/command.go:443-464 | the message ends with the Source-Link of the newest commit |
| Update.FilterPartition | internal/command/command.go:447-454 | every line of every message lands in exactly one of the two lists |
| Update.DeriveImage | internal/command/command.go:468-487 | the -image flag wins; otherwise google-cloud-<language>-generator with the state's tag ("latest" without a state), prefixed by LIBRARIAN_REPOSITORY and "/" when that is set |
| Update.CommitAllSpec | internal/command/command.go:549-562 | an AddAll error is returned; a clean tree commits nothing; otherwise one commit with the message |
| Update.Recorded | internal/command/command.go:407 | only the API's last generated commit changes, to the given hash |
| Update.RunAllPrefix | internal/command/command.go:393-405 | running steps in order performs a prefix of them, all of them exactly when none fails, and a failure is the last step's error |
| Update.UpdateApiSpec | internal/command/command.go:369-434 | every branch keeps the number of APIs |
| Update.UpdateApisSpec | internal/command/command.go:339-344 | the loop keeps the number of APIs |
| Update.ApiRepoSetup | internal/command/command.go:254-280 | the API repository is left unreset only when it was opened from -api-root and was not clean |
| Update.LanguageRepoSetupAsWritten | internal/command/command.go:296-318 | as written: an opened language repository is rejected with "language repo must be clean before update" exactly as the API repository's cleanliness says; success means the language repository was obtained and, under a repository root, the API repository is clean |
| Update.LanguageRepoSetup | internal/command/command.go:296-318 | corrected: an opened language repository with changes fails with "language repo must be clean before update"; success means it was cloned or is clean |
| Update.DirtyLanguageRepoAcceptedAsWritten | internal/command/command.go:311-317 | as written, a dirty language repository is accepted when the API repository is clean, which the corrected check rejects |
| Update.PushSpec | internal/command/command.go:564-581 | a push with a token pushes branch librarian-<timestamp> and, if that worked, opens a pull request titled "feat: API regeneration: <timestamp>" |
| Update.UpdateApisStep | internal/command/command.go:339-344 | the loop runs one API, stops on its error, else goes on from its state |
| Update.SkippedApiUntouched | internal/command/command.go:370-386 | an API filtered out by -api-path, blocked, or without new commits is left alone: no error, no action, the same state |
| Update.UpdateApiChangesOnlyItsCommit | internal/command/command.go:369-434 | updating API i changes no other API, no id, no automation level and no image tag |
| Update.NewCommitsState | internal/command/command.go:392-434 | the state is either unchanged or records the newest commit for that API |
| Update.UpdateFollowsPipeline | internal/command/command.go:392-434 | an API with new commits performs a prefix of mkdir, generate, clean, copy, save, commit (unless nothing to commit), build; all of it exactly when it succeeds; once saved, the state records commits[0] |
| Update.PipelineParts | internal/command/command.go:392-425 | the pipeline's steps come in that order and the save comes after the four preparation steps |
| Update.ResetAndPushOnlyAfterEveryApi | internal/command/command.go:338-365 | the API repository is reset, or a branch pushed, only after every API updated without error |
| Update.NoFinishActions | internal/command/command.go:339-344 | the update loop itself never resets or pushes |
| Update.UpdateApiActions | internal/command/command.go:369-434 | one API update never resets or pushes |
| Update.PushOnlyWhenHeadMoved | internal/command/command.go:241-365 | a push happens only with -push and a token, and only when the language repository's head moved; the branch is librarian-<timestamp> |
| Update.FinishPushes | internal/command/command.go:346-365 | the same for the part after the loop |
| Update.Updater.Perform | internal/command/command.go:393-425 | one action is recorded and its outcome returned; the state is unchanged |
| Update.Updater.PerformAll | internal/command/command.go:393-405 | the actions performed and the error are RunAll's |
| Update.Updater.CommitAll | internal/command/command.go:549-562 | the actions and error are CommitAllSpec's |
| Update.Updater.UpdateApi | internal/command/command.go:369-434 | the error, actions and new state are UpdateApiSpec's |
| Update.Updater.UpdateWithCommits | internal/command/command.go:392-434 | the error, actions and new state are NewCommitsSpec's |
| Update.Updater.UpdateApis | internal/command/command.go:339-344 | the loop's error, actions and state are the API loop's |
| Update.Updater.UpdateNext | internal/command/command.go:340-343 | one more API advances the loop as specified, or ends it with that API's error |
| Update.Updater.Push | internal/command/command.go:564-581 | the error and actions are PushSpec's |
| Update.Updater.Finish | internal/command/command.go:346-365 | the error and actions are FinishSpec's |
| Update.Updater.Run | internal/command/command.go:236-366 | the error and every action of the run are RunSpec's: the language and token checks, repository setup as written, state load, generator-input copy, the API loop, then the reset and push |
| Bazel.RulesOfMeaning | internal/config/bazel/parser.go:77-131 | f.Rules(kind) lists only rules of that kind from the file, and is non-empty exactly when the file has one |
| Bazel.FirstRuleOf | internal/config/bazel/parser.go:77-98 | rules[0] is the first rule of that kind in the file |
| Bazel.TrimPrefix | internal/config/bazel/parser.go:84 | strings.TrimPrefix removes the prefix exactly when it is there and leaves the text unchanged otherwise |
| Bazel.FindLegacyGrpc | internal/config/bazel/parser.go:98-104 | the loop finds the legacy gRPC compiler exactly when some compiler names it |
| Bazel.ConfigOfMeaning | internal/config/bazel/parser.go:76-114 | both go_grpc_library and go_proto_library fail with "BUILD.bazel cannot have both ..."; a GAPIC rule without importpath, then without service_yaml, fails; otherwise the config has the GAPIC rule's fields (or none), HasGoGRPC exactly with go_grpc_library, HasLegacyGRPC exactly when the first go_proto_library names the legacy compiler |
| Bazel.Parse | internal/config/bazel/parser.go:66-115 | a read error and a parse error are wrapped with the path; a parsed file gives ConfigOf of its go_gapic_library, go_grpc_library and go_proto_library rules |
| Bazel.ServiceYamlLabelStripped | internal/config/bazel/parser.go:84 | a service_yaml label ":x" yields "x" |
| Bazel.BooleanFlagsNeedTrueToken | internal/config/bazel/parser.go:86-88 | metadata, rest_numeric_enums and diregapic are set exactly when the attribute is the literal True |
| Bazel.RuleLanguagesDistinct | internal/config/bazel/parser.go:142-150 | no two rule kinds map to the same language, so the order the map is iterated in does not matter |
| Bazel.LastTransportMeaning | internal/config/bazel/parser.go:131-137 | a language gets no entry exactly when none of its rules has a transport; otherwise the last rule with one wins |
| Bazel.TransportsUpToReports | internal/config/bazel/parser.go:129-138 | after any number of kinds, each reports its last non-empty transport, only their languages appear, and no value is empty |
| Bazel.ParseTransports | internal/config/bazel/parser.go:119-140 | read and parse errors are wrapped with the path; a parsed file gives the map built over all seven rule kinds |
| Bazel.CollectTransports | internal/config/bazel/parser.go:129-138 | the loop over the rule kinds builds that map |
| Bazel.TransportsStep | internal/config/bazel/parser.go:130-137 | one more rule kind updates the map as specified |
| Bazel.ParsedTransportsMeaning | internal/config/bazel/parser.go:119-150 | each of the seven rule kinds reports its last non-empty transport under its language, no other key appears, and no value is empty |
| Bazel.NotYetReported | internal/config/bazel/parser.go:130-137 | a language is not in the map before its rule kind is visited |
| Bazel.KindAdded | internal/config/bazel/parser.go:130-137 | visiting one more rule kind keeps the earlier kinds' entries and adds its own |
| Bazel.AddKind | internal/config/bazel/parser.go:131-137 | the loop over one kind's rules stores its last non-empty transport |
| UpdateTransports.TrimQuotes | internal/librarianops/update_transports.go:101 | strings.Trim(value, "\"") leaves no quote at either end |
| UpdateTransports.TrimQuotesOfQuote | internal/librarianops/update_transports.go:101 | trimming a quoted path without quotes at its ends gives the path back |
| UpdateTransports.TransportsIndex | internal/librarianops/update_transports.go:89-107 | -1 when no field is keyed Transports; otherwise the index of the last such field |
| UpdateTransports.ScanFields | internal/librarianops/update_transports.go:88-107 | the field loop returns the Path (from the last string Path field) and the Transports index |
| UpdateTransports.CollapseOver | internal/librarianops/update_transports.go:128-149 | the loop yields {"all": first non-empty value} exactly when the map has as many entries as languages, every language is present and from the first non-empty value on all are equal; otherwise the map unchanged |
| UpdateTransports.Collapse | internal/librarianops/update_transports.go:128-149 | the same over allLanguages |
| UpdateTransports.FirstNonEmptyIsFirst | internal/librarianops/update_transports.go:138-139 | when the first language's value is non-empty it is the shared value |
| UpdateTransports.CollapsePreservesLookup | internal/librarianops/update_transports.go:128-149 | for every language of allLanguages, Transport answers the same on the collapsed map as on the map parsed from BUILD.bazel |
| UpdateTransports.CollapsibleKeys | internal/librarianops/update_transports.go:129-145 | a collapsible map has exactly the seven languages as keys |
| UpdateTransports.CollapseWidensToOtherLanguages | internal/librarianops/update_transports.go:147-149 | after the collapse a language outside allLanguages (dart, rust) gets the shared value instead of grpc+rest |
| UpdateTransports.RenderedEntries | internal/librarianops/update_transports.go:165-176 | one key-value entry per key |
| UpdateTransports.RenderEntries | internal/librarianops/update_transports.go:165-176 | the loop renders the entries, in key order, with the keys as written ("lang" + the capitalised language for a language with a constant, the quoted language otherwise) |
| UpdateTransports.RenderKeyRoundTrip | internal/librarianops/update_transports.go:167-170 | a rendered key (constant or string literal) evaluates back to its language |
| UpdateTransports.DeclaredIdent | internal/librarianops/update_transports.go:203-209 | every language with a constant has one named "Lang" + the capitalised language, holding that language |
| UpdateTransports.AsWrittenKeyUndeclared | internal/librarianops/update_transports.go:167 | as written, the key identifier "lang..." names no declared constant |
| UpdateTransports.RenderedEntriesRoundTrip | internal/librarianops/update_transports.go:165-176 | entries rendered with evaluable keys denote exactly the map restricted to the keys |
| UpdateTransports.EntryRoundTrip | internal/librarianops/update_transports.go:172-175 | one more entry adds its key and value |
| UpdateTransports.RenderMapRoundTrip | internal/librarianops/update_transports.go:152-176 | the corrected literal, with keys in sorted order, denotes exactly the transports map |
| UpdateTransports.AsWrittenLiteralRejected | internal/librarianops/update_transports.go:158-176 | as written, a literal with a language constant key denotes no map, and its value type is string rather than Transport |
| UpdateTransports.SortedKeys | internal/librarianops/update_transports.go:152-156 | the keys of the map exactly, in ascending order |
| UpdateTransports.UpdateEntry | internal/librarianops/update_transports.go:83-187 | the method computes UpdatedEntry: entries without a string Path, a BUILD.bazel file, a parse or transports are skipped; otherwise the collapsed, sorted literal as written replaces the Transports field or is appended |
| UpdateTransports.RenderTransports | internal/librarianops/update_transports.go:152-181 | the new Transports field holds the literal as written, map[string]string, of the map's sorted keys |
| UpdateTransports.CorrectingAsWritten | internal/librarianops/update_transports.go:158-176 | capitalising the "lang" key identifiers and giving the literal the Transport value type turns the literal as written into the intended one |
| UpdateTransports.UpdatedEntryTransports | internal/librarianops/update_transports.go:109-187 | an updated entry keeps every other field, has exactly one more field only when it had no Transports, and its Transports field, as written, denotes no map, while the corrected field answers each of the seven languages as the BUILD.bazel file does |
| UpdateTransports.ParsedLookup | internal/librarianops/update_transports.go:118-149 | for the seven languages, Transport on the collapsed map equals Transport on the parsed map |
| UpdateTransports.ReplacedField | internal/librarianops/update_transports.go:183-187 | the Transports field is replaced in place, or appended; other fields keep their places |
| UpdateTransports.UntouchedEntries | internal/librarianops/update_transports.go:109-126 | an entry without a Path, without a BUILD.bazel file, with a failed parse or with no transports is left unchanged |
| UpdateTransports.RenderedKeysAscending | internal/librarianops/update_transports.go:156-165 | the keys of the corrected literal evaluate to strictly ascending languages |
| UpdateTransports.ApisLiteral.UpdateAll | internal/librarianops/update_transports.go:83-188 | each entry of the APIs literal is replaced by its update, the literal as written; none is added, removed or moved |
| ContainerGenerate.DestinationsOutsideIntermediate | internal/container/java/generate/generator.go:162-167 | every module destination of a version lies outside the intermediate `<out>/<version>` directory the deferred cleanup removes |
| ContainerGenerate.SourcesInsideIntermediate | internal/container/java/generate/generator.go:156-160 | every generated source directory lies below the intermediate directory of its version |
| ContainerGenerate.MergePairsDisjoint | internal/container/java/generate/generator.go:206-219 | the source and destination of every copyAndMerge call are disjoint, so no merge moves a tree into itself |
| ContainerGenerate.VersionedModulesDistinct | internal/container/java/generate/generator.go:164-166 | the proto and grpc module names of two different versions differ, and a proto module never equals a grpc module |
| ContainerGenerate.NoPrefixCheck | internal/container/java/generate/generator.go:162-163 | the gapic module name prepends "google-cloud-" without checking for it, so "google-cloud-speech" becomes "google-cloud-google-cloud-speech" |
| ContainerGenerate.Generate | internal/container/java/generate/generator.go:44-60 | the error and the steps of the command are those of the APIs run in order up to the first failure followed by pom generation |
| ContainerGenerate.ApisRunStops | internal/container/java/generate/generator.go:47-51 | once an API fails, the APIs after it change neither the error nor the steps |
| ContainerGenerate.CleanupAlwaysLast | internal/container/java/generate/generator.go:62-95 | an API without a version is skipped with no steps; otherwise protoc runs first and the removal of the intermediate directory is the last step and happens exactly once, whichever step fails |
| ContainerGenerate.ApisRunOk | internal/container/java/generate/generator.go:47-51 | the API loop succeeds exactly when every API succeeds |
| ContainerGenerate.PomsOnlyAfterAllApis | internal/container/java/generate/generator.go:44-60 | the poms are generated exactly when every API succeeded, and as the last step |
| ContainerGenerate.NoPomsInApis | internal/container/java/generate/generator.go:47-51 | processing the APIs never generates poms |
| ContainerGenerate.FirstFailureStops | internal/container/java/generate/generator.go:47-51 | the first failing API's error is the command's error and nothing after it runs |
| ContainerGenerate.CopyAndMerge | internal/container/java/generate/generator.go:225-251 | the outcome and the new tree are those of merging every entry below the source in walk order until the first failure; a missing source is no error and changes nothing |
| ContainerGenerate.MergeEntry | internal/container/java/generate/generator.go:235-248 | a directory entry is created below the destination, a file entry renamed there; failure leaves the tree as it was |
| ContainerGenerate.MoveFile | internal/container/java/generate/generator.go:244-247 | the rename succeeds exactly when it can, moves the file and nothing else, and its error starts "librariangen: failed to move" with both paths |
| ContainerGenerate.MergeEntries | internal/container/java/generate/generator.go:230-250 | the listed entries are merged in order, stopping at the first failure |
| ContainerGenerate.FailureStops | internal/container/java/generate/generator.go:236-248 | once one entry fails, later entries change nothing |
| ContainerGenerate.MergeStepsMoves | internal/container/java/generate/generator.go:230-250 | after a successful merge of distinct entries every file has moved to the matching place below the destination with its content and every directory has its counterpart |
| ContainerGenerate.CopyAndMergeMoves | internal/container/java/generate/generator.go:225-251 | after a successful copyAndMerge of a directory every file below the source is at the same place below the destination with its content, every directory below the source is still there and has its counterpart, and everything else outside the destination is unchanged |
| Pom.FindModules | internal/container/java/pom/pom.go:68-102 | an unreadable library directory is an error; otherwise the modules are those the scan of the sorted directory listing collects |
| Pom.ScanNames | internal/container/java/pom/pom.go:80-100 | the loop over the listing collects exactly the modules the per-entry step adds, in listing order |
| Pom.FoundModules | internal/container/java/pom/pom.go:73-98 | the module map holds the main module and exactly the proto- and grpc- directories of the listing, each keyed by its own name with the API group and the main module's version |
| Pom.FoundProtos | internal/container/java/pom/pom.go:82-89 | the proto module list holds exactly the proto- directories, in increasing artifact order |
| Pom.FoundGrpcs | internal/container/java/pom/pom.go:90-97 | the grpc module list holds exactly the grpc- directories, in increasing artifact order |
| Pom.FindModulesMeaning | internal/container/java/pom/pom.go:46-102 | for a readable library the main module is "google-cloud-" plus the ID in group com.google.cloud, every other module is an API directory below the library and every API directory is a module |
| Pom.CreateError | internal/container/java/pom/pom.go:161-164 | os.Create of a pom succeeds exactly when its directory exists and the path is not a directory |
| Pom.RenderTemplates | internal/container/java/pom/pom.go:104-136 | the outcome is RenderSpec: the parent pom is written first, then the child poms until one fails, then the client module's pom, the bom directory and the bom, each stopping the rendering when it cannot be created |
| Pom.SortedModules | internal/container/java/pom/pom.go:139-145 | the module list holds the map's modules in the order of the given keys |
| Pom.RenderChildren | internal/container/java/pom/pom.go:110-126 | the child poms of the keys are written in order, stopping at the first grpc module without its proto module |
| Pom.ModulesOf | internal/container/java/pom/pom.go:139-145 | the list has one module per key, the key's module |
| Pom.ChildPomsStop | internal/container/java/pom/pom.go:110-126 | once a child pom fails, later keys change neither the error nor the writes |
| Pom.KeyPomsMeaning | internal/container/java/pom/pom.go:111-125 | a proto- key writes its proto pom, a grpc- key its grpc pom with the matching proto module, and the key fails exactly when it is a grpc module without its proto module, with the "exists without a corresponding proto module" error |
| Pom.ChildPomsWritten | internal/container/java/pom/pom.go:110-126 | every child write is a proto or grpc pom of its own module directory, and when none fails every API module's pom is written |
| Pom.ChildPomsFailure | internal/container/java/pom/pom.go:116-121 | the child poms fail exactly when some key is an unpaired grpc module, and the error names such a module |
| Pom.SortedModulesListed | internal/container/java/pom/pom.go:139-145 | the sorted module list holds every module of the map, in increasing artifact order |
| Pom.RenderFailure | internal/container/java/pom/pom.go:104-136 | rendering fails exactly when the parent, client or BOM pom cannot be created or some grpc module has no proto module; when the three can be created the error names such a module; a missing client directory alone gives os.Create's error |
| Pom.RenderWrites | internal/container/java/pom/pom.go:104-136 | nothing is written when the parent pom cannot be created; otherwise the parent pom lists every module sorted; on success every API module's pom is written, then the client pom with the parent module and the proto and grpc lists, the bom directory and the bom listing every module |
| Pom.Generate | internal/container/java/pom/pom.go:46-66 | the outcome is the module search followed by rendering, with their errors wrapped as "could not find modules" and "could not render templates" |
| Pom.UnpairedMeansDir | internal/container/java/pom/pom.go:116-121 | an unpaired grpc module is exactly a grpc- directory without a proto- directory of the same suffix |
| Pom.GenerateMeaning | internal/container/java/pom/pom.go:46-136 | a missing library directory fails with the wrapped read error and writes nothing; otherwise generation fails exactly when some grpc- directory has no proto- partner or one of the parent, client and BOM poms cannot be created, and when those can be it names an unpaired directory |
| Pom.MissingClientDirFails | internal/container/java/pom/pom.go:45-66 | with no google-cloud-<id> directory and nothing else wrong, Generate fails with os.Create's "no such file or directory" for the client pom, wrapped in "could not render templates" |
| PomUpdate.RunWithoutMeaning | internal/container/java/pom/pom_update.go:25 | a `[^c]+` run stops exactly at the first occurrence of `c` |
| PomUpdate.SpaceRunMeaning | internal/container/java/pom/pom_update.go:25 | a `\s*` run stops exactly at the first character that is not white space |
| PomUpdate.MatchTerms | internal/container/java/pom/pom_update.go:25 | a match of the pattern's terms splits a prefix of the text into one piece per term, the first piece being what the first term consumes |
| PomUpdate.MatchElement | internal/container/java/pom/pom_update.go:25 | the pattern matches an annotated version element in full and captures its library ID and the text after the version |
| PomUpdate.MatchAt | internal/container/java/pom/pom_update.go:25 | a match of the version pattern is never empty and never longer than the text |
| PomUpdate.Step | internal/container/java/pom/pom_update.go:61-71 | each step of the scan consumes at least one character and no more than the text |
| PomUpdate.RewriteNoMatch | internal/container/java/pom/pom_update.go:61 | where no match starts, the first character is copied and the scan goes on after it |
| PomUpdate.RewriteKept | internal/container/java/pom/pom_update.go:70 | a match annotated with another library is copied as it was and the scan goes on after it |
| PomUpdate.RewriteReplaced | internal/container/java/pom/pom_update.go:63-68 | a match annotated with the updated library becomes `<version>`, the new version, "-SNAPSHOT" and the rest of the match, and the scan goes on after it |
| PomUpdate.RewriteElement | internal/container/java/pom/pom_update.go:61-71 | an annotated element is given the new version with "-SNAPSHOT" when its library ID is the one updated, and is left as it was otherwise |
| PomUpdate.RewriteUnannotated | internal/container/java/pom/pom_update.go:25 | a version element with no update comment after it is left as it was |
| PomUpdate.RewritePlain | internal/container/java/pom/pom_update.go:61 | text in which no `<version>` opens is copied unchanged |
| PomUpdate.RewriteUnchanged | internal/container/java/pom/pom_update.go:61-71 | a text with no annotated element of the updated library is left unchanged |
| PomUpdate.FindPomFiles | internal/container/java/pom/pom_update.go:79-99 | the result is the found pom list of the walk, an error for a path that cannot be walked |
| PomUpdate.CollectPoms | internal/container/java/pom/pom_update.go:86-94 | the walk collects exactly the regular files named pom.xml at or below the path, in walk order |
| PomUpdate.FindPomFilesMeaning | internal/container/java/pom/pom_update.go:79-99 | a missing path yields no files; a path that is not a directory is an error; otherwise every pom.xml at or below it once, in increasing walk order |
| PomUpdate.RewriteFile | internal/container/java/pom/pom_update.go:55-77 | the output is written with the rewritten content exactly when the input is a readable file and the output can be written; otherwise nothing changes |
| PomUpdate.UpdateVersion | internal/container/java/pom/pom_update.go:55-77 | the new tree and the outcome are those of reading, rewriting and writing one pom, with "failed to read file" and "failed to write file" errors |
| PomUpdate.UpdateVersions | internal/container/java/pom/pom_update.go:31-50 | the poms are searched, then each is copied to the same relative place under the output directory with its versions rewritten, stopping at the first failure with the wrapped error |
| PomUpdate.UpdatePom | internal/container/java/pom/pom_update.go:37-47 | one pom: the output directory is created, then the file rewritten, with the failing step's wrapped error |
| PomUpdate.MakeOutputDir | internal/container/java/pom/pom_update.go:42-44 | the output's directory is created exactly when it can be, and the error names the output file |
| PomUpdate.UpdateOneMkdirFailed | internal/container/java/pom/pom_update.go:42-44 | a failed directory creation stops with nothing changed |
| PomUpdate.UpdateOneRewrites | internal/container/java/pom/pom_update.go:42-47 | after the directory is created the pom is rewritten into it |
| PomUpdate.UpdateAllStops | internal/container/java/pom/pom_update.go:36-48 | once a pom fails, later poms change nothing |
| PomUpdate.UpdateOneEntries | internal/container/java/pom/pom_update.go:41-47 | updating one pom changes only its output file and adds only directories |
| PomUpdate.UpdateAllOutputs | internal/container/java/pom/pom_update.go:36-48 | nothing outside the output directory changes except added directories, and on success every pom's output holds its rewritten content |
| PomUpdate.UpdateVersionsSearch | internal/container/java/pom/pom_update.go:31-35 | a missing source path changes nothing and succeeds; the search fails exactly when the source path is not a directory |
| PomUpdate.UpdateAllNeverFindFails | internal/container/java/pom/pom_update.go:36-48 | the per-pom loop never reports a search failure |
| PomUpdate.UpdateVersionsOutputs | internal/container/java/pom/pom_update.go:31-50 | nothing outside the output directory changes, and on success every pom below the source has its rewritten copy at the same relative place below the output directory |
| PomUpdateExamples.HappyPath | internal/container/java/pom/pom_update_test.go:32-42 | the annotated version of the updated library becomes "2.0.0-SNAPSHOT" |
| PomUpdateExamples.NoMatch | internal/container/java/pom/pom_update_test.go:43-53 | an annotation naming another library leaves the file unchanged |
| PomUpdateExamples.MultipleVersions | internal/container/java/pom/pom_update_test.go:54-74 | of two annotated versions only the updated library's changes |
| PomUpdateExamples.NoComment | internal/container/java/pom/pom_update_test.go:75-85 | a version without an update comment is left unchanged |
| PomUpdateExamples.RewriteFramed | internal/container/java/pom/pom_update.go:61-71 | an annotated element between two texts with no version element is edited and the texts are kept |
| PomUpdateExamples.RewriteTwoFramed | internal/container/java/pom/pom_update.go:61-71 | two annotated elements separated by plain text are each edited independently |
| Release.JobsOf | internal/container/java/release/release.go:33-38 | one version update per source path of the library, with the library's ID and version |
| Release.SourceDir | internal/container/java/release/release.go:37 | the source directory of a path lies below the repository directory |
| Release.Stage | internal/container/java/release/release.go:29-45 | every source path of every library is updated in order until the first failure; the response carries that failure's text, or is empty |
| Release.StageAllSnoc | internal/container/java/release/release.go:32-43 | one more source path after a successful prefix is one more version update on the tree so far |
| Release.JobsAppend | internal/container/java/release/release.go:32-33 | the source paths of two library lists are those of the first followed by those of the second |
| Release.StageAllStops | internal/container/java/release/release.go:39-40 | once a source path fails, later ones change nothing |
| Release.StageMissing | internal/container/java/release/release.go:29-45 | when no source path exists the command succeeds and changes nothing |
| Release.JobsFrom | internal/container/java/release/release.go:32-33 | every version update comes from a source path of some library of the request, with that library's ID and version |
| Release.StageOutside | internal/container/java/release/release.go:29-45 | nothing outside the output directory changes, whatever the libraries |
| Release.StageOnePath | internal/container/java/release/release.go:32-41 | a request with one library and one source path is exactly one UpdateVersions call |
| Clirr.SrcDir | internal/librarian/java/clirr/clirr.go:71 | the source directory of a proto module ends in "java" |
| Clirr.OrBuilderBelowSrc | internal/librarian/java/clirr/clirr.go:81 | an OrBuilder file lies strictly below the module's source directory |
| Clirr.FindProtoPackages | internal/librarian/java/clirr/clirr.go:70-104 | the result is the sorted set of packages the walk of the source directory collects, or the walk's error |
| Clirr.CollectPackages | internal/librarian/java/clirr/clirr.go:76-93 | the walk collects exactly the packages of the OrBuilder files below the source directory |
| Clirr.PackagesStep | internal/librarian/java/clirr/clirr.go:81-91 | visiting one more entry adds its package exactly when it is an OrBuilder file in a package |
| Clirr.WalkCoversKeys | internal/librarian/java/clirr/clirr.go:77-93 | the walk in its order finds the same packages as the whole tree |
| Clirr.FindProtoPackagesMeaning | internal/librarian/java/clirr/clirr.go:70-104 | a missing source directory yields no packages; a source directory that is not a directory is an error; otherwise the packages, strictly increasing, are exactly the directories of the OrBuilder files relative to the source directory, never empty or "." |
| Clirr.Generate | internal/librarian/java/clirr/clirr.go:39-68 | the new tree and the outcome are those of the specification: an existing ignore file is kept, a failed search is wrapped with the module path, no packages writes nothing, otherwise the rendered package list is written |
| Clirr.GenerateKeepsExisting | internal/librarian/java/clirr/clirr.go:40-44 | an existing clirr-ignored-differences.xml is never overwritten and the call succeeds |
| Clirr.GenerateNothingToList | internal/librarian/java/clirr/clirr.go:51-53 | a module without a source directory or without OrBuilder packages gets no file and no error |
| Clirr.GenerateWrites | internal/librarian/java/clirr/clirr.go:39-68 | only the ignore file can change, only when it did not exist, and it then holds the rendering of the packages found |
| Clirr.SinglePackageExample | internal/librarian/java/clirr/clirr_test.go:24-55 | one TestOrBuilder.java below com/google/cloud/test/v1 yields exactly the package "com/google/cloud/test/v1" |

## Left out

- External processes are function parameters returning success or an error message. Their internals are not modelled: protoc, google-java-format, the per-language generators, formatters and cleaners of the Go, Python, Dart and Rust packages, the container runtime and `execv`.
- Git and fetching are parameters too: `gitrepo.*` (commit queries, IsClean, AddAll/Commit, ResetHard, HeadHash, PushBranch, CreatePullRequest), `fetch.RepoDir` and the Rust/Dart source fetch. The model records the actions update-apis performs on them, in order.
- Template rendering is not modelled. The pom model lists each pom it writes with its template name and the data the template receives. The Clirr file's content is a `render` parameter applied to the package list.
- `build.ParseBuild` (Starlark parsing) is not modelled. A BUILD.bazel file is its rules, in order, each with a kind and string, boolean and list attributes.
- Go syntax trees in update_transports.go are not modelled in full. Only the expressions the update reads and writes are kept; parsing, printing and formatting the file, and the file loop of the command, are not.
- protojson (de)serialisation in loadState/saveState is not modelled. The pipeline state is a value; loading it is a parameter.
- Zip reading, byte copying, `os.CopyFS`, temporary working roots and `setupPluginWrappers` are not modelled. Of `unzip` only the path guard is modelled; of the container's processAPI, invokeProtoc and unzip are parameters.
- The container's `restructureOutput` as a whole is the `restructure` parameter of `ContainerGenerate.Tools`. `copyAndMerge` and the destination paths are modelled separately, not as part of it.
- The Java generator's protoc run and output handling are not modelled step by step: setupPluginWrappers, the protoc process, unzip and restructureOutput (moveAndMerge, copyProtos) of internal/librarian/java/generate.go form the `protoc` parameter of `JavaNaming.ApiEnv`, which returns the error and the files written. `os.MkdirAll` of the output and version directories and the final `os.RemoveAll` of <output>/<version> are modelled on the tree; the service-config lookups and the proto glob are parameters, and `filepath.Abs` is taken as the identity.
- `os.RemoveAll` of <output>/<version> never fails in the model, so "failed to cleanup intermediate files" is not produced.
- The generators of the other languages are parameters that report the files they wrote; a file the tree cannot hold (a directory in the way, a file where a parent should be) is skipped. What the formatters rewrite is not modelled: the format phase leaves the tree as it is.
- CLI wiring, flag parsing, logging and the `configure`/`generate` commands of command.go are not modelled. The flags are a value.
- The 400-line `APIs` table of internal/serviceconfig/api.go is data and is not transcribed. Two of its entries are stated as examples.
- OS error texts are not modelled exactly. Errors produced by the operating system are modelled only by the prefixes the code adds (the `fmt.Errorf` wrappers), so a method's error is stated as starting with that prefix.
- `%q` quoting in messages is modelled as plain double quotes; Go's escaping of special characters is not modelled.
- ".." is not resolved. A path given as a string is split on "/" with empty and "." components dropped, but ".." stays a component instead of cancelling its parent as `filepath.Join` would. `UnzipGuard` is the exception: it resolves ".." itself. Symlinks and permissions are not modelled; an operation fails when the tree does not allow it (a missing parent, a file in the way).
- Go map iteration order is unspecified. Pom's renderTemplates is modelled as visiting the module map in ascending key order; the lemmas about it (`Pom.RenderFailure`, `Pom.RenderWrites`) state only facts that hold in any order, except which unpaired grpc module the error names.
- Resolver.ResolvedOutputIsLibraryOutput: stated for every language except Go, because `golang.Fill` is a parameter whose effect on the output is not known to the model.
- Resolver.ResolvedApisHavePaths: stated for every language except Go, for the same reason, and for libraries whose derived API path is not empty.
- Pom.Generate: a child pom.xml path already occupied by a directory is not modelled; the child poms go into directories the module search has found, and their creation is taken to succeed.
- Concurrency and floating point: the core has none.

## Findings

| source | as written | input that shows it | evidently intended | confidence | as-written member | corrected member |
|---|---|---|---|---|---|---|
| internal/librarian/clean.go:40-76 | `check` accepts a missing output directory and returns no keep set, but `checkAndClean` then calls `clean`, whose WalkDir fails on the missing root with the lstat error | a Dart library whose output directory does not exist yet | a missing output directory is nothing to clean: no error, nothing changed | not executed | Cleaner.MissingDirFailsAsWritten | Cleaner.MissingDirIsNoOp |
| internal/librarian/library.go:209-214 | applyDefaults reads `defaults.Output` to compute the default output, and defaults may be nil | a non-veneer library with no output path in a librarian.yaml without a default section | fall back to an empty default output, as libraryOutput does for nil defaults (library.go:190-193) | not executed | Resolver.NilDefaultsPanicAsWritten | Resolver.Resolved |
| internal/command/command.go:311-317 | the cleanliness check of an opened language repository calls IsClean on the API repository | update-apis with a repository root whose language repository has uncommitted changes and a clean API repository | check the language repository and reject it with "language repo must be clean before update" | not executed | Update.DirtyLanguageRepoAcceptedAsWritten | Update.LanguageRepoSetup |
| internal/librarianops/update_transports.go:158-176 | the rendered map literal uses the key identifier "lang" + the capitalised language, and the literal's type is map[string]string | an API whose BUILD.bazel gives java the transport grpc: the key is rendered `langJava` | use the declared constant (`LangJava`, api.go:21-39) and the field's type map[string]Transport, so the written field denotes the parsed transports | not executed | UpdateTransports.AsWrittenLiteralRejected | UpdateTransports.RenderMapRoundTrip |
