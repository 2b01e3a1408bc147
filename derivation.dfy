/** The per-language naming switches of internal/librarian/generate.go: which
    libraries a run selects, and the default API path and output directory of a library. */
module Derivation {
  import opened Strs
  import opened Config

  /** shouldGenerate: a library with skip_generate is never selected; otherwise --all
      selects every library and a name selects the library of that name. */
  function ShouldGenerate(lib: Library, all: bool, libraryName: string): (b: bool)
    ensures lib.skipGenerate ==> !b
    ensures !lib.skipGenerate ==> (b <==> all || lib.name == libraryName)
  {
    if lib.skipGenerate then false else all || lib.name == libraryName
  }

  /** deriveAPIPath: Dart and Rust have their own rule; every other language turns each
      "-" of the library name into "/". */
  function DeriveApiPath(h: LanguageHooks, language: string, name: string): (p: string)
    ensures language == Dart ==> p == h.dartApiPath(name)
    ensures language == Rust ==> p == h.rustApiPath(name)
    ensures language != Dart && language != Rust ==>
              |p| == |name| && (forall i | 0 <= i < |name| :: p[i] == if name[i] == '-' then '/' else name[i])
  {
    if language == Dart then h.dartApiPath(name)
    else if language == Rust then h.rustApiPath(name)
    else ReplaceChar(name, '-', '/')
  }

  /** defaultOutput: Dart and Python derive the directory from the library name, Rust
      from the API path; any other language uses the workspace default unchanged. */
  function DefaultOutput(h: LanguageHooks, language: string, name: string, api: string, defaultOut: string): (o: string)
    ensures language == Dart ==> o == h.dartDefaultOutput(name, defaultOut)
    ensures language == Rust ==> o == h.rustDefaultOutput(api, defaultOut)
    ensures language == Python ==> o == h.pythonDefaultOutput(name, defaultOut)
    ensures language != Dart && language != Rust && language != Python ==> o == defaultOut
  {
    if language == Dart then h.dartDefaultOutput(name, defaultOut)
    else if language == Rust then h.rustDefaultOutput(api, defaultOut)
    else if language == Python then h.pythonDefaultOutput(name, defaultOut)
    else defaultOut
  }

}
