/** The pom generation of the Java language container (internal/container/java/pom/pom.go):
    the library's main module is named after the library ID, the proto- and grpc-
    directories below the library become its API modules, every grpc module must have
    its proto module, and a parent pom, one pom per API module, the client module's pom
    and a BOM are written. The templates are not part of this model: it lists the poms
    in the order they are written, each with the data its template receives. */
module Pom {
  import opened Strs
  import opened Sorting
  import opened Outcome
  import opened Fs

  /** A Maven module's coordinates. */
  datatype Module = Module(groupId: string, artifactId: string, version: string)

  const CloudGroup := "com.google.cloud"
  const ApiGroup := "com.google.api.grpc"
  const DefaultVersion := "0.0.1-SNAPSHOT"

  /** The library's main (client) module. */
  function MainModule(id: string): Module {
    Module(CloudGroup, "google-cloud-" + id, DefaultVersion)
  }

  /** The module of an API directory: the API group and the main module's version. */
  function ApiModule(main: Module, name: string): Module {
    Module(ApiGroup, name, main.version)
  }

  /** The parent the generated child poms name. */
  function ParentOf(main: Module): Module {
    Module(main.groupId, main.artifactId + "-parent", main.version)
  }

  /** Every module is keyed by its artifact ID. */
  predicate KeyedByArtifact(modules: map<string, Module>) {
    forall k | k in modules :: modules[k].artifactId == k
  }

  /** The artifact IDs strictly increase along the list. */
  predicate ArtifactsIncreasing(s: seq<Module>) {
    forall i, j | 0 <= i < j < |s| :: StrLt(s[i].artifactId, s[j].artifactId)
  }

  // ---------------------------------------------------------------------------
  // findModules
  // ---------------------------------------------------------------------------

  /** The names of the entries directly below `lib`. */
  function Children(m: map<Path, Node>, lib: Path): set<string> {
    set p | p in m && |p| == |lib| + 1 && p[..|lib|] == lib :: p[|lib|]
  }

  /** os.ReadDir's listing: the names in lexical order. */
  ghost function Listing(m: map<Path, Node>, lib: Path): (r: seq<string>)
    ensures SortedListing(r, Children(m, lib), StrLt)
  {
    StrLtStrictTotal(Children(m, lib));
    SortedOf(Children(m, lib), StrLt)
  }

  /** A directory below `lib` that is an API module: its name starts with "proto-" or
      "grpc-". */
  predicate IsApiDir(m: map<Path, Node>, lib: Path, name: string) {
    lib + [name] in m && m[lib + [name]].Dir? && (HasPrefix(name, "proto-") || HasPrefix(name, "grpc-"))
  }

  /** The modules found, and the proto and grpc modules in listing order. */
  datatype Discovered = Discovered(modules: map<string, Module>, protos: seq<Module>, grpcs: seq<Module>)

  /** The loop of findModules over the names `names`. */
  function FoundAfter(m: map<Path, Node>, lib: Path, main: Module, names: seq<string>): Discovered {
    if |names| == 0 then Discovered(map[main.artifactId := main], [], [])
    else AddName(m, lib, main, FoundAfter(m, lib, main, names[..|names| - 1]), names[|names| - 1])
  }

  /** One turn of the loop of findModules, on the entry named `n`. */
  function AddName(m: map<Path, Node>, lib: Path, main: Module, f: Discovered, n: string): Discovered {
    if !(lib + [n] in m && m[lib + [n]].Dir?) then f
    else if HasPrefix(n, "proto-") then Discovered(f.modules[n := ApiModule(main, n)], f.protos + [ApiModule(main, n)], f.grpcs)
    else if HasPrefix(n, "grpc-") then Discovered(f.modules[n := ApiModule(main, n)], f.protos, f.grpcs + [ApiModule(main, n)])
    else f
  }

  lemma FoundStep(m: map<Path, Node>, lib: Path, main: Module, names: seq<string>, i: nat, before: Discovered, after: Discovered)
    requires i < |names| && before == FoundAfter(m, lib, main, names[..i])
    requires after == AddName(m, lib, main, before, names[i])
    ensures after == FoundAfter(m, lib, main, names[..i + 1])
  {
    assert names[..i + 1][..i] == names[..i];
  }

  /** The error of os.ReadDir on a path that is not a directory. */
  function ReadDirError(lib: Path): string {
    "open " + PathString(lib) + ": no such file or directory"
  }

  /** findModules: the library directory must be readable. */
  ghost function FindModulesSpec(m: map<Path, Node>, lib: Path, main: Module): Result<Discovered> {
    if !IsDirIn(m, lib) then Err(ReadDirError(lib))
    else Ok(FoundAfter(m, lib, main, Listing(m, lib)))
  }

  /** findModules, with its loop over the listing. */
  method FindModules(fs: FileSystem, lib: Path, main: Module) returns (r: Result<Discovered>)
    ensures r == FindModulesSpec(fs.entries, lib, main)
  {
    if !IsDirIn(fs.entries, lib) {
      return Err(ReadDirError(lib));
    }
    var children := Children(fs.entries, lib);
    StrLtStrictTotal(children);
    var names := SortSet(children, StrLt);
    SortedListingUnique(names, Listing(fs.entries, lib), children, StrLt);
    var f := ScanNames(fs, lib, main, names);
    r := Ok(f);
  }

  /** The loop of findModules over the listed names. */
  method ScanNames(fs: FileSystem, lib: Path, main: Module, names: seq<string>) returns (f: Discovered)
    ensures f == FoundAfter(fs.entries, lib, main, names)
  {
    f := Discovered(map[main.artifactId := main], [], []);
    var i := 0;
    while i < |names|
      invariant 0 <= i <= |names|
      invariant f == FoundAfter(fs.entries, lib, main, names[..i])
    {
      var n := names[i];
      ghost var before := f;
      if lib + [n] in fs.entries && fs.entries[lib + [n]].Dir? {
        if HasPrefix(n, "proto-") {
          f := Discovered(f.modules[n := ApiModule(main, n)], f.protos + [ApiModule(main, n)], f.grpcs);
        } else if HasPrefix(n, "grpc-") {
          f := Discovered(f.modules[n := ApiModule(main, n)], f.protos, f.grpcs + [ApiModule(main, n)]);
        }
      }
      FoundStep(fs.entries, lib, main, names, i, before, f);
      i := i + 1;
    }
    assert names[..|names|] == names;
  }

  /** The modules map after the loop: the main module under its artifact ID, and every
      API directory listed under its name with the API group and the main version. */
  lemma {:induction false} FoundModules(m: map<Path, Node>, lib: Path, main: Module, names: seq<string>)
    requires !HasPrefix(main.artifactId, "proto-") && !HasPrefix(main.artifactId, "grpc-")
    ensures var f := FoundAfter(m, lib, main, names);
      main.artifactId in f.modules && f.modules[main.artifactId] == main
      && (forall k :: k in f.modules <==> k == main.artifactId || (k in names && IsApiDir(m, lib, k)))
      && (forall k | k in f.modules && k != main.artifactId :: f.modules[k] == ApiModule(main, k))
    decreases |names|
  {
    if |names| > 0 {
      var init := names[..|names| - 1];
      FoundModules(m, lib, main, init);
      assert names == init + [names[|names| - 1]];
    }
  }

  /** The proto list holds the proto- directories, each once and in listing order. */
  lemma {:induction false} FoundProtos(m: map<Path, Node>, lib: Path, main: Module, names: seq<string>)
    requires Increasing(names, StrLt)
    ensures var f := FoundAfter(m, lib, main, names);
      (forall x :: x in f.protos <==> (x.artifactId in names && IsApiDir(m, lib, x.artifactId)
                                       && HasPrefix(x.artifactId, "proto-") && x == ApiModule(main, x.artifactId)))
      && ArtifactsIncreasing(f.protos)
    decreases |names|
  {
    if |names| > 0 {
      var init := names[..|names| - 1];
      var n := names[|names| - 1];
      assert Increasing(init, StrLt);
      FoundProtos(m, lib, main, init);
      var f := FoundAfter(m, lib, main, init);
      AddNameProtos(m, lib, main, f, n);
      forall x | x in f.protos ensures StrLt(x.artifactId, n) {
        var k :| 0 <= k < |init| && init[k] == x.artifactId;
      }
      assert names == init + [n];
    }
  }

  lemma AddNameProtos(m: map<Path, Node>, lib: Path, main: Module, f: Discovered, n: string)
    ensures AddName(m, lib, main, f, n).protos
         == f.protos + if IsApiDir(m, lib, n) && HasPrefix(n, "proto-") then [ApiModule(main, n)] else []
  {
  }

  /** The grpc list holds the grpc- directories, each once and in listing order. */
  lemma {:induction false} FoundGrpcs(m: map<Path, Node>, lib: Path, main: Module, names: seq<string>)
    requires Increasing(names, StrLt)
    ensures var f := FoundAfter(m, lib, main, names);
      (forall x :: x in f.grpcs <==> (x.artifactId in names && IsApiDir(m, lib, x.artifactId)
                                      && HasPrefix(x.artifactId, "grpc-") && x == ApiModule(main, x.artifactId)))
      && ArtifactsIncreasing(f.grpcs)
    decreases |names|
  {
    if |names| > 0 {
      var init := names[..|names| - 1];
      var n := names[|names| - 1];
      assert Increasing(init, StrLt);
      FoundGrpcs(m, lib, main, init);
      var f := FoundAfter(m, lib, main, init);
      AddNameGrpcs(m, lib, main, f, n);
      forall x | x in f.grpcs ensures StrLt(x.artifactId, n) {
        var k :| 0 <= k < |init| && init[k] == x.artifactId;
      }
      assert names == init + [n];
      assert HasPrefix(n, "grpc-") ==> !HasPrefix(n, "proto-");
    }
  }

  lemma AddNameGrpcs(m: map<Path, Node>, lib: Path, main: Module, f: Discovered, n: string)
    ensures AddName(m, lib, main, f, n).grpcs
         == f.grpcs + if IsApiDir(m, lib, n) && HasPrefix(n, "grpc-") && !HasPrefix(n, "proto-") then [ApiModule(main, n)] else []
  {
  }

  /** findModules on the library directory: the map and the two lists describe its API
      directories, and the main module is always in the map. */
  lemma FindModulesMeaning(m: map<Path, Node>, lib: Path, id: string)
    requires IsDirIn(m, lib)
    ensures var main := MainModule(id);
      var f := FindModulesSpec(m, lib, main).value;
      FindModulesSpec(m, lib, main).Ok?
      && main.artifactId in f.modules && f.modules[main.artifactId] == main
      && (forall k :: k in f.modules <==> k == main.artifactId || IsApiDir(m, lib, k))
      && (forall k | k in f.modules && k != main.artifactId :: f.modules[k] == ApiModule(main, k))
      && KeyedByArtifact(f.modules)
      && (forall x :: x in f.protos <==> (IsApiDir(m, lib, x.artifactId) && HasPrefix(x.artifactId, "proto-")
                                           && x == ApiModule(main, x.artifactId)))
      && (forall x :: x in f.grpcs <==> (IsApiDir(m, lib, x.artifactId) && HasPrefix(x.artifactId, "grpc-")
                                          && x == ApiModule(main, x.artifactId)))
      && ArtifactsIncreasing(f.protos) && ArtifactsIncreasing(f.grpcs)
  {
    var main := MainModule(id);
    var names := Listing(m, lib);
    assert main.artifactId[0] == 'g' && main.artifactId[1] == 'o';
    FoundModules(m, lib, main, names);
    FoundProtos(m, lib, main, names);
    FoundGrpcs(m, lib, main, names);
    forall k | IsApiDir(m, lib, k) ensures k in names {
      assert (lib + [k])[..|lib|] == lib && (lib + [k])[|lib|] == k;
    }
  }

  // ---------------------------------------------------------------------------
  // renderTemplates
  // ---------------------------------------------------------------------------

  /** The data each template receives. */
  datatype PomData =
    | ParentPom(main: Module, name: string, modules: seq<Module>)
    | ProtoPom(main: Module, child: Module, parent: Module)
    | GrpcPom(main: Module, child: Module, parent: Module, proto: Module)
    | CloudPom(client: Module, name: string, description: string, parent: Module,
               protos: seq<Module>, grpcs: seq<Module>, repo: string)
    | BomPom(main: Module, name: string, modules: seq<Module>)

  /** A pom written from a template, or the creation of a missing directory. */
  datatype Action = WritePom(path: Path, template: string, data: PomData) | MkdirIfMissing(dir: Path)

  /** The error a rendering stops with, and what it did until then. */
  datatype Plan = Plan(err: Status, actions: seq<Action>)

  /** The modules of the keys `keys`, in that order. */
  function ModulesOf(modules: map<string, Module>, keys: seq<string>): (r: seq<Module>)
    requires forall k | k in keys :: k in modules
    ensures |r| == |keys| && forall i | 0 <= i < |keys| :: r[i] == modules[keys[i]]
  {
    if |keys| == 0 then [] else ModulesOf(modules, keys[..|keys| - 1]) + [modules[keys[|keys| - 1]]]
  }

  /** The keys of the modules map in ascending order. */
  ghost function SortedKeys(modules: map<string, Module>): (r: seq<string>)
    ensures SortedListing(r, modules.Keys, StrLt)
  {
    StrLtStrictTotal(modules.Keys);
    SortedOf(modules.Keys, StrLt)
  }

  /** A grpc module whose proto module (the artifact ID with its first "grpc-" replaced
      by "proto-") is missing. */
  predicate Unpaired(modules: map<string, Module>, k: string)
    requires k in modules
  {
    HasPrefix(k, "grpc-") && ReplaceFirst(modules[k].artifactId, "grpc-", "proto-") !in modules
  }

  function UnpairedError(artifactId: string): string {
    "grpc module " + artifactId + " exists without a corresponding proto module"
  }

  /** One turn of the loop over the modules map: a proto module gets its pom; a grpc
      module must have its proto module and then gets its pom. */
  function KeyPoms(lib: Path, main: Module, modules: map<string, Module>, k: string): Plan
    requires k in modules
  {
    var child := modules[k];
    var proto := if HasPrefix(k, "proto-") then [WritePom(lib + [k, "pom.xml"], "proto_pom.xml.tmpl", ProtoPom(main, child, ParentOf(main)))] else [];
    if !HasPrefix(k, "grpc-") then Plan(None, proto)
    else
      var protoId := ReplaceFirst(child.artifactId, "grpc-", "proto-");
      if protoId !in modules then Plan(Some(UnpairedError(child.artifactId)), proto)
      else Plan(None, proto + [WritePom(lib + [k, "pom.xml"], "grpc_pom.xml.tmpl",
                                        GrpcPom(main, child, ParentOf(main), modules[protoId]))])
  }

  /** The loop over the modules map, visiting it in the order of `keys` and stopping at
      the first failure. */
  function ChildPoms(lib: Path, main: Module, modules: map<string, Module>, keys: seq<string>): Plan
    requires forall k | k in keys :: k in modules
  {
    if |keys| == 0 then Plan(None, [])
    else
      var r := ChildPoms(lib, main, modules, keys[..|keys| - 1]);
      if r.err.Some? then r
      else
        var p := KeyPoms(lib, main, modules, keys[|keys| - 1]);
        Plan(p.err, r.actions + p.actions)
  }

  /** The error of os.Create on the file `p`: its directory is missing or is not a
      directory, or `p` is itself a directory. */
  function CreateError(m: map<Path, Node>, p: Path): (err: Status)
    requires |p| > 0
    ensures err.None? <==> IsDirIn(m, p[..|p| - 1]) && !(p in m && m[p].Dir?)
  {
    match StatIn(m, p[..|p| - 1])
    case NotExist => Some("open " + PathString(p) + ": no such file or directory")
    case NotADirectory => Some("open " + PathString(p) + ": not a directory")
    case Found(n) =>
      if n.File? then Some("open " + PathString(p) + ": not a directory")
      else if p in m && m[p].Dir? then Some("open " + PathString(p) + ": is a directory")
      else None
  }

  function ParentPomPath(lib: Path): Path { lib + ["pom.xml"] }
  function ClientPomPath(lib: Path, main: Module): Path { lib + [main.artifactId, "pom.xml"] }
  function BomDir(lib: Path, main: Module): Path { lib + [main.artifactId + "-bom"] }

  /** The error of writing the BOM: a missing BOM directory is created first, so only
      one that exists can make os.Create fail. */
  function BomError(m: map<Path, Node>, lib: Path, main: Module): Status {
    if StatIn(m, BomDir(lib, main)).NotExist? then None else CreateError(m, BomDir(lib, main) + ["pom.xml"])
  }

  /** The client module's pom. */
  function ClientPom(lib: Path, main: Module, id: string, found: Discovered): Action {
    WritePom(ClientPomPath(lib, main), "cloud_pom.xml.tmpl",
             CloudPom(main, "Google Cloud " + id, "Google Cloud " + id + " client", ParentOf(main),
                      found.protos, found.grpcs, "googleapis/google-cloud-java"))
  }

  /** The BOM, in a directory created when missing. */
  function BomPoms(lib: Path, main: Module, id: string, sorted: seq<Module>): seq<Action> {
    [MkdirIfMissing(BomDir(lib, main)),
     WritePom(BomDir(lib, main) + ["pom.xml"], "bom_pom.xml.tmpl", BomPom(main, "Google Cloud " + id, sorted))]
  }

  /** renderTemplates, visiting the modules map in ascending key order. Every pom is
      created in the tree as it was before the rendering: the poms written earlier are
      files named pom.xml, which no later pom needs as its directory. */
  ghost function RenderSpec(m: map<Path, Node>, lib: Path, main: Module, id: string, found: Discovered): Plan {
    RenderPlan(CreateError(m, ParentPomPath(lib)), CreateError(m, ClientPomPath(lib, main)), BomError(m, lib, main),
               lib, main, id, found)
  }

  /** renderTemplates once it is known which of the parent, client and BOM poms cannot
      be created. */
  ghost function RenderPlan(parentErr: Status, clientErr: Status, bomErr: Status,
                            lib: Path, main: Module, id: string, found: Discovered): Plan {
    var keys := SortedKeys(found.modules);
    var sorted := ModulesOf(found.modules, keys);
    var parent := WritePom(ParentPomPath(lib), "parent_pom.xml.tmpl", ParentPom(main, "Google Cloud " + id, sorted));
    if parentErr.Some? then Plan(parentErr, [])
    else
      var r := ChildPoms(lib, main, found.modules, keys);
      if r.err.Some? then Plan(r.err, [parent] + r.actions)
      else if clientErr.Some? then Plan(clientErr, [parent] + r.actions)
      else if bomErr.Some? then
        Plan(bomErr, [parent] + r.actions + [ClientPom(lib, main, id, found), MkdirIfMissing(BomDir(lib, main))])
      else Plan(None, [parent] + r.actions + [ClientPom(lib, main, id, found)] + BomPoms(lib, main, id, sorted))
  }

  /** renderTemplates. */
  method RenderTemplates(fs: FileSystem, lib: Path, main: Module, id: string, found: Discovered)
    returns (err: Status, actions: seq<Action>)
    ensures Plan(err, actions) == RenderSpec(fs.entries, lib, main, id, found)
  {
    err, actions := RenderWith(CreateError(fs.entries, ParentPomPath(lib)), CreateError(fs.entries, ClientPomPath(lib, main)),
                               BomError(fs.entries, lib, main), lib, main, id, found);
  }

  /** The body of renderTemplates, given the outcome of each os.Create outside the
      module directories. */
  method RenderWith(parentErr: Status, clientErr: Status, bomErr: Status,
                    lib: Path, main: Module, id: string, found: Discovered)
    returns (err: Status, actions: seq<Action>)
    ensures Plan(err, actions) == RenderPlan(parentErr, clientErr, bomErr, lib, main, id, found)
  {
    var modules := found.modules;
    StrLtStrictTotal(modules.Keys);
    var keys := SortSet(modules.Keys, StrLt);
    SortedListingUnique(keys, SortedKeys(modules), modules.Keys, StrLt);
    var sorted := SortedModules(modules, keys);
    if parentErr.Some? {
      return parentErr, [];
    }
    actions := [WritePom(ParentPomPath(lib), "parent_pom.xml.tmpl", ParentPom(main, "Google Cloud " + id, sorted))];
    var r := RenderChildren(lib, main, modules, keys);
    if r.err.Some? {
      return r.err, actions + r.actions;
    }
    actions := actions + r.actions;
    if clientErr.Some? {
      return clientErr, actions;
    }
    actions := actions + [ClientPom(lib, main, id, found), MkdirIfMissing(BomDir(lib, main))];
    if bomErr.Some? {
      return bomErr, actions;
    }
    err := None;
    actions := actions + [BomPoms(lib, main, id, sorted)[1]];
  }

  /** The copy of the map's modules sorted by artifact ID. */
  method SortedModules(modules: map<string, Module>, keys: seq<string>) returns (r: seq<Module>)
    requires forall k | k in keys :: k in modules
    ensures r == ModulesOf(modules, keys)
  {
    r := [];
    var i := 0;
    while i < |keys|
      invariant 0 <= i <= |keys|
      invariant r == ModulesOf(modules, keys[..i])
    {
      assert keys[..i + 1][..i] == keys[..i];
      r := r + [modules[keys[i]]];
      i := i + 1;
    }
    assert keys[..|keys|] == keys;
  }

  /** The loop of renderTemplates over the modules map. */
  method RenderChildren(lib: Path, main: Module, modules: map<string, Module>, keys: seq<string>) returns (r: Plan)
    requires forall k | k in keys :: k in modules
    ensures r == ChildPoms(lib, main, modules, keys)
  {
    var actions := [];
    var i := 0;
    while i < |keys|
      invariant 0 <= i <= |keys|
      invariant ChildPoms(lib, main, modules, keys[..i]) == Plan(None, actions)
    {
      var k := keys[i];
      ChildPomsNext(lib, main, modules, keys, i);
      ghost var next := KeyPoms(lib, main, modules, k);
      var child := modules[k];
      if HasPrefix(k, "proto-") {
        actions := actions + [WritePom(lib + [k, "pom.xml"], "proto_pom.xml.tmpl", ProtoPom(main, child, ParentOf(main)))];
      }
      if HasPrefix(k, "grpc-") {
        var protoId := ReplaceFirst(child.artifactId, "grpc-", "proto-");
        if protoId !in modules {
          assert next.err == Some(UnpairedError(child.artifactId)) && actions == ChildPoms(lib, main, modules, keys[..i]).actions + next.actions;
          ChildPomsStop(lib, main, modules, keys, i + 1);
          return Plan(Some(UnpairedError(child.artifactId)), actions);
        }
        actions := actions + [WritePom(lib + [k, "pom.xml"], "grpc_pom.xml.tmpl",
                                       GrpcPom(main, child, ParentOf(main), modules[protoId]))];
      }
      i := i + 1;
    }
    assert keys[..|keys|] == keys;
    r := Plan(None, actions);
  }

  /** A turn of the loop after the first i keys, none of which failed. */
  lemma ChildPomsNext(lib: Path, main: Module, modules: map<string, Module>, keys: seq<string>, i: nat)
    requires forall k | k in keys :: k in modules
    requires i < |keys| && ChildPoms(lib, main, modules, keys[..i]).err.None?
    ensures var p := KeyPoms(lib, main, modules, keys[i]);
      ChildPoms(lib, main, modules, keys[..i + 1]) == Plan(p.err, ChildPoms(lib, main, modules, keys[..i]).actions + p.actions)
  {
    assert keys[..i + 1][..i] == keys[..i];
  }

  /** Once a grpc module has failed, the modules after it are not visited. */
  lemma {:induction false} ChildPomsStop(lib: Path, main: Module, modules: map<string, Module>, keys: seq<string>, i: int)
    requires forall k | k in keys :: k in modules
    requires 0 <= i <= |keys| && ChildPoms(lib, main, modules, keys[..i]).err.Some?
    ensures ChildPoms(lib, main, modules, keys) == ChildPoms(lib, main, modules, keys[..i])
    decreases |keys| - i
  {
    if i == |keys| {
      assert keys[..i] == keys;
    } else {
      assert keys[..i + 1][..i] == keys[..i];
      ChildPomsStop(lib, main, modules, keys, i + 1);
    }
  }

  /** The paths the actions write a pom to. */
  function Written(actions: seq<Action>): set<Path> {
    set a | a in actions && a.WritePom? :: a.path
  }

  /** A proto or grpc module's pom: written into the module's directory below `lib`
      from the template of its kind, naming the main module, the parent and, for a grpc
      module, its proto module. */
  predicate IsChildPom(lib: Path, main: Module, modules: map<string, Module>, a: Action) {
    a.WritePom? && |a.path| == |lib| + 2 && a.path[..|lib|] == lib && a.path[|lib| + 1] == "pom.xml"
    && a.path[|lib|] in modules
    && var k := a.path[|lib|];
    ((a.template == "proto_pom.xml.tmpl" && HasPrefix(k, "proto-")
      && a.data == ProtoPom(main, modules[k], ParentOf(main)))
     || (a.template == "grpc_pom.xml.tmpl" && HasPrefix(k, "grpc-")
         && ReplaceFirst(modules[k].artifactId, "grpc-", "proto-") in modules
         && a.data == GrpcPom(main, modules[k], ParentOf(main),
                              modules[ReplaceFirst(modules[k].artifactId, "grpc-", "proto-")])))
  }

  lemma ChildPomPath(lib: Path, k: string)
    ensures var p := lib + [k, "pom.xml"];
      |p| == |lib| + 2 && p[..|lib|] == lib && p[|lib|] == k && p[|lib| + 1] == "pom.xml"
  {
    assert (lib + [k, "pom.xml"])[..|lib|] == lib;
  }

  lemma WrittenConcat(a: seq<Action>, b: seq<Action>)
    ensures Written(a + b) == Written(a) + Written(b)
  {
  }

  /** One turn writes child poms only, fails exactly on a grpc module without its
      proto module, and otherwise writes the module's pom when it is a proto or grpc
      module. */
  lemma KeyPomsMeaning(lib: Path, main: Module, modules: map<string, Module>, k: string)
    requires k in modules
    ensures var p := KeyPoms(lib, main, modules, k);
      (forall a | a in p.actions :: IsChildPom(lib, main, modules, a))
      && (p.err.None? <==> !Unpaired(modules, k))
      && (p.err.Some? ==> p.err.value == UnpairedError(modules[k].artifactId))
      && (p.err.None? && (HasPrefix(k, "proto-") || HasPrefix(k, "grpc-")) ==> lib + [k, "pom.xml"] in Written(p.actions))
  {
    ChildPomPath(lib, k);
  }

  /** The loop over the modules writes child poms only, and when it succeeds every
      proto and grpc module has its pom. */
  lemma {:induction false} ChildPomsWritten(lib: Path, main: Module, modules: map<string, Module>, keys: seq<string>)
    requires forall k | k in keys :: k in modules
    ensures var r := ChildPoms(lib, main, modules, keys);
      (forall a | a in r.actions :: IsChildPom(lib, main, modules, a))
      && (r.err.None? ==> forall k | k in keys && (HasPrefix(k, "proto-") || HasPrefix(k, "grpc-")) ::
                            lib + [k, "pom.xml"] in Written(r.actions))
    decreases |keys|
  {
    if |keys| > 0 {
      var init := keys[..|keys| - 1];
      var k := keys[|keys| - 1];
      assert keys == init + [k];
      ChildPomsWritten(lib, main, modules, init);
      KeyPomsMeaning(lib, main, modules, k);
      var r0 := ChildPoms(lib, main, modules, init);
      WrittenConcat(r0.actions, KeyPoms(lib, main, modules, k).actions);
    }
  }

  /** The loop over the modules fails exactly when one of the keys is a grpc module
      without its proto module, and then names such a module. */
  lemma {:induction false} ChildPomsFailure(lib: Path, main: Module, modules: map<string, Module>, keys: seq<string>)
    requires forall k | k in keys :: k in modules
    ensures var r := ChildPoms(lib, main, modules, keys);
      (r.err.None? <==> forall k | k in keys :: !Unpaired(modules, k))
      && (r.err.Some? ==> exists k | k in keys :: Unpaired(modules, k) && r.err.value == UnpairedError(modules[k].artifactId))
    decreases |keys|
  {
    if |keys| > 0 {
      var init := keys[..|keys| - 1];
      var k := keys[|keys| - 1];
      assert keys == init + [k];
      ChildPomsFailure(lib, main, modules, init);
      KeyPomsMeaning(lib, main, modules, k);
      var r0 := ChildPoms(lib, main, modules, init);
      var r := ChildPoms(lib, main, modules, keys);
      if r0.err.Some? {
        assert r == r0;
        var j :| j in init && Unpaired(modules, j) && r0.err.value == UnpairedError(modules[j].artifactId);
        assert j in keys;
      } else {
        assert forall j | j in keys :: j in init || j == k;
      }
    }
  }

  /** The list holds exactly the map's modules, by increasing artifact ID. */
  ghost predicate ListsModules(s: seq<Module>, modules: map<string, Module>) {
    ArtifactsIncreasing(s) && forall x :: x in s <==> x in modules.Values
  }

  /** Listing the modules by their sorted keys sorts them by artifact ID. */
  lemma SortedModulesListed(modules: map<string, Module>, keys: seq<string>)
    requires KeyedByArtifact(modules) && SortedListing(keys, modules.Keys, StrLt)
    ensures ListsModules(ModulesOf(modules, keys), modules)
  {
    var s := ModulesOf(modules, keys);
    forall x | x in modules.Values ensures x in s {
      var k :| k in modules && modules[k] == x;
      var i :| 0 <= i < |keys| && keys[i] == k;
      assert s[i] == x;
    }
  }

  /** Every pom renderTemplates writes outside the module directories can be created:
      the parent pom, the client module's pom and the BOM. */
  predicate CreatesSucceed(m: map<Path, Node>, lib: Path, main: Module) {
    CreateError(m, ParentPomPath(lib)).None? && CreateError(m, ClientPomPath(lib, main)).None?
    && BomError(m, lib, main).None?
  }

  /** renderTemplates fails exactly when one of the parent, client or BOM poms cannot be
      created or a grpc module lacks its proto module. When the three can be created
      the error names an unpaired module; when only the client module's directory is
      missing, the error is os.Create's. */
  lemma RenderFailure(m: map<Path, Node>, lib: Path, main: Module, id: string, found: Discovered)
    requires KeyedByArtifact(found.modules)
    ensures var r := RenderSpec(m, lib, main, id, found);
      (r.err.Some? <==> !CreatesSucceed(m, lib, main) || exists k | k in found.modules :: Unpaired(found.modules, k))
      && (r.err.Some? && CreatesSucceed(m, lib, main) ==>
            exists k | k in found.modules :: Unpaired(found.modules, k) && r.err.value == UnpairedError(k))
      && ((&& CreateError(m, ParentPomPath(lib)).None?
           && (forall k | k in found.modules :: !Unpaired(found.modules, k))
           && CreateError(m, ClientPomPath(lib, main)).Some?)
          ==> r.err == CreateError(m, ClientPomPath(lib, main)))
  {
    ChildPomsFailure(lib, main, found.modules, SortedKeys(found.modules));
    assert RenderSpec(m, lib, main, id, found)
        == RenderPlan(CreateError(m, ParentPomPath(lib)), CreateError(m, ClientPomPath(lib, main)), BomError(m, lib, main),
                      lib, main, id, found);
  }

  /** What renderTemplates writes. When the parent pom cannot be created, nothing.
      Otherwise the parent pom comes first and lists every module by artifact ID; after
      a failure only child poms, the client module's pom and the BOM directory follow;
      after a success the child poms, covering every proto and grpc module, are followed
      by the client module's pom and the BOM, which lists the modules like the parent. */
  lemma RenderWrites(m: map<Path, Node>, lib: Path, main: Module, id: string, found: Discovered)
    requires KeyedByArtifact(found.modules)
    ensures var r := RenderSpec(m, lib, main, id, found);
      (CreateError(m, ParentPomPath(lib)).Some? ==> r == Plan(CreateError(m, ParentPomPath(lib)), []))
      && (CreateError(m, ParentPomPath(lib)).None? ==> ParentFirst(r.actions, lib, found))
      && (r.err.Some? ==> FailureWrites(r.actions, lib, main, id, found))
      && (r.err.None? ==> SuccessWrites(r.actions, lib, main, found))
  {
    var pe, ce, be := CreateError(m, ParentPomPath(lib)), CreateError(m, ClientPomPath(lib, main)), BomError(m, lib, main);
    assert RenderSpec(m, lib, main, id, found) == RenderPlan(pe, ce, be, lib, main, id, found);
    PlanWrites(pe, ce, be, lib, main, id, found);
  }

  /** The parent pom comes first and lists every module by artifact ID. */
  ghost predicate ParentFirst(actions: seq<Action>, lib: Path, found: Discovered) {
    |actions| >= 1 && actions[0].WritePom? && actions[0].path == lib + ["pom.xml"]
    && actions[0].data.ParentPom? && ListsModules(actions[0].data.modules, found.modules)
  }

  /** After the parent pom, a failed rendering has written only child poms, the client
      module's pom and the BOM directory. */
  predicate FailureWrites(actions: seq<Action>, lib: Path, main: Module, id: string, found: Discovered) {
    forall i | 1 <= i < |actions| ::
      IsChildPom(lib, main, found.modules, actions[i])
      || actions[i] == ClientPom(lib, main, id, found) || actions[i] == MkdirIfMissing(BomDir(lib, main))
  }

  /** A successful rendering: child poms covering every proto and grpc module, then the
      client module's pom and the BOM, which lists the modules like the parent. */
  ghost predicate SuccessWrites(actions: seq<Action>, lib: Path, main: Module, found: Discovered) {
    var n := |actions|;
    n >= 4
    && (forall i | 1 <= i < n - 3 :: IsChildPom(lib, main, found.modules, actions[i]))
    && (forall k | k in found.modules && (HasPrefix(k, "proto-") || HasPrefix(k, "grpc-")) ::
          lib + [k, "pom.xml"] in Written(actions[1..n - 3]))
    && actions[n - 3].WritePom? && actions[n - 3].path == lib + [main.artifactId, "pom.xml"]
    && actions[n - 3].data.CloudPom? && actions[n - 3].data.parent == ParentOf(main)
    && actions[n - 3].data.protos == found.protos && actions[n - 3].data.grpcs == found.grpcs
    && actions[n - 2] == MkdirIfMissing(lib + [main.artifactId + "-bom"])
    && actions[n - 1].WritePom? && actions[n - 1].path == lib + [main.artifactId + "-bom", "pom.xml"]
    && actions[n - 1].data.BomPom? && ListsModules(actions[n - 1].data.modules, found.modules)
  }

  lemma PlanWrites(pe: Status, ce: Status, be: Status, lib: Path, main: Module, id: string, found: Discovered)
    requires KeyedByArtifact(found.modules)
    ensures var r := RenderPlan(pe, ce, be, lib, main, id, found);
      (pe.Some? ==> r == Plan(pe, []))
      && (pe.None? ==> ParentFirst(r.actions, lib, found))
      && (r.err.Some? ==> FailureWrites(r.actions, lib, main, id, found))
      && (r.err.None? ==> SuccessWrites(r.actions, lib, main, found))
  {
    var keys := SortedKeys(found.modules);
    SortedModulesListed(found.modules, keys);
    if pe.None? {
      var r := RenderPlan(pe, ce, be, lib, main, id, found);
      if r.err.None? {
        PlanSuccessWrites(ce, be, lib, main, id, found);
      } else {
        PlanFailureWrites(ce, be, lib, main, id, found);
      }
    }
  }

  lemma PlanSuccessWrites(ce: Status, be: Status, lib: Path, main: Module, id: string, found: Discovered)
    requires KeyedByArtifact(found.modules)
    requires RenderPlan(None, ce, be, lib, main, id, found).err.None?
    ensures SuccessWrites(RenderPlan(None, ce, be, lib, main, id, found).actions, lib, main, found)
  {
    var keys := SortedKeys(found.modules);
    SortedModulesListed(found.modules, keys);
    ChildPomsWritten(lib, main, found.modules, keys);
    var c := ChildPoms(lib, main, found.modules, keys);
    var sorted := ModulesOf(found.modules, keys);
    var parent := WritePom(ParentPomPath(lib), "parent_pom.xml.tmpl", ParentPom(main, "Google Cloud " + id, sorted));
    var tail := [ClientPom(lib, main, id, found)] + BomPoms(lib, main, id, sorted);
    var a := RenderPlan(None, ce, be, lib, main, id, found).actions;
    assert a == [parent] + c.actions + tail;
    var n := |a|;
    assert a[1..n - 3] == c.actions;
    assert a[n - 3] == ClientPom(lib, main, id, found);
    assert a[n - 2] == MkdirIfMissing(lib + [main.artifactId + "-bom"]);
    assert a[n - 1] == BomPoms(lib, main, id, sorted)[1];
  }

  /** An element of [x] + mid + extra after the first lies in mid or in extra. */
  lemma ElementOfThree<T>(x: T, mid: seq<T>, extra: seq<T>, i: int)
    requires 1 <= i < 1 + |mid| + |extra|
    ensures var a := [x] + mid + extra;
      (i < 1 + |mid| ==> a[i] == mid[i - 1]) && (i >= 1 + |mid| ==> a[i] == extra[i - 1 - |mid|])
  {
  }

  lemma PlanFailureWrites(ce: Status, be: Status, lib: Path, main: Module, id: string, found: Discovered)
    requires KeyedByArtifact(found.modules)
    requires RenderPlan(None, ce, be, lib, main, id, found).err.Some?
    ensures FailureWrites(RenderPlan(None, ce, be, lib, main, id, found).actions, lib, main, id, found)
  {
    var keys := SortedKeys(found.modules);
    ChildPomsWritten(lib, main, found.modules, keys);
    var c := ChildPoms(lib, main, found.modules, keys);
    var sorted := ModulesOf(found.modules, keys);
    var parent := WritePom(ParentPomPath(lib), "parent_pom.xml.tmpl", ParentPom(main, "Google Cloud " + id, sorted));
    var a := RenderPlan(None, ce, be, lib, main, id, found).actions;
    var extra: seq<Action> := if c.err.Some? || ce.Some? then [] else [ClientPom(lib, main, id, found), MkdirIfMissing(BomDir(lib, main))];
    assert a == [parent] + c.actions + extra;
    forall i | 1 <= i < |a|
      ensures IsChildPom(lib, main, found.modules, a[i])
              || a[i] == ClientPom(lib, main, id, found) || a[i] == MkdirIfMissing(BomDir(lib, main))
    {
      ElementOfThree(parent, c.actions, extra, i);
    }
  }

  // ---------------------------------------------------------------------------
  // Generate
  // ---------------------------------------------------------------------------

  /** Generate: find the modules, then render the poms. */
  ghost function GenerateSpec(m: map<Path, Node>, lib: Path, id: string): Plan {
    var main := MainModule(id);
    var f := FindModulesSpec(m, lib, main);
    if f.Err? then Plan(Some("could not find modules: " + f.msg), [])
    else
      var r := RenderSpec(m, lib, main, id, f.value);
      Plan(if r.err.Some? then Some("could not render templates: " + r.err.value) else None, r.actions)
  }

  /** Generate. */
  method Generate(fs: FileSystem, lib: Path, id: string) returns (err: Status, actions: seq<Action>)
    ensures Plan(err, actions) == GenerateSpec(fs.entries, lib, id)
  {
    var main := MainModule(id);
    var f := FindModules(fs, lib, main);
    if f.Err? {
      return Some("could not find modules: " + f.msg), [];
    }
    var e;
    e, actions := RenderTemplates(fs, lib, main, id, f.value);
    if e.Some? {
      return Some("could not render templates: " + e.value), actions;
    }
    err := None;
  }

  /** A grpc- directory below the library with no proto- directory of the same suffix
      beside it. */
  predicate UnpairedDir(m: map<Path, Node>, lib: Path, n: string) {
    IsApiDir(m, lib, n) && HasPrefix(n, "grpc-") && !IsApiDir(m, lib, "proto-" + n[5..])
  }

  /** Below a readable library directory, a module lacks its proto module exactly when
      it is a grpc- directory without its proto- directory. */
  lemma UnpairedMeansDir(m: map<Path, Node>, lib: Path, id: string, modules: map<string, Module>, k: string)
    requires k in modules && KeyedByArtifact(modules)
    requires forall j :: j in modules <==> j == MainModule(id).artifactId || IsApiDir(m, lib, j)
    ensures Unpaired(modules, k) <==> UnpairedDir(m, lib, k)
  {
    if HasPrefix(k, "grpc-") {
      var p := "proto-" + k[5..];
      assert ReplaceFirst(k, "grpc-", "proto-") == p;
      assert p[0] == 'p' && HasPrefix(p, "proto-");
      assert modules[k].artifactId == k;
      assert MainModule(id).artifactId[1] == 'o' && k[1] == 'r';
      assert p != MainModule(id).artifactId;
    }
  }

  /** Generate in terms of the library directory: an unreadable directory fails before
      anything is written; otherwise the generation fails exactly when some grpc-X
      directory has no proto-X directory beside it or one of the parent, client and BOM
      poms cannot be created, and when those can be created it names such a directory. */
  lemma GenerateMeaning(m: map<Path, Node>, lib: Path, id: string)
    ensures !IsDirIn(m, lib) ==> GenerateSpec(m, lib, id) == Plan(Some("could not find modules: " + ReadDirError(lib)), [])
    ensures IsDirIn(m, lib) ==>
      var g := GenerateSpec(m, lib, id);
      (g.err.Some? <==> (exists n :: UnpairedDir(m, lib, n)) || !CreatesSucceed(m, lib, MainModule(id)))
      && (g.err.Some? && CreatesSucceed(m, lib, MainModule(id)) ==>
            exists n :: UnpairedDir(m, lib, n) && g.err.value == "could not render templates: " + UnpairedError(n))
  {
    if IsDirIn(m, lib) {
      var main := MainModule(id);
      FindModulesMeaning(m, lib, id);
      var f := FindModulesSpec(m, lib, main).value;
      RenderFailure(m, lib, main, id, f);
      forall k | k in f.modules ensures Unpaired(f.modules, k) <==> UnpairedDir(m, lib, k) {
        UnpairedMeansDir(m, lib, id, f.modules, k);
      }
      forall n | UnpairedDir(m, lib, n) ensures n in f.modules {
      }
    }
  }

  /** The documented precondition matters: when the client module's directory
      google-cloud-<id> is missing and nothing else is wrong, Generate fails creating
      its pom. */
  lemma MissingClientDirFails(m: map<Path, Node>, lib: Path, id: string)
    requires IsDirIn(m, lib) && CreateError(m, ParentPomPath(lib)).None?
    requires StatIn(m, lib + [MainModule(id).artifactId]).NotExist?
    requires forall n :: !UnpairedDir(m, lib, n)
    ensures GenerateSpec(m, lib, id).err
            == Some("could not render templates: " + "open " + PathString(ClientPomPath(lib, MainModule(id)))
                    + ": no such file or directory")
  {
    var main := MainModule(id);
    var f := FindModulesSpec(m, lib, main);
    NoUnpairedModules(m, lib, id);
    var e := ClientCreateMissing(m, lib, main);
    RenderFailure(m, lib, main, id, f.value);
    var r := RenderSpec(m, lib, main, id, f.value);
    assert r.err == e;
    assert GenerateSpec(m, lib, id).err == Some("could not render templates: " + r.err.value);
    assert "could not render templates: " + r.err.value
        == "could not render templates: " + "open " + PathString(ClientPomPath(lib, main)) + ": no such file or directory";
  }

  /** Without an unpaired grpc- directory no found module is unpaired. */
  lemma NoUnpairedModules(m: map<Path, Node>, lib: Path, id: string)
    requires IsDirIn(m, lib)
    requires forall n :: !UnpairedDir(m, lib, n)
    ensures var f := FindModulesSpec(m, lib, MainModule(id));
      f.Ok? && KeyedByArtifact(f.value.modules) && forall k | k in f.value.modules :: !Unpaired(f.value.modules, k)
  {
    FindModulesMeaning(m, lib, id);
    var f := FindModulesSpec(m, lib, MainModule(id)).value;
    forall k | k in f.modules ensures !Unpaired(f.modules, k) {
      UnpairedMeansDir(m, lib, id, f.modules, k);
    }
  }

  /** os.Create's error for the client module's pom in a missing directory. */
  lemma ClientCreateMissing(m: map<Path, Node>, lib: Path, main: Module) returns (e: Status)
    requires StatIn(m, lib + [main.artifactId]).NotExist?
    ensures e == CreateError(m, ClientPomPath(lib, main))
    ensures e == Some("open " + PathString(ClientPomPath(lib, main)) + ": no such file or directory")
  {
    assert ClientPomPath(lib, main)[..|ClientPomPath(lib, main)| - 1] == lib + [main.artifactId];
    e := CreateError(m, ClientPomPath(lib, main));
  }
}
