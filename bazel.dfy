/** The interpretation of a BUILD.bazel file in internal/config/bazel/parser.go: the
    generator configuration read from the first go_gapic_library rule, the checks made on
    it, and the per-language transports of the seven *_gapic_library rule kinds. The
    Starlark parser itself is not modelled: a parsed file is its rules, in order, each
    with its kind and its attributes. */
module Bazel {
  import opened Strs
  import opened Outcome

  /** An attribute value: a string, an identifier or literal token (True, False, 42), a
      list of strings, or any other expression. */
  datatype Attr = Str(s: string) | Token(text: string) | StrList(items: seq<string>) | OtherExpr

  datatype Rule = Rule(kind: string, attrs: map<string, Attr>)

  /** The outcome of reading and parsing the file. */
  datatype BuildFile = Unreadable(readErr: string) | Unparsable(parseErr: string) | Parsed(rules: seq<Rule>)

  /** Rule.AttrString: the value of a string attribute, "" otherwise. */
  function AttrString(r: Rule, key: string): string {
    if key in r.attrs && r.attrs[key].Str? then r.attrs[key].s else ""
  }

  /** Rule.AttrLiteral: the text of an identifier or literal token, "" otherwise. */
  function AttrLiteral(r: Rule, key: string): string {
    if key in r.attrs && r.attrs[key].Token? then r.attrs[key].text else ""
  }

  /** Rule.AttrStrings: the elements of a list of strings, empty otherwise. */
  function AttrStrings(r: Rule, key: string): seq<string> {
    if key in r.attrs && r.attrs[key].StrList? then r.attrs[key].items else []
  }

  /** File.Rules(kind): the rules of that kind, in file order. */
  function RulesOf(rules: seq<Rule>, kind: string): seq<Rule>
    decreases |rules|
  {
    if |rules| == 0 then []
    else (if rules[0].kind == kind then [rules[0]] else []) + RulesOf(rules[1..], kind)
  }

  /** The rules of a kind are rules of the file, of that kind, and there is one exactly
      when the file has a rule of that kind. */
  lemma {:induction false} RulesOfMeaning(rules: seq<Rule>, kind: string)
    ensures forall k | 0 <= k < |RulesOf(rules, kind)| :: RulesOf(rules, kind)[k].kind == kind && RulesOf(rules, kind)[k] in rules
    ensures |RulesOf(rules, kind)| > 0 <==> exists k | 0 <= k < |rules| :: rules[k].kind == kind
    decreases |rules|
  {
    if |rules| > 0 {
      RulesOfMeaning(rules[1..], kind);
      var r := RulesOf(rules, kind);
      var head := if rules[0].kind == kind then [rules[0]] else [];
      assert r == head + RulesOf(rules[1..], kind);
      forall k | 0 <= k < |r| ensures r[k].kind == kind && r[k] in rules {
        if k >= |head| { assert r[k] == RulesOf(rules[1..], kind)[k - |head|]; assert r[k] in rules[1..]; }
      }
      if exists k | 0 <= k < |rules| :: rules[k].kind == kind {
        var k :| 0 <= k < |rules| && rules[k].kind == kind;
        if k > 0 { assert rules[1..][k - 1].kind == kind; }
      }
      if |RulesOf(rules[1..], kind)| > 0 {
        var k :| 0 <= k < |rules[1..]| && rules[1..][k].kind == kind;
        assert rules[k + 1].kind == kind;
      }
    }
  }

  /** The first rule of a kind is the earliest rule of that kind in the file. */
  lemma {:induction false} FirstRuleOf(rules: seq<Rule>, kind: string, i: nat)
    requires i < |rules| && rules[i].kind == kind
    requires forall j | 0 <= j < i :: rules[j].kind != kind
    ensures |RulesOf(rules, kind)| > 0 && RulesOf(rules, kind)[0] == rules[i]
    decreases i
  {
    if i > 0 {
      FirstRuleOf(rules[1..], kind, i - 1);
    }
  }

  // ---------------------------------------------------------------------------
  // Parse
  // ---------------------------------------------------------------------------

  /** The generator configuration of a BUILD.bazel file. */
  datatype Config = Config(
    diregapic: bool,
    gapicImportPath: string,
    grpcServiceConfig: string,
    hasGapic: bool,
    hasGoGrpc: bool,
    hasLegacyGrpc: bool,
    metadata: bool,
    releaseLevel: string,
    restNumericEnums: bool,
    serviceYaml: string,
    transport: string)

  const EmptyConfig := Config(false, "", "", false, false, false, false, "", false, "", "")

  /** The compiler of go_proto_library that marks the legacy gRPC plugin. */
  const LegacyGrpcCompiler := "@io_bazel_rules_go//proto:go_grpc"

  /** strings.TrimPrefix. */
  function TrimPrefix(s: string, p: string): (r: string)
    ensures HasPrefix(s, p) ==> p + r == s
    ensures !HasPrefix(s, p) ==> r == s
  {
    if HasPrefix(s, p) then s[|p|..] else s
  }

  /** The configuration read from a go_gapic_library rule. */
  function GapicConfig(rule: Rule): Config {
    Config(
      diregapic := AttrLiteral(rule, "diregapic") == "True",
      gapicImportPath := AttrString(rule, "importpath"),
      grpcServiceConfig := AttrString(rule, "grpc_service_config"),
      hasGapic := true,
      hasGoGrpc := false,
      hasLegacyGrpc := false,
      metadata := AttrLiteral(rule, "metadata") == "True",
      releaseLevel := AttrString(rule, "release_level"),
      restNumericEnums := AttrLiteral(rule, "rest_numeric_enums") == "True",
      serviceYaml := TrimPrefix(AttrString(rule, "service_yaml"), ":"),
      transport := AttrString(rule, "transport"))
  }

  /** Some compiler names the legacy gRPC plugin. */
  predicate NamesLegacyGrpc(compilers: seq<string>) {
    exists k | 0 <= k < |compilers| :: Contains(compilers[k], LegacyGrpcCompiler)
  }

  /** The loop over the compilers of the first go_proto_library rule, which stops at
      the first one naming the legacy gRPC plugin. */
  method FindLegacyGrpc(compilers: seq<string>) returns (found: bool)
    ensures found <==> NamesLegacyGrpc(compilers)
  {
    found := false;
    var k := 0;
    while k < |compilers|
      invariant 0 <= k <= |compilers|
      invariant forall j | 0 <= j < k :: !Contains(compilers[j], LegacyGrpcCompiler)
    {
      if Contains(compilers[k], LegacyGrpcCompiler) {
        found := true;
        break;
      }
      k := k + 1;
    }
  }

  /** The prefixes of Parse's error messages, which end with the file's path. */
  const BothGrpcError := "BUILD.bazel cannot have both go_grpc_library and go_proto_library: "
  const ImportPathError := "GAPICImportPath not set: "
  const ServiceYamlError := "ServiceYAML not set: "

  /** What Parse returns for a parsed file. */
  function ParsedConfig(rules: seq<Rule>, path: string): Result<Config> {
    ConfigOf(RulesOf(rules, "go_gapic_library"), RulesOf(rules, "go_grpc_library"),
             RulesOf(rules, "go_proto_library"), path)
  }

  /** The configuration, from the go_gapic_library, go_grpc_library and
      go_proto_library rules of the file. */
  function ConfigOf(gapic: seq<Rule>, grpc: seq<Rule>, proto: seq<Rule>, path: string): Result<Config> {
    if |grpc| > 0 && |proto| > 0 then Err(BothGrpcError + path)
    else
      var base := if |gapic| > 0 then GapicConfig(gapic[0]) else EmptyConfig;
      var cfg := base.(hasGoGrpc := |grpc| > 0,
                       hasLegacyGrpc := |proto| > 0 && NamesLegacyGrpc(AttrStrings(proto[0], "compilers")));
      if cfg.hasGapic && cfg.gapicImportPath == "" then Err(ImportPathError + path)
      else if cfg.hasGapic && cfg.serviceYaml == "" then Err(ServiceYamlError + path)
      else Ok(cfg)
  }

  /** Parse: the configuration comes from the first go_gapic_library rule (with every
      field empty when there is none); go_grpc_library sets HasGoGRPC and may not be
      combined with go_proto_library; a GAPIC configuration needs an import path and a
      service YAML. */
  lemma ConfigOfMeaning(gapic: seq<Rule>, grpc: seq<Rule>, proto: seq<Rule>, path: string)
    ensures var r := ConfigOf(gapic, grpc, proto, path);
      && (|grpc| > 0 && |proto| > 0 ==>
            r == Err(BothGrpcError + path))
      && (!(|grpc| > 0 && |proto| > 0) && |gapic| > 0 && AttrString(gapic[0], "importpath") == "" ==>
            r == Err(ImportPathError + path))
      && (!(|grpc| > 0 && |proto| > 0) && |gapic| > 0 && AttrString(gapic[0], "importpath") != ""
          && GapicConfig(gapic[0]).serviceYaml == "" ==>
            r == Err(ServiceYamlError + path))
      && (r.Ok? <==> (!(|grpc| > 0 && |proto| > 0)
                      && (|gapic| > 0 ==> GapicConfig(gapic[0]).gapicImportPath != "" && GapicConfig(gapic[0]).serviceYaml != "")))
      && (r.Ok? ==>
            && r.value.hasGapic == (|gapic| > 0)
            && r.value.hasGoGrpc == (|grpc| > 0)
            && (r.value.hasLegacyGrpc <==> |proto| > 0 && NamesLegacyGrpc(AttrStrings(proto[0], "compilers")))
            && r.value.(hasGoGrpc := false, hasLegacyGrpc := false)
               == if |gapic| > 0 then GapicConfig(gapic[0]) else EmptyConfig)
  {
  }

  /** Parse, on the outcome of reading and parsing the file. */
  method Parse(file: BuildFile, path: string) returns (r: Result<Config>)
    ensures file.Unreadable? ==> r == Err("failed to read BUILD.bazel file " + path + ": " + file.readErr)
    ensures file.Unparsable? ==> r == Err("failed to parse BUILD.bazel file " + path + ": " + file.parseErr)
    ensures file.Parsed? ==> r == ParsedConfig(file.rules, path)
  {
    if file.Unreadable? {
      return Err("failed to read BUILD.bazel file " + path + ": " + file.readErr);
    }
    if file.Unparsable? {
      return Err("failed to parse BUILD.bazel file " + path + ": " + file.parseErr);
    }
    var cfg := EmptyConfig;
    var gapic := RulesOf(file.rules, "go_gapic_library");
    if |gapic| > 0 {
      cfg := GapicConfig(gapic[0]);
    }
    if |RulesOf(file.rules, "go_grpc_library")| > 0 {
      cfg := cfg.(hasGoGrpc := true);
    }
    var proto := RulesOf(file.rules, "go_proto_library");
    if |proto| > 0 {
      if cfg.hasGoGrpc {
        return Err(BothGrpcError + path);
      }
      var legacy := FindLegacyGrpc(AttrStrings(proto[0], "compilers"));
      if legacy {
        cfg := cfg.(hasLegacyGrpc := true);
      }
    }
    if cfg.hasGapic {
      if cfg.gapicImportPath == "" {
        return Err(ImportPathError + path);
      }
      if cfg.serviceYaml == "" {
        return Err(ServiceYamlError + path);
      }
    }
    r := Ok(cfg);
  }

  /** A leading ":" (a target label) is stripped from service_yaml, and only from the
      front. */
  lemma ServiceYamlLabelStripped(rule: Rule, yaml: string)
    requires AttrString(rule, "service_yaml") == ":" + yaml
    ensures GapicConfig(rule).serviceYaml == yaml
  {
    assert HasPrefix(":" + yaml, ":");
  }

  /** The flags metadata, rest_numeric_enums and diregapic hold only for the exact token
      True: a string "True" or any other spelling leaves them false. */
  lemma BooleanFlagsNeedTrueToken(rule: Rule)
    ensures GapicConfig(rule).metadata
      <==> "metadata" in rule.attrs && rule.attrs["metadata"] == Token("True")
    ensures GapicConfig(rule).restNumericEnums
      <==> "rest_numeric_enums" in rule.attrs && rule.attrs["rest_numeric_enums"] == Token("True")
    ensures GapicConfig(rule).diregapic
      <==> "diregapic" in rule.attrs && rule.attrs["diregapic"] == Token("True")
  {
  }

  // ---------------------------------------------------------------------------
  // ParseTransports
  // ---------------------------------------------------------------------------

  /** ruleToLang: the GAPIC rule kinds and the language each one configures. */
  const RuleToLang: seq<(string, string)> := [
    ("csharp_gapic_library", "csharp"),
    ("go_gapic_library", "go"),
    ("java_gapic_library", "java"),
    ("nodejs_gapic_library", "nodejs"),
    ("php_gapic_library", "php"),
    ("py_gapic_library", "python"),
    ("ruby_cloud_gapic_library", "ruby")]

  /** A table of rule kinds whose languages are pairwise distinct. */
  predicate DistinctLanguages(table: seq<(string, string)>) {
    forall i, j | 0 <= i < j < |table| :: table[i].1 != table[j].1
  }

  lemma RuleLanguagesDistinct()
    ensures DistinctLanguages(RuleToLang)
  {
  }

  /** The transport of the last rule, among `rs`, whose transport is not empty. */
  function LastTransport(rs: seq<Rule>): string
    decreases |rs|
  {
    if |rs| == 0 then ""
    else if AttrString(rs[|rs| - 1], "transport") != "" then AttrString(rs[|rs| - 1], "transport")
    else LastTransport(rs[..|rs| - 1])
  }

  /** The last non-empty transport wins: it is empty exactly when every rule's transport
      is, and otherwise it is the transport of some rule after which every transport is
      empty. */
  lemma LastTransportMeaning(rs: seq<Rule>)
    ensures LastTransport(rs) == "" <==> forall k | 0 <= k < |rs| :: AttrString(rs[k], "transport") == ""
    ensures LastTransport(rs) != "" ==> exists k | 0 <= k < |rs| :: WinsAt(rs, k)
  {
    LastTransportEmpty(rs);
    if LastTransport(rs) != "" {
      LastTransportWins(rs);
    }
  }

  /** Rule k's transport is the last non-empty one: it is LastTransport and every later
      rule's transport is empty. */
  predicate WinsAt(rs: seq<Rule>, k: nat)
    requires k < |rs|
  {
    && AttrString(rs[k], "transport") == LastTransport(rs)
    && forall j | k < j < |rs| :: AttrString(rs[j], "transport") == ""
  }

  lemma {:induction false} LastTransportEmpty(rs: seq<Rule>)
    ensures LastTransport(rs) == "" <==> forall k | 0 <= k < |rs| :: AttrString(rs[k], "transport") == ""
    decreases |rs|
  {
    if |rs| > 0 {
      var init := rs[..|rs| - 1];
      LastTransportEmpty(init);
      assert forall k | 0 <= k < |init| :: init[k] == rs[k];
    }
  }

  lemma {:induction false} LastTransportWins(rs: seq<Rule>)
    requires LastTransport(rs) != ""
    ensures exists k | 0 <= k < |rs| :: WinsAt(rs, k)
    decreases |rs|
  {
    var last := |rs| - 1;
    if AttrString(rs[last], "transport") != "" {
      assert WinsAt(rs, last);
    } else {
      var init := rs[..last];
      LastTransportWins(init);
      var k :| 0 <= k < |init| && WinsAt(init, k);
      assert forall j | 0 <= j < |init| :: init[j] == rs[j];
      assert WinsAt(rs, k);
    }
  }

  /** What ParseTransports reports for the rule kind at index i of the table. */
  predicate ReportsKind(rules: seq<Rule>, table: seq<(string, string)>, r: map<string, string>, i: nat)
    requires i < |table|
  {
    var t := LastTransport(RulesOf(rules, table[i].0));
    (table[i].1 in r <==> t != "") && (t != "" ==> r[table[i].1] == t)
  }

  /** The languages of the first n rule kinds of the table. */
  predicate LanguageOfKind(lang: string, table: seq<(string, string)>, n: nat)
    requires n <= |table|
  {
    exists i | 0 <= i < n :: table[i].1 == lang
  }

  /** The transports map built from the first n rule kinds of the table. */
  function TransportsUpTo(rules: seq<Rule>, table: seq<(string, string)>, n: nat): map<string, string>
    requires n <= |table|
  {
    if n == 0 then map[]
    else WithLast(TransportsUpTo(rules, table, n - 1), RulesOf(rules, table[n - 1].0), table[n - 1].1)
  }

  /** `transports` with `lang` mapped to the last non-empty transport of `rs`, if any. */
  function WithLast(transports: map<string, string>, rs: seq<Rule>, lang: string): map<string, string> {
    var t := LastTransport(rs);
    if t != "" then transports[lang := t] else transports
  }

  /** The transports map of a parsed file. */
  function ParsedTransports(rules: seq<Rule>): map<string, string> {
    TransportsUpTo(rules, RuleToLang, |RuleToLang|)
  }

  /** The map built from the first n kinds reports each of them, has only their languages
      as keys, and no empty value. */
  lemma {:induction false} TransportsUpToReports(rules: seq<Rule>, table: seq<(string, string)>, n: nat)
    requires n <= |table| && DistinctLanguages(table)
    ensures forall k | 0 <= k < n :: ReportsKind(rules, table, TransportsUpTo(rules, table, n), k)
    ensures forall lang | lang in TransportsUpTo(rules, table, n) :: LanguageOfKind(lang, table, n)
    ensures forall lang | lang in TransportsUpTo(rules, table, n) :: TransportsUpTo(rules, table, n)[lang] != ""
  {
    if n > 0 {
      var before := TransportsUpTo(rules, table, n - 1);
      TransportsUpToReports(rules, table, n - 1);
      NotYetReported(before, table, n - 1);
      var after := TransportsUpTo(rules, table, n);
      assert after == WithLast(before, RulesOf(rules, table[n - 1].0), table[n - 1].1);
      KindAdded(rules, table, before, after, n - 1);
    }
  }

  /** ParseTransports: for every GAPIC rule kind, the language maps to the last non-empty
      transport among the rules of that kind; a kind without one adds nothing. The Go
      code ranges over a map from kind to language; the languages are distinct, so the
      order of that range does not change the result. */
  method ParseTransports(file: BuildFile, path: string) returns (r: Result<map<string, string>>)
    ensures file.Unreadable? ==> r == Err("failed to read BUILD.bazel file " + path + ": " + file.readErr)
    ensures file.Unparsable? ==> r == Err("failed to parse BUILD.bazel file " + path + ": " + file.parseErr)
    ensures file.Parsed? ==> r == Ok(ParsedTransports(file.rules))
  {
    if file.Unreadable? {
      return Err("failed to read BUILD.bazel file " + path + ": " + file.readErr);
    }
    if file.Unparsable? {
      return Err("failed to parse BUILD.bazel file " + path + ": " + file.parseErr);
    }
    var transports := CollectTransports(file.rules, RuleToLang);
    r := Ok(transports);
  }

  /** The loop over the rule kinds. */
  method CollectTransports(rules: seq<Rule>, table: seq<(string, string)>) returns (transports: map<string, string>)
    ensures transports == TransportsUpTo(rules, table, |table|)
  {
    transports := map[];
    var i := 0;
    while i < |table|
      invariant 0 <= i <= |table|
      invariant transports == TransportsUpTo(rules, table, i)
    {
      ghost var before := transports;
      transports := AddKind(transports, RulesOf(rules, table[i].0), table[i].1);
      TransportsStep(rules, table, i, before, transports);
      i := i + 1;
    }
  }

  lemma TransportsStep(rules: seq<Rule>, table: seq<(string, string)>, i: nat, before: map<string, string>,
                       after: map<string, string>)
    requires i < |table| && before == TransportsUpTo(rules, table, i)
    requires after == WithLast(before, RulesOf(rules, table[i].0), table[i].1)
    ensures after == TransportsUpTo(rules, table, i + 1)
  {
  }

  /** What ParseTransports computes: each kind reports its last non-empty transport under
      its language, and nothing else is in the map. */
  lemma ParsedTransportsMeaning(rules: seq<Rule>)
    ensures forall i | 0 <= i < |RuleToLang| :: ReportsKind(rules, RuleToLang, ParsedTransports(rules), i)
    ensures forall lang | lang in ParsedTransports(rules) :: LanguageOfKind(lang, RuleToLang, |RuleToLang|)
    ensures forall lang | lang in ParsedTransports(rules) :: ParsedTransports(rules)[lang] != ""
  {
    RuleLanguagesDistinct();
    TransportsUpToReports(rules, RuleToLang, |RuleToLang|);
  }

  /** Before kind i is visited, its language has no entry. */
  lemma NotYetReported(transports: map<string, string>, table: seq<(string, string)>, i: nat)
    requires i < |table| && DistinctLanguages(table)
    requires forall lang | lang in transports :: LanguageOfKind(lang, table, i)
    ensures table[i].1 !in transports
  {
  }

  /** Adding the language of kind i keeps what the earlier kinds reported. */
  lemma KindAdded(rules: seq<Rule>, table: seq<(string, string)>, before: map<string, string>, after: map<string, string>, i: nat)
    requires i < |table| && DistinctLanguages(table)
    requires forall k | 0 <= k < i :: ReportsKind(rules, table, before, k)
    requires forall lang | lang in before :: LanguageOfKind(lang, table, i)
    requires table[i].1 !in before
    requires forall lang | lang in before :: before[lang] != ""
    requires after == WithLast(before, RulesOf(rules, table[i].0), table[i].1)
    ensures forall k | 0 <= k <= i :: ReportsKind(rules, table, after, k)
    ensures forall lang | lang in after :: LanguageOfKind(lang, table, i + 1)
    ensures forall lang | lang in after :: after[lang] != ""
  {
    forall k | 0 <= k < i ensures ReportsKind(rules, table, after, k) {
      assert table[k].1 != table[i].1;
      assert ReportsKind(rules, table, before, k);
    }
  }

  /** The inner loop over the rules of one kind: each non-empty transport overwrites the
      language's entry. */
  method AddKind(transports: map<string, string>, rs: seq<Rule>, lang: string) returns (r: map<string, string>)
    ensures r == WithLast(transports, rs, lang)
  {
    r := transports;
    var j := 0;
    while j < |rs|
      invariant 0 <= j <= |rs|
      invariant r == WithLast(transports, rs[..j], lang)
    {
      assert rs[..j + 1][..j] == rs[..j];
      var t := AttrString(rs[j], "transport");
      if t != "" {
        r := r[lang := t];
      }
      j := j + 1;
    }
    assert rs[..j] == rs;
  }
}
