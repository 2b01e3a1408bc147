/** The per-entry update of internal/librarianops/update_transports.go: for each entry of
    the APIs slice literal in internal/serviceconfig/api.go, the BUILD.bazel file under
    the entry's Path gives a transports map (Bazel.ParseTransports); the map collapses to
    a single "all" entry when the seven languages share one transport; it is rendered as
    a Go map literal with its keys in ascending order; and it replaces the entry's
    Transports field, or is appended when there is none. The Go syntax tree is reduced to
    the expressions the update reads and writes. */
module UpdateTransports {
  import opened Strs
  import opened Outcome
  import opened Sorting
  import Bazel
  import ServiceConfig

  /** allLanguages: the languages a BUILD.bazel file can configure. */
  const AllLanguages: seq<string> := ["csharp", "go", "java", "nodejs", "php", "python", "ruby"]

  /** langConstantExists: the languages rendered through a language constant. */
  predicate LangConstantExists(lang: string) {
    lang in {"all", "csharp", "go", "java", "nodejs", "php", "python", "ruby", "rust"}
  }

  // ---------------------------------------------------------------------------
  // Go syntax
  // ---------------------------------------------------------------------------

  datatype LitKind = StringLit | OtherLit

  /** The expressions of the APIs literal: identifiers, basic literals (with their source
      text, quotes included), key-value pairs, struct literals, map literals with their
      key and value types, and anything else. */
  datatype Expr =
    | Ident(name: string)
    | BasicLit(kind: LitKind, text: string)
    | KeyValue(key: Expr, value: Expr)
    | Composite(elts: seq<Expr>)
    | MapLit(keyType: string, valueType: string, entries: seq<Expr>)
    | OtherExpr

  /** A key-value element whose key is the identifier `name`. */
  predicate IsField(e: Expr, name: string) {
    e.KeyValue? && e.key.Ident? && e.key.name == name
  }

  /** A Path field whose value is a string literal. */
  predicate IsPathString(e: Expr) {
    IsField(e, "Path") && e.value.BasicLit? && e.value.kind == StringLit
  }

  /** strings.Trim(s, "\""), in two halves. */
  function TrimLeadingQuotes(s: string): (r: string)
    ensures |r| <= |s| && r == s[|s| - |r|..]
    ensures |r| > 0 ==> r[0] != '"'
    decreases |s|
  {
    if |s| > 0 && s[0] == '"' then TrimLeadingQuotes(s[1..]) else s
  }

  function TrimTrailingQuotes(s: string): (r: string)
    ensures |r| <= |s| && r == s[..|r|]
    ensures |r| > 0 ==> r[|r| - 1] != '"'
    decreases |s|
  {
    if |s| > 0 && s[|s| - 1] == '"' then TrimTrailingQuotes(s[..|s| - 1]) else s
  }

  function TrimQuotes(s: string): (r: string)
    ensures |r| > 0 ==> r[0] != '"' && r[|r| - 1] != '"'
  {
    TrimTrailingQuotes(TrimLeadingQuotes(s))
  }

  /** Trimming undoes quoting for any text that neither starts nor ends with a quote. */
  lemma TrimQuotesOfQuote(s: string)
    requires |s| > 0 ==> s[0] != '"' && s[|s| - 1] != '"'
    ensures TrimQuotes(Quote(s)) == s
  {
    assert Quote(s)[1..] == s + "\"";
    if |s| > 0 {
      assert TrimLeadingQuotes(s + "\"") == s + "\"";
    } else {
      assert TrimLeadingQuotes("\"") == TrimLeadingQuotes("");
    }
    assert (s + "\"")[..|s|] == s;
  }

  /** The Path of an entry: the trimmed text of the last Path field holding a string
      literal, "" when there is none. */
  function PathOf(elts: seq<Expr>): string
    decreases |elts|
  {
    if |elts| == 0 then ""
    else if IsPathString(elts[|elts| - 1]) then TrimQuotes(elts[|elts| - 1].value.text)
    else PathOf(elts[..|elts| - 1])
  }

  /** The index of the last Transports field, -1 when there is none. */
  function TransportsIndex(elts: seq<Expr>): (r: int)
    ensures -1 <= r < |elts|
    ensures r >= 0 ==> IsField(elts[r], "Transports")
    ensures forall j | r < j < |elts| :: !IsField(elts[j], "Transports")
    decreases |elts|
  {
    if |elts| == 0 then -1
    else if IsField(elts[|elts| - 1], "Transports") then |elts| - 1
    else TransportsIndex(elts[..|elts| - 1])
  }

  /** The loop over an entry's elements that finds its Path and its Transports field. */
  method ScanFields(elts: seq<Expr>) returns (path: string, transportsIdx: int)
    ensures path == PathOf(elts)
    ensures transportsIdx == TransportsIndex(elts)
  {
    path := "";
    transportsIdx := -1;
    var i := 0;
    while i < |elts|
      invariant 0 <= i <= |elts|
      invariant path == PathOf(elts[..i])
      invariant transportsIdx == TransportsIndex(elts[..i])
    {
      assert elts[..i + 1][..i] == elts[..i];
      var kv := elts[i];
      if kv.KeyValue? && kv.key.Ident? {
        if kv.key.name == "Path" && kv.value.BasicLit? && kv.value.kind == StringLit {
          path := TrimQuotes(kv.value.text);
        }
        if kv.key.name == "Transports" {
          transportsIdx := i;
        }
      }
      i := i + 1;
    }
    assert elts[..i] == elts;
  }

  // ---------------------------------------------------------------------------
  // Collapsing to "all"
  // ---------------------------------------------------------------------------

  /** Every language is in the map, and from the first non-empty value on, every value
      equals it (empty values before it are skipped, empty values after it break the
      run). */
  predicate SharedTransport(t: map<string, string>, langs: seq<string>) {
    && (forall k | 0 <= k < |langs| :: langs[k] in t)
    && (forall i, j | 0 <= i < j < |langs| && langs[i] in t && langs[j] in t ::
          t[langs[i]] != "" ==> t[langs[j]] == t[langs[i]])
  }

  /** The first non-empty value among the first n languages, "" when there is none. */
  function FirstNonEmpty(t: map<string, string>, langs: seq<string>, n: nat): string
    requires n <= |langs|
  {
    if n == 0 then ""
    else
      var f := FirstNonEmpty(t, langs, n - 1);
      if f != "" then f else if langs[n - 1] in t then t[langs[n - 1]] else ""
  }

  /** The map collapses when it has exactly the languages of allLanguages and they share
      one transport. */
  predicate Collapsible(t: map<string, string>) {
    |t| == |AllLanguages| && |t| > 0 && SharedTransport(t, AllLanguages)
  }

  function Collapsed(t: map<string, string>): map<string, string> {
    if Collapsible(t) then map[ServiceConfig.LangAll := FirstNonEmpty(t, AllLanguages, |AllLanguages|)] else t
  }

  /** The collapsing loop of the update, over the language list it is given. */
  method CollapseOver(t: map<string, string>, langs: seq<string>) returns (r: map<string, string>)
    ensures r == if |t| == |langs| && |t| > 0 && SharedTransport(t, langs)
                 then map[ServiceConfig.LangAll := FirstNonEmpty(t, langs, |langs|)] else t
  {
    var allSame := |t| == |langs|;
    var firstVal := "";
    if allSame {
      ghost var firstIdx := -1;
      var i := 0;
      while i < |langs|
        invariant 0 <= i <= |langs|
        invariant allSame ==> |t| == |langs|
        invariant allSame ==> forall k | 0 <= k < i :: langs[k] in t
        invariant allSame ==> firstVal == FirstNonEmpty(t, langs, i)
        invariant allSame ==> forall k | 0 <= k < i && langs[k] in t :: t[langs[k]] == "" || t[langs[k]] == firstVal
        invariant allSame && firstVal == "" ==> forall k | 0 <= k < i && langs[k] in t :: t[langs[k]] == ""
        invariant allSame && firstVal != "" ==> 0 <= firstIdx < i && langs[firstIdx] in t && t[langs[firstIdx]] == firstVal
        invariant allSame ==> forall a, b | 0 <= a < b < i && langs[a] in t && langs[b] in t ::
                    t[langs[a]] != "" ==> t[langs[b]] == t[langs[a]]
        invariant !allSame ==> !SharedTransport(t, langs)
        decreases |langs| - i, allSame
      {
        if langs[i] !in t {
          allSame := false;
          break;
        }
        var val := t[langs[i]];
        if firstVal == "" {
          firstVal := val;
          firstIdx := i;
        } else if val != firstVal {
          assert t[langs[firstIdx]] != "" && t[langs[i]] != t[langs[firstIdx]];
          allSame := false;
          break;
        }
        i := i + 1;
      }
    }
    if allSame && |t| > 0 {
      r := map[ServiceConfig.LangAll := firstVal];
    } else {
      r := t;
    }
  }

  method Collapse(t: map<string, string>) returns (r: map<string, string>)
    ensures r == Collapsed(t)
  {
    r := CollapseOver(t, AllLanguages);
  }

  /** Once the first language has a non-empty value, it is the first non-empty value. */
  lemma {:induction false} FirstNonEmptyIsFirst(t: map<string, string>, langs: seq<string>, n: nat)
    requires 0 < n <= |langs| && langs[0] in t && t[langs[0]] != ""
    ensures FirstNonEmpty(t, langs, n) == t[langs[0]]
  {
    if n > 1 {
      FirstNonEmptyIsFirst(t, langs, n - 1);
    }
  }

  /** Collapsing never changes the transport API.Transport gives one of the seven
      languages, when (as BUILD.bazel files yield) no value is empty. */
  lemma CollapsePreservesLookup(t: map<string, string>, lang: string)
    requires forall l | l in t :: t[l] != ""
    requires lang in AllLanguages
    ensures ServiceConfig.Transport(Collapsed(t), lang) == ServiceConfig.Transport(t, lang)
  {
    if Collapsible(t) {
      var k :| 0 <= k < |AllLanguages| && AllLanguages[k] == lang;
      FirstNonEmptyIsFirst(t, AllLanguages, |AllLanguages|);
      if k > 0 {
        assert t[AllLanguages[k]] == t[AllLanguages[0]];
      }
    }
  }

  lemma {:induction false} SubsetCardinality(a: set<string>, b: set<string>)
    requires a <= b
    ensures |a| <= |b|
    decreases |a|
  {
    if a != {} {
      var x :| x in a;
      SubsetCardinality(a - {x}, b - {x});
    }
  }

  /** A sequence without repetitions has as many elements as its set. */
  lemma {:induction false} DistinctCardinality(s: seq<string>)
    requires forall i, j | 0 <= i < j < |s| :: s[i] != s[j]
    ensures |set x | x in s| == |s|
    decreases |s|
  {
    if |s| > 0 {
      var init := s[..|s| - 1];
      DistinctCardinality(init);
      assert (set x | x in s) == (set x | x in init) + {s[|s| - 1]};
    }
  }

  lemma AllLanguagesDistinct()
    ensures forall i, j | 0 <= i < j < |AllLanguages| :: AllLanguages[i] != AllLanguages[j]
  {
  }

  /** A collapsible map has exactly the seven languages as keys. */
  lemma CollapsibleKeys(t: map<string, string>)
    requires Collapsible(t)
    ensures forall l | l in t :: l in AllLanguages
  {
    var langs := set x | x in AllLanguages;
    AllLanguagesDistinct();
    DistinctCardinality(AllLanguages);
    assert langs <= t.Keys by {
      forall l | l in langs ensures l in t {
        var k :| 0 <= k < |AllLanguages| && AllLanguages[k] == l;
      }
    }
    forall l | l in t ensures l in AllLanguages {
      if l !in langs {
        SubsetCardinality(langs, t.Keys - {l});
        assert false;
      }
    }
  }

  /** Collapsing widens the shared transport to every language: one outside the seven
      (dart, rust) answered "grpc+rest" before the collapse and answers the shared value
      after it. */
  lemma CollapseWidensToOtherLanguages(t: map<string, string>, lang: string)
    requires Collapsible(t) && lang !in AllLanguages
    ensures ServiceConfig.Transport(t, lang) == ServiceConfig.GrpcRest
    ensures ServiceConfig.Transport(Collapsed(t), lang) == FirstNonEmpty(t, AllLanguages, |AllLanguages|)
  {
    CollapsibleKeys(t);
    assert ServiceConfig.LangAll !in AllLanguages;
  }

  // ---------------------------------------------------------------------------
  // Rendering the map literal
  // ---------------------------------------------------------------------------

  /** strings.ToUpper on one character (letters a to z). */
  function UpperChar(c: char): char {
    if 'a' <= c <= 'z' then (c as int - 32) as char else c
  }

  /** The language with its first character upper-cased. (`lang[:1]` would panic on an
      empty key; ParseTransports never reports one, see Bazel.ParsedTransportsMeaning.) */
  function Capitalized(lang: string): string {
    if |lang| == 0 then lang else [UpperChar(lang[0])] + lang[1..]
  }

  /** The key as the Go code writes it: the identifier "lang" + Capitalized. */
  function RenderKeyAsWritten(lang: string): Expr {
    if LangConstantExists(lang) then Ident("lang" + Capitalized(lang)) else BasicLit(StringLit, Quote(lang))
  }

  /** The key naming the constant api.go declares: "Lang" + Capitalized. */
  function RenderKey(lang: string): Expr {
    if LangConstantExists(lang) then Ident("Lang" + Capitalized(lang)) else BasicLit(StringLit, Quote(lang))
  }

  /** The value type the Go code gives the map literal, and the one the Transports field
      of API has (map[string]Transport). */
  const MapValueTypeAsWritten := "string"
  const TransportsValueType := "Transport"

  /** The text of a quoted string literal. */
  function Unquote(raw: string): Option<string> {
    if |raw| >= 2 && raw[0] == '"' && raw[|raw| - 1] == '"' then Some(raw[1..|raw| - 1]) else None
  }

  /** The value of a key expression in package serviceconfig: a declared constant or a
      string literal; an undeclared identifier has none. */
  function EvalKey(e: Expr): Option<string> {
    match e
    case Ident(n) => if n in ServiceConfig.LangConstants then Some(ServiceConfig.LangConstants[n]) else None
    case BasicLit(kind, raw) => if kind == StringLit then Unquote(raw) else None
    case _ => None
  }

  function EvalString(e: Expr): Option<string> {
    if e.BasicLit? && e.kind == StringLit then Unquote(e.text) else None
  }

  /** The map a sequence of key-value entries denotes, None when some key or value has
      no value. */
  function EvalEntries(entries: seq<Expr>): Option<map<string, string>>
    decreases |entries|
  {
    if |entries| == 0 then Some(map[])
    else
      var last := entries[|entries| - 1];
      match EvalEntries(entries[..|entries| - 1])
      case None => None
      case Some(m) =>
        if !last.KeyValue? then None
        else match (EvalKey(last.key), EvalString(last.value))
          case (Some(k), Some(v)) => Some(m[k := v])
          case _ => None
  }

  /** A map literal that can be stored in API.Transports, and the map it denotes. */
  function EvalTransports(e: Expr): Option<map<string, string>> {
    if e.MapLit? && e.keyType == "string" && e.valueType == TransportsValueType then EvalEntries(e.entries)
    else None
  }

  function RenderEntryWith(render: string -> Expr, t: map<string, string>, lang: string): Expr
    requires lang in t
  {
    KeyValue(render(lang), BasicLit(StringLit, Quote(t[lang])))
  }

  /** The entries of the literal, one per key, in the order of `keys`. */
  function RenderedEntries(render: string -> Expr, t: map<string, string>, keys: seq<string>): (r: seq<Expr>)
    requires forall k | 0 <= k < |keys| :: keys[k] in t
    ensures |r| == |keys|
    decreases |keys|
  {
    if |keys| == 0 then []
    else RenderedEntries(render, t, keys[..|keys| - 1]) + [RenderEntryWith(render, t, keys[|keys| - 1])]
  }

  /** The loop that appends one key-value pair per sorted key. */
  method RenderEntries(t: map<string, string>, keys: seq<string>) returns (entries: seq<Expr>)
    requires forall k | 0 <= k < |keys| :: keys[k] in t
    ensures entries == RenderedEntries(RenderKeyAsWritten, t, keys)
  {
    entries := [];
    var i := 0;
    while i < |keys|
      invariant 0 <= i <= |keys|
      invariant entries == RenderedEntries(RenderKeyAsWritten, t, keys[..i])
    {
      assert keys[..i + 1][..i] == keys[..i];
      var lang := keys[i];
      var val := t[lang];
      entries := entries + [KeyValue(RenderKeyAsWritten(lang), BasicLit(StringLit, Quote(val)))];
      i := i + 1;
    }
    assert keys[..i] == keys;
  }

  /** The literal as the Go code builds it. */
  function RenderMapAsWritten(t: map<string, string>, keys: seq<string>): Expr
    requires forall k | 0 <= k < |keys| :: keys[k] in t
  {
    MapLit("string", MapValueTypeAsWritten, RenderedEntries(RenderKeyAsWritten, t, keys))
  }

  /** The literal as evidently intended: declared constants as keys and the field's
      value type. */
  function RenderMap(t: map<string, string>, keys: seq<string>): Expr
    requires forall k | 0 <= k < |keys| :: keys[k] in t
  {
    MapLit("string", TransportsValueType, RenderedEntries(RenderKey, t, keys))
  }

  /** Every declared language constant names its own value. */
  lemma RenderKeyRoundTrip(lang: string)
    ensures EvalKey(RenderKey(lang)) == Some(lang)
  {
    if LangConstantExists(lang) {
      DeclaredIdent(lang);
    } else {
      assert Quote(lang)[1..|Quote(lang)| - 1] == lang;
    }
  }

  /** "Lang" + Capitalized names the constant whose value is the language. */
  lemma DeclaredIdent(lang: string)
    requires LangConstantExists(lang)
    ensures "Lang" + Capitalized(lang) in ServiceConfig.LangConstants
    ensures ServiceConfig.LangConstants["Lang" + Capitalized(lang)] == lang
  {
    if lang == "all" {
      assert "Lang" + Capitalized(lang) == "LangAll" && "LangAll" in ServiceConfig.LangConstants;
    } else if lang == "csharp" {
      assert "Lang" + Capitalized(lang) == "LangCsharp" && "LangCsharp" in ServiceConfig.LangConstants;
    } else if lang == "go" {
      assert "Lang" + Capitalized(lang) == "LangGo" && "LangGo" in ServiceConfig.LangConstants;
    } else if lang == "java" {
      assert "Lang" + Capitalized(lang) == "LangJava" && "LangJava" in ServiceConfig.LangConstants;
    } else if lang == "nodejs" {
      assert "Lang" + Capitalized(lang) == "LangNodejs" && "LangNodejs" in ServiceConfig.LangConstants;
    } else if lang == "php" {
      assert "Lang" + Capitalized(lang) == "LangPhp" && "LangPhp" in ServiceConfig.LangConstants;
    } else if lang == "python" {
      assert "Lang" + Capitalized(lang) == "LangPython" && "LangPython" in ServiceConfig.LangConstants;
    } else if lang == "ruby" {
      assert "Lang" + Capitalized(lang) == "LangRuby" && "LangRuby" in ServiceConfig.LangConstants;
    } else {
      assert "Lang" + Capitalized(lang) == "LangRust" && "LangRust" in ServiceConfig.LangConstants;
    }
  }

  /** As written, a language with a constant is rendered as an identifier that package
      serviceconfig does not declare (it declares LangJava, not langJava). */
  lemma AsWrittenKeyUndeclared(lang: string)
    requires LangConstantExists(lang)
    ensures EvalKey(RenderKeyAsWritten(lang)) == None
  {
    assert ("lang" + Capitalized(lang))[0] == 'l';
    assert forall n | n in ServiceConfig.LangConstants :: n[0] == 'L';
  }

  /** The i-th rendered entry renders the i-th key. */
  lemma {:induction false} RenderedEntryAt(render: string -> Expr, t: map<string, string>, keys: seq<string>, i: nat)
    requires forall k | 0 <= k < |keys| :: keys[k] in t
    requires i < |keys|
    ensures RenderedEntries(render, t, keys)[i] == RenderEntryWith(render, t, keys[i])
    decreases |keys|
  {
    if i < |keys| - 1 {
      RenderedEntryAt(render, t, keys[..|keys| - 1], i);
    }
  }

  /** Reading the rendered entries back gives the map restricted to the keys, for a key
      renderer whose keys evaluate to the language they render. */
  lemma {:induction false} RenderedEntriesRoundTrip(render: string -> Expr, t: map<string, string>, keys: seq<string>)
    requires forall k | 0 <= k < |keys| :: keys[k] in t
    requires forall l :: EvalKey(render(l)) == Some(l)
    ensures EvalEntries(RenderedEntries(render, t, keys)) == Some(map k | k in keys :: t[k])
    decreases |keys|
  {
    if |keys| > 0 {
      var init := keys[..|keys| - 1];
      var last := keys[|keys| - 1];
      RenderedEntriesRoundTrip(render, t, init);
      EntryRoundTrip(render, t, RenderedEntries(render, t, init), last);
      MapOfKeysSnoc(t, keys);
    }
  }

  /** One more rendered entry adds its key and value to the map read back. */
  lemma EntryRoundTrip(render: string -> Expr, t: map<string, string>, entries: seq<Expr>, last: string)
    requires last in t && EvalEntries(entries).Some?
    requires EvalKey(render(last)) == Some(last)
    ensures EvalEntries(entries + [RenderEntryWith(render, t, last)]) == Some(EvalEntries(entries).value[last := t[last]])
  {
    var all := entries + [RenderEntryWith(render, t, last)];
    assert all[..|all| - 1] == entries;
    assert Quote(t[last])[1..|Quote(t[last])| - 1] == t[last];
  }

  lemma MapOfKeysSnoc(t: map<string, string>, keys: seq<string>)
    requires |keys| > 0 && forall k | 0 <= k < |keys| :: keys[k] in t
    ensures (map k | k in keys[..|keys| - 1] :: t[k])[keys[|keys| - 1] := t[keys[|keys| - 1]]] == map k | k in keys :: t[k]
  {
    var init := keys[..|keys| - 1];
    forall k | k in keys ensures k in init || k == keys[|keys| - 1] {
      var j :| 0 <= j < |keys| && keys[j] == k;
      if j < |keys| - 1 { assert init[j] == k; }
    }
  }

  /** The rendered literal fits API.Transports and denotes the map it was rendered from. */
  lemma RenderMapRoundTrip(t: map<string, string>, keys: seq<string>)
    requires SortedListing(keys, t.Keys, StrLt)
    ensures EvalTransports(RenderMap(t, keys)) == Some(t)
  {
    forall l ensures EvalKey(RenderKey(l)) == Some(l) {
      RenderKeyRoundTrip(l);
    }
    RenderedEntriesRoundTrip(RenderKey, t, keys);
    assert (map k | k in keys :: t[k]) == t;
  }

  /** As written, the literal cannot be stored in API.Transports (its value type is
      string), and any key with a language constant has no value. */
  lemma AsWrittenLiteralRejected(t: map<string, string>, keys: seq<string>, i: nat)
    requires forall k | 0 <= k < |keys| :: keys[k] in t
    requires i < |keys| && LangConstantExists(keys[i])
    ensures EvalTransports(RenderMapAsWritten(t, keys)) == None
    ensures var e := RenderedEntries(RenderKeyAsWritten, t, keys)[i];
      e.KeyValue? && EvalKey(e.key) == None
  {
    RenderedEntryAt(RenderKeyAsWritten, t, keys, i);
    AsWrittenKeyUndeclared(keys[i]);
  }

  /** The correction of a rendered key: an identifier "lang…" becomes "Lang…"; any other
      key stays. */
  function CorrectKey(e: Expr): Expr {
    if e.Ident? && |e.name| >= 4 && e.name[..4] == "lang" then Ident("Lang" + e.name[4..]) else e
  }

  function CorrectEntry(e: Expr): Expr {
    if e.KeyValue? then KeyValue(CorrectKey(e.key), e.value) else e
  }

  /** A map literal with both corrections applied: capitalised key identifiers and the
      value type of API.Transports. */
  function CorrectLiteral(e: Expr): (r: Expr)
    ensures e.MapLit? ==> r.MapLit? && |r.entries| == |e.entries|
  {
    if e.MapLit? then MapLit(e.keyType, TransportsValueType, seq(|e.entries|, i requires 0 <= i < |e.entries| => CorrectEntry(e.entries[i])))
    else e
  }

  /** The literal the Go code writes differs from the intended one in the two corrected
      places only. */
  lemma CorrectingAsWritten(t: map<string, string>, keys: seq<string>)
    requires forall k | 0 <= k < |keys| :: keys[k] in t
    ensures CorrectLiteral(RenderMapAsWritten(t, keys)) == RenderMap(t, keys)
  {
    var written := RenderMapAsWritten(t, keys).entries;
    var intended := RenderMap(t, keys).entries;
    forall i | 0 <= i < |keys| ensures CorrectEntry(written[i]) == intended[i] {
      RenderedEntryAt(RenderKeyAsWritten, t, keys, i);
      RenderedEntryAt(RenderKey, t, keys, i);
      var c := Capitalized(keys[i]);
      if LangConstantExists(keys[i]) {
        assert ("lang" + c)[..4] == "lang" && ("lang" + c)[4..] == c;
      }
    }
  }

  // ---------------------------------------------------------------------------
  // Updating an entry
  // ---------------------------------------------------------------------------

  /** What the update finds at an API path: no BUILD.bazel file, or the file (which may
      fail to read or parse). The path is taken relative to the googleapis directory. */
  datatype BuildLookup = NoBuildFile | BuildFileAt(file: Bazel.BuildFile)

  datatype Env = Env(buildAt: string -> BuildLookup)

  /** The transports to write into an entry, or None when the entry is left alone: no
      string Path, no BUILD.bazel, a file that does not parse, or no transports. */
  function NewTransports(env: Env, elts: seq<Expr>): Option<map<string, string>> {
    var path := PathOf(elts);
    if path == "" then None
    else match env.buildAt(path)
      case NoBuildFile => None
      case BuildFileAt(file) =>
        if !file.Parsed? then None
        else
          var t := Bazel.ParsedTransports(file.rules);
          if |t| == 0 then None else Some(Collapsed(t))
  }

  /** The keys of a map in ascending order (sort.Strings). */
  ghost function SortedKeys(t: map<string, string>): (r: seq<string>)
    ensures SortedListing(r, t.Keys, StrLt)
  {
    StrLtStrictTotal(t.Keys);
    SortedOf(t.Keys, StrLt)
  }

  function TransportsField(m: Expr): Expr {
    KeyValue(Ident("Transports"), m)
  }

  /** The new field replaces the element at idx, or is appended when idx is -1. */
  function Replaced(elts: seq<Expr>, idx: int, kv: Expr): seq<Expr>
    requires -1 <= idx < |elts|
  {
    if idx != -1 then elts[idx := kv] else elts + [kv]
  }

  /** An entry of the APIs literal after the update. */
  ghost function UpdatedEntry(env: Env, e: Expr): Expr {
    if !e.Composite? then e
    else match NewTransports(env, e.elts)
      case None => e
      case Some(t) =>
        var keys := SortedKeys(t);
        Composite(Replaced(e.elts, TransportsIndex(e.elts), TransportsField(RenderMapAsWritten(t, keys))))
  }

  /** The update of one entry. */
  method UpdateEntry(env: Env, e: Expr) returns (r: Expr)
    ensures r == UpdatedEntry(env, e)
  {
    if !e.Composite? {
      return e;
    }
    var path, transportsIdx := ScanFields(e.elts);
    if path == "" {
      return e;
    }
    var lookup := env.buildAt(path);
    if lookup.NoBuildFile? {
      return e;
    }
    var parsed := Bazel.ParseTransports(lookup.file, path + "/BUILD.bazel");
    if parsed.Err? {
      return e;
    }
    if |parsed.value| == 0 {
      return e;
    }
    var t := Collapse(parsed.value);
    var kv := RenderTransports(t);
    if transportsIdx != -1 {
      r := Composite(e.elts[transportsIdx := kv]);
    } else {
      r := Composite(e.elts + [kv]);
    }
  }

  /** Sorting the keys and building the new Transports field. */
  method RenderTransports(t: map<string, string>) returns (kv: Expr)
    ensures kv == TransportsField(RenderMapAsWritten(t, SortedKeys(t)))
  {
    StrLtStrictTotal(t.Keys);
    var keys := SortSet(t.Keys, StrLt);
    SortedListingUnique(keys, SortedKeys(t), t.Keys, StrLt);
    var entries := RenderEntries(t, keys);
    kv := TransportsField(MapLit("string", MapValueTypeAsWritten, entries));
  }

  /** An entry the update rewrites keeps every other element and gains a Transports
      field exactly when it had none. Its (last) Transports field now holds a literal
      that cannot be stored in API.Transports as written; once corrected, it gives each
      of the seven languages, read through API.Transport, what its BUILD.bazel file
      configures. */
  lemma UpdatedEntryTransports(env: Env, elts: seq<Expr>, rules: seq<Bazel.Rule>, lang: string)
    requires PathOf(elts) != "" && env.buildAt(PathOf(elts)) == BuildFileAt(Bazel.Parsed(rules))
    requires |Bazel.ParsedTransports(rules)| > 0
    requires lang in AllLanguages
    ensures var r := UpdatedEntry(env, Composite(elts)).elts;
      var idx := TransportsIndex(r);
      && |r| == (if TransportsIndex(elts) == -1 then |elts| + 1 else |elts|)
      && (forall k | 0 <= k < |elts| && k != TransportsIndex(elts) :: r[k] == elts[k])
      && idx >= 0
      && EvalTransports(r[idx].value) == None
      && EvalTransports(CorrectLiteral(r[idx].value)).Some?
      && ServiceConfig.Transport(EvalTransports(CorrectLiteral(r[idx].value)).value, lang)
         == ServiceConfig.Transport(Bazel.ParsedTransports(rules), lang)
  {
    var t := Collapsed(Bazel.ParsedTransports(rules));
    assert NewTransports(env, elts) == Some(t);
    var m := RenderMapAsWritten(t, SortedKeys(t));
    assert UpdatedEntry(env, Composite(elts)).elts == Replaced(elts, TransportsIndex(elts), TransportsField(m));
    ReplacedField(elts, m);
    CorrectingAsWritten(t, SortedKeys(t));
    RenderMapRoundTrip(t, SortedKeys(t));
    ParsedLookup(rules, lang);
  }

  /** Collapsing the parsed transports keeps every language's transport. */
  lemma ParsedLookup(rules: seq<Bazel.Rule>, lang: string)
    requires lang in AllLanguages
    ensures var p := Bazel.ParsedTransports(rules);
      ServiceConfig.Transport(Collapsed(p), lang) == ServiceConfig.Transport(p, lang)
  {
    Bazel.ParsedTransportsMeaning(rules);
    CollapsePreservesLookup(Bazel.ParsedTransports(rules), lang);
  }

  /** Replacing or appending the Transports field keeps every other element and leaves
      the new field as the last Transports field. */
  lemma ReplacedField(elts: seq<Expr>, m: Expr)
    ensures var r := Replaced(elts, TransportsIndex(elts), TransportsField(m));
      && |r| == (if TransportsIndex(elts) == -1 then |elts| + 1 else |elts|)
      && (forall k | 0 <= k < |elts| && k != TransportsIndex(elts) :: r[k] == elts[k])
      && TransportsIndex(r) >= 0 && r[TransportsIndex(r)] == TransportsField(m)
  {
    var r := Replaced(elts, TransportsIndex(elts), TransportsField(m));
    var prev := TransportsIndex(elts);
    if prev == -1 {
      assert IsField(r[|elts|], "Transports");
      assert TransportsIndex(r) == |elts|;
    } else {
      assert IsField(r[prev], "Transports");
      assert forall j | prev < j < |r| :: r[j] == elts[j];
    }
  }

  /** An entry with no string Path, no BUILD.bazel file, a file that fails to read or
      parse, or no transports is left exactly as it was. */
  lemma UntouchedEntries(env: Env, elts: seq<Expr>)
    requires
      || PathOf(elts) == ""
      || env.buildAt(PathOf(elts)).NoBuildFile?
      || !env.buildAt(PathOf(elts)).file.Parsed?
      || |Bazel.ParsedTransports(env.buildAt(PathOf(elts)).file.rules)| == 0
    ensures UpdatedEntry(env, Composite(elts)) == Composite(elts)
  {
  }

  /** The keys of a rewritten Transports literal, once corrected, appear in strictly
      ascending order. */
  lemma RenderedKeysAscending(t: map<string, string>, keys: seq<string>, i: nat, j: nat)
    requires SortedListing(keys, t.Keys, StrLt)
    requires i < j < |keys|
    ensures var entries := CorrectLiteral(RenderMapAsWritten(t, keys)).entries;
      && entries[i].KeyValue? && entries[j].KeyValue?
      && EvalKey(entries[i].key).Some? && EvalKey(entries[j].key).Some?
      && StrLt(EvalKey(entries[i].key).value, EvalKey(entries[j].key).value)
  {
    CorrectingAsWritten(t, keys);
    RenderedEntryAt(RenderKey, t, keys, i);
    RenderedEntryAt(RenderKey, t, keys, j);
    RenderKeyRoundTrip(keys[i]);
    RenderKeyRoundTrip(keys[j]);
  }

  // ---------------------------------------------------------------------------
  // The APIs literal
  // ---------------------------------------------------------------------------

  /** The elements of the APIs slice literal, which the update rewrites in place. */
  class ApisLiteral {
    var elts: seq<Expr>

    constructor (elts: seq<Expr>)
      ensures this.elts == elts
    {
      this.elts := elts;
    }

    /** The loop over the entries: each one is updated, and no entry is added, removed
        or moved. */
    method UpdateAll(env: Env)
      modifies this
      ensures |elts| == |old(elts)|
      ensures forall i | 0 <= i < |elts| :: elts[i] == UpdatedEntry(env, old(elts)[i])
    {
      var i := 0;
      while i < |elts|
        invariant 0 <= i <= |elts| == |old(elts)|
        invariant forall k | 0 <= k < i :: elts[k] == UpdatedEntry(env, old(elts)[k])
        invariant forall k | i <= k < |elts| :: elts[k] == old(elts)[k]
      {
        var updated := UpdateEntry(env, elts[i]);
        elts := elts[i := updated];
        i := i + 1;
      }
    }
  }
}
