/** The transport lookup of internal/serviceconfig/api.go: an API's Transports map,
    keyed by language, falls back to the "all" entry and then to "grpc+rest". The
    language constants the package declares are kept by identifier, so that a Go map
    literal naming them can be evaluated. */
module ServiceConfig {
  const LangAll := "all"

  const Grpc := "grpc"
  const Rest := "rest"
  /** The default transport when nothing is configured. */
  const GrpcRest := "grpc+rest"

  /** The language constants declared in package serviceconfig: identifier to value. */
  const LangConstants: map<string, string> := map[
    "LangAll" := "all",
    "LangCsharp" := "csharp",
    "LangDart" := "dart",
    "LangGo" := "go",
    "LangJava" := "java",
    "LangNodejs" := "nodejs",
    "LangPhp" := "php",
    "LangPython" := "python",
    "LangRuby" := "ruby",
    "LangRust" := "rust"]

  /** API.Transport: the transport for a language. A nil map behaves as an empty one. */
  function Transport(transports: map<string, string>, language: string): string {
    if language in transports then transports[language]
    else if LangAll in transports then transports[LangAll]
    else GrpcRest
  }

  predicate KnownTransport(t: string) {
    t == Grpc || t == Rest || t == GrpcRest
  }

  /** The lookup only ever answers with a configured value or the default: when every
      configured value is a known transport, so is the answer. */
  lemma TransportIsKnown(transports: map<string, string>, language: string)
    requires forall l | l in transports :: KnownTransport(transports[l])
    ensures KnownTransport(Transport(transports, language))
  {
  }

  /** The order of the fallback: a language entry wins over "all", which wins over the
      default; with neither, the answer is "grpc+rest". */
  lemma TransportFallback(transports: map<string, string>, language: string)
    ensures language in transports ==> Transport(transports, language) == transports[language]
    ensures language !in transports && LangAll in transports ==> Transport(transports, language) == transports[LangAll]
    ensures language !in transports && LangAll !in transports ==> Transport(transports, language) == GrpcRest
    ensures Transport(map[], language) == GrpcRest
  {
  }

  /** A map holding only "all" gives its value to every language, as for
      google/ads/admanager/v1. */
  lemma OnlyAllAppliesEverywhere(v: string, language: string)
    ensures Transport(map[LangAll := v], language) == v
  {
  }

  /** google/cloud/aiplatform/v1: java is configured as grpc; dart has no entry and no
      "all" entry, so it gets the default. */
  lemma AiplatformExample()
    ensures var t := map[
        LangConstants["LangCsharp"] := GrpcRest, LangConstants["LangGo"] := Grpc,
        LangConstants["LangJava"] := Grpc, LangConstants["LangNodejs"] := Grpc,
        LangConstants["LangPhp"] := GrpcRest, LangConstants["LangPython"] := GrpcRest,
        LangConstants["LangRuby"] := GrpcRest];
      Transport(t, "java") == "grpc" && Transport(t, "dart") == "grpc+rest"
  {
  }
}
