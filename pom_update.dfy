/** The version update of the Java language container's release stage
    (internal/container/java/pom/pom_update.go): every pom.xml below a source path is
    copied to the output directory, at the same place relative to the repository, with
    the annotated versions of one library rewritten to a snapshot of the new version. */
module PomUpdate {
  import opened Strs
  import opened Sorting
  import opened Outcome
  import opened Fs

  // ---------------------------------------------------------------------------
  // The version pattern
  //   (<version>)([^<]+)(</version>\s*<!-- \{x-version-update:([^:]+):current\} -->)
  // ---------------------------------------------------------------------------

  const VersionOpen := "<version>"
  const VersionClose := "</version>"
  const CommentOpen := "<!-- {x-version-update:"
  const CommentClose := ":current} -->"
  const Snapshot := "-SNAPSHOT"

  /** RE2's \s: tab, newline, form feed, carriage return and space. */
  predicate IsReSpace(c: char) {
    c == '\t' || c == '\n' || c == '\U{000C}' || c == '\r' || c == ' '
  }

  /** The length of the longest prefix of `s` without the character `c`. */
  function RunWithout(s: string, c: char): (n: nat)
    ensures n <= |s|
  {
    if |s| == 0 || s[0] == c then 0 else 1 + RunWithout(s[1..], c)
  }

  /** The run is the longest one: none of its characters is `c`, and `c` ends it. */
  lemma {:induction false} RunWithoutMeaning(s: string, c: char)
    ensures var n := RunWithout(s, c);
      (forall k | 0 <= k < n :: s[k] != c) && (n < |s| ==> s[n] == c)
    decreases |s|
  {
    if |s| > 0 && s[0] != c {
      RunWithoutMeaning(s[1..], c);
    }
  }

  /** The length of the longest prefix of `s` made of \s characters. */
  function SpaceRun(s: string): (n: nat)
    ensures n <= |s|
  {
    if |s| == 0 || !IsReSpace(s[0]) then 0 else 1 + SpaceRun(s[1..])
  }

  /** The run is the longest one: all of it is \s, and a non-\s character ends it. */
  lemma {:induction false} SpaceRunMeaning(s: string)
    ensures var n := SpaceRun(s);
      (forall k | 0 <= k < n :: IsReSpace(s[k])) && (n < |s| ==> !IsReSpace(s[n]))
    decreases |s|
  {
    if |s| > 0 && IsReSpace(s[0]) {
      SpaceRunMeaning(s[1..]);
    }
  }

  /** The concatenation of `pieces`, in order. */
  function Concat(pieces: seq<string>): (r: string)
    decreases |pieces|
  {
    if |pieces| == 0 then "" else pieces[0] + Concat(pieces[1..])
  }

  /** A term of the pattern: a literal, a run of one or more characters other than `c`
      ([^c]+), or a run of \s characters (\s*). */
  datatype Term = Lit(text: string) | Without(c: char) | Spaces

  /** (<version>)([^<]+)(</version>\s*<!-- \{x-version-update:([^:]+):current\} -->),
      term by term: groups 1 and 2 are terms 0 and 1, group 3 is terms 2 to 6 and group
      4 is term 5. */
  const Pattern: seq<Term> :=
    [Lit(VersionOpen), Without('<'), Lit(VersionClose), Spaces, Lit(CommentOpen), Without(':'), Lit(CommentClose)]

  /** The length of the text `t` matches at the start of `s`. A run is taken whole: in
      the pattern every run is followed by a literal starting with a character the run
      does not accept, so no shorter run could lead to a match. */
  function TermLen(t: Term, s: string): (r: Option<nat>)
    ensures r.Some? ==> r.value <= |s|
    ensures r.Some? && t.Lit? ==> r.value == |t.text|
  {
    match t
    case Lit(x) => if HasPrefix(s, x) then Some(|x|) else None
    case Without(c) => var n := RunWithout(s, c); if n == 0 then None else Some(n)
    case Spaces => Some(SpaceRun(s))
  }

  /** The texts the terms `ts` match one after the other at the start of `s`. */
  function MatchTerms(ts: seq<Term>, s: string): (r: Option<seq<string>>)
    ensures r.Some? ==> |r.value| == |ts| && HasPrefix(s, Concat(r.value))
    ensures r.Some? && |ts| > 0 ==> TermLen(ts[0], s).Some? && r.value[0] == s[..TermLen(ts[0], s).value]
    decreases |ts|
  {
    if |ts| == 0 then Some([])
    else
      match TermLen(ts[0], s)
      case None => None
      case Some(n) =>
        match MatchTerms(ts[1..], s[n..])
        case None => None
        case Some(g) => PrefixJoin(s, n, g); Some([s[..n]] + g)
  }

  lemma PrefixJoin(s: string, n: nat, g: seq<string>)
    requires n <= |s| && HasPrefix(s[n..], Concat(g))
    ensures HasPrefix(s, Concat([s[..n]] + g))
  {
    assert ([s[..n]] + g)[1..] == g;
    assert s[..n + |Concat(g)|] == s[..n] + s[n..][..|Concat(g)|];
  }

  /** A match: its length, its third group (from "</version>" to the end of the
      comment) and its fourth group (the library ID of the annotation). */
  datatype Match = Match(len: nat, tail: string, id: string)

  /** The match of the version pattern at the start of `s`, if there is one; as each
      run is taken whole, the match at a position is unique. */
  function MatchAt(s: string): (r: Option<Match>)
    ensures r.Some? ==> 0 < r.value.len <= |s|
  {
    match MatchTerms(Pattern, s)
    case None => None
    case Some(g) => Some(Match(|Concat(g)|, Concat(g[2..]), g[5]))
  }

  /** updateVersion's ReplaceAllStringFunc: matches are taken leftmost first and do not
      overlap; a match annotated with `libraryID` gets `version` + "-SNAPSHOT" as its
      version, every other match and all text between matches is kept. */
  function Rewrite(s: string, libraryID: string, version: string): (r: string)
    decreases |s|
  {
    if |s| == 0 then ""
    else
      var step := Step(s, libraryID, version);
      step.0 + Rewrite(s[step.1..], libraryID, version)
  }

  /** One step of the scan at the start of `s`: the text it emits and the length of
      `s` it consumes (a whole match, or one character where no match starts). */
  function Step(s: string, libraryID: string, version: string): (r: (string, nat))
    requires |s| > 0
    ensures 0 < r.1 <= |s|
  {
    match MatchAt(s)
    case None => ([s[0]], 1)
    case Some(m) => (if m.id == libraryID then VersionOpen + version + Snapshot + m.tail else s[..m.len], m.len)
  }

  // ---------------------------------------------------------------------------
  // What the rewrite does
  // ---------------------------------------------------------------------------

  /** An annotated version element: its seven pieces, one for each term of the
      pattern. */
  function Element(v: string, ws: string, id: string): string {
    Concat([VersionOpen, v, VersionClose, ws, CommentOpen, id, CommentClose])
  }

  /** A version the pattern accepts: [^<]+. */
  predicate IsVersionText(v: string) {
    |v| > 0 && forall k | 0 <= k < |v| :: v[k] != '<'
  }

  /** An annotation ID the pattern accepts: [^:]+. */
  predicate IsIdText(id: string) {
    |id| > 0 && forall k | 0 <= k < |id| :: id[k] != ':'
  }

  predicate IsSpaces(ws: string) {
    forall k | 0 <= k < |ws| :: IsReSpace(ws[k])
  }

  lemma {:induction false} RunWithoutConcat(a: string, b: string, c: char)
    requires (forall k | 0 <= k < |a| :: a[k] != c) && |b| > 0 && b[0] == c
    ensures RunWithout(a + b, c) == |a|
    decreases |a|
  {
    if |a| > 0 {
      assert (a + b)[1..] == a[1..] + b;
      RunWithoutConcat(a[1..], b, c);
    }
  }

  lemma {:induction false} SpaceRunConcat(a: string, b: string)
    requires IsSpaces(a) && |b| > 0 && !IsReSpace(b[0])
    ensures SpaceRun(a + b) == |a|
    decreases |a|
  {
    if |a| > 0 {
      assert (a + b)[1..] == a[1..] + b;
      SpaceRunConcat(a[1..], b);
    }
  }

  /** `piece` is what term `t` matches when `next` follows it. */
  predicate Fits(t: Term, piece: string, next: string) {
    match t
    case Lit(x) => piece == x
    case Without(c) => |piece| > 0 && (forall k | 0 <= k < |piece| :: piece[k] != c) && |next| > 0 && next[0] == c
    case Spaces => IsSpaces(piece) && (|next| > 0 ==> !IsReSpace(next[0]))
  }

  /** Each of `pieces` is what the term at its place matches, given what follows it. */
  predicate FitsAll(ts: seq<Term>, pieces: seq<string>, rest: string) {
    |pieces| <= |ts| &&
    forall i | 0 <= i < |pieces| :: Fits(ts[i], pieces[i], Concat(pieces[i + 1..]) + rest)
  }

  function Prepend(pieces: seq<string>, r: Option<seq<string>>): Option<seq<string>> {
    match r
    case None => None
    case Some(g) => Some(pieces + g)
  }

  lemma TermFits(t: Term, piece: string, next: string)
    requires Fits(t, piece, next)
    ensures TermLen(t, piece + next) == Some(|piece|)
  {
    match t
    case Lit(x) =>
      ConcatSplit(piece, next);
    case Without(c) =>
      RunWithoutConcat(piece, next, c);
    case Spaces =>
      if |next| > 0 {
        SpaceRunConcat(piece, next);
      } else {
        EmptyConcat(next, piece);
        assert piece + next == piece;
        SpaceRunAll(piece);
      }
  }

  lemma ConcatCons(pieces: seq<string>, rest: string)
    requires |pieces| > 0
    ensures Concat(pieces) + rest == pieces[0] + (Concat(pieces[1..]) + rest)
  {
  }

  lemma FitsAllTail(ts: seq<Term>, pieces: seq<string>, rest: string)
    requires FitsAll(ts, pieces, rest) && |pieces| > 0
    ensures FitsAll(ts[1..], pieces[1..], rest)
    ensures Fits(ts[0], pieces[0], Concat(pieces[1..]) + rest)
  {
    assert Fits(ts[0], pieces[0], Concat(pieces[0 + 1..]) + rest);
    forall i | 0 <= i < |pieces| - 1
      ensures Fits(ts[1..][i], pieces[1..][i], Concat(pieces[1..][i + 1..]) + rest)
    {
      assert pieces[1..][i + 1..] == pieces[i + 2..];
      assert Fits(ts[i + 1], pieces[i + 1], Concat(pieces[i + 1 + 1..]) + rest);
    }
  }

  lemma PrependCons(pieces: seq<string>, r: Option<seq<string>>)
    requires |pieces| > 0
    ensures Prepend(pieces, r) == Prepend([pieces[0]], Prepend(pieces[1..], r))
  {
    if r.Some? {
      assert pieces + r.value == [pieces[0]] + (pieces[1..] + r.value);
    }
  }

  /** Pieces that fit the terms are matched one by one: the match of the terms over
      their concatenation and what follows is those pieces, then the match of the
      remaining terms over what follows. */
  lemma {:induction false} MatchTermsConcat(ts: seq<Term>, pieces: seq<string>, rest: string)
    requires FitsAll(ts, pieces, rest)
    ensures MatchTerms(ts, Concat(pieces) + rest) == Prepend(pieces, MatchTerms(ts[|pieces|..], rest))
    decreases |pieces|
  {
    if |pieces| == 0 {
      EmptyConcat(Concat(pieces), rest);
      assert ts[0..] == ts;
      if MatchTerms(ts, rest).Some? {
        assert pieces + MatchTerms(ts, rest).value == MatchTerms(ts, rest).value;
      }
    } else {
      var next := Concat(pieces[1..]) + rest;
      ConcatCons(pieces, rest);
      FitsAllTail(ts, pieces, rest);
      TermFits(ts[0], pieces[0], next);
      ConcatSplit(pieces[0], next);
      MatchTermsConcat(ts[1..], pieces[1..], rest);
      assert ts[1..][|pieces| - 1..] == ts[|pieces|..];
      PrependCons(pieces, MatchTerms(ts[|pieces|..], rest));
    }
  }

  /** The first character of a concatenation whose first piece is not empty. */
  lemma ConcatHead(pieces: seq<string>, rest: string)
    requires |pieces| > 0 && |pieces[0]| > 0
    ensures |Concat(pieces) + rest| > 0 && (Concat(pieces) + rest)[0] == pieces[0][0]
  {
  }

  lemma ElementFits(v: string, ws: string, id: string, q: string)
    requires IsVersionText(v) && IsSpaces(ws) && IsIdText(id)
    ensures FitsAll(Pattern, [VersionOpen, v, VersionClose, ws, CommentOpen, id, CommentClose], q)
  {
    var pieces := [VersionOpen, v, VersionClose, ws, CommentOpen, id, CommentClose];
    forall i | 0 <= i < |pieces| ensures Fits(Pattern[i], pieces[i], Concat(pieces[i + 1..]) + q) {
      if i == 1 || i == 3 || i == 5 {
        ConcatHead(pieces[i + 1..], q);
      }
    }
  }

  /** An annotated element is matched whole, whatever follows it. */
  lemma MatchElement(v: string, ws: string, id: string, q: string)
    requires IsVersionText(v) && IsSpaces(ws) && IsIdText(id)
    ensures MatchAt(Element(v, ws, id) + q)
            == Some(Match(|Element(v, ws, id)|, Concat([VersionClose, ws, CommentOpen, id, CommentClose]), id))
  {
    var pieces := [VersionOpen, v, VersionClose, ws, CommentOpen, id, CommentClose];
    ElementFits(v, ws, id, q);
    MatchTermsConcat(Pattern, pieces, q);
    assert Pattern[|pieces|..] == [];
    assert pieces + [] == pieces;
    assert pieces[2..] == [VersionClose, ws, CommentOpen, id, CommentClose];
  }

  lemma ConcatSplit(a: string, b: string)
    ensures (a + b)[..|a|] == a && (a + b)[|a|..] == b
  {
  }

  /** Where no match starts, the first character is kept. */
  lemma RewriteNoMatch(s: string, libraryID: string, version: string)
    requires |s| > 0 && MatchAt(s).None?
    ensures Rewrite(s, libraryID, version) == [s[0]] + Rewrite(s[1..], libraryID, version)
  {
  }

  /** A match of another library is kept whole. */
  lemma RewriteKept(e: string, q: string, libraryID: string, version: string)
    requires MatchAt(e + q).Some? && MatchAt(e + q).value.len == |e| && MatchAt(e + q).value.id != libraryID
    ensures Rewrite(e + q, libraryID, version) == e + Rewrite(q, libraryID, version)
  {
    ConcatSplit(e, q);
  }

  /** A match of `libraryID` gets the snapshot version in front of its third group. */
  lemma RewriteReplaced(e: string, q: string, libraryID: string, version: string)
    requires MatchAt(e + q).Some? && MatchAt(e + q).value.len == |e| && MatchAt(e + q).value.id == libraryID
    ensures Rewrite(e + q, libraryID, version)
            == VersionOpen + version + Snapshot + MatchAt(e + q).value.tail + Rewrite(q, libraryID, version)
  {
    ConcatSplit(e, q);
  }

  lemma ReplacedElement(version: string, ws: string, id: string)
    ensures VersionOpen + version + Snapshot + Concat([VersionClose, ws, CommentOpen, id, CommentClose])
            == Element(version + Snapshot, ws, id)
  {
    var rest := [VersionClose, ws, CommentOpen, id, CommentClose];
    assert [VersionOpen, version + Snapshot, VersionClose, ws, CommentOpen, id, CommentClose]
           == [VersionOpen, version + Snapshot] + rest;
    ConcatTwo(VersionOpen, version + Snapshot, rest);
  }

  lemma ConcatTwo(a: string, b: string, rest: seq<string>)
    ensures Concat([a, b] + rest) == a + (b + Concat(rest))
  {
    assert ([a, b] + rest)[1..] == [b] + rest;
    assert ([b] + rest)[1..] == rest;
  }

  /** An annotated element of `libraryID` gets the snapshot version and keeps its
      closing tag and comment; an element of another library is kept; the rewrite then
      goes on after the element. */
  lemma RewriteElement(v: string, ws: string, id: string, q: string, libraryID: string, version: string)
    requires IsVersionText(v) && IsSpaces(ws) && IsIdText(id)
    ensures Rewrite(Element(v, ws, id) + q, libraryID, version)
            == (if id == libraryID then Element(version + Snapshot, ws, id) else Element(v, ws, id))
               + Rewrite(q, libraryID, version)
  {
    MatchElement(v, ws, id, q);
    if id == libraryID {
      RewriteReplaced(Element(v, ws, id), q, libraryID, version);
      ReplacedElement(version, ws, id);
    } else {
      RewriteKept(Element(v, ws, id), q, libraryID, version);
    }
  }

  /** Text in which no "<version>" starts: every '<' is followed, within the text, by
      something other than "version>". */
  predicate Plain(p: string) {
    forall k {:trigger OpensAt(p, k)} | 0 <= k < |p| :: !OpensAt(p, k)
  }

  /** A '<' at `k` that may start "<version>" in `p` or in what follows `p`. */
  predicate OpensAt(p: string, k: nat)
    requires k < |p|
  {
    p[k] == '<' && (|p| < k + |VersionOpen| || p[k..k + |VersionOpen|] == VersionOpen)
  }

  lemma NoMatchWithoutLt(s: string)
    requires |s| > 0 && s[0] != '<'
    ensures MatchAt(s).None?
  {
    if |VersionOpen| <= |s| {
      assert s[..|VersionOpen|][0] == s[0] && VersionOpen[0] == '<';
    }
  }

  lemma PlainHead(p: string, rest: string)
    requires Plain(p) && |p| > 0
    ensures MatchAt(p + rest).None?
  {
    assert !OpensAt(p, 0);
    if p[0] == '<' {
      assert p[0..|VersionOpen|] == p[..|VersionOpen|] == (p + rest)[..|VersionOpen|];
    } else {
      NoMatchWithoutLt(p + rest);
    }
  }

  lemma PlainTail(p: string)
    requires Plain(p) && |p| > 0
    ensures Plain(p[1..])
  {
    forall k | 0 <= k < |p| - 1 ensures !OpensAt(p[1..], k) {
      assert !OpensAt(p, k + 1);
      assert p[1..][k] == p[k + 1];
      if k + |VersionOpen| <= |p| - 1 {
        assert p[1..][k..k + |VersionOpen|] == p[k + 1..k + 1 + |VersionOpen|];
      }
    }
  }

  lemma EmptyConcat(p: string, q: string)
    requires |p| == 0
    ensures p + q == q
  {
  }

  lemma ConsChain(p: string, whole: string, tail: string, rest: string)
    requires |p| > 0 && whole == [p[0]] + tail && tail == p[1..] + rest
    ensures whole == p + rest
  {
    assert p == [p[0]] + p[1..];
  }

  lemma ConcatTail(p: string, rest: string)
    requires |p| > 0
    ensures (p + rest)[0] == p[0] && (p + rest)[1..] == p[1..] + rest
  {
  }

  /** Plain text is kept as it is. */
  lemma {:induction false} RewritePlain(p: string, rest: string, libraryID: string, version: string)
    requires Plain(p)
    ensures Rewrite(p + rest, libraryID, version) == p + Rewrite(rest, libraryID, version)
    decreases |p|
  {
    if |p| > 0 {
      PlainHead(p, rest);
      RewriteNoMatch(p + rest, libraryID, version);
      ConcatTail(p, rest);
      PlainTail(p);
      RewritePlain(p[1..], rest, libraryID, version);
      ConsChain(p, Rewrite(p + rest, libraryID, version), Rewrite(p[1..] + rest, libraryID, version), Rewrite(rest, libraryID, version));
    } else {
      EmptyConcat(p, rest);
      EmptyConcat(p, Rewrite(rest, libraryID, version));
    }
  }

  /** A version element without the x-version-update comment after it is kept. */
  lemma RewriteUnannotated(v: string, ws: string, q: string, libraryID: string, version: string)
    requires IsVersionText(v) && IsSpaces(ws)
    requires !HasPrefix(q, CommentOpen) && (|q| > 0 ==> !IsReSpace(q[0]))
    ensures Rewrite(Concat([VersionOpen, v, VersionClose, ws]) + q, libraryID, version)
            == Concat([VersionOpen, v, VersionClose, ws]) + Rewrite(q, libraryID, version)
  {
    var e := Concat([VersionOpen, v, VersionClose, ws]);
    UnannotatedNoMatch(v, ws, q);
    RewriteNoMatch(e + q, libraryID, version);
    ConcatTail(e, q);
    UnannotatedPlain(v, ws);
    RewritePlain(e[1..], q, libraryID, version);
    ConsChain(e, Rewrite(e + q, libraryID, version), Rewrite(e[1..] + q, libraryID, version), Rewrite(q, libraryID, version));
  }

  lemma UnannotatedFits(v: string, ws: string, q: string)
    requires IsVersionText(v) && IsSpaces(ws) && (|q| > 0 ==> !IsReSpace(q[0]))
    ensures FitsAll(Pattern, [VersionOpen, v, VersionClose, ws], q)
  {
    var pieces := [VersionOpen, v, VersionClose, ws];
    forall i | 0 <= i < |pieces| ensures Fits(Pattern[i], pieces[i], Concat(pieces[i + 1..]) + q) {
      if i == 1 {
        ConcatHead(pieces[i + 1..], q);
      } else if i == 3 {
        EmptyConcat(Concat(pieces[4..]), q);
      }
    }
  }

  lemma UnannotatedNoMatch(v: string, ws: string, q: string)
    requires IsVersionText(v) && IsSpaces(ws)
    requires !HasPrefix(q, CommentOpen) && (|q| > 0 ==> !IsReSpace(q[0]))
    ensures MatchAt(Concat([VersionOpen, v, VersionClose, ws]) + q).None?
  {
    UnannotatedFits(v, ws, q);
    MatchTermsConcat(Pattern, [VersionOpen, v, VersionClose, ws], q);
    assert Pattern[4..][0] == Lit(CommentOpen);
  }

  lemma UnannotatedPlain(v: string, ws: string)
    requires IsVersionText(v) && IsSpaces(ws)
    ensures Plain(Concat([VersionOpen, v, VersionClose, ws])[1..])
  {
    ConcatTwo(VersionOpen, v, [VersionClose, ws]);
    assert [VersionOpen, v] + [VersionClose, ws] == [VersionOpen, v, VersionClose, ws];
    ConcatTwo(VersionClose, ws, []);
    assert [VersionClose, ws] + [] == [VersionClose, ws];
    var p := Concat([VersionOpen, v, VersionClose, ws])[1..];
    assert p == "version>" + v + VersionClose + ws;
    forall k | 0 <= k < |p| ensures !OpensAt(p, k) {
      if p[k] == '<' {
        assert k == |v| + 8;
        assert p[k + 1] == VersionClose[1] == '/';
        assert p[k..k + |VersionOpen|][1] == p[k + 1];
      }
    }
  }

  lemma {:induction false} SpaceRunAll(ws: string)
    requires IsSpaces(ws)
    ensures SpaceRun(ws) == |ws|
    decreases |ws|
  {
    if |ws| > 0 {
      SpaceRunAll(ws[1..]);
    }
  }

  /** No match anywhere in `s` is annotated with `libraryID`. */
  predicate NoMatchFor(s: string, libraryID: string) {
    forall k | 0 <= k <= |s| :: MatchAt(s[k..]).Some? ==> MatchAt(s[k..]).value.id != libraryID
  }

  lemma NoMatchForSuffix(s: string, n: nat, libraryID: string)
    requires n <= |s| && NoMatchFor(s, libraryID)
    ensures NoMatchFor(s[n..], libraryID)
  {
    forall k | 0 <= k <= |s| - n ensures s[n..][k..] == s[n + k..] {
    }
  }

  /** Where a match of another library starts, it is kept whole. */
  lemma RewriteKeptAt(s: string, libraryID: string, version: string)
    requires MatchAt(s).Some? && MatchAt(s).value.id != libraryID
    ensures Rewrite(s, libraryID, version) == s[..MatchAt(s).value.len] + Rewrite(s[MatchAt(s).value.len..], libraryID, version)
  {
  }

  lemma SplitChain(s: string, n: nat, whole: string, tail: string)
    requires n <= |s| && whole == s[..n] + tail && tail == s[n..]
    ensures whole == s
  {
    assert s == s[..n] + s[n..];
  }

  /** Text without an annotation of `libraryID` is left unchanged. */
  lemma {:induction false} RewriteUnchanged(s: string, libraryID: string, version: string)
    requires NoMatchFor(s, libraryID)
    ensures Rewrite(s, libraryID, version) == s
    decreases |s|
  {
    if |s| > 0 {
      var n := if MatchAt(s).Some? then MatchAt(s).value.len else 1;
      if MatchAt(s).Some? {
        assert s[0..] == s;
        RewriteKeptAt(s, libraryID, version);
      } else {
        RewriteNoMatch(s, libraryID, version);
        assert [s[0]] == s[..1];
      }
      NoMatchForSuffix(s, n, libraryID);
      RewriteUnchanged(s[n..], libraryID, version);
      SplitChain(s, n, Rewrite(s, libraryID, version), Rewrite(s[n..], libraryID, version));
    }
  }

  // ---------------------------------------------------------------------------
  // findPomFiles
  // ---------------------------------------------------------------------------

  /** A regular file named pom.xml at or below `src`. */
  predicate IsPom(m: map<Path, Node>, src: Path, p: Path) {
    p in m && m[p].File? && Under(src, p) && Name(p) == "pom.xml"
  }

  /** The pom files at or below `src`, in walk order. */
  ghost function PomFiles(m: map<Path, Node>, src: Path): seq<Path> {
    WalkListing(set p | p in m && IsPom(m, src, p))
  }

  /** findPomFiles: a missing path has no pom files; a path through a file cannot be
      walked; otherwise the walk (which visits `src` itself too) collects the pom files. */
  ghost function FindPomFilesSpec(m: map<Path, Node>, src: Path): Result<seq<Path>> {
    match StatIn(m, src)
    case NotExist => Ok([])
    case NotADirectory => Err("failed to walk path: lstat " + PathString(src) + ": not a directory")
    case Found(_) => Ok(PomFiles(m, src))
  }

  method FindPomFiles(fs: FileSystem, src: Path) returns (r: Result<seq<Path>>)
    ensures r == FindPomFilesSpec(fs.entries, src)
  {
    match fs.Stat(src)
    case NotExist =>
      return Ok([]);
    case NotADirectory =>
      return Err("failed to walk path: lstat " + PathString(src) + ": not a directory");
    case Found(_) =>
      var files := CollectPoms(fs, src);
      return Ok(files);
  }

  /** The walk of findPomFiles: visits everything at or below `src` in order and keeps
      the pom files. */
  method CollectPoms(fs: FileSystem, src: Path) returns (files: seq<Path>)
    ensures files == PomFiles(fs.entries, src)
  {
    var visited := set p | p in fs.entries && Under(src, p);
    var walk := WalkOrder(visited);
    files := [];
    var i := 0;
    while i < |walk|
      invariant 0 <= i <= |walk|
      invariant Increasing(files, PathLt)
      invariant forall p :: p in files <==> p in walk[..i] && IsPom(fs.entries, src, p)
      invariant forall k | 0 <= k < |files| :: exists j | 0 <= j < i :: files[k] == walk[j]
    {
      var p := walk[i];
      assert p in visited;
      if fs.entries[p].File? && Name(p) == "pom.xml" {
        forall k | 0 <= k < |files| ensures PathLt(files[k], p) {
          var j :| 0 <= j < i && files[k] == walk[j];
        }
        files := files + [p];
      }
      assert walk[..i + 1] == walk[..i] + [p];
      i := i + 1;
    }
    assert walk[..i] == walk;
    ghost var poms := set p | p in fs.entries && IsPom(fs.entries, src, p);
    assert SortedListing(files, poms, PathLt);
    WalkOrderIsListing(files, poms);
  }

  /** What findPomFiles finds: nothing for a missing path; otherwise exactly the regular
      files named pom.xml at or below the path, each once, in walk order. */
  lemma FindPomFilesMeaning(m: map<Path, Node>, src: Path)
    ensures StatIn(m, src).NotExist? ==> FindPomFilesSpec(m, src) == Ok([])
    ensures FindPomFilesSpec(m, src).Err? <==> StatIn(m, src).NotADirectory?
    ensures StatIn(m, src).Found? ==>
      var r := FindPomFilesSpec(m, src).value;
      Increasing(r, PathLt) && forall p :: p in r <==> IsPom(m, src, p)
  {
  }

  // ---------------------------------------------------------------------------
  // updateVersion and UpdateVersions
  // ---------------------------------------------------------------------------

  /** The step that failed, naming the pom file or output path of the message. */
  datatype Failure =
    | FindFailed(msg: string)
    | MkdirFailed(out: Path)
    | ReadFailed(pom: Path)
    | WriteFailed(pom: Path)

  /** The state after some steps: the failure that stopped them, if any, and the tree. */
  datatype Updated = Updated(failure: Option<Failure>, entries: map<Path, Node>)

  /** The start of UpdateVersions' error; the rest is the operating system's message. */
  function Describe(f: Failure): string {
    match f
    case FindFailed(msg) => "failed to find pom files: " + msg
    case MkdirFailed(out) => "failed to create output directory for " + PathString(out) + ": "
    case ReadFailed(pom) => UpdateFailedIn(pom) + FileStep(f)
    case WriteFailed(pom) => UpdateFailedIn(pom) + FileStep(f)
  }

  function UpdateFailedIn(pom: Path): string {
    "failed to update version in " + PathString(pom) + ": "
  }

  /** The start of updateVersion's error. */
  function FileStep(f: Failure): string {
    if f.ReadFailed? then "failed to read file: " else "failed to write file: "
  }

  /** filepath.Dir on a path of components. */
  function DirOf(p: Path): (d: Path)
    ensures |p| > 0 ==> d == p[..|p| - 1]
  {
    if |p| == 0 then [] else Parent(p)
  }

  /** updateVersion's rewrite of a file's contents. */
  function VersionEdit(libraryID: string, version: string): string -> string {
    s => Rewrite(s, libraryID, version)
  }

  /** updateVersion: the pom file is read, rewritten by `edit` and written to `out`. */
  function RewriteFile(m: map<Path, Node>, pom: Path, out: Path, edit: string -> string): (r: Updated)
    ensures r.failure.None? <==> pom in m && m[pom].File? && CanWrite(m, out)
    ensures r.failure.None? ==> r.entries == m[out := File(edit(m[pom].content))]
    ensures r.failure.Some? ==> r.entries == m
  {
    if !(pom in m && m[pom].File?) then Updated(Some(ReadFailed(pom)), m)
    else if !CanWrite(m, out) then Updated(Some(WriteFailed(pom)), m)
    else Updated(None, m[out := File(edit(m[pom].content))])
  }

  method UpdateVersion(fs: FileSystem, pom: Path, out: Path, edit: string -> string)
    returns (err: Status)
    requires fs.Valid()
    modifies fs
    ensures fs.Valid()
    ensures var r := RewriteFile(old(fs.entries), pom, out, edit);
      fs.entries == r.entries && (err.None? <==> r.failure.None?)
    ensures err.Some? ==> HasPrefix(err.value, FileStep(RewriteFile(old(fs.entries), pom, out, edit).failure.value))
  {
    var content := fs.ReadFile(pom);
    if content.Err? {
      err := Some("failed to read file: " + content.msg);
      PrefixOfConcat("failed to read file: ", content.msg);
      return;
    }
    var newContent := edit(content.value);
    var e := fs.WriteFile(out, newContent);
    if e.Some? {
      err := Some("failed to write file: " + e.value);
      PrefixOfConcat("failed to write file: ", e.value);
      return;
    }
    return None;
  }

  /** One pom file of UpdateVersions: the output's directory is created, then the pom is
      rewritten into the output. */
  function UpdateOne(m: map<Path, Node>, pom: Path, out: Path, edit: string -> string): Updated {
    if !CanMkdirAll(m, DirOf(out)) then Updated(Some(MkdirFailed(out)), m)
    else RewriteFile(WithDirs(m, DirOf(out)), pom, out, edit)
  }

  /** The pom files `poms` in order, each written to the same place relative to
      `outputDir` as it has relative to `repoDir`, stopping at the first failure. */
  function UpdateAll(m: map<Path, Node>, repoDir: Path, outputDir: Path, poms: seq<Path>,
                     edit: string -> string): Updated
    requires forall k | 0 <= k < |poms| :: Under(repoDir, poms[k])
  {
    if |poms| == 0 then Updated(None, m)
    else
      var r := UpdateAll(m, repoDir, outputDir, poms[..|poms| - 1], edit);
      var pom := poms[|poms| - 1];
      if r.failure.Some? then r
      else UpdateOne(r.entries, pom, Rebase(pom, repoDir, outputDir), edit)
  }

  lemma UnderTransitive(a: Path, b: Path, c: Path)
    requires Under(a, b) && Under(b, c)
    ensures Under(a, c)
  {
    assert c[..|a|] == c[..|b|][..|a|];
  }

  /** UpdateVersions. */
  ghost function UpdateVersionsSpec(m: map<Path, Node>, repoDir: Path, src: Path, outputDir: Path,
                                    libraryID: string, version: string): Updated
    requires Under(repoDir, src)
  {
    match FindPomFilesSpec(m, src)
    case Err(e) => Updated(Some(FindFailed(e)), m)
    case Ok(poms) =>
      PomsUnderRepo(m, repoDir, src);
      UpdateAll(m, repoDir, outputDir, poms, VersionEdit(libraryID, version))
  }

  lemma PomsUnderRepo(m: map<Path, Node>, repoDir: Path, src: Path)
    requires Under(repoDir, src) && FindPomFilesSpec(m, src).Ok?
    ensures var poms := FindPomFilesSpec(m, src).value;
      forall k | 0 <= k < |poms| :: Under(repoDir, poms[k]) && IsPom(m, src, poms[k])
  {
    var poms := FindPomFilesSpec(m, src).value;
    forall k | 0 <= k < |poms| ensures Under(repoDir, poms[k]) && IsPom(m, src, poms[k]) {
      assert poms[k] in poms;
      UnderTransitive(repoDir, src, poms[k]);
    }
  }

  /** UpdateVersions: every pom file below `src` is rewritten into `outputDir`, at its
      place relative to `repoDir`; the first failure is returned. */
  method UpdateVersions(fs: FileSystem, repoDir: Path, src: Path, outputDir: Path,
                        libraryID: string, version: string) returns (err: Status)
    requires fs.Valid() && Under(repoDir, src)
    modifies fs
    ensures fs.Valid()
    ensures var r := UpdateVersionsSpec(old(fs.entries), repoDir, src, outputDir, libraryID, version);
      fs.entries == r.entries && (err.None? <==> r.failure.None?)
      && (err.Some? ==> HasPrefix(err.value, Describe(r.failure.value)))
  {
    var found := FindPomFiles(fs, src);
    if found.Err? {
      return Some("failed to find pom files: " + found.msg);
    }
    var poms := found.value;
    PomsUnderRepo(fs.entries, repoDir, src);
    ghost var m0 := fs.entries;
    var edit := VersionEdit(libraryID, version);
    var i := 0;
    while i < |poms|
      invariant 0 <= i <= |poms|
      invariant fs.Valid()
      invariant UpdateAll(m0, repoDir, outputDir, poms[..i], edit) == Updated(None, fs.entries)
    {
      UpdateAllSnoc(m0, repoDir, outputDir, poms, i, edit);
      var e := UpdatePom(fs, repoDir, outputDir, poms[i], edit);
      if e.Some? {
        UpdateAllStops(m0, repoDir, outputDir, poms, i + 1, edit);
        return e;
      }
      i := i + 1;
    }
    assert poms[..i] == poms;
    return None;
  }

  /** The loop body of UpdateVersions for one pom file. */
  method UpdatePom(fs: FileSystem, repoDir: Path, outputDir: Path, pom: Path, edit: string -> string)
    returns (err: Status)
    requires fs.Valid() && Under(repoDir, pom)
    modifies fs
    ensures fs.Valid()
    ensures var r := UpdateOne(old(fs.entries), pom, Rebase(pom, repoDir, outputDir), edit);
      fs.entries == r.entries && (err.None? <==> r.failure.None?)
      && (err.Some? ==> HasPrefix(err.value, Describe(r.failure.value)))
  {
    ghost var m := fs.entries;
    var out := Rebase(pom, repoDir, outputDir);
    err := MakeOutputDir(fs, out);
    if err.Some? {
      UpdateOneMkdirFailed(m, pom, out, edit);
      return;
    }
    ghost var r := RewriteFile(fs.entries, pom, out, edit);
    UpdateOneRewrites(m, pom, out, edit);
    var e := UpdateVersion(fs, pom, out, edit);
    if e.Some? {
      err := Some(UpdateFailedIn(pom) + e.value);
      FailureDescribed(pom, r.failure.value, e.value);
      return;
    }
    err := None;
  }

  lemma UpdateOneMkdirFailed(m: map<Path, Node>, pom: Path, out: Path, edit: string -> string)
    requires !CanMkdirAll(m, DirOf(out))
    ensures UpdateOne(m, pom, out, edit) == Updated(Some(MkdirFailed(out)), m)
  {
  }

  lemma UpdateOneRewrites(m: map<Path, Node>, pom: Path, out: Path, edit: string -> string)
    requires CanMkdirAll(m, DirOf(out))
    ensures UpdateOne(m, pom, out, edit) == RewriteFile(WithDirs(m, DirOf(out)), pom, out, edit)
  {
  }

  /** A read or write failure of updateVersion, prefixed with the pom file it was for. */
  lemma FailureDescribed(pom: Path, f: Failure, e: string)
    requires f == ReadFailed(pom) || f == WriteFailed(pom)
    requires HasPrefix(e, FileStep(f))
    ensures HasPrefix(UpdateFailedIn(pom) + e, Describe(f))
  {
    PrefixThen(UpdateFailedIn(pom), FileStep(f), e);
  }

  /** The MkdirAll of UpdateVersions, for the directory of the output file. */
  method MakeOutputDir(fs: FileSystem, out: Path) returns (err: Status)
    requires fs.Valid()
    modifies fs
    ensures fs.Valid()
    ensures err.None? <==> CanMkdirAll(old(fs.entries), DirOf(out))
    ensures fs.entries == if err.None? then WithDirs(old(fs.entries), DirOf(out)) else old(fs.entries)
    ensures err.Some? ==> HasPrefix(err.value, Describe(MkdirFailed(out)))
  {
    var e := fs.MkdirAll(DirOf(out));
    if e.Some? {
      err := Some("failed to create output directory for " + PathString(out) + ": " + e.value);
      PrefixOfConcat("failed to create output directory for " + PathString(out) + ": ", e.value);
      return;
    }
    err := None;
  }

  /** A prefix `b` of `s` makes `a + b` a prefix of `a + s`. */
  lemma PrefixThen(a: string, b: string, s: string)
    requires HasPrefix(s, b)
    ensures HasPrefix(a + s, a + b)
  {
    assert (a + s)[..|a + b|] == a + s[..|b|];
  }

  lemma UpdateAllSnoc(m: map<Path, Node>, repoDir: Path, outputDir: Path, poms: seq<Path>, i: int,
                      edit: string -> string)
    requires forall k | 0 <= k < |poms| :: Under(repoDir, poms[k])
    requires 0 <= i < |poms|
    ensures var r := UpdateAll(m, repoDir, outputDir, poms[..i], edit);
      UpdateAll(m, repoDir, outputDir, poms[..i + 1], edit)
      == if r.failure.Some? then r
         else UpdateOne(r.entries, poms[i], Rebase(poms[i], repoDir, outputDir), edit)
  {
    assert poms[..i + 1][..i] == poms[..i];
  }

  /** After a failure the remaining pom files are not visited. */
  lemma {:induction false} UpdateAllStops(m: map<Path, Node>, repoDir: Path, outputDir: Path, poms: seq<Path>,
                                          i: int, edit: string -> string)
    requires forall k | 0 <= k < |poms| :: Under(repoDir, poms[k])
    requires 0 <= i <= |poms| && UpdateAll(m, repoDir, outputDir, poms[..i], edit).failure.Some?
    ensures UpdateAll(m, repoDir, outputDir, poms, edit)
            == UpdateAll(m, repoDir, outputDir, poms[..i], edit)
    decreases |poms| - i
  {
    if i == |poms| {
      assert poms[..i] == poms;
    } else {
      UpdateAllSnoc(m, repoDir, outputDir, poms, i, edit);
      UpdateAllStops(m, repoDir, outputDir, poms, i + 1, edit);
    }
  }

  /** One pom file of UpdateVersions changes at most the output path and adds only
      directories; when it succeeds the output holds the edited contents of the pom. */
  lemma UpdateOneEntries(m: map<Path, Node>, pom: Path, out: Path, edit: string -> string)
    ensures var r := UpdateOne(m, pom, out, edit);
      (forall q | q in m && q != out :: q in r.entries && r.entries[q] == m[q])
      && (forall q | q in r.entries && q !in m && q != out :: r.entries[q].Dir?)
    ensures var r := UpdateOne(m, pom, out, edit);
      r.failure.None? ==>
        pom in m && m[pom].File? && out in r.entries && r.entries[out] == File(edit(m[pom].content))
  {
    WithDirsAddsPrefixes(m, DirOf(out));
  }

  /** What UpdateVersions leaves behind, for pom files under `repoDir` and an output
      directory apart from it: nothing outside `outputDir` is changed or removed, only
      directories are added there, and when no step fails every pom file's counterpart
      under `outputDir` holds the edited contents of the original. */
  lemma {:induction false} UpdateAllOutputs(m: map<Path, Node>, repoDir: Path, outputDir: Path,
                                            poms: seq<Path>, edit: string -> string)
    requires Disjoint(repoDir, outputDir)
    requires forall k | 0 <= k < |poms| :: Under(repoDir, poms[k])
    ensures var r := UpdateAll(m, repoDir, outputDir, poms, edit);
      (forall p | p in m && !Under(outputDir, p) :: p in r.entries && r.entries[p] == m[p])
      && (forall p | p in r.entries && p !in m && !Under(outputDir, p) :: r.entries[p].Dir?)
    ensures var r := UpdateAll(m, repoDir, outputDir, poms, edit);
      r.failure.None? ==> forall k | 0 <= k < |poms| ::
        var out := Rebase(poms[k], repoDir, outputDir);
        poms[k] in m && m[poms[k]].File? && out in r.entries
        && r.entries[out] == File(edit(m[poms[k]].content))
    decreases |poms|
  {
    if |poms| > 0 {
      var init := poms[..|poms| - 1];
      UpdateAllOutputs(m, repoDir, outputDir, init, edit);
      var r0 := UpdateAll(m, repoDir, outputDir, init, edit);
      var pom := poms[|poms| - 1];
      var out := Rebase(pom, repoDir, outputDir);
      UpdateOneEntries(r0.entries, pom, out, edit);
      DisjointRebase(pom, repoDir, outputDir);
      var r := UpdateAll(m, repoDir, outputDir, poms, edit);
      if r.failure.None? {
        forall k | 0 <= k < |poms|
          ensures var o := Rebase(poms[k], repoDir, outputDir);
            poms[k] in m && m[poms[k]].File? && o in r.entries
            && r.entries[o] == File(edit(m[poms[k]].content))
        {
          if k < |poms| - 1 {
            assert init[k] == poms[k];
            if Rebase(poms[k], repoDir, outputDir) == out {
              RebaseInjective(poms[k], pom, repoDir, outputDir);
            }
          }
        }
      }
    }
  }

  /** UpdateVersions' search, for a source path under the repository: a missing source
      path changes nothing and succeeds, and the search fails exactly when the source
      path is not a directory. */
  lemma UpdateVersionsSearch(m: map<Path, Node>, repoDir: Path, src: Path, outputDir: Path,
                             libraryID: string, version: string)
    requires Under(repoDir, src)
    ensures StatIn(m, src).NotExist? ==>
      UpdateVersionsSpec(m, repoDir, src, outputDir, libraryID, version) == Updated(None, m)
    ensures var r := UpdateVersionsSpec(m, repoDir, src, outputDir, libraryID, version);
      (r.failure.Some? && r.failure.value.FindFailed?) <==> StatIn(m, src).NotADirectory?
  {
    FindPomFilesMeaning(m, src);
    if FindPomFilesSpec(m, src).Ok? {
      var poms := FindPomFilesSpec(m, src).value;
      PomsUnderRepo(m, repoDir, src);
      UpdateAllNeverFindFails(m, repoDir, outputDir, poms, VersionEdit(libraryID, version));
    }
  }

  lemma {:induction false} UpdateAllNeverFindFails(m: map<Path, Node>, repoDir: Path, outputDir: Path,
                                                   poms: seq<Path>, edit: string -> string)
    requires forall k | 0 <= k < |poms| :: Under(repoDir, poms[k])
    ensures var r := UpdateAll(m, repoDir, outputDir, poms, edit);
      r.failure.Some? ==> !r.failure.value.FindFailed?
    decreases |poms|
  {
    if |poms| > 0 {
      UpdateAllNeverFindFails(m, repoDir, outputDir, poms[..|poms| - 1], edit);
    }
  }

  /** The files UpdateVersions writes, for a source path under the repository and an
      output directory apart from it: nothing outside the output directory is changed,
      and on success every pom.xml file at or below the source path has its counterpart
      under the output directory holding its contents with the version rewritten. */
  lemma UpdateVersionsOutputs(m: map<Path, Node>, repoDir: Path, src: Path, outputDir: Path,
                              libraryID: string, version: string)
    requires Under(repoDir, src) && Disjoint(repoDir, outputDir)
    ensures var r := UpdateVersionsSpec(m, repoDir, src, outputDir, libraryID, version);
      forall p | p in m && !Under(outputDir, p) :: p in r.entries && r.entries[p] == m[p]
    ensures var r := UpdateVersionsSpec(m, repoDir, src, outputDir, libraryID, version);
      r.failure.None? && StatIn(m, src).Found? ==> forall p | IsPom(m, src, p) && Under(repoDir, p) ::
        var out := Rebase(p, repoDir, outputDir);
        out in r.entries && r.entries[out] == File(Rewrite(m[p].content, libraryID, version))
  {
    FindPomFilesMeaning(m, src);
    var edit := VersionEdit(libraryID, version);
    if FindPomFilesSpec(m, src).Ok? {
      var poms := FindPomFilesSpec(m, src).value;
      PomsUnderRepo(m, repoDir, src);
      UpdateAllOutputs(m, repoDir, outputDir, poms, edit);
      var r := UpdateVersionsSpec(m, repoDir, src, outputDir, libraryID, version);
      assert r == UpdateAll(m, repoDir, outputDir, poms, edit);
      if r.failure.None? && StatIn(m, src).Found? {
        forall p | IsPom(m, src, p) && Under(repoDir, p)
          ensures var out := Rebase(p, repoDir, outputDir);
            out in r.entries && r.entries[out] == File(Rewrite(m[p].content, libraryID, version))
        {
          var k :| 0 <= k < |poms| && poms[k] == p;
          assert edit(m[p].content) == Rewrite(m[p].content, libraryID, version);
        }
      }
    }
  }
}
