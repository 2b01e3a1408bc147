/** The path guard of `unzip` in internal/librarian/java/generate.go: an archive entry is
    extracted only when `filepath.Join(dest, name)` still starts with the cleaned
    destination followed by a separator, which rejects entries that climb out of the
    destination with "..". Paths are absolute and "/"-separated; the destination is
    given as its components. */
module UnzipGuard {
  import opened Strs
  import opened Outcome

  predicate SlashFree(s: string) {
    forall k | 0 <= k < |s| :: s[k] != '/'
  }

  /** Components of a cleaned path: non-empty, without separators, and neither "." nor
      "..". */
  predicate CleanComponents(ps: seq<string>) {
    forall k | 0 <= k < |ps| :: ps[k] != "" && ps[k] != "." && ps[k] != ".." && SlashFree(ps[k])
  }

  /** The string form of an absolute path given by its components ("/" for the root). */
  function AbsPath(ps: seq<string>): string {
    "/" + Join(ps, "/")
  }

  /** filepath.Clean's lexical processing of `parts` on top of the cleaned absolute path
      `stack`: empty and "." elements vanish, ".." removes the last component (and
      stays at the root), any other element is appended. */
  function CleanParts(stack: seq<string>, parts: seq<string>): (r: seq<string>)
    ensures CleanComponents(stack) && (forall k | 0 <= k < |parts| :: SlashFree(parts[k])) ==> CleanComponents(r)
    decreases |parts|
  {
    if |parts| == 0 then stack
    else if parts[0] == "" || parts[0] == "." then CleanParts(stack, parts[1..])
    else if parts[0] == ".." then CleanParts(if |stack| > 0 then stack[..|stack| - 1] else [], parts[1..])
    else CleanParts(stack + [parts[0]], parts[1..])
  }

  /** filepath.Join(dest, name) for the cleaned absolute destination `dest`. */
  function Joined(dest: seq<string>, name: string): (r: seq<string>)
    ensures CleanComponents(dest) ==> CleanComponents(r)
  {
    SplitPiecesLackSep(name, '/');
    CleanParts(dest, Split(name, '/'))
  }

  /** The guard as written: the joined path starts with Clean(dest) + "/". */
  predicate EntryAllowed(dest: seq<string>, name: string) {
    HasPrefix(AbsPath(Joined(dest, name)), AbsPath(dest) + "/")
  }

  /** The check unzip makes on one entry before extracting it. */
  function CheckEntry(dest: seq<string>, name: string): (err: Status)
    ensures err.None? <==> EntryAllowed(dest, name)
    ensures err.Some? ==> HasPrefix(err.value, "illegal file path: ")
  {
    if EntryAllowed(dest, name) then None
    else Some("illegal file path: " + AbsPath(Joined(dest, name)))
  }

  // ---------------------------------------------------------------------------
  // The guard in terms of components
  // ---------------------------------------------------------------------------

  /** Comparing "a/..." with "b/..." for separator-free a and b compares a with b. */
  lemma FirstComponent(a: string, b: string, x: string, y: string)
    requires SlashFree(a) && SlashFree(b)
    ensures HasPrefix(b + "/" + y, a + "/" + x) <==> a == b && HasPrefix(y, x)
  {
    var s := b + "/" + y;
    var p := a + "/" + x;
    if HasPrefix(s, p) {
      assert |a| == |b| by {
        if |b| < |a| { PrefixChar(s, p, |b|); assert false; }
        if |a| < |b| { PrefixChar(s, p, |a|); assert false; }
      }
      assert a == s[..|a|] == b;
      assert y[..|x|] == s[|a| + 1..|p|] == x;
    }
    if a == b && HasPrefix(y, x) {
      assert s[..|p|] == a + "/" + y[..|x|];
    }
  }

  /** A separator-free string never starts with "a/...". */
  lemma NoSeparatorPrefix(a: string, b: string, x: string)
    requires SlashFree(b)
    ensures !HasPrefix(b, a + "/" + x)
  {
    if HasPrefix(b, a + "/" + x) {
      PrefixChar(b, a + "/" + x, |a|);
      assert false;
    }
  }

  lemma PrefixChar(s: string, p: string, i: int)
    requires HasPrefix(s, p) && 0 <= i < |p|
    ensures s[i] == p[i]
  {
    assert s[..|p|][i] == s[i];
  }

  lemma JoinCons(ps: seq<string>)
    requires |ps| > 1
    ensures Join(ps, "/") == ps[0] + "/" + Join(ps[1..], "/")
  {
  }

  /** The joined string of `d` followed by a separator starts the joined string of `r`
      exactly when `r` lies strictly below `d`. */
  lemma {:induction false} JoinPrefix(d: seq<string>, r: seq<string>)
    requires |d| > 0 && CleanComponents(d) && CleanComponents(r)
    ensures HasPrefix(Join(r, "/"), Join(d, "/") + "/") <==> |d| < |r| && r[..|d|] == d
    decreases |d|
  {
    var dx := if |d| == 1 then "" else Join(d[1..], "/") + "/";
    assert Join(d, "/") + "/" == d[0] + "/" + dx;
    if |r| == 0 {
    } else if |r| == 1 {
      NoSeparatorPrefix(d[0], r[0], dx);
    } else {
      JoinCons(r);
      FirstComponent(d[0], r[0], dx, Join(r[1..], "/"));
      if |d| > 1 {
        JoinPrefix(d[1..], r[1..]);
        if |d| < |r| && r[..|d|] == d {
          assert r[1..][..|d| - 1] == d[1..];
        }
        if r[0] == d[0] && |d| - 1 < |r| - 1 && r[1..][..|d| - 1] == d[1..] {
          assert r[..|d|] == [r[0]] + r[1..][..|d| - 1];
          assert d == [d[0]] + d[1..];
        }
      } else {
        assert HasPrefix(Join(r[1..], "/"), "");
      }
    }
  }

  /** The guard accepts an entry exactly when the joined path lies strictly below the
      destination (for any destination other than the root). */
  lemma EntryAllowedIffBelow(dest: seq<string>, name: string)
    requires |dest| > 0 && CleanComponents(dest)
    ensures var r := Joined(dest, name);
      EntryAllowed(dest, name) <==> |dest| < |r| && r[..|dest|] == dest
  {
    var r := Joined(dest, name);
    JoinPrefix(dest, r);
    var p := Join(dest, "/") + "/";
    assert AbsPath(dest) + "/" == "/" + p;
    assert HasPrefix("/" + Join(r, "/"), "/" + p) <==> HasPrefix(Join(r, "/"), p) by {
      if HasPrefix(Join(r, "/"), p) {
        assert ("/" + Join(r, "/"))[..|p| + 1] == "/" + Join(r, "/")[..|p|];
      }
      if HasPrefix("/" + Join(r, "/"), "/" + p) {
        assert Join(r, "/")[..|p|] == ("/" + Join(r, "/"))[1..|p| + 1];
      }
    }
  }

  /** Cleaning elements that contain no ".." only appends to the destination. */
  lemma {:induction false} CleanPartsExtends(stack: seq<string>, parts: seq<string>)
    requires forall k | 0 <= k < |parts| :: parts[k] != ".."
    ensures var r := CleanParts(stack, parts);
      |stack| <= |r| && r[..|stack|] == stack
      && (|r| == |stack| <==> forall k | 0 <= k < |parts| :: parts[k] == "" || parts[k] == ".")
    decreases |parts|
  {
    if |parts| > 0 {
      if parts[0] == "" || parts[0] == "." {
        CleanPartsExtends(stack, parts[1..]);
        assert forall k | 1 <= k < |parts| :: parts[k] == parts[1..][k - 1];
      } else {
        var s' := stack + [parts[0]];
        CleanPartsExtends(s', parts[1..]);
        var r := CleanParts(s', parts[1..]);
        assert r[..|stack|] == r[..|s'|][..|stack|];
      }
    }
  }

  /** An entry name with no ".." element is accepted exactly when it names something
      below the destination, that is, when it has an element other than "" and ".". */
  lemma NoDotDotAccepted(dest: seq<string>, name: string)
    requires |dest| > 0 && CleanComponents(dest)
    requires forall k | 0 <= k < |Split(name, '/')| :: Split(name, '/')[k] != ".."
    ensures EntryAllowed(dest, name) <==> exists k | 0 <= k < |Split(name, '/')| :: Split(name, '/')[k] != "" && Split(name, '/')[k] != "."
  {
    EntryAllowedIffBelow(dest, name);
    CleanPartsExtends(dest, Split(name, '/'));
    assert Joined(dest, name) == CleanParts(dest, Split(name, '/'));
  }

  /** A leading ".." climbs out of the destination, and the entry is rejected. */
  lemma ParentEntryRejected(dest: seq<string>)
    requires |dest| > 0 && CleanComponents(dest)
    ensures CheckEntry(dest, "..") == Some("illegal file path: " + AbsPath(dest[..|dest| - 1]))
  {
    assert IndexOf("..", '/') == 2;
    assert Split("..", '/') == [".."];
    assert CleanParts(dest, [".."]) == CleanParts(dest[..|dest| - 1], [".."][1..]);
    assert [".."][1..] == [];
    assert Joined(dest, "..") == dest[..|dest| - 1];
    EntryAllowedIffBelow(dest, "..");
  }
}
