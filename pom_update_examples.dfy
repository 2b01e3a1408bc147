/** The cases of TestUpdateVersion in internal/container/java/pom/pom_update_test.go,
    stated on the rewrite of a file's contents. The test files are built from the
    pieces below: the text between the annotated elements, and the elements. */
module PomUpdateExamples {
  import opened Strs
  import opened PomUpdate

  const Head := "<project>\n  "
  const Foot := "\n</project>"
  const Dependency := "\n  " + "<dependency>" + "\n    " + "<groupId>" + "com.google.cloud" + "</groupId>"
                      + "\n    " + "<artifactId>" + "google-cloud-" + "secretmanager" + "</artifactId>" + "\n    "
  const DependencyEnd := "\n  " + "</dependency>" + Foot
  const ProjectEnd := "</project>"

  /** No '<' from position `k` on can open a <version> tag: each one has a character
      other than 'v' after it. A check that evaluates on a literal. */
  predicate ClearFrom(p: string, k: nat)
    decreases |p| - k
  {
    k >= |p| || ((p[k] != '<' || (k + 9 <= |p| && p[k + 1] != 'v')) && ClearFrom(p, k + 1))
  }

  lemma {:induction false} ClearFromPlain(p: string, k: nat)
    requires ClearFrom(p, k)
    ensures forall j | k <= j < |p| :: !OpensAt(p, j)
    decreases |p| - k
  {
    if k < |p| {
      if p[k] == '<' {
        assert p[k..k + |VersionOpen|][1] != VersionOpen[1];
      }
      ClearFromPlain(p, k + 1);
    }
  }

  lemma HeadPlain()
    ensures Plain(Head)
  {
    assert ClearFrom("<project>\n  ", 0);
    ClearFromPlain(Head, 0);
  }

  lemma FootPlain()
    ensures Plain(Foot) && Plain(ProjectEnd)
  {
    assert ClearFrom("\n</project>", 0);
    ClearFromPlain(Foot, 0);
    assert ClearFrom("</project>", 0);
    ClearFromPlain(ProjectEnd, 0);
  }

  /** Text that holds no <version> tag stays so when joined to more such text. */
  lemma PlainConcat(a: string, b: string)
    requires Plain(a) && Plain(b)
    ensures Plain(a + b)
  {
    var n := |VersionOpen|;
    forall k | 0 <= k < |a + b|
      ensures !OpensAt(a + b, k)
    {
      if k < |a| {
        if a[k] == '<' {
          assert !OpensAt(a, k);
          assert (a + b)[k..k + n] == a[k..k + n];
        }
      } else {
        assert (a + b)[k] == b[k - |a|];
        if b[k - |a|] == '<' {
          assert !OpensAt(b, k - |a|);
          assert (a + b)[k..k + n] == b[k - |a|..k - |a| + n];
        }
      }
    }
  }

  lemma DependencyTagsPlain()
    ensures Plain("<dependency>") && Plain("</dependency>")
  {
    assert ClearFrom("<dependency>", 0);
    ClearFromPlain("<dependency>", 0);
    assert ClearFrom("</dependency>", 0);
    ClearFromPlain("</dependency>", 0);
  }

  lemma GroupTagsPlain()
    ensures Plain("<groupId>") && Plain("</groupId>")
  {
    assert ClearFrom("<groupId>", 0);
    ClearFromPlain("<groupId>", 0);
    assert ClearFrom("</groupId>", 0);
    ClearFromPlain("</groupId>", 0);
  }

  lemma ArtifactTagsPlain()
    ensures Plain("<artifactId>") && Plain("</artifactId>")
  {
    assert ClearFrom("<artifactId>", 0);
    ClearFromPlain("<artifactId>", 0);
    assert ClearFrom("</artifactId>", 0);
    ClearFromPlain("</artifactId>", 0);
  }

  lemma IndentsPlain()
    ensures Plain("\n  ") && Plain("\n    ")
  {
    assert ClearFrom("\n  ", 0);
    ClearFromPlain("\n  ", 0);
    assert ClearFrom("\n    ", 0);
    ClearFromPlain("\n    ", 0);
  }

  lemma GroupPlain()
    ensures Plain("com.google.cloud")
  {
    assert ClearFrom("com.google.cloud", 8);
    assert ClearFrom("com.google.cloud", 4);
    assert ClearFrom("com.google.cloud", 0);
    ClearFromPlain("com.google.cloud", 0);
  }

  lemma ArtifactPlain()
    ensures Plain("google-cloud-")
  {
    assert ClearFrom("google-cloud-", 8);
    assert ClearFrom("google-cloud-", 4);
    assert ClearFrom("google-cloud-", 0);
    ClearFromPlain("google-cloud-", 0);
  }

  lemma ArtifactEndPlain()
    ensures Plain("secretmanager")
  {
    assert ClearFrom("secretmanager", 8);
    assert ClearFrom("secretmanager", 4);
    assert ClearFrom("secretmanager", 0);
    ClearFromPlain("secretmanager", 0);
  }

  lemma DependencyPlain()
    ensures Plain(Dependency)
  {
    DependencyTagsPlain();
    GroupTagsPlain();
    ArtifactTagsPlain();
    IndentsPlain();
    GroupPlain();
    ArtifactPlain();
    ArtifactEndPlain();
    var a := "\n  " + "<dependency>";
    PlainConcat("\n  ", "<dependency>");
    PlainConcat(a, "\n    ");
    var b := a + "\n    ";
    PlainConcat(b, "<groupId>");
    var c := b + "<groupId>";
    PlainConcat(c, "com.google.cloud");
    var d := c + "com.google.cloud";
    PlainConcat(d, "</groupId>");
    var e := d + "</groupId>";
    PlainConcat(e, "\n    ");
    var f := e + "\n    ";
    PlainConcat(f, "<artifactId>");
    var g := f + "<artifactId>";
    PlainConcat(g, "google-cloud-");
    var g' := g + "google-cloud-";
    PlainConcat(g', "secretmanager");
    var h := g' + "secretmanager";
    PlainConcat(h, "</artifactId>");
    var i := h + "</artifactId>";
    PlainConcat(i, "\n    ");
  }

  lemma DependencyEndPlain()
    ensures Plain(DependencyEnd)
  {
    DependencyTagsPlain();
    GroupTagsPlain();
    ArtifactTagsPlain();
    IndentsPlain();
    GroupPlain();
    ArtifactPlain();
    ArtifactEndPlain();
    FootPlain();
    PlainConcat("\n  ", "</dependency>");
    PlainConcat("\n  " + "</dependency>", Foot);
  }

  /** Text without a <version> tag is left as it is. */
  lemma RewriteKeepsPlain(p: string, libraryID: string, version: string)
    requires Plain(p)
    ensures Rewrite(p, libraryID, version) == p
  {
    assert p + "" == p;
    RewritePlain(p, "", libraryID, version);
  }

  /** An annotated element as the rewrite leaves it. */
  function Edited(v: string, ws: string, id: string, libraryID: string, version: string): string {
    if id == libraryID then Element(version + Snapshot, ws, id) else Element(v, ws, id)
  }

  /** One annotated element between texts that hold no <version> tag: only the element
      can change, and it changes exactly when it names the library. */
  lemma RewriteFramed(h: string, v: string, ws: string, id: string, f: string, libraryID: string, version: string)
    requires Plain(h) && Plain(f) && IsVersionText(v) && IsSpaces(ws) && IsIdText(id)
    ensures Rewrite(h + (Element(v, ws, id) + f), libraryID, version)
         == h + (Edited(v, ws, id, libraryID, version) + f)
  {
    var e := Element(v, ws, id);
    RewritePlain(h, e + f, libraryID, version);
    RewriteElement(v, ws, id, f, libraryID, version);
    RewriteKeepsPlain(f, libraryID, version);
  }

  /** Two annotated elements between texts that hold no <version> tag: each changes
      exactly when it names the library. */
  lemma RewriteTwoFramed(h: string, v1: string, ws1: string, id1: string, mid: string,
                         v2: string, ws2: string, id2: string, f: string, libraryID: string, version: string)
    requires Plain(h) && Plain(mid) && Plain(f)
    requires IsVersionText(v1) && IsSpaces(ws1) && IsIdText(id1)
    requires IsVersionText(v2) && IsSpaces(ws2) && IsIdText(id2)
    ensures Rewrite(h + (Element(v1, ws1, id1) + (mid + (Element(v2, ws2, id2) + f))), libraryID, version)
         == h + (Edited(v1, ws1, id1, libraryID, version) + (mid + (Edited(v2, ws2, id2, libraryID, version) + f)))
  {
    var rest := mid + (Element(v2, ws2, id2) + f);
    RewritePlain(h, Element(v1, ws1, id1) + rest, libraryID, version);
    RewriteElement(v1, ws1, id1, rest, libraryID, version);
    RewriteFramed(mid, v2, ws2, id2, f, libraryID, version);
  }

  lemma SnapshotVersion()
    ensures "2.0.0" + Snapshot == "2.0.0-SNAPSHOT"
  {
  }

  /** "happy path": the element naming the library gets the new snapshot version. */
  lemma HappyPath()
    ensures Rewrite(Head + (Element("1.0.0-SNAPSHOT", "", "google-cloud-java") + Foot), "google-cloud-java", "2.0.0")
         == Head + (Element("2.0.0-SNAPSHOT", "", "google-cloud-java") + Foot)
  {
    HeadPlain();
    FootPlain();
    RewriteFramed(Head, "1.0.0-SNAPSHOT", "", "google-cloud-java", Foot, "google-cloud-java", "2.0.0");
    SnapshotVersion();
  }

  /** "no match": an element naming another library is left as it is. */
  lemma NoMatch()
    ensures Rewrite(Head + (Element("1.0.0-SNAPSHOT", "", "google-cloud-java") + Foot), "wrong-library-id", "2.0.0")
         == Head + (Element("1.0.0-SNAPSHOT", "", "google-cloud-java") + Foot)
  {
    HeadPlain();
    FootPlain();
    RewriteFramed(Head, "1.0.0-SNAPSHOT", "", "google-cloud-java", Foot, "wrong-library-id", "2.0.0");
  }

  /** "multiple versions": of two annotated elements only the one naming the library
      changes. */
  lemma MultipleVersions()
    ensures Rewrite(Head + (Element("1.0.0-SNAPSHOT", "", "google-cloud-java") + (Dependency
                    + (Element("1.2.3-SNAPSHOT", "", "google-cloud-secretmanager") + DependencyEnd))),
                    "google-cloud-secretmanager", "2.0.0")
         == Head + (Element("1.0.0-SNAPSHOT", "", "google-cloud-java") + (Dependency
            + (Element("2.0.0-SNAPSHOT", "", "google-cloud-secretmanager") + DependencyEnd)))
  {
    HeadPlain();
    DependencyPlain();
    DependencyEndPlain();
    RewriteTwoFramed(Head, "1.0.0-SNAPSHOT", "", "google-cloud-java", Dependency,
                     "1.2.3-SNAPSHOT", "", "google-cloud-secretmanager", DependencyEnd,
                     "google-cloud-secretmanager", "2.0.0");
    SnapshotVersion();
  }

  /** "no comment": a <version> element without the annotation comment is left as it is. */
  lemma NoComment()
    ensures Rewrite(Head + (Concat([VersionOpen, "1.0.0-SNAPSHOT", VersionClose, "\n"]) + ProjectEnd),
                    "google-cloud-java", "2.0.0")
         == Head + (Concat([VersionOpen, "1.0.0-SNAPSHOT", VersionClose, "\n"]) + ProjectEnd)
  {
    HeadPlain();
    FootPlain();
    ProjectEndOpensNoComment();
    RewriteUnannotatedFramed(Head, "1.0.0-SNAPSHOT", "\n", ProjectEnd, "google-cloud-java", "2.0.0");
  }

  lemma ProjectEndOpensNoComment()
    ensures !HasPrefix(ProjectEnd, CommentOpen) && !IsReSpace(ProjectEnd[0])
  {
    assert ProjectEnd[1] != CommentOpen[1];
  }

  /** A <version> element without the annotation comment, between texts that hold no
      <version> tag, is left as it is. */
  lemma RewriteUnannotatedFramed(h: string, v: string, ws: string, f: string, libraryID: string, version: string)
    requires Plain(h) && Plain(f) && IsVersionText(v) && IsSpaces(ws)
    requires !HasPrefix(f, CommentOpen) && (|f| > 0 ==> !IsReSpace(f[0]))
    ensures Rewrite(h + (Concat([VersionOpen, v, VersionClose, ws]) + f), libraryID, version)
         == h + (Concat([VersionOpen, v, VersionClose, ws]) + f)
  {
    var e := Concat([VersionOpen, v, VersionClose, ws]);
    RewritePlain(h, e + f, libraryID, version);
    RewriteUnannotated(v, ws, f, libraryID, version);
    RewriteKeepsPlain(f, libraryID, version);
  }
}
