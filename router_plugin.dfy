/** The navigation guard registered by plugins/router-plugin-dynamic.ts:
    leaving a sub-page for a different section sends the user to the parent
    of the page being left. */
module RouterPlugin {
  import opened Common
  import opened Paths

  /** `getParentPath(path)`: "/" for a path of at most one segment, otherwise
      "/" and every segment but the last, joined by "/". */
  function GetParentPath(path: string): (parent: string)
    ensures |parent| >= 1 && parent[0] == Slash
    ensures |Segments(path)| <= 1 ==> parent == "/"
  {
    var segs := Segments(path);
    if |segs| <= 1 then "/" else "/" + Join(segs[..|segs| - 1], Slash)
  }

  /** The parent keeps exactly the segments of the path but its last one, so it
      has max(0, n - 1) segments for a path of n segments. */
  lemma ParentPathSegments(path: string)
    ensures var segs := Segments(path);
            Segments(GetParentPath(path)) == if |segs| <= 1 then [] else segs[..|segs| - 1]
    ensures |Segments(GetParentPath(path))| == if |Segments(path)| == 0 then 0 else |Segments(path)| - 1
    ensures |Segments(path)| <= 1 ==> GetParentPath(path) == "/"
  {
    var segs := Segments(path);
    if |segs| <= 1 {
      assert GetParentPath(path) == "/" + Join([], Slash);
      RootedSegments([]);
    } else {
      RootedSegments(segs[..|segs| - 1]);
    }
  }

  /** The parent of a rooted path of at least two segments. */
  lemma ParentOfRooted(segs: seq<string>)
    requires |segs| >= 2 && ProperSegments(segs)
    ensures GetParentPath("/" + Join(segs, Slash)) == "/" + Join(segs[..|segs| - 1], Slash)
  {
    RootedSegments(segs);
  }

  /** Three segments written out as a path. */
  lemma JoinThree(a: string, b: string, c: string)
    ensures "/" + Join([a, b, c], Slash) == "/" + a + "/" + b + "/" + c
    ensures "/" + Join([a, b, c][..2], Slash) == "/" + a + "/" + b
  {
    assert [a, b, c][1..] == [b, c];
    assert [b, c][1..] == [c];
    assert Join([b, c], Slash) == b + "/" + c;
    assert Join([a, b, c], Slash) == a + "/" + (b + "/" + c);
    assert [a, b, c][..2] == [a, b];
    assert [a, b][1..] == [b];
  }

  /** The parent of a three-segment path is its first two segments. */
  lemma ParentOfThree(a: string, b: string, c: string)
    requires ProperSegments([a, b, c])
    ensures GetParentPath("/" + a + "/" + b + "/" + c) == "/" + a + "/" + b
  {
    JoinThree(a, b, c);
    ParentOfRooted([a, b, c]);
  }

  /** The parent of a two-segment path is its first segment. */
  lemma ParentOfTwo(a: string, b: string)
    requires ProperSegments([a, b])
    ensures GetParentPath("/" + a + "/" + b) == "/" + a
  {
    assert [a, b][1..] == [b];
    assert "/" + Join([a, b], Slash) == "/" + a + "/" + b;
    assert [a, b][..1] == [a];
    ParentOfRooted([a, b]);
  }

  /** First example of the function's own documentation. */
  lemma ParentOfReviewsPage()
    ensures GetParentPath("/products/123/reviews") == "/products/123"
  {
    assert ProperSegments(["products", "123", "reviews"]);
    ParentOfThree("products", "123", "reviews");
    assert "/products/123/reviews" == "/" + "products" + "/" + "123" + "/" + "reviews";
    assert "/products/123" == "/" + "products" + "/" + "123";
  }

  /** Second example of the function's own documentation. */
  lemma ParentOfEditPage()
    ensures GetParentPath("/user/profile/edit") == "/user/profile"
  {
    assert ProperSegments(["user", "profile", "edit"]);
    ParentOfThree("user", "profile", "edit");
    assert "/user/profile/edit" == "/" + "user" + "/" + "profile" + "/" + "edit";
    assert "/user/profile" == "/" + "user" + "/" + "profile";
  }

  /** Third example of the function's own documentation. */
  lemma ParentOfQuizPage()
    ensures GetParentPath("/quizz/1") == "/quizz"
  {
    assert ProperSegments(["quizz", "1"]);
    ParentOfTwo("quizz", "1");
    assert "/quizz/1" == "/" + "quizz" + "/" + "1";
  }

  /** `path.split('/')[1]`: the raw second component, `undefined` when absent.
      It is absent exactly when the path holds no '/', and otherwise it is the
      text between the first '/' and the next one (or the end). */
  function SecondComponent(path: string): (second: Option<string>)
    ensures second.None? <==> Slash !in path
    ensures second.Some? ==> Slash !in second.value
    ensures second.Some? ==>
              exists i :: 0 <= i < |path| && path[i] == Slash && Slash !in path[..i]
                          && StartsWith(path[i + 1..], second.value)
                          && (i + 1 + |second.value| == |path| || path[i + 1 + |second.value|] == Slash)
  {
    var parts := Split(path, Slash);
    if Slash !in path then
      SplitWithoutSeparator(path, Slash);
      None
    else
      SplitAtFirstSeparator(path, Slash);
      var i := |parts[0]|;
      FirstPiece(path[i + 1..], Slash);
      assert path[i] == Slash;
      if |parts| > 1 then Some(parts[1]) else None
  }

  /** The `beforeEach` guard: `Some(target)` redirects, `None` lets the
      navigation through. It redirects exactly when leaving a sub-page for a
      different raw second component, and its target is the parent of the page
      left: that page with its last segment dropped. */
  function BeforeEach(toPath: string, fromPath: string): (redirect: Option<string>)
    ensures redirect.Some? <==> |Segments(fromPath)| > 1 && SecondComponent(fromPath) != SecondComponent(toPath)
    ensures redirect.Some? ==> redirect.value == GetParentPath(fromPath)
    ensures redirect.Some? ==>
              Segments(redirect.value) == Segments(fromPath)[..|Segments(fromPath)| - 1]
  {
    var fromBase := SecondComponent(fromPath);
    var toBase := SecondComponent(toPath);
    var isLeavingSubpage := |Segments(fromPath)| > 1;
    var isGoingToUnrelatedSection := fromBase != toBase;
    if isLeavingSubpage && isGoingToUnrelatedSection then
      ParentPathSegments(fromPath);
      Some(GetParentPath(fromPath))
    else None
  }

  /** The raw second components of "/a/b", "/a", "/c" and "a". */
  lemma SampleComponents()
    ensures SecondComponent("/a/b") == Some("a")
    ensures SecondComponent("/a") == Some("a")
    ensures SecondComponent("/c") == Some("c")
    ensures SecondComponent("a") == None
  {
    assert Join(["", "a", "b"][1..], Slash) == "a/b";
    assert "/a/b" == Join(["", "a", "b"], Slash);
    SplitJoin(["", "a", "b"], Slash);
    assert "/a" == Join(["", "a"], Slash);
    SplitJoin(["", "a"], Slash);
    assert "/c" == Join(["", "c"], Slash);
    SplitJoin(["", "c"], Slash);
    SplitWithoutSeparator("a", Slash);
  }

  /** The guard compares raw split components, so "/a" and "a" differ as
      targets, while staying in the same section does not redirect. */
  lemma RawComponentsCompared()
    ensures BeforeEach("/a", "/a/b") == None
    ensures BeforeEach("a", "/a/b") == Some("/a")
    ensures BeforeEach("/c", "/a/b") == Some("/a")
  {
    var ab := ["a", "b"];
    assert Join(ab[1..], Slash) == "b";
    assert "/a/b" == "/" + Join(ab, Slash);
    assert ProperSegments(ab);
    ParentOfTwo("a", "b");
    RootedSegments(ab);
    SampleComponents();
    assert "/a/b" == "/" + "a" + "/" + "b";
    assert "c"[0] != "a"[0];
    assert SecondComponent("/c") != SecondComponent("/a/b");
    assert |Segments("/a/b")| > 1;
    assert GetParentPath("/a/b") == "/a";
    assert BeforeEach("/c", "/a/b") == Some(GetParentPath("/a/b"));
  }

  /** A non-empty segment list joined behind "/" starts with exactly one '/'. */
  lemma RootedStartsWithOneSlash(segs: seq<string>)
    requires |segs| >= 1 && ProperSegments(segs)
    ensures var p := "/" + Join(segs, Slash); |p| >= 2 && p[0] == Slash && p[1] != Slash
  {
    assert segs[0] != "" && Slash !in segs[0];
    assert Join(segs, Slash)[0] == segs[0][0];
  }

  /** Following the redirect does not redirect again, for a from-path that
      starts with a single '/'. */
  lemma {:induction false} GuardSettles(toPath: string, fromPath: string)
    requires |fromPath| >= 2 && fromPath[0] == Slash && fromPath[1] != Slash
    requires BeforeEach(toPath, fromPath).Some?
    ensures BeforeEach(BeforeEach(toPath, fromPath).value, fromPath) == None
  {
    var segs := Segments(fromPath);
    var kept := segs[..|segs| - 1];
    var target := GetParentPath(fromPath);
    assert target == "/" + Join(kept, Slash);
    RootedStartsWithOneSlash(kept);
    FirstSegmentIsSecondComponent(fromPath);
    FirstSegmentIsSecondComponent(target);
    RootedSegments(kept);
    assert SecondComponent(target) == Some(kept[0]) == Some(segs[0]) == SecondComponent(fromPath);
  }
}
