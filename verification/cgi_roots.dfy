/** Which script a CGI request runs, seen from the location's root. */
module CgiRoots {
  import opened Text
  import opened Paths
  import opened RoutingTheorems
  import opened RequestHandlers
  import Cgi = CgiPath

  lemma {:induction false} NameAtTheEnd(s: string)
    requires s != "" && !EndsInSlash(s)
    ensures Segments(s) != []
    decreases |s|
  {
    if s[0] == '/' {
      NameAtTheEnd(s[1..]);
    }
  }

  /** The script is the path up to the end of a segment. */
  lemma ScriptIsCut(path: string, extensions: seq<string>)
    requires path != ""
    ensures var script := Cgi.Executable(path, extensions);
            && script <= path && script != "" && (|script| == |path| || path[|script|] == '/')
            && Segments(script) <= Segments(path)
  {
    hide Segments;
    var script := Cgi.Executable(path, extensions);
    if Cgi.PathInfo(path, extensions).Some? {
      var info := Cgi.PathInfo(path, extensions).value;
      Cgi.SplitIsExact(path, extensions);
      SplitIsNotEmpty(path, extensions);
      if info != "" {
        assert path == script + "/" + info[1..];
        SegmentsOfJoin(script, info[1..]);
      } else {
        assert path == script + "" == script;
      }
    }
  }

  lemma SplitIsNotEmpty(path: string, extensions: seq<string>)
    requires Cgi.PathInfo(path, extensions).Some?
    ensures Cgi.Executable(path, extensions) != ""
  {
    Cgi.SplitMeaning(path, extensions);
    var s := Cgi.BestSplit(path, extensions).value;
    var i: nat :| Cgi.Decides(path, extensions, i, s);
  }

  /** Behind a shorter script the root goes on with a segment of its own. */
  lemma RootGoesOn(root: string, path: string, script: string)
    requires CanonicalRoot(root) && root != "/" && root <= path
    requires script <= path && |script| < |root| && path[|script|] == '/'
    ensures !(Segments(root) <= Segments(script))
  {
    hide Segments, CanonicalRoot;
    RootEndsInName(root);
    var rest := root[|script| + 1..];
    assert root[|script|] == path[|script|] && script == root[..|script|];
    assert root == script + "/" + rest;
    SegmentsOfJoin(script, rest);
    assert |root| - 1 == |script| + |rest| && root[|root| - 1] != '/';
    assert rest[|rest| - 1] == root[|root| - 1];
    NameAtTheEnd(rest);
  }

  lemma RootEndsInName(root: string)
    requires CanonicalRoot(root) && root != "/"
    ensures root != "" && !EndsInSlash(root)
  {
    SegmentsAreSegments(root);
    SegmentsOfRebuild(Segments(root), false);
    hide Segments;
  }

  lemma AcceptedIsUnder(path: string, root: string)
    requires Validate(path, root) == Ok(path)
    ensures Under(path, root) && path != ""
  {
    hide Segments, Walk;
    NormalFormsAreCanonical(path);
  }

  /** The script lies below the root exactly if it is no shorter: a path below the root may well be
      split inside the root. */
  lemma ScriptIsBelowExactly(root: string, path: string, extensions: seq<string>)
    requires CanonicalRoot(root) && Validate(path, root) == Ok(path)
    ensures var script := Cgi.Executable(path, extensions);
            Below(root, script) <==> |root| <= |script|
  {
    hide Segments, Rebuild, CanonicalRoot, Validate;
    AcceptedPathsStayUnderRoot(path, root);
    AcceptedIsUnder(path, root);
    ScriptIsCut(path, extensions);
    var script := Cgi.Executable(path, extensions);
    assert Clean(Segments(script));
    if |root| <= |script| {
      UnderMeansPrefix(script, root);
    } else {
      RootGoesOn(root, path, script);
    }
  }

  /** No allowed extension ends a segment of the root, other than as the whole segment. */
  ghost predicate IsPlain(root: string, extensions: seq<string>) {
    forall i: nat, p: nat | i < |extensions| && extensions[i] != "" :: !Cgi.Valid(root, extensions[i], p)
  }

  /** Below a plain root every script lies below the root. */
  lemma PlainRootsKeepScripts(root: string, path: string, extensions: seq<string>)
    requires CanonicalRoot(root) && Validate(path, root) == Ok(path) && IsPlain(root, extensions)
    ensures Below(root, Cgi.Executable(path, extensions))
  {
    hide CanonicalRoot, Validate, Below, IsPlain, Under;
    ScriptIsBelowExactly(root, path, extensions);
    AcceptedIsUnder(path, root);
    if |Cgi.Executable(path, extensions)| < |root| {
      SplitInRoot(root, path, extensions);
    }
  }

  lemma SplitInRoot(root: string, path: string, extensions: seq<string>)
    requires Under(path, root) && path != "" && |Cgi.Executable(path, extensions)| < |root|
    ensures !IsPlain(root, extensions)
  {
    ScriptIsCut(path, extensions);
    assert root <= path && Cgi.PathInfo(path, extensions).Some?;
    Cgi.SplitMeaning(path, extensions);
    var s := Cgi.BestSplit(path, extensions).value;
    var i: nat :| Cgi.Decides(path, extensions, i, s);
    Cgi.RightmostIsValid(path, extensions[i], s.pos);
    assert root[s.pos..s.pos + s.length] == path[s.pos..s.pos + s.length];
    assert Cgi.Valid(root, extensions[i], s.pos);
  }

  /** It can happen: with the root "/a.py/b", the path "/a.py/b/c" runs "/a.py". */
  lemma ScriptAboveRoot()
    ensures var root, path, extensions := "/a.py/b", "/a.py/b/c", [".py"];
            && Validate(path, root) == Ok(path)
            && Cgi.Executable(path, extensions) == "/a.py" && !Below(root, Cgi.Executable(path, extensions))
  {
    var root, path := "/a.py/b", "/a.py/b/c";
    SmallRoot();
    SmallSplit();
    hide Segments, Walk, Rebuild, CanonicalRoot, Validate, Below;
    ScriptIsBelowExactly(root, path, [".py"]);
  }

  lemma SmallRoot()
    ensures CanonicalRoot("/a.py/b") && Validate("/a.py/b/c", "/a.py/b") == Ok("/a.py/b/c")
  {
    hide Segments, Walk, Rebuild, Join;
    var one, two := ["a.py"], ["a.py"] + ["b"];
    SegmentsOfOne("a.py");
    SegmentsOfOne("b");
    SegmentsOfOne("c");
    assert "/a.py" == "/" + "a.py" && "/a.py/b" == "/a.py" + "/" + "b" && "/c" == "/" + "c";
    SegmentsOfRooted("a.py");
    SegmentsOfRooted("c");
    SegmentsOfJoin("/a.py", "b");
    RebuildOneLonger([], "a.py");
    RebuildOneLonger(one, "b");
    RebuildOneLonger(two, "c");
    assert [] + ["a.py"] == one;
    ResolveExactly("/a.py/b", "/c");
    WalkOfClean(two, ["c"]);
    assert "/a.py/b/c" == "/a.py/b" + "/" + "c" == "/a.py/b" + "/c";
  }

  lemma SmallSplit()
    ensures Cgi.Executable("/a.py/b/c", [".py"]) == "/a.py"
  {
    var path, extensions := "/a.py/b/c", [".py"];
    Cgi.SplitMeaning(path, extensions);
    assert path[2..5] == ".py" && Cgi.Valid(path, extensions[0], 2);
    var s := Cgi.BestSplit(path, extensions).value;
    var i: nat :| Cgi.Decides(path, extensions, i, s);
    assert path[s.pos..s.pos + 3][0] == path[s.pos] == '.';
    assert s.pos == 2 && path[..5] == "/a.py";
  }
}
