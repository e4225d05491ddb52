/** Routing is a well-defined longest match, on text and on path segments. */
module RoutingTheorems {
  import opened Text
  import opened Paths
  import opened ServerConfigs

  /** The names that the configuration admits start with a slash. */
  predicate Rooted(locations: seq<Location>) {
    forall i | 0 <= i < |locations| :: locations[i].name != "" && locations[i].name[0] == '/'
  }

  predicate Matches(l: Location, uri: string) {
    IsPathPrefix(Trim(uri), Key(l))
  }

  // ---------- trimming ----------

  lemma {:induction false} TrimKeepsSegments(s: string)
    ensures Segments(Trim(s)) == Segments(s)
    decreases |s|
  {
    if |s| > 1 && s[|s| - 1] == '/' {
      var init := s[..|s| - 1];
      assert s == init + "/";
      SegmentsOfSlashEnd(init);
      TrimKeepsSegments(init);
    }
  }

  lemma {:induction false} TrimIsShort(s: string)
    ensures EndsInSlash(Trim(s)) ==> Trim(s) == "/"
    decreases |s|
  {
    if |s| > 1 && s[|s| - 1] == '/' {
      TrimIsShort(s[..|s| - 1]);
    }
  }

  function Slashes(n: nat): string {
    if n == 0 then "" else Slashes(n - 1) + "/"
  }

  lemma {:induction false} TrimDropsSlashes(s: string, n: nat)
    requires s != ""
    ensures Trim(s + Slashes(n)) == Trim(s)
  {
    if n == 0 {
      assert s + "" == s;
    } else {
      var longer := s + Slashes(n);
      assert longer[..|longer| - 1] == s + Slashes(n - 1);
      TrimDropsSlashes(s, n - 1);
    }
  }

  /** Extra trailing slashes on the URI change neither the location nor the remainder. */
  lemma RouteIgnoresTrailingSlashes(locations: seq<Location>, uri: string, n: nat)
    requires uri != ""
    ensures Route(locations, uri + Slashes(n)) == Route(locations, uri)
  {
    TrimDropsSlashes(uri, n);
  }

  // ---------- the longest match ----------

  lemma {:induction false} LongestMeaning(locations: seq<Location>, uriKey: string)
    ensures match Longest(locations, uriKey)
            case None => forall l | l in locations :: IsPathPrefix(uriKey, Key(l)) ==> Key(l) == ""
            case Some(best) =>
              && best in locations && IsPathPrefix(uriKey, Key(best)) && Key(best) != ""
              && forall l | l in locations && IsPathPrefix(uriKey, Key(l)) :: |Key(l)| <= |Key(best)|
    decreases |locations|
  {
    if locations != [] {
      var init, last := locations[..|locations| - 1], locations[|locations| - 1];
      LongestMeaning(init, uriKey);
      assert locations == init + [last];
    }
  }

  lemma KeyIsRooted(locations: seq<Location>, l: Location)
    requires Rooted(locations) && l in locations
    ensures Key(l) != "" && Key(l)[0] == '/'
  {}

  lemma MatchesOfOneLength(uri: string, a: string, b: string)
    requires IsPathPrefix(uri, a) && IsPathPrefix(uri, b) && |a| == |b|
    requires a != "" && b != "" && a[0] == b[0] == '/'
    ensures a == b
  {
    if |a| == 1 {
      assert a == "/" == b;
    } else {
      assert a == uri[..|a|] == b;
    }
  }

  lemma DistinctLocations(locations: seq<Location>, a: Location, b: Location)
    requires DistinctKeys(locations) && a in locations && b in locations && Key(a) == Key(b)
    ensures a == b
  {}

  /** The one location that has the longest matching name. */
  ghost predicate IsLongest(locations: seq<Location>, uri: string, best: Location) {
    && best in locations && Matches(best, uri)
    && forall l | l in locations && l != best && Matches(l, uri) :: |Key(l)| < |Key(best)|
  }

  /** The search returns a location exactly when that is the unique longest match. */
  lemma LongestIsUnique(locations: seq<Location>, uri: string, best: Location)
    requires Rooted(locations) && DistinctKeys(locations)
    ensures Longest(locations, Trim(uri)) == Some(best) <==> IsLongest(locations, uri, best)
  {
    var uriKey := Trim(uri);
    var found := Longest(locations, uriKey);
    LongestMeaning(locations, uriKey);
    if found == Some(best) {
      forall l | l in locations && l != best && Matches(l, uri) ensures |Key(l)| < |Key(best)| {
        if |Key(l)| == |Key(best)| {
          MatchesOfOneLength(uriKey, Key(l), Key(best));
          DistinctLocations(locations, l, best);
        }
      }
    }
    if IsLongest(locations, uri, best) {
      KeyIsRooted(locations, best);
      if found.value != best {
        assert Matches(found.value, uri);
        assert false;
      }
    }
  }

  /** 404 exactly when no location matches. */
  lemma NotFoundMeansNoMatch(locations: seq<Location>, uri: string)
    requires Rooted(locations)
    ensures Route(locations, uri) == Err(NotFound) <==> forall l | l in locations :: !Matches(l, uri)
  {
    LongestMeaning(locations, Trim(uri));
    forall l | l in locations ensures Key(l) != "" {
      KeyIsRooted(locations, l);
    }
  }

  /** The order in which locations were added does not matter. */
  lemma RouteIgnoresOrder(a: seq<Location>, b: seq<Location>, uri: string)
    requires Rooted(a) && DistinctKeys(a) && DistinctKeys(b) && multiset(a) == multiset(b)
    ensures Route(a, uri) == Route(b, uri)
  {
    forall l ensures l in a <==> l in b {
      assert l in a <==> l in multiset(a);
      assert l in b <==> l in multiset(b);
    }
    assert Rooted(b) by {
      forall i | 0 <= i < |b| ensures b[i].name != "" && b[i].name[0] == '/' {
        assert b[i] in a;
      }
    }
    LongestMeaning(a, Trim(uri));
    LongestMeaning(b, Trim(uri));
    var found := Longest(a, Trim(uri));
    if found.Some? {
      LongestIsUnique(a, uri, found.value);
      LongestIsUnique(b, uri, found.value);
    } else {
      forall l | l in b ensures !IsPathPrefix(Trim(uri), Key(l)) {
        KeyIsRooted(b, l);
      }
    }
  }

  // ---------- segments ----------

  /** The chosen name and the remainder together are the URI, segment by segment. */
  lemma RouteSplitsUri(locations: seq<Location>, uri: string)
    requires Rooted(locations) && uri != "" && uri[0] == '/'
    ensures Route(locations, uri).Ok? || Route(locations, uri) == Err(NotFound)
    ensures Route(locations, uri).Ok? ==>
              var m := Route(locations, uri).value;
              && m.remainder != "" && m.remainder[0] == '/'
              && Segments(m.loc.name) + Segments(m.remainder) == Segments(uri)
              && (EndsInSlash(m.remainder) <==> Key(m.loc) == Trim(uri))
  {
    var uriKey := Trim(uri);
    LongestMeaning(locations, uriKey);
    if Longest(locations, uriKey).Some? {
      var best := Longest(locations, uriKey).value;
      TrimKeepsSegments(uri);
      TrimKeepsSegments(best.name);
      KeyIsRooted(locations, best);
      TrimIsShort(uri);
      RemainderSplits(uriKey, Key(best));
    }
  }

  lemma RemainderSplits(uriKey: string, locKey: string)
    requires uriKey != "" && uriKey[0] == '/' && (EndsInSlash(uriKey) ==> uriKey == "/")
    requires locKey != "" && IsPathPrefix(uriKey, locKey)
    ensures |locKey| <= |uriKey|
    ensures var r := Remainder(uriKey, locKey);
            && r != "" && r[0] == '/' && Segments(locKey) + Segments(r) == Segments(uriKey)
            && (EndsInSlash(r) <==> locKey == uriKey)
  {
    hide Segments;
    var r := Remainder(uriKey, locKey);
    RootIsRebuilt();
    if |uriKey| == |locKey| {
      assert locKey == uriKey;
    } else if locKey == "/" {
      RootSplits(uriKey);
    } else {
      var rest := uriKey[|locKey|..];
      assert uriKey == locKey + "/" + rest[1..];
      SegmentsOfJoin(locKey, rest[1..]);
      assert r == rest == "/" + rest[1..];
      SegmentsOfRooted(rest[1..]);
    }
  }

  lemma RootSplits(uriKey: string)
    requires |uriKey| > 1 && uriKey[0] == '/' && !EndsInSlash(uriKey)
    ensures var r := Remainder(uriKey, "/");
            r != "" && r[0] == '/' && Segments(r) == Segments(uriKey) && !EndsInSlash(r)
  {
    hide Segments;
    var rest := uriKey[1..];
    assert uriKey == "/" + rest;
    SegmentsOfRooted(rest);
  }

  /** No "//" inside: the URIs on which routing by text and by segments agree. */
  predicate SingleSlashes(s: string) {
    forall i | 0 <= i < |s| - 1 :: !(s[i] == '/' && s[i + 1] == '/')
  }

  lemma RootIsRebuilt()
    ensures Segments("/") == []
    ensures Rebuild([], false) == Rebuild([], true) == "/"
  {
    assert "/"[1..] == "";
  }

  lemma RebuildWithSlash(stack: seq<string>)
    requires !EndsInSlash(Rebuild(stack, false))
    ensures Rebuild(stack, true) == Rebuild(stack, false) + "/"
  {}

  lemma RebuildOfOne(name: string)
    ensures Rebuild([name], false) == "/" + name
  {}

  lemma {:induction false} SingleSlashedIsRebuilt(s: string)
    requires s != "" && s[0] == '/' && SingleSlashes(s)
    ensures s == Rebuild(Segments(s), EndsInSlash(s))
    decreases |s|
  {
    hide Segments, Join, Rebuild;
    if s == "/" {
      RootIsRebuilt();
    } else if EndsInSlash(s) {
      var init := s[..|s| - 1];
      assert s == init + "/";
      SegmentsOfSlashEnd(init);
      assert !EndsInSlash(init) by { assert s[|init| - 1] == init[|init| - 1]; }
      SingleSlashedIsRebuilt(init);
      RebuildWithSlash(Segments(s));
    } else {
      LastSlash(s);
      var k := LastSlashAt(s);
      assert s == s[..k] + "/" + s[k + 1..];
      if k == 0 {
        assert s == "/" + s[1..];
        SegmentsOfRooted(s[1..]);
        SegmentsOfOne(s[1..]);
        RebuildOfOne(s[1..]);
      } else {
        assert !EndsInSlash(s[..k]) by { assert s[k - 1] == s[..k][k - 1]; }
        SingleSlashedIsRebuilt(s[..k]);
        RebuildOneMore(s[..k], s[k + 1..]);
      }
    }
  }

  lemma RebuildOneMore(init: string, last: string)
    requires init != "" && init[0] == '/' && SingleSlashes(init) && !EndsInSlash(init) && IsSegment(last)
    requires init == Rebuild(Segments(init), false)
    ensures init + "/" + last == Rebuild(Segments(init + "/" + last), false)
  {
    hide Segments, Rebuild;
    SegmentsOfJoin(init, last);
    SegmentsOfOne(last);
    SegmentsAreSegments(init);
    NonEmptySegments(init);
    RebuildConcat(Segments(init), [last]);
    assert Join([last]) == last;
  }

  function LastSlashAt(s: string): (k: nat)
    requires s != "" && s[0] == '/'
    ensures k < |s|
  {
    if s[|s| - 1] == '/' || |s| == 1 then |s| - 1 else LastSlashAt(s[..|s| - 1])
  }

  lemma {:induction false} LastSlash(s: string)
    requires s != "" && s[0] == '/'
    ensures var k := LastSlashAt(s); s[k] == '/' && '/' !in s[k + 1..]
    decreases |s|
  {
    if s[|s| - 1] != '/' && |s| > 1 {
      var init := s[..|s| - 1];
      LastSlash(init);
      var k := LastSlashAt(init);
      assert s[k + 1..] == init[k + 1..] + [s[|s| - 1]];
    }
  }

  lemma NonEmptySegments(s: string)
    requires |s| > 1 && s[0] == '/' && SingleSlashes(s)
    ensures Segments(s) != []
  {
    assert s[1] != '/';
    assert s[1..] != "" && s[1..][0] != '/';
  }

  lemma {:induction false} TrimKeepsSingleSlashes(s: string)
    requires SingleSlashes(s)
    ensures SingleSlashes(Trim(s))
    decreases |s|
  {
    if |s| > 1 && s[|s| - 1] == '/' {
      TrimKeepsSingleSlashes(s[..|s| - 1]);
    }
  }

  lemma KeyIsRebuilt(s: string)
    requires s != "" && s[0] == '/' && SingleSlashes(s)
    ensures Trim(s) == Rebuild(Segments(s), false)
  {
    hide Segments, Join;
    TrimKeepsSegments(s);
    TrimKeepsSingleSlashes(s);
    TrimIsShort(s);
    SingleSlashedIsRebuilt(Trim(s));
    if EndsInSlash(Trim(s)) {
      RootIsRebuilt();
    }
  }

  /** A text that is no shorter than a key covers it on segments: the key's segments are the first
      ones of the text, and the part of the text as long as the key has no "//". */
  predicate Covers(key: string, uri: string) {
    && Segments(key) <= Segments(uri)
    && |key| <= |uri| && SingleSlashes(uri[..|key|])
  }

  lemma FirstSegment(s: string)
    requires s != "" && s[0] != '/'
    ensures var n := SegmentLength(s);
            Segments(s) != [] && Segments(s)[0] == s[..n] && (n == |s| || s[n] == '/')
  {
    SegmentLengthStops(s);
  }

  lemma PrefixIsSingleSlashed(s: string, m: nat, n: nat)
    requires m <= n <= |s| && SingleSlashes(s[..n])
    ensures SingleSlashes(s[..m])
  {
    forall i | 0 <= i < m - 1 ensures !(s[..m][i] == '/' && s[..m][i + 1] == '/') {
      assert s[..m][i] == s[..n][i] && s[..m][i + 1] == s[..n][i + 1];
    }
  }

  /** The name behind a slash, up to the next one. */
  lemma NameBehindSlash(uri: string, m: nat, name: string)
    requires name != "" && m + 1 + |name| <= |uri| && uri[m] == '/' && SingleSlashes(uri[..m + 1 + |name|])
    requires Segments(uri[m + 1..]) != [] && Segments(uri[m + 1..])[0] == name
    ensures var n := m + 1 + |name|;
            uri[..n] == uri[..m] + "/" + name && (n == |uri| || uri[n] == '/')
  {
    hide Segments;
    var n, rest := m + 1 + |name|, uri[m + 1..];
    assert uri[..n][m] == '/' && uri[..n][m + 1] == rest[0];
    FirstSegment(rest);
    assert rest[..|name|] == uri[m + 1..n];
  }

  lemma RebuildOneLonger(init: seq<string>, last: string)
    requires AllSegments(init) && IsSegment(last)
    ensures Rebuild(init + [last], false) == (if init == [] then "" else Rebuild(init, false)) + "/" + last
  {
    hide Segments;
    if init == [] {
      RebuildOfOne(last);
      assert init + [last] == [last];
    } else {
      RebuildConcat(init, [last]);
      assert Join([last]) == last;
    }
  }

  /** Following single-slashed names from the start of a text, segment by segment. */
  lemma {:induction false} NamesLeadTo(names: seq<string>, uri: string)
    requires names != [] && AllSegments(names) && names <= Segments(uri) && uri != "" && uri[0] == '/'
    requires var n := |Rebuild(names, false)|; n <= |uri| && SingleSlashes(uri[..n])
    ensures var n := |Rebuild(names, false)|;
            uri[..n] == Rebuild(names, false) && (n == |uri| || uri[n] == '/')
    decreases |names|
  {
    hide Segments, Join, Rebuild, SingleSlashes, EndsInSlash;
    var init, last := names[..|names| - 1], names[|names| - 1];
    assert names == init + [last] && IsSegment(last);
    RebuildOneLonger(init, last);
    var m := if init == [] then 0 else |Rebuild(init, false)|;
    if init != [] {
      PrefixIsSingleSlashed(uri, m, |Rebuild(names, false)|);
      NamesLeadTo(init, uri);
      SegmentsOfRebuild(init, false);
    }
    NextName(names, uri, m);
    NameBehindSlash(uri, m, last);
  }

  /** Behind the first names the text goes on with the next one. */
  lemma NextName(names: seq<string>, uri: string, m: nat)
    requires names != [] && names <= Segments(uri) && m < |uri| && uri[m] == '/'
    requires var init := names[..|names| - 1];
             if init == [] then m == 0 else Segments(uri[..m]) == init
    ensures var rest := uri[m + 1..];
            Segments(rest) != [] && Segments(rest)[0] == names[|names| - 1]
  {
    hide Segments;
    var rest := uri[m + 1..];
    assert uri == uri[..m] + "/" + rest;
    SegmentsOfJoin(uri[..m], rest);
    SegmentsOfNone();
    assert Segments(uri)[|names| - 1] == names[|names| - 1];
  }

  /** The exact meaning of a match on segments, for every URI: the location's segments lead into the
      URI's, and the URI has no "//" in the part that they cover. */
  lemma MatchMeansCovered(l: Location, uri: string)
    requires uri != "" && uri[0] == '/'
    requires l.name != "" && l.name[0] == '/' && SingleSlashes(l.name)
    ensures Matches(l, uri) <==> Covers(Key(l), uri)
  {
    hide Segments, Join, Rebuild;
    KeyIsRebuilt(l.name);
    TrimKeepsSegments(l.name);
    TrimKeepsSingleSlashes(l.name);
    TrimKeepsSegments(uri);
    if Matches(l, uri) {
      MatchedIsCovered(Key(l), uri);
    }
    if Covers(Key(l), uri) && Key(l) != "/" {
      SegmentsAreSegments(l.name);
      KeyHasNames(l.name);
      NamesLeadTo(Segments(l.name), uri);
      CoveredIsMatched(Key(l), uri);
    }
  }

  lemma KeyHasNames(name: string)
    requires name != "" && name[0] == '/' && SingleSlashes(name) && Trim(name) != "/"
    ensures Segments(name) != []
  {
    KeyIsRebuilt(name);
    RootIsRebuilt();
  }

  lemma MatchedIsCovered(key: string, uri: string)
    requires uri != "" && uri[0] == '/' && key != "" && SingleSlashes(key) && IsPathPrefix(Trim(uri), key)
    ensures Covers(key, uri)
  {
    hide Segments, Trim, Rebuild, EndsInSlash;
    TrimKeepsSegments(uri);
    if key == "/" {
      RootIsRebuilt();
    } else {
      UnderMeansPrefix(Trim(uri), key);
      assert uri[..|key|] == key;
    }
  }

  lemma CoveredIsMatched(key: string, uri: string)
    requires key <= uri && key != "" && !EndsInSlash(key) && (|key| == |uri| || uri[|key|] == '/')
    ensures IsPathPrefix(Trim(uri), key)
  {
    TrimKeepsPrefix(uri, key);
  }

  lemma {:induction false} TrimKeepsPrefix(s: string, p: string)
    requires p <= s && p != "" && !EndsInSlash(p)
    ensures p <= Trim(s)
    decreases |s|
  {
    if |s| > 1 && s[|s| - 1] == '/' {
      var init := s[..|s| - 1];
      assert p != s;
      TrimKeepsPrefix(init, p);
    }
  }

  /** The second condition is needed: "/a//b" is not routed to "/a/b", whose segments it has. */
  lemma DoubleSlashesAreNotAbsorbed()
    ensures var l := DEFAULT_LOCATION.(name := "/a/b");
            Segments(l.name) <= Segments("/a//b") && !Matches(l, "/a//b")
  {
    var a, b := ("/a" + "/" + "b"), ("/a" + "/" + "/b");
    SegmentsOfJoin("/a", "b");
    SegmentsOfJoin("/a", "/b");
    SegmentsOfRooted("b");
    assert a == "/a/b" && b == "/a//b" && "/b" == "/" + "b";
    assert Trim("/a/b") == "/a/b" && Trim("/a//b") == "/a//b";
    assert "/a/b"[..4][3] == 'b' && "/a//b"[..4][3] == '/';
  }
}
