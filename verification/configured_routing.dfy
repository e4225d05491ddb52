/** What an accepted configuration guarantees to routing. */
module ConfiguredRouting {
  import opened Text
  import opened Paths
  import opened ServerConfigs
  import opened ConfigGrammar
  import opened RoutingTheorems
  import opened RequestHandlers
  import RequestHead

  // ---------- well-formed servers ----------

  predicate WellFormedLocation(l: Location) {
    && IsValidLocationName(l.name)
    && l.methods <= {RequestHead.Get, RequestHead.Post, RequestHead.Delete}
    && (l.hasMethods <==> l.methods != {})
    && (l.hasExtensions <==> l.extensions != [])
    && (forall i | 0 <= i < |l.extensions| :: l.extensions[i] != "" && l.extensions[i] != ";")
    && (Root in l.settings ==> SafePath(l.settings[Root]))
    && (Index in l.settings ==> SafeIndex(l.settings[Index]))
    && (UploadPath in l.settings ==> SafePath(l.settings[UploadPath]))
  }

  predicate WellFormed(s: Server) {
    && DistinctKeys(s.locations)
    && forall i | 0 <= i < |s.locations| :: WellFormedLocation(s.locations[i])
  }

  lemma {:induction false} MethodsLoopKeeps(tokens: seq<string>, loc: Location, isEmpty: bool)
    requires WellFormedLocation(loc.(hasMethods := !isEmpty)) && !loc.hasMethods
    ensures match MethodsLoop(tokens, loc, isEmpty)
            case Fail => true
            case Done(next, _) => WellFormedLocation(next)
    decreases |tokens|
  {
    hide IsValidLocationName, SafePath, SafeIndex;
    if Head(tokens) != ";" && MethodOf(Head(tokens)).Some? {
      MethodsLoopKeeps(Tail(tokens), loc.(methods := loc.methods + {MethodOf(Head(tokens)).value}), false);
    }
  }

  lemma {:induction false} ExtensionsLoopKeeps(tokens: seq<string>, loc: Location)
    requires WellFormedLocation(loc.(hasExtensions := loc.extensions != []))
    requires loc.extensions != [] || (Head(tokens) != "" && Head(tokens) != ";")
    ensures WellFormedLocation(ExtensionsLoop(tokens, loc).value)
    decreases |tokens|
  {
    hide IsValidLocationName, SafePath, SafeIndex;
    if Head(tokens) != "" && Head(tokens) != ";" {
      ExtensionsLoopKeeps(Tail(tokens), loc.(extensions := loc.extensions + [Head(tokens)]));
    }
  }

  lemma RootIsSafe(token: string, cwd: Option<string>)
    ensures match RootOf(token, cwd)
            case None => true
            case Some(root) => SafePath(root)
  {}

  lemma LocationDirectiveKeeps(kind: TokenType, tokens: seq<string>, loc: Location, env: Env)
    requires WellFormedLocation(loc)
    ensures match LocationDirective(kind, tokens, loc, env)
            case Fail => true
            case Done(next, _) => WellFormedLocation(next) && next.name == loc.name
  {
    hide IsValidLocationName, SafePath, SafeIndex, MethodsLoop, ExtensionsLoop, RootOf;
    if kind == AllowedMethods && !loc.hasMethods {
      MethodsLoopKeeps(tokens, loc, true);
      MethodsLoopKeepsName(tokens, loc, true);
    } else if kind == CgiAllowedExtensions && ExtensionsClause(tokens, loc).Done? {
      ExtensionsLoopKeeps(tokens, loc);
      ExtensionsLoopKeepsName(tokens, loc);
    } else if kind == Root {
      RootIsSafe(Head(tokens), env.cwd);
    }
  }

  lemma {:induction false} MethodsLoopKeepsName(tokens: seq<string>, loc: Location, isEmpty: bool)
    ensures MethodsLoop(tokens, loc, isEmpty).Done? ==> MethodsLoop(tokens, loc, isEmpty).value.name == loc.name
    decreases |tokens|
  {
    if Head(tokens) != ";" && MethodOf(Head(tokens)).Some? {
      MethodsLoopKeepsName(Tail(tokens), loc.(methods := loc.methods + {MethodOf(Head(tokens)).value}), false);
    }
  }

  lemma {:induction false} ExtensionsLoopKeepsName(tokens: seq<string>, loc: Location)
    ensures ExtensionsLoop(tokens, loc).value.name == loc.name
    decreases |tokens|
  {
    if Head(tokens) != "" && Head(tokens) != ";" {
      ExtensionsLoopKeepsName(Tail(tokens), loc.(extensions := loc.extensions + [Head(tokens)]));
    }
  }

  lemma {:induction false} LocationLoopKeeps(tokens: seq<string>, loc: Location, env: Env)
    requires WellFormedLocation(loc)
    ensures match LocationLoop(tokens, loc, env)
            case Fail => true
            case Done(next, _) => WellFormedLocation(next)
    decreases |tokens|
  {
    hide WellFormedLocation, LocationDirective, ToTokenType;
    if tokens != [] && Head(tokens) != "}" {
      var kind := ToTokenType(Head(tokens));
      LocationDirectiveKeeps(kind, Tail(tokens), loc, env);
      match LocationDirective(kind, Tail(tokens), loc, env)
      case Fail =>
      case Done(next, rest) => LocationLoopKeeps(rest, next, env);
    }
  }

  lemma ServerDirectiveKeeps(kind: TokenType, tokens: seq<string>, server: Server, env: Env)
    requires WellFormed(server)
    ensures match ServerDirective(kind, tokens, server, env)
            case Fail => true
            case Done(next, _) => WellFormed(next)
  {
    hide LocationLoop, IsValidLocationName, SettingClause, PageClause;
    if kind == LocationBlock && IsValidLocationName(Head(tokens)) {
      LocationLoopKeeps(Tail(Tail(tokens)), DEFAULT_LOCATION.(name := Head(tokens)), env);
    }
  }

  lemma {:induction false} ServerLoopKeeps(tokens: seq<string>, server: Server, env: Env)
    requires WellFormed(server)
    ensures match ServerLoop(tokens, server, env)
            case Fail => true
            case Done(next, _) => WellFormed(next)
    decreases |tokens|
  {
    hide WellFormed, ServerDirective, ToTokenType;
    if tokens != [] && Head(tokens) != "}" {
      var kind := ToTokenType(Head(tokens));
      ServerDirectiveKeeps(kind, Tail(tokens), server, env);
      match ServerDirective(kind, Tail(tokens), server, env)
      case Fail =>
      case Done(next, rest) => ServerLoopKeeps(rest, next, env);
    }
  }

  /** Every server of an accepted file has valid location names, pairwise different up to trailing
      slashes, and a non-empty list wherever a list directive was given. */
  lemma {:induction false} AcceptedServersAreWellFormed(tokens: seq<string>, servers: seq<Server>, env: Env)
    requires forall i | 0 <= i < |servers| :: WellFormed(servers[i])
    ensures match ParseFile(tokens, servers, env)
            case None => true
            case Some(all) => forall i | 0 <= i < |all| :: WellFormed(all[i])
    decreases |tokens|
  {
    assert WellFormed(DEFAULT_SERVER);
    hide WellFormed, ServerLoop;
    if Head(tokens) == "server" && Head(Tail(tokens)) == "{" {
      ServerLoopKeeps(Tail(Tail(tokens)), DEFAULT_SERVER, env);
      match ServerClause(Tail(tokens), env)
      case Fail =>
      case Done(server, rest) =>
        AcceptedServersAreWellFormed(rest, servers + [server], env);
        assert ParseFile(tokens, servers, env) == ParseFile(rest, servers + [server], env);
    }
  }

  // ---------- routing with an accepted configuration ----------

  lemma ValidNamesHaveSingleSlashes(name: string)
    requires IsValidLocationName(name)
    ensures SingleSlashes(name)
  {
    FindIsFirst(name, "//", 0);
    forall i | 0 <= i < |name| - 1 ensures !(name[i] == '/' && name[i + 1] == '/') {
      assert !HasAt(name, i, "//");
      assert name[i..i + 2] == [name[i], name[i + 1]];
    }
  }

  lemma WellFormedIsRooted(s: Server)
    requires WellFormed(s)
    ensures Rooted(s.locations)
  {
    forall i | 0 <= i < |s.locations| ensures s.locations[i].name != "" && s.locations[i].name[0] == '/' {
      assert WellFormedLocation(s.locations[i]);
    }
  }

  /** The location whose segments lead deepest into the URI, among those whose segments lead into it
      without "//" on the way, and the only one so deep. */
  ghost predicate IsDeepest(locations: seq<Location>, uri: string, best: Location) {
    && best in locations && Covers(Key(best), uri)
    && forall l | l in locations && l != best && Covers(Key(l), uri) ::
         |Segments(l.name)| < |Segments(best.name)|
  }

  lemma DeeperIsLonger(a: Location, b: Location, uri: string)
    requires IsValidLocationName(a.name) && IsValidLocationName(b.name)
    requires Covers(Key(a), uri) && Covers(Key(b), uri)
    ensures |Segments(a.name)| < |Segments(b.name)| <==> |Key(a)| < |Key(b)|
  {
    hide IsValidLocationName;
    TrimKeepsSegments(a.name);
    TrimKeepsSegments(b.name);
    if |Segments(a.name)| <= |Segments(b.name)| {
      ShorterIsPrefix(a, b);
      assert |Key(a)| == |Key(b)| ==> Key(a) == Key(b);
    }
    if |Segments(b.name)| <= |Segments(a.name)| {
      ShorterIsPrefix(b, a);
    }
  }

  lemma ShorterIsPrefix(a: Location, b: Location)
    requires IsValidLocationName(a.name) && IsValidLocationName(b.name)
    requires Segments(a.name) <= Segments(b.name)
    ensures Key(a) == "/" || Key(a) <= Key(b)
    ensures |Key(a)| <= |Key(b)| && Key(a) != "" && Key(b) != "" && Key(b)[0] == '/'
  {
    assert a.name != "" && b.name != "" && a.name[0] == b.name[0] == '/';
    hide Segments, Rebuild, IsValidLocationName;
    ValidNamesHaveSingleSlashes(a.name);
    ValidNamesHaveSingleSlashes(b.name);
    KeyIsRebuilt(a.name);
    KeyIsRebuilt(b.name);
    SegmentsAreSegments(a.name);
    SegmentsAreSegments(b.name);
    UnderCanonicalRoot(Segments(b.name), false, Segments(a.name));
  }

  /** For every server of an accepted configuration and every URI, routing finds the deepest location
      on segments, and answers 404 exactly if there is none. */
  lemma RoutesToDeepest(s: Server, uri: string)
    requires WellFormed(s) && uri != "" && uri[0] == '/'
    ensures Route(s.locations, uri).Ok? ==>
              var m := Route(s.locations, uri).value;
              IsDeepest(s.locations, uri, m.loc) && Segments(uri) == Segments(m.loc.name) + Segments(m.remainder)
    ensures Route(s.locations, uri).Err? ==>
              Route(s.locations, uri) == Err(NotFound) && forall l | l in s.locations :: !Covers(Key(l), uri)
  {
    hide Segments, Route, Covers, IsValidLocationName;
    WellFormedIsRooted(s);
    forall l | l in s.locations ensures IsValidLocationName(l.name) && (Matches(l, uri) <==> Covers(Key(l), uri)) {
      assert WellFormedLocation(l);
      ValidNamesHaveSingleSlashes(l.name);
      MatchMeansCovered(l, uri);
    }
    RouteSplitsUri(s.locations, uri);
    NotFoundMeansNoMatch(s.locations, uri);
    if Route(s.locations, uri).Ok? {
      var best := Route(s.locations, uri).value.loc;
      RouteIsLongest(s.locations, uri);
      LongestIsUnique(s.locations, uri, best);
      forall l | l in s.locations && l != best && Covers(Key(l), uri)
        ensures |Segments(l.name)| < |Segments(best.name)|
      {
        DeeperIsLonger(l, best, uri);
      }
    }
  }

  lemma RouteIsLongest(locations: seq<Location>, uri: string)
    requires Route(locations, uri).Ok?
    ensures Longest(locations, Trim(uri)) == Some(Route(locations, uri).value.loc)
  {}

  /** A relative root directive is stored normalised, and is one below which files can be reached
      exactly when it was written without a trailing slash, or leads to "/" itself. */
  lemma RelativeRootsAreCanonical(token: string, cwd: Option<string>)
    requires token != "" && token[0] != '/' && RootOf(token, cwd).Some?
    ensures var root := RootOf(token, cwd).value;
            CanonicalRoot(root) <==> root == "/" || token[|token| - 1] != '/'
  {
    hide Segments, Find;
    var path := cwd.value + "/" + token;
    var root := RootOf(token, cwd).value;
    NormalFormsAreCanonical(path);
    var stack := Segments(root);
    assert Clean(stack) && AllSegments(stack);
    assert root == Rebuild(stack, EndsInSlash(path)) by { NormalFormKeepsSlash(path); }
    SegmentsOfRebuild(stack, false);
    SegmentsOfRebuild(stack, true);
    assert EndsInSlash(path) <==> token[|token| - 1] == '/';
    if root == "/" {
      assert stack == [] by { SegmentsOfRebuild([], false); assert Rebuild([], false) == "/"; }
    }
    if stack == [] {
      assert Rebuild([], false) == Rebuild([], true) == "/";
    }
  }

  lemma NormalFormKeepsSlash(path: string)
    requires Normalize(path).Ok?
    ensures Normalize(path).value == Rebuild(Segments(Normalize(path).value), EndsInSlash(path))
  {
    NormalFormsAreCanonical(path);
  }
}
