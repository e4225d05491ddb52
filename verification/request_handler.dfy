/** RequestHandler's path logic: from a URI and a configuration to a file below a root. */
module RequestHandlers {
  import opened Text
  import opened Paths
  import opened ServerConfigs
  import opened RoutingTheorems
  import RequestHead

  type Method = RequestHead.Method

  /** ResolveFilesystemPath behind the location search; a redirect has no path. */
  function Resolve(locations: seq<Location>, uri: string): Result<string> {
    match Route(locations, uri)
    case Err(status) => Err(status)
    case Ok(m) =>
      if m.loc.HasRedirect() then Ok("") else Validate(m.loc.GetRoot() + m.remainder, m.loc.GetRoot())
  }

  /** How RequestHandler::Run answers: with the location's redirect, with 405 or 501, or by reading,
      writing or removing a file or running a CGI program. */
  datatype Action =
    | Redirected(target: string)
    | NotAllowed
    | Unsupported
    | Read(path: string)
    | Write(path: string)
    | Remove(path: string)
    | Execute(path: string)

  /** HandleGet: the resolved path, with the index file for a directory. */
  function Get(m: LocationMatch, path: string, uri: string, isDirectory: bool): Result<Action> {
    match AppendIndex(path, uri, isDirectory, m.loc.GetIndex(), m.loc.GetRoot())
    case Err(status) => Err(status)
    case Ok(file) => Ok(if m.loc.GetCgiEnabled() then Execute(file) else Read(file))
  }

  /** HandlePost. */
  function Post(m: LocationMatch, path: string, uri: string, isDirectory: bool): Action {
    if EndsInSlash(uri) || isDirectory then NotAllowed
    else if m.loc.GetCgiEnabled() then Execute(path) else Write(path)
  }

  /** RequestHandler::Run; `isDirectory` is what stat says of the resolved path, and an error is
      answered with its status. */
  function Act(locations: seq<Location>, verb: Method, uri: string, isDirectory: bool): Result<Action> {
    match Route(locations, uri)
    case Err(status) => Err(status)
    case Ok(m) =>
      if m.loc.HasRedirect() then Ok(Redirected(m.loc.settings[Redirect]))
      else match Resolve(locations, uri)
           case Err(status) => Err(status)
           case Ok(path) =>
             if m.loc.hasMethods && verb !in m.loc.methods then Ok(NotAllowed)
             else match verb
                  case Get => Get(m, path, uri, isDirectory)
                  case Post => Ok(Post(m, path, uri, isDirectory))
                  case Delete => Ok(Remove(path))
                  case _ => Ok(Unsupported)
  }

  class RequestHandler {
    const conf: ServerConfig
    const verb: Method
    const uri: string
    var locationMatch: Option<LocationMatch>
    var filesystemPath: string

    constructor (conf: ServerConfig, verb: Method, uri: string)
      ensures this.conf == conf && this.verb == verb && this.uri == uri
      ensures locationMatch.None? && filesystemPath == ""
    {
      this.conf, this.verb, this.uri := conf, verb, uri;
      locationMatch, filesystemPath := None, "";
    }

    method Run(statIsDirectory: bool) returns (r: Result<Action>)
      modifies this
      ensures r == Act(conf.locations, verb, uri, statIsDirectory)
    {
      hide Route, AppendIndex, EndsInSlash, Validate;
      var prepared := PrepareRoutingContext();
      if prepared.Err? {
        return Err(prepared.status);
      }
      var loc := locationMatch.value.loc;
      if loc.HasRedirect() {
        return Ok(Redirected(loc.settings[Redirect]));
      }
      if loc.hasMethods && verb !in loc.methods {
        return Ok(NotAllowed);
      }
      match verb {
        case Get => r := HandleGet(statIsDirectory);
        case Post => r := HandlePost(statIsDirectory);
        case Delete => r := Ok(Remove(filesystemPath));
        case _ => r := Ok(Unsupported);
      }
    }

    method HandleGet(statIsDirectory: bool) returns (r: Result<Action>)
      requires locationMatch.Some?
      ensures r == Get(locationMatch.value, filesystemPath, uri, statIsDirectory)
    {
      var file :- AppendIndexFileIfDirectoryOrThrow(filesystemPath, statIsDirectory);
      return Ok(if locationMatch.value.loc.GetCgiEnabled() then Execute(file) else Read(file));
    }

    method HandlePost(statIsDirectory: bool) returns (r: Result<Action>)
      requires locationMatch.Some?
      ensures r == Ok(Post(locationMatch.value, filesystemPath, uri, statIsDirectory))
    {
      if uri != "" && uri[|uri| - 1] == '/' {
        return Ok(NotAllowed);
      }
      if statIsDirectory {
        return Ok(NotAllowed);
      }
      return Ok(if locationMatch.value.loc.GetCgiEnabled() then Execute(filesystemPath) else Write(filesystemPath));
    }

    method PrepareRoutingContext() returns (r: Result<()>)
      modifies this
      ensures match Resolve(conf.locations, uri)
              case Err(status) => r == Err(status)
              case Ok(path) => r == Ok(()) && filesystemPath == path
                               && locationMatch.Some? && Route(conf.locations, uri) == Ok(locationMatch.value)
    {
      var found :- conf.FindLocationForUri(uri);
      locationMatch := Some(found);
      var path :- ResolveFilesystemPath();
      filesystemPath := path;
      return Ok(());
    }

    method ResolveFilesystemPath() returns (r: Result<string>)
      ensures r == match locationMatch
                   case None => Err(NotFound)
                   case Some(m) =>
                     if m.loc.HasRedirect() then Ok("") else Validate(m.loc.GetRoot() + m.remainder, m.loc.GetRoot())
    {
      if locationMatch.None? {
        return Err(NotFound);
      }
      var loc := locationMatch.value.loc;
      if loc.HasRedirect() {
        return Ok("");
      }
      r := ValidateAndNormalizePath(loc.GetRoot() + locationMatch.value.remainder, loc.GetRoot());
    }

    /** `statIsDirectory` is what IsDirectory would answer; it is asked only without a slash. */
    method AppendIndexFileIfDirectoryOrThrow(basePath: string, statIsDirectory: bool) returns (r: Result<string>)
      requires locationMatch.Some?
      ensures var loc := locationMatch.value.loc;
              r == AppendIndex(basePath, uri, statIsDirectory, loc.GetIndex(), loc.GetRoot())
    {
      var loc := locationMatch.value.loc;
      var uriEndsWithSlash := uri != "" && uri[|uri| - 1] == '/';
      var path := basePath;
      if uriEndsWithSlash || statIsDirectory {
        var index := loc.GetIndex();
        if index == "" {
          return Err(Forbidden);
        }
        if path == "" || path[|path| - 1] != '/' {
          path := path + "/";
        }
        path := path + index;
      }
      r := ValidateAndNormalizePath(path, loc.GetRoot());
    }
  }

  // ---------- from the URI to the file system ----------

  /** The path has no dot segments and lies below the root. */
  ghost predicate Below(root: string, path: string) {
    Clean(Segments(path)) && Segments(root) <= Segments(path)
  }

  /** What a location lets a request do. */
  ghost predicate Permits(l: Location, verb: Method, action: Action) {
    match action
    case Redirected(target) => l.HasRedirect() && target == l.settings[Redirect]
    case NotAllowed => !l.HasRedirect() && ((l.hasMethods && verb !in l.methods) || verb.Post?)
    case Unsupported => !l.HasRedirect() && !verb.Get? && !verb.Post? && !verb.Delete?
    case Read(path) => Files(l, verb, path) && verb.Get? && !l.GetCgiEnabled()
    case Write(path) => Files(l, verb, path) && verb.Post? && !l.GetCgiEnabled()
    case Remove(path) => Files(l, verb, path) && verb.Delete?
    case Execute(path) => Files(l, verb, path) && (verb.Get? || verb.Post?) && l.GetCgiEnabled()
  }

  ghost predicate Files(l: Location, verb: Method, path: string) {
    !l.HasRedirect() && (l.hasMethods ==> verb in l.methods) && Below(l.GetRoot(), path)
  }

  lemma ResolvedStaysUnderRoot(locations: seq<Location>, uri: string)
    requires Route(locations, uri).Ok? && !Route(locations, uri).value.loc.HasRedirect()
    requires Resolve(locations, uri).Ok?
    ensures Below(Route(locations, uri).value.loc.GetRoot(), Resolve(locations, uri).value)
  {
    hide Segments, Clean, Validate, Route;
    var m := Route(locations, uri).value;
    AcceptedPathsStayUnderRoot(m.loc.GetRoot() + m.remainder, m.loc.GetRoot());
  }

  lemma IndexStaysUnderRoot(path: string, uri: string, isDirectory: bool, index: string, root: string)
    requires AppendIndex(path, uri, isDirectory, index, root).Ok?
    ensures Below(root, AppendIndex(path, uri, isDirectory, index, root).value)
  {
    hide Segments, Clean, Validate;
    if EndsInSlash(uri) || isDirectory {
      AcceptedPathsStayUnderRoot((if EndsInSlash(path) then path else path + "/") + index, root);
    } else {
      AcceptedPathsStayUnderRoot(path, root);
    }
  }

  /** Whatever the configured roots are and whatever the method is, a request does what the matched
      location permits, and touches nothing outside the location's root. */
  lemma ActionsArePermitted(locations: seq<Location>, verb: Method, uri: string, isDirectory: bool)
    requires Act(locations, verb, uri, isDirectory).Ok?
    ensures Route(locations, uri).Ok?
    ensures Permits(Route(locations, uri).value.loc, verb, Act(locations, verb, uri, isDirectory).value)
  {
    hide Below, Route, Resolve, AppendIndex, EndsInSlash;
    var l := Route(locations, uri).value.loc;
    if !l.HasRedirect() {
      ResolvedStaysUnderRoot(locations, uri);
      var path := Resolve(locations, uri).value;
      if AppendIndex(path, uri, isDirectory, l.GetIndex(), l.GetRoot()).Ok? {
        IndexStaysUnderRoot(path, uri, isDirectory, l.GetIndex(), l.GetRoot());
      }
    }
  }

  lemma RemainderIsPrintable(locations: seq<Location>, uri: string)
    requires Printable(uri) && Route(locations, uri).Ok?
    ensures Printable(Route(locations, uri).value.remainder)
  {
    var best := Key(Route(locations, uri).value.loc);
    var key := Trim(uri);
    assert Printable(key[|best|..]);
    PrintableConcat("/", key[|best|..]);
  }

  /** A location without a root directive keeps the root "./" and answers 400 to everything. */
  lemma DefaultRootAnswersBadRequest(locations: seq<Location>, uri: string)
    requires Route(locations, uri).Ok?
    requires var loc := Route(locations, uri).value.loc; !loc.HasRedirect() && Root !in loc.settings
    ensures Resolve(locations, uri) == Err(BadRequest)
  {
    var m := Route(locations, uri).value;
    assert (m.loc.GetRoot() + m.remainder)[0] == '.';
  }

  // ---------- which roots work ----------

  lemma {:induction false} JoinIsSingleSlashed(stack: seq<string>)
    requires AllSegments(stack)
    ensures SingleSlashes(Join(stack))
    ensures stack != [] ==> Join(stack) != "" && Join(stack)[0] != '/' && !EndsInSlash(Join(stack))
    decreases |stack|
  {
    if stack != [] {
      var init, last := stack[..|stack| - 1], stack[|stack| - 1];
      assert IsSegment(last) && SingleSlashes(last);
      if init != [] {
        JoinIsSingleSlashed(init);
        assert SingleSlashes(Join(init) + "/");
        assert last[0] != '/' && last[|last| - 1] != '/';
      }
    }
  }

  lemma RebuiltIsSingleSlashed(stack: seq<string>, slash: bool)
    requires AllSegments(stack)
    ensures SingleSlashes(Rebuild(stack, slash))
  {
    hide Join;
    JoinOfNone();
    JoinIsSingleSlashed(stack);
  }

  /** A root that properly contains a normal form is canonical. */
  lemma RootOfNormalForm(names: seq<string>, slash: bool, root: string)
    requires Clean(names) && root != "" && Printable(root) && Under(Rebuild(names, slash), root)
    requires Rebuild(names, slash) != root
    ensures CanonicalRoot(root)
  {
    hide Segments, Rebuild;
    var q := Rebuild(names, slash);
    SegmentsOfRebuild(names, slash);
    RebuiltIsSingleSlashed(names, slash);
    UnderMeansPrefix(q, root);
    assert Clean(Segments(root));
    if root == "/" {
      RootIsRebuilt();
    } else {
      assert |root| == |q| ==> root == q;
      assert |root| < |q|;
      assert SingleSlashes(root) by {
        forall i | 0 <= i < |root| - 1 ensures !(root[i] == '/' && root[i + 1] == '/') {
          assert q[i] == root[i] && q[i + 1] == root[i + 1];
        }
      }
      assert root[0] == q[0];
      assert !EndsInSlash(root) by { assert q[|root| - 1] == root[|root| - 1]; }
      SingleSlashedIsRebuilt(root);
    }
  }

  lemma SegmentsBelow(root: string, remainder: string)
    requires remainder != "" && remainder[0] == '/'
    ensures Segments(root + remainder) == Segments(root) + Segments(remainder)
  {
    assert root + remainder == root + "/" + remainder[1..] && remainder == "/" + remainder[1..];
    SegmentsOfJoin(root, remainder[1..]);
    SegmentsOfRooted(remainder[1..]);
  }

  /** Resolution below any root, as the configuration may store it: the root's and the remainder's
      segments are walked from "/". Below a canonical root the outcome must have the root's segments
      as a prefix; below any other root it must be, character by character, the root itself. */
  lemma AnyRootExactly(root: string, remainder: string)
    requires remainder != "" && remainder[0] == '/'
    ensures Validate(root + remainder, root)
         == if !Printable(root) || !Printable(remainder) || (root != "" && root[0] != '/') then Err(BadRequest)
            else match Walk([], Segments(root) + Segments(remainder))
                 case None => Err(BadRequest)
                 case Some(t) =>
                   var q := Rebuild(t, EndsInSlash(remainder));
                   if (if CanonicalRoot(root) then Segments(root) <= t else q == root && root != "")
                   then Ok(q) else Err(NotFound)
  {
    hide Segments, Rebuild, Walk;
    var path := root + remainder;
    PrintableConcat(root, remainder);
    SegmentsBelow(root, remainder);
    assert path[0] == '/' <==> root == "" || root[0] == '/';
    assert EndsInSlash(path) == EndsInSlash(remainder);
    var walked := Walk([], Segments(path));
    if walked.Some? && Printable(root) {
      SegmentsAreSegments(path);
      WalkIsClean([], Segments(path));
      UnderExactly(walked.value, EndsInSlash(remainder), root);
    }
  }

  lemma UnderExactly(names: seq<string>, slash: bool, root: string)
    requires Clean(names) && Printable(root)
    ensures Under(Rebuild(names, slash), root)
       <==> if CanonicalRoot(root) then Segments(root) <= names else Rebuild(names, slash) == root && root != ""
  {
    hide Segments, Rebuild;
    if CanonicalRoot(root) {
      UnderCanonicalRoot(names, slash, Segments(root));
    } else if root != "" && Under(Rebuild(names, slash), root) && Rebuild(names, slash) != root {
      RootOfNormalForm(names, slash, root);
    }
  }

  /** A remainder that names something is accepted below a root exactly when the root is canonical:
      absolute, printable, no trailing slash, no empty and no dot segment. */
  lemma ExactlyCanonicalRootsWork(root: string, remainder: string)
    requires Printable(remainder) && Normalize(remainder).Ok? && Segments(Normalize(remainder).value) != []
    ensures Validate(root + remainder, root).Ok? <==> CanonicalRoot(root)
  {
    hide Segments, Rebuild, Walk;
    if CanonicalRoot(root) {
      ResolveComposes(root, remainder);
    }
    if Validate(root + remainder, root).Ok? && !CanonicalRoot(root) {
      AnyRootExactly(root, remainder);
      NormalFormsAreCanonical(root + remainder);
      NormalFormsAreCanonical(remainder);
      var names, rest := Segments(root), Segments(Normalize(remainder).value);
      assert Clean(names);
      WalkOfClean([], names);
      assert [] + names == names;
      WalkConcat([], names, Segments(remainder));
      WalkOnTop(names, [], Segments(remainder));
      assert names + [] == names;
      SegmentsBelow(root, remainder);
      NormalFormIsRoot(root, remainder, names + rest);
    }
  }

  lemma NormalFormIsRoot(root: string, remainder: string, names: seq<string>)
    requires Validate(root + remainder, root) == Ok(root) && Walk([], Segments(root + remainder)) == Some(names)
    ensures Segments(root) == names
  {
    NormalFormsAreCanonical(root + remainder);
  }

  /** Nothing but the root itself is ever accepted below a root that is not canonical. */
  lemma OtherRootsServeThemselves(root: string, remainder: string)
    requires remainder != "" && remainder[0] == '/' && !CanonicalRoot(root)
    requires Validate(root + remainder, root).Ok?
    ensures Validate(root + remainder, root).value == root
  {
    AnyRootExactly(root, remainder);
  }

  // ---------- the whole chain ----------

  /** From the URI to the file, whatever root the matched location has: the URI's segments behind
      those of the location's name are walked behind the root's; a canonical root must be a prefix
      of the outcome, any other must be the outcome. */
  lemma ResolvedExactly(locations: seq<Location>, uri: string)
    requires Rooted(locations) && uri != "" && uri[0] == '/' && Printable(uri)
    requires Route(locations, uri).Ok? && !Route(locations, uri).value.loc.HasRedirect()
    ensures var loc := Route(locations, uri).value.loc;
            var root, name := loc.GetRoot(), Segments(loc.name);
            && name <= Segments(uri)
            && Resolve(locations, uri)
               == if !Printable(root) || (root != "" && root[0] != '/') then Err(BadRequest)
                  else match Walk([], Segments(root) + Segments(uri)[|name|..])
                       case None => Err(BadRequest)
                       case Some(t) =>
                         var q := Rebuild(t, Key(loc) == Trim(uri));
                         if (if CanonicalRoot(root) then Segments(root) <= t else q == root && root != "")
                         then Ok(q) else Err(NotFound)
  {
    hide Segments, Walk, Rebuild, CanonicalRoot, Trim;
    var m := Route(locations, uri).value;
    RouteSplitsUri(locations, uri);
    RemainderIsPrintable(locations, uri);
    AnyRootExactly(m.loc.GetRoot(), m.remainder);
    assert Segments(uri)[|Segments(m.loc.name)|..] == Segments(m.remainder);
  }
}
