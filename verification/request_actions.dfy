/** Which answer a request gets, exactly, told on segments and without the handlers. */
module RequestActions {
  import opened Text
  import opened Paths
  import opened ServerConfigs
  import opened RoutingTheorems
  import opened RequestHandlers

  // ---------- the path of a request ----------

  /** A root that can be resolved against at all. */
  predicate IsUsable(root: string) {
    Printable(root) && (root != "" ==> root[0] == '/')
  }

  /** What the URI has behind the location's name, walked behind the root. */
  ghost function Walked(l: Location, uri: string): Option<seq<string>> {
    var name := Segments(l.name);
    if name <= Segments(uri) then Walk([], Segments(l.GetRoot()) + Segments(uri)[|name|..]) else None
  }

  /** A path that the location may touch: below its root, or the root itself if that is written in a
      way that no path can be below it. */
  ghost predicate MayTouch(root: string, names: seq<string>, path: string) {
    if CanonicalRoot(root) then Segments(root) <= names else path == root && root != ""
  }

  /** The file that the URI stands for. */
  ghost predicate PathOf(l: Location, uri: string, path: string) {
    && IsUsable(l.GetRoot()) && Walked(l, uri).Some?
    && path == Rebuild(Walked(l, uri).value, Key(l) == Trim(uri))
    && MayTouch(l.GetRoot(), Walked(l, uri).value, path)
  }

  /** The routed location's path, or why there is none: 400 for a root that cannot be used and for
      climbing above "/", 404 outside the root. */
  lemma ResolvedPath(locations: seq<Location>, uri: string)
    requires Rooted(locations) && uri != "" && uri[0] == '/' && Printable(uri)
    requires Route(locations, uri).Ok? && !Route(locations, uri).value.loc.HasRedirect()
    ensures var l := Route(locations, uri).value.loc;
            match Resolve(locations, uri)
            case Ok(path) => PathOf(l, uri, path)
            case Err(status) => (forall path :: !PathOf(l, uri, path))
                                && status == if IsUsable(l.GetRoot()) && Walked(l, uri).Some? then NotFound else BadRequest
  {
    hide Segments, Walk, Rebuild, CanonicalRoot, Trim, Route, Resolve;
    ResolvedExactly(locations, uri);
  }

  lemma ResolvedIsAccepted(locations: seq<Location>, uri: string)
    requires Resolve(locations, uri).Ok? && !Route(locations, uri).value.loc.HasRedirect()
    ensures var path, root := Resolve(locations, uri).value, Route(locations, uri).value.loc.GetRoot();
            Validate(path, root) == Ok(path)
  {
    hide Segments, Walk, Rebuild, Trim;
    var m := Route(locations, uri).value;
    AcceptedAgain(m.loc.GetRoot() + m.remainder, m.loc.GetRoot());
  }

  /** Validating an accepted path again changes nothing. */
  lemma AcceptedAgain(path: string, root: string)
    requires Validate(path, root).Ok?
    ensures Validate(Validate(path, root).value, root) == Validate(path, root)
  {
    hide Segments, Walk, Rebuild, Under, Printable;
    NormalFormsAreCanonical(path);
    NormalFormIsPrintable(path);
  }

  // ---------- the answer ----------

  /** The request names a directory. */
  predicate NamesDirectory(uri: string, isDirectory: bool) {
    (uri != "" && uri[|uri| - 1] == '/') || isDirectory
  }

  predicate Admits(l: Location, verb: Method) {
    l.hasMethods ==> verb in l.methods
  }

  predicate RunsCgi(l: Location) {
    CgiSwitch in l.settings && l.settings[CgiSwitch] == "on"
  }

  /** The file that GET answers with: the path, or for a directory the index file in it. */
  ghost function FileOf(l: Location, path: string, directory: bool): Result<string> {
    if !directory then Ok(path)
    else if Index !in l.settings || l.settings[Index] == "" then Err(Forbidden)
    else match Walk(Segments(path), [l.settings[Index]])
         case None => Err(BadRequest)
         case Some(names) =>
           if MayTouch(l.GetRoot(), names, Rebuild(names, false)) then Ok(Rebuild(names, false)) else Err(NotFound)
  }

  predicate PlainIndex(l: Location) {
    Index in l.settings && l.settings[Index] != "" ==> IsSegment(l.settings[Index]) && Printable(l.settings[Index])
  }

  /** What is answered where the URI stands for `path`. */
  ghost predicate Answers(l: Location, verb: Method, uri: string, isDirectory: bool, path: string, a: Result<Action>) {
    var directory := NamesDirectory(uri, isDirectory);
    && (a == Ok(NotAllowed) <==> !Admits(l, verb) || (verb.Post? && directory))
    && (a == Ok(Unsupported) <==> Admits(l, verb) && !verb.Get? && !verb.Post? && !verb.Delete?)
    && (Admits(l, verb) && verb.Delete? ==> a == Ok(Remove(path)))
    && (Admits(l, verb) && verb.Post? && !directory ==> a == Ok(if RunsCgi(l) then Execute(path) else Write(path)))
    && (Admits(l, verb) && verb.Get? ==>
          match FileOf(l, path, directory)
          case Ok(file) => a == Ok(if RunsCgi(l) then Execute(file) else Read(file))
          case Err(status) => a == Err(status))
    && (a == Err(Forbidden) <==>
          Admits(l, verb) && verb.Get? && directory && (Index in l.settings ==> l.settings[Index] == ""))
  }

  lemma FileIsFound(l: Location, path: string, uri: string, isDirectory: bool)
    requires PlainIndex(l) && Validate(path, l.GetRoot()) == Ok(path)
    ensures AppendIndex(path, uri, isDirectory, l.GetIndex(), l.GetRoot())
         == FileOf(l, path, NamesDirectory(uri, isDirectory))
  {
    hide Segments, Rebuild, Walk, Validate, CanonicalRoot, Printable;
    if NamesDirectory(uri, isDirectory) && l.GetIndex() != "" {
      IndexIsOneMoreSegment(path, uri, isDirectory, l.GetIndex(), l.GetRoot());
      if Walk(Segments(path), [l.GetIndex()]).Some? {
        IndexedIsClean(path, l.GetIndex(), l.GetRoot());
        UnderExactly(Walk(Segments(path), [l.GetIndex()]).value, false, l.GetRoot());
      }
    }
  }

  lemma IndexedIsClean(path: string, index: string, root: string)
    requires Validate(path, root) == Ok(path) && IsSegment(index) && Walk(Segments(path), [index]).Some?
    ensures Clean(Walk(Segments(path), [index]).value) && Printable(root)
  {
    hide Segments, Rebuild;
    NormalFormsAreCanonical(path);
    assert Printable(root) by {
      forall i | 0 <= i < |root| ensures IsHeaderChar(root[i]) {
        assert root != "/" ==> root[i] == path[i];
      }
    }
    WalkIsClean(Segments(path), [index]);
  }

  /** The exact answer of RequestHandler::Run for every method, URI and configuration. */
  lemma AnsweredExactly(locations: seq<Location>, verb: Method, uri: string, isDirectory: bool)
    requires Rooted(locations) && uri != "" && uri[0] == '/' && Printable(uri) && Route(locations, uri).Ok?
    requires PlainIndex(Route(locations, uri).value.loc)
    ensures var l, a := Route(locations, uri).value.loc, Act(locations, verb, uri, isDirectory);
            && (l.HasRedirect() ==> a == Ok(Redirected(l.settings[Redirect])))
            && (!l.HasRedirect() && (forall path :: !PathOf(l, uri, path)) ==>
                  a == Err(if IsUsable(l.GetRoot()) && Walked(l, uri).Some? then NotFound else BadRequest))
            && (!l.HasRedirect() ==> forall path | PathOf(l, uri, path) :: Answers(l, verb, uri, isDirectory, path, a))
  {
    hide PathOf, Walked, IsUsable, Route, Resolve, AppendIndex, FileOf, NamesDirectory, Validate;
    var l := Route(locations, uri).value.loc;
    if !l.HasRedirect() {
      ResolvedPath(locations, uri);
      if Resolve(locations, uri).Ok? {
        var path := Resolve(locations, uri).value;
        OnePath(l, uri, path);
        ResolvedIsAccepted(locations, uri);
        FileIsFound(l, path, uri, isDirectory);
        ActionIsAnswer(locations, verb, uri, isDirectory, path);
      }
    }
  }

  lemma OnePath(l: Location, uri: string, path: string)
    requires PathOf(l, uri, path)
    ensures forall p | PathOf(l, uri, p) :: p == path
  {}

  lemma ActionIsAnswer(locations: seq<Location>, verb: Method, uri: string, isDirectory: bool, path: string)
    requires Route(locations, uri).Ok? && !Route(locations, uri).value.loc.HasRedirect()
    requires Resolve(locations, uri) == Ok(path)
    requires var l := Route(locations, uri).value.loc;
             AppendIndex(path, uri, isDirectory, l.GetIndex(), l.GetRoot())
             == FileOf(l, path, NamesDirectory(uri, isDirectory))
    ensures Answers(Route(locations, uri).value.loc, verb, uri, isDirectory, path, Act(locations, verb, uri, isDirectory))
  {
    hide Route, Resolve, AppendIndex, Walk, Segments, MayTouch, Rebuild;
  }
}
