/** From the bytes of a configuration file and of a request to the file that is served. */
module EndToEnd {
  import opened Text
  import opened Scanner
  import opened RequestHead
  import opened HeadTheorems
  import opened RequestParser
  import opened RequestTheorems
  import opened StreamParser
  import opened Kernels
  import opened EventLoop
  import opened EventRuns
  import opened EventRequests
  import opened Paths
  import opened Tokenizer
  import opened ServerConfigs
  import opened ConfigGrammar
  import opened RoutingTheorems
  import opened RequestHandlers
  import opened ConfiguredRouting
  import opened RequestActions

  // ---------- the target of a request ----------

  predicate IsTarget(uri: string) {
    uri != "" && uri[0] == '/' && Printable(uri)
  }

  /** Once the head is read, the URI is rooted and printable. */
  predicate TargetRead(r: Request) {
    r.phase != HeaderPhase ==> IsTarget(r.fields.uri)
  }

  lemma HeadHasTarget(s: string, limit: nat)
    requires ParseHead(s, limit).Ok?
    ensures IsTarget(ParseHead(s, limit).value.fields.uri)
  {
    hide ParseHead, HeadAt;
    var src := HeadSound(s, limit);
    assert ValidTarget(src);
    FieldsKeepPath(src, limit);
  }

  lemma FieldsKeepPath(src: Source, limit: nat)
    requires Meaning(src, limit).Ok?
    ensures Meaning(src, limit).value.uri == src.path
  {}

  lemma ParseKeepsTarget(r: Request, data: string)
    requires TargetRead(r)
    ensures Parse(r, data).Ok? ==> TargetRead(Parse(r, data).value)
  {
    hide IsTarget, ParseHead, Find, Chunked.Decode;
    var r1 := r.(buffer := r.buffer + data);
    if r.phase == HeaderPhase && ParseHead(r1.buffer, r1.limit).Ok? {
      HeadHasTarget(r1.buffer, r1.limit);
    }
  }

  /** However a request is delivered, its head leaves a rooted and printable URI. */
  lemma {:induction false} DeliveryKeepsTarget(r: Request, pieces: seq<string>)
    requires TargetRead(r)
    ensures ParseAll(r, pieces).Ok? ==> TargetRead(ParseAll(r, pieces).value)
    decreases |pieces|
  {
    hide Parse, TargetRead;
    if pieces != [] && Parse(r, pieces[0]).Ok? {
      ParseKeepsTarget(r, pieces[0]);
      DeliveryKeepsTarget(Parse(r, pieces[0]).value, pieces[1..]);
    }
  }

  // ---------- the file that is served ----------

  /** A server of an accepted configuration file and a request that was received completely. */
  ghost predicate Asked(content: string, env: Env, s: Server, limit: nat, pieces: seq<string>, r: Request) {
    && ParseFile(Tokens(content, 0), [], env).Some? && s in ParseFile(Tokens(content, 0), [], env).value
    && ParseAll(Initial(limit), pieces) == Ok(r) && r.phase == DonePhase
  }

  lemma AcceptedIsWellFormed(tokens: seq<string>, env: Env, s: Server)
    requires ParseFile(tokens, [], env).Some? && s in ParseFile(tokens, [], env).value
    ensures WellFormed(s)
  {
    hide WellFormed;
    AcceptedServersAreWellFormed(tokens, [], env);
    var all := ParseFile(tokens, [], env).value;
    var i :| 0 <= i < |all| && all[i] == s;
    assert WellFormed(all[i]);
  }

  lemma DeliveredHasTarget(limit: nat, pieces: seq<string>)
    requires ParseAll(Initial(limit), pieces).Ok? && ParseAll(Initial(limit), pieces).value.phase == DonePhase
    ensures IsTarget(ParseAll(Initial(limit), pieces).value.fields.uri)
  {
    hide Parse, IsTarget;
    DeliveryKeepsTarget(Initial(limit), pieces);
  }

  lemma AskedIsWellFormed(content: string, env: Env, s: Server, limit: nat, pieces: seq<string>, r: Request)
    requires Asked(content, env, s, limit, pieces, r)
    ensures WellFormed(s) && IsTarget(r.fields.uri)
  {
    hide ParseFile, ParseAll, Tokens, WellFormed, IsTarget;
    AcceptedIsWellFormed(Tokens(content, 0), env, s);
    DeliveredHasTarget(limit, pieces);
  }

  /** The deepest location for the URI permits the action. */
  ghost predicate PermittedByDeepest(locations: seq<Location>, verb: Method, uri: string, action: Action) {
    exists l :: IsDeepest(locations, uri, l) && Permits(l, verb, action)
  }

  /** For every accepted configuration text and every request text that is complete, in any cutting:
      what is redirected to, read, written, removed or run is what the deepest location that covers
      the URI permits, every path clean and below its root, and without such a location the answer
      is 404. */
  lemma OnlyFilesBelowTheRoot(content: string, env: Env, s: Server, limit: nat, pieces: seq<string>, r: Request,
                              isDirectory: bool)
    requires Asked(content, env, s, limit, pieces, r)
    ensures var o := Act(s.locations, r.fields.verb, r.fields.uri, isDirectory);
            && (o.Ok? ==> PermittedByDeepest(s.locations, r.fields.verb, r.fields.uri, o.value))
            && ((forall l | l in s.locations :: !Covers(Key(l), r.fields.uri)) ==> o == Err(NotFound))
  {
    hide Asked, WellFormed, Permits, Covers, Route, Act;
    AskedIsWellFormed(content, env, s, limit, pieces, r);
    var verb, uri := r.fields.verb, r.fields.uri;
    RoutesToDeepest(s, uri);
    NowhereIsNotFound(s.locations, verb, uri, isDirectory);
    if Act(s.locations, verb, uri, isDirectory).Ok? {
      ActionsArePermitted(s.locations, verb, uri, isDirectory);
      assert IsDeepest(s.locations, uri, Route(s.locations, uri).value.loc);
    }
  }

  lemma NowhereIsNotFound(locations: seq<Location>, verb: Method, uri: string, isDirectory: bool)
    ensures Route(locations, uri).Err? ==>
              Act(locations, verb, uri, isDirectory) == Err(Route(locations, uri).status)
  {}

  /** The exact answer for such a configuration and request, which is 404 without a location. */
  lemma RequestsAreAnsweredExactly(content: string, env: Env, s: Server, limit: nat, pieces: seq<string>, r: Request,
                                   isDirectory: bool, l: Location)
    requires Asked(content, env, s, limit, pieces, r) && IsDeepest(s.locations, r.fields.uri, l)
    ensures var uri := r.fields.uri;
            var a := Act(s.locations, r.fields.verb, uri, isDirectory);
            && (l.HasRedirect() ==> a == Ok(Redirected(l.settings[Redirect])))
            && (!l.HasRedirect() && (forall path :: !PathOf(l, uri, path)) ==>
                  a == Err(if IsUsable(l.GetRoot()) && Walked(l, uri).Some? then NotFound else BadRequest))
            && (!l.HasRedirect() ==>
                  forall path | PathOf(l, uri, path) :: Answers(l, r.fields.verb, uri, isDirectory, path, a))
  {
    hide Asked, PathOf, Covers, Route, Act, Answers, Walked, IsUsable, Segments;
    AskedIsWellFormed(content, env, s, limit, pieces, r);
    RoutesToDeepest(s, r.fields.uri);
    WellFormedIsRooted(s);
    WellFormedIndex(s, l);
    AnsweredExactly(s.locations, r.fields.verb, r.fields.uri, isDirectory);
  }

  lemma WellFormedIndex(s: Server, l: Location)
    requires WellFormed(s) && l in s.locations
    ensures PlainIndex(l)
  {
    var i :| 0 <= i < |s.locations| && s.locations[i] == l;
    assert WellFormedLocation(s.locations[i]);
  }

  /** The exact outcome of path resolution for such a configuration and request. */
  lemma RequestsResolveExactly(content: string, env: Env, s: Server, limit: nat, pieces: seq<string>, r: Request,
                               l: Location)
    requires Asked(content, env, s, limit, pieces, r)
    requires IsDeepest(s.locations, r.fields.uri, l) && !l.HasRedirect()
    ensures var uri, root, name := r.fields.uri, l.GetRoot(), Segments(l.name);
            && name <= Segments(uri)
            && Resolve(s.locations, uri)
               == if !Printable(root) || (root != "" && root[0] != '/') then Err(BadRequest)
                  else match Walk([], Segments(root) + Segments(uri)[|name|..])
                       case None => Err(BadRequest)
                       case Some(t) =>
                         var q := Rebuild(t, Key(l) == Trim(uri));
                         if (if CanonicalRoot(root) then Segments(root) <= t else q == root && root != "")
                         then Ok(q) else Err(NotFound)
  {
    hide Asked, Segments, Covers, Route, Resolve, Walk, Rebuild, CanonicalRoot, Trim, WellFormedLocation;
    AskedIsWellFormed(content, env, s, limit, pieces, r);
    RoutesToDeepest(s, r.fields.uri);
    WellFormedIsRooted(s);
    ResolvedExactly(s.locations, r.fields.uri);
  }

  /** Over whole runs: on every connection of every run without a leaking timeout, the request that
      RequestHandler::Run was given, if any, makes it touch nothing but what the deepest location
      permits, for every server of every accepted configuration. */
  lemma RunsStayBelowTheRoot(w: World, steps: seq<Step>, end: World, p: Ptr,
                             content: string, env: Env, s: Server, isDirectory: bool)
    requires IsInit(w) && IsRun(w, steps, end) && NeverLeaks(w, steps)
    requires IsClient(end, p) && end.heap[p].client.asked != []
    requires ParseFile(Tokens(content, 0), [], env).Some? && s in ParseFile(Tokens(content, 0), [], env).value
    ensures var r := end.heap[p].client.asked[0];
            var o := Act(s.locations, r.fields.verb, r.fields.uri, isDirectory);
            && (o.Ok? ==> PermittedByDeepest(s.locations, r.fields.verb, r.fields.uri, o.value))
            && ((forall l | l in s.locations :: !Covers(Key(l), r.fields.uri)) ==> o == Err(NotFound))
  {
    hide IsInit, IsRun, NeverLeaks, ParseFile, Tokens, ParseAll, Act, PermittedByDeepest, Covers;
    RunIsEnteredExactlyOnCompletion(w, steps, end, p);
    var c := end.heap[p].client;
    var k :| 0 <= k <= |c.pieces| && Completes(c.limit, c.pieces[..k]);
    OnlyFilesBelowTheRoot(content, env, s, c.limit, c.pieces[..k], c.asked[0], isDirectory);
  }
}
