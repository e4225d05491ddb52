/** FileValidator and the path logic of RequestHandler on lists of segments. */
module Paths {
  import opened Text

  // ---------- segments ----------

  function SegmentLength(path: string): (n: nat)
    ensures n <= |path|
    ensures path != "" && path[0] != '/' ==> n > 0
  {
    if path == "" || path[0] == '/' then 0 else 1 + SegmentLength(path[1..])
  }

  /** The non-empty pieces between slashes. */
  function Segments(path: string): seq<string>
    decreases |path|
  {
    if path == "" then []
    else if path[0] == '/' then Segments(path[1..])
    else [path[..SegmentLength(path)]] + Segments(path[SegmentLength(path)..])
  }

  predicate IsSegment(s: string) {
    s != "" && '/' !in s
  }

  /** Neither empty nor a dot segment. */
  predicate IsName(s: string) {
    IsSegment(s) && s != "." && s != ".."
  }

  predicate AllSegments(stack: seq<string>) {
    forall i | 0 <= i < |stack| :: IsSegment(stack[i])
  }

  predicate Clean(stack: seq<string>) {
    forall i | 0 <= i < |stack| :: IsName(stack[i])
  }

  lemma {:induction false} SegmentLengthMeaning(path: string, n: nat)
    requires n <= |path| && '/' !in path[..n] && (n < |path| ==> path[n] == '/')
    ensures SegmentLength(path) == n
  {
    if n > 0 {
      assert path[0] == path[..n][0];
      assert path[1..][..n - 1] == path[..n][1..];
      SegmentLengthMeaning(path[1..], n - 1);
    }
  }

  lemma {:induction false} SegmentLengthStops(path: string)
    ensures '/' !in path[..SegmentLength(path)]
    ensures SegmentLength(path) < |path| ==> path[SegmentLength(path)] == '/'
  {
    if path != "" && path[0] != '/' {
      SegmentLengthStops(path[1..]);
      var n := SegmentLength(path);
      assert path[..n] == [path[0]] + path[1..][..n - 1];
    }
  }

  /** A slash separates: the segments of a joined path are those of its two parts. */
  lemma {:induction false} SegmentsOfJoin(a: string, b: string)
    ensures Segments(a + "/" + b) == Segments(a) + Segments(b)
    decreases |a|
  {
    var path := a + "/" + b;
    if a == "" {
      assert path[1..] == b;
    } else if a[0] == '/' {
      assert path[1..] == a[1..] + "/" + b;
      SegmentsOfJoin(a[1..], b);
    } else {
      var n := SegmentLength(a);
      SegmentLengthStops(a);
      assert path[..n] == a[..n];
      SegmentLengthMeaning(path, n);
      assert path[n..] == a[n..] + "/" + b;
      SegmentsOfJoin(a[n..], b);
    }
  }

  lemma SegmentsOfOne(s: string)
    requires IsSegment(s)
    ensures Segments(s) == [s]
  {
    assert s[..|s|] == s;
    SegmentLengthMeaning(s, |s|);
    assert Segments(s[|s|..]) == [];
  }

  lemma {:induction false} SegmentsAreSegments(path: string)
    ensures AllSegments(Segments(path))
    decreases |path|
  {
    if path != "" {
      if path[0] == '/' {
        SegmentsAreSegments(path[1..]);
      } else {
        SegmentLengthStops(path);
        SegmentsAreSegments(path[SegmentLength(path)..]);
      }
    }
  }

  lemma SegmentsOfSlashEnd(a: string)
    ensures Segments(a + "/") == Segments(a)
  {
    assert a + "/" + "" == a + "/";
    SegmentsOfJoin(a, "");
  }

  /** SplitPathSegments: the loop that cuts at every slash collects exactly the segments. */
  method SplitPathSegments(path: string) returns (segments: seq<string>)
    ensures segments == Segments(path)
  {
    hide Segments;
    segments := [];
    var start := 0;
    assert path[0..] == path;
    var end := Find(path, "/", start);
    while end.Some?
      invariant start <= |path| && end == Find(path, "/", start)
      invariant segments + Segments(path[start..]) == Segments(path)
      decreases |path| - start
    {
      NextPiece(path, start);
      if end.value != start {
        segments := segments + [path[start..end.value]];
      }
      start := end.value + 1;
      end := Find(path, "/", start);
    }
    LastPiece(path, start);
    if start < |path| {
      segments := segments + [path[start..]];
    }
  }

  lemma CutAt(s: string, i: nat, j: nat)
    requires i <= j < |s|
    ensures s[i..] == s[i..j] + s[j..j + 1] + s[j + 1..]
  {}

  lemma NextPiece(path: string, start: nat)
    requires start <= |path| && Find(path, "/", start).Some?
    ensures var end := Find(path, "/", start).value;
            Segments(path[start..]) == (if end == start then [] else [path[start..end]]) + Segments(path[end + 1..])
  {
    hide Segments, Find;
    var end := Find(path, "/", start).value;
    var piece := path[start..end];
    FindIsFirst(path, "/", start);
    PieceHasNoSlash(path, start, end);
    assert path[end..end + 1] == "/";
    CutAt(path, start, end);
    SegmentsOfJoin(piece, path[end + 1..]);
    if end != start {
      SegmentsOfOne(piece);
    } else {
      SegmentsOfNone();
    }
  }

  lemma LastPiece(path: string, start: nat)
    requires start <= |path| && Find(path, "/", start).None?
    ensures Segments(path[start..]) == if start == |path| then [] else [path[start..]]
  {
    FindIsFirst(path, "/", start);
    PieceHasNoSlash(path, start, |path|);
    assert path[start..|path|] == path[start..];
    if start < |path| {
      SegmentsOfOne(path[start..]);
    }
  }

  lemma PieceHasNoSlash(path: string, start: nat, end: nat)
    requires start <= end <= |path| && forall q | start <= q < end :: !HasAt(path, q, "/")
    ensures '/' !in path[start..end]
  {
    forall i | start <= i < end ensures path[i] != '/' {
      assert !HasAt(path, i, "/");
      assert path[i..i + 1] == [path[i]];
    }
  }

  // ---------- the segment stack ----------

  /** The normalisation loop; None is the rejection of ".." on an empty stack. */
  function Walk(stack: seq<string>, segments: seq<string>): Option<seq<string>>
    decreases |segments|
  {
    if segments == [] then Some(stack)
    else if segments[0] == "." then Walk(stack, segments[1..])
    else if segments[0] == ".." then
      if stack == [] then None else Walk(stack[..|stack| - 1], segments[1..])
    else Walk(stack + [segments[0]], segments[1..])
  }

  /** How deep a list of segments leads. */
  function Depth(segments: seq<string>): int {
    if segments == [] then 0
    else Depth(segments[..|segments| - 1])
         + var s := segments[|segments| - 1]; if s == "." then 0 else if s == ".." then -1 else 1
  }

  lemma {:induction false} DepthOfCons(s: string, rest: seq<string>)
    ensures Depth([s] + rest) == Depth([s]) + Depth(rest)
    decreases |rest|
  {
    var all := [s] + rest;
    if rest == [] {
      assert all == [s];
    } else {
      assert all[..|all| - 1] == [s] + rest[..|rest| - 1];
      DepthOfCons(s, rest[..|rest| - 1]);
    }
  }

  ghost predicate Climbs(height: nat, segments: seq<string>) {
    exists k :: 0 <= k <= |segments| && height + Depth(segments[..k]) < 0
  }

  lemma ClimbsCons(height: nat, segments: seq<string>)
    requires segments != []
    ensures var d := height + Depth([segments[0]]);
            Climbs(height, segments) <==> d < 0 || Climbs(d, segments[1..])
  {
    var s, rest := segments[0], segments[1..];
    var d := height + Depth([s]);
    assert Depth([s][..0]) == 0;
    assert segments[..0] == [] && segments[..1] == [s];
    forall k | 1 <= k <= |segments| ensures Depth(segments[..k]) == Depth([s]) + Depth(rest[..k - 1]) {
      assert segments[..k] == [s] + rest[..k - 1];
      DepthOfCons(s, rest[..k - 1]);
    }
    if Climbs(height, segments) && d >= 0 {
      var k :| 0 <= k <= |segments| && height + Depth(segments[..k]) < 0;
      assert d + Depth(rest[..k - 1]) < 0;
    }
    if d < 0 {
      assert height + Depth(segments[..1]) < 0;
    } else if Climbs(d, rest) {
      var k :| 0 <= k <= |rest| && d + Depth(rest[..k]) < 0;
      assert rest[..(k + 1) - 1] == rest[..k];
      assert height + Depth(segments[..k + 1]) < 0;
    }
  }

  /** Normalisation is rejected exactly when some prefix of the segments leads above the start. */
  lemma {:induction false} WalkFailsExactlyOnClimbs(stack: seq<string>, segments: seq<string>)
    ensures Walk(stack, segments).None? <==> Climbs(|stack|, segments)
    decreases |segments|
  {
    if segments == [] {
      assert forall k | 0 <= k <= 0 :: Depth(segments[..k]) == 0;
    } else {
      var s, rest := segments[0], segments[1..];
      assert Depth([s][..0]) == 0;
      ClimbsCons(|stack|, segments);
      if s == "." {
        WalkFailsExactlyOnClimbs(stack, rest);
      } else if s != ".." {
        WalkFailsExactlyOnClimbs(stack + [s], rest);
      } else if stack != [] {
        WalkFailsExactlyOnClimbs(stack[..|stack| - 1], rest);
      }
    }
  }

  lemma {:induction false} WalkConcat(stack: seq<string>, a: seq<string>, b: seq<string>)
    ensures Walk(stack, a + b) == match Walk(stack, a) case None => None case Some(t) => Walk(t, b)
    decreases |a|
  {
    if a == [] {
      assert a + b == b;
    } else {
      var s, rest := a[0], a[1..];
      assert (a + b)[1..] == rest + b;
      if s == "." {
        WalkConcat(stack, rest, b);
      } else if s != ".." {
        WalkConcat(stack + [s], rest, b);
      } else if stack != [] {
        WalkConcat(stack[..|stack| - 1], rest, b);
      }
    }
  }

  /** A walk that succeeds on its own does the same on top of any stack. */
  lemma {:induction false} WalkOnTop(base: seq<string>, stack: seq<string>, segments: seq<string>)
    requires Walk(stack, segments).Some?
    ensures Walk(base + stack, segments) == Some(base + Walk(stack, segments).value)
    decreases |segments|
  {
    if segments != [] {
      var s, rest := segments[0], segments[1..];
      if s == "." {
        WalkOnTop(base, stack, rest);
      } else if s == ".." {
        assert (base + stack)[..|base + stack| - 1] == base + stack[..|stack| - 1];
        WalkOnTop(base, stack[..|stack| - 1], rest);
      } else {
        assert base + stack + [s] == base + (stack + [s]);
        WalkOnTop(base, stack + [s], rest);
      }
    }
  }

  lemma {:induction false} WalkOfClean(stack: seq<string>, segments: seq<string>)
    requires Clean(segments)
    ensures Walk(stack, segments) == Some(stack + segments)
    decreases |segments|
  {
    if segments == [] {
      assert stack + segments == stack;
    } else {
      assert IsName(segments[0]);
      WalkOfClean(stack + [segments[0]], segments[1..]);
      assert stack + [segments[0]] + segments[1..] == stack + segments;
    }
  }

  lemma {:induction false} WalkIsClean(stack: seq<string>, segments: seq<string>)
    requires Clean(stack) && Walk(stack, segments).Some?
    requires AllSegments(segments)
    ensures Clean(Walk(stack, segments).value)
    decreases |segments|
  {
    if segments != [] {
      var s, rest := segments[0], segments[1..];
      if s == "." {
        WalkIsClean(stack, rest);
      } else if s == ".." {
        WalkIsClean(stack[..|stack| - 1], rest);
      } else {
        WalkIsClean(stack + [s], rest);
      }
    }
  }

  // ---------- rebuilding the path ----------

  function Join(stack: seq<string>): string {
    if stack == [] then ""
    else if |stack| == 1 then stack[0]
    else Join(stack[..|stack| - 1]) + "/" + stack[|stack| - 1]
  }

  lemma JoinOfNone()
    ensures Join([]) == ""
  {}

  lemma SegmentsOfNone()
    ensures Segments("") == []
  {}

  function EndsInSlash(path: string): bool {
    path != "" && path[|path| - 1] == '/'
  }

  function Rebuild(stack: seq<string>, slash: bool): string {
    var path := "/" + Join(stack);
    if slash && !EndsInSlash(path) then path + "/" else path
  }

  lemma {:induction false} SegmentsOfJoined(stack: seq<string>)
    requires AllSegments(stack)
    ensures Segments(Join(stack)) == stack
    ensures stack != [] ==> Join(stack) != "" && !EndsInSlash(Join(stack))
    decreases |stack|
  {
    hide Segments;
    SegmentsOfNone();
    if stack != [] {
      var init, last := stack[..|stack| - 1], stack[|stack| - 1];
      assert stack == init + [last] && IsSegment(last);
      SegmentsOfOne(last);
      if init == [] {
        assert stack == [last];
      } else {
        SegmentsOfJoined(init);
        SegmentsOfJoin(Join(init), last);
      }
    }
  }

  lemma SegmentsOfRebuild(stack: seq<string>, slash: bool)
    requires AllSegments(stack)
    ensures Segments(Rebuild(stack, slash)) == stack
    ensures EndsInSlash(Rebuild(stack, slash)) <==> slash || stack == []
    ensures Rebuild(stack, slash)[0] == '/'
  {
    hide Join;
    JoinOfNone();
    SegmentsOfJoined(stack);
    var path := "/" + Join(stack);
    SegmentsOfRooted(Join(stack));
    SegmentsOfSlashEnd(path);
  }

  lemma SegmentsOfRooted(a: string)
    ensures Segments("/" + a) == Segments(a)
  {
    assert ("/" + a)[1..] == a;
  }

  /** NormalizePathBySegments. */
  function Normalize(path: string): Result<string> {
    if path == "" || path[0] != '/' then Err(BadRequest)
    else match Walk([], Segments(path))
         case None => Err(BadRequest)
         case Some(stack) => Ok(Rebuild(stack, EndsInSlash(path)))
  }

  method NormalizePathBySegments(path: string) returns (r: Result<string>)
    ensures r == Normalize(path)
  {
    if path == "" || path[0] != '/' {
      return Err(BadRequest);
    }
    var hasTrailingSlash := path != "" && path[|path| - 1] == '/';
    var segments := SplitPathSegments(path);
    var stack: seq<string> := [];
    for i := 0 to |segments|
      invariant Walk(stack, segments[i..]) == Walk([], segments)
    {
      var segment := segments[i];
      assert segments[i..][0] == segment && segments[i..][1..] == segments[i + 1..];
      if segment == "." {
        continue;
      } else if segment == ".." {
        if stack == [] {
          return Err(BadRequest);
        }
        stack := stack[..|stack| - 1];
        continue;
      }
      stack := stack + [segment];
    }
    var rebuilt := "/";
    for i := 0 to |stack|
      invariant rebuilt == "/" + Join(stack[..i])
    {
      if i > 0 {
        rebuilt := rebuilt + "/";
      }
      rebuilt := rebuilt + stack[i];
      assert stack[..i + 1][..i] == stack[..i] && stack[..i + 1][i] == stack[i];
    }
    assert stack[..|stack|] == stack;
    if hasTrailingSlash && rebuilt[|rebuilt| - 1] != '/' {
      rebuilt := rebuilt + "/";
    }
    return Ok(rebuilt);
  }

  /** A normal form: it splits back into a clean stack, which determines it. */
  lemma NormalFormsAreCanonical(path: string)
    requires Normalize(path).Ok?
    ensures var q := Normalize(path).value;
            && Clean(Segments(q)) && q == Rebuild(Segments(q), EndsInSlash(q))
            && Walk([], Segments(path)) == Some(Segments(q))
            && Normalize(q) == Ok(q)
  {
    SegmentsAreSegments(path);
    var stack := Walk([], Segments(path)).value;
    WalkIsClean([], Segments(path));
    SegmentsOfRebuild(stack, EndsInSlash(path));
    WalkOfClean([], stack);
    assert [] + stack == stack;
  }

  // ---------- under the document root ----------

  /** IsPathUnderDocumentRoot. */
  predicate Under(path: string, root: string) {
    && root != ""
    && (root == "/" || (root <= path && (|path| == |root| || path[|root|] == '/')))
  }

  /** ValidateAndNormalizePath. */
  function Validate(path: string, root: string): Result<string> {
    if !Printable(path) then Err(BadRequest)
    else match Normalize(path)
         case Err(status) => Err(status)
         case Ok(q) => if Under(q, root) then Ok(q) else Err(NotFound)
  }

  method ContainsUnsafeChars(path: string) returns (unsafe: bool)
    ensures unsafe <==> !Printable(path)
  {
    for i := 0 to |path|
      invariant forall k | 0 <= k < i :: IsHeaderChar(path[k])
    {
      if !IsHeaderChar(path[i]) {
        return true;
      }
    }
    return false;
  }

  method ValidateAndNormalizePath(path: string, root: string) returns (r: Result<string>)
    ensures r == Validate(path, root)
  {
    var unsafe := ContainsUnsafeChars(path);
    if unsafe {
      return Err(BadRequest);
    }
    var normalized :- NormalizePathBySegments(path);
    if !Under(normalized, root) {
      return Err(NotFound);
    }
    return Ok(normalized);
  }

  /** The textual prefix test with its boundary check is a prefix test on segments. */
  lemma UnderMeansPrefix(path: string, root: string)
    requires Under(path, root)
    ensures Segments(root) <= Segments(path)
  {
    if root == "/" {
      assert root[1..] == "";
    } else if |path| == |root| {
      assert path == root;
    } else {
      assert path == root + "/" + path[|root| + 1..];
      SegmentsOfJoin(root, path[|root| + 1..]);
    }
  }

  /** Whatever the root, an accepted path has no dot segments and lies below the root. */
  lemma AcceptedPathsStayUnderRoot(path: string, root: string)
    requires Validate(path, root).Ok?
    ensures var q := Validate(path, root).value;
            Clean(Segments(q)) && Segments(root) <= Segments(q)
  {
    NormalFormsAreCanonical(path);
    UnderMeansPrefix(Normalize(path).value, root);
  }

  lemma JoinOneMore(stack: seq<string>, name: string)
    ensures Join(stack + [name]) == if stack == [] then name else Join(stack) + "/" + name
  {
    assert (stack + [name])[..|stack|] == stack;
  }

  lemma {:induction false} JoinConcat(a: seq<string>, b: seq<string>)
    requires a != [] && b != []
    ensures Join(a + b) == Join(a) + "/" + Join(b)
    decreases |b|
  {
    hide Join;
    var init, last := b[..|b| - 1], b[|b| - 1];
    assert b == init + [last] && a + b == (a + init) + [last];
    JoinOneMore(a + init, last);
    JoinOneMore(init, last);
    if init == [] {
      assert a + init == a;
    } else {
      JoinConcat(a, init);
      assert Join(a) + "/" + Join(init) + "/" + last == Join(a) + "/" + (Join(init) + "/" + last);
    }
  }

  lemma RebuildConcat(root: seq<string>, rest: seq<string>)
    requires AllSegments(root) && AllSegments(rest) && root != [] && rest != []
    ensures Rebuild(root + rest, false) == Rebuild(root, false) + "/" + Join(rest)
  {
    hide Segments;
    JoinConcat(root, rest);
    SegmentsOfJoined(root);
    SegmentsOfJoined(rest);
    assert AllSegments(root + rest);
    assert "/" + (Join(root) + "/" + Join(rest)) == "/" + Join(root) + "/" + Join(rest);
  }

  /** On canonical paths the two tests coincide. */
  lemma UnderCanonicalRoot(names: seq<string>, slash: bool, root: seq<string>)
    requires AllSegments(names) && AllSegments(root)
    ensures Under(Rebuild(names, slash), Rebuild(root, false)) <==> root <= names
  {
    hide Segments, Join;
    var q, r := Rebuild(names, slash), Rebuild(root, false);
    SegmentsOfRebuild(names, slash);
    SegmentsOfRebuild(root, false);
    if Under(q, r) {
      UnderMeansPrefix(q, r);
    }
    if root <= names {
      UnderFromPrefix(names, slash, root);
    }
  }

  lemma UnderFromPrefix(names: seq<string>, slash: bool, root: seq<string>)
    requires AllSegments(names) && root <= names
    ensures Under(Rebuild(names, slash), Rebuild(root, false))
  {
    hide Segments, Join;
    JoinOfNone();
    var q, r := Rebuild(names, slash), Rebuild(root, false);
    if root != [] {
      var rest := names[|root|..];
      assert names == root + rest;
      if rest == [] {
        assert names == root;
      } else {
        RebuildConcat(root, rest);
        var p := Rebuild(names, false);
        assert p <= q && p == r + "/" + Join(rest);
        assert q[|r|] == p[|r|] == '/';
      }
    }
  }

  // ---------- ResolveFilesystemPath and the index file ----------

  predicate CanonicalRoot(root: string) {
    Printable(root) && Clean(Segments(root)) && root == Rebuild(Segments(root), false)
  }

  lemma PrintableConcat(a: string, b: string)
    ensures Printable(a + b) <==> Printable(a) && Printable(b)
  {
    if Printable(a + b) {
      forall i | 0 <= i < |a| ensures IsHeaderChar(a[i]) { assert (a + b)[i] == a[i]; }
      forall i | 0 <= i < |b| ensures IsHeaderChar(b[i]) { assert (a + b)[|a| + i] == b[i]; }
    }
  }

  /** Resolution below a canonical root, exactly: the remainder's segments are walked from the
      root's; climbing above "/" is 400, ending outside the root is 404. */
  lemma ResolveExactly(root: string, remainder: string)
    requires CanonicalRoot(root) && remainder != "" && remainder[0] == '/'
    ensures Validate(root + remainder, root)
         == if !Printable(remainder) then Err(BadRequest)
            else match Walk(Segments(root), Segments(remainder))
                 case None => Err(BadRequest)
                 case Some(t) =>
                   if Segments(root) <= t then Ok(Rebuild(t, EndsInSlash(remainder))) else Err(NotFound)
  {
    hide Segments, Walk, Rebuild, Printable, Under;
    var names, path := Segments(root), root + remainder;
    PrintableConcat(root, remainder);
    assert path == root + "/" + remainder[1..];
    SegmentsOfJoin(root, remainder[1..]);
    assert remainder == "/" + remainder[1..];
    SegmentsOfRooted(remainder[1..]);
    assert Segments(path) == names + Segments(remainder);
    WalkOfClean([], names);
    assert [] + names == names;
    WalkConcat([], names, Segments(remainder));
    SegmentsOfRebuild(names, false);
    assert EndsInSlash(path) == EndsInSlash(remainder);
    if Walk(names, Segments(remainder)).Some? {
      SegmentsAreSegments(remainder);
      WalkIsClean(names, Segments(remainder));
      UnderCanonicalRoot(Walk(names, Segments(remainder)).value, EndsInSlash(remainder), names);
    }
  }

  /** A remainder that normalises on its own is appended to the root, normalised. */
  lemma ResolveComposes(root: string, remainder: string)
    requires CanonicalRoot(root) && Printable(remainder) && Normalize(remainder).Ok?
    ensures Validate(root + remainder, root).Ok?
    ensures Segments(Validate(root + remainder, root).value)
         == Segments(root) + Segments(Normalize(remainder).value)
  {
    NormalFormsAreCanonical(remainder);
    ResolveExactly(root, remainder);
    var names, rest := Segments(root), Segments(Normalize(remainder).value);
    WalkOnTop(names, [], Segments(remainder));
    assert names + [] == names;
    assert Clean(names + rest);
    SegmentsOfRebuild(names + rest, EndsInSlash(remainder));
  }

  /** AppendIndexFileIfDirectoryOrThrow; `isDirectory` is what stat says. */
  function AppendIndex(basePath: string, uri: string, isDirectory: bool, index: string, root: string): Result<string> {
    if EndsInSlash(uri) || isDirectory then
      if index == "" then Err(Forbidden)
      else Validate((if EndsInSlash(basePath) then basePath else basePath + "/") + index, root)
    else Validate(basePath, root)
  }

  /** Appending an index file to a resolved directory walks one more segment and tests the root again;
      the configuration also admits "." and "..". A plain name below a canonical root is always
      accepted and adds exactly that segment. */
  lemma IndexIsOneMoreSegment(path: string, uri: string, isDirectory: bool, index: string, root: string)
    requires Validate(path, root).Ok? && IsSegment(index) && Printable(index)
    requires EndsInSlash(uri) || isDirectory
    ensures var q := Validate(path, root).value;
            AppendIndex(q, uri, isDirectory, index, root)
            == match Walk(Segments(q), [index])
               case None => Err(BadRequest)
               case Some(t) => if Under(Rebuild(t, false), root) then Ok(Rebuild(t, false)) else Err(NotFound)
    ensures var q := Validate(path, root).value;
            IsName(index) && CanonicalRoot(root) ==>
              && AppendIndex(q, uri, isDirectory, index, root).Ok?
              && Segments(AppendIndex(q, uri, isDirectory, index, root).value) == Segments(q) + [index]
  {
    hide Segments, Join, Walk, Printable, Rebuild;
    NormalFormsAreCanonical(path);
    var q := Normalize(path).value;
    UnderMeansPrefix(q, root);
    var base := if EndsInSlash(q) then q else q + "/";
    SegmentsBehindDirectory(q, base, index);
    NormalFormIsPrintable(path);
    SlashIsPrintable();
    PrintableConcat(q, "/");
    PrintableConcat(base, index);
    WalkBehindNormalForm(Segments(q), index);
    if IsName(index) && CanonicalRoot(root) {
      var names := Segments(q) + [index];
      assert Clean(names);
      WalkOfClean(Segments(q), [index]);
      UnderCanonicalRoot(names, false, Segments(root));
      SegmentsOfRebuild(names, false);
    }
  }

  lemma SlashIsPrintable()
    ensures Printable("/")
  {}

  lemma WalkBehindNormalForm(names: seq<string>, index: string)
    requires Clean(names)
    ensures Walk([], names + [index]) == Walk(names, [index])
  {
    WalkOfClean([], names);
    assert [] + names == names;
    WalkConcat([], names, [index]);
  }

  lemma SegmentsBehindDirectory(q: string, base: string, index: string)
    requires q != "" && q[0] == '/' && IsSegment(index)
    requires base == if EndsInSlash(q) then q else q + "/"
    ensures Segments(base + index) == Segments(q) + [index]
    ensures (base + index)[0] == '/' && !EndsInSlash(base + index)
  {
    hide Segments;
    var stem := base[..|base| - 1];
    assert base == stem + "/" && base + index == stem + "/" + index;
    SegmentsOfJoin(stem, index);
    SegmentsOfOne(index);
    SegmentsOfSlashEnd(stem);
    SegmentsOfSlashEnd(q);
  }

  lemma {:induction false} JoinIsPrintable(stack: seq<string>)
    requires forall i | 0 <= i < |stack| :: Printable(stack[i])
    ensures Printable(Join(stack))
    decreases |stack|
  {
    if |stack| > 1 {
      JoinIsPrintable(stack[..|stack| - 1]);
      PrintableConcat(Join(stack[..|stack| - 1]), "/");
      PrintableConcat(Join(stack[..|stack| - 1]) + "/", stack[|stack| - 1]);
    }
  }

  lemma {:induction false} SegmentsArePrintable(path: string)
    requires Printable(path)
    ensures forall i | 0 <= i < |Segments(path)| :: Printable(Segments(path)[i])
    decreases |path|
  {
    if path != "" {
      if path[0] == '/' {
        SegmentsArePrintable(path[1..]);
      } else {
        SegmentsArePrintable(path[SegmentLength(path)..]);
      }
    }
  }

  lemma {:induction false} WalkIsPrintable(stack: seq<string>, segments: seq<string>)
    requires Walk(stack, segments).Some?
    requires forall i | 0 <= i < |stack| :: Printable(stack[i])
    requires forall i | 0 <= i < |segments| :: Printable(segments[i])
    ensures forall i | 0 <= i < |Walk(stack, segments).value| :: Printable(Walk(stack, segments).value[i])
    decreases |segments|
  {
    if segments != [] {
      var s, rest := segments[0], segments[1..];
      if s == "." {
        WalkIsPrintable(stack, rest);
      } else if s == ".." {
        WalkIsPrintable(stack[..|stack| - 1], rest);
      } else {
        WalkIsPrintable(stack + [s], rest);
      }
    }
  }

  lemma NormalFormIsPrintable(path: string)
    requires Printable(path) && Normalize(path).Ok?
    ensures Printable(Normalize(path).value)
  {
    SegmentsArePrintable(path);
    WalkIsPrintable([], Segments(path));
    var stack := Walk([], Segments(path)).value;
    JoinIsPrintable(stack);
    PrintableConcat("/", Join(stack));
    PrintableConcat("/" + Join(stack), "/");
  }
}
