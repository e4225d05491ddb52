/** How CgiExecutor splits a resolved path into the script and its PATH_INFO. */
module CgiPath {
  import opened Text

  /** `s.rfind(pat, upto)`; a negative `upto` finds nothing. */
  function RFind(s: string, pat: string, upto: int): (r: Option<nat>)
    ensures r.Some? ==> r.value <= upto && HasAt(s, r.value, pat)
    ensures forall p: nat | p <= upto && HasAt(s, p, pat) :: r.Some? && p <= r.value
    decreases upto
  {
    if upto < 0 then None
    else if HasAt(s, upto, pat) then Some(upto)
    else RFind(s, pat, upto - 1)
  }

  /** An occurrence that ends a path segment and does not make up a whole one. */
  predicate Valid(path: string, ext: string, p: nat) {
    && HasAt(path, p, ext)
    && (p + |ext| == |path| || path[p + |ext|] == '/')
    && (p == 0 || path[p - 1] != '/')
  }

  ghost predicate IsRightmost(path: string, ext: string, p: nat) {
    Valid(path, ext, p) && forall q: nat | q > p :: !Valid(path, ext, q)
  }

  /** The rightmost valid occurrence at or before `upto`. */
  function Rightmost(path: string, ext: string, upto: int): (r: Option<nat>)
    ensures r.Some? ==> r.value <= upto && Valid(path, ext, r.value)
    ensures forall p: nat | p <= upto && Valid(path, ext, p) :: r.Some? && p <= r.value
    decreases upto
  {
    if upto < 0 then None
    else if Valid(path, ext, upto) then Some(upto)
    else Rightmost(path, ext, upto - 1)
  }

  datatype Split = Split(pos: nat, length: nat)

  /** The smallest of the rightmost valid occurrences; the first extension wins a tie. */
  function BestSplit(path: string, extensions: seq<string>): (r: Option<Split>)
    ensures r.Some? ==> r.value.pos + r.value.length <= |path|
  {
    if extensions == [] then None
    else
      var best := BestSplit(path, extensions[..|extensions| - 1]);
      var ext := extensions[|extensions| - 1];
      var found := Rightmost(path, ext, |path|);
      if ext != "" && found.Some? && (best.None? || found.value < best.value.pos)
      then Some(Split(found.value, |ext|)) else best
  }

  function PathInfo(path: string, extensions: seq<string>): (r: Option<string>)
    ensures r.Some? ==> |r.value| <= |path|
  {
    match BestSplit(path, extensions)
    case None => None
    case Some(s) => Some(path[s.pos + s.length..])
  }

  /** The occurrences between two calls of rfind are not valid, so skipping them is sound. */
  lemma {:induction false} SkipInvalid(path: string, ext: string, low: int, upto: int)
    requires -1 <= low <= upto
    requires forall p: nat | low < p <= upto :: !Valid(path, ext, p)
    ensures Rightmost(path, ext, upto) == Rightmost(path, ext, low)
    decreases upto
  {
    if low < upto {
      SkipInvalid(path, ext, low, upto - 1);
    }
  }

  lemma RightmostFrom(path: string, ext: string, upto: nat)
    ensures match RFind(path, ext, upto)
            case None => Rightmost(path, ext, upto).None?
            case Some(p) => p <= upto && Rightmost(path, ext, upto) == Rightmost(path, ext, p)
  {
    match RFind(path, ext, upto)
    case None =>
    case Some(p) => SkipInvalid(path, ext, p, upto);
  }

  lemma NoExtension(path: string, extensions: seq<string>)
    ensures BestSplit(path, extensions[..0]) == None
  {}

  lemma OneMoreExtension(path: string, extensions: seq<string>, i: nat)
    requires i < |extensions|
    ensures var best, found := BestSplit(path, extensions[..i]), Rightmost(path, extensions[i], |path|);
            BestSplit(path, extensions[..i + 1])
            == if extensions[i] != "" && found.Some? && (best.None? || found.value < best.value.pos)
               then Some(Split(found.value, |extensions[i]|)) else best
  {
    assert extensions[..i + 1][..i] == extensions[..i];
  }

  lemma RightmostStep(path: string, ext: string, p: nat)
    ensures Rightmost(path, ext, p)
         == if Valid(path, ext, p) then Some(p) else if p == 0 then None else Rightmost(path, ext, p - 1)
  {}

  lemma ValidMeans(path: string, ext: string, p: nat)
    requires HasAt(path, p, ext)
    ensures p + |ext| <= |path|
    ensures Valid(path, ext, p) <==>
            (p + |ext| == |path| || path[p + |ext|] == '/') && (p == 0 || path[p - 1] != '/')
  {}

  method CreatePathInfo(path: string, extensions: seq<string>) returns (r: Option<string>)
    ensures r == PathInfo(path, extensions)
  {
    hide BestSplit, RFind, Rightmost, HasAt, Valid;
    NoExtension(path, extensions);
    var best: Option<Split> := None;
    for i := 0 to |extensions|
      invariant best == BestSplit(path, extensions[..i])
    {
      var ext := extensions[i];
      OneMoreExtension(path, extensions, i);
      if ext == "" {
        continue;
      }
      ghost var before, last := best, Rightmost(path, ext, |path|);
      RightmostFrom(path, ext, |path|);
      var pos := RFind(path, ext, |path|);
      while pos.Some?
        invariant pos.Some? ==> HasAt(path, pos.value, ext)
        invariant best == before && last == if pos.None? then None else Rightmost(path, ext, pos.value)
        decreases if pos.None? then 0 else pos.value + 1
      {
        var p := pos.value;
        RightmostStep(path, ext, p);
        ValidMeans(path, ext, p);
        var extEnd := p + |ext|;
        if extEnd == |path| || path[extEnd] == '/' {
          if p == 0 || path[p - 1] != '/' {
            assert last == Some(p);
            if best.None? || p < best.value.pos {
              best := Some(Split(p, |ext|));
            }
            break;
          }
        }
        if p == 0 {
          pos := None;
          break;
        }
        RightmostFrom(path, ext, p - 1);
        pos := RFind(path, ext, p - 1);
      }
    }
    assert extensions[..|extensions|] == extensions;
    if best.Some? {
      return Some(path[best.value.pos + best.value.length..]);
    }
    return None;
  }

  predicate EndsWith(path: string, ext: string) {
    |path| >= |ext| && path[|path| - |ext|..] == ext
  }

  predicate AnyEndsWith(path: string, extensions: seq<string>) {
    exists ext :: ext in extensions && EndsWith(path, ext)
  }

  method IsScriptExtensionAllowed(path: string, extensions: seq<string>) returns (allowed: bool)
    ensures allowed <==> AnyEndsWith(path, extensions)
  {
    for i := 0 to |extensions|
      invariant forall k | 0 <= k < i :: !EndsWith(path, extensions[k])
    {
      var ext := extensions[i];
      if |path| >= |ext| && path[|path| - |ext|..] == ext {
        assert EndsWith(path, ext) && ext in extensions;
        return true;
      }
    }
    return false;
  }

  // ---------- what the split means ----------

  /** Extension number `i` decides the split. */
  ghost predicate Decides(path: string, extensions: seq<string>, i: nat, s: Split) {
    && i < |extensions| && extensions[i] != "" && s.length == |extensions[i]|
    && IsRightmost(path, extensions[i], s.pos)
    && forall j: nat, q: nat | j < |extensions| && extensions[j] != "" && IsRightmost(path, extensions[j], q) ::
         s.pos <= q && (j < i ==> s.pos < q)
  }

  ghost predicate IsDecided(path: string, extensions: seq<string>, s: Split) {
    exists i: nat :: Decides(path, extensions, i, s)
  }

  lemma RightmostMeaning(path: string, ext: string)
    ensures match Rightmost(path, ext, |path|)
            case None => forall p: nat :: !Valid(path, ext, p)
            case Some(p) => IsRightmost(path, ext, p)
  {}

  lemma RightmostIsValid(path: string, ext: string, p: nat)
    requires IsRightmost(path, ext, p)
    ensures Valid(path, ext, p)
  {}

  lemma RightmostIsOne(path: string, ext: string, p: nat, q: nat)
    requires IsRightmost(path, ext, p) && IsRightmost(path, ext, q)
    ensures p == q
  {}

  /** A split exists exactly when a non-empty extension occurs validly, and it is taken at the
      smallest position among the extensions' rightmost valid occurrences. */
  lemma {:induction false} SplitMeaning(path: string, extensions: seq<string>)
    ensures match BestSplit(path, extensions)
            case None => forall i: nat, p: nat | i < |extensions| && extensions[i] != "" :: !Valid(path, extensions[i], p)
            case Some(s) => IsDecided(path, extensions, s)
    decreases |extensions|
  {
    if extensions != [] {
      var n := |extensions| - 1;
      var init, ext := extensions[..n], extensions[n];
      SplitMeaning(path, init);
      RightmostMeaning(path, ext);
      var best, found := BestSplit(path, init), Rightmost(path, ext, |path|);
      assert forall i | 0 <= i < n :: extensions[i] == init[i];
      if ext != "" && found.Some? && (best.None? || found.value < best.value.pos) {
        if best.Some? {
          var i: nat :| Decides(path, init, i, best.value);
        }
        LastDecides(path, extensions, Split(found.value, |ext|));
      } else if best.Some? {
        var i: nat :| Decides(path, init, i, best.value);
        FormerDecides(path, extensions, i, best.value);
        assert BestSplit(path, extensions) == best;
        assert Decides(path, extensions, i, best.value);
      } else {
        assert BestSplit(path, extensions) == None;
        forall i: nat, p: nat | i < |extensions| && extensions[i] != "" ensures !Valid(path, extensions[i], p) {
          if i < n {
            assert !Valid(path, init[i], p);
          }
        }
      }
    }
  }

  lemma LastDecides(path: string, extensions: seq<string>, s: Split)
    requires extensions != []
    requires var n := |extensions| - 1;
             && extensions[n] != "" && s.length == |extensions[n]| && IsRightmost(path, extensions[n], s.pos)
             && forall j: nat, q: nat | j < n && extensions[j] != "" && IsRightmost(path, extensions[j], q) :: s.pos < q
    ensures Decides(path, extensions, |extensions| - 1, s)
  {
    forall j: nat, q: nat | j < |extensions| && extensions[j] != "" && IsRightmost(path, extensions[j], q)
      ensures s.pos <= q && (j < |extensions| - 1 ==> s.pos < q)
    {
      if j == |extensions| - 1 {
        RightmostIsOne(path, extensions[j], s.pos, q);
      }
    }
  }

  lemma FormerDecides(path: string, extensions: seq<string>, i: nat, s: Split)
    requires extensions != [] && Decides(path, extensions[..|extensions| - 1], i, s)
    requires var ext := extensions[|extensions| - 1];
             ext == "" || forall q: nat | IsRightmost(path, ext, q) :: s.pos <= q
    ensures Decides(path, extensions, i, s)
  {
    var init := extensions[..|extensions| - 1];
    forall j: nat, q: nat | j < |extensions| && extensions[j] != "" && IsRightmost(path, extensions[j], q)
      ensures s.pos <= q && (j < i ==> s.pos < q)
    {
      if j < |init| {
        assert extensions[j] == init[j];
      }
    }
  }

  function Executable(path: string, extensions: seq<string>): string {
    match PathInfo(path, extensions)
    case None => path
    case Some(info) => path[..|path| - |info|]
  }

  /** The two parts are the path; the script passes the extension test; PATH_INFO is empty or a path. */
  lemma SplitIsExact(path: string, extensions: seq<string>)
    requires PathInfo(path, extensions).Some?
    ensures var info := PathInfo(path, extensions).value;
            && Executable(path, extensions) + info == path
            && (info == "" || info[0] == '/')
            && AnyEndsWith(Executable(path, extensions), extensions)
  {
    hide BestSplit, IsRightmost;
    var s := BestSplit(path, extensions).value;
    SplitMeaning(path, extensions);
    var i: nat :| Decides(path, extensions, i, s);
    var ext, script := extensions[i], Executable(path, extensions);
    RightmostIsValid(path, ext, s.pos);
    assert script == path[..s.pos + s.length];
    assert script[s.pos..] == path[s.pos..s.pos + |ext|] == ext;
    assert ext in extensions && EndsWith(script, ext);
  }

  /** A script is run exactly when the path splits, or ends in an extension that is empty or that
      is the whole last segment. */
  lemma RunExactlyWhen(path: string, extensions: seq<string>)
    ensures AnyEndsWith(Executable(path, extensions), extensions) <==>
            || PathInfo(path, extensions).Some?
            || exists ext :: ext in extensions && EndsWith(path, ext)
                             && (ext == "" || (|ext| < |path| && path[|path| - |ext| - 1] == '/'))
  {
    SplitMeaning(path, extensions);
    if PathInfo(path, extensions).Some? {
      SplitIsExact(path, extensions);
    } else if AnyEndsWith(path, extensions) {
      var ext :| ext in extensions && EndsWith(path, ext);
      var i :| 0 <= i < |extensions| && extensions[i] == ext;
      if ext != "" {
        assert !Valid(path, extensions[i], |path| - |ext|);
        assert HasAt(path, |path| - |ext|, ext);
      }
    }
  }

  class CgiExecutor {
    var scriptPath: string
    var metaVars: map<string, Option<string>>

    /** InitializeMetaVars, as far as it depends on the split. Where PATH_INFO is longer than the
        URI the unsigned difference wraps and SCRIPT_NAME is the whole URI. */
    constructor (uri: string, root: string, extensions: seq<string>, path: string)
      ensures scriptPath == Executable(path, extensions)
      ensures var info := PathInfo(path, extensions);
              && metaVars.Keys == {"PATH_INFO", "PATH_TRANSLATED", "REQUEST_URI", "SCRIPT_NAME"}
              && metaVars["PATH_INFO"] == info == metaVars["REQUEST_URI"]
              && metaVars["PATH_TRANSLATED"] == (if info.None? then None else Some(root + info.value))
              && metaVars["SCRIPT_NAME"].Some?
              && var name := metaVars["SCRIPT_NAME"].value;
                 if info.Some? && |info.value| <= |uri|
                 then name <= uri && |name| + |info.value| == |uri| else name == uri
    {
      var info := CreatePathInfo(path, extensions);
      var executable := if info.Some? then path[..|path| - |info.value|] else path;
      var translated := if info.Some? then Some(root + info.value) else None;
      var name := if info.Some? && |info.value| <= |uri| then uri[..|uri| - |info.value|] else uri;
      metaVars := map["PATH_INFO" := info, "PATH_TRANSLATED" := translated,
                      "REQUEST_URI" := info, "SCRIPT_NAME" := Some(name)];
      scriptPath := executable;
    }
  }
}
