/** ServerConfig and Location: the configuration values and the location search. */
module ServerConfigs {
  import opened Text
  import RequestHead

  /** Directives, and the two symbols of an error_page line. */
  datatype TokenType =
    | UnknownToken | Listen | ServerName | MaxBody | ErrorPage | LocationBlock
    | AllowedMethods | Root | AutoIndex | Index | UploadPath | Redirect | CgiSwitch | CgiAllowedExtensions

  /** A Location; `settings` holds the directives that take one value and may stand once. */
  datatype Location = Location(name: string, methods: set<RequestHead.Method>, hasMethods: bool,
                               extensions: seq<string>, hasExtensions: bool,
                               settings: map<TokenType, string>) {
    function GetRoot(): string {
      if Root in settings then settings[Root] else "./"
    }

    function GetIndex(): string {
      if Index in settings then settings[Index] else ""
    }

    predicate HasRedirect() {
      Redirect in settings
    }

    predicate GetCgiEnabled() {
      CgiSwitch in settings && settings[CgiSwitch] == "on"
    }
  }

  const DEFAULT_LOCATION := Location("/", {}, false, [], false, map[])

  /** What a ServerConfig holds. */
  datatype Server = Server(settings: map<TokenType, string>, pages: map<nat, string>, locations: seq<Location>)

  const DEFAULT_SERVER := Server(map[], map[], [])

  // ---------- names without trailing slashes ----------

  function Trim(s: string): (r: string)
    ensures r <= s && (s != "" ==> r != "" && r[0] == s[0])
  {
    if |s| <= 1 || s[|s| - 1] != '/' then s else Trim(s[..|s| - 1])
  }

  method TrimTrailingSlashExceptRoot(s: string) returns (r: string)
    ensures r == Trim(s)
  {
    if |s| <= 1 {
      return s;
    }
    var end := |s|;
    assert s[..end] == s;
    while end > 1 && s[end - 1] == '/'
      invariant 1 <= end <= |s| && Trim(s[..end]) == Trim(s)
    {
      assert s[..end][..end - 1] == s[..end - 1];
      end := end - 1;
    }
    return s[..end];
  }

  function Key(l: Location): string {
    Trim(l.name)
  }

  /** No two locations have the same name up to trailing slashes. */
  predicate DistinctKeys(locations: seq<Location>) {
    forall i, j | 0 <= i < j < |locations| :: Key(locations[i]) != Key(locations[j])
  }

  // ---------- the search ----------

  predicate IsPathPrefix(uriKey: string, locKey: string) {
    || locKey == "/"
    || (locKey <= uriKey && (|uriKey| == |locKey| || uriKey[|locKey|] == '/'))
  }

  /** The first of the longest non-empty keys that match. */
  function Longest(locations: seq<Location>, uriKey: string): Option<Location> {
    if locations == [] then None
    else
      var best := Longest(locations[..|locations| - 1], uriKey);
      var l := locations[|locations| - 1];
      if IsPathPrefix(uriKey, Key(l)) && |Key(l)| > BestLength(best) then Some(l) else best
  }

  function BestLength(best: Option<Location>): nat {
    if best.None? then 0 else |Key(best.value)|
  }

  datatype LocationMatch = LocationMatch(loc: Location, remainder: string)

  function Remainder(uriKey: string, locKey: string): string
    requires |locKey| <= |uriKey|
  {
    if |uriKey| == |locKey| then "/"
    else if uriKey[|locKey|] != '/' then "/" + uriKey[|locKey|..]
    else uriKey[|locKey|..]
  }

  /** FindLocationForUri. The out_of_range that substr throws on an empty URI is answered with 500. */
  function Route(locations: seq<Location>, uri: string): Result<LocationMatch> {
    var uriKey := Trim(uri);
    match Longest(locations, uriKey)
    case None => Err(NotFound)
    case Some(best) =>
      if |Key(best)| > |uriKey| then Err(InternalServerError)
      else Ok(LocationMatch(best, Remainder(uriKey, Key(best))))
  }

  class ServerConfig {
    var settings: map<TokenType, string>
    var pages: map<nat, string>
    var locations: seq<Location>

    function Value(): Server
      reads this
    {
      Server(settings, pages, locations)
    }

    constructor ()
      ensures Value() == DEFAULT_SERVER
    {
      settings, pages, locations := map[], map[], [];
    }

    /** SetListen, SetServerName, SetMaxBodySize: a second setting is refused. */
    method SetOnce(directive: TokenType, token: string) returns (ok: bool)
      modifies this`settings
      ensures ok <==> directive !in old(settings)
      ensures settings == if ok then old(settings)[directive := token] else old(settings)
    {
      ok := directive !in settings;
      if ok {
        settings := settings[directive := token];
      }
    }

    method SetErrorPage(code: nat, page: string)
      modifies this`pages
      ensures pages == old(pages)[code := page]
    {
      pages := pages[code := page];
    }

    /** A location is added unless one with the same name, up to trailing slashes, is there. */
    method AddLocation(location: Location) returns (ok: bool)
      modifies this`locations
      ensures ok <==> forall i | 0 <= i < |old(locations)| :: Key(old(locations)[i]) != Key(location)
      ensures locations == if ok then old(locations) + [location] else old(locations)
      ensures DistinctKeys(old(locations)) ==> DistinctKeys(locations)
    {
      var normalized := TrimTrailingSlashExceptRoot(location.name);
      for i := 0 to |locations|
        invariant locations == old(locations)
        invariant forall k | 0 <= k < i :: Key(locations[k]) != normalized
      {
        var existing := TrimTrailingSlashExceptRoot(locations[i].name);
        if existing == normalized {
          return false;
        }
      }
      locations := locations + [location];
      return true;
    }

    method FindLocationForUri(uri: string) returns (r: Result<LocationMatch>)
      ensures r == Route(locations, uri)
    {
      var best: Option<Location> := None;
      var bestLength := 0;
      var uriKey := TrimTrailingSlashExceptRoot(uri);
      for i := 0 to |locations|
        invariant best == Longest(locations[..i], uriKey) && bestLength == BestLength(best)
      {
        assert locations[..i + 1][..i] == locations[..i];
        var locKey := TrimTrailingSlashExceptRoot(locations[i].name);
        if IsPathPrefix(uriKey, locKey) {
          var length := |locKey|;
          if length > bestLength {
            bestLength := length;
            best := Some(locations[i]);
          }
        }
      }
      assert locations[..|locations|] == locations;
      if best.None? {
        return Err(NotFound);
      }
      var bestKey := TrimTrailingSlashExceptRoot(best.value.name);
      var remainder := "/";
      if |uriKey| != |bestKey| {
        if |bestKey| > |uriKey| {
          return Err(InternalServerError);
        }
        remainder := uriKey[|bestKey|..];
        if remainder[0] != '/' {
          remainder := "/" + remainder;
        }
      }
      return Ok(LocationMatch(best.value, remainder));
    }
  }
}
