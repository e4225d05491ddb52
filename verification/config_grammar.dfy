/** The configuration language on token lists: recursive descent as functions from the tokens to
    a value and the tokens that are left. */
module ConfigGrammar {
  import opened Text
  import opened RequestHead
  import opened Paths
  import opened ServerConfigs

  /** What is not modelled: the working directory, and the host and port syntax of listen. */
  datatype Env = Env(cwd: Option<string>, accepts: string -> bool)

  /** Fail stands for a thrown runtime_error. */
  datatype Parsed<+T> = Fail | Done(value: T, rest: seq<string>)

  /** The next token, empty at the end. */
  function Head(tokens: seq<string>): string {
    if tokens == [] then "" else tokens[0]
  }

  function Tail(tokens: seq<string>): seq<string> {
    if tokens == [] then [] else tokens[1..]
  }

  function ToTokenType(t: string): TokenType {
    if t == "listen" then Listen
    else if t == "server_name" then ServerName
    else if t == "client_max_body_size" then MaxBody
    else if t == "error_page" then ErrorPage
    else if t == "location" then LocationBlock
    else if t == "allowed_methods" then AllowedMethods
    else if t == "root" then Root
    else if t == "autoindex" then AutoIndex
    else if t == "index" then Index
    else if t == "upload_path" then UploadPath
    else if t == "redirect" then Redirect
    else if t == "cgi" then CgiSwitch
    else if t == "cgi_allowed_extensions" then CgiAllowedExtensions
    else UnknownToken
  }

  const LONG_MAX: int := 0x7FFF_FFFF_FFFF_FFFF
  const MAX_BODY_SETTING: int := 100000000

  // ---------- directives with one value ----------

  /** RequireAbsoluteSafePathOrThrow. */
  predicate SafePath(path: string) {
    path != "" && path[0] == '/' && Printable(path)
  }

  predicate IsAlnum(c: char) {
    'a' <= c <= 'z' || 'A' <= c <= 'Z' || '0' <= c <= '9'
  }

  /** IsSafeIndexFilename; its tests for "../", '/' and visible characters are implied. */
  predicate SafeIndex(name: string) {
    name != "" && forall i | 0 <= i < |name| :: IsAlnum(name[i]) || name[i] in {'.', '-', '_'}
  }

  /** ResolveRootPath and the check behind it: absolute roots are kept as they are written. */
  function RootOf(token: string, cwd: Option<string>): Option<string> {
    if token != "" && token[0] == '/' then
      if SafePath(token) then Some(token) else None
    else if cwd.None? || cwd.value == "" || cwd.value == "." || Find(token, "..", 0).Some? then None
    else
      match Normalize(cwd.value + "/" + token)
      case Err(_) => None
      case Ok(root) => if SafePath(root) then Some(root) else None
  }

  function LeadingDigits(s: string): (digits: string)
    ensures digits <= s && AllDigits(digits)
    ensures |digits| < |s| ==> !IsDigit(s[|digits|])
  {
    if s == "" || !IsDigit(s[0]) then "" else [s[0]] + LeadingDigits(s[1..])
  }

  /** The cast of atoi from long, saturated by strtol, to int. */
  function ToInt(n: int): int {
    var l := if n > LONG_MAX then LONG_MAX else if n < -LONG_MAX - 1 then -LONG_MAX - 1 else n;
    (l + 0x8000_0000) % 0x1_0000_0000 - 0x8000_0000
  }

  /** std::atoi: leading spaces, a sign, and digits up to the first other character. */
  function Atoi(s: string): int {
    var t := SkipSpaces(s);
    var signed := t != "" && (t[0] == '-' || t[0] == '+');
    var m: int := DecimalFrom(0, LeadingDigits(if signed then t[1..] else t));
    ToInt(if signed && t[0] == '-' then -m else m)
  }

  /** The status of an error_page line. */
  function CodeOf(token: string): Option<nat> {
    var n := Atoi(token);
    if 400 <= n <= 599 then Some(n) else None
  }

  /** The value that a directive stores, or None where it throws. */
  function ValueOf(kind: TokenType, token: string, env: Env): Option<string> {
    match kind
    case Listen => if env.accepts(token) then Some(token) else None
    case MaxBody => if 0 <= Atoi(token) <= MAX_BODY_SETTING then Some(token) else None
    case ServerName | Redirect => Some(token)
    case Root => RootOf(token, env.cwd)
    case AutoIndex | CgiSwitch => if token == "on" || token == "off" then Some(token) else None
    case Index => if SafeIndex(token) then Some(token) else None
    case UploadPath => if SafePath(token) then Some(token) else None
    case _ => None
  }

  function SettingClause(kind: TokenType, tokens: seq<string>, settings: map<TokenType, string>, env: Env)
    : (r: Parsed<map<TokenType, string>>)
    ensures r.Done? ==> |r.rest| <= |tokens|
  {
    var token := Head(tokens);
    if token == "" then Fail
    else
      match ValueOf(kind, token, env)
      case None => Fail
      case Some(value) =>
        if kind in settings || Head(Tail(tokens)) != ";" then Fail
        else Done(settings[kind := value], Tail(Tail(tokens)))
  }

  function PageOf(token: string): string
    requires token != ""
  {
    if "https://" <= token || "http://" <= token || token[0] == '/' then token else "/" + token
  }

  function PageClause(tokens: seq<string>, pages: map<nat, string>): (r: Parsed<map<nat, string>>)
    ensures r.Done? ==> |r.rest| <= |tokens|
  {
    var code, page := Head(tokens), Head(Tail(tokens));
    if code == "" || CodeOf(code).None? || page == "" || page[0] == '.' then Fail
    else if Head(Tail(Tail(tokens))) != ";" then Fail
    else Done(pages[CodeOf(code).value := PageOf(page)], Tail(Tail(Tail(tokens))))
  }

  // ---------- directives with a list ----------

  function MethodOf(token: string): Option<Method> {
    if token == "GET" then Some(Get)
    else if token == "POST" then Some(Post)
    else if token == "DELETE" then Some(Delete)
    else None
  }

  function MethodsClause(tokens: seq<string>, loc: Location): (r: Parsed<Location>)
    ensures r.Done? ==> |r.rest| <= |tokens|
  {
    if loc.hasMethods then Fail else MethodsLoop(tokens, loc, true)
  }

  function MethodsLoop(tokens: seq<string>, loc: Location, isEmpty: bool): (r: Parsed<Location>)
    ensures r.Done? ==> |r.rest| <= |tokens|
    decreases |tokens|
  {
    var token := Head(tokens);
    if token == ";" then
      if isEmpty then Fail else Done(loc.(hasMethods := true), Tail(tokens))
    else
      match MethodOf(token)
      case None => Fail
      case Some(m) => MethodsLoop(Tail(tokens), loc.(methods := loc.methods + {m}), false)
  }

  function ExtensionsClause(tokens: seq<string>, loc: Location): (r: Parsed<Location>)
    ensures r.Done? ==> |r.rest| <= |tokens|
  {
    if loc.hasExtensions || Head(tokens) == "" || Head(tokens) == ";" then Fail
    else ExtensionsLoop(tokens, loc)
  }

  /** Collects up to ';' or the end of the file. */
  function ExtensionsLoop(tokens: seq<string>, loc: Location): (r: Parsed<Location>)
    ensures r.Done? && |r.rest| <= |tokens|
    decreases |tokens|
  {
    var token := Head(tokens);
    if token == "" || token == ";" then Done(loc.(hasExtensions := true), Tail(tokens))
    else ExtensionsLoop(Tail(tokens), loc.(extensions := loc.extensions + [token]))
  }

  // ---------- blocks ----------

  predicate IsValidLocationName(name: string) {
    && name != "" && name[0] == '/'
    && Find(name, "..", 0).None? && Find(name, "//", 0).None?
  }

  predicate IsLocationSetting(kind: TokenType) {
    kind in {Root, AutoIndex, Index, UploadPath, Redirect, CgiSwitch}
  }

  predicate IsServerSetting(kind: TokenType) {
    kind in {Listen, ServerName, MaxBody}
  }

  /** One directive inside a location block, behind its keyword. */
  function LocationDirective(kind: TokenType, tokens: seq<string>, loc: Location, env: Env): (r: Parsed<Location>)
    ensures r.Done? ==> |r.rest| <= |tokens|
  {
    if kind == AllowedMethods then MethodsClause(tokens, loc)
    else if kind == CgiAllowedExtensions then ExtensionsClause(tokens, loc)
    else if IsLocationSetting(kind) then
      match SettingClause(kind, tokens, loc.settings, env)
      case Fail => Fail
      case Done(settings, rest) => Done(loc.(settings := settings), rest)
    else Fail
  }

  function LocationLoop(tokens: seq<string>, loc: Location, env: Env): (r: Parsed<Location>)
    ensures r.Done? ==> |r.rest| < |tokens|
    decreases |tokens|
  {
    if tokens == [] then Fail
    else if Head(tokens) == "}" then Done(loc, Tail(tokens))
    else
      match LocationDirective(ToTokenType(Head(tokens)), Tail(tokens), loc, env)
      case Fail => Fail
      case Done(next, rest) => LocationLoop(rest, next, env)
  }

  function LocationClause(tokens: seq<string>, env: Env): (r: Parsed<Location>)
    ensures r.Done? ==> |r.rest| <= |tokens|
  {
    var name := Head(tokens);
    if !IsValidLocationName(name) || Head(Tail(tokens)) != "{" then Fail
    else LocationLoop(Tail(Tail(tokens)), DEFAULT_LOCATION.(name := name), env)
  }

  predicate IsNewLocation(locations: seq<Location>, loc: Location) {
    forall i | 0 <= i < |locations| :: Key(locations[i]) != Key(loc)
  }

  /** One directive inside a server block, behind its keyword. */
  function ServerDirective(kind: TokenType, tokens: seq<string>, server: Server, env: Env): (r: Parsed<Server>)
    ensures r.Done? ==> |r.rest| <= |tokens|
  {
    if IsServerSetting(kind) then
      match SettingClause(kind, tokens, server.settings, env)
      case Fail => Fail
      case Done(settings, rest) => Done(server.(settings := settings), rest)
    else if kind == ErrorPage then
      match PageClause(tokens, server.pages)
      case Fail => Fail
      case Done(pages, rest) => Done(server.(pages := pages), rest)
    else if kind == LocationBlock then
      match LocationClause(tokens, env)
      case Fail => Fail
      case Done(loc, rest) =>
        if IsNewLocation(server.locations, loc)
        then Done(server.(locations := server.locations + [loc]), rest) else Fail
    else Fail
  }

  function ServerLoop(tokens: seq<string>, server: Server, env: Env): (r: Parsed<Server>)
    ensures r.Done? ==> |r.rest| < |tokens|
    decreases |tokens|
  {
    if tokens == [] then Fail
    else if Head(tokens) == "}" then Done(server, Tail(tokens))
    else
      match ServerDirective(ToTokenType(Head(tokens)), Tail(tokens), server, env)
      case Fail => Fail
      case Done(next, rest) => ServerLoop(rest, next, env)
  }

  function ServerClause(tokens: seq<string>, env: Env): (r: Parsed<Server>)
    ensures r.Done? ==> |r.rest| <= |tokens|
  {
    if Head(tokens) != "{" then Fail else ServerLoop(Tail(tokens), DEFAULT_SERVER, env)
  }

  /** The whole file: the servers, or None where parsing throws. */
  function ParseFile(tokens: seq<string>, servers: seq<Server>, env: Env): Option<seq<Server>>
    decreases |tokens|
  {
    if Head(tokens) == "" then Some(servers)
    else if Head(tokens) != "server" then None
    else
      match ServerClause(Tail(tokens), env)
      case Fail => None
      case Done(server, rest) => ParseFile(rest, servers + [server], env)
  }
}
