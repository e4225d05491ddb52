/** ConfigParser: the tokenizer with its cursor, and the recursive descent over it, proved equal
    to the parser on token lists. A thrown runtime_error is a None or a false result; the object
    is not used after one. */
module ConfigParsers {
  import opened Text
  import RequestHead
  import opened Paths
  import opened ServerConfigs
  import opened Tokenizer
  import opened ConfigGrammar

  lemma BlockIsAdded(tokens: seq<string>, server: Server, env: Env)
    ensures ServerDirective(LocationBlock, tokens, server, env)
         == match LocationClause(tokens, env)
            case Fail => Fail
            case Done(loc, rest) =>
              if IsNewLocation(server.locations, loc)
              then Done(server.(locations := server.locations + [loc]), rest) else Fail
  {}

  class ConfigParser {
    const content: string
    const env: Env
    var currentPos: nat
    var serverConfigs: seq<Server>

    /** The tokens that are still to come. */
    ghost function Rest(): seq<string>
      reads this`currentPos
    {
      Tokens(content, currentPos)
    }

    constructor (content: string, env: Env)
      ensures this.content == content && this.env == env && serverConfigs == []
      ensures Rest() == Tokens(content, 0)
    {
      this.content, this.env, currentPos, serverConfigs := content, env, 0, [];
    }

    /** Takes one token, and strictly advances unless there is none left. */
    method Tokenize() returns (token: string)
      modifies this`currentPos
      ensures token == Head(old(Rest())) && Rest() == Tail(old(Rest()))
      ensures token == "" <==> old(Rest()) == []
      ensures token != "" ==> old(currentPos) < currentPos
    {
      TokensAreNotEmpty(content, currentPos);
      if currentPos >= |content| {
        return "";
      }
      ghost var before := currentPos;
      while currentPos < |content| && IsWhite(content[currentPos])
        invariant before <= currentPos <= |content|
        invariant SkipWhite(content, currentPos) == SkipWhite(content, before)
        decreases |content| - currentPos
      {
        currentPos := currentPos + 1;
      }
      if currentPos >= |content| {
        return "";
      }
      if IsSpecial(content[currentPos]) {
        token := [content[currentPos]];
        currentPos := currentPos + 1;
        return;
      }
      var start := currentPos;
      while currentPos < |content| && !IsWhite(content[currentPos]) && !IsSpecial(content[currentPos])
        invariant start <= currentPos <= |content|
        invariant WordEnd(content, currentPos) == WordEnd(content, start)
        decreases |content| - currentPos
      {
        currentPos := currentPos + 1;
      }
      token := content[start..currentPos];
    }

    method ConsumeExpectedSemicolon() returns (ok: bool)
      modifies this`currentPos
      ensures ok <==> Head(old(Rest())) == ";"
      ensures Rest() == Tail(old(Rest()))
    {
      var token := Tokenize();
      ok := token == ";";
    }

    // ---------- the file ----------

    /** Ends on every input; the servers are those of the token list, whatever the layout. */
    method Parse() returns (ok: bool)
      requires serverConfigs == []
      modifies this
      ensures ok <==> ParseFile(old(Rest()), [], env).Some?
      ensures ok ==> Some(serverConfigs) == ParseFile(old(Rest()), [], env)
    {
      while true
        invariant ParseFile(Rest(), serverConfigs, env) == ParseFile(old(Rest()), [], env)
        decreases |Rest()|
      {
        var token := Tokenize();
        if token == "" {
          return true;
        }
        if token == "server" {
          var parsed := ParseServer();
          if !parsed {
            return false;
          }
        } else {
          return false;
        }
      }
    }

    method ParseServer() returns (ok: bool)
      modifies this
      ensures match ServerClause(old(Rest()), env)
              case Fail => !ok
              case Done(server, rest) => ok && serverConfigs == old(serverConfigs) + [server] && Rest() == rest
    {
      hide ToTokenType, ServerDirective;
      var token := Tokenize();
      if token != "{" {
        return false;
      }
      var config := new ServerConfig();
      while true
        invariant serverConfigs == old(serverConfigs)
        invariant ServerLoop(Rest(), config.Value(), env) == ServerClause(old(Rest()), env)
        decreases |Rest()|
      {
        token := Tokenize();
        if token == "}" {
          break;
        }
        if token == "" {
          return false;  // the default branch of the switch
        }
        var parsed := ParseServerDirective(ToTokenType(token), config);
        if !parsed {
          return false;
        }
      }
      serverConfigs := serverConfigs + [config.Value()];
      return true;
    }

    /** The switch in ParseServer. */
    method ParseServerDirective(kind: TokenType, config: ServerConfig) returns (ok: bool)
      modifies this`currentPos, config
      ensures match ServerDirective(kind, old(Rest()), old(config.Value()), env)
              case Fail => !ok
              case Done(server, rest) => ok && config.Value() == server && Rest() == rest
    {
      match kind {
        case Listen | ServerName | MaxBody =>
          var settings := ParseSetting(kind, config.settings);
          if settings.None? {
            return false;
          }
          var value := settings.value[kind];
          ok := config.SetOnce(kind, value);
        case ErrorPage =>
          var page := ParseErrorPage();
          if page.None? {
            return false;
          }
          config.SetErrorPage(page.value.0, page.value.1);
          ok := true;
        case LocationBlock =>
          ok := ParseLocation(config);
        case _ =>
          return false;
      }
    }

    /** A directive with one value: the value is checked and stored once, then ';' is expected. */
    method ParseSetting(kind: TokenType, settings: map<TokenType, string>) returns (r: Option<map<TokenType, string>>)
      modifies this`currentPos
      ensures match SettingClause(kind, old(Rest()), settings, env)
              case Fail => r.None?
              case Done(next, rest) => r == Some(next) && Rest() == rest && kind in next
                                       && kind !in settings && next == settings[kind := next[kind]]
    {
      hide ValueOf;
      var token := Tokenize();
      if token == "" {
        return None;
      }
      var value := ValueOf(kind, token, env);
      if value.None? || kind in settings {
        return None;
      }
      var ended := ConsumeExpectedSemicolon();
      return if ended then Some(settings[kind := value.value]) else None;
    }

    method ParseErrorPage() returns (r: Option<(nat, string)>)
      modifies this`currentPos
      ensures forall pages ::
                match PageClause(old(Rest()), pages)
                case Fail => r.None?
                case Done(next, rest) => r.Some? && next == pages[r.value.0 := r.value.1] && Rest() == rest
    {
      var code := Tokenize();
      if code == "" || CodeOf(code).None? {
        return None;
      }
      var page := Tokenize();
      if page == "" || page[0] == '.' {
        return None;
      }
      page := PageOf(page);
      var ended := ConsumeExpectedSemicolon();
      return if ended then Some((CodeOf(code).value, page)) else None;
    }

    // ---------- location blocks ----------

    method ParseLocation(config: ServerConfig) returns (ok: bool)
      modifies this`currentPos, config
      ensures match ServerDirective(LocationBlock, old(Rest()), old(config.Value()), env)
              case Fail => !ok
              case Done(server, rest) => ok && config.Value() == server && Rest() == rest
    {
      hide ToTokenType, LocationDirective, IsValidLocationName, ServerDirective;
      BlockIsAdded(Rest(), config.Value(), env);
      var token := Tokenize();
      if !IsValidLocationName(token) {
        return false;
      }
      var location := DEFAULT_LOCATION.(name := token);
      token := Tokenize();
      if token != "{" {
        return false;
      }
      while true
        invariant config.Value() == old(config.Value())
        invariant LocationLoop(Rest(), location, env) == LocationClause(old(Rest()), env)
        decreases |Rest()|
      {
        token := Tokenize();
        if token == "}" {
          break;
        }
        if token == "" {
          return false;  // the default branch of the switch
        }
        var parsed := ParseLocationDirective(ToTokenType(token), location);
        if parsed.None? {
          return false;
        }
        location := parsed.value;
      }
      ok := config.AddLocation(location);
    }

    /** The switch in ParseLocation. */
    method ParseLocationDirective(kind: TokenType, location: Location) returns (r: Option<Location>)
      modifies this`currentPos
      ensures match LocationDirective(kind, old(Rest()), location, env)
              case Fail => r.None?
              case Done(next, rest) => r == Some(next) && Rest() == rest
    {
      match kind {
        case AllowedMethods =>
          r := ParseMethods(location);
        case Root | AutoIndex | Index | UploadPath | Redirect | CgiSwitch =>
          var settings := ParseSetting(kind, location.settings);
          return if settings.None? then None else Some(location.(settings := settings.value));
        case CgiAllowedExtensions =>
          r := ParseCgiAllowedExtensions(location);
        case _ =>
          return None;
      }
    }

    method ParseMethods(location: Location) returns (r: Option<Location>)
      modifies this`currentPos
      ensures match MethodsClause(old(Rest()), location)
              case Fail => r.None?
              case Done(next, rest) => r == Some(next) && Rest() == rest
    {
      if location.hasMethods {
        return None;
      }
      var loc := location;
      var isMethodEmpty := true;
      while true
        invariant MethodsLoop(Rest(), loc, isMethodEmpty) == MethodsClause(old(Rest()), location)
        decreases |Rest()|
      {
        var token := Tokenize();
        if token == ";" {
          break;
        }
        if token == "GET" {
          loc := loc.(methods := loc.methods + {RequestHead.Method.Get});
        } else if token == "POST" {
          loc := loc.(methods := loc.methods + {RequestHead.Method.Post});
        } else if token == "DELETE" {
          loc := loc.(methods := loc.methods + {RequestHead.Method.Delete});
        } else {
          return None;
        }
        isMethodEmpty := false;
      }
      if isMethodEmpty {
        return None;
      }
      return Some(loc.(hasMethods := true));
    }

    method ParseCgiAllowedExtensions(location: Location) returns (r: Option<Location>)
      modifies this`currentPos
      ensures match ExtensionsClause(old(Rest()), location)
              case Fail => r.None?
              case Done(next, rest) => r == Some(next) && Rest() == rest
    {
      if location.hasExtensions {
        return None;
      }
      var token := Tokenize();
      if token == "" || token == ";" {
        return None;
      }
      var loc := location;
      while token != "" && token != ";"
        invariant token == "" ==> Rest() == []
        invariant ExtensionsLoop((if token == "" then [] else [token]) + Rest(), loc) == ExtensionsClause(old(Rest()), location)
        decreases |Rest()|, if token == "" then 0 else 1
      {
        loc := loc.(extensions := loc.extensions + [token]);
        token := Tokenize();
      }
      return Some(loc.(hasExtensions := true));
    }
  }
}
