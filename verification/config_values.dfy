/** What the values of the configuration stand for, told without the parser. */
module ConfigValues {
  import opened Text
  import opened Paths
  import opened ServerConfigs
  import opened ConfigGrammar
  import opened ConfigTheorems
  import HttpResponses
  import RequestHead

  // ---------- directives with one value ----------

  /** A file name of letters, digits, dots, hyphens and underscores. */
  predicate IsPlainName(name: string) {
    name != "" &&
    forall i | 0 <= i < |name| ::
      'a' <= name[i] <= 'z' || 'A' <= name[i] <= 'Z' || '0' <= name[i] <= '9'
      || name[i] == '.' || name[i] == '-' || name[i] == '_'
  }

  /** An absolute path of printable characters. */
  predicate IsPrintablePath(path: string) {
    path != "" && path[0] == '/' && forall i | 0 <= i < |path| :: ' ' <= path[i] <= '~'
  }

  /** Every value but a root is stored as it is written, and these are accepted. */
  lemma ValueIsStored(kind: TokenType, token: string, env: Env)
    requires kind in {Listen, ServerName, Redirect, AutoIndex, CgiSwitch, Index, UploadPath}
    ensures ValueOf(kind, token, env)
         == if (kind == Listen ==> env.accepts(token))
               && (kind in {AutoIndex, CgiSwitch} ==> token == "on" || token == "off")
               && (kind == Index ==> IsPlainName(token))
               && (kind == UploadPath ==> IsPrintablePath(token))
            then Some(token) else None
  {
    assert IsPlainName(token) <==> SafeIndex(token) by {
      if SafeIndex(token) {
        forall i | 0 <= i < |token|
          ensures 'a' <= token[i] <= 'z' || 'A' <= token[i] <= 'Z' || '0' <= token[i] <= '9'
                  || token[i] == '.' || token[i] == '-' || token[i] == '_'
        {
          assert IsAlnum(token[i]) || token[i] in {'.', '-', '_'};
        }
      }
    }
    assert IsPrintablePath(token) <==> SafePath(token);
  }

  /** A body size is a number up to 100000000, with anything behind it, and stored as written. */
  lemma BodySizeIsStored(n: nat, rest: string, env: Env)
    requires n <= 0x7FFF_FFFF && (rest == "" || !RequestHead.IsDigit(rest[0]))
    ensures var token := HttpResponses.Digits(n) + rest;
            ValueOf(MaxBody, token, env) == if n <= 100000000 then Some(token) else None
  {
    hide Atoi, ToInt, CodeOf;
    NumberIsReadByAtoi(n, rest);
  }

  /** Nothing else takes a value. */
  lemma OthersTakeNoValue(kind: TokenType, token: string, env: Env)
    ensures ValueOf(kind, token, env).Some? ==>
              kind in {Listen, ServerName, Redirect, AutoIndex, CgiSwitch, Index, UploadPath, MaxBody, Root}
  {}

  /** An absolute root is stored as written; a relative one as the normal form of its segments behind
      those of the working directory, which is refused with ".." anywhere in it. */
  lemma RootIsStored(token: string, env: Env, root: string)
    requires token != ""
    ensures ValueOf(Root, token, env) == Some(root) <==>
            && IsPrintablePath(root)
            && if token[0] == '/' then root == token
               else
                 && env.cwd.Some? && env.cwd.value != "" && env.cwd.value != "."
                 && (forall i | 0 <= i < |token| - 1 :: !(token[i] == '.' && token[i + 1] == '.'))
                 && env.cwd.value[0] == '/'
                 && (exists names :: Walk([], Segments(env.cwd.value) + Segments(token)) == Some(names)
                                     && root == Rebuild(names, token[|token| - 1] == '/'))
  {
    assert IsPrintablePath(root) <==> SafePath(root);
    if token[0] != '/' {
      NoDoubleDot(token);
      if env.cwd.Some? && env.cwd.value != "" {
        JoinedIsNormalized(env.cwd.value, token);
      }
    }
  }

  lemma NoDoubleDot(token: string)
    ensures Find(token, "..", 0).None? <==>
            forall i | 0 <= i < |token| - 1 :: !(token[i] == '.' && token[i + 1] == '.')
  {
    NoPair(token, '.');
  }

  lemma NoPair(s: string, c: char)
    ensures Find(s, [c, c], 0).None? <==> forall i | 0 <= i < |s| - 1 :: !(s[i] == c && s[i + 1] == c)
  {
    FindIsFirst(s, [c, c], 0);
    forall i | 0 <= i < |s| - 1 ensures HasAt(s, i, [c, c]) <==> s[i] == c && s[i + 1] == c {
      assert s[i..i + 2] == [s[i], s[i + 1]];
    }
    if Find(s, [c, c], 0).Some? {
      var p := Find(s, [c, c], 0).value;
      assert HasAt(s, p, [c, c]) && s[p] == c && s[p + 1] == c;
    }
  }

  lemma JoinedIsNormalized(cwd: string, token: string)
    requires cwd != "" && token != ""
    ensures match Normalize(cwd + "/" + token)
            case Ok(root) => && cwd[0] == '/'
                             && Walk([], Segments(cwd) + Segments(token)) == Some(Segments(root))
                             && root == Rebuild(Segments(root), token[|token| - 1] == '/')
            case Err(_) => cwd[0] != '/' || Walk([], Segments(cwd) + Segments(token)).None?
  {
    hide Segments, Walk, Rebuild, Clean;
    var path := cwd + "/" + token;
    SegmentsOfJoin(cwd, token);
    assert path != "" && path[0] == cwd[0];
    assert EndsInSlash(path) == (token[|token| - 1] == '/') by {
      assert path[|path| - 1] == token[|token| - 1];
    }
    if Normalize(path).Ok? {
      NormalFormsAreCanonical(path);
    }
  }

  // ---------- what the values mean ----------

  /** `cgi on;` switches CGI on, `cgi off;` leaves it off, and nothing else is a value of it. */
  lemma CgiIsSwitched(token: string, rest: seq<string>, loc: Location, env: Env)
    requires token != "" && CgiSwitch !in loc.settings
    ensures match LocationDirective(CgiSwitch, [token, ";"] + rest, loc, env)
            case Fail => token != "on" && token != "off"
            case Done(next, _) => && (token == "on" || token == "off")
                                  && (next.GetCgiEnabled() <==> token == "on")
                                  && next.GetRoot() == loc.GetRoot() && next.GetIndex() == loc.GetIndex()
  {
    if token == "on" || token == "off" {
      SettingComplete(CgiSwitch, token, rest, loc.settings, env);
    }
  }

  /** A directive with a value that stands in a location keeps everything else; root, index and
      redirect are what the getters return. */
  lemma GettersReturnWhatIsSet(kind: TokenType, token: string, rest: seq<string>, loc: Location, env: Env)
    requires kind in {Root, AutoIndex, Index, UploadPath, Redirect} && token != "" && kind !in loc.settings
    requires ValueOf(kind, token, env).Some?
    ensures var value := ValueOf(kind, token, env).value;
            match LocationDirective(kind, [token, ";"] + rest, loc, env)
            case Fail => false
            case Done(next, left) =>
              && left == rest && next == loc.(settings := loc.settings[kind := value])
              && next.GetRoot() == (if kind == Root then value else loc.GetRoot())
              && next.GetIndex() == (if kind == Index then value else loc.GetIndex())
              && (next.HasRedirect() <==> kind == Redirect || loc.HasRedirect())
  {
    hide ValueOf;
    SettingComplete(kind, token, rest, loc.settings, env);
  }

  /** A directive with a value that stands in a server block. */
  lemma OptionIsStored(kind: TokenType, token: string, rest: seq<string>, server: Server, env: Env)
    requires kind in {Listen, ServerName, MaxBody} && token != "" && kind !in server.settings
    requires ValueOf(kind, token, env).Some?
    ensures ServerDirective(kind, [token, ";"] + rest, server, env)
         == Done(server.(settings := server.settings[kind := ValueOf(kind, token, env).value]), rest)
  {
    hide ValueOf;
    SettingComplete(kind, token, rest, server.settings, env);
  }

  /** Each directive has its block, and stands there only. */
  lemma DirectivesHaveTheirBlock(kind: TokenType, tokens: seq<string>, loc: Location, server: Server, env: Env)
    ensures LocationDirective(kind, tokens, loc, env).Done? ==>
              kind in {AllowedMethods, Root, AutoIndex, Index, UploadPath, Redirect, CgiSwitch, CgiAllowedExtensions}
    ensures ServerDirective(kind, tokens, server, env).Done? ==>
              kind in {Listen, ServerName, MaxBody, ErrorPage, LocationBlock}
  {
    hide ValueOf, MethodsClause, ExtensionsClause, LocationClause, PageClause, SettingClause;
  }

  /** What an error_page line stores: the code, and the page made absolute unless it is a URL. */
  lemma ErrorPageIsStored(n: nat, tail: string, page: string, rest: seq<string>, pages: map<nat, string>)
    requires n <= 0x7FFF_FFFF && (tail == "" || !RequestHead.IsDigit(tail[0])) && page != ""
    ensures PageClause([HttpResponses.Digits(n) + tail, page, ";"] + rest, pages)
         == if n < 400 || n > 599 || page[0] == '.' then Fail
            else
              var isUrl := (|page| >= 7 && page[..7] == "http://") || (|page| >= 8 && page[..8] == "https://");
              Done(pages[n := if isUrl || page[0] == '/' then page else "/" + page], rest)
  {
    hide CodeOf, Atoi;
    var code := HttpResponses.Digits(n) + tail;
    NumberIsReadByAtoi(n, tail);
    HttpResponses.DigitsAreDigits(n);
    if 400 <= n <= 599 && page[0] != '.' {
      PageComplete(code, page, rest, pages);
    }
  }

  /** A location name is rooted and has neither ".." nor "//" anywhere. */
  lemma LocationNamesExactly(name: string)
    ensures IsValidLocationName(name) <==>
            && name != "" && name[0] == '/'
            && forall i | 0 <= i < |name| - 1 ::
                 !(name[i] == '.' && name[i + 1] == '.') && !(name[i] == '/' && name[i + 1] == '/')
  {
    NoPair(name, '.');
    NoPair(name, '/');
  }

  /** `b` is `a` with nothing but slashes behind it. */
  predicate OnlySlashesBehind(a: string, b: string) {
    a <= b && forall i | |a| <= i < |b| :: b[i] == '/'
  }

  lemma {:induction false} TrimmedIsSlashesLess(s: string)
    ensures OnlySlashesBehind(Trim(s), s)
    decreases |s|
  {
    if |s| > 1 && s[|s| - 1] == '/' {
      TrimmedIsSlashesLess(s[..|s| - 1]);
    }
  }

  lemma {:induction false} SlashesAreTrimmed(a: string, b: string)
    requires a != "" && OnlySlashesBehind(a, b)
    ensures Trim(a) == Trim(b)
    decreases |b|
  {
    if |a| == |b| {
      assert a == b;
    } else {
      assert b[|b| - 1] == '/';
      SlashesAreTrimmed(a, b[..|b| - 1]);
    }
  }

  lemma TrimmedAlike(a: string, b: string)
    requires a != "" && b != ""
    ensures Trim(a) == Trim(b) <==> OnlySlashesBehind(a, b) || OnlySlashesBehind(b, a)
  {
    TrimmedIsSlashesLess(a);
    TrimmedIsSlashesLess(b);
    if OnlySlashesBehind(a, b) {
      SlashesAreTrimmed(a, b);
    } else if OnlySlashesBehind(b, a) {
      SlashesAreTrimmed(b, a);
    }
  }

  /** A location is refused exactly if one is there already whose name differs from its own in slashes
      at the end at most. */
  lemma NewLocationsExactly(locations: seq<Location>, loc: Location)
    requires loc.name != "" && forall i | 0 <= i < |locations| :: locations[i].name != ""
    ensures IsNewLocation(locations, loc) <==>
            forall i | 0 <= i < |locations| ::
              !OnlySlashesBehind(locations[i].name, loc.name) && !OnlySlashesBehind(loc.name, locations[i].name)
  {
    hide Trim, OnlySlashesBehind;
    forall i | 0 <= i < |locations|
      ensures Key(locations[i]) == Key(loc) <==>
              OnlySlashesBehind(locations[i].name, loc.name) || OnlySlashesBehind(loc.name, locations[i].name)
    {
      TrimmedAlike(locations[i].name, loc.name);
    }
  }
}
