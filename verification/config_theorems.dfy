/** The configuration parser accepts exactly the layouts of its grammar, with their meaning. */
module ConfigTheorems {
  import opened Text
  import opened Tokenizer
  import opened ServerConfigs
  import opened ConfigGrammar
  import RequestHead
  import HttpResponses

  // ---------- the grammar ----------

  function Keyword(kind: TokenType): string {
    match kind
    case UnknownToken => ""
    case Listen => "listen"
    case ServerName => "server_name"
    case MaxBody => "client_max_body_size"
    case ErrorPage => "error_page"
    case LocationBlock => "location"
    case AllowedMethods => "allowed_methods"
    case Root => "root"
    case AutoIndex => "autoindex"
    case Index => "index"
    case UploadPath => "upload_path"
    case Redirect => "redirect"
    case CgiSwitch => "cgi"
    case CgiAllowedExtensions => "cgi_allowed_extensions"
  }

  /** The directives of a location block. */
  datatype LocationItem =
    | MethodsItem(words: seq<string>)
    | ExtensionsItem(words: seq<string>)
    | SettingItem(kind: TokenType, token: string)

  /** The directives of a server block. */
  datatype ServerItem =
    | OptionItem(kind: TokenType, token: string)
    | PageItem(code: string, page: string)
    | BlockItem(name: string, items: seq<LocationItem>)

  function PrintLocationItem(item: LocationItem): seq<string> {
    match item
    case MethodsItem(words) => [Keyword(AllowedMethods)] + words + [";"]
    case ExtensionsItem(words) => [Keyword(CgiAllowedExtensions)] + words + [";"]
    case SettingItem(kind, token) => [Keyword(kind), token, ";"]
  }

  function PrintLocationItems(items: seq<LocationItem>): seq<string> {
    if items == [] then ["}"] else PrintLocationItem(items[0]) + PrintLocationItems(items[1..])
  }

  function PrintServerItem(item: ServerItem): seq<string> {
    match item
    case OptionItem(kind, token) => [Keyword(kind), token, ";"]
    case PageItem(code, page) => [Keyword(ErrorPage), code, page, ";"]
    case BlockItem(name, items) => [Keyword(LocationBlock), name, "{"] + PrintLocationItems(items)
  }

  function PrintServerItems(items: seq<ServerItem>): seq<string> {
    if items == [] then ["}"] else PrintServerItem(items[0]) + PrintServerItems(items[1..])
  }

  function PrintFile(blocks: seq<seq<ServerItem>>): seq<string> {
    if blocks == [] then [] else ["server", "{"] + PrintServerItems(blocks[0]) + PrintFile(blocks[1..])
  }

  // ---------- what the directives mean ----------

  /** A word names the method whose token in a request it is. */
  predicate StandsFor(word: string, m: RequestHead.Method) {
    (m.Get? || m.Post? || m.Delete?) && word + " " == RequestHead.Token(m)
  }

  predicate IsMethodWord(word: string) {
    exists m :: StandsFor(word, m)
  }

  predicate AllMethods(words: seq<string>) {
    forall i | 0 <= i < |words| :: IsMethodWord(words[i])
  }

  ghost predicate IsNamed(words: seq<string>, m: RequestHead.Method) {
    exists i :: 0 <= i < |words| && StandsFor(words[i], m)
  }

  /** The methods that the words name. */
  ghost function MethodSet(words: seq<string>): set<RequestHead.Method> {
    set m: RequestHead.Method | IsNamed(words, m)
  }

  /** A word of the list is taken for a method exactly if it names it. */
  lemma MethodWords(word: string, m: RequestHead.Method)
    ensures MethodOf(word) == Some(m) <==> StandsFor(word, m)
    ensures MethodOf(word).Some? <==> IsMethodWord(word)
  {
    assert "GET" + " " == RequestHead.Token(RequestHead.Get);
    assert "POST" + " " == RequestHead.Token(RequestHead.Post);
    assert "DELETE" + " " == RequestHead.Token(RequestHead.Delete);
    forall a: string, b: string | a + " " == b + " " ensures a == b {
      assert a == (a + " ")[..|a + " "| - 1];
    }
    if MethodOf(word).Some? {
      assert StandsFor(word, MethodOf(word).value);
    }
  }

  predicate AllExtensions(words: seq<string>) {
    forall i | 0 <= i < |words| :: words[i] != "" && words[i] != ";"
  }

  /** A list directive stands at most once and is not empty; every other directive of a location
      stands at most once. */
  ghost function ApplyToLocation(item: LocationItem, loc: Location, env: Env): Option<Location> {
    match item
    case MethodsItem(words) =>
      if loc.hasMethods || words == [] || !AllMethods(words) then None
      else Some(loc.(methods := loc.methods + MethodSet(words), hasMethods := true))
    case ExtensionsItem(words) =>
      if loc.hasExtensions || words == [] || !AllExtensions(words) then None
      else Some(loc.(extensions := loc.extensions + words, hasExtensions := true))
    case SettingItem(kind, token) =>
      if !IsLocationSetting(kind) || kind in loc.settings || token == "" then None
      else match ValueOf(kind, token, env)
           case None => None
           case Some(value) => Some(loc.(settings := loc.settings[kind := value]))
  }

  ghost function LocationMeaning(items: seq<LocationItem>, loc: Location, env: Env): Option<Location>
    decreases |items|
  {
    if items == [] then Some(loc)
    else match ApplyToLocation(items[0], loc, env)
         case None => None
         case Some(next) => LocationMeaning(items[1..], next, env)
  }

  ghost function ApplyToServer(item: ServerItem, server: Server, env: Env): Option<Server> {
    match item
    case OptionItem(kind, token) =>
      if !IsServerSetting(kind) || kind in server.settings || token == "" then None
      else (match ValueOf(kind, token, env)
            case None => None
            case Some(value) => Some(server.(settings := server.settings[kind := value])))
    case PageItem(code, page) =>
      if code == "" || CodeOf(code).None? || page == "" || page[0] == '.' then None
      else Some(server.(pages := server.pages[CodeOf(code).value := PageOf(page)]))
    case BlockItem(name, items) =>
      if !IsValidLocationName(name) then None
      else (match LocationMeaning(items, DEFAULT_LOCATION.(name := name), env)
            case None => None
            case Some(loc) =>
              if IsNewLocation(server.locations, loc)
              then Some(server.(locations := server.locations + [loc])) else None)
  }

  ghost function ServerMeaning(items: seq<ServerItem>, server: Server, env: Env): Option<Server>
    decreases |items|
  {
    if items == [] then Some(server)
    else match ApplyToServer(items[0], server, env)
         case None => None
         case Some(next) => ServerMeaning(items[1..], next, env)
  }

  ghost function FileMeaning(blocks: seq<seq<ServerItem>>, env: Env): Option<seq<Server>> {
    if blocks == [] then Some([])
    else match ServerMeaning(blocks[0], DEFAULT_SERVER, env)
         case None => None
         case Some(server) =>
           match FileMeaning(blocks[1..], env)
           case None => None
           case Some(servers) => Some([server] + servers)
  }

  // ---------- numbers ----------

  lemma {:induction false} LeadingDigitsOf(digits: string, rest: string)
    requires RequestHead.AllDigits(digits) && (rest == "" || !RequestHead.IsDigit(rest[0]))
    ensures LeadingDigits(digits + rest) == digits
  {
    if digits == "" {
      assert "" + rest == rest;
    } else {
      assert (digits + rest)[1..] == digits[1..] + rest;
      LeadingDigitsOf(digits[1..], rest);
    }
  }

  /** A number is read up to the first character that is no digit; beyond the range of int it is
      cut to 32 bits. So error_page accepts exactly the numbers 400 to 599, with anything behind
      them, as far as numbers within that range go. */
  lemma NumberIsReadByAtoi(n: nat, rest: string)
    requires rest == "" || !RequestHead.IsDigit(rest[0])
    ensures Atoi(HttpResponses.Digits(n) + rest) == ToInt(n)
    ensures n <= 0x7FFF_FFFF ==> ToInt(n) == n
    ensures n <= 0x7FFF_FFFF ==>
              CodeOf(HttpResponses.Digits(n) + rest) == if 400 <= n <= 599 then Some(n) else None
  {
    hide ToInt;
    var digits := HttpResponses.Digits(n);
    HttpResponses.DigitsAreDigits(n);
    HttpResponses.DigitsReadBack(n);
    LeadingDigitsOf(digits, rest);
    var t := digits + rest;
    assert t[0] == digits[0] && RequestHead.IsDigit(t[0]) && RequestHead.SkipSpaces(t) == t;
    SmallIsInt(n);
  }

  lemma SmallIsInt(n: nat)
    ensures n <= 0x7FFF_FFFF ==> ToInt(n) == n
  {}

  // ---------- the parser accepts exactly the grammar ----------

  predicate NoEmptyToken(tokens: seq<string>) {
    forall i | 0 <= i < |tokens| :: tokens[i] != ""
  }

  lemma KeywordIsRead(kind: TokenType)
    ensures ToTokenType(Keyword(kind)) == kind
  {
    match kind {
      case Listen | ServerName | MaxBody | ErrorPage | LocationBlock =>
      case AllowedMethods | Root | AutoIndex | Index =>
      case UploadPath | Redirect | CgiSwitch | CgiAllowedExtensions | UnknownToken =>
    }
  }

  lemma KeywordIsWritten(t: string)
    requires ToTokenType(t) != UnknownToken
    ensures t == Keyword(ToTokenType(t))
  {}

  lemma {:induction false} MethodsLoopComplete(words: seq<string>, rest: seq<string>, loc: Location, isEmpty: bool)
    requires AllMethods(words) && (isEmpty ==> words != [])
    ensures MethodsLoop(words + [";"] + rest, loc, isEmpty)
         == Done(loc.(methods := loc.methods + MethodSet(words), hasMethods := true), rest)
    decreases |words|
  {
    hide MethodOf, StandsFor, MethodSet;
    var tokens := words + [";"] + rest;
    if words == [] {
      assert Tail(tokens) == rest;
      NoWordsNameNothing();
      assert loc.methods + MethodSet(words) == loc.methods;
    } else {
      MethodWords(words[0], RequestHead.Get);
      SemicolonIsNoMethod();
      var m := MethodOf(words[0]).value;
      assert Tail(tokens) == words[1..] + [";"] + rest;
      MethodsLoopComplete(words[1..], rest, loc.(methods := loc.methods + {m}), false);
      MethodSetSplits(words, m);
      assert loc.methods + {m} + MethodSet(words[1..]) == loc.methods + MethodSet(words);
    }
  }

  lemma NoWordsNameNothing()
    ensures MethodSet([]) == {}
  {}

  lemma SemicolonIsNoMethod()
    ensures MethodOf(";").None?
  {}

  lemma MethodSetSplits(words: seq<string>, m: RequestHead.Method)
    requires words != [] && MethodOf(words[0]) == Some(m)
    ensures MethodSet(words) == {m} + MethodSet(words[1..])
  {
    hide MethodOf, StandsFor;
    forall x ensures IsNamed(words, x) <==> x == m || IsNamed(words[1..], x) {
      MethodWords(words[0], x);
      if IsNamed(words, x) {
        var i :| 0 <= i < |words| && StandsFor(words[i], x);
        assert i > 0 ==> words[1..][i - 1] == words[i];
      }
      if IsNamed(words[1..], x) {
        var i :| 0 <= i < |words[1..]| && StandsFor(words[1..][i], x);
        assert words[i + 1] == words[1..][i];
      }
      if x == m {
        assert StandsFor(words[0], x);
      }
    }
  }

  lemma ListIsLonger(tokens: seq<string>, words: seq<string>, rest: seq<string>)
    requires tokens != [] && Tail(tokens) == words + [";"] + rest
    ensures tokens == [Head(tokens)] + words + [";"] + rest
  {
    assert tokens == [tokens[0]] + (words + [";"] + rest);
  }

  lemma ListEnds(tokens: seq<string>)
    requires Head(tokens) == ";"
    ensures tokens == [] + [";"] + Tail(tokens)
  {}

  lemma {:induction false} MethodsLoopSound(tokens: seq<string>, loc: Location, isEmpty: bool)
    returns (words: seq<string>)
    requires MethodsLoop(tokens, loc, isEmpty).Done?
    ensures AllMethods(words) && (isEmpty ==> words != [])
    ensures tokens == words + [";"] + MethodsLoop(tokens, loc, isEmpty).rest
    decreases |tokens|
  {
    if Head(tokens) == ";" {
      words := [];
      ListEnds(tokens);
    } else {
      assert tokens != [];
      MethodWords(Head(tokens), RequestHead.Get);
      var next := loc.(methods := loc.methods + {MethodOf(Head(tokens)).value});
      var more := MethodsLoopSound(Tail(tokens), next, false);
      words := [Head(tokens)] + more;
      hide Head, Tail;
      ListIsLonger(tokens, more, MethodsLoop(tokens, loc, isEmpty).rest);
    }
  }

  lemma {:induction false} ExtensionsLoopComplete(words: seq<string>, rest: seq<string>, loc: Location)
    requires AllExtensions(words)
    ensures ExtensionsLoop(words + [";"] + rest, loc)
         == Done(loc.(extensions := loc.extensions + words, hasExtensions := true), rest)
    decreases |words|
  {
    var tokens := words + [";"] + rest;
    if words == [] {
      assert Tail(tokens) == rest;
      assert loc.extensions + words == loc.extensions;
    } else {
      assert Tail(tokens) == words[1..] + [";"] + rest;
      ExtensionsLoopComplete(words[1..], rest, loc.(extensions := loc.extensions + [words[0]]));
      assert loc.extensions + [words[0]] + words[1..] == loc.extensions + words;
    }
  }

  lemma {:induction false} ExtensionsLoopSound(tokens: seq<string>, loc: Location) returns (words: seq<string>)
    requires NoEmptyToken(tokens) && ExtensionsLoop(tokens, loc).rest != []
    ensures AllExtensions(words) && tokens == words + [";"] + ExtensionsLoop(tokens, loc).rest
    decreases |tokens|
  {
    if tokens == [] || Head(tokens) == ";" {
      words := [];
      ListEnds(tokens);
    } else {
      var next := loc.(extensions := loc.extensions + [Head(tokens)]);
      NoEmptySuffix(tokens, 1);
      var more := ExtensionsLoopSound(Tail(tokens), next);
      words := [Head(tokens)] + more;
      assert Head(tokens) != "";
      hide Head, Tail;
      ListIsLonger(tokens, more, ExtensionsLoop(tokens, loc).rest);
    }
  }

  function KindOf(item: LocationItem): TokenType {
    match item
    case MethodsItem(_) => AllowedMethods
    case ExtensionsItem(_) => CgiAllowedExtensions
    case SettingItem(kind, _) => kind
  }

  lemma ListTokens(keyword: string, words: seq<string>, rest: seq<string>)
    ensures ([keyword] + words + [";"])[1..] + rest == words + [";"] + rest
    ensures words != [] ==> Head(words + [";"] + rest) == words[0]
  {}

  lemma SettingComplete(kind: TokenType, token: string, rest: seq<string>, settings: map<TokenType, string>, env: Env)
    requires token != "" && ValueOf(kind, token, env).Some? && kind !in settings
    ensures SettingClause(kind, [token, ";"] + rest, settings, env)
         == Done(settings[kind := ValueOf(kind, token, env).value], rest)
  {
    hide ValueOf;
    var tokens := [token, ";"] + rest;
    assert Tail(Tail(tokens)) == rest;
  }

  lemma LocationDirectiveComplete(item: LocationItem, rest: seq<string>, loc: Location, env: Env)
    requires ApplyToLocation(item, loc, env).Some?
    ensures KindOf(item) != UnknownToken
    ensures LocationDirective(KindOf(item), PrintLocationItem(item)[1..] + rest, loc, env)
         == Done(ApplyToLocation(item, loc, env).value, rest)
  {
    hide MethodsLoop, ExtensionsLoop, SettingClause, Keyword, MethodSet, ValueOf, MethodOf, Head;
    match item
    case MethodsItem(words) =>
      ListTokens(Keyword(AllowedMethods), words, rest);
      MethodsLoopComplete(words, rest, loc, true);
    case ExtensionsItem(words) =>
      ListTokens(Keyword(CgiAllowedExtensions), words, rest);
      ExtensionsLoopComplete(words, rest, loc);
    case SettingItem(kind, token) =>
      assert [Keyword(kind), token, ";"][1..] + rest == [token, ";"] + rest;
      SettingComplete(kind, token, rest, loc.settings, env);
  }

  lemma MethodsAreListed(tokens: seq<string>, loc: Location, env: Env) returns (item: LocationItem)
    requires MethodsClause(tokens, loc).Done?
    ensures KindOf(item) == AllowedMethods
    ensures var d := MethodsClause(tokens, loc);
            ApplyToLocation(item, loc, env) == Some(d.value)
            && [Keyword(AllowedMethods)] + tokens == PrintLocationItem(item) + d.rest
  {
    hide MethodsLoop, Keyword, MethodSet;
    var rest := MethodsClause(tokens, loc).rest;
    var words := MethodsLoopSound(tokens, loc, true);
    MethodsLoopComplete(words, rest, loc, true);
    item := MethodsItem(words);
    assert [Keyword(AllowedMethods)] + (words + [";"] + rest) == [Keyword(AllowedMethods)] + words + [";"] + rest;
  }

  lemma ExtensionsAreListed(tokens: seq<string>, loc: Location, env: Env) returns (item: LocationItem)
    requires NoEmptyToken(tokens) && ExtensionsClause(tokens, loc).Done? && ExtensionsClause(tokens, loc).rest != []
    ensures KindOf(item) == CgiAllowedExtensions
    ensures var d := ExtensionsClause(tokens, loc);
            ApplyToLocation(item, loc, env) == Some(d.value)
            && [Keyword(CgiAllowedExtensions)] + tokens == PrintLocationItem(item) + d.rest
  {
    hide ExtensionsLoop, Keyword;
    var k, rest := Keyword(CgiAllowedExtensions), ExtensionsClause(tokens, loc).rest;
    var words := ExtensionsLoopSound(tokens, loc);
    ExtensionsLoopComplete(words, rest, loc);
    assert words != [];
    item := ExtensionsItem(words);
    assert [k] + (words + [";"] + rest) == [k] + words + [";"] + rest;
  }

  lemma SettingIsPrinted(kind: TokenType, tokens: seq<string>, settings: map<TokenType, string>, env: Env)
    requires SettingClause(kind, tokens, settings, env).Done?
    ensures var d := SettingClause(kind, tokens, settings, env);
            && Head(tokens) != "" && tokens == [Head(tokens), ";"] + d.rest
            && ValueOf(kind, Head(tokens), env).Some? && kind !in settings
            && d.value == settings[kind := ValueOf(kind, Head(tokens), env).value]
  {
    hide ValueOf;
  }

  lemma LocationDirectiveSound(kind: TokenType, tokens: seq<string>, loc: Location, env: Env)
    returns (item: LocationItem)
    requires NoEmptyToken(tokens) && LocationDirective(kind, tokens, loc, env).Done?
    requires LocationDirective(kind, tokens, loc, env).rest != []
    ensures kind == KindOf(item) != UnknownToken
    ensures var d := LocationDirective(kind, tokens, loc, env);
            ApplyToLocation(item, loc, env) == Some(d.value)
            && [Keyword(kind)] + tokens == PrintLocationItem(item) + d.rest
  {
    hide MethodsClause, ExtensionsClause, SettingClause, Keyword, ValueOf, MethodSet;
    if kind == AllowedMethods {
      item := MethodsAreListed(tokens, loc, env);
    } else if kind == CgiAllowedExtensions {
      item := ExtensionsAreListed(tokens, loc, env);
    } else {
      SettingIsPrinted(kind, tokens, loc.settings, env);
      item := SettingItem(kind, Head(tokens));
    }
  }

  lemma {:induction false} LocationLoopComplete(items: seq<LocationItem>, rest: seq<string>, loc: Location, env: Env)
    requires LocationMeaning(items, loc, env).Some?
    ensures LocationLoop(PrintLocationItems(items) + rest, loc, env) == Done(LocationMeaning(items, loc, env).value, rest)
    decreases |items|
  {
    hide Keyword, ToTokenType, LocationDirective, ApplyToLocation, PrintLocationItem;
    var tokens := PrintLocationItems(items) + rest;
    if items == [] {
      assert tokens == ["}"] + rest && Tail(tokens) == rest;
    } else {
      var item, more := items[0], PrintLocationItems(items[1..]) + rest;
      var next := ApplyToLocation(item, loc, env).value;
      LocationDirectiveComplete(item, more, loc, env);
      KeywordComesFirst(item);
      assert tokens == PrintLocationItem(item) + more;
      assert Tail(tokens) == PrintLocationItem(item)[1..] + more;
      KeywordIsRead(KindOf(item));
      KeywordIsNoBrace(KindOf(item));
      LocationLoopComplete(items[1..], rest, next, env);
    }
  }

  lemma KeywordComesFirst(item: LocationItem)
    ensures PrintLocationItem(item) != [] && PrintLocationItem(item)[0] == Keyword(KindOf(item))
  {
    hide Keyword;
  }

  lemma KeywordIsNoBrace(kind: TokenType)
    ensures Keyword(kind) != "}"
  {}

  lemma {:induction false} LocationLoopSound(tokens: seq<string>, loc: Location, env: Env)
    returns (items: seq<LocationItem>)
    requires NoEmptyToken(tokens) && LocationLoop(tokens, loc, env).Done?
    ensures var d := LocationLoop(tokens, loc, env);
            tokens == PrintLocationItems(items) + d.rest && LocationMeaning(items, loc, env) == Some(d.value)
    decreases |tokens|
  {
    hide Keyword, ToTokenType, LocationDirective, ApplyToLocation, PrintLocationItem;
    if Head(tokens) == "}" {
      items := [];
      assert tokens == ["}"] + Tail(tokens);
    } else {
      var kind := ToTokenType(Head(tokens));
      var d := LocationDirective(kind, Tail(tokens), loc, env);
      var item := LocationDirectiveSound(kind, Tail(tokens), loc, env);
      KeywordIsWritten(Head(tokens));
      assert tokens == [Head(tokens)] + Tail(tokens) == PrintLocationItem(item) + d.rest;
      assert NoEmptyToken(d.rest) by {
        forall i | 0 <= i < |d.rest| ensures d.rest[i] != "" {
          assert d.rest[i] == tokens[|PrintLocationItem(item)| + i];
        }
      }
      var more := LocationLoopSound(d.rest, d.value, env);
      items := [item] + more;
      assert items[1..] == more;
    }
  }

  lemma NoEmptySuffix(tokens: seq<string>, k: nat)
    requires NoEmptyToken(tokens) && k <= |tokens|
    ensures NoEmptyToken(tokens[k..])
  {}

  function ServerKindOf(item: ServerItem): TokenType {
    match item
    case OptionItem(kind, _) => kind
    case PageItem(_, _) => ErrorPage
    case BlockItem(_, _) => LocationBlock
  }

  lemma BlockComplete(name: string, items: seq<LocationItem>, rest: seq<string>, env: Env)
    requires IsValidLocationName(name)
    requires LocationMeaning(items, DEFAULT_LOCATION.(name := name), env).Some?
    ensures LocationClause([name, "{"] + PrintLocationItems(items) + rest, env)
         == Done(LocationMeaning(items, DEFAULT_LOCATION.(name := name), env).value, rest)
  {
    hide IsValidLocationName, LocationLoop, LocationMeaning, PrintLocationItems;
    var tokens := [name, "{"] + PrintLocationItems(items) + rest;
    assert Tail(Tail(tokens)) == PrintLocationItems(items) + rest;
    LocationLoopComplete(items, rest, DEFAULT_LOCATION.(name := name), env);
  }

  lemma ValidNameIsNotEmpty(name: string)
    requires IsValidLocationName(name)
    ensures name != ""
  {}

  lemma BlockSound(tokens: seq<string>, env: Env) returns (items: seq<LocationItem>)
    requires NoEmptyToken(tokens) && LocationClause(tokens, env).Done?
    ensures var d := LocationClause(tokens, env);
            && IsValidLocationName(Head(tokens))
            && tokens == [Head(tokens), "{"] + PrintLocationItems(items) + d.rest
            && LocationMeaning(items, DEFAULT_LOCATION.(name := Head(tokens)), env) == Some(d.value)
  {
    hide IsValidLocationName, LocationLoop, LocationMeaning, PrintLocationItems, NoEmptyToken;
    ValidNameIsNotEmpty(Head(tokens));
    TwoTokens(tokens);
    NoEmptySuffix(tokens, 2);
    items := LocationLoopSound(tokens[2..], DEFAULT_LOCATION.(name := Head(tokens)), env);
    assert [Head(tokens), "{"] + (PrintLocationItems(items) + LocationClause(tokens, env).rest)
        == [Head(tokens), "{"] + PrintLocationItems(items) + LocationClause(tokens, env).rest;
  }

  lemma TwoTokens(tokens: seq<string>)
    requires Head(Tail(tokens)) != ""
    ensures |tokens| >= 2 && tokens == [Head(tokens), Head(Tail(tokens))] + tokens[2..]
    ensures Tail(Tail(tokens)) == tokens[2..]
  {}

  lemma PageComplete(code: string, page: string, rest: seq<string>, pages: map<nat, string>)
    requires code != "" && CodeOf(code).Some? && page != "" && page[0] != '.'
    ensures PageClause([code, page, ";"] + rest, pages) == Done(pages[CodeOf(code).value := PageOf(page)], rest)
  {
    hide CodeOf, PageOf;
    var tokens := [code, page, ";"] + rest;
    assert Tail(Tail(Tail(tokens))) == rest;
  }

  lemma ServerDirectiveComplete(item: ServerItem, rest: seq<string>, server: Server, env: Env)
    requires ApplyToServer(item, server, env).Some?
    ensures ServerDirective(ServerKindOf(item), PrintServerItem(item)[1..] + rest, server, env)
         == Done(ApplyToServer(item, server, env).value, rest)
  {
    hide Keyword, LocationClause, LocationMeaning, ValueOf, PageOf, PrintLocationItems, IsNewLocation, CodeOf,
         SettingClause, PageClause;
    match item
    case OptionItem(kind, token) =>
      assert PrintServerItem(item)[1..] == [token, ";"];
      SettingComplete(kind, token, rest, server.settings, env);
    case PageItem(code, page) =>
      assert PrintServerItem(item)[1..] == [code, page, ";"];
      PageComplete(code, page, rest, server.pages);
    case BlockItem(name, items) =>
      assert PrintServerItem(item)[1..] == [name, "{"] + PrintLocationItems(items);
      BlockComplete(name, items, rest, env);
  }

  lemma PageIsPrinted(tokens: seq<string>, pages: map<nat, string>)
    requires PageClause(tokens, pages).Done?
    ensures tokens == [Head(tokens), Head(Tail(tokens)), ";"] + PageClause(tokens, pages).rest
  {}

  lemma ServerDirectiveSound(kind: TokenType, tokens: seq<string>, server: Server, env: Env) returns (item: ServerItem)
    requires NoEmptyToken(tokens) && ServerDirective(kind, tokens, server, env).Done?
    ensures kind == ServerKindOf(item) != UnknownToken
    ensures var d := ServerDirective(kind, tokens, server, env);
            ApplyToServer(item, server, env) == Some(d.value)
            && [Keyword(kind)] + tokens == PrintServerItem(item) + d.rest
  {
    hide Keyword, LocationClause, LocationMeaning, ValueOf, PageOf, PrintLocationItems, SettingClause, IsNewLocation, CodeOf;
    if IsServerSetting(kind) {
      SettingIsPrinted(kind, tokens, server.settings, env);
      item := OptionItem(kind, Head(tokens));
    } else if kind == ErrorPage {
      PageIsPrinted(tokens, server.pages);
      item := PageItem(Head(tokens), Head(Tail(tokens)));
    } else {
      var items := BlockSound(tokens, env);
      item := BlockItem(Head(tokens), items);
      var k, rest := Keyword(LocationBlock), LocationClause(tokens, env).rest;
      assert [k] + ([Head(tokens), "{"] + PrintLocationItems(items) + rest)
          == [k, Head(tokens), "{"] + PrintLocationItems(items) + rest;
    }
  }

  lemma ServerKeywordComesFirst(item: ServerItem)
    ensures PrintServerItem(item) != [] && PrintServerItem(item)[0] == Keyword(ServerKindOf(item))
  {
    hide Keyword, PrintLocationItems;
  }

  lemma {:induction false} ServerLoopComplete(items: seq<ServerItem>, rest: seq<string>, server: Server, env: Env)
    requires ServerMeaning(items, server, env).Some?
    ensures ServerLoop(PrintServerItems(items) + rest, server, env) == Done(ServerMeaning(items, server, env).value, rest)
    decreases |items|
  {
    hide Keyword, ToTokenType, ServerDirective, ApplyToServer, PrintServerItem;
    var tokens := PrintServerItems(items) + rest;
    if items == [] {
      assert tokens == ["}"] + rest && Tail(tokens) == rest;
    } else {
      var item, more := items[0], PrintServerItems(items[1..]) + rest;
      var next := ApplyToServer(item, server, env).value;
      ServerDirectiveComplete(item, more, server, env);
      ServerKeywordComesFirst(item);
      assert tokens == PrintServerItem(item) + more;
      assert Tail(tokens) == PrintServerItem(item)[1..] + more;
      KeywordIsRead(ServerKindOf(item));
      KeywordIsNoBrace(ServerKindOf(item));
      ServerLoopComplete(items[1..], rest, next, env);
    }
  }

  lemma {:induction false} ServerLoopSound(tokens: seq<string>, server: Server, env: Env)
    returns (items: seq<ServerItem>)
    requires NoEmptyToken(tokens) && ServerLoop(tokens, server, env).Done?
    ensures var d := ServerLoop(tokens, server, env);
            tokens == PrintServerItems(items) + d.rest && ServerMeaning(items, server, env) == Some(d.value)
    decreases |tokens|
  {
    hide Keyword, ToTokenType, ServerDirective, ApplyToServer, PrintServerItem;
    if Head(tokens) == "}" {
      items := [];
      assert tokens == ["}"] + Tail(tokens);
    } else {
      var kind := ToTokenType(Head(tokens));
      var d := ServerDirective(kind, Tail(tokens), server, env);
      var item := ServerDirectiveSound(kind, Tail(tokens), server, env);
      KeywordIsWritten(Head(tokens));
      assert tokens == [Head(tokens)] + Tail(tokens) == PrintServerItem(item) + d.rest;
      assert d.rest == tokens[|PrintServerItem(item)|..];
      NoEmptySuffix(tokens, |PrintServerItem(item)|);
      var more := ServerLoopSound(d.rest, d.value, env);
      items := [item] + more;
      assert items[1..] == more;
    }
  }

  lemma {:induction false} FileComplete(blocks: seq<seq<ServerItem>>, before: seq<Server>, env: Env)
    requires FileMeaning(blocks, env).Some?
    ensures ParseFile(PrintFile(blocks), before, env) == Some(before + FileMeaning(blocks, env).value)
    decreases |blocks|
  {
    hide PrintServerItems, ServerMeaning, ServerLoop;
    var tokens := PrintFile(blocks);
    if blocks == [] {
      assert before + [] == before;
    } else {
      var more := PrintFile(blocks[1..]);
      var server := ServerMeaning(blocks[0], DEFAULT_SERVER, env).value;
      assert Tail(Tail(tokens)) == PrintServerItems(blocks[0]) + more;
      ServerLoopComplete(blocks[0], more, DEFAULT_SERVER, env);
      FileComplete(blocks[1..], before + [server], env);
      var servers := FileMeaning(blocks[1..], env).value;
      assert before + ([server] + servers) == before + [server] + servers;
    }
  }

  lemma ServerSound(tokens: seq<string>, env: Env) returns (items: seq<ServerItem>)
    requires NoEmptyToken(tokens) && ServerClause(tokens, env).Done?
    ensures var d := ServerClause(tokens, env);
            && tokens == ["{"] + PrintServerItems(items) + d.rest && NoEmptyToken(d.rest)
            && ServerMeaning(items, DEFAULT_SERVER, env) == Some(d.value)
  {
    hide PrintServerItems, ServerMeaning, ServerLoop;
    NoEmptySuffix(tokens, 1);
    items := ServerLoopSound(Tail(tokens), DEFAULT_SERVER, env);
    var rest := ServerClause(tokens, env).rest;
    assert tokens == ["{"] + Tail(tokens) == ["{"] + PrintServerItems(items) + rest;
    assert rest == tokens[|tokens| - |rest|..];
    NoEmptySuffix(tokens, |tokens| - |rest|);
  }

  lemma {:induction false} FileSound(tokens: seq<string>, before: seq<Server>, env: Env)
    returns (blocks: seq<seq<ServerItem>>)
    requires NoEmptyToken(tokens) && ParseFile(tokens, before, env).Some?
    ensures tokens == PrintFile(blocks) && FileMeaning(blocks, env).Some?
    decreases |tokens|
  {
    hide PrintServerItems, ServerMeaning, ServerClause, NoEmptyToken, PrintFile, ParseFile;
    if tokens == [] {
      blocks := [];
      NothingIsPrinted();
    } else {
      FileStep(tokens, before, env);
      var items := ServerSound(Tail(tokens), env);
      var d := ServerClause(Tail(tokens), env);
      var more := FileSound(d.rest, before + [d.value], env);
      blocks := [items] + more;
      BlockIsPrinted(items, more);
      assert blocks[0] == items && blocks[1..] == more;
    }
  }

  lemma NothingIsPrinted()
    ensures PrintFile([]) == []
  {}

  /** An accepted file starts with a server block, and goes on as an accepted file. */
  lemma FileStep(tokens: seq<string>, before: seq<Server>, env: Env)
    requires NoEmptyToken(tokens) && tokens != [] && ParseFile(tokens, before, env).Some?
    ensures NoEmptyToken(Tail(tokens)) && tokens == ["server"] + Tail(tokens)
    ensures var d := ServerClause(Tail(tokens), env);
            d.Done? && |d.rest| < |tokens| && ParseFile(d.rest, before + [d.value], env).Some?
  {
    hide ServerClause;
    NoEmptySuffix(tokens, 1);
    assert tokens[0] != "";
  }

  lemma BlockIsPrinted(items: seq<ServerItem>, more: seq<seq<ServerItem>>)
    ensures PrintFile([items] + more) == ["server"] + (["{"] + PrintServerItems(items) + PrintFile(more))
  {
    hide PrintServerItems;
    assert ([items] + more)[1..] == more;
  }

  /** The text of a file is accepted, with these servers, exactly when it is some layout of a
      list of server blocks that has these servers as its meaning. */
  lemma AcceptsExactlyTheGrammar(content: string, servers: seq<Server>, env: Env)
    ensures ParseFile(Tokens(content, 0), [], env) == Some(servers) <==>
            exists blocks :: IsLayout(content, PrintFile(blocks)) && FileMeaning(blocks, env) == Some(servers)
  {
    hide ParseFile, FileMeaning, PrintFile, Tokens, IsLayout;
    var tokens := Tokens(content, 0);
    if ParseFile(tokens, [], env) == Some(servers) {
      TokensAreNotEmpty(content, 0);
      assert NoEmptyToken(tokens) by {
        assert forall i | 0 <= i < |tokens| :: tokens[i] in tokens;
      }
      var blocks := FileSound(tokens, [], env);
      TokensIgnoreLayout(content, PrintFile(blocks));
      FileComplete(blocks, [], env);
      assert [] + FileMeaning(blocks, env).value == FileMeaning(blocks, env).value;
    }
    forall blocks | IsLayout(content, PrintFile(blocks)) && FileMeaning(blocks, env) == Some(servers)
      ensures ParseFile(tokens, [], env) == Some(servers)
    {
      TokensIgnoreLayout(content, PrintFile(blocks));
      FileComplete(blocks, [], env);
      assert [] + servers == servers;
    }
  }
}
