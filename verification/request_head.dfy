/** The request head: the five cursor functions of HttpRequest as functions from a position to
    a position, the text they accept, and their agreement with FindEndOfHeader. */
module RequestHead {
  import opened Text
  import opened Scanner

  const MAX_PAYLOAD_SIZE: nat := 1048576
  const DEFAULT_PORT: nat := 8080

  datatype Method = Unknown | Get | Head | Post | Delete

  /** The fields of HttpRequest that the head determines. */
  datatype Fields = Fields(verb: Method, uri: string, query: string, version: string,
                           headers: map<string, string>, hostName: string, hostPort: nat,
                           contentLength: int, keepAlive: bool)

  // ---------- the request line ----------

  function Token(verb: Method): string {
    match verb
    case Unknown => ""
    case Get => "GET "
    case Head => "HEAD "
    case Post => "POST "
    case Delete => "DELETE "
  }

  /** ConsumeMethod; Unknown stands for the thrown 501. */
  function ConsumeMethod(s: string): Method {
    if HasAt(s, 0, Token(Get)) then Get
    else if HasAt(s, 0, Token(Head)) then Head
    else if HasAt(s, 0, Token(Post)) then Post
    else if HasAt(s, 0, Token(Delete)) then Delete
    else Unknown
  }

  datatype Target = Target(path: string, query: string, next: nat)

  /** ConsumeUri; `next` is behind the space. */
  function ConsumeUri(s: string, pos: nat): (r: Result<Target>)
    requires pos <= |s|
    ensures r.Ok? ==> pos <= r.value.next <= |s|
  {
    if At(s, pos) != '/' then Err(BadRequest)
    else
      var stop :- Scan(PathScan, s, pos, 0);
      if At(s, stop) == '?' then
        if stop + 1 - pos >= MAX_URI_SIZE then Err(UriTooLong) else ConsumeQuery(s, pos, stop)
      else if At(s, stop) != ' ' then Err(BadRequest)
      else Ok(Target(s[pos..stop], "", stop + 1))
  }

  /** The part of ConsumeUri behind the '?' at `mark`, with ConsumeQuery. */
  function ConsumeQuery(s: string, pos: nat, mark: nat): (r: Result<Target>)
    requires pos <= mark < |s|
    ensures r.Ok? ==> pos <= r.value.next <= |s|
  {
    var end :- Scan(QueryScan, s, mark + 1, mark + 1 - pos);
    if At(s, end) != ' ' then Err(BadRequest)
    else Ok(Target(s[pos..mark], s[mark + 1..end], end + 1))
  }

  predicate IsVersion(v: string) {
    v == "HTTP/1.1" || v == "HTTP/1.0"
  }

  /** ConsumeVersion; the next position is behind the version and its CRLF. */
  function ConsumeVersion(s: string, pos: nat): (r: Result<string>)
    requires pos <= |s|
    ensures r.Ok? ==> pos + |r.value| + 2 <= |s|
  {
    var end :- Scan(VersionScan, s, pos, 0);
    if !IsCrlfAt(s, end) then Err(BadRequest)
    else if !IsVersion(s[pos..end]) then Err(BadRequest)
    else Ok(s[pos..end])
  }

  // ---------- the header section ----------

  datatype Lines = Lines(headers: map<string, string>, next: nat)

  /** The loop of ConsumeHeader with StoreHeader, and the empty line behind it. */
  function ParseLines(s: string, pos: nat, total: nat, headers: map<string, string>): (r: Result<Lines>)
    requires pos <= |s|
    ensures r.Ok? ==> r.value.next <= |s|
    decreases |s| - pos
  {
    if At(s, pos) != '\0' && !IsCrlfAt(s, pos) then
      var line :- ReadLine(s, pos, total, true);
      if Lower(line.name) in headers then Err(BadRequest)
      else ParseLines(s, line.next, line.total, headers[Lower(line.name) := line.value])
    else if !IsCrlfAt(s, pos) then Err(BadRequest)
    else if total + 2 > MAX_HEADER_SIZE then Err(HeaderFieldsTooLarge)
    else Ok(Lines(headers, pos + 2))
  }

  // ---------- numbers as `stringstream >> n` reads them ----------

  predicate IsDigit(c: char) { '0' <= c <= '9' }

  predicate IsSpace(c: char) {
    c == ' ' || c == '\t' || c == '\n' || c == '\U{0B}' || c == '\U{0C}' || c == '\r'
  }

  function SkipSpaces(s: string): string {
    if s != "" && IsSpace(s[0]) then SkipSpaces(s[1..]) else s
  }

  predicate AllDigits(s: string) {
    forall i | 0 <= i < |s| :: IsDigit(s[i])
  }

  function DecimalFrom(acc: nat, s: string): nat
    requires AllDigits(s)
    decreases |s|
  {
    if s == "" then acc else DecimalFrom(acc * 10 + (s[0] as int - '0' as int), s[1..])
  }

  datatype Number = NotANumber | Number(negative: bool, magnitude: nat)

  /** Leading spaces, an optional sign, then digits up to the end of the text. */
  function ReadNumber(s: string): Number {
    var t := SkipSpaces(s);
    var signed := t != "" && (t[0] == '-' || t[0] == '+');
    var digits := if signed then t[1..] else t;
    if digits != "" && AllDigits(digits) then Number(signed && t[0] == '-', DecimalFrom(0, digits))
    else NotANumber
  }

  /** StrToLong. */
  function StrToLong(s: string): Option<int> {
    match ReadNumber(s)
    case NotANumber => None
    case Number(negative, m) =>
      if m > 0x7FFF_FFFF_FFFF_FFFF + (if negative then 1 else 0) then None
      else
        var n: int := m;
        Some(if negative then -n else n)
  }

  /** StrToUnsignedShort; a negative number is taken modulo 2^16. */
  function StrToUnsignedShort(s: string): Option<nat> {
    match ReadNumber(s)
    case NotANumber => None
    case Number(negative, m) =>
      if m > 0xFFFF then None
      else Some(if negative && m > 0 then 0x1_0000 - m else m)
  }

  // ---------- what the header map determines ----------

  datatype Host = Host(name: string, port: nat)

  /** ValidateAndExtractHost; an unreadable port ends as 500 through AdvanceHeader's handler. */
  function HostOf(headers: map<string, string>): Result<Host> {
    if "host" !in headers then Err(BadRequest)
    else
      var v := headers["host"];
      match Find(v, ":", 0)
      case None => if v == "" then Err(BadRequest) else Ok(Host(v, DEFAULT_PORT))
      case Some(i) =>
        if i == 0 then Err(BadRequest)
        else match StrToUnsignedShort(v[i + 1..])
             case None => Err(InternalServerError)
             case Some(port) => Ok(Host(v[..i], port))
  }

  /** ValidateBodyHeaders: content_length_, with -1 for chunked. */
  function BodyLengthOf(headers: map<string, string>, limit: nat): Result<int> {
    if "content-length" in headers then
      if "transfer-encoding" in headers then Err(BadRequest)
      else match StrToLong(headers["content-length"])
           case None => Err(BadRequest)
           case Some(n) =>
             if n < 0 || n > MAX_PAYLOAD_SIZE then Err(BadRequest)
             else if n > limit then Err(PayloadTooLarge)
             else Ok(n)
    else if "transfer-encoding" in headers then
      if headers["transfer-encoding"] == "chunked" then Ok(-1) else Err(NotImplemented)
    else Ok(0)
  }

  /** ParseConnectionDirective. */
  function KeepAliveOf(headers: map<string, string>, version: string): Result<bool> {
    if "connection" in headers then
      if headers["connection"] == "close" then Ok(false)
      else if headers["connection"] == "keep-alive" then Ok(true)
      else Err(BadRequest)
    else Ok(version == "HTTP/1.1")
  }

  function FieldsOf(verb: Method, path: string, query: string, version: string,
                    headers: map<string, string>, limit: nat): Result<Fields> {
    var host :- HostOf(headers);
    var length :- BodyLengthOf(headers, limit);
    var keepAlive :- KeepAliveOf(headers, version);
    Ok(Fields(verb, path, query, version, headers, host.name, host.port, length, keepAlive))
  }

  // ---------- the whole head ----------

  datatype Parsed = Parsed(fields: Fields, next: nat)

  /** The cursor chain of AdvanceHeader; `next` is the cursor it ends with. */
  function ParseHead(s: string, limit: nat): (r: Result<Parsed>)
    ensures r.Ok? ==> r.value.next <= |s|
  {
    var verb := ConsumeMethod(s);
    if verb == Unknown then Err(NotImplemented)
    else
      var target :- ConsumeUri(s, |Token(verb)|);
      var version :- ConsumeVersion(s, target.next);
      ParseSection(s, target.next + |version| + 2, verb, target, version, limit)
  }

  function ParseSection(s: string, pos: nat, verb: Method, target: Target, version: string, limit: nat)
    : (r: Result<Parsed>)
    requires pos <= |s|
    ensures r.Ok? ==> r.value.next <= |s|
  {
    var lines :- ParseLines(s, pos, 0, map[]);
    var fields :- FieldsOf(verb, target.path, target.query, version, lines.headers, limit);
    Ok(Parsed(fields, lines.next))
  }

  // ---------- the text of a head ----------

  datatype Header = Header(name: string, value: string)

  /** What a client writes. */
  datatype Source = Source(verb: Method, path: string, query: Option<string>, version: string,
                           headers: seq<Header>)

  function PrintTarget(src: Source): string {
    match src.query
    case None => src.path
    case Some(q) => src.path + ("?" + q)
  }

  function PrintHeaders(headers: seq<Header>): string {
    if headers == [] then CRLF
    else PrintLine(headers[0].name, headers[0].value, CRLF) + PrintHeaders(headers[1..])
  }

  function PrintHead(src: Source): string {
    Token(src.verb) + (PrintTarget(src) + " " + (src.version + CRLF + PrintHeaders(src.headers)))
  }

  /** The map after storing the headers in order. */
  function AddHeaders(m: map<string, string>, headers: seq<Header>): map<string, string>
    decreases |headers|
  {
    if headers == [] then m
    else AddHeaders(m[Lower(headers[0].name) := headers[0].value], headers[1..])
  }

  function HeaderMap(headers: seq<Header>): map<string, string> {
    AddHeaders(map[], headers)
  }

  function Query(src: Source): string {
    match src.query
    case None => ""
    case Some(q) => q
  }

  predicate ValidTarget(src: Source) {
    && src.path != "" && src.path[0] == '/' && AllAllowed(PathScan, src.path)
    && (src.query.Some? ==> AllAllowed(QueryScan, src.query.value))
    && |PrintTarget(src)| < MAX_URI_SIZE
  }

  predicate ValidHeader(h: Header) {
    AllAllowed(NameScan, h.name) && AllAllowed(ValueScan, h.value)
  }

  predicate ValidHeaders(headers: seq<Header>) {
    forall i | 0 <= i < |headers| :: ValidHeader(headers[i])
  }

  predicate DistinctNames(headers: seq<Header>) {
    forall i, j | 0 <= i < j < |headers| :: Lower(headers[i].name) != Lower(headers[j].name)
  }

  predicate ValidSource(src: Source) {
    && src.verb != Unknown && ValidTarget(src) && IsVersion(src.version)
    && ValidHeaders(src.headers) && DistinctNames(src.headers) && |PrintHeaders(src.headers)| <= MAX_HEADER_SIZE
  }
}
