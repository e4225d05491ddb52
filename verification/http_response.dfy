/** HttpResponse: the response fields, and the text that ToHttpString makes of them. */
module HttpResponses {
  import opened Text
  import opened RequestHead
  import opened HeaderOrders

  datatype Response = Response(status: int, reason: string, headers: map<string, string>, body: string)

  function StatusToString(status: int): string {
    match status
    case 200 => "OK"
    case 201 => "Created"
    case 202 => "Accepted"
    case 204 => "No Content"
    case 205 => "Reset Content"
    case 302 => "Found"
    case 307 => "Temporary Redirect"
    case 400 => "Bad Request"
    case 401 => "Unauthorized"
    case 403 => "Forbidden"
    case 404 => "Not Found"
    case 405 => "Method Not Allowed"
    case 408 => "Request Timeout"
    case 411 => "Length Required"
    case 413 => "Payload Too Large"
    case 414 => "URI Too Long"
    case 431 => "Request Header Fields Too Large"
    case 500 => "Internal Server Error"
    case 501 => "Not Implemented"
    case 502 => "Bad Gateway"
    case _ => "I'm a teapot"
  }

  /** The number of a thrown status. */
  function Code(status: Status): int {
    match status
    case BadRequest => 400
    case Forbidden => 403
    case NotFound => 404
    case PayloadTooLarge => 413
    case UriTooLong => 414
    case HeaderFieldsTooLarge => 431
    case InternalServerError => 500
    case NotImplemented => 501
    case BadGateway => 502
  }

  function WithStatus(status: int): Response {
    Response(status, StatusToString(status), map[], "")
  }

  /** A header line cannot be broken by its own text. */
  predicate NoLineBreak(s: string) {
    '\r' !in s && '\n' !in s
  }

  /** What AddHeader keeps true of the header map. */
  predicate WellKept(headers: map<string, string>) {
    forall k | k in headers :: Lower(k) == k && NoLineBreak(k) && NoLineBreak(headers[k])
  }

  function Digits(n: nat): string {
    if n < 10 then [(('0' as int) + n) as char]
    else Digits(n / 10) + [(('0' as int) + n % 10) as char]
  }

  function Signed(n: int): string {
    if n < 0 then "-" + Digits(-n) else Digits(n)
  }

  /** The headers that are written: with a date, and a length unless the framing is given. */
  function FinalHeaders(res: Response, date: string): map<string, string> {
    var dated := if "date" in res.headers then res.headers else res.headers["date" := date];
    if "content-length" in dated || "transfer-encoding" in dated then dated
    else dated["content-length" := Digits(|res.body|)]
  }

  /** An enumeration of the keys. */
  predicate IsOrder(order: seq<string>, headers: map<string, string>) {
    && (forall i | 0 <= i < |order| :: order[i] in headers)
    && (forall i, j | 0 <= i < j < |order| :: order[i] != order[j])
    && (forall k | k in headers :: k in order)
  }

  function Listing(headers: map<string, string>, order: seq<string>): (r: seq<Header>)
    requires forall i | 0 <= i < |order| :: order[i] in headers
    ensures |r| == |order|
    ensures forall i | 0 <= i < |order| :: r[i] == Header(order[i], headers[order[i]])
  {
    seq(|order|, i requires 0 <= i < |order| => Header(order[i], headers[order[i]]))
  }

  function StatusLine(res: Response): string {
    "HTTP/1.1 " + Signed(res.status) + " " + res.reason + CRLF
  }

  /** The whole text, with the headers in the order of the map. */
  function Printed(res: Response, date: string, order: seq<string>): string
    requires IsOrder(order, FinalHeaders(res, date))
  {
    StatusLine(res) + PrintHeaders(Listing(FinalHeaders(res, date), order)) + res.body
  }

  /** What ToHttpString returns at the time `date`; std::map lists its keys in ascending order. */
  function ToText(res: Response, date: string): string {
    Printed(res, date, Ascending(FinalHeaders(res, date).Keys))
  }

  function PageHead(title: string): string {
    "<html>\n<head><title>" + title + "</title></head>\n"
  }

  function PageBody(title: string): string {
    "<body>\n<center><h1>" + title + "</h1></center>\n<hr>\n</body>\n</html>\n"
  }

  /** MakeDefaultErrorPage up to the padding. */
  function PageTop(status: int, reason: string): string {
    var title := Signed(status) + " " + reason;
    PageHead(title) + PageBody(title) + "<!-- "
  }

  function Padding(from: nat): (r: string)
    ensures from + |r| >= 512
    decreases 512 - from
  {
    if from < 512 then "webserv" + Padding(from + 7) else ""
  }

  function DefaultErrorPage(status: int, reason: string): string {
    PageTop(status, reason) + Padding(|PageTop(status, reason)|) + " -->\n"
  }

  /** What every exception handler of a client answers with. */
  function ErrorPage(status: int): Response {
    WithStatus(status).(
      headers := map["connection" := "close", "content-type" := "text/html"],
      body := if status < 400 then "" else DefaultErrorPage(status, StatusToString(status)))
  }

  function PrintLines(headers: seq<Header>): string {
    if headers == [] then ""
    else
      var last := headers[|headers| - 1];
      PrintLines(headers[..|headers| - 1]) + (last.name + ": " + last.value + CRLF)
  }

  class HttpResponse {
    var status: int
    var reason: string
    var headers: map<string, string>
    var body: string

    function Value(): Response
      reads this
    {
      Response(status, reason, headers, body)
    }

    constructor (status: int)
      ensures Value() == WithStatus(status)
    {
      this.status, reason := status, StatusToString(status);
      headers, body := map[], "";
    }

    method SetStatus(status: int)
      modifies this`status, this`reason
      ensures Value() == old(Value()).(status := status, reason := StatusToString(status))
    {
      this.status := status;
      this.reason := StatusToString(status);
    }

    /** The overload with a reason phrase, which may be empty. */
    method SetStatusAndReason(status: int, reason: string)
      modifies this`status, this`reason
      ensures Value() == old(Value()).(status := status, reason := reason)
    {
      this.status := status;
      this.reason := reason;
    }

    /** Fails, with InvalidHeader, on a line break; the name is stored lower-cased. */
    method AddHeader(key: string, value: string) returns (ok: bool)
      modifies this`headers
      ensures ok <==> NoLineBreak(key) && NoLineBreak(value)
      ensures headers == if ok then old(headers)[Lower(key) := value] else old(headers)
      ensures WellKept(old(headers)) ==> WellKept(headers)
    {
      ok := '\r' !in key && '\n' !in key && '\r' !in value && '\n' !in value;
      if ok {
        LowerIsKept(key);
        headers := headers[Lower(key) := value];
      }
    }

    method SetBody(body: string)
      modifies this`body
      ensures this.body == body
    {
      this.body := body;
    }

    method EnsureDefaultErrorContent()
      modifies this`body
      ensures body == if old(body) == "" && status >= 400 then DefaultErrorPage(status, reason) else old(body)
    {
      if body != "" {
        return;
      }
      if status < 400 {
        return;
      }
      body := MakeDefaultErrorPage(status, reason);
    }

    method ToHttpString(date: string) returns (text: string)
      ensures text == ToText(Value(), date)
    {
      hide Signed, PrintHeaders, PrintLines, Ascending;
      text := StatusLine(Value());
      var finalHeaders := headers;
      if "date" !in finalHeaders {
        finalHeaders := finalHeaders["date" := date];
      }
      if "content-length" !in finalHeaders && "transfer-encoding" !in finalHeaders {
        finalHeaders := finalHeaders["content-length" := Digits(|body|)];
      }
      assert finalHeaders == FinalHeaders(Value(), date);
      hide StatusLine, FinalHeaders;
      var lines := WriteLines(finalHeaders, Ascending(finalHeaders.Keys));
      text := text + lines + body;
    }
  }

  method MakeDefaultErrorPage(status: int, reason: string) returns (text: string)
    ensures text == DefaultErrorPage(status, reason)
  {
    hide Signed, PageTop;
    text := PageTop(status, reason);
    ghost var top := text;
    var i := |text|;
    while i < 512
      invariant text + Padding(i) == top + Padding(|top|)
      decreases 512 - i
    {
      assert text + ("webserv" + Padding(i + 7)) == text + "webserv" + Padding(i + 7);
      text := text + "webserv";
      i := i + 7;
    }
    assert text == text + Padding(i);
    text := text + " -->\n";
  }

  /** The handlers build their answer field by field. */
  method MakeErrorPage(status: int) returns (res: HttpResponse)
    ensures fresh(res) && res.Value() == ErrorPage(status)
  {
    hide DefaultErrorPage;
    res := new HttpResponse(status);
    LiteralsAreKept();
    var added := res.AddHeader("Connection", "close");
    added := res.AddHeader("Content-Type", "text/html");
    res.EnsureDefaultErrorContent();
  }

  lemma LiteralsAreKept()
    ensures Lower("Connection") == "connection" && Lower("Content-Type") == "content-type"
    ensures NoLineBreak("Connection") && NoLineBreak("Content-Type") && NoLineBreak("close") && NoLineBreak("text/html")
  {}

  /** The loop over the final headers, and the empty line behind them. */
  method WriteLines(headers: map<string, string>, order: seq<string>) returns (text: string)
    requires IsOrder(order, headers)
    ensures text == PrintHeaders(Listing(headers, order))
  {
    hide PrintHeaders;
    text := "";
    ghost var list := Listing(headers, order);
    for i := 0 to |order|
      invariant text == PrintLines(list[..i])
    {
      assert list[..i + 1][..i] == list[..i];
      text := text + (order[i] + ": " + headers[order[i]] + "\r\n");
    }
    assert list[..|order|] == list;
    LinesThenBlank(list);
    text := text + "\r\n";
  }

  lemma LowerIsKept(s: string)
    ensures Lower(Lower(s)) == Lower(s)
    ensures NoLineBreak(s) ==> NoLineBreak(Lower(s))
  {}

  lemma {:induction false} LinesThenBlank(headers: seq<Header>)
    ensures PrintLines(headers) + CRLF == PrintHeaders(headers)
    decreases |headers|
  {
    LinesThen(headers, []);
    assert headers + [] == headers;
  }

  lemma {:induction false} LinesThen(a: seq<Header>, b: seq<Header>)
    ensures PrintLines(a) + PrintHeaders(b) == PrintHeaders(a + b)
    decreases |a|
  {
    if a == [] {
      assert a + b == b;
    } else {
      var init, last := a[..|a| - 1], a[|a| - 1];
      var line := last.name + ": " + last.value + CRLF;
      LinesThen(init, [last] + b);
      assert init + ([last] + b) == a + b && ([last] + b)[1..] == b;
      assert PrintHeaders([last] + b) == line + PrintHeaders(b);
      assert PrintLines(init) + line + PrintHeaders(b) == PrintLines(init) + (line + PrintHeaders(b));
    }
  }

  lemma {:induction false} DigitsAreDigits(n: nat)
    ensures AllDigits(Digits(n)) && Digits(n) != ""
  {
    if n >= 10 {
      DigitsAreDigits(n / 10);
    }
  }

  lemma {:induction false} DecimalOfConcat(acc: nat, s: string, c: char)
    requires AllDigits(s) && IsDigit(c)
    ensures AllDigits(s + [c])
    ensures DecimalFrom(acc, s + [c]) == DecimalFrom(acc, s) * 10 + (c as int - '0' as int)
    decreases |s|
  {
    if s == "" {
      assert s + [c] == [c] && [c][1..] == "";
    } else {
      assert (s + [c])[1..] == s[1..] + [c];
      DecimalOfConcat(acc * 10 + (s[0] as int - '0' as int), s[1..], c);
    }
  }

  lemma {:induction false} DigitsReadBack(n: nat)
    ensures AllDigits(Digits(n)) && DecimalFrom(0, Digits(n)) == n
  {
    DigitsAreDigits(n);
    if n < 10 {
      assert Digits(n)[1..] == "";
    } else {
      DigitsReadBack(n / 10);
      DecimalOfConcat(0, Digits(n / 10), (('0' as int) + n % 10) as char);
    }
  }

  /** The length that ToHttpString announces is read back, by the server's own number reader,
      as the number of body bytes. */
  lemma AnnouncedLengthIsBodyLength(res: Response, date: string)
    requires "content-length" !in res.headers && "transfer-encoding" !in res.headers
    requires |res.body| <= 0x7FFF_FFFF_FFFF_FFFF
    ensures var h := FinalHeaders(res, date);
            "content-length" in h && StrToLong(h["content-length"]) == Some(|res.body|)
  {
    var text := Digits(|res.body|);
    DigitsAreDigits(|res.body|);
    DigitsReadBack(|res.body|);
    assert IsDigit(text[0]) && SkipSpaces(text) == text;
  }

  // ---------- what a client reads ----------

  lemma NumberIsReadBack(n: int)
    requires -0x8000_0000_0000_0000 <= n <= 0x7FFF_FFFF_FFFF_FFFF
    ensures StrToLong(Signed(n)) == Some(n) && ' ' !in Signed(n)
  {
    hide Digits;
    var digits := Digits(if n < 0 then -n else n);
    DigitsReadBack(if n < 0 then -n else n);
    DigitsAreDigits(if n < 0 then -n else n);
    assert IsDigit(digits[0]);
    assert ("-" + digits)[1..] == digits;
    assert SkipSpaces(Signed(n)) == Signed(n);
  }

  /** The first separator behind a text that has none of its characters. */
  lemma FoundBehind(s: string, from: nat, a: string, pat: string)
    requires pat != "" && pat[0] !in a && HasAt(s, from, a) && HasAt(s, from + |a|, pat)
    ensures Find(s, pat, from) == Some(from + |a|)
  {
    FindIsFirst(s, pat, from);
    HasAtChars(s, from, a);
    forall q | from <= q < from + |a| ensures !HasAt(s, q, pat) {
      assert At(s, from + (q - from)) == a[q - from] != pat[0];
      StartsAt(s, q, pat);
    }
  }

  lemma StartsAt(s: string, i: nat, lit: string)
    requires lit != ""
    ensures HasAt(s, i, lit) ==> At(s, i) == lit[0]
  {
    if HasAt(s, i, lit) {
      HasAtChars(s, i, lit);
      assert At(s, i + 0) == lit[0];
    }
  }

  /** The text starts with the version; up to the next space a number is read that is the status,
      up to the first CRLF behind it stands the reason, and then `rest`. */
  ghost predicate ReadsAs(text: string, status: int, reason: string, rest: string) {
    && "HTTP/1.1 " <= text
    && Find(text, " ", 9).Some?
    && var space := Find(text, " ", 9).value;
       && StrToLong(text[9..space]) == Some(status)
       && Find(text, "\r\n", space + 1).Some?
       && var end := Find(text, "\r\n", space + 1).value;
          text[space + 1..end] == reason && text[end + 2..] == rest
  }

  /** What ToHttpString prints reads as it should; behind the status line stand the header lines, the
      empty line and the body. */
  lemma PrintedIsReadable(res: Response, date: string, order: seq<string>)
    requires IsOrder(order, FinalHeaders(res, date))
    requires -0x8000_0000_0000_0000 <= res.status <= 0x7FFF_FFFF_FFFF_FFFF && NoLineBreak(res.reason)
    ensures ReadsAs(Printed(res, date, order), res.status, res.reason,
                    PrintHeaders(Listing(FinalHeaders(res, date), order)) + res.body)
  {
    hide Signed, PrintHeaders, FinalHeaders, Find, HasAt, ReadsAs;
    var rest := PrintHeaders(Listing(FinalHeaders(res, date), order)) + res.body;
    var number, text := Signed(res.status), Printed(res, date, order);
    NumberIsReadBack(res.status);
    assert text == "HTTP/1.1 " + (number + (" " + (res.reason + (CRLF + rest))));
    LineReads(text, number, res.status, res.reason, rest);
  }

  lemma LineReads(text: string, number: string, status: int, reason: string, rest: string)
    requires text == "HTTP/1.1 " + (number + (" " + (reason + (CRLF + rest))))
    requires StrToLong(number) == Some(status) && ' ' !in number && NoLineBreak(reason)
    ensures ReadsAs(text, status, reason, rest)
  {
    hide Find, HasAt, StrToLong;
    PartsStand(text, "HTTP/1.1 ", number, reason, rest);
    var space := 9 + |number|;
    FoundBehind(text, 9, number, " ");
    FoundBehind(text, space + 1, reason, CRLF);
  }

  lemma PartsStand(text: string, version: string, number: string, reason: string, rest: string)
    requires text == version + (number + (" " + (reason + (CRLF + rest))))
    ensures var a, b := |version|, |version| + |number|;
            var end := b + 1 + |reason|;
            && version <= text && text[a..b] == number && text[b + 1..end] == reason && text[end + 2..] == rest
            && HasAt(text, a, number) && HasAt(text, b, " ") && HasAt(text, b + 1, reason) && HasAt(text, end, CRLF)
  {
    var a, b := |version|, |version| + |number|;
    var end := b + 1 + |reason|;
    var afterNumber := " " + (reason + (CRLF + rest));
    PartStands(text, version, number, afterNumber);
    PartStands(text, version + number, " ", reason + (CRLF + rest));
    PartStands(text, version + number + " ", reason, CRLF + rest);
    PartStands(text, version + number + " " + reason, CRLF, rest);
  }

  lemma PartStands(text: string, before: string, part: string, after: string)
    requires text == before + (part + after)
    ensures var a, b := |before|, |before| + |part|;
            before <= text && text[a..b] == part && text[b..] == after && HasAt(text, a, part)
  {
    var a, b := |before|, |before| + |part|;
    assert text[a..] == part + after;
    assert text[b..] == text[a..][|part|..] == after;
    assert text[a..b] == text[a..][..|part|];
  }

  /** The headers that are sent: all that were set, a date, and a length unless the framing is set. */
  lemma FinalHeadersExactly(res: Response, date: string, k: string)
    ensures var h := FinalHeaders(res, date);
            var framed := "content-length" in res.headers || "transfer-encoding" in res.headers;
            && (k in h <==> k in res.headers || k == "date" || (k == "content-length" && !framed))
            && (k in res.headers ==> h[k] == res.headers[k])
            && ("date" !in res.headers ==> h["date"] == date)
            && (!framed && |res.body| <= 0x7FFF_FFFF_FFFF_FFFF ==> StrToLong(h["content-length"]) == Some(|res.body|))
  {
    hide Digits;
    if "content-length" !in res.headers && "transfer-encoding" !in res.headers && |res.body| <= 0x7FFF_FFFF_FFFF_FFFF {
      NumberIsReadBack(|res.body|);
    }
  }

  // ---------- error pages ----------

  /** The number of each status, and below its phrase, as RFC 9110 and RFC 6585 have them. */
  ghost function Number(status: Status): string {
    match status
    case BadRequest => "400"
    case Forbidden => "403"
    case NotFound => "404"
    case PayloadTooLarge => "413"
    case UriTooLong => "414"
    case HeaderFieldsTooLarge => "431"
    case InternalServerError => "500"
    case NotImplemented => "501"
    case BadGateway => "502"
  }

  ghost function Phrase(status: Status): string {
    match status
    case BadRequest => "Bad Request"
    case Forbidden => "Forbidden"
    case NotFound => "Not Found"
    case PayloadTooLarge => "Payload Too Large"
    case UriTooLong => "URI Too Long"
    case HeaderFieldsTooLarge => "Request Header Fields Too Large"
    case InternalServerError => "Internal Server Error"
    case NotImplemented => "Not Implemented"
    case BadGateway => "Bad Gateway"
  }

  ghost function Announced(status: Status): string {
    Number(status) + " " + Phrase(status)
  }

  lemma ThreeDigits(n: nat)
    requires 100 <= n <= 999
    ensures Signed(n) == [('0' as int + n / 100) as char, ('0' as int + n / 10 % 10) as char, ('0' as int + n % 10) as char]
  {
    assert Digits(n) == Digits(n / 10) + [('0' as int + n % 10) as char];
    assert Digits(n / 10) == Digits(n / 10 / 10) + [('0' as int + n / 10 % 10) as char];
  }

  /** The page for a thrown status announces that status, closes the connection, is HTML, and is
      padded to at least 512 characters. */
  lemma ErrorPageSays(status: Status, date: string)
    ensures var page := ErrorPage(Code(status));
            && "HTTP/1.1 " + Announced(status) + "\r\n" <= ToText(page, date)
            && page.headers == map["connection" := "close", "content-type" := "text/html"]
            && "<html>\n<head><title>" + Announced(status) + "</title></head>\n" <= page.body
            && |page.body| >= 512 && page.body[|page.body| - 5..] == " -->\n"
  {
    var n, reason := Code(status), StatusToString(Code(status));
    AnnouncedAsPrinted(status);
    assert ErrorPage(n).body == DefaultErrorPage(n, reason) && ErrorPage(n).reason == reason;
    PageStarts(n, reason);
    StatusLineStarts(ErrorPage(n), date);
    hide Signed, DefaultErrorPage, Announced, StatusToString, Code;
  }

  lemma TimeoutIsPrinted(status: int)
    requires status == 408
    ensures Signed(status) == "408" && ErrorPage(status).status == status && ErrorPage(status).reason == "Request Timeout"
  {
    ThreeDigits(status);
    hide Signed, DefaultErrorPage;
  }

  /** The page that a timed-out client is sent. */
  lemma TimeoutPageSays(status: int, date: string)
    requires status == 408
    ensures "HTTP/1.1 " + ("408" + " " + "Request Timeout") + "\r\n" <= ToText(ErrorPage(status), date)
  {
    TimeoutIsPrinted(status);
    hide Signed, ErrorPage, ToText;
    StatusLineStarts(ErrorPage(status), date);
  }

  lemma AnnouncedAsPrinted(status: Status)
    ensures Signed(Code(status)) + " " + StatusToString(Code(status)) == Announced(status) && Code(status) >= 400
  {
    NumberIsPrinted(status);
    PhraseIsPrinted(status);
    hide Signed, Number, Phrase, StatusToString, Code;
  }

  lemma PhraseIsPrinted(status: Status)
    ensures StatusToString(Code(status)) == Phrase(status)
  {
    match status
    case BadRequest => assert Code(status) == 400;
    case Forbidden => assert Code(status) == 403;
    case NotFound => assert Code(status) == 404;
    case PayloadTooLarge => assert Code(status) == 413;
    case UriTooLong => assert Code(status) == 414;
    case HeaderFieldsTooLarge => assert Code(status) == 431;
    case InternalServerError => assert Code(status) == 500;
    case NotImplemented => assert Code(status) == 501;
    case BadGateway => assert Code(status) == 502;
  }

  lemma NumberIsPrinted(status: Status)
    ensures Signed(Code(status)) == Number(status) && Code(status) >= 400
  {
    ThreeDigits(Code(status));
    hide Signed;
  }

  lemma PageStarts(status: int, reason: string)
    ensures var body := DefaultErrorPage(status, reason);
            && PageHead(Signed(status) + " " + reason) <= body
            && |body| >= 512 && body[|body| - 5..] == " -->\n"
  {
    hide Signed, Padding, PageHead, PageBody;
  }

  lemma StatusLineStarts(res: Response, date: string)
    ensures "HTTP/1.1 " + (Signed(res.status) + " " + res.reason) + "\r\n" <= ToText(res, date)
  {
    hide Signed, FinalHeaders, PrintHeaders;
    assert StatusLine(res) == "HTTP/1.1 " + (Signed(res.status) + " " + res.reason) + "\r\n";
  }
}
