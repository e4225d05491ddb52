/** The values of Host, Content-Length, Transfer-Encoding and Connection: what a client writes
    there is what the parsed request says. */
module FieldTheorems {
  import opened Text
  import opened RequestHead
  import opened HeadTheorems
  import opened HttpResponses

  datatype Framing = NoBody | Announced(length: nat) | InChunks

  /** What a client wants to say; None for what it leaves out. */
  datatype Wish = Wish(host: string, port: Option<nat>, framing: Framing, keepAlive: Option<bool>)

  function HostText(w: Wish): string {
    match w.port
    case None => w.host
    case Some(port) => w.host + (":" + Digits(port))
  }

  predicate ValidWish(w: Wish, limit: nat) {
    && w.host != "" && ':' !in w.host && (w.port.Some? ==> w.port.value <= 0xFFFF)
    && (w.framing.Announced? ==> w.framing.length <= limit && w.framing.length <= MAX_PAYLOAD_SIZE)
  }

  /** The four headers say what is wished. */
  predicate Says(headers: map<string, string>, w: Wish) {
    && "host" in headers && headers["host"] == HostText(w)
    && ("content-length" in headers <==> w.framing.Announced?)
    && ("transfer-encoding" in headers <==> w.framing == InChunks)
    && (w.framing.Announced? ==> headers["content-length"] == Digits(w.framing.length))
    && (w.framing == InChunks ==> headers["transfer-encoding"] == "chunked")
    && ("connection" in headers <==> w.keepAlive.Some?)
    && (w.keepAlive.Some? ==> headers["connection"] == if w.keepAlive.value then "keep-alive" else "close")
  }

  /** The server's number readers invert decimal printing, up to their own bounds. */
  lemma NumbersAreReadBack(n: nat)
    ensures StrToLong(Digits(n)) == if n <= 0x7FFF_FFFF_FFFF_FFFF then Some(n) else None
    ensures StrToUnsignedShort(Digits(n)) == if n <= 0xFFFF then Some(n) else None
  {
    var text := Digits(n);
    DigitsAreDigits(n);
    DigitsReadBack(n);
    assert IsDigit(text[0]) && SkipSpaces(text) == text;
  }

  lemma HostIsRecovered(headers: map<string, string>, w: Wish, limit: nat)
    requires ValidWish(w, limit) && Says(headers, w)
    ensures HostOf(headers) == Ok(Host(w.host, if w.port.None? then DEFAULT_PORT else w.port.value))
  {
    hide Digits, StrToUnsignedShort;
    var v := headers["host"];
    forall q | 0 <= q < |w.host| ensures !HasAt(v, q, ":") {
      assert v[q] == w.host[q];
    }
    FindIsFirst(v, ":", 0);
    match w.port
    case None =>
    case Some(port) =>
      assert v[|w.host|..|w.host| + 1] == ":";
      FindUnique(v, ":", |w.host|);
      assert v[..|w.host|] == w.host && v[|w.host| + 1..] == Digits(port);
      NumbersAreReadBack(port);
  }

  lemma FramingIsRecovered(headers: map<string, string>, w: Wish, limit: nat)
    requires ValidWish(w, limit) && Says(headers, w)
    ensures BodyLengthOf(headers, limit)
         == Ok(match w.framing case NoBody => 0 case Announced(n) => n case InChunks => -1)
  {
    hide Digits, StrToLong;
    if w.framing.Announced? {
      NumbersAreReadBack(w.framing.length);
    }
  }

  /** A printed head whose four headers say what is wished is read, behind any text that follows,
      as exactly that: every field is recovered. */
  lemma EveryFieldIsRecovered(s: string, src: Source, w: Wish, limit: nat)
    requires ValidSource(src) && HasAt(s, 0, PrintHead(src))
    requires ValidWish(w, limit) && Says(HeaderMap(src.headers), w)
    ensures ParseHead(s, limit)
         == Ok(Parsed(Fields(src.verb, src.path, Query(src), src.version, HeaderMap(src.headers), w.host,
                             if w.port.None? then DEFAULT_PORT else w.port.value,
                             match w.framing case NoBody => 0 case Announced(n) => n case InChunks => -1,
                             if w.keepAlive.None? then src.version == "HTTP/1.1" else w.keepAlive.value),
                      |PrintHead(src)|))
  {
    hide HasAt, PrintHead, ValidSource, HeadAt, HeaderMap, ParseHead, HostOf, BodyLengthOf, ValidWish;
    PrintHeadAt(s, src);
    HeadComplete(s, src, limit);
    HostIsRecovered(HeaderMap(src.headers), w, limit);
    FramingIsRecovered(HeaderMap(src.headers), w, limit);
  }
}
