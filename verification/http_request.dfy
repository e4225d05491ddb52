/** HttpRequest with the parts of StreamParser it inherits, field by field and loop by loop.
    A method that may throw returns a Result; the object is not used after a throw. */
module HttpRequests {
  import opened Text
  import opened Scanner
  import opened RequestHead
  import opened Chunked
  import opened RequestParser
  import HeadTheorems
  import opened StreamParser

  /** std::string's max_size(): append throws length_error beyond it. */
  const MAX_STRING: nat := 0x7FFF_FFFF_FFFF_FFFE

  class HttpRequest {
    // StreamParser
    var buffer: string
    var readPos: nat
    var phase: Phase
    // HttpRequest
    var verb: Method
    var uri: string
    var queryString: string
    var hostName: string
    var hostPort: nat
    var version: string
    var headers: map<string, string>
    var body: string
    var contentLength: int
    var nextChunkSize: PtrDiff
    var keepAlive: bool
    const limit: nat  // max_body_size_limit_

    function CurrentFields(): Fields
      reads this
    {
      Fields(verb, uri, queryString, version, headers, hostName, hostPort, contentLength, keepAlive)
    }

    function State(): Request
      reads this
    {
      Request(phase, buffer, readPos, nextChunkSize, body, CurrentFields(), limit)
    }

    ghost predicate Valid()
      reads this
    {
      RequestParser.Valid(State()) && |buffer| <= MAX_STRING
    }

    constructor (limit: nat)
      requires limit < SIGN_BOUND
      ensures Valid() && State() == Initial(limit)
    {
      buffer, readPos, phase := "", 0, HeaderPhase;
      verb, uri, queryString, hostName, hostPort := Unknown, "", "", "", DEFAULT_PORT;
      version, headers, body, contentLength := "", map[], "", -1;
      nextChunkSize, keepAlive, this.limit := -1, false, limit;
    }

    // ---------- the driver ----------

    /** After any call that returns, the object holds exactly the state the specification
        computes, and again satisfies the invariant; a throw has the specified status. */
    method Parse(data: string) returns (r: Result<()>)
      requires Valid() && |buffer| + |data| <= MAX_STRING
      modifies this
      ensures match RequestParser.Parse(old(State()), data)
              case Err(status) => r == Err(status)
              case Ok(next) => r == Ok(()) && State() == next && Valid()
    {
      LongerBufferIsValid(State(), data);
      buffer := buffer + data;
      while true
        invariant Valid()
        invariant Drive(State()) == RequestParser.Parse(old(State()), data)
        decreases 2 - Rank(phase)
      {
        match phase {
          case HeaderPhase =>
            var advanced :- AdvanceHeader();
            if !advanced {
              return Ok(());
            }
            if phase != BodyPhase {
              assert false;  // OnInternalStateError
            }
          case BodyPhase =>
            var advanced :- AdvanceBody();
            if !advanced {
              return Ok(());
            }
            if phase != DonePhase {
              assert false;  // OnInternalStateError
            }
            return Ok(());
          case DonePhase =>
            return Err(BadRequest);  // OnExtraDataAfterDone
        }
      }
    }

    // ---------- the head ----------

    method AdvanceHeader() returns (r: Result<bool>)
      requires Valid() && phase == HeaderPhase
      modifies this
      ensures match RequestParser.AdvanceHeader(old(State()))
              case Err(status) => r == Err(status)
              case Ok(next) => State() == next && r == Ok(next.phase == BodyPhase) && Valid()
    {
      hide Find, ParseHead, ValidBody;
      var endOfHeader := Find(buffer, BLANK_LINE, 0);
      if endOfHeader.None? {
        return Ok(false);
      }
      ghost var before := State();
      var cur :- ConsumeHead();
      // the cursor is discarded: the separately computed end of the head is erased
      HeadTheorems.CursorIsEndOfHeader(buffer, limit);
      assert cur == endOfHeader.value + 4;
      buffer := buffer[endOfHeader.value + 4..];
      phase := BodyPhase;
      AdvanceHeaderContract(before);
      return Ok(true);
    }

    /** The try block of AdvanceHeader: the four cursor functions in turn. */
    method ConsumeHead() returns (r: Result<nat>)
      requires queryString == "" && headers == map[]
      modifies this`verb, this`uri, this`queryString, this`version, this`headers,
               this`hostName, this`hostPort, this`contentLength, this`keepAlive
      ensures match ParseHead(buffer, limit)
              case Err(status) => r == Err(status)
              case Ok(p) => r == Ok(p.next) && CurrentFields() == p.fields
    {
      hide RequestHead.ConsumeMethod, RequestHead.ConsumeUri, RequestHead.ConsumeVersion, ParseLines, FieldsOf, Token;
      var cur :- ConsumeMethod();
      cur :- ConsumeUri(cur);
      cur :- ConsumeVersion(cur);
      r := ConsumeHeader(cur);
    }

    method ConsumeMethod() returns (r: Result<nat>)
      modifies this`verb
      ensures match RequestHead.ConsumeMethod(buffer)
              case Unknown => r == Err(NotImplemented)
              case m => r == Ok(|Token(m)|) && verb == m && |Token(m)| <= |buffer|
    {
      match At(buffer, 0) {
        case 'G' =>
          if HasAt(buffer, 0, "GET ") {
            verb := Get;
            return Ok(4);
          }
        case 'H' =>
          if HasAt(buffer, 0, "HEAD ") {
            verb := Head;
            return Ok(5);
          }
        case 'P' =>
          if HasAt(buffer, 0, "POST ") {
            verb := Post;
            return Ok(5);
          }
        case 'D' =>
          if HasAt(buffer, 0, "DELETE ") {
            verb := Delete;
            return Ok(7);
          }
        case _ =>
      }
      FirstChars(buffer);
      return Err(NotImplemented);
    }

    /** ConsumeUntilStopChar: the path stops at ' ' and '?', the query at ' '. */
    method ConsumeUntilStopChar(pos: nat, length: nat, kind: Kind) returns (r: Result<nat>, length': nat)
      requires pos <= |buffer| && (kind == PathScan || kind == QueryScan)
      ensures r == Scan(kind, buffer, pos, length)
      ensures r.Ok? ==> length' == length + (r.value - pos)
    {
      var cur := pos;
      length' := length;
      while At(buffer, cur) != '\0' && !Stops(kind, At(buffer, cur))
        invariant pos <= cur <= |buffer| && length' == length + (cur - pos)
        invariant Scan(kind, buffer, cur, length') == Scan(kind, buffer, pos, length)
        decreases |buffer| - cur
      {
        if At(buffer, cur) == '#' {
          return Err(BadRequest), length';
        }
        length' := length' + 1;
        if length' >= MAX_URI_SIZE {
          return Err(UriTooLong), length';
        }
        if !IsVisible(At(buffer, cur)) {
          return Err(BadRequest), length';
        }
        cur := cur + 1;
      }
      return Ok(cur), length';
    }

    method ConsumeUri(pos: nat) returns (r: Result<nat>)
      requires pos <= |buffer| && queryString == ""
      modifies this`uri, this`queryString
      ensures match RequestHead.ConsumeUri(buffer, pos)
              case Err(status) => r == Err(status)
              case Ok(t) => r == Ok(t.next) && uri == t.path && queryString == t.query
    {
      if At(buffer, pos) != '/' {
        return Err(BadRequest);
      }
      var stop, length := ConsumeUntilStopChar(pos, 0, PathScan);
      var cur :- stop;
      uri := buffer[pos..cur];
      if uri == "" || (At(buffer, cur) != ' ' && At(buffer, cur) != '?') {
        return Err(BadRequest);
      }
      if At(buffer, cur) == '?' {
        ghost var mark := cur;
        cur := cur + 1;
        length := length + 1;
        if length >= MAX_URI_SIZE {
          return Err(UriTooLong);
        }
        cur :- ConsumeQuery(cur, length);
      }
      if At(buffer, cur) != ' ' {
        return Err(BadRequest);
      }
      return Ok(cur + 1);
    }

    method ConsumeQuery(pos: nat, length: nat) returns (r: Result<nat>)
      requires pos <= |buffer|
      modifies this`queryString
      ensures r == Scan(QueryScan, buffer, pos, length)
      ensures r.Ok? ==> queryString == buffer[pos..r.value]
    {
      var end, length' := ConsumeUntilStopChar(pos, length, QueryScan);
      var cur :- end;
      queryString := buffer[pos..cur];
      return Ok(cur);
    }

    method ConsumeVersion(pos: nat) returns (r: Result<nat>)
      requires pos <= |buffer|
      modifies this`version
      ensures match RequestHead.ConsumeVersion(buffer, pos)
              case Err(status) => r == Err(status)
              case Ok(v) => r == Ok(pos + |v| + 2) && version == v
    {
      var length := 0;
      while At(buffer, pos + length) != '\0' && At(buffer, pos + length) != '\r'
        invariant pos + length <= |buffer|
        invariant Scan(VersionScan, buffer, pos + length, length) == Scan(VersionScan, buffer, pos, 0)
        decreases |buffer| - pos - length
      {
        if !IsVisible(At(buffer, pos + length)) {
          return Err(BadRequest);
        }
        length := length + 1;
      }
      if At(buffer, pos + length) != '\r' || At(buffer, pos + length + 1) != '\n' {
        return Err(BadRequest);
      }
      version := buffer[pos..pos + length];
      if version != "HTTP/1.1" && version != "HTTP/1.0" {
        return Err(BadRequest);
      }
      return Ok(pos + length + 2);
    }

    method StoreHeader(rawKey: string, value: string) returns (r: Result<()>)
      modifies this`headers
      ensures Lower(rawKey) in old(headers) ==> r == Err(BadRequest) && headers == old(headers)
      ensures Lower(rawKey) !in old(headers) ==> r == Ok(()) && headers == old(headers)[Lower(rawKey) := value]
    {
      var key := Lower(rawKey);
      if key in headers {
        return Err(BadRequest);
      }
      headers := headers[key := value];
      return Ok(());
    }

    method ConsumeHeader(pos: nat) returns (r: Result<nat>)
      requires pos <= |buffer|
      modifies this`headers, this`hostName, this`hostPort, this`contentLength, this`keepAlive
      ensures match ParseLines(buffer, pos, 0, old(headers))
              case Err(status) => r == Err(status)
              case Ok(l) =>
                match FieldsOf(verb, uri, queryString, version, l.headers, limit)
                case Err(status) => r == Err(status)
                case Ok(f) => r == Ok(l.next) && CurrentFields() == f
    {
      hide ReadLine, HostOf, BodyLengthOf, KeepAliveOf, Lower;
      var cur: nat, total: nat := pos, 0;
      while At(buffer, cur) != '\0' && !IsCrlfAt(buffer, cur)
        invariant pos <= cur <= |buffer| && total <= MAX_HEADER_SIZE
        invariant ParseLines(buffer, cur, total, headers) == ParseLines(buffer, pos, 0, old(headers))
        decreases |buffer| - cur
      {
        var line :- StreamParser.ReadHeaderLine(buffer, cur, total, true);
        cur, total := line.next, line.total;
        var stored :- StoreHeader(line.name, line.value);
      }
      if !IsCrlfAt(buffer, cur) {
        return Err(BadRequest);
      }
      total :- StreamParser.BumpLenOrThrow(total, 2);
      cur := cur + 2;
      var host :- ValidateAndExtractHost();
      var framing :- ValidateBodyHeaders();
      var connection :- ParseConnectionDirective();
      return Ok(cur);
    }

    method ValidateAndExtractHost() returns (r: Result<()>)
      modifies this`hostName, this`hostPort
      ensures match HostOf(headers)
              case Err(status) => r == Err(status)
              case Ok(h) => r == Ok(()) && hostName == h.name && hostPort == h.port
    {
      if "host" !in headers {
        return Err(BadRequest);
      }
      var value := headers["host"];
      if value == "" {
        return Err(BadRequest);
      }
      var i := 0;
      while i < |value| && value[i] != ':'
        invariant i <= |value| && Find(value, ":", i) == Find(value, ":", 0)
      {
        i := i + 1;
      }
      if i == 0 {
        assert HasAt(value, 0, ":");
        return Err(BadRequest);
      }
      hostName := value[..i];
      if i == |value| {
        assert value[..i] == value;
        hostPort := DEFAULT_PORT;
      } else {
        assert HasAt(value, i, ":");
        match StrToUnsignedShort(value[i + 1..]) {
          case None => return Err(InternalServerError);  // BadOptionalAccess, mapped by AdvanceHeader
          case Some(port) => hostPort := port;
        }
      }
      return Ok(());
    }

    method ValidateBodyHeaders() returns (r: Result<()>)
      modifies this`contentLength
      ensures match BodyLengthOf(headers, limit)
              case Err(status) => r == Err(status)
              case Ok(n) => r == Ok(()) && contentLength == n
    {
      var hasLength := "content-length" in headers;
      var hasCoding := "transfer-encoding" in headers;
      if hasLength && hasCoding {
        return Err(BadRequest);
      }
      if hasLength {
        var parsed :- ParseContentLength(headers["content-length"]);
        if contentLength >= 0 && contentLength > limit {
          return Err(PayloadTooLarge);
        }
      } else if hasCoding {
        var parsed :- ParseTransferEncoding(headers["transfer-encoding"]);
      } else {
        contentLength := 0;
      }
      return Ok(());
    }

    method ParseContentLength(s: string) returns (r: Result<()>)
      modifies this`contentLength
      ensures r.Ok? <==> StrToLong(s).Some? && 0 <= StrToLong(s).value <= MAX_PAYLOAD_SIZE
      ensures r.Ok? ==> contentLength == StrToLong(s).value
      ensures r.Err? ==> r == Err(BadRequest)
    {
      var n := StrToLong(s);
      if n.None? {
        return Err(BadRequest);
      }
      if n.value < 0 || n.value > MAX_PAYLOAD_SIZE {
        return Err(BadRequest);
      }
      contentLength := n.value;
      return Ok(());
    }

    method ParseTransferEncoding(s: string) returns (r: Result<()>)
      modifies this`contentLength
      ensures r == if s == "chunked" then Ok(()) else Err(NotImplemented)
      ensures r.Ok? ==> contentLength == -1
    {
      if s == "chunked" {
        contentLength := -1;
      } else {
        return Err(NotImplemented);
      }
      return Ok(());
    }

    method ParseConnectionDirective() returns (r: Result<()>)
      modifies this`keepAlive
      ensures match KeepAliveOf(headers, version)
              case Err(status) => r == Err(status)
              case Ok(k) => r == Ok(()) && keepAlive == k
    {
      if "connection" in headers {
        var v := headers["connection"];
        if v == "close" {
          keepAlive := false;
        } else if v == "keep-alive" {
          keepAlive := true;
        } else {
          return Err(BadRequest);
        }
        return Ok(());
      }
      keepAlive := version == "HTTP/1.1";
      return Ok(());
    }

    // ---------- the body ----------

    method AdvanceBody() returns (r: Result<bool>)
      requires Valid() && phase == BodyPhase
      modifies this
      ensures match RequestParser.AdvanceBody(old(State()))
              case Err(status) => r == Err(status)
              case Ok(next) => State() == next && r == Ok(next.phase == DonePhase) && Valid()
    {
      ghost var before := State();
      if RequestParser.AdvanceBody(State()).Ok? {
        AdvanceBodyContract(State());
      }
      var hasCoding := "transfer-encoding" in headers;
      if contentLength == 0 && !hasCoding {
        phase := DonePhase;
        return Ok(true);
      }
      if contentLength >= 0 {
        r := AdvanceContentLengthBody();
      } else {
        r := AdvanceChunkedBody();
      }
    }

    method AdvanceContentLengthBody() returns (r: Result<bool>)
      requires phase == BodyPhase && contentLength >= 0
      modifies this`phase, this`body, this`buffer
      ensures match AdvanceContentLength(old(State()))
              case Err(status) => r == Err(status)
              case Ok(next) => State() == next && r == Ok(next.phase == DonePhase)
      ensures |buffer| <= old(|buffer|)
    {
      var need := contentLength;
      if need > limit {
        return Err(PayloadTooLarge);
      }
      if need == 0 {
        phase := DonePhase;
        return Ok(true);
      }
      if |buffer| < need {
        return Ok(false);
      }
      body := buffer[..need];
      buffer := buffer[need..];
      phase := DonePhase;
      return Ok(true);
    }

    method AdvanceChunkedBody() returns (r: Result<bool>)
      requires Valid() && phase == BodyPhase && contentLength == -1
      modifies this`phase, this`body, this`buffer, this`readPos, this`nextChunkSize
      ensures match AdvanceChunked(old(State()))
              case Err(status) => r == Err(status)
              case Ok(next) => State() == next && r == Ok(next.phase == DonePhase)
      ensures r.Ok? ==> |buffer| <= old(|buffer|)
    {
      hide History, Decode;
      if readPos > |buffer| {
        assert false;  // the 500 that "should not happen"
      }
      if readPos == |buffer| {
        return Ok(false);
      }
      r := DecodeLoop();
    }

    /** The for(;;) loop of AdvanceChunkedBody. At every loop head the body is exactly the decode
        of the bytes before the read position, and what is left to decode decides the outcome. */
    method DecodeLoop() returns (r: Result<bool>)
      requires Valid() && phase == BodyPhase && contentLength == -1
      modifies this`phase, this`body, this`buffer, this`readPos, this`nextChunkSize
      ensures match Decode(old(buffer), old(readPos), old(nextChunkSize), old(body), limit)
              case More(pos, next, b) =>
                r == Ok(false) && phase == BodyPhase && buffer == old(buffer)
                && readPos == pos && nextChunkSize == next && body == b
              case Finished(b) =>
                r == Ok(true) && phase == DonePhase && buffer == ""
                && readPos == 0 && nextChunkSize == -1 && body == b
              case Failed(status) => r == Err(status)
    {
      hide ReadSize, History, Decode;
      ghost var buf := buffer;
      ghost var outcome := Decode(buffer, readPos, nextChunkSize, body, limit);
      while true
        invariant phase == BodyPhase && buffer == buf && readPos <= |buffer|
        invariant WithinLimit(nextChunkSize, body, limit)
        invariant History(buffer, readPos, nextChunkSize, body)
        invariant Decode(buffer, readPos, nextChunkSize, body, limit) == outcome
        decreases |buffer| - readPos, if nextChunkSize == -1 then 1 else 0
      {
        DecodeUnfold(buffer, readPos, nextChunkSize, body, limit);
        ghost var pos0, next0, body0 := readPos, nextChunkSize, body;
        if nextChunkSize == -1 {
          var complete :- ReadNextChunkSize();
          if !complete {
            return Ok(false);
          }
        }
        if nextChunkSize == 0 {
          r := FinishChunkedBody();
          return;
        }
        var appended, pos := AppendChunkData(readPos, Unsigned(nextChunkSize));
        var complete :- appended;
        if !complete {
          return Ok(false);
        }
        IterationKeepsHistory(buffer, pos0, next0, body0, readPos, nextChunkSize);
        readPos := pos;
        nextChunkSize := -1;
      }
    }

    /** The branch of the loop that waits for a size line. */
    method ReadNextChunkSize() returns (r: Result<bool>)
      requires nextChunkSize == -1 && readPos <= |buffer|
      modifies this`readPos, this`nextChunkSize
      ensures match ReadSize(buffer, old(readPos), 0, false)
              case SizeNeedsMore => r == Ok(false) && readPos == old(readPos) && nextChunkSize == -1
              case SizeBad => r == Err(BadRequest)
              case SizeIs(size, start) => r == Ok(true) && readPos == start && nextChunkSize == Signed(size)
    {
      var parsed, pos, size := ParseChunkSize(readPos);
      var complete :- parsed;
      if complete {
        readPos := pos;
        nextChunkSize := Signed(size);
      }
      return Ok(complete);
    }

    /** The branch of the loop that waits for the CRLF behind the last chunk. */
    method FinishChunkedBody() returns (r: Result<bool>)
      requires phase == BodyPhase && nextChunkSize == 0 && readPos <= |buffer|
      modifies this`phase, this`buffer, this`readPos, this`nextChunkSize
      ensures match DecodeData(old(buffer), old(readPos), 0, body, limit)
              case More(pos, next, _) =>
                r == Ok(false) && phase == BodyPhase && buffer == old(buffer) && readPos == pos && nextChunkSize == next
              case Finished(_) =>
                r == Ok(true) && phase == DonePhase && buffer == "" && readPos == 0 && nextChunkSize == -1
              case Failed(status) => r == Err(status)
    {
      var done :- ValidateFinalCRLF();
      if !done {
        return Ok(false);
      }
      buffer := "";  // erase(0, buffer_read_pos_) of a buffer that was cleared
      readPos := 0;
      nextChunkSize := -1;
      phase := DonePhase;
      return Ok(true);
    }

    method ValidateAndSkipCRLF(pos: nat) returns (r: Result<bool>, pos': nat)
      ensures match SkipCrlf(buffer, pos)
              case SkipNeedsMore => r == Ok(false) && pos' == pos
              case SkipBad => r == Err(BadRequest)
              case SkippedTo(next) => r == Ok(true) && pos' == next
    {
      pos' := pos;
      if pos + 1 >= |buffer| {
        return Ok(false), pos;
      }
      if buffer[pos] != '\r' || buffer[pos + 1] != '\n' {
        return Err(BadRequest), pos;
      }
      return Ok(true), pos + 2;
    }

    method ParseChunkSize(start: nat) returns (r: Result<bool>, pos: nat, size: nat)
      requires start <= |buffer|
      ensures match ReadSize(buffer, start, 0, false)
              case SizeNeedsMore => r == Ok(false)
              case SizeBad => r == Err(BadRequest)
              case SizeIs(n, next) => r == Ok(true) && pos == next && size == n
    {
      pos, size := start, 0;
      var sawDigit := false;
      while pos < |buffer|
        invariant start <= pos <= |buffer| && size < SIZE_MODULUS
        invariant ReadSize(buffer, pos, size, sawDigit) == ReadSize(buffer, start, 0, false)
      {
        var c := buffer[pos];
        if c == '\r' {
          break;
        }
        if !IsHex(c) {
          return Err(BadRequest), pos, size;
        }
        var digit := HexDigit(c);
        if size > MAX_BEFORE_SHIFT {
          return Err(BadRequest), pos, size;
        }
        ShiftAddExact(size, digit);
        size := ShiftAdd(size, digit);
        sawDigit := true;
        pos := pos + 1;
      }
      if !sawDigit {
        return Ok(false), pos, size;
      }
      r, pos := ValidateAndSkipCRLF(pos);
    }

    method ValidateFinalCRLF() returns (r: Result<bool>)
      modifies this`readPos, this`buffer, this`phase
      ensures match SkipCrlf(old(buffer), old(readPos))
              case SkipNeedsMore => r == Ok(false) && readPos == old(readPos) && buffer == old(buffer) && phase == old(phase)
              case SkipBad => r == Err(BadRequest)
              case SkippedTo(next) =>
                if next != |old(buffer)| then r == Err(BadRequest)
                else r == Ok(true) && readPos == next && buffer == "" && phase == DonePhase
    {
      var skipped, pos := ValidateAndSkipCRLF(readPos);
      var complete :- skipped;
      readPos := pos;
      if !complete {
        return Ok(false);
      }
      if readPos != |buffer| {
        return Err(BadRequest);
      }
      buffer := "";
      phase := DonePhase;
      return Ok(true);
    }

    method AppendChunkData(pos: nat, size: nat) returns (r: Result<bool>, pos': nat)
      requires pos <= |buffer| <= MAX_STRING && limit < SIGN_BOUND
      modifies this`body
      ensures if size > limit || |old(body)| > limit - size then r == Err(PayloadTooLarge)
              else if pos + size + 2 > |buffer| then r == Ok(false) && body == old(body)
              else
                match SkipCrlf(buffer, pos + size)
                case SkippedTo(next) => r == Ok(true) && pos' == next && body == old(body) + buffer[pos..pos + size]
                case _ => r == Err(BadRequest)
    {
      pos' := pos;
      if size > limit || |body| > limit - size {
        return Err(PayloadTooLarge), pos;
      }
      AppendBoundDoesNotWrap(|buffer|, pos, size, limit);
      var totalNeeded := (size + 2) % SIZE_MODULUS;
      if (pos + totalNeeded) % SIZE_MODULUS > |buffer| {
        return Ok(false), pos;
      }
      body := body + buffer[pos..pos + size];
      r, pos' := ValidateAndSkipCRLF(pos + size);
    }
  }

  lemma FirstChars(s: string)
    ensures forall m: Method | m != Unknown && HasAt(s, 0, Token(m)) :: At(s, 0) == Token(m)[0]
  {
    forall m: Method | m != Unknown && HasAt(s, 0, Token(m)) ensures At(s, 0) == Token(m)[0] {
      HasAtChars(s, 0, Token(m));
      assert At(s, 0 + 0) == Token(m)[0];
    }
  }
}
