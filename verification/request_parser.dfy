/** The incremental parser of HttpRequest as a function on its state, and what feeding it a
    request in pieces amounts to. */
module RequestParser {
  import opened Text
  import opened Scanner
  import opened RequestHead
  import opened HeadTheorems
  import opened Chunked
  import opened StreamParser

  /** The fields that StreamParser and HttpRequest keep between calls of Parse. */
  datatype Request = Request(phase: Phase, buffer: string, readPos: nat, nextChunk: PtrDiff,
                             body: string, fields: Fields, limit: nat)

  const INITIAL_FIELDS := Fields(Unknown, "", "", "", map[], "", DEFAULT_PORT, -1, false)

  function Initial(limit: nat): Request {
    Request(HeaderPhase, "", 0, -1, "", INITIAL_FIELDS, limit)
  }

  function AdvanceHeader(r: Request): Result<Request> {
    match Find(r.buffer, BLANK_LINE, 0)
    case None => Ok(r)
    case Some(i) =>
      match ParseHead(r.buffer, r.limit)
      case Err(status) => Err(status)
      case Ok(p) => Ok(r.(phase := BodyPhase, fields := p.fields, buffer := r.buffer[i + 4..]))
  }

  function AdvanceContentLength(r: Request): Result<Request>
    requires r.fields.contentLength >= 0
  {
    var need := r.fields.contentLength;
    if need > r.limit then Err(PayloadTooLarge)
    else if need == 0 then Ok(r.(phase := DonePhase))
    else if |r.buffer| < need then Ok(r)
    else Ok(r.(phase := DonePhase, body := r.buffer[..need], buffer := r.buffer[need..]))
  }

  function AdvanceChunked(r: Request): Result<Request>
  {
    if r.readPos > |r.buffer| then Err(InternalServerError)
    else if r.readPos == |r.buffer| then Ok(r)
    else match Decode(r.buffer, r.readPos, r.nextChunk, r.body, r.limit)
         case More(pos, next, body) => Ok(r.(readPos := pos, nextChunk := next, body := body))
         case Finished(body) =>
           Ok(r.(phase := DonePhase, buffer := "", readPos := 0, nextChunk := -1, body := body))
         case Failed(status) => Err(status)
  }

  function AdvanceBody(r: Request): Result<Request>
  {
    if r.fields.contentLength == 0 && "transfer-encoding" !in r.fields.headers then
      Ok(r.(phase := DonePhase))
    else if r.fields.contentLength >= 0 then AdvanceContentLength(r)
    else AdvanceChunked(r)
  }

  /** The for(;;) loop of StreamParser::Parse with the hooks of HttpRequest. */
  function Drive(r: Request): Result<Request> {
    match r.phase
    case HeaderPhase =>
      (match AdvanceHeader(r)
       case Err(status) => Err(status)
       case Ok(next) => if next.phase == HeaderPhase then Ok(next) else AdvanceBody(next))
    case BodyPhase => AdvanceBody(r)
    case DonePhase => Err(BadRequest)
  }

  /** StreamParser::Parse. */
  function Parse(r: Request, data: string): Result<Request> {
    Drive(r.(buffer := r.buffer + data))
  }

  // ---------- reachable states ----------

  predicate Framed(fields: Fields, limit: nat) {
    && -1 <= fields.contentLength <= limit
    && (fields.contentLength == -1 <==> "transfer-encoding" in fields.headers)
  }

  /** What holds between two calls of Parse. */
  ghost predicate Valid(r: Request) {
    && r.limit < SIGN_BOUND && r.nextChunk >= -1 && |r.body| <= r.limit
    && match r.phase
       case HeaderPhase => r.readPos == 0 && r.nextChunk == -1 && r.body == "" && r.fields == INITIAL_FIELDS
       case BodyPhase => Framed(r.fields, r.limit) && ValidBody(r)
       case DonePhase => Framed(r.fields, r.limit) && r.readPos == 0 && r.nextChunk == -1
  }

  ghost predicate ValidBody(r: Request) {
    if r.fields.contentLength >= 0 then r.readPos == 0 && r.nextChunk == -1 && r.body == ""
    else
      && r.readPos <= |r.buffer| && WithinLimit(r.nextChunk, r.body, r.limit)
      && History(r.buffer, r.readPos, r.nextChunk, r.body)
  }

  lemma InitialIsValid(limit: nat)
    requires limit < SIGN_BOUND
    ensures Valid(Initial(limit))
  {}

  lemma HeadIsFramed(s: string, limit: nat)
    requires ParseHead(s, limit).Ok?
    ensures Framed(ParseHead(s, limit).value.fields, limit)
  {
    hide ParseHead, Meaning, HeadAt, ValidSource;
    var src := HeadSound(s, limit);
    FramingIsDecided(src, limit);
  }

  /** The driver's contract: AdvanceHeader leaves the state alone or moves to the body, with a
      framing decision made and the body machinery at rest. */
  lemma AdvanceHeaderContract(r: Request)
    requires r.phase == HeaderPhase && Valid(r) && AdvanceHeader(r).Ok?
    ensures var r' := AdvanceHeader(r).value;
            && Valid(r') && r'.limit == r.limit
            && (r' == r || (r'.phase == BodyPhase && r'.body == "" && r'.readPos == 0 && r'.nextChunk == -1))
  {
    hide ParseHead, Find;
    if Find(r.buffer, BLANK_LINE, 0).Some? {
      HeadIsFramed(r.buffer, r.limit);
      assert IsHistory(AdvanceHeader(r).value.buffer, 0, -1, "", [], "");
    }
  }

  /** AdvanceBody stays in the body or finishes; either way the state is valid again. */
  lemma AdvanceBodyContract(r: Request)
    requires r.phase == BodyPhase && Valid(r) && AdvanceBody(r).Ok?
    ensures var r' := AdvanceBody(r).value;
            && Valid(r') && r'.limit == r.limit && r'.fields == r.fields
            && (r'.phase == BodyPhase || r'.phase == DonePhase)
            && (r'.phase == BodyPhase && r.fields.contentLength >= 0 ==> r' == r)
  {
    hide Decode, History;
    if r.fields.contentLength == -1 && r.readPos < |r.buffer| {
      DecodeResumes(r.buffer, r.buffer, r.readPos, r.nextChunk, r.body, r.limit);
      if Decode(r.buffer, r.readPos, r.nextChunk, r.body, r.limit).More? {
        DecodeKeepsHistory(r.buffer, r.readPos, r.nextChunk, r.body, r.limit);
      }
    }
  }

  lemma LongerBufferIsValid(r: Request, data: string)
    requires Valid(r)
    ensures Valid(r.(buffer := r.buffer + data))
  {
    hide History;
    if r.phase == BodyPhase && r.fields.contentLength == -1 {
      HistoryOfLonger(r.buffer, r.buffer + data, r.readPos, r.nextChunk, r.body);
    }
  }

  function Rank(phase: Phase): nat {
    match phase case HeaderPhase => 0 case BodyPhase => 1 case DonePhase => 2
  }

  /** Every call keeps the state valid, never moves it back, and never lets the body pass the
      limit; a request that is done refuses all further input. */
  lemma ParseKeepsValid(r: Request, data: string)
    requires Valid(r)
    ensures match Parse(r, data)
            case Ok(r') => && Valid(r') && |r'.body| <= r.limit == r'.limit
                           && Rank(r.phase) <= Rank(r'.phase) && r.phase != DonePhase
            case Err(status) => r.phase == DonePhase ==> status == BadRequest
  {
    hide AdvanceHeader, AdvanceBody, ValidBody;
    LongerBufferIsValid(r, data);
    var r1 := r.(buffer := r.buffer + data);
    if r.phase == HeaderPhase && AdvanceHeader(r1).Ok? {
      AdvanceHeaderContract(r1);
      var r2 := AdvanceHeader(r1).value;
      if r2.phase == BodyPhase && AdvanceBody(r2).Ok? {
        AdvanceBodyContract(r2);
      }
    } else if r.phase == BodyPhase && AdvanceBody(r1).Ok? {
      AdvanceBodyContract(r1);
    }
  }

  // ---------- fragmentation ----------

  predicate Finished(o: Result<Request>) {
    o.Ok? && o.value.phase == DonePhase
  }

  /** The request finished by its Content-Length, so that later bytes stay in the buffer. */
  predicate FinishedByLength(o: Result<Request>) {
    Finished(o) && o.value.fields.contentLength >= 0
  }

  /** What more input `b` does to an outcome, had it been there from the start. */
  ghost predicate Extends(o: Result<Request>, b: string, whole: Result<Request>) {
    match o
    case Err(status) => whole == o
    case Ok(r) =>
      match r.phase
      case DonePhase =>
        if r.fields.contentLength >= 0 then whole == Ok(r.(buffer := r.buffer + b))
        else whole == if b == "" then o else Err(BadRequest)
      case _ => whole == Parse(r, b)
  }

  lemma ChunkedExtends(r: Request, b: string)
    requires Valid(r) && r.phase == BodyPhase && r.fields.contentLength == -1
    ensures Extends(AdvanceChunked(r), b, AdvanceChunked(r.(buffer := r.buffer + b)))
  {
    hide Decode, History;
    var u := r.buffer + b;
    DecodeResumes(r.buffer, u, r.readPos, r.nextChunk, r.body, r.limit);
    DecodeAtEnd(r.buffer, r.nextChunk, r.body, r.limit);
    DecodeAtEnd(u, r.nextChunk, r.body, r.limit);
    var d := Decode(r.buffer, r.readPos, r.nextChunk, r.body, r.limit);
    if d.More? {
      DecodeAtEnd(u, d.next, d.body, r.limit);
      assert AdvanceChunked(r) == Ok(r.(readPos := d.pos, nextChunk := d.next, body := d.body));
    }
  }

  /** With nothing unread the decoder waits, so returning early is the same. */
  lemma DecodeAtEnd(buf: string, next: PtrDiff, body: string, limit: nat)
    requires WithinLimit(next, body, limit)
    ensures Decode(buf, |buf|, next, body, limit) == More(|buf|, next, body)
  {}

  lemma BodyExtends(r: Request, b: string)
    requires Valid(r) && r.phase == BodyPhase
    ensures Extends(AdvanceBody(r), b, AdvanceBody(r.(buffer := r.buffer + b)))
  {
    hide AdvanceChunked, History;
    var n := r.fields.contentLength;
    if n == -1 {
      ChunkedExtends(r, b);
      if AdvanceChunked(r).Ok? {
        AdvanceBodyContract(r);
      }
    } else if 0 < n <= |r.buffer| {
      assert (r.buffer + b)[..n] == r.buffer[..n];
      assert (r.buffer + b)[n..] == r.buffer[n..] + b;
    }
  }

  lemma HeaderExtends(r: Request, b: string)
    requires Valid(r) && r.phase == HeaderPhase && Find(r.buffer, BLANK_LINE, 0).Some?
    ensures AdvanceHeader(r.(buffer := r.buffer + b))
         == match AdvanceHeader(r)
            case Err(status) => Err(status)
            case Ok(r') => Ok(r'.(buffer := r'.buffer + b))
  {
    hide ParseHead, Find;
    var i := Find(r.buffer, BLANK_LINE, 0).value;
    var u := r.buffer + b;
    FindAppend(r.buffer, b, BLANK_LINE);
    FindIsFirst(r.buffer, BLANK_LINE, 0);
    BlankLineAt(r.buffer, i);
    HeadIsLocal(r.buffer, u, r.limit, i + 4);
    assert u[i + 4..] == r.buffer[i + 4..] + b;
  }

  /** Parsing `a` first never loses information: errors stay, a finished request keeps or refuses
      the rest according to its framing, and otherwise parsing `b` next is parsing `a + b`. */
  lemma ParseExtends(r: Request, a: string, b: string)
    requires Valid(r) && r.phase != DonePhase
    ensures Extends(Parse(r, a), b, Parse(r, a + b))
  {
    hide AdvanceHeader, AdvanceBody, ValidBody, Find, ParseHead;
    LongerBufferIsValid(r, a);
    var r1 := r.(buffer := r.buffer + a);
    assert r1.buffer + b == r.buffer + (a + b);
    if r.phase == BodyPhase {
      BodyExtends(r1, b);
    } else if Find(r1.buffer, BLANK_LINE, 0).Some? {
      HeaderExtends(r1, b);
      if AdvanceHeader(r1).Ok? {
        AdvanceHeaderContract(r1);
        var r2 := AdvanceHeader(r1).value;
        assert r2.phase == BodyPhase by { AdvancedToBody(r1); }
        BodyExtends(r2, b);
      }
    } else {
      assert AdvanceHeader(r1) == Ok(r1) by { NoBlankLineYet(r1); }
    }
  }

  lemma AdvancedToBody(r: Request)
    requires Find(r.buffer, BLANK_LINE, 0).Some? && AdvanceHeader(r).Ok?
    ensures AdvanceHeader(r).value.phase == BodyPhase
  {}

  lemma NoBlankLineYet(r: Request)
    requires Find(r.buffer, BLANK_LINE, 0).None?
    ensures AdvanceHeader(r) == Ok(r)
  {}

  /** Two calls of Parse, the second only when the first returned. */
  function ParseTwice(r: Request, a: string, b: string): Result<Request>
  {
    match Parse(r, a)
    case Err(status) => Err(status)
    case Ok(r') => Parse(r', b)
  }

  /** Where a request is cut does not matter, unless the first piece already completed it by
      Content-Length: then, and only then, two calls differ from one. (A second call without any
      bytes, which the server does not make, is refused behind every finished request.) */
  lemma CuttingMattersExactlyAfterContentLength(r: Request, a: string, b: string)
    requires Valid(r) && r.phase != DonePhase
    ensures ParseTwice(r, a, b) == Parse(r, a + b) <==>
            !(if b == "" then Finished(Parse(r, a)) else FinishedByLength(Parse(r, a)))
  {
    hide Parse;
    ParseExtends(r, a, b);
    ParseKeepsValid(r, a);
    if Parse(r, a).Ok? && Parse(r, a).value.phase == DonePhase {
      ParseKeepsValid(Parse(r, a).value, b);
    }
  }
}
