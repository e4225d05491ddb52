/** CgiResponseParser: the lenient StreamParser that turns the output of a CGI program into a response. */
module CgiResponses {
  import opened Text
  import opened Scanner
  import opened StreamParser
  import opened RequestHead
  import opened HttpResponses

  /** StoreHeader. Only the spellings "Status" and "Location" are special. */
  function Store(res: Response, key: string, value: string): Result<Response> {
    if key == "Status" then
      var space := Find(value, " ", 0);
      var code := if space.Some? then value[..space.value] else value;
      var reason := if space.Some? then value[space.value + 1..] else "";
      match StrToLong(code)
      case None => Err(BadGateway)
      case Some(status) =>
        Ok(res.(status := status, reason := if reason == "" then StatusToString(status) else reason))
    else
      var redirected := if key == "Location" && res.status == 200
                        then res.(status := 302, reason := StatusToString(302)) else res;
      Ok(redirected.(headers := redirected.headers[Lower(key) := value]))
  }

  datatype CgiHead = CgiHead(res: Response, next: nat)

  predicate EndsFields(s: string, pos: nat) {
    At(s, pos) == '\0' || At(s, pos) == '\n' || IsCrlfAt(s, pos)
  }

  /** The header loop; `next` is the cursor it stops at. */
  function ParseFields(s: string, pos: nat, total: nat, res: Response): (r: Result<CgiHead>)
    requires pos <= |s|
    ensures r.Ok? ==> pos <= r.value.next <= |s| && EndsFields(s, r.value.next)
    decreases |s| - pos
  {
    if EndsFields(s, pos) then Ok(CgiHead(res, pos))
    else
      var line :- ReadLine(s, pos, total, false);
      var stored :- Store(res, line.name, line.value);
      ParseFields(s, line.next, line.total, stored)
  }

  const INITIAL := WithStatus(200)

  /** One call of Parse on a fresh parser; None while the head is incomplete. */
  function ParseOnce(s: string): Result<Option<Response>> {
    match EndOfHeader(s, false)
    case None => Ok(None)
    case Some(end) =>
      var head :- ParseFields(s, 0, 0, INITIAL);
      Ok(Some(head.res.(body := s[end..])))
  }

  /** ParseCgiResponse; without a content type, also when the head is incomplete, it is 502. */
  function ParseOutput(s: string): Result<Response> {
    var parsed :- ParseOnce(s);
    match parsed
    case None => Err(BadGateway)
    case Some(res) => if "content-type" in res.headers then Ok(res) else Err(BadGateway)
  }

  class CgiResponseParser {
    var buffer: string
    var phase: Phase
    const res: HttpResponse

    constructor ()
      ensures buffer == "" && phase == HeaderPhase && fresh(res) && res.Value() == INITIAL
    {
      buffer, phase := "", HeaderPhase;
      res := new HttpResponse(200);
    }

    /** In kDone the original would loop for ever: OnExtraDataAfterDone does nothing. */
    method Parse(data: string) returns (r: Result<()>)
      requires phase == HeaderPhase && res.Value() == INITIAL
      modifies this, res
      ensures match ParseOnce(old(buffer) + data)
              case Err(status) => r == Err(status)
              case Ok(None) => r == Ok(()) && phase == HeaderPhase && buffer == old(buffer) + data
                               && res.Value() == INITIAL
              case Ok(Some(parsed)) => r == Ok(()) && phase == DonePhase && buffer == "" && res.Value() == parsed
    {
      buffer := buffer + data;
      var advanced :- AdvanceHeader();
      if !advanced {
        return Ok(());
      }
      if phase != BodyPhase {
        assert false;  // OnInternalStateError
      }
      AdvanceBody();
      return Ok(());
    }

    method AdvanceHeader() returns (r: Result<bool>)
      requires phase == HeaderPhase
      modifies this, res
      ensures match EndOfHeader(old(buffer), false)
              case None => r == Ok(false) && phase == HeaderPhase && buffer == old(buffer) && res.Value() == old(res.Value())
              case Some(end) =>
                match ParseFields(old(buffer), 0, 0, old(res.Value()))
                case Err(status) => r == Err(status)
                case Ok(head) => r == Ok(true) && phase == BodyPhase && buffer == old(buffer)[end..]
                                 && res.Value() == head.res
    {
      hide Store, EndOfHeader, ReadLine;
      var endOfHeader := EndOfHeader(buffer, false);
      if endOfHeader.None? {
        return Ok(false);
      }
      var cur: nat, total: nat := 0, 0;
      while At(buffer, cur) != '\0'
        invariant cur <= |buffer| && total <= MAX_HEADER_SIZE && phase == HeaderPhase && buffer == old(buffer)
        invariant ParseFields(buffer, cur, total, res.Value()) == ParseFields(old(buffer), 0, 0, old(res.Value()))
        decreases |buffer| - cur
      {
        if IsCrlfAt(buffer, cur) {
          break;
        }
        if At(buffer, cur) == '\n' {
          break;
        }
        LineHasNoBreak(buffer, cur, total);
        var line :- ReadHeaderLine(buffer, cur, total, false);
        var stored :- StoreHeader(line.name, line.value);
        cur, total := line.next, line.total;
      }
      buffer := buffer[endOfHeader.value..];
      phase := BodyPhase;
      return Ok(true);
    }

    method StoreHeader(key: string, value: string) returns (r: Result<()>)
      requires NoLineBreak(key) && NoLineBreak(value)
      modifies res
      ensures match Store(old(res.Value()), key, value)
              case Err(status) => r == Err(status)
              case Ok(stored) => r == Ok(()) && res.Value() == stored
    {
      if key == "Status" {
        var spacePos := Find(value, " ", 0);
        var statusStr, reasonPhrase := value, "";
        if spacePos.Some? {
          statusStr := value[..spacePos.value];
          reasonPhrase := value[spacePos.value + 1..];
        }
        var statusCode := StrToLong(statusStr);
        if statusCode.None? {
          return Err(BadGateway);
        }
        if reasonPhrase == "" {
          res.SetStatus(statusCode.value);
        } else {
          res.SetStatusAndReason(statusCode.value, reasonPhrase);
        }
      } else {
        if key == "Location" {
          if res.status == 200 {
            res.SetStatus(302);
          }
        }
        var added := res.AddHeader(key, value);
        if !added {
          assert false;  // InvalidHeader
        }
      }
      return Ok(());
    }

    method AdvanceBody()
      modifies this, res`body
      ensures res.body == old(buffer) && buffer == "" && phase == DonePhase
    {
      res.SetBody(buffer);
      buffer := "";
      phase := DonePhase;
    }
  }

  method ParseCgiResponse(output: string) returns (r: Result<Response>)
    ensures r == ParseOutput(output)
  {
    var parser := new CgiResponseParser();
    assert "" + output == output;
    var parsed :- parser.Parse(output);
    var response := parser.res.Value();
    if "content-type" !in response.headers {
      return Err(BadGateway);
    }
    return Ok(response);
  }

  /** A line that was read cannot make AddHeader throw. */
  lemma LineHasNoBreak(s: string, pos: nat, total: nat)
    requires pos <= |s|
    ensures ReadLine(s, pos, total, false).Ok? ==>
              var l := ReadLine(s, pos, total, false).value; NoLineBreak(l.name) && NoLineBreak(l.value)
  {
    hide ReadLine;
    if ReadLine(s, pos, total, false).Ok? {
      var eol := ReadLineSound(s, pos, total, false);
    }
  }
}
