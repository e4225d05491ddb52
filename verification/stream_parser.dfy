/** StreamParser's own functions; `strict` is what IsStrictCrlf answers. */
module StreamParser {
  import opened Text
  import opened Scanner

  /** kHeader, kBody, kDone. */
  datatype Phase = HeaderPhase | BodyPhase | DonePhase

  /** The position behind the first CRLFCRLF, or, leniently and only without one, behind the first "\n\n". */
  function EndOfHeader(s: string, strict: bool): (r: Option<nat>)
    ensures r.Some? ==> r.value <= |s|
  {
    match Find(s, BLANK_LINE, 0)
    case Some(p) => Some(p + 4)
    case None =>
      if strict then None
      else
        match Find(s, "\n\n", 0)
        case Some(p) => Some(p + 2)
        case None => None
  }

  method BumpLenOrThrow(total: nat, inc: nat) returns (r: Result<nat>)
    requires total <= MAX_HEADER_SIZE
    ensures r == if total + inc > MAX_HEADER_SIZE then Err(HeaderFieldsTooLarge) else Ok(total + inc)
  {
    if inc > MAX_HEADER_SIZE - total {
      return Err(HeaderFieldsTooLarge);
    }
    return Ok(total + inc);
  }

  method ReadHeaderLine(buffer: string, pos: nat, total: nat, strict: bool) returns (r: Result<HeaderLine>)
    requires pos <= |buffer| && total <= MAX_HEADER_SIZE
    ensures r == ReadLine(buffer, pos, total, strict)
    ensures r.Ok? ==> r.value.total <= MAX_HEADER_SIZE
  {
    var i := pos;
    var count := total;
    while At(buffer, i) != '\0' && At(buffer, i) != ':'
      invariant pos <= i <= |buffer| && count == total + (i - pos) <= MAX_HEADER_SIZE
      invariant Scan(NameScan, buffer, i, count) == Scan(NameScan, buffer, pos, total)
      decreases |buffer| - i
    {
      if !IsHeaderChar(At(buffer, i)) {
        return Err(BadRequest);
      }
      count :- BumpLenOrThrow(count, 1);
      i := i + 1;
    }
    if At(buffer, i) != ':' || At(buffer, i + 1) == '\0' || At(buffer, i + 1) != ' ' {
      return Err(BadRequest);
    }
    count :- BumpLenOrThrow(count, 2);
    r := ReadHeaderValue(buffer, pos, i, count, strict);
  }

  /** The second half of ReadHeaderLine, behind the ": " at `colon`. */
  method ReadHeaderValue(buffer: string, pos: nat, colon: nat, total: nat, strict: bool)
    returns (r: Result<HeaderLine>)
    requires pos <= colon && colon + 2 <= |buffer| && total <= MAX_HEADER_SIZE
    ensures r == ReadValue(buffer, pos, colon, total, strict)
    ensures r.Ok? ==> r.value.total <= MAX_HEADER_SIZE
  {
    var name := buffer[pos..colon];
    var start := colon + 2;
    var end := start;
    var count := total;
    while At(buffer, end) != '\0' && At(buffer, end) != '\r' && At(buffer, end) != '\n'
      invariant start <= end <= |buffer| && count == total + (end - start) <= MAX_HEADER_SIZE
      invariant Scan(ValueScan, buffer, end, count) == Scan(ValueScan, buffer, start, total)
      decreases |buffer| - end
    {
      if !IsHeaderChar(At(buffer, end)) {
        return Err(BadRequest);
      }
      count :- BumpLenOrThrow(count, 1);
      end := end + 1;
    }
    var value := buffer[start..end];
    if IsCrlfAt(buffer, end) {
      count :- BumpLenOrThrow(count, 2);
      return Ok(HeaderLine(name, value, end + 2, count));
    } else if !strict && At(buffer, end) == '\n' {
      count :- BumpLenOrThrow(count, 1);
      return Ok(HeaderLine(name, value, end + 1, count));
    }
    return Err(BadRequest);
  }
}
