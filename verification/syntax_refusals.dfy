/** Which status a malformed request line or header section is refused with. */
module SyntaxRefusals {
  import opened Text
  import opened Scanner
  import opened RequestHead
  import opened HeadTheorems

  /** The characters from `pos` that may stand in this kind of text end at `end`. */
  predicate RunEnds(kind: Kind, s: string, pos: nat, end: nat) {
    pos <= end && (forall i | pos <= i < end :: Allowed(kind, At(s, i))) && !Allowed(kind, At(s, end))
  }

  lemma {:induction false} RunEndsSomewhere(kind: Kind, s: string, pos: nat) returns (end: nat)
    ensures RunEnds(kind, s, pos, end)
    decreases |s| - pos
  {
    end := pos;
    if pos < |s| && Allowed(kind, s[pos]) {
      end := RunEndsSomewhere(kind, s, pos + 1);
    }
  }

  /** What becomes of a scan over `n` allowed characters and the character `c` behind them. */
  function Outcome(kind: Kind, used: nat, n: nat, c: char, end: nat): Result<nat> {
    match kind
    case PathScan =>
      if n > 0 && used + n >= 1024 then Err(UriTooLong)
      else if c == ' ' || c == '?' || c == '\0' then Ok(end)
      else if c != '#' && used + n + 1 >= 1024 then Err(UriTooLong)
      else Err(BadRequest)
    case QueryScan =>
      if n > 0 && used + n >= 1024 then Err(UriTooLong)
      else if c == ' ' || c == '\0' then Ok(end)
      else if c != '#' && used + n + 1 >= 1024 then Err(UriTooLong)
      else Err(BadRequest)
    case VersionScan =>
      if c == '\r' || c == '\0' then Ok(end) else Err(BadRequest)
    case NameScan =>
      if n > 0 && used + n > 8192 then Err(HeaderFieldsTooLarge)
      else if c == ':' || c == '\0' then Ok(end)
      else Err(BadRequest)
    case ValueScan =>
      if n > 0 && used + n > 8192 then Err(HeaderFieldsTooLarge)
      else if c == '\r' || c == '\n' || c == '\0' then Ok(end)
      else Err(BadRequest)
  }

  lemma {:induction false} ScanExactly(kind: Kind, s: string, pos: nat, used: nat, end: nat)
    requires RunEnds(kind, s, pos, end)
    ensures Scan(kind, s, pos, used) == Outcome(kind, used, end - pos, At(s, end), end)
    decreases end - pos
  {
    if pos < end {
      assert Allowed(kind, At(s, pos));
      ScanExactly(kind, s, pos + 1, used + 1, end);
    }
  }

  // ---------- the request line ----------

  /** A target without a slash is refused with 400, one of 1024 bytes or more with 414, and any other
      one with 400 if a character stands in it that must not. */
  lemma TargetRefusals(s: string, pos: nat, end: nat)
    requires pos <= |s| && RunEnds(PathScan, s, pos, end)
    ensures At(s, pos) != '/' ==> ConsumeUri(s, pos) == Err(BadRequest)
    ensures At(s, pos) == '/' && end - pos >= 1024 ==> ConsumeUri(s, pos) == Err(UriTooLong)
    ensures At(s, pos) == '/' && end - pos < 1024 && At(s, end) == ' ' ==>
              end < |s| && ConsumeUri(s, pos) == Ok(Target(s[pos..end], "", end + 1))
    ensures At(s, pos) == '/' && end - pos < 1024 && (At(s, end) == '\0' || At(s, end) == '#') ==>
              ConsumeUri(s, pos) == Err(BadRequest)
    ensures At(s, pos) == '/' && end - pos < 1024 && At(s, end) !in {' ', '?', '\0', '#'} ==>
              ConsumeUri(s, pos) == Err(if end - pos == 1023 then UriTooLong else BadRequest)
  {
    ScanExactly(PathScan, s, pos, 0, end);
    hide Scan;
  }

  /** The same behind a '?', which counts as a byte of the target. */
  lemma QueryRefusals(s: string, pos: nat, mark: nat, end: nat)
    requires pos <= |s| && At(s, pos) == '/' && RunEnds(PathScan, s, pos, mark) && At(s, mark) == '?'
    requires mark - pos < 1023 && RunEnds(QueryScan, s, mark + 1, end)
    ensures end - pos >= 1024 && end > mark + 1 ==> ConsumeUri(s, pos) == Err(UriTooLong)
    ensures end - pos < 1024 && At(s, end) == ' ' ==>
              mark < end < |s| && ConsumeUri(s, pos) == Ok(Target(s[pos..mark], s[mark + 1..end], end + 1))
    ensures end - pos < 1024 && (At(s, end) == '\0' || At(s, end) == '#') ==> ConsumeUri(s, pos) == Err(BadRequest)
    ensures end - pos < 1024 && At(s, end) !in {' ', '\0', '#'} ==>
              ConsumeUri(s, pos) == Err(if end - pos == 1023 then UriTooLong else BadRequest)
  {
    ScanExactly(PathScan, s, pos, 0, mark);
    ScanExactly(QueryScan, s, mark + 1, mark + 1 - pos, end);
    hide Scan;
  }

  /** A '?' that is itself the 1024th byte. */
  lemma LateQueryIsTooLong(s: string, pos: nat, mark: nat)
    requires pos <= |s| && At(s, pos) == '/' && RunEnds(PathScan, s, pos, mark) && At(s, mark) == '?'
    requires mark - pos >= 1023
    ensures ConsumeUri(s, pos) == Err(UriTooLong)
  {
    ScanExactly(PathScan, s, pos, 0, mark);
    hide Scan;
  }

  /** Nothing but 400 comes of the version. */
  lemma VersionRefusals(s: string, pos: nat)
    requires pos <= |s| && ConsumeVersion(s, pos).Err?
    ensures ConsumeVersion(s, pos) == Err(BadRequest)
  {
    var end := RunEndsSomewhere(VersionScan, s, pos);
    ScanExactly(VersionScan, s, pos, 0, end);
    hide Scan;
  }

  /** The method is the one whose name and a space start the head. */
  lemma MethodsAreRead(s: string)
    ensures ConsumeMethod(s) == Get <==> "GET " <= s
    ensures ConsumeMethod(s) == Head <==> "HEAD " <= s
    ensures ConsumeMethod(s) == Post <==> "POST " <= s
    ensures ConsumeMethod(s) == Delete <==> "DELETE " <= s
  {
    assert "GET " <= s ==> s[0] == 'G';
    assert "HEAD " <= s ==> s[0] == 'H';
    assert "POST " <= s ==> s[0] == 'P';
    assert "DELETE " <= s ==> s[0] == 'D';
    TokensStart(s, "GET ");
    TokensStart(s, "HEAD ");
    TokensStart(s, "POST ");
    TokensStart(s, "DELETE ");
    hide HasAt;
  }

  lemma TokensStart(s: string, token: string)
    ensures HasAt(s, 0, token) <==> token <= s
  {}

  /** A head without one of the four method tokens is refused with 501, whatever else it holds. */
  lemma UnknownMethodIsRefused(s: string, limit: nat)
    ensures !(HasAt(s, 0, "GET ") || HasAt(s, 0, "HEAD ") || HasAt(s, 0, "POST ") || HasAt(s, 0, "DELETE ")) ==>
              ParseHead(s, limit) == Err(NotImplemented)
  {
    hide HasAt, ConsumeUri, ConsumeVersion, ParseSection;
  }

  // ---------- the header section ----------

  /** What a header line is refused with: 431 as soon as the bytes counted pass 8192, and 400 for a
      character that must not stand there, a colon without a space, or a missing line end. */
  lemma LineRefusals(s: string, pos: nat, total: nat, strict: bool, colon: nat, end: nat)
    requires pos <= |s| && RunEnds(NameScan, s, pos, colon)
    requires At(s, colon) == ':' && At(s, colon + 1) == ' ' ==> RunEnds(ValueScan, s, colon + 2, end)
    ensures ReadLine(s, pos, total, strict)
         == if colon > pos && total + (colon - pos) > 8192 then Err(HeaderFieldsTooLarge)
            else if At(s, colon) != ':' || At(s, colon + 1) != ' ' then Err(BadRequest)
            else if total + (colon - pos) + 2 > 8192 then Err(HeaderFieldsTooLarge)
            else if end > colon + 2 && total + (end - pos) > 8192 then Err(HeaderFieldsTooLarge)
            else
              var eol := if At(s, end) == '\r' && At(s, end + 1) == '\n' then 2
                         else if !strict && At(s, end) == '\n' then 1 else 0;
              if eol == 0 then Err(BadRequest)
              else if total + (end - pos) + eol > 8192 then Err(HeaderFieldsTooLarge)
              else if end + eol <= |s| && colon + 2 <= end
              then Ok(HeaderLine(s[pos..colon], s[colon + 2..end], end + eol, total + (end - pos) + eol))
              else Err(BadRequest)
  {
    ScanExactly(NameScan, s, pos, total, colon);
    if At(s, colon) == ':' && At(s, colon + 1) == ' ' {
      ScanExactly(ValueScan, s, colon + 2, total + (colon - pos) + 2, end);
    }
    hide Scan;
  }

  /** A section that fits but has a name twice is refused with 400. */
  lemma {:induction false} RepeatedNamesAreRefused(s: string, pos: nat, total: nat, m: map<string, string>,
                                                   headers: seq<Header>)
    requires LinesAt(s, pos, headers) && ValidHeaders(headers) && !FreshNames(m, headers)
    requires total + Length(headers) <= 8192
    ensures pos <= |s| && ParseLines(s, pos, total, m) == Err(BadRequest)
    decreases |headers|
  {
    hide ReadLine, HasAt;
    var h := headers[0];
    assert ValidHeader(h);
    LineStarts(s, pos, h);
    if Lower(h.name) in m {
      PrintLineAt(s, pos, h.name, h.value, CRLF);
      ReadLineComplete(s, pos, total, true, h.name, h.value, CRLF);
    } else {
      ParseOneLine(s, pos, total, m, h);
      RepeatedNamesAreRefused(s, pos + LineLength(h), total + LineLength(h), m[Lower(h.name) := h.value], headers[1..]);
    }
  }

  lemma LongLineIsRefused(s: string, pos: nat, total: nat, h: Header)
    requires LineAt(s, pos, h) && ValidHeader(h) && total + LineLength(h) > 8192
    ensures pos <= |s| && ReadLine(s, pos, total, true) == Err(HeaderFieldsTooLarge)
  {
    hide ReadLine, HasAt;
    LineStarts(s, pos, h);
    PrintLineAt(s, pos, h.name, h.value, CRLF);
    var colon := pos + |h.name|;
    var end := colon + 2 + |h.value|;
    SeparatorAt(s, colon);
    CharsAllowed(NameScan, s, pos, h.name);
    CharsAllowed(ValueScan, s, colon + 2, h.value);
    LineRefusals(s, pos, total, true, colon, end);
  }

  lemma CharsAllowed(kind: Kind, s: string, pos: nat, text: string)
    requires HasAt(s, pos, text) && AllAllowed(kind, text)
    ensures forall i | pos <= i < pos + |text| :: Allowed(kind, At(s, i))
  {
    HasAtChars(s, pos, text);
    forall i | pos <= i < pos + |text| ensures Allowed(kind, At(s, i)) {
      assert At(s, pos + (i - pos)) == text[i - pos];
    }
  }

  /** A section without such names that does not fit is refused with 431. */
  lemma {:induction false} LongSectionsAreRefused(s: string, pos: nat, total: nat, m: map<string, string>,
                                                  headers: seq<Header>)
    requires LinesAt(s, pos, headers) && ValidHeaders(headers) && FreshNames(m, headers)
    requires total <= 8192 < total + Length(headers)
    ensures pos <= |s| && ParseLines(s, pos, total, m) == Err(HeaderFieldsTooLarge)
    decreases |headers|
  {
    hide ReadLine, HasAt;
    if headers == [] {
      CrlfStarts(s, pos);
    } else {
      var h := headers[0];
      assert ValidHeader(h);
      LineStarts(s, pos, h);
      if total + LineLength(h) > 8192 {
        LongLineIsRefused(s, pos, total, h);
      } else {
        ParseOneLine(s, pos, total, m, h);
        LongSectionsAreRefused(s, pos + LineLength(h), total + LineLength(h), m[Lower(h.name) := h.value], headers[1..]);
      }
    }
  }
}
