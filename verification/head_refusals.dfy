/** Which request heads are refused, and with which status, told on the header map. */
module HeadRefusals {
  import opened Text
  import opened Scanner
  import opened RequestHead
  import opened HeadTheorems
  import opened HttpResponses

  // ---------- numbers ----------

  predicate IsNumeral(digits: string) {
    digits != "" && forall i | 0 <= i < |digits| :: '0' <= digits[i] <= '9'
  }

  /** The number that a numeral denotes. */
  function Value(digits: string): int {
    if digits == "" then 0
    else Value(digits[..|digits| - 1]) * 10 + (digits[|digits| - 1] as int - '0' as int)
  }

  predicate AllBlank(s: string) {
    forall i | 0 <= i < |s| :: s[i] in {' ', '\t', '\n', '\U{0B}', '\U{0C}', '\r'}
  }

  /** Blanks, a sign if any, and a numeral to the end. */
  predicate SpelledBy(s: string, n: int, blanks: string, sign: string, digits: string) {
    && AllBlank(blanks) && (sign == "" || sign == "+" || sign == "-") && IsNumeral(digits)
    && s == blanks + (sign + digits) && n == if sign == "-" then -Value(digits) else Value(digits)
  }

  /** The text is the number `n`. */
  ghost predicate Spells(s: string, n: int) {
    exists blanks, sign, digits :: SpelledBy(s, n, blanks, sign, digits)
  }

  lemma {:induction false} NumeralHasValue(digits: string)
    requires AllDigits(digits)
    ensures digits != "" ==> AllDigits(digits[..|digits| - 1])
    ensures DecimalFrom(0, digits) == Value(digits)
    decreases |digits|
  {
    if digits != "" {
      var init := digits[..|digits| - 1];
      assert init + [digits[|digits| - 1]] == digits;
      NumeralHasValue(init);
      DecimalOfConcat(0, init, digits[|digits| - 1]);
    }
  }

  lemma {:induction false} BlanksAreSkipped(blanks: string, s: string)
    requires AllBlank(blanks) && (s == "" || !IsSpace(s[0]))
    ensures SkipSpaces(blanks + s) == s
  {
    if blanks == "" {
      assert blanks + s == s;
    } else {
      assert (blanks + s)[0] == blanks[0] && (blanks + s)[1..] == blanks[1..] + s;
      BlanksAreSkipped(blanks[1..], s);
    }
  }

  lemma {:induction false} SkippedAreBlanks(s: string) returns (blanks: string)
    ensures AllBlank(blanks) && s == blanks + SkipSpaces(s)
    ensures SkipSpaces(s) == "" || !IsSpace(SkipSpaces(s)[0])
  {
    if s != "" && IsSpace(s[0]) {
      var more := SkippedAreBlanks(s[1..]);
      blanks := [s[0]] + more;
      assert s == [s[0]] + s[1..];
    } else {
      blanks := "";
    }
  }

  function Denoted(number: Number): int
    requires number.Number?
  {
    var m: int := number.magnitude;
    if number.negative then -m else m
  }

  /** The stream extraction succeeds exactly on the texts that are a number, with that number. */
  lemma NumberMeaning(s: string, n: int)
    ensures Spells(s, n) <==> ReadNumber(s).Number? && n == Denoted(ReadNumber(s))
  {
    hide SpelledBy, ReadNumber, Denoted;
    if Spells(s, n) {
      var blanks, sign, digits :| SpelledBy(s, n, blanks, sign, digits);
      SpelledIsRead(s, n, blanks, sign, digits);
    }
    if ReadNumber(s).Number? {
      var blanks, sign, digits := ReadIsSpelled(s);
    }
  }

  lemma ReadIsSpelled(s: string) returns (blanks: string, sign: string, digits: string)
    requires ReadNumber(s).Number?
    ensures SpelledBy(s, Denoted(ReadNumber(s)), blanks, sign, digits)
  {
    hide Value, DecimalFrom, SkipSpaces;
    var t := SkipSpaces(s);
    blanks := SkippedAreBlanks(s);
    sign := if t[0] == '-' || t[0] == '+' then [t[0]] else "";
    digits := if sign == "" then t else t[1..];
    assert t == sign + digits;
    NumeralHasValue(digits);
  }

  lemma SpelledIsRead(s: string, n: int, blanks: string, sign: string, digits: string)
    requires SpelledBy(s, n, blanks, sign, digits)
    ensures ReadNumber(s).Number? && n == Denoted(ReadNumber(s))
  {
    hide Value, DecimalFrom, SkipSpaces;
    var t := sign + digits;
    assert t[0] == (if sign == "" then digits[0] else sign[0]);
    BlanksAreSkipped(blanks, t);
    assert t[|sign|..] == digits;
    NumeralHasValue(digits);
  }

  lemma LongMeaning(s: string, n: int)
    ensures StrToLong(s) == Some(n) <==> Spells(s, n) && -0x8000_0000_0000_0000 <= n <= 0x7FFF_FFFF_FFFF_FFFF
  {
    hide Spells, ReadNumber;
    NumberMeaning(s, n);
  }

  /** An unsigned short is read modulo 2^16, from a number of at most 65535 on either side of zero. */
  lemma ShortMeaning(s: string, port: nat)
    ensures StrToUnsignedShort(s) == Some(port) <==>
            exists n :: Spells(s, n) && -65535 <= n <= 65535 && port == if n < 0 then n + 65536 else n
  {
    hide Spells, ReadNumber;
    if ReadNumber(s).Number? {
      NumberMeaning(s, Denoted(ReadNumber(s)));
    }
    forall n ensures Spells(s, n) <==>
                     ReadNumber(s).Number? && n == Denoted(ReadNumber(s))
    {
      NumberMeaning(s, n);
    }
  }

  // ---------- the four headers ----------

  /** The first `i` characters of a host value are the name: up to a colon, or all of it. */
  predicate NameEnds(v: string, i: nat) {
    i <= |v| && (forall q | 0 <= q < i :: v[q] != ':') && (i < |v| ==> v[i] == ':')
  }

  /** There is a host name. */
  ghost predicate HostNamed(h: map<string, string>) {
    "host" in h && exists i: nat :: i > 0 && NameEnds(h["host"], i)
  }

  /** The text behind the colon is a number that is read as this port. */
  ghost predicate PortSays(text: string, port: nat) {
    exists n :: Spells(text, n) && -65535 <= n <= 65535 && port == if n < 0 then n + 65536 else n
  }

  ghost predicate SaysAt(v: string, i: nat, name: string, port: nat) {
    NameEnds(v, i) && name == v[..i] && if i == |v| then port == 8080 else PortSays(v[i + 1..], port)
  }

  ghost predicate HostSays(h: map<string, string>, name: string, port: nat) {
    "host" in h && name != "" && exists i: nat :: SaysAt(h["host"], i, name, port)
  }

  ghost predicate HostReadable(h: map<string, string>) {
    exists name, port :: HostSays(h, name, port)
  }

  predicate FramedTwice(h: map<string, string>) {
    "content-length" in h && "transfer-encoding" in h
  }

  /** The announced length is a number that the server takes at all. */
  ghost predicate LengthSays(h: map<string, string>, n: int) {
    "content-length" in h && Spells(h["content-length"], n) && 0 <= n <= 1048576
  }

  ghost predicate LengthReadable(h: map<string, string>) {
    exists n :: LengthSays(h, n)
  }

  /** The length in the request: the announced one, -1 for chunks, 0 without a body. */
  ghost predicate FramingSays(h: map<string, string>, limit: nat, n: int) {
    && !FramedTwice(h)
    && ("content-length" in h ==> LengthSays(h, n) && n <= limit)
    && ("transfer-encoding" in h ==> h["transfer-encoding"] == "chunked" && n == -1)
    && ("content-length" !in h && "transfer-encoding" !in h ==> n == 0)
  }

  predicate ConnectionReadable(h: map<string, string>) {
    "connection" in h ==> h["connection"] == "close" || h["connection"] == "keep-alive"
  }

  predicate KeepsAlive(h: map<string, string>, version: string) {
    if "connection" in h then h["connection"] == "keep-alive" else version == "HTTP/1.1"
  }

  lemma NameEndsOnce(v: string, i: nat)
    requires NameEnds(v, i)
    ensures forall k: nat | NameEnds(v, k) :: k == i
  {}

  lemma NameIsFound(v: string)
    ensures NameEnds(v, match Find(v, ":", 0) case None => |v| case Some(i) => i)
    ensures Find(v, ":", 0).Some? ==> Find(v, ":", 0).value < |v|
  {
    FindIsFirst(v, ":", 0);
    forall i | 0 <= i < |v| ensures HasAt(v, i, ":") <==> v[i] == ':' {
      assert v[i..i + 1] == [v[i]];
    }
  }

  /** The name ends where the source's loop stops, and the port is read behind it. */
  lemma HostIsRead(v: string, name: string, port: nat)
    ensures var end := match Find(v, ":", 0) case None => |v| case Some(i) => i;
            && NameEnds(v, end) && (forall k: nat | NameEnds(v, k) :: k == end)
            && ((exists i: nat :: SaysAt(v, i, name, port)) <==>
                  name == v[..end]
                  && if end == |v| then port == 8080 else StrToUnsignedShort(v[end + 1..]) == Some(port))
  {
    hide StrToUnsignedShort, Find, NameEnds, PortSays;
    NameIsFound(v);
    var end := match Find(v, ":", 0) case None => |v| case Some(i) => i;
    NameEndsOnce(v, end);
    if end < |v| {
      PortIsRead(v[end + 1..], port);
    }
    assert SaysAt(v, end, name, port) <==> exists i: nat :: SaysAt(v, i, name, port);
  }

  lemma PortIsRead(text: string, port: nat)
    ensures StrToUnsignedShort(text) == Some(port) <==> PortSays(text, port)
  {
    ShortMeaning(text, port);
  }

  /** One host value says one name and one port. */
  lemma HostSaysOne(h: map<string, string>, name: string, port: nat)
    ensures HostSays(h, name, port) <==> HostOf(h) == Ok(Host(name, port))
  {
    hide StrToUnsignedShort, Find, NameEnds, SaysAt;
    if "host" in h {
      var v := h["host"];
      NameIsFound(v);
      HostIsRead(v, name, port);
      assert v[..|v|] == v;
    }
  }

  lemma HostMeaning(h: map<string, string>)
    ensures match HostOf(h)
            case Ok(host) => HostNamed(h) && HostSays(h, host.name, host.port)
            case Err(status) => status == if HostNamed(h) then InternalServerError else BadRequest
    ensures HostOf(h).Ok? <==> HostReadable(h)
  {
    hide StrToUnsignedShort, Find, NameEnds, HostSays;
    forall name, port ensures HostSays(h, name, port) <==> HostOf(h) == Ok(Host(name, port)) {
      HostSaysOne(h, name, port);
    }
    if "host" in h {
      NameIsFound(h["host"]);
      HostIsRead(h["host"], "", 0);
    }
    if HostOf(h).Ok? {
      assert HostSays(h, HostOf(h).value.name, HostOf(h).value.port);
    }
  }

  lemma FramingMeaning(h: map<string, string>, limit: nat, n: int)
    ensures BodyLengthOf(h, limit) == Ok(n) <==> FramingSays(h, limit, n)
  {
    hide Spells, StrToLong;
    if "content-length" in h {
      LongMeaning(h["content-length"], n);
    }
  }

  /** The framing is refused, in this order, if there are two, if the length is no number that the
      server takes, if it is above the limit, or if the coding is not "chunked". */
  lemma FramingRefusals(h: map<string, string>, limit: nat)
    ensures BodyLengthOf(h, limit).Err? ==>
              BodyLengthOf(h, limit)
              == Err(if FramedTwice(h) then BadRequest
                     else if "content-length" in h then (if LengthReadable(h) then PayloadTooLarge else BadRequest)
                     else NotImplemented)
  {
    hide Spells, StrToLong;
    if "content-length" in h && StrToLong(h["content-length"]).Some? {
      var m := StrToLong(h["content-length"]).value;
      LongMeaning(h["content-length"], m);
      assert 0 <= m <= 1048576 ==> LengthSays(h, m);
    }
    if LengthReadable(h) {
      var n :| LengthSays(h, n);
      LongMeaning(h["content-length"], n);
    }
  }

  ghost predicate FramingReadable(h: map<string, string>, limit: nat) {
    exists n :: FramingSays(h, limit, n)
  }

  /** Which heads are accepted: Host with a name and a readable port or none, one framing with a number
      within both bounds or "chunked", and "close" or "keep-alive" as connection. */
  ghost predicate Acceptable(h: map<string, string>, limit: nat) {
    HostReadable(h) && FramingReadable(h, limit) && ConnectionReadable(h)
  }

  /** The status of the first header that fails, in the order in which they are looked at. */
  ghost function Refusal(h: map<string, string>, limit: nat): Status {
    if !HostNamed(h) then BadRequest
    else if !HostReadable(h) then InternalServerError
    else if FramedTwice(h) then BadRequest
    else if "content-length" in h && !LengthReadable(h) then BadRequest
    else if "content-length" in h && !FramingReadable(h, limit) then PayloadTooLarge
    else if !FramingReadable(h, limit) then NotImplemented
    else BadRequest
  }

  /** The fields of an accepted head, one by one. */
  ghost predicate Says(f: Fields, src: Source, h: map<string, string>, limit: nat) {
    && f.verb == src.verb && f.uri == src.path && f.version == src.version && f.headers == h
    && f.query == (match src.query case None => "" case Some(q) => q)
    && HostSays(h, f.hostName, f.hostPort) && FramingSays(h, limit, f.contentLength)
    && ConnectionReadable(h) && (f.keepAlive <==> KeepsAlive(h, src.version))
  }

  /** A printed head is read exactly if its headers are acceptable, then with exactly these fields, and
      is otherwise refused with the status of the first header that fails. */
  lemma HeadsAreAcceptedExactly(s: string, src: Source, limit: nat)
    requires ValidSource(src) && HasAt(s, 0, PrintHead(src))
    ensures var h := HeaderMap(src.headers);
            match ParseHead(s, limit)
            case Ok(p) => Acceptable(h, limit) && Says(p.fields, src, h, limit) && p.next == |PrintHead(src)|
            case Err(status) => !Acceptable(h, limit) && status == Refusal(h, limit)
  {
    hide HeadAt, ParseHead, PrintHead, ValidSource, HeaderMap, HasAt;
    PrintHeadAt(s, src);
    HeadComplete(s, src, limit);
    MeaningExactly(src, limit);
  }

  lemma MeaningExactly(src: Source, limit: nat)
    ensures var h := HeaderMap(src.headers);
            match Meaning(src, limit)
            case Ok(f) => Acceptable(h, limit) && Says(f, src, h, limit)
            case Err(status) => !Acceptable(h, limit) && status == Refusal(h, limit)
  {
    hide HeaderMap, HostSays, FramingSays, HostNamed, HostOf, BodyLengthOf;
    var h := HeaderMap(src.headers);
    HostMeaning(h);
    FramingRefusals(h, limit);
    forall n ensures BodyLengthOf(h, limit) == Ok(n) <==> FramingSays(h, limit, n) {
      FramingMeaning(h, limit, n);
    }
  }

  /** Fields that the headers say are the fields that are read. */
  lemma FieldsAreUnique(src: Source, limit: nat, f: Fields)
    requires Says(f, src, HeaderMap(src.headers), limit)
    ensures Meaning(src, limit) == Ok(f)
  {
    hide HeaderMap, HostSays, FramingSays, HostOf, BodyLengthOf;
    var h := HeaderMap(src.headers);
    HostSaysOne(h, f.hostName, f.hostPort);
    FramingMeaning(h, limit, f.contentLength);
  }
}
